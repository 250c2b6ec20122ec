/**
 Spare drives (agent/chassis_db.py): the inventory with its reservations, the
 replacement specification derived from the failed drive's bay, and the stock
 items a field guide suggests.

 The inventory, the registered chassis and their slots are insertion-ordered
 dictionaries; here they are sequences of their values. Items and slots are
 values: a caller that keeps and mutates an item it handed in is not modelled.
 */
module SpareStock {
  import opened Options
  import Strings

  datatype Item = Item(
    id: string, serial: string, capacity: nat, interface: string, speed: nat, formFactor: string,
    condition: string, reservedFor: Option<(string, int)>)

  datatype Spec = Spec(minCapacity: nat, interface: string, minSpeed: nat, formFactor: string)

  datatype Bay = Bay(slot: int, formFactors: seq<string>, interfaces: seq<string>)

  datatype SlotState = SlotState(slot: int, serial: string, capacity: nat, interface: string, speed: nat,
                                 formFactor: string)

  datatype Chassis = Chassis(id: string, modelId: string, slots: seq<(int, SlotState)>)

  datatype Stock = Stock(inventory: seq<Item>, chassis: seq<Chassis>)

  // ---------------------------------------------------------------------
  // Matching
  // ---------------------------------------------------------------------

  predicate IsAvailable(i: Item) {
    i.reservedFor == None
  }

  /** A newer interface of the same family is accepted. */
  predicate Upgrades(wanted: string, offered: string) {
    (wanted == "SAS2" && offered == "SAS3") || (wanted == "SATA2" && offered == "SATA3")
  }

  /** `matches_spec`: zero and empty demand nothing. */
  predicate Matches(i: Item, spec: Spec) {
    && (spec.minCapacity != 0 ==> i.capacity >= spec.minCapacity)
    && (spec.interface != "" ==> i.interface == spec.interface || Upgrades(spec.interface, i.interface))
    && (spec.minSpeed != 0 ==> i.speed >= spec.minSpeed)
    && (spec.formFactor != "" ==>
          i.formFactor == spec.formFactor || (spec.formFactor == "3.5in" && i.formFactor == "2.5in"))
  }

  /** A 2.5in drive goes into a 3.5in bay with an adapter, not the reverse. */
  predicate TakesFormFactor(bay: Bay, formFactor: string) {
    formFactor in bay.formFactors || (formFactor == "2.5in" && "3.5in" in bay.formFactors)
  }

  /** `DriveBay.accepts` */
  predicate Accepts(bay: Bay, spec: Spec) {
    && (spec.formFactor != "" ==> TakesFormFactor(bay, spec.formFactor))
    && (spec.interface != "" ==> spec.interface in bay.interfaces)
  }

  predicate Candidate(i: Item, spec: Spec, availableOnly: bool) {
    (!availableOnly || IsAvailable(i)) && Matches(i, spec)
  }

  function ConditionOrder(condition: string): nat {
    if condition == "new" then 0 else if condition == "refurbished" then 1 else if condition == "used-tested" then 2
        else 9
  }

  /** The order of the suggestions: by condition, then by capacity. */
  predicate NotAfter(a: Item, b: Item) {
    ConditionOrder(a.condition) < ConditionOrder(b.condition)
    || (ConditionOrder(a.condition) == ConditionOrder(b.condition) && a.capacity <= b.capacity)
  }

  predicate Better(a: Item, b: Item) {
    !NotAfter(b, a)
  }

  predicate SameKey(a: Item, b: Item) {
    NotAfter(a, b) && NotAfter(b, a)
  }

  function Candidates(items: seq<Item>, spec: Spec, availableOnly: bool): seq<Item> {
    if items == [] then []
    else
      var last := items[|items| - 1];
      Candidates(items[..|items| - 1], spec, availableOnly) + if Candidate(last, spec, availableOnly) then [last]
          else []
  }

  function Insert(sorted: seq<Item>, x: Item): seq<Item> {
    if sorted == [] || NotAfter(sorted[|sorted| - 1], x) then sorted + [x]
    else Insert(sorted[..|sorted| - 1], x) + [sorted[|sorted| - 1]]
  }

  /** A stable sort; StableSortIsUnique says that there is no other. */
  function StableSort(items: seq<Item>): seq<Item> {
    if items == [] then [] else Insert(StableSort(items[..|items| - 1]), items[|items| - 1])
  }

  function FindMatching(items: seq<Item>, spec: Spec, availableOnly: bool): seq<Item> {
    StableSort(Candidates(items, spec, availableOnly))
  }

  // ---------------------------------------------------------------------
  // The derived specification
  // ---------------------------------------------------------------------

  function SlotForSerial(slots: seq<(int, SlotState)>, serial: string): Option<SlotState> {
    if slots == [] then None else if slots[0].1.serial == serial then Some(slots[0].1)
        else SlotForSerial(slots[1..], serial)
  }

  function FindDrive(chassis: seq<Chassis>, serial: string): Option<(Chassis, SlotState)> {
    if chassis == [] then None
    else match SlotForSerial(chassis[0].slots, serial)
      case Some(slot) => Some((chassis[0], slot))
      case None => FindDrive(chassis[1..], serial)
  }

  function BayBySlot(bays: seq<Bay>, slot: int): Option<Bay> {
    if bays == [] then None else if bays[0].slot == slot then Some(bays[0]) else BayBySlot(bays[1..], slot)
  }

  function InterfaceRank(interface: string): nat {
    if interface == "NVMe" then 5 else if interface == "SAS3" then 4 else if interface == "SAS2" then 3
    else if interface == "SATA3" then 2 else if interface == "SATA2" then 1 else 0
  }

  /** The first of the highest-ranked. */
  function Fastest(interfaces: seq<string>): (best: string)
    requires interfaces != []
    ensures best in interfaces && forall i | i in interfaces :: InterfaceRank(i) <= InterfaceRank(best)
    ensures InterfaceRank(best) == 0 ==> best == interfaces[0]
  {
    if |interfaces| == 1 then interfaces[0]
    else
      var best, last := Fastest(interfaces[..|interfaces| - 1]), interfaces[|interfaces| - 1];
      assert interfaces == interfaces[..|interfaces| - 1] + [last];
      if InterfaceRank(last) > InterfaceRank(best) then last else best
  }

  function Constrained(interface: string, bay: Option<Bay>): string {
    match bay
    case None => interface
    case Some(b) => if interface != "" && interface !in b.interfaces && b.interfaces != [] then Fastest(b.interfaces)
         else interface
  }

  type Models = map<string, seq<Bay>>

  function BayOf(models: Models, c: Chassis, s: SlotState): Option<Bay> {
    if c.modelId in models then BayBySlot(models[c.modelId], s.slot) else None
  }

  function SpecFor(models: Models, c: Chassis, s: SlotState): Spec {
    Spec(s.capacity, Constrained(s.interface, BayOf(models, c, s)), s.speed, s.formFactor)
  }

  /** No such drive, a specification, or the exception the code raises. */
  datatype Derived = NotFound | Derived(spec: Spec) | Raised

  /** `derive_replacement_spec`: when the drive is nowhere but the named chassis is
      registered, the code goes on without a slot. */
  function Derive(models: Models, chassis: seq<Chassis>, serial: string, chassisId: string): Derived {
    match FindDrive(chassis, serial)
    case Some(found) => Derived(SpecFor(models, found.0, found.1))
    case None => if chassisId != "" && Registered(chassis, chassisId) then Raised else NotFound
  }

  predicate Registered(chassis: seq<Chassis>, id: string) {
    exists c | c in chassis :: c.id == id
  }

  /** The suggestions of `build_field_guide`. */
  function Suggestions(stock: Stock, spec: Spec): seq<Item> {
    var matching := FindMatching(stock.inventory, spec, true);
    if |matching| <= 5 then matching else matching[..5]
  }

  // ---------------------------------------------------------------------
  // Inventory steps
  // ---------------------------------------------------------------------

  function IndexOf(items: seq<Item>, id: string): (i: nat)
    ensures i <= |items| && (i < |items| ==> items[i].id == id)
    ensures forall j | 0 <= j < i :: items[j].id != id
  {
    if items == [] || items[0].id == id then 0 else 1 + IndexOf(items[1..], id)
  }

  datatype Op =
    | Add(item: Item)
    | Remove(id: string)
    | Reserve(id: string, chassisId: string, slot: int)
    | Unreserve(id: string)
    | Rehoused(chassis: seq<Chassis>)

  function StepInventory(items: seq<Item>, op: Op): seq<Item> {
    match op
    case Add(item) =>
      var i := IndexOf(items, item.id);
      if i < |items| then items[i := item] else items + [item]
    case Remove(id) =>
      var i := IndexOf(items, id);
      if i < |items| then items[..i] + items[i + 1..] else items
    case Reserve(id, chassisId, slot) =>
      var i := IndexOf(items, id);
      if i < |items| && IsAvailable(items[i]) then items[i := items[i].(reservedFor := Some((chassisId, slot)))]
          else items
    case Unreserve(id) =>
      var i := IndexOf(items, id);
      if i < |items| then items[i := items[i].(reservedFor := None)] else items
    case Rehoused(_) => items
  }

  /** Registering, updating or unregistering chassis is one step that changes no item. */
  function Step(s: Stock, op: Op): Stock {
    Stock(StepInventory(s.inventory, op), if op.Rehoused? then op.chassis else s.chassis)
  }

  function Run(s: Stock, ops: seq<Op>): Stock {
    if ops == [] then s else Step(Run(s, ops[..|ops| - 1]), ops[|ops| - 1])
  }

  // ---------------------------------------------------------------------
  // The database
  // ---------------------------------------------------------------------

  class ChassisDatabase {
    const models: Models
    var inventory: seq<Item>
    var chassis: seq<Chassis>

    ghost function Now(): Stock
      reads this
    {
      Stock(inventory, chassis)
    }

    constructor (models: Models, chassis: seq<Chassis>)
      ensures Now() == Stock([], chassis) && this.models == models
    {
      this.models, this.chassis, inventory := models, chassis, [];
    }

    method AddToInventory(item: Item)
      modifies this`inventory
      ensures Now() == Step(old(Now()), Add(item))
    {
      var i := IndexOf(inventory, item.id);
      if i < |inventory| {
        inventory := inventory[i := item];
      } else {
        inventory := inventory + [item];
      }
    }

    method RemoveFromInventory(id: string) returns (removed: bool)
      modifies this`inventory
      ensures Now() == Step(old(Now()), Remove(id))
      ensures removed <==> exists x :: x in old(inventory) && x.id == id
    {
      var i := IndexOf(inventory, id);
      removed := i < |inventory|;
      if removed {
        assert inventory[i] in inventory;
        inventory := inventory[..i] + inventory[i + 1..];
      }
    }

    method ReserveForReplacement(id: string, chassisId: string, slot: int) returns (reserved: bool)
      modifies this`inventory
      ensures Now() == Step(old(Now()), Reserve(id, chassisId, slot))
      ensures var i := IndexOf(old(inventory), id);
              reserved <==> i < |old(inventory)| && IsAvailable(old(inventory)[i])
    {
      var i := IndexOf(inventory, id);
      if i == |inventory| || !IsAvailable(inventory[i]) {
        return false;
      }
      inventory := inventory[i := inventory[i].(reservedFor := Some((chassisId, slot)))];
      reserved := true;
    }

    method UnreserveItem(id: string) returns (known: bool)
      modifies this`inventory
      ensures Now() == Step(old(Now()), Unreserve(id))
      ensures known <==> exists x :: x in old(inventory) && x.id == id
    {
      var i := IndexOf(inventory, id);
      known := i < |inventory|;
      if known {
        assert inventory[i] in inventory;
        inventory := inventory[i := inventory[i].(reservedFor := None)];
      }
    }

    method FindMatchingInventory(spec: Spec, availableOnly: bool) returns (matching: seq<Item>)
      ensures matching == FindMatching(inventory, spec, availableOnly)
    {
      var candidates: seq<Item> := [];
      for n := 0 to |inventory|
        invariant candidates == Candidates(inventory[..n], spec, availableOnly)
      {
        assert inventory[..n + 1][..n] == inventory[..n];
        if (!availableOnly || IsAvailable(inventory[n])) && Matches(inventory[n], spec) {
          candidates := candidates + [inventory[n]];
        }
      }
      assert inventory[..|inventory|] == inventory;
      matching := StableSort(candidates);
    }

    /** The suggestions of the guide, if the drive is found; `raised` is the exception. */
    method BuildFieldGuide(serial: string, chassisId: string) returns (suggested: Option<seq<Item>>, raised: bool)
      ensures raised <==> Derive(models, chassis, serial, chassisId).Raised?
      ensures suggested == match Derive(models, chassis, serial, chassisId)
                           case Derived(spec) => Some(Suggestions(Now(), spec))
                           case _ => None
    {
      var derived := Derive(models, chassis, serial, chassisId);
      match derived {
        case NotFound => return None, false;
        case Raised => return None, true;
        case Derived(spec) =>
          var matching := FindMatchingInventory(spec, true);
          return Some(if |matching| <= 5 then matching else matching[..5]), false;
      }
    }
  }

  // ---------------------------------------------------------------------
  // The sort
  // ---------------------------------------------------------------------

  ghost predicate Sorted(s: seq<Item>) {
    forall i, j | 0 <= i < j < |s| :: NotAfter(s[i], s[j])
  }

  /** The items with the same key as k, in order. */
  function WithKey(s: seq<Item>, k: Item): seq<Item> {
    if s == [] then []
    else WithKey(s[..|s| - 1], k) + if SameKey(s[|s| - 1], k) then [s[|s| - 1]] else []
  }

  predicate AgreeAt(a: seq<Item>, b: seq<Item>, k: Item) {
    WithKey(a, k) == WithKey(b, k)
  }

  /** Both keep the items of every key in the same order. */
  ghost predicate SameOrders(a: seq<Item>, b: seq<Item>) {
    forall k :: AgreeAt(a, b, k)
  }

  lemma WithKeySnoc(s: seq<Item>, x: Item, k: Item)
    ensures WithKey(s + [x], k) == WithKey(s, k) + if SameKey(x, k) then [x] else []
  {
    assert (s + [x])[..|s|] == s;
  }

  lemma {:induction false} InsertPermutes(s: seq<Item>, x: Item)
    ensures multiset(Insert(s, x)) == multiset(s) + multiset{x}
  {
    if s != [] && !NotAfter(s[|s| - 1], x) {
      var init, last := s[..|s| - 1], s[|s| - 1];
      assert s == init + [last];
      InsertPermutes(init, x);
    }
  }

  lemma SortedSnoc(s: seq<Item>, last: Item)
    requires Sorted(s) && forall y | y in s :: NotAfter(y, last)
    ensures Sorted(s + [last])
  {
  }

  lemma {:induction false} InsertSorted(s: seq<Item>, x: Item)
    requires Sorted(s)
    ensures Sorted(Insert(s, x))
  {
    if s == [] {
    } else if NotAfter(s[|s| - 1], x) {
      forall y | y in s ensures NotAfter(y, x) {
        assert y == s[|s| - 1] || NotAfter(y, s[|s| - 1]);
      }
      SortedSnoc(s, x);
    } else {
      var init, last := s[..|s| - 1], s[|s| - 1];
      InsertSorted(init, x);
      InsertPermutes(init, x);
      forall y | y in Insert(init, x) ensures NotAfter(y, last) {
        assert y in multiset(Insert(init, x));
        assert y == x || y in multiset(init);
      }
      SortedSnoc(Insert(init, x), last);
    }
  }

  /** Inserting goes behind every item with the same key. */
  lemma {:induction false} InsertStable(s: seq<Item>, x: Item, k: Item)
    requires Sorted(s)
    ensures WithKey(Insert(s, x), k) == WithKey(s, k) + if SameKey(x, k) then [x] else []
  {
    if s == [] || NotAfter(s[|s| - 1], x) {
      WithKeySnoc(s, x, k);
    } else {
      var init, last := s[..|s| - 1], s[|s| - 1];
      InsertStable(init, x, k);
      WithKeySnoc(Insert(init, x), last, k);
      DifferentKeys(last, x, k);
      if SameKey(last, k) {
        assert !SameKey(x, k);
      } else {
        assert WithKey(s, k) == WithKey(init, k) + [] == WithKey(init, k);
      }
    }
  }

  lemma DifferentKeys(a: Item, b: Item, k: Item)
    requires !NotAfter(a, b)
    ensures !(SameKey(a, k) && SameKey(b, k))
  {
  }

  lemma {:induction false} StableSortSorts(items: seq<Item>)
    ensures Sorted(StableSort(items)) && multiset(StableSort(items)) == multiset(items)
  {
    if items == [] {
    } else {
      var init, last := items[..|items| - 1], items[|items| - 1];
      assert items == init + [last];
      StableSortSorts(init);
      InsertSorted(StableSort(init), last);
      InsertPermutes(StableSort(init), last);
    }
  }

  lemma {:induction false} StableSortKeepsOrder(items: seq<Item>, k: Item)
    ensures WithKey(StableSort(items), k) == WithKey(items, k)
  {
    if items == [] {
    } else {
      var init, last := items[..|items| - 1], items[|items| - 1];
      StableSortKeepsOrder(init, k);
      StableSortSorts(init);
      InsertStable(StableSort(init), last, k);
    }
  }

  lemma {:induction false} WithKeyIn(s: seq<Item>, k: Item, n: nat)
    requires n < |WithKey(s, k)|
    ensures WithKey(s, k)[n] in s && SameKey(WithKey(s, k)[n], k)
  {
    if n < |WithKey(s[..|s| - 1], k)| {
      WithKeyIn(s[..|s| - 1], k, n);
    }
  }

  /** The last of two sorted sequences with the same items per key is the same. */
  lemma SameLast(a: seq<Item>, b: seq<Item>)
    requires Sorted(a) && Sorted(b) && a != [] && b != [] && SameOrders(a, b)
    ensures a[|a| - 1] == b[|b| - 1]
  {
    var x, y := a[|a| - 1], b[|b| - 1];
    var n, m := |WithKey(a, x)| - 1, |WithKey(b, y)| - 1;
    assert AgreeAt(a, b, x) && AgreeAt(a, b, y);
    assert WithKey(a, x)[n] == x && WithKey(b, y)[m] == y;
    WithKeyIn(b, x, n);
    WithKeyIn(a, y, m);
    assert NotAfter(x, y) && NotAfter(y, x);
    assert WithKey(b, x)[n] == y;
  }

  lemma Cancel(u: seq<Item>, v: seq<Item>, t: seq<Item>)
    requires u + t == v + t
    ensures u == v
  {
    assert |u + t| == |v + t|;
    assert u == (u + t)[..|u|] && v == (v + t)[..|u|];
  }

  lemma SameKeysBefore(a: seq<Item>, b: seq<Item>, x: Item, k: Item)
    requires WithKey(a + [x], k) == WithKey(b + [x], k)
    ensures WithKey(a, k) == WithKey(b, k)
  {
    WithKeySnoc(a, x, k);
    WithKeySnoc(b, x, k);
    Cancel(WithKey(a, k), WithKey(b, k), if SameKey(x, k) then [x] else []);
  }

  lemma SameEmpty(a: seq<Item>, b: seq<Item>)
    requires SameOrders(a, b)
    ensures a == [] <==> b == []
  {
    assert a != [] ==> AgreeAt(a, b, a[|a| - 1]);
    assert b != [] ==> AgreeAt(a, b, b[|b| - 1]);
  }

  /** A sorted sequence that keeps the order within every key is determined by it:
      any stable sort computes StableSort. */
  lemma {:induction false} StableSortIsUnique(a: seq<Item>, b: seq<Item>)
    requires Sorted(a) && Sorted(b) && SameOrders(a, b)
    ensures a == b
  {
    if a == [] || b == [] {
      SameEmpty(a, b);
    } else {
      SameLast(a, b);
      var a', b', x := a[..|a| - 1], b[..|b| - 1], a[|a| - 1];
      assert a == a' + [x] && b == b' + [x];
      forall k ensures AgreeAt(a', b', k) {
        assert AgreeAt(a, b, k);
        SameKeysBefore(a', b', x, k);
      }
      StableSortIsUnique(a', b');
    }
  }

  // ---------------------------------------------------------------------
  // The suggestions
  // ---------------------------------------------------------------------

  /** The candidates are exactly the items that match, or of those the unreserved
      ones, each as often as it is in stock. */
  lemma {:induction false} CandidatesAre(items: seq<Item>, spec: Spec, availableOnly: bool, x: Item)
    ensures multiset(Candidates(items, spec, availableOnly))[x] ==
            if Candidate(x, spec, availableOnly) then multiset(items)[x] else 0
  {
    if items == [] {
    } else {
      var init, last := items[..|items| - 1], items[|items| - 1];
      assert items == init + [last];
      CandidatesAre(init, spec, availableOnly, x);
    }
  }

  /** A search finds, each as often as it is in stock, exactly the items that are at
      least as large and as fast as asked, of the interface asked for or the next
      generation of it, and of the form factor or 2.5in for 3.5in; the reserved ones
      among them too, unless only available ones are wanted. */
  lemma FoundExactly(items: seq<Item>, spec: Spec, availableOnly: bool, x: Item)
    ensures multiset(FindMatching(items, spec, availableOnly))[x] ==
            if && (availableOnly ==> x.reservedFor == None)
               && x.capacity >= spec.minCapacity && x.speed >= spec.minSpeed
               && (spec.interface in ["", x.interface] || (spec.interface == "SAS2" && x.interface == "SAS3")
                   || (spec.interface == "SATA2" && x.interface == "SATA3"))
               && (spec.formFactor in ["", x.formFactor] || (spec.formFactor == "3.5in" && x.formFactor == "2.5in"))
            then multiset(items)[x] else 0
  {
    StableSortSorts(Candidates(items, spec, availableOnly));
    CandidatesAre(items, spec, availableOnly, x);
  }

  /** A guide lists the first five, or all, of a sorted permutation of exactly the
      candidates. */
  lemma SuggestionsAreFirstFive(stock: Stock, spec: Spec)
    ensures var listed, all := Suggestions(stock, spec), FindMatching(stock.inventory, spec, true);
            && listed <= all && |listed| == (if |all| < 5 then |all| else 5)
            && Sorted(all) && multiset(all) == multiset(Candidates(stock.inventory, spec, true))
  {
    StableSortSorts(Candidates(stock.inventory, spec, true));
  }

  lemma ListedAreCandidates(stock: Stock, spec: Spec, x: Item)
    requires x in Suggestions(stock, spec)
    ensures x in stock.inventory && Candidate(x, spec, true)
  {
    SuggestionsAreFirstFive(stock, spec);
    CandidatesAre(stock.inventory, spec, true, x);
    var all := FindMatching(stock.inventory, spec, true);
    assert x in all;
    assert x in multiset(all);
    assert x in multiset(stock.inventory);
  }

  lemma CutOnlyAtFive(stock: Stock, spec: Spec, out: Item)
    requires out in stock.inventory && Candidate(out, spec, true) && out !in Suggestions(stock, spec)
    ensures |Suggestions(stock, spec)| == 5 && out in FindMatching(stock.inventory, spec, true)
  {
    var all := FindMatching(stock.inventory, spec, true);
    SuggestionsAreFirstFive(stock, spec);
    CandidatesAre(stock.inventory, spec, true, out);
    assert out in multiset(stock.inventory);
    assert out in multiset(all);
  }

  /** No matching unreserved item that is left out is strictly better than one that
      is listed, and one is left out only if five are listed. */
  lemma NoneBetterLeftOut(stock: Stock, spec: Spec, out: Item, listed: Item)
    requires out in stock.inventory && Candidate(out, spec, true) && out !in Suggestions(stock, spec)
    requires listed in Suggestions(stock, spec)
    ensures !Better(out, listed) && |Suggestions(stock, spec)| == 5
  {
    var all, shown := FindMatching(stock.inventory, spec, true), Suggestions(stock, spec);
    SuggestionsAreFirstFive(stock, spec);
    CutOnlyAtFive(stock, spec, out);
    var i :| 0 <= i < |all| && all[i] == out;
    var j :| 0 <= j < |shown| && shown[j] == listed;
    assert shown[j] == all[j];
    assert forall k | 0 <= k < |shown| :: all[k] == shown[k] != out;
  }

  // ---------------------------------------------------------------------
  // Reservations
  // ---------------------------------------------------------------------

  ghost predicate UniqueIds(items: seq<Item>) {
    forall i, j | 0 <= i < j < |items| :: items[i].id != items[j].id
  }

  lemma StepKeepsUnique(items: seq<Item>, op: Op)
    requires UniqueIds(items)
    ensures UniqueIds(StepInventory(items, op))
  {
  }

  lemma {:induction false} RunKeepsUnique(s: Stock, ops: seq<Op>)
    requires UniqueIds(s.inventory)
    ensures UniqueIds(Run(s, ops).inventory)
  {
    if ops == [] {
    } else {
      RunKeepsUnique(s, ops[..|ops| - 1]);
      StepKeepsUnique(Run(s, ops[..|ops| - 1]).inventory, ops[|ops| - 1]);
    }
  }

  /** The entry under an id, as the dictionary would give it. */
  function Entry(items: seq<Item>, id: string): Option<Item> {
    if items == [] then None else if items[0].id == id then Some(items[0]) else Entry(items[1..], id)
  }

  lemma {:induction false} EntryIs(items: seq<Item>, id: string, x: Item)
    requires UniqueIds(items)
    ensures Entry(items, id) == Some(x) <==> x in items && x.id == id
  {
    if items == [] {
    } else {
      assert forall y :: y in items <==> y == items[0] || y in items[1..];
      EntryIs(items[1..], id, x);
      forall y | y in items[1..] ensures y.id != items[0].id {
        var k :| 0 <= k < |items[1..]| && items[1..][k] == y;
        assert items[k + 1] == y;
      }
    }
  }

  /** What a call makes of the entry under an id. */
  function EntryAfter(was: Option<Item>, op: Op, id: string): Option<Item> {
    match op
    case Add(item) => if item.id == id then Some(item) else was
    case Remove(i) => if i == id then None else was
    case Reserve(i, chassisId, slot) =>
      if i == id && was.Some? && was.value.reservedFor == None then
        Some(was.value.(reservedFor := Some((chassisId, slot))))
      else was
    case Unreserve(i) => if i == id && was.Some? then Some(was.value.(reservedFor := None)) else was
    case Rehoused(_) => was
  }

  /** The list of entries is the dictionary: each call changes the entry under its
      own id, as it should, and no other. */
  lemma InventoryIsDictionary(s: Stock, op: Op, id: string)
    requires UniqueIds(s.inventory)
    ensures UniqueIds(Step(s, op).inventory)
    ensures Entry(Step(s, op).inventory, id) == EntryAfter(Entry(s.inventory, id), op, id)
  {
    StepKeepsUnique(s.inventory, op);
    var items, after := s.inventory, StepInventory(s.inventory, op);
    match EntryAfter(Entry(items, id), op, id)
    case Some(x) =>
      EntryKept(items, op, id, x);
      EntryIs(after, id, x);
    case None =>
      if Entry(after, id).Some? {
        EntryIs(after, id, Entry(after, id).value);
        EntryWas(items, op, id, Entry(after, id).value);
      }
  }

  /** Where the entry at position k goes, unless it is removed. */
  lemma PositionAfter(items: seq<Item>, op: Op, k: nat)
    requires UniqueIds(items) && k < |items| && EntryAfter(Some(items[k]), op, items[k].id).Some?
    ensures EntryAfter(Some(items[k]), op, items[k].id).value in StepInventory(items, op)
  {
    var after, x := StepInventory(items, op), EntryAfter(Some(items[k]), op, items[k].id).value;
    match op
    case Add(item) => OwnIndex(items, item.id, k); assert after[k] == x;
    case Remove(id) =>
      OwnIndex(items, id, k);
      var n := IndexOf(items, id);
      if n < |items| { assert after[if k < n then k else k - 1] == x; }
    case Reserve(id, _, _) => OwnIndex(items, id, k); assert after[k] == x;
    case Unreserve(id) => OwnIndex(items, id, k); assert after[k] == x;
    case Rehoused(_) =>
  }

  lemma OwnIndex(items: seq<Item>, id: string, k: nat)
    requires UniqueIds(items) && k < |items|
    ensures IndexOf(items, id) == k <==> items[k].id == id
  {
  }

  function Ids(items: seq<Item>): (ids: seq<string>)
    ensures |ids| == |items|
  {
    seq(|items|, i requires 0 <= i < |items| => items[i].id)
  }

  /** Entries keep their places: an added one goes to the end unless its id is there. */
  lemma InventoryOrder(s: Stock, op: Op)
    ensures var was, ids := Ids(s.inventory), Ids(Step(s, op).inventory);
            match op
            case Add(item) => ids == if item.id in was then was else was + [item.id]
            case Remove(id) =>
              if id in was then exists i :: 0 <= i < |was| && was[i] == id && ids == was[..i] + was[i + 1..]
              else ids == was
            case _ => ids == was
  {
    match op
    case Add(item) =>
      var i := IndexOf(s.inventory, item.id);
      assert i < |s.inventory| ==> Ids(s.inventory)[i] == item.id;
    case Remove(id) =>
      var i := IndexOf(s.inventory, id);
      if i < |s.inventory| {
        assert Ids(s.inventory)[i] == id;
        assert Ids(Step(s, op).inventory) == Ids(s.inventory)[..i] + Ids(s.inventory)[i + 1..];
      }
    case _ =>
  }

  lemma EntryKept(items: seq<Item>, op: Op, id: string, x: Item)
    requires UniqueIds(items) && EntryAfter(Entry(items, id), op, id) == Some(x)
    ensures x in StepInventory(items, op) && x.id == id
  {
    if Entry(items, id).Some? {
      EntryIs(items, id, Entry(items, id).value);
      var k :| 0 <= k < |items| && items[k] == Entry(items, id).value;
      PositionAfter(items, op, k);
    } else {
      var i := IndexOf(items, id);
      if i < |items| { EntryIs(items, id, items[i]); }
      assert StepInventory(items, op)[|items|] == x;
    }
  }

  lemma EntryWas(items: seq<Item>, op: Op, id: string, x: Item)
    requires UniqueIds(items) && x in StepInventory(items, op) && x.id == id
    ensures EntryAfter(Entry(items, id), op, id) != None
  {
    var after := StepInventory(items, op);
    var k :| 0 <= k < |after| && after[k] == x;
    if op.Add? && op.item.id == id {
    } else {
      var n := if op.Remove? && k >= IndexOf(items, op.id) then k + 1 else k;
      EntryIs(items, id, items[n]);
    }
  }

  /** Every entry under this id is reserved for this place. */
  predicate HeldFor(items: seq<Item>, id: string, place: (string, int)) {
    forall x | x in items && x.id == id :: x.reservedFor == Some(place)
  }

  /** Clears or replaces the entry under this id. */
  predicate Releases(op: Op, id: string) {
    (op.Unreserve? && op.id == id) || (op.Add? && op.item.id == id)
  }

  lemma ReserveHolds(items: seq<Item>, id: string, chassisId: string, slot: int)
    requires UniqueIds(items) && IndexOf(items, id) < |items| && IsAvailable(items[IndexOf(items, id)])
    ensures HeldFor(StepInventory(items, Reserve(id, chassisId, slot)), id, (chassisId, slot))
  {
  }

  lemma StepKeepsHeld(items: seq<Item>, op: Op, id: string, place: (string, int))
    requires HeldFor(items, id, place) && !Releases(op, id)
    ensures HeldFor(StepInventory(items, op), id, place)
  {
    forall x | x in StepInventory(items, op) && x.id == id ensures x.reservedFor == Some(place) {
      var j :| 0 <= j < |StepInventory(items, op)| && StepInventory(items, op)[j] == x;
      if op.Reserve? && j == IndexOf(items, op.id) && op.id == id {
        assert items[j] in items;
      }
    }
  }

  lemma {:induction false} RunKeepsHeld(s: Stock, ops: seq<Op>, id: string, place: (string, int))
    requires HeldFor(s.inventory, id, place) && forall n | 0 <= n < |ops| :: !Releases(ops[n], id)
    ensures HeldFor(Run(s, ops).inventory, id, place)
  {
    if ops == [] {
    } else {
      RunKeepsHeld(s, ops[..|ops| - 1], id, place);
      StepKeepsHeld(Run(s, ops[..|ops| - 1]).inventory, ops[|ops| - 1], id, place);
    }
  }

  /** Once reserved, an item keeps its reservation, and no guide suggests it,
      whatever specification it is for, until it is unreserved or its entry is
      replaced; in particular no other reservation takes it. */
  lemma ReservedUntilReleased(s: Stock, id: string, chassisId: string, slot: int, ops: seq<Op>, spec: Spec)
    requires UniqueIds(s.inventory) && IndexOf(s.inventory, id) < |s.inventory|
    requires IsAvailable(s.inventory[IndexOf(s.inventory, id)])
    requires forall n | 0 <= n < |ops| :: !Releases(ops[n], id)
    ensures var later := Run(Step(s, Reserve(id, chassisId, slot)), ops);
            && HeldFor(later.inventory, id, (chassisId, slot))
            && forall x | x in Suggestions(later, spec) :: x.id != id
  {
    ReserveHolds(s.inventory, id, chassisId, slot);
    RunKeepsHeld(Step(s, Reserve(id, chassisId, slot)), ops, id, (chassisId, slot));
    var later := Run(Step(s, Reserve(id, chassisId, slot)), ops);
    forall x | x in Suggestions(later, spec) ensures x.id != id {
      ListedAreCandidates(later, spec, x);
    }
  }

  // ---------------------------------------------------------------------
  // What a suggestion is good for
  // ---------------------------------------------------------------------

  /** The derived interface is one the bay supports, if it lists any: the failed
      drive's own, or else the fastest of the bay's; if it lists none that is
      known, the first. */
  lemma DerivedInterfaceSupported(interface: string, bay: Bay)
    requires interface != "" && bay.interfaces != []
    ensures var derived := Constrained(interface, Some(bay));
            && derived in bay.interfaces
            && derived == if interface in bay.interfaces then interface
                          else if "NVMe" in bay.interfaces then "NVMe"
                          else if "SAS3" in bay.interfaces then "SAS3"
                          else if "SAS2" in bay.interfaces then "SAS2"
                          else if "SATA3" in bay.interfaces then "SATA3"
                          else if "SATA2" in bay.interfaces then "SATA2"
                          else bay.interfaces[0]
  {
  }

  /** A drive that can take the failed one's place: as large and as fast, of the
      wanted interface or the next generation of it, and of the same form factor,
      or 2.5in for 3.5in. What is not known does not matter. */
  predicate GoodFor(x: Item, failed: SlotState, interface: string) {
    && x.capacity >= failed.capacity && x.speed >= failed.speed
    && (interface == "" || x.interface == interface
        || (interface == "SAS2" && x.interface == "SAS3") || (interface == "SATA2" && x.interface == "SATA3"))
    && (failed.formFactor == "" || x.formFactor == failed.formFactor
        || (failed.formFactor == "3.5in" && x.formFactor == "2.5in"))
  }

  /** A guide suggests only free items that can take the failed drive's place, and
      all of them, unless five are listed. */
  lemma SuggestedExactly(models: Models, stock: Stock, c: Chassis, s: SlotState, x: Item)
    requires x in stock.inventory
    ensures var listed := Suggestions(stock, SpecFor(models, c, s));
            var good := x.reservedFor == None && GoodFor(x, s, Constrained(s.interface, BayOf(models, c, s)));
            && (x in listed ==> good) && (good && x !in listed ==> |listed| == 5)
  {
    var spec := SpecFor(models, c, s);
    if x in Suggestions(stock, spec) {
      ListedAreCandidates(stock, spec, x);
    } else if Candidate(x, spec, true) {
      CutOnlyAtFive(stock, spec, x);
    }
  }

  /** A guide lists new items first, then refurbished, then used ones that were
      tested, then all others, and within each the smaller before the larger. */
  lemma ListedByCondition(stock: Stock, spec: Spec, i: nat, j: nat)
    requires i < j < |Suggestions(stock, spec)|
    ensures var a, b := Suggestions(stock, spec)[i], Suggestions(stock, spec)[j];
            && (b.condition == "new" ==> a.condition == "new")
            && (b.condition == "refurbished" ==> a.condition in {"new", "refurbished"})
            && (b.condition == "used-tested" ==> a.condition in {"new", "refurbished", "used-tested"})
            && (a.condition == b.condition || (a.condition !in {"new", "refurbished", "used-tested"}
                                               && b.condition !in {"new", "refurbished", "used-tested"})
                ==> a.capacity <= b.capacity)
  {
    SuggestionsAreFirstFive(stock, spec);
    var all := FindMatching(stock.inventory, spec, true);
    assert Suggestions(stock, spec)[i] == all[i] && Suggestions(stock, spec)[j] == all[j];
    assert NotAfter(all[i], all[j]);
  }

  /** A larger, faster drive of the same kind matches wherever the smaller does. */
  lemma LargerStillMatches(small: Item, large: Item, spec: Spec)
    requires Matches(small, spec) && large.capacity >= small.capacity && large.speed >= small.speed
    requires large.interface == small.interface && large.formFactor == small.formFactor
    ensures Matches(large, spec)
  {
  }

  /** Of two unreserved drives of one kind and condition, both good for the bay, a
      guide never suggests the larger without the smaller, and leaves the larger
      out after suggesting the smaller only if five are listed. */
  lemma SmallerFirst(stock: Stock, spec: Spec, small: Item, large: Item)
    requires small in stock.inventory && large in stock.inventory && IsAvailable(small) && IsAvailable(large)
    requires Matches(small, spec) && large.capacity > small.capacity && large.speed >= small.speed
    requires large.interface == small.interface && large.formFactor == small.formFactor
             && large.condition == small.condition
    ensures large in Suggestions(stock, spec) ==> small in Suggestions(stock, spec)
    ensures small in Suggestions(stock, spec) && large !in Suggestions(stock, spec) ==> |Suggestions(stock, spec)| == 5
  {
    LargerStillMatches(small, large, spec);
    if large in Suggestions(stock, spec) && small !in Suggestions(stock, spec) {
      NoneBetterLeftOut(stock, spec, small, large);
    } else if small in Suggestions(stock, spec) && large !in Suggestions(stock, spec) {
      NoneBetterLeftOut(stock, spec, large, small);
    }
  }

  /** What a drive of the item's kind asks of a bay. */
  function KindOf(i: Item): Spec {
    Spec(i.capacity, i.interface, i.speed, i.formFactor)
  }

  /** The bay accepts the derived specification exactly when it lists an interface,
      if the failed drive's is known, and takes the failed drive's form factor, if
      that is known. */
  lemma DerivedSpecAccepted(models: Models, c: Chassis, s: SlotState, bay: Bay)
    requires BayOf(models, c, s) == Some(bay)
    ensures Accepts(bay, SpecFor(models, c, s)) <==>
            && (s.interface != "" ==> bay.interfaces != [])
            && (s.formFactor != "" ==> TakesFormFactor(bay, s.formFactor))
  {
  }

  /** A suggested item goes into the bay of the failed drive exactly when the bay
      lists its interface, if that is known, and its form factor is unknown, or the
      failed drive's is known and taken by the bay, or the item's own is taken: an
      upgrade, or any form factor for an unknown one, is suggested whether or not
      the bay supports it. */
  lemma SuggestionFitsBay(models: Models, stock: Stock, c: Chassis, s: SlotState, bay: Bay, i: Item)
    requires BayOf(models, c, s) == Some(bay) && i in Suggestions(stock, SpecFor(models, c, s))
    ensures Accepts(bay, KindOf(i)) <==>
            && (i.interface != "" ==> i.interface in bay.interfaces)
            && (|| i.formFactor == ""
                || (s.formFactor != "" && s.formFactor in bay.formFactors)
                || (s.formFactor == "2.5in" && "3.5in" in bay.formFactors)
                || i.formFactor in bay.formFactors
                || (i.formFactor == "2.5in" && "3.5in" in bay.formFactors))
  {
    ListedAreCandidates(stock, SpecFor(models, c, s), i);
  }

  /** Whatever is in stock, a guide for this slot suggests only items its bay accepts. */
  ghost predicate EveryGuideFits(models: Models, c: Chassis, s: SlotState, bay: Bay) {
    forall stock: Stock, i: Item | i in Suggestions(stock, SpecFor(models, c, s)) :: Accepts(bay, KindOf(i))
  }

  /** The bay lists the interface, and the newer one that is accepted in its place. */
  predicate SafeInterface(bay: Bay, interface: string) {
    && interface != "" && interface in bay.interfaces
    && (interface == "SAS2" ==> "SAS3" in bay.interfaces) && (interface == "SATA2" ==> "SATA3" in bay.interfaces)
  }

  predicate SafeFormFactor(bay: Bay, formFactor: string) {
    formFactor != "" && TakesFormFactor(bay, formFactor)
  }

  /** The guides for a slot fit its bay for every stock exactly when the derived
      interface and the failed drive's form factor are known to the bay, with the
      upgrade of the interface. */
  lemma EveryGuideFitsExactly(models: Models, c: Chassis, s: SlotState, bay: Bay)
    requires BayOf(models, c, s) == Some(bay)
    ensures EveryGuideFits(models, c, s, bay) <==>
            SafeInterface(bay, Constrained(s.interface, Some(bay))) && SafeFormFactor(bay, s.formFactor)
  {
    var spec := SpecFor(models, c, s);
    if SafeInterface(bay, spec.interface) && SafeFormFactor(bay, s.formFactor) {
      forall stock: Stock, i: Item | i in Suggestions(stock, spec) ensures Accepts(bay, KindOf(i)) {
        SuggestionFitsBay(models, stock, c, s, bay, i);
        ListedAreCandidates(stock, spec, i);
      }
    } else {
      var i := MisfitFor(bay, spec);
      OneItemMatches(i, spec);
      assert i in Suggestions(Stock([i], []), spec);
    }
  }

  /** An item that matches but does not go in. */
  lemma MisfitFor(bay: Bay, spec: Spec) returns (i: Item)
    requires !SafeInterface(bay, spec.interface) || !SafeFormFactor(bay, spec.formFactor)
    ensures Candidate(i, spec, true) && !Accepts(bay, KindOf(i))
  {
    var known := set x | x in bay.interfaces;
    var taken := (set x | x in bay.formFactors) + {"2.5in"};
    var otherInterface := Strings.Fresh(known);
    var otherFormFactor := Strings.Fresh(taken);
    var interface :=
      if spec.interface == "" then otherInterface
      else if SafeInterface(bay, spec.interface) || spec.interface !in bay.interfaces then spec.interface
      else if spec.interface == "SAS2" then "SAS3" else "SATA3";
    var formFactor := if spec.formFactor == "" then otherFormFactor else spec.formFactor;
    i := Item("", "", spec.minCapacity, interface, spec.minSpeed, formFactor, "new", None);
  }

  /** One chassis with one bay, whose drive failed, and one item in stock. */
  lemma OnlyItemSuggested(bay: Bay, slot: SlotState, i: Item)
    requires bay.slot == slot.slot && bay.interfaces == [slot.interface] && slot.interface != ""
    requires Candidate(i, Spec(slot.capacity, slot.interface, slot.speed, slot.formFactor), true)
    ensures var models: Models := map["m" := [bay]];
            var chassis := [Chassis("c", "m", [(slot.slot, slot)])];
            var derived := Derive(models, chassis, slot.serial, "");
            derived.Derived? && i in Suggestions(Stock([i], chassis), derived.spec)
  {
    var slots := [(slot.slot, slot)];
    assert SlotForSerial(slots, slot.serial) == Some(slot);
    assert FindDrive([Chassis("c", "m", slots)], slot.serial) == Some((Chassis("c", "m", slots), slot));
    assert BayBySlot([bay], slot.slot) == Some(bay);
    OneItemMatches(i, Spec(slot.capacity, slot.interface, slot.speed, slot.formFactor));
  }

  /** A guide for a SAS2 drive in a bay that lists only SAS2 suggests a SAS3 drive
      that the bay does not accept. */
  lemma UpgradeDoesNotFit(i: Item, serial: string)
    requires i.interface == "SAS3" && i.formFactor == "3.5in" && IsAvailable(i)
    ensures var bay := Bay(0, ["3.5in"], ["SAS2"]);
            var models: Models := map["m" := [bay]];
            var chassis := [Chassis("c", "m", [(0, SlotState(0, serial, i.capacity, "SAS2", i.speed, "3.5in"))])];
            var derived := Derive(models, chassis, serial, "");
            && derived.Derived? && i in Suggestions(Stock([i], chassis), derived.spec) && !Accepts(bay, KindOf(i))
  {
    OnlyItemSuggested(Bay(0, ["3.5in"], ["SAS2"]), SlotState(0, serial, i.capacity, "SAS2", i.speed, "3.5in"), i);
  }

  /** A guide for a drive of unknown form factor in a 2.5in bay suggests a 3.5in
      drive. */
  lemma UnknownFormFactorDoesNotFit(i: Item, serial: string)
    requires i.interface == "SAS2" && i.formFactor == "3.5in" && IsAvailable(i)
    ensures var bay := Bay(0, ["2.5in"], ["SAS2"]);
            var models: Models := map["m" := [bay]];
            var chassis := [Chassis("c", "m", [(0, SlotState(0, serial, i.capacity, "SAS2", i.speed, ""))])];
            var derived := Derive(models, chassis, serial, "");
            && derived.Derived? && i in Suggestions(Stock([i], chassis), derived.spec) && !Accepts(bay, KindOf(i))
  {
    OnlyItemSuggested(Bay(0, ["2.5in"], ["SAS2"]), SlotState(0, serial, i.capacity, "SAS2", i.speed, ""), i);
  }

  lemma OneItemMatches(i: Item, spec: Spec)
    requires Candidate(i, spec, true)
    ensures FindMatching([i], spec, true) == [i]
  {
    assert [i][..0] == [];
    assert Candidates([i], spec, true) == [i];
    assert StableSort([]) == [] && Insert([], i) == [i];
    assert StableSort([i]) == Insert(StableSort([i][..0]), i);
  }

  lemma {:induction false} NotInAnySlot(chassis: seq<Chassis>, serial: string)
    ensures FindDrive(chassis, serial) == None <==>
            forall c | c in chassis :: forall s | s in c.slots :: s.1.serial != serial
  {
    if chassis == [] {
    } else {
      assert chassis == [chassis[0]] + chassis[1..];
      NotInSlots(chassis[0].slots, serial);
      NotInAnySlot(chassis[1..], serial);
    }
  }

  lemma {:induction false} NotInSlots(slots: seq<(int, SlotState)>, serial: string)
    ensures SlotForSerial(slots, serial) == None <==> forall s | s in slots :: s.1.serial != serial
  {
    if slots == [] {
    } else {
      assert slots == [slots[0]] + slots[1..];
      NotInSlots(slots[1..], serial);
    }
  }

  lemma {:induction false} SlotFound(slots: seq<(int, SlotState)>, serial: string, j: nat)
    requires j < |slots| && slots[j].1.serial == serial && forall k | 0 <= k < j :: slots[k].1.serial != serial
    ensures SlotForSerial(slots, serial) == Some(slots[j].1)
  {
    if j > 0 { SlotFound(slots[1..], serial, j - 1); }
  }

  lemma {:induction false} DriveFound(chassis: seq<Chassis>, serial: string, i: nat, s: SlotState)
    requires i < |chassis| && SlotForSerial(chassis[i].slots, serial) == Some(s)
    requires forall k | 0 <= k < i :: SlotForSerial(chassis[k].slots, serial) == None
    ensures FindDrive(chassis, serial) == Some((chassis[i], s))
  {
    if i > 0 {
      assert SlotForSerial(chassis[0].slots, serial) == None;
      forall k | 0 <= k < i - 1 ensures SlotForSerial(chassis[1..][k].slots, serial) == None {
        assert chassis[1..][k] == chassis[k + 1];
      }
      DriveFound(chassis[1..], serial, i - 1, s);
    }
  }

  lemma {:induction false} BayFound(bays: seq<Bay>, slot: int, n: nat)
    requires n < |bays| && bays[n].slot == slot && forall k | 0 <= k < n :: bays[k].slot != slot
    ensures BayBySlot(bays, slot) == Some(bays[n])
  {
    if n > 0 { BayFound(bays[1..], slot, n - 1); }
  }

  /** The specification is derived from the first slot, of the first chassis, that
      holds the drive, and the bay at that slot of the chassis's model. */
  lemma DerivedForDrive(models: Models, chassis: seq<Chassis>, serial: string, chassisId: string, i: nat, j: nat,
                        n: nat)
    requires i < |chassis| && j < |chassis[i].slots| && chassis[i].slots[j].1.serial == serial
    requires forall k | 0 <= k < j :: chassis[i].slots[k].1.serial != serial
    requires forall c | c in chassis[..i] :: forall s | s in c.slots :: s.1.serial != serial
    requires chassis[i].modelId in models && n < |models[chassis[i].modelId]|
    requires models[chassis[i].modelId][n].slot == chassis[i].slots[j].1.slot
    requires forall k | 0 <= k < n :: models[chassis[i].modelId][k].slot != chassis[i].slots[j].1.slot
    ensures var s, bay := chassis[i].slots[j].1, models[chassis[i].modelId][n];
            Derive(models, chassis, serial, chassisId)
            == Derived(Spec(s.capacity, Constrained(s.interface, Some(bay)), s.speed, s.formFactor))
  {
    SlotFound(chassis[i].slots, serial, j);
    forall k | 0 <= k < i ensures SlotForSerial(chassis[k].slots, serial) == None {
      assert chassis[k] in chassis[..i];
      NotInSlots(chassis[k].slots, serial);
    }
    DriveFound(chassis, serial, i, chassis[i].slots[j].1);
    BayFound(models[chassis[i].modelId], chassis[i].slots[j].1.slot, n);
  }

  /** Deriving a specification fails with an exception exactly when the drive is in
      no registered chassis and the caller names one that is registered. */
  lemma DeriveRaisesExactly(models: Models, chassis: seq<Chassis>, serial: string, chassisId: string)
    ensures Derive(models, chassis, serial, chassisId) == Raised <==>
            && (forall c | c in chassis :: forall s | s in c.slots :: s.1.serial != serial)
            && chassisId != "" && exists c :: c in chassis && c.id == chassisId
  {
    NotInAnySlot(chassis, serial);
  }
}
