/**
 The alert registry (controller/alerts.py, AlertManager).

 Each public method and each sweep is one atomic step: the code tests and sets an
 alert's state before its first suspension point. `_alerts` is an
 insertion-ordered dictionary; here it is the sequence of its values. Alert ids
 are random; they are parameters, assumed never to repeat.
 */
module Alerts {
  import opened Options

  datatype AlertState = Active | Acknowledged | Dismissed | Expired

  /** What `update` may enrich. */
  datatype Metadata = Metadata(title: string, body: string, snapshotUrl: string, camera: string, person: string,
                               primaryLabel: string, secondaryLabel: string)

  datatype Alert = Alert(id: string, kind: string, startedAt: real, timeoutS: int, state: AlertState, meta: Metadata)

  datatype EventName = Created | Updated | Resolved(how: AlertState)

  /** One thing that happened: an event on the queue (under its own name, or under
      the legacy doorbell name), a callback registered, a callback started. */
  datatype Entry =
    | Pushed(name: EventName, id: string, kind: string)
    | Aliased(legacy: string, id: string)
    | Registered(id: string, fn: nat)
    | Ran(id: string, fn: nat)

  const ALERT_TTL_S: real := 300.0
  const DOORBELL := "doorbell"

  /** `_KIND_EVENT_ALIAS` for doorbells. */
  function LegacyName(name: EventName): string {
    match name
    case Created => "doorbell.ringing"
    case Updated => "doorbell.updated"
    case Resolved(how) =>
      match how
      case Acknowledged => "doorbell.answered"
      case Dismissed => "doorbell.dismissed"
      case Expired => "doorbell.expired"
      case Active => ""
  }

  /** `_push` */
  function Push(name: EventName, a: Alert): seq<Entry> {
    [Pushed(name, a.id, a.kind)] + if a.kind == DOORBELL then [Aliased(LegacyName(name), a.id)] else []
  }

  datatype Registry = Registry(alerts: seq<Alert>, callbacks: map<string, nat>, trace: seq<Entry>)

  const EMPTY := Registry([], map[], [])

  // ---------------------------------------------------------------------
  // Lookup
  // ---------------------------------------------------------------------

  /** Index of the alert with this id, or |alerts|. */
  function Find(alerts: seq<Alert>, id: string): (i: nat)
    ensures i <= |alerts| && (i < |alerts| ==> alerts[i].id == id)
    ensures forall j | 0 <= j < i :: alerts[j].id != id
  {
    if alerts == [] then 0 else if alerts[0].id == id then 0 else 1 + Find(alerts[1..], id)
  }

  /** Active, and of the kind asked for, if one is. */
  predicate Wanted(a: Alert, kind: Option<string>) {
    a.state == Active && (kind == None || a.kind == kind.value)
  }

  /** The wanted alert that started last; the first of several. */
  ghost predicate IsMostRecentActive(alerts: seq<Alert>, kind: Option<string>, i: nat) {
    && i < |alerts| && alerts[i].state == Active && (kind == None || kind == Some(alerts[i].kind))
    && forall j | 0 <= j < |alerts| && j != i
                  && alerts[j].state == Active && (kind == None || kind == Some(alerts[j].kind)) ::
         if j < i then alerts[j].startedAt < alerts[i].startedAt else alerts[j].startedAt <= alerts[i].startedAt
  }

  function MostRecentActive(alerts: seq<Alert>, kind: Option<string>): (i: nat)
    ensures i <= |alerts|
    ensures i < |alerts| ==> IsMostRecentActive(alerts, kind, i)
    ensures i == |alerts| <==> forall j | 0 <= j < |alerts| :: !Wanted(alerts[j], kind)
  {
    if alerts == [] then 0
    else
      var n := |alerts| - 1;
      var best := MostRecentActive(alerts[..n], kind);
      assert forall j | 0 <= j < n :: alerts[..n][j] == alerts[j];
      if Wanted(alerts[n], kind) && (best == n || alerts[best].startedAt < alerts[n].startedAt) then n
      else if best == n then |alerts| else best
  }

  /** `_resolve`: the empty id stands for the most recent active alert. */
  function Resolve(alerts: seq<Alert>, id: string): (i: nat)
    ensures i <= |alerts|
  {
    if id == "" then MostRecentActive(alerts, None) else Find(alerts, id)
  }

  // ---------------------------------------------------------------------
  // Steps
  // ---------------------------------------------------------------------

  datatype Op =
    | Create(kind: string, meta: Metadata, timeoutS: int, debounceKey: string, debounceS: real, id: string, now: real)
    | Register(id: string, fn: nat)
    | Acknowledge(id: string)
    | Dismiss(id: string)
    | Update(id: string, meta: Metadata)
    | Sweep(now: real)

  predicate Debounced(alerts: seq<Alert>, op: Op)
    requires op.Create?
  {
    op.debounceKey != "" &&
    exists i | 0 <= i < |alerts| :: Suppresses(alerts[i], op)
  }

  predicate Suppresses(a: Alert, op: Op)
    requires op.Create?
  {
    a.state == Active && a.kind == op.kind && a.meta.camera == op.meta.camera && op.now - a.startedAt < op.debounceS
  }

  function NewAlert(op: Op): Alert
    requires op.Create?
  {
    Alert(op.id, op.kind, op.now, op.timeoutS, Active, op.meta)
  }

  predicate TimedOut(a: Alert, now: real) {
    a.state == Active && a.timeoutS > 0 && now - a.startedAt > a.timeoutS as real
  }

  function AfterExpiry(a: Alert, now: real): Alert {
    if TimedOut(a, now) then a.(state := Expired) else a
  }

  predicate Stale(a: Alert, now: real) {
    a.state != Active && now - a.startedAt > ALERT_TTL_S
  }

  /** The alerts a sweep keeps, in their states after it. */
  function Swept(alerts: seq<Alert>, now: real): seq<Alert> {
    if alerts == [] then []
    else
      var last := AfterExpiry(alerts[|alerts| - 1], now);
      Swept(alerts[..|alerts| - 1], now) + if Stale(last, now) then [] else [last]
  }

  function ExpiryEntries(a: Alert, now: real): seq<Entry> {
    if TimedOut(a, now) then Push(Resolved(Expired), a) else []
  }

  function SweepEntries(alerts: seq<Alert>, now: real): seq<Entry> {
    if alerts == [] then []
    else
      SweepEntries(alerts[..|alerts| - 1], now) + ExpiryEntries(alerts[|alerts| - 1], now)
  }

  /** An acknowledgement or dismissal of the alert at index i. */
  function Settle(r: Registry, i: nat, how: AlertState): Registry
    requires i < |r.alerts|
  {
    r.(alerts := r.alerts[i := r.alerts[i].(state := how)], trace := r.trace + Push(Resolved(how), r.alerts[i]))
  }

  function Without(m: map<string, nat>, id: string): map<string, nat> {
    map k | k in m && k != id :: m[k]
  }

  /** The registered callback, popped and started. */
  function RunCallback(r: Registry, id: string): Registry {
    if id in r.callbacks then
      r.(callbacks := Without(r.callbacks, id), trace := r.trace + [Ran(id, r.callbacks[id])])
    else r
  }

  function Step(r: Registry, op: Op): Registry {
    match op
    case Create(_, _, _, _, _, _, _) =>
      if Debounced(r.alerts, op) then r
      else r.(alerts := r.alerts + [NewAlert(op)], trace := r.trace + Push(Created, NewAlert(op)))
    case Register(id, fn) =>
      r.(callbacks := r.callbacks[id := fn], trace := r.trace + [Registered(id, fn)])
    case Acknowledge(id) =>
      var i := Resolve(r.alerts, id);
      if i == |r.alerts| || r.alerts[i].state != Active then r
      else RunCallback(Settle(r, i, Acknowledged), r.alerts[i].id)
    case Dismiss(id) =>
      var i := Resolve(r.alerts, id);
      if i == |r.alerts| || r.alerts[i].state != Active then r else Settle(r, i, Dismissed)
    case Update(id, meta) =>
      var i := Find(r.alerts, id);
      if i == |r.alerts| || r.alerts[i].state != Active then r
      else
        var a := r.alerts[i].(meta := meta);
        r.(alerts := r.alerts[i := a], trace := r.trace + Push(Updated, a))
    case Sweep(now) =>
      r.(alerts := Swept(r.alerts, now), trace := r.trace + SweepEntries(r.alerts, now))
  }

  function Run(ops: seq<Op>): Registry {
    if ops == [] then EMPTY else Step(Run(ops[..|ops| - 1]), ops[|ops| - 1])
  }

  // ---------------------------------------------------------------------
  // The manager
  // ---------------------------------------------------------------------

  class AlertManager {
    var alerts: seq<Alert>
    var callbacks: map<string, nat>
    ghost var trace: seq<Entry>

    ghost function State(): Registry
      reads this
    {
      Registry(alerts, callbacks, trace)
    }

    constructor ()
      ensures State() == EMPTY
    {
      alerts, callbacks, trace := [], map[], [];
    }

    ghost method PushEvent(name: EventName, a: Alert)
      modifies this`trace
      ensures trace == old(trace) + Push(name, a)
    {
      trace := trace + [Pushed(name, a.id, a.kind)];
      if a.kind == DOORBELL {
        trace := trace + [Aliased(LegacyName(name), a.id)];
      }
    }

    method CreateAlert(kind: string, meta: Metadata, timeoutS: int, debounceKey: string, debounceS: real, id: string,
                       now: real)
      returns (created: Option<Alert>)
      modifies this
      ensures State() == Step(old(State()), Create(kind, meta, timeoutS, debounceKey, debounceS, id, now))
      ensures var op := Create(kind, meta, timeoutS, debounceKey, debounceS, id, now);
              created == if Debounced(old(alerts), op) then None else Some(NewAlert(op))
    {
      ghost var op := Create(kind, meta, timeoutS, debounceKey, debounceS, id, now);
      if debounceKey != "" {
        for i := 0 to |alerts|
          invariant forall j | 0 <= j < i :: !Suppresses(alerts[j], op)
          invariant State() == old(State())
        {
          var a := alerts[i];
          if a.state == Active && a.kind == kind && a.meta.camera == meta.camera && now - a.startedAt < debounceS {
            assert Suppresses(alerts[i], op);
            return None;
          }
        }
      }
      var alert := Alert(id, kind, now, timeoutS, Active, meta);
      alerts := alerts + [alert];
      PushEvent(Created, alert);
      created := Some(alert);
    }

    method RegisterAcknowledgeCallback(id: string, fn: nat)
      modifies this
      ensures State() == Step(old(State()), Register(id, fn))
    {
      callbacks := callbacks[id := fn];
      trace := trace + [Registered(id, fn)];
    }

    method MostRecent(kind: Option<string>) returns (i: nat)
      ensures i == MostRecentActive(alerts, kind)
    {
      i := |alerts|;
      for n := 0 to |alerts|
        invariant MostRecentActive(alerts[..n], kind) == if i == |alerts| then n else i
        invariant i == |alerts| || i < n
      {
        assert alerts[..n + 1][..n] == alerts[..n];
        if Wanted(alerts[n], kind) && (i == |alerts| || alerts[i].startedAt < alerts[n].startedAt) {
          i := n;
        }
      }
      assert alerts[..|alerts|] == alerts;
    }

    method ResolveId(id: string) returns (i: nat)
      ensures i == Resolve(alerts, id)
    {
      if id == "" {
        i := MostRecent(None);
      } else {
        i := Find(alerts, id);
      }
    }

    method AcknowledgeAlert(id: string) returns (changed: bool)
      modifies this
      ensures State() == Step(old(State()), Acknowledge(id))
      ensures changed <==> State() != old(State())
    {
      var i := ResolveId(id);
      if i == |alerts| || alerts[i].state != Active {
        return false;
      }
      var alert := alerts[i];
      alerts := alerts[i := alert.(state := Acknowledged)];
      PushEvent(Resolved(Acknowledged), alert);
      if alert.id in callbacks {
        var fn := callbacks[alert.id];
        callbacks := Without(callbacks, alert.id);
        trace := trace + [Ran(alert.id, fn)];
      }
      changed := true;
      assert alerts[i].state != old(alerts)[i].state;
    }

    method DismissAlert(id: string) returns (changed: bool)
      modifies this
      ensures State() == Step(old(State()), Dismiss(id))
      ensures changed <==> State() != old(State())
    {
      var i := ResolveId(id);
      if i == |alerts| || alerts[i].state != Active {
        return false;
      }
      var alert := alerts[i];
      alerts := alerts[i := alert.(state := Dismissed)];
      PushEvent(Resolved(Dismissed), alert);
      changed := true;
      assert alerts[i].state != old(alerts)[i].state;
    }

    method UpdateAlert(id: string, meta: Metadata) returns (changed: bool)
      modifies this
      ensures State() == Step(old(State()), Update(id, meta))
      ensures changed <==> Find(old(alerts), id) < |old(alerts)| && old(alerts)[Find(old(alerts), id)].state == Active
    {
      var i := Find(alerts, id);
      if i == |alerts| || alerts[i].state != Active {
        return false;
      }
      alerts := alerts[i := alerts[i].(meta := meta)];
      PushEvent(Updated, alerts[i]);
      changed := true;
    }

    /** One alert of the sweep; whether it is stale afterwards. */
    method ExpireOne(n: nat, now: real) returns (isStale: bool)
      requires n < |alerts|
      modifies this
      ensures callbacks == old(callbacks) && alerts == old(alerts)[n := AfterExpiry(old(alerts)[n], now)]
      ensures trace == old(trace) + ExpiryEntries(old(alerts)[n], now)
      ensures isStale == Stale(AfterExpiry(old(alerts)[n], now), now)
    {
      var alert := alerts[n];
      if alert.state == Active && alert.timeoutS > 0 && now - alert.startedAt > alert.timeoutS as real {
        alerts := alerts[n := alert.(state := Expired)];
        PushEvent(Resolved(Expired), alert);
      }
      isStale := alerts[n].state != Active && now - alerts[n].startedAt > ALERT_TTL_S;
    }

    /** Expires in place over a snapshot of the list and collects the stale ids. */
    method ExpireInPlace(now: real) returns (stale: seq<string>)
      modifies this
      ensures callbacks == old(callbacks) && trace == old(trace) + SweepEntries(old(alerts), now)
      ensures alerts == ExpiredUpTo(old(alerts), now, |old(alerts)|)
      ensures stale == StaleIds(old(alerts), now)
    {
      ghost var before := alerts;
      stale := [];
      for n := 0 to |alerts|
        invariant alerts == ExpiredUpTo(before, now, n) && callbacks == old(callbacks)
        invariant trace == old(trace) + SweepEntries(before[..n], now)
        invariant stale == StaleIds(before[..n], now)
      {
        SweepOneMore(before, now, n);
        Regroup(old(trace), SweepEntries(before[..n], now), ExpiryEntries(before[n], now));
        var id := alerts[n].id;
        var isStale := ExpireOne(n, now);
        if isStale {
          stale := stale + [id];
        }
      }
      assert before[..|before|] == before;
    }

    method ExpireSweep(now: real)
      requires UniqueIds(alerts)
      modifies this
      ensures State() == Step(old(State()), Sweep(now))
    {
      ghost var before := alerts;
      var stale := ExpireInPlace(now);
      var all, kept: seq<Alert> := alerts, [];
      for n := 0 to |all|
        invariant kept == Swept(before[..n], now)
        invariant alerts == all && callbacks == old(callbacks) && trace == old(trace) + SweepEntries(before, now)
      {
        assert before[..n + 1][..n] == before[..n];
        StaleIdsExactly(before, now, n);
        if all[n].id !in stale {
          kept := kept + [all[n]];
        }
      }
      assert before[..|before|] == before;
      alerts := kept;
    }
  }

  ghost predicate UniqueIds(alerts: seq<Alert>) {
    forall i, j | 0 <= i < j < |alerts| :: alerts[i].id != alerts[j].id
  }

  function StaleIds(alerts: seq<Alert>, now: real): seq<string> {
    if alerts == [] then []
    else
      var last := AfterExpiry(alerts[|alerts| - 1], now);
      StaleIds(alerts[..|alerts| - 1], now) + if Stale(last, now) then [last.id] else []
  }

  /** The alerts of a sweep that has gone through the first n. */
  function ExpiredUpTo(alerts: seq<Alert>, now: real, n: nat): (r: seq<Alert>)
    ensures |r| == |alerts|
  {
    seq(|alerts|, i requires 0 <= i < |alerts| => if i < n then AfterExpiry(alerts[i], now) else alerts[i])
  }

  lemma SweepOneMore(alerts: seq<Alert>, now: real, n: nat)
    requires n < |alerts|
    ensures SweepEntries(alerts[..n + 1], now) == SweepEntries(alerts[..n], now) + ExpiryEntries(alerts[n], now)
    ensures StaleIds(alerts[..n + 1], now)
            == if Stale(AfterExpiry(alerts[n], now), now) then StaleIds(alerts[..n], now) + [alerts[n].id]
               else StaleIds(alerts[..n], now)
    ensures ExpiredUpTo(alerts, now, n)[n] == alerts[n]
    ensures ExpiredUpTo(alerts, now, n)[n := AfterExpiry(alerts[n], now)] == ExpiredUpTo(alerts, now, n + 1)
  {
    assert alerts[..n + 1][..n] == alerts[..n];
  }

  lemma Regroup(a: seq<Entry>, b: seq<Entry>, c: seq<Entry>)
    ensures (a + b) + c == a + (b + c)
  {
  }

  lemma {:induction false} StaleIdsExactly(alerts: seq<Alert>, now: real, n: nat)
    requires UniqueIds(alerts) && n < |alerts|
    ensures alerts[n].id in StaleIds(alerts, now) <==> Stale(AfterExpiry(alerts[n], now), now)
  {
    var init, last := alerts[..|alerts| - 1], alerts[|alerts| - 1];
    if n < |init| {
      StaleIdsExactly(init, now, n);
    } else {
      StaleIdsAreIds(init, now);
    }
  }

  lemma {:induction false} StaleIdsAreIds(alerts: seq<Alert>, now: real)
    ensures forall id | id in StaleIds(alerts, now) :: exists j :: 0 <= j < |alerts| && alerts[j].id == id
  {
    if alerts == [] {
    } else {
      var init := alerts[..|alerts| - 1];
      StaleIdsAreIds(init, now);
      forall id | id in StaleIds(alerts, now) ensures exists j :: 0 <= j < |alerts| && alerts[j].id == id {
        if id in StaleIds(init, now) {
          var j :| 0 <= j < |init| && init[j].id == id;
          assert alerts[j].id == id;
        } else {
          assert alerts[|alerts| - 1].id == id;
        }
      }
    }
  }

  // ---------------------------------------------------------------------
  // One alert's life
  // ---------------------------------------------------------------------

  /** The core events of one alert, in order. */
  function History(trace: seq<Entry>, id: string): seq<EventName> {
    if trace == [] then []
    else
      var last := trace[|trace| - 1];
      History(trace[..|trace| - 1], id) + if last.Pushed? && last.id == id then [last.name] else []
  }

  /** Created, then any number of updates. */
  ghost predicate OpenLife(h: seq<EventName>) {
    h != [] && h[0] == Created && forall i | 0 < i < |h| :: h[i] == Updated
  }

  /** An open life, then one resolution. */
  ghost predicate ClosedLife(h: seq<EventName>) {
    h != [] && OpenLife(h[..|h| - 1]) && h[|h| - 1].Resolved? && h[|h| - 1].how != Active
  }

  lemma {:induction false} HistoryConcat(a: seq<Entry>, b: seq<Entry>, id: string)
    ensures History(a + b, id) == History(a, id) + History(b, id)
  {
    if b == [] {
      assert a + b == a;
    } else {
      assert (a + b)[..|a + b| - 1] == a + b[..|b| - 1];
      HistoryConcat(a, b[..|b| - 1], id);
    }
  }

  lemma HistoryOfPush(name: EventName, a: Alert, id: string)
    ensures History(Push(name, a), id) == if a.id == id then [name] else []
  {
    var p := Push(name, a);
    var first := [p[0]];
    assert first[..0] == [];
    assert History(first, id) == if a.id == id then [name] else [];
    if |p| == 2 { assert p[..1] == first; } else { assert p == first; }
  }

  ghost predicate Known(alerts: seq<Alert>, id: string) {
    exists i :: 0 <= i < |alerts| && alerts[i].id == id
  }

  lemma HistoryOfSweepStep(alerts: seq<Alert>, now: real, id: string)
    requires alerts != []
    ensures var last := alerts[|alerts| - 1];
            History(SweepEntries(alerts, now), id) == History(SweepEntries(alerts[..|alerts| - 1], now), id)
              + if last.id == id && TimedOut(last, now) then [Resolved(Expired)] else []
  {
    var init, last := alerts[..|alerts| - 1], alerts[|alerts| - 1];
    HistoryOfPush(Resolved(Expired), last, id);
    HistoryConcat(SweepEntries(init, now), Push(Resolved(Expired), last), id);
    assert SweepEntries(init, now) + [] == SweepEntries(init, now);
  }

  lemma {:induction false} HistoryOfSweepUnknown(alerts: seq<Alert>, now: real, id: string)
    requires !Known(alerts, id)
    ensures History(SweepEntries(alerts, now), id) == []
  {
    if alerts == [] {
    } else {
      HistoryOfSweepStep(alerts, now, id);
      HistoryOfSweepUnknown(alerts[..|alerts| - 1], now, id);
    }
  }

  lemma {:induction false} HistoryOfSweepKnown(alerts: seq<Alert>, now: real, i: nat)
    requires UniqueIds(alerts) && i < |alerts|
    ensures History(SweepEntries(alerts, now), alerts[i].id) == if TimedOut(alerts[i], now) then [Resolved(Expired)]
            else []
  {
    var init := alerts[..|alerts| - 1];
    HistoryOfSweepStep(alerts, now, alerts[i].id);
    if i < |init| {
      HistoryOfSweepKnown(init, now, i);
    } else {
      HistoryOfSweepUnknown(init, now, alerts[i].id);
    }
  }

  /** Every alert in the registry has a life that fits its state; every other id
      has no life yet or a closed one. */
  ghost predicate LivesFit(r: Registry) {
    UniqueIds(r.alerts) && ListedFit(r.alerts, r.trace) && UnlistedFit(r.alerts, r.trace)
  }

  ghost predicate ListedFit(alerts: seq<Alert>, trace: seq<Entry>) {
    forall i | 0 <= i < |alerts| :: LifeFits(History(trace, alerts[i].id), alerts[i].state)
  }

  ghost predicate UnlistedFit(alerts: seq<Alert>, trace: seq<Entry>) {
    forall id | !Known(alerts, id) :: Gone(History(trace, id))
  }

  ghost predicate Gone(h: seq<EventName>) {
    h == [] || ClosedLife(h)
  }

  ghost predicate LifeFits(h: seq<EventName>, state: AlertState) {
    if state == Active then OpenLife(h) else ClosedLife(h) && h[|h| - 1] == Resolved(state)
  }

  // ---------------------------------------------------------------------
  // Every step keeps lives fitting
  // ---------------------------------------------------------------------

  /** Ids are never reused. */
  ghost predicate Fresh(r: Registry, op: Op) {
    op.Create? ==> History(r.trace, op.id) == []
  }

  lemma KnownAppend(alerts: seq<Alert>, a: Alert, id: string)
    ensures Known(alerts + [a], id) <==> Known(alerts, id) || a.id == id
  {
    if Known(alerts, id) {
      var i :| 0 <= i < |alerts| && alerts[i].id == id;
      assert (alerts + [a])[i].id == id;
    }
    assert (alerts + [a])[|alerts|] == a;
  }

  lemma HistoryAfterPush(trace: seq<Entry>, name: EventName, a: Alert, id: string)
    ensures History(trace + Push(name, a), id) == History(trace, id) + if id == a.id then [name] else []
  {
    HistoryConcat(trace, Push(name, a), id);
    HistoryOfPush(name, a, id);
  }

  lemma UnknownDiffers(alerts: seq<Alert>, id: string, i: nat)
    requires !Known(alerts, id) && i < |alerts|
    ensures alerts[i].id != id
  {
  }

  /** The life of another alert, or of the new one. */
  lemma LifeAfterCreate(trace: seq<Entry>, a: Alert, id: string, state: AlertState)
    requires a.id != id && LifeFits(History(trace, id), state)
    ensures LifeFits(History(trace + Push(Created, a), id), state)
  {
    HistoryAfterPush(trace, Created, a, id);
    assert History(trace, id) + [] == History(trace, id);
  }

  lemma NewLife(trace: seq<Entry>, a: Alert)
    requires History(trace, a.id) == [] && a.state == Active
    ensures LifeFits(History(trace + Push(Created, a), a.id), a.state)
  {
    HistoryAfterPush(trace, Created, a, a.id);
    assert [] + [Created] == [Created];
  }

  lemma CreateKeepsListed(alerts: seq<Alert>, trace: seq<Entry>, a: Alert)
    requires ListedFit(alerts, trace) && !Known(alerts, a.id) && History(trace, a.id) == [] && a.state == Active
    ensures ListedFit(alerts + [a], trace + Push(Created, a))
  {
    forall i | 0 <= i < |alerts|
      ensures LifeFits(History(trace + Push(Created, a), alerts[i].id), alerts[i].state)
    {
      UnknownDiffers(alerts, a.id, i);
      LifeAfterCreate(trace, a, alerts[i].id, alerts[i].state);
    }
    NewLife(trace, a);
    ListedAppend(alerts, trace + Push(Created, a), a);
  }

  lemma ListedAppend(alerts: seq<Alert>, trace: seq<Entry>, a: Alert)
    requires ListedFit(alerts, trace) && LifeFits(History(trace, a.id), a.state)
    ensures ListedFit(alerts + [a], trace)
  {
  }

  lemma CreateKeepsUnlisted(alerts: seq<Alert>, trace: seq<Entry>, a: Alert)
    requires UnlistedFit(alerts, trace)
    ensures UnlistedFit(alerts + [a], trace + Push(Created, a))
  {
    forall id | !Known(alerts + [a], id) ensures Gone(History(trace + Push(Created, a), id)) {
      KnownAppend(alerts, a, id);
      HistoryAfterPush(trace, Created, a, id);
    }
  }

  lemma CreateKeepsLives(r: Registry, op: Op)
    requires LivesFit(r) && op.Create? && Fresh(r, op)
    ensures LivesFit(Step(r, op))
  {
    if !Debounced(r.alerts, op) {
      var a := NewAlert(op);
      AppendUnique(r.alerts, a);
      CreateKeepsListed(r.alerts, r.trace, a);
      CreateKeepsUnlisted(r.alerts, r.trace, a);
    }
  }

  lemma AppendUnique(alerts: seq<Alert>, a: Alert)
    requires UniqueIds(alerts) && !Known(alerts, a.id)
    ensures UniqueIds(alerts + [a])
  {
    forall i | 0 <= i < |alerts| ensures alerts[i].id != a.id {
      assert Known(alerts, alerts[i].id);
    }
  }

  /** An alert in a given state may be followed by this event and this state. */
  predicate Follows(name: EventName, a: Alert) {
    if a.state == Active then name == Updated else name == Resolved(a.state)
  }

  lemma EventKeepsListed(alerts: seq<Alert>, trace: seq<Entry>, i: nat, name: EventName, a: Alert)
    requires UniqueIds(alerts) && ListedFit(alerts, trace)
    requires i < |alerts| && alerts[i].state == Active && a.id == alerts[i].id && Follows(name, a)
    ensures ListedFit(alerts[i := a], trace + Push(name, a))
  {
    var after := alerts[i := a];
    forall j | 0 <= j < |after| ensures LifeFits(History(trace + Push(name, a), after[j].id), after[j].state) {
      HistoryAfterPush(trace, name, a, after[j].id);
      if j == i {
        assert LifeFits(History(trace, a.id), Active);
        if a.state != Active { ResolutionCloses(History(trace, a.id), a.state); }
      } else {
        assert alerts[j].id != alerts[i].id;
      }
    }
  }

  lemma KnownUpdate(alerts: seq<Alert>, i: nat, a: Alert, id: string)
    requires i < |alerts| && a.id == alerts[i].id
    ensures Known(alerts[i := a], id) <==> Known(alerts, id)
  {
    var after := alerts[i := a];
    if Known(alerts, id) {
      var j :| 0 <= j < |alerts| && alerts[j].id == id;
      assert after[j].id == id;
    }
    if Known(after, id) {
      var j :| 0 <= j < |after| && after[j].id == id;
      assert alerts[j].id == id;
    }
  }

  lemma EventKeepsUnlisted(alerts: seq<Alert>, trace: seq<Entry>, i: nat, name: EventName, a: Alert)
    requires UnlistedFit(alerts, trace) && i < |alerts| && a.id == alerts[i].id
    ensures UnlistedFit(alerts[i := a], trace + Push(name, a))
  {
    KnownUpdate(alerts, i, a, a.id);
    forall id | !Known(alerts[i := a], id) ensures Gone(History(trace + Push(name, a), id)) {
      KnownUpdate(alerts, i, a, id);
      HistoryAfterPush(trace, name, a, id);
    }
  }

  /** One alert of the registry gets one more event, and the matching state. */
  lemma EventKeepsLives(r: Registry, i: nat, name: EventName, a: Alert, r': Registry)
    requires LivesFit(r) && i < |r.alerts| && r.alerts[i].state == Active && a.id == r.alerts[i].id && Follows(name, a)
    requires r'.alerts == r.alerts[i := a] && r'.trace == r.trace + Push(name, a)
    ensures LivesFit(r')
  {
    EventKeepsListed(r.alerts, r.trace, i, name, a);
    EventKeepsUnlisted(r.alerts, r.trace, i, name, a);
  }

  /** Entries that are not events leave every life as it is. */
  lemma QuietKeepsLives(r: Registry, r': Registry, e: Entry)
    requires LivesFit(r) && r'.alerts == r.alerts && r'.trace == r.trace + [e] && !e.Pushed?
    ensures LivesFit(r')
  {
    forall id ensures History(r'.trace, id) == History(r.trace, id) {
      assert r'.trace[..|r'.trace| - 1] == r.trace;
    }
  }

  lemma RunCallbackKeepsLives(r: Registry, id: string)
    requires LivesFit(r)
    ensures LivesFit(RunCallback(r, id))
  {
    if id in r.callbacks {
      QuietKeepsLives(r, RunCallback(r, id), Ran(id, r.callbacks[id]));
    }
  }

  lemma {:induction false} SweptFrom(alerts: seq<Alert>, now: real, k: nat) returns (i: nat)
    requires k < |Swept(alerts, now)|
    ensures i < |alerts| && Swept(alerts, now)[k] == AfterExpiry(alerts[i], now)
            && !Stale(AfterExpiry(alerts[i], now), now)
  {
    var init := alerts[..|alerts| - 1];
    if k < |Swept(init, now)| {
      i := SweptFrom(init, now, k);
    } else {
      i := |alerts| - 1;
    }
  }

  lemma {:induction false} SweptKeeps(alerts: seq<Alert>, now: real, i: nat)
    requires i < |alerts| && !Stale(AfterExpiry(alerts[i], now), now)
    ensures AfterExpiry(alerts[i], now) in Swept(alerts, now)
  {
    if i < |alerts| - 1 {
      SweptKeeps(alerts[..|alerts| - 1], now, i);
    }
  }

  lemma SweptKnown(alerts: seq<Alert>, now: real, id: string)
    ensures Known(Swept(alerts, now), id) ==> Known(alerts, id)
  {
    if Known(Swept(alerts, now), id) {
      var k :| 0 <= k < |Swept(alerts, now)| && Swept(alerts, now)[k].id == id;
      var i := SweptFrom(alerts, now, k);
    }
  }

  lemma {:induction false} SweptUnique(alerts: seq<Alert>, now: real)
    requires UniqueIds(alerts)
    ensures UniqueIds(Swept(alerts, now))
  {
    if alerts == [] {
    } else {
      var init, last := alerts[..|alerts| - 1], AfterExpiry(alerts[|alerts| - 1], now);
      SweptUnique(init, now);
      SweptKnown(init, now, last.id);
      forall i | 0 <= i < |init| ensures init[i].id != last.id { assert init[i] == alerts[i]; }
      AppendUnique(Swept(init, now), last);
    }
  }

  lemma ResolutionCloses(h: seq<EventName>, how: AlertState)
    requires OpenLife(h) && how != Active
    ensures LifeFits(h + [Resolved(how)], how)
  {
    assert (h + [Resolved(how)])[..|h|] == h;
  }

  lemma HistoryAfterSweep(alerts: seq<Alert>, trace: seq<Entry>, now: real, i: nat)
    requires UniqueIds(alerts) && i < |alerts| && LifeFits(History(trace, alerts[i].id), alerts[i].state)
    ensures LifeFits(History(trace + SweepEntries(alerts, now), alerts[i].id), AfterExpiry(alerts[i], now).state)
  {
    var a := alerts[i];
    HistoryConcat(trace, SweepEntries(alerts, now), a.id);
    HistoryOfSweepKnown(alerts, now, i);
    ExpiryContinues(History(trace, a.id), a, now);
  }

  lemma ExpiryContinues(h: seq<EventName>, a: Alert, now: real)
    requires LifeFits(h, a.state)
    ensures LifeFits(h + (if TimedOut(a, now) then [Resolved(Expired)] else []), AfterExpiry(a, now).state)
  {
    if TimedOut(a, now) {
      ResolutionCloses(h, Expired);
    } else {
      assert h + [] == h;
    }
  }

  lemma SweptLife(alerts: seq<Alert>, trace: seq<Entry>, now: real, k: nat)
    requires UniqueIds(alerts) && ListedFit(alerts, trace) && k < |Swept(alerts, now)|
    ensures LifeFits(History(trace + SweepEntries(alerts, now), Swept(alerts, now)[k].id), Swept(alerts, now)[k].state)
  {
    var i := SweptFrom(alerts, now, k);
    HistoryAfterSweep(alerts, trace, now, i);
  }

  lemma ExpiredLifeGone(alerts: seq<Alert>, trace: seq<Entry>, now: real, i: nat)
    requires UniqueIds(alerts) && ListedFit(alerts, trace) && i < |alerts|
    requires AfterExpiry(alerts[i], now).state != Active
    ensures Gone(History(trace + SweepEntries(alerts, now), alerts[i].id))
  {
    HistoryAfterSweep(alerts, trace, now, i);
  }

  lemma DroppedIsStale(alerts: seq<Alert>, now: real, i: nat)
    requires i < |alerts| && !Known(Swept(alerts, now), alerts[i].id)
    ensures Stale(AfterExpiry(alerts[i], now), now)
  {
    if !Stale(AfterExpiry(alerts[i], now), now) {
      SweptKeeps(alerts, now, i);
    }
  }

  lemma SweptGone(alerts: seq<Alert>, trace: seq<Entry>, now: real, id: string)
    requires UniqueIds(alerts) && ListedFit(alerts, trace) && UnlistedFit(alerts, trace)
    requires !Known(Swept(alerts, now), id)
    ensures Gone(History(trace + SweepEntries(alerts, now), id))
  {
    if Known(alerts, id) {
      var i :| 0 <= i < |alerts| && alerts[i].id == id;
      DroppedIsStale(alerts, now, i);
      ExpiredLifeGone(alerts, trace, now, i);
    } else {
      HistoryConcat(trace, SweepEntries(alerts, now), id);
      HistoryOfSweepUnknown(alerts, now, id);
      assert History(trace, id) + [] == History(trace, id);
    }
  }

  lemma SweepKeepsLives(r: Registry, now: real)
    requires LivesFit(r)
    ensures LivesFit(Step(r, Sweep(now)))
  {
    var alerts, trace := Swept(r.alerts, now), r.trace + SweepEntries(r.alerts, now);
    SweptUnique(r.alerts, now);
    forall k | 0 <= k < |alerts| ensures LifeFits(History(trace, alerts[k].id), alerts[k].state) {
      SweptLife(r.alerts, r.trace, now, k);
    }
    forall id | !Known(alerts, id) ensures Gone(History(trace, id)) {
      SweptGone(r.alerts, r.trace, now, id);
    }
  }

  lemma StepKeepsLives(r: Registry, op: Op)
    requires LivesFit(r) && Fresh(r, op)
    ensures LivesFit(Step(r, op))
  {
    match op
    case Create(_, _, _, _, _, _, _) => CreateKeepsLives(r, op);
    case Register(id, fn) => QuietKeepsLives(r, Step(r, op), Registered(id, fn));
    case Acknowledge(id) =>
      var i := Resolve(r.alerts, id);
      if i < |r.alerts| && r.alerts[i].state == Active {
        SettleKeepsLives(r, i, Acknowledged);
        RunCallbackKeepsLives(Settle(r, i, Acknowledged), r.alerts[i].id);
      }
    case Dismiss(id) =>
      var i := Resolve(r.alerts, id);
      if i < |r.alerts| && r.alerts[i].state == Active {
        SettleKeepsLives(r, i, Dismissed);
      }
    case Update(id, meta) =>
      var i := Find(r.alerts, id);
      if i < |r.alerts| && r.alerts[i].state == Active {
        EventKeepsLives(r, i, Updated, r.alerts[i].(meta := meta), Step(r, op));
      }
    case Sweep(now) => SweepKeepsLives(r, now);
  }

  lemma SettleKeepsLives(r: Registry, i: nat, how: AlertState)
    requires LivesFit(r) && i < |r.alerts| && r.alerts[i].state == Active && how != Active
    ensures LivesFit(Settle(r, i, how))
  {
    var a := r.alerts[i].(state := how);
    assert Push(Resolved(how), a) == Push(Resolved(how), r.alerts[i]);
    EventKeepsLives(r, i, Resolved(how), a, Settle(r, i, how));
  }

  ghost predicate ListedActive(alerts: seq<Alert>, id: string) {
    exists i :: 0 <= i < |alerts| && alerts[i].id == id && alerts[i].state == Active
  }

  /** Every create in the run uses an id never seen before. */
  ghost predicate FreshRun(ops: seq<Op>) {
    forall n | 0 <= n < |ops| :: Fresh(Run(ops[..n]), ops[n])
  }

  lemma FreshPrefix(ops: seq<Op>)
    requires FreshRun(ops) && ops != []
    ensures FreshRun(ops[..|ops| - 1]) && Fresh(Run(ops[..|ops| - 1]), ops[|ops| - 1])
  {
    var init := ops[..|ops| - 1];
    forall n | 0 <= n < |init| ensures Fresh(Run(init[..n]), init[n]) {
      assert init[..n] == ops[..n];
    }
  }

  lemma {:induction false} RunKeepsLives(ops: seq<Op>)
    requires FreshRun(ops)
    ensures LivesFit(Run(ops))
  {
    if ops == [] {
    } else {
      FreshPrefix(ops);
      RunKeepsLives(ops[..|ops| - 1]);
      StepKeepsLives(Run(ops[..|ops| - 1]), ops[|ops| - 1]);
    }
  }

  /** For any interleaving of calls, each alert's events are its creation, then
      any number of updates, then at most one resolution, after which nothing; and
      it is open exactly while the registry holds it active. */
  lemma AlertLifecycle(ops: seq<Op>, id: string)
    requires FreshRun(ops)
    ensures var h := History(Run(ops).trace, id);
            && (h == [] || OpenLife(h) || ClosedLife(h))
            && (OpenLife(h) <==> ListedActive(Run(ops).alerts, id))
  {
    RunKeepsLives(ops);
    var r := Run(ops);
    var h := History(r.trace, id);
    if ClosedLife(h) {
      assert h[|h| - 1].Resolved?;
    }
    if Known(r.alerts, id) {
      var i :| 0 <= i < |r.alerts| && r.alerts[i].id == id;
      assert LifeFits(History(r.trace, r.alerts[i].id), r.alerts[i].state);
    } else {
      assert Gone(h);
    }
  }

  // ---------------------------------------------------------------------
  // Callbacks
  // ---------------------------------------------------------------------

  function LastRegistered(trace: seq<Entry>, id: string): Option<nat> {
    if trace == [] then None
    else
      var last := trace[|trace| - 1];
      if last.Registered? && last.id == id then Some(last.fn) else LastRegistered(trace[..|trace| - 1], id)
  }

  /** The callbacks started for an alert. */
  function Started(trace: seq<Entry>, id: string): seq<nat> {
    if trace == [] then []
    else
      var last := trace[|trace| - 1];
      Started(trace[..|trace| - 1], id) + if last.Ran? && last.id == id then [last.fn] else []
  }

  predicate IsAcknowledgement(e: Entry, id: string) {
    e.Pushed? && e.name == Resolved(Acknowledged) && e.id == id
  }

  /** The callbacks that should have been started: at each acknowledgement, the
      one registered last before it, if any. */
  function Due(trace: seq<Entry>, id: string): seq<nat> {
    if trace == [] then []
    else
      var init := trace[..|trace| - 1];
      Due(init, id) +
      if !IsAcknowledgement(trace[|trace| - 1], id) then []
      else match LastRegistered(init, id) case None => [] case Some(fn) => [fn]
  }

  function Lookup(m: map<string, nat>, id: string): Option<nat> {
    if id in m then Some(m[id]) else None
  }

  ghost predicate Unacknowledged(trace: seq<Entry>, id: string) {
    Resolved(Acknowledged) !in History(trace, id)
  }

  /** Callbacks started are those due; before an acknowledgement nothing was due
      and the table holds the last registration. */
  ghost predicate CallbacksFit(r: Registry, id: string) {
    && Started(r.trace, id) == Due(r.trace, id)
    && |Due(r.trace, id)| <= 1
    && (Unacknowledged(r.trace, id) ==>
          Due(r.trace, id) == [] && Lookup(r.callbacks, id) == LastRegistered(r.trace, id))
  }

  /** Entries that neither acknowledge this alert nor concern its callback. */
  ghost predicate Unrelated(entries: seq<Entry>, id: string) {
    forall e | e in entries :: !IsAcknowledgement(e, id) && !e.Registered? && !e.Ran?
  }

  lemma {:induction false} UnrelatedChangesNothing(trace: seq<Entry>, more: seq<Entry>, id: string)
    requires Unrelated(more, id)
    ensures Started(trace + more, id) == Started(trace, id) && Due(trace + more, id) == Due(trace, id)
    ensures LastRegistered(trace + more, id) == LastRegistered(trace, id)
    ensures Unacknowledged(trace + more, id) ==> Unacknowledged(trace, id)
  {
    HistoryConcat(trace, more, id);
    if more == [] {
      assert trace + more == trace;
    } else {
      var init, last := more[..|more| - 1], more[|more| - 1];
      assert last in more;
      forall e | e in init ensures e in more {}
      UnrelatedChangesNothing(trace, init, id);
      assert (trace + more)[..|trace + more| - 1] == trace + init;
    }
  }

  lemma {:induction false} SweepIsUnrelated(alerts: seq<Alert>, now: real, id: string)
    ensures Unrelated(SweepEntries(alerts, now), id)
  {
    if alerts == [] {
    } else {
      SweepIsUnrelated(alerts[..|alerts| - 1], now, id);
    }
  }

  /** An active alert's life holds no acknowledgement. */
  lemma ActiveIsUnacknowledged(r: Registry, i: nat)
    requires LivesFit(r) && i < |r.alerts| && r.alerts[i].state == Active
    ensures Unacknowledged(r.trace, r.alerts[i].id)
  {
    assert LifeFits(History(r.trace, r.alerts[i].id), Active);
  }

  /** The acknowledgement itself makes the last registration due and starts nothing. */
  lemma AcknowledgementMakesDue(trace: seq<Entry>, a: Alert, id: string)
    ensures var after := trace + Push(Resolved(Acknowledged), a);
            && Started(after, id) == Started(trace, id) && LastRegistered(after, id) == LastRegistered(trace, id)
            && Due(after, id) == Due(trace, id) + if a.id != id then [] else
                 match LastRegistered(trace, id) case None => [] case Some(fn) => [fn]
  {
    var push := Push(Resolved(Acknowledged), a);
    var t1 := trace + [push[0]];
    assert t1[..|t1| - 1] == trace;
    UnrelatedChangesNothing(t1, push[1..], id);
    assert t1 + push[1..] == trace + push;
  }

  lemma RanAfter(trace: seq<Entry>, aid: string, fn: nat, id: string)
    ensures var after := trace + [Ran(aid, fn)];
            && Started(after, id) == Started(trace, id) + (if aid == id then [fn] else [])
            && Due(after, id) == Due(trace, id) && LastRegistered(after, id) == LastRegistered(trace, id)
            && History(after, id) == History(trace, id)
  {
    var after := trace + [Ran(aid, fn)];
    assert after[..|after| - 1] == trace;
  }

  lemma AcknowledgeKeepsCallbacks(r: Registry, i: nat, id: string)
    requires LivesFit(r) && i < |r.alerts| && r.alerts[i].state == Active && CallbacksFit(r, id)
    ensures CallbacksFit(RunCallback(Settle(r, i, Acknowledged), r.alerts[i].id), id)
  {
    var a := r.alerts[i];
    var mid := Settle(r, i, Acknowledged);
    AcknowledgementMakesDue(r.trace, a, id);
    HistoryAfterPush(r.trace, Resolved(Acknowledged), a, id);
    if a.id in r.callbacks {
      RanAfter(mid.trace, a.id, r.callbacks[a.id], id);
    }
    if a.id == id {
      ActiveIsUnacknowledged(r, i);
      var h := History(mid.trace, id);
      assert h[|h| - 1] == Resolved(Acknowledged);
    }
  }

  lemma RegisterKeepsCallbacks(r: Registry, rid: string, fn: nat, id: string)
    requires CallbacksFit(r, id)
    ensures CallbacksFit(Step(r, Register(rid, fn)), id)
  {
    var trace := r.trace + [Registered(rid, fn)];
    assert trace[..|trace| - 1] == r.trace;
  }

  lemma UnrelatedKeepsCallbacks(r: Registry, alerts: seq<Alert>, more: seq<Entry>, id: string)
    requires CallbacksFit(r, id) && Unrelated(more, id)
    ensures CallbacksFit(Registry(alerts, r.callbacks, r.trace + more), id)
  {
    UnrelatedChangesNothing(r.trace, more, id);
  }

  lemma EventKeepsCallbacks(r: Registry, alerts: seq<Alert>, name: EventName, a: Alert, id: string)
    requires CallbacksFit(r, id) && name != Resolved(Acknowledged)
    ensures CallbacksFit(Registry(alerts, r.callbacks, r.trace + Push(name, a)), id)
  {
    UnrelatedKeepsCallbacks(r, alerts, Push(name, a), id);
  }

  lemma SweepKeepsCallbacks(r: Registry, now: real, id: string)
    requires CallbacksFit(r, id)
    ensures CallbacksFit(Step(r, Sweep(now)), id)
  {
    SweepIsUnrelated(r.alerts, now, id);
    UnrelatedKeepsCallbacks(r, Swept(r.alerts, now), SweepEntries(r.alerts, now), id);
  }

  lemma StepKeepsCallbacks(r: Registry, op: Op, id: string)
    requires LivesFit(r) && CallbacksFit(r, id)
    ensures CallbacksFit(Step(r, op), id)
  {
    var r' := Step(r, op);
    match op
    case Create(_, _, _, _, _, _, _) => EventKeepsCallbacks(r, r'.alerts, Created, NewAlert(op), id);
    case Register(rid, fn) => RegisterKeepsCallbacks(r, rid, fn, id);
    case Acknowledge(aid) =>
      var i := Resolve(r.alerts, aid);
      if i < |r.alerts| && r.alerts[i].state == Active {
        AcknowledgeKeepsCallbacks(r, i, id);
      }
    case Dismiss(aid) =>
      var i := Resolve(r.alerts, aid);
      if i < |r.alerts| { EventKeepsCallbacks(r, r'.alerts, Resolved(Dismissed), r.alerts[i], id); }
    case Update(aid, meta) =>
      var i := Find(r.alerts, aid);
      if i < |r.alerts| { EventKeepsCallbacks(r, r'.alerts, Updated, r.alerts[i].(meta := meta), id); }
    case Sweep(now) => SweepKeepsCallbacks(r, now, id);
  }

  /** A callback is started at most once per alert, exactly when an alert with a
      registered callback is acknowledged, and it is the one registered last. */
  lemma {:induction false} CallbackRunsOnce(ops: seq<Op>, id: string)
    requires FreshRun(ops)
    ensures CallbacksFit(Run(ops), id)
  {
    if ops == [] {
    } else {
      FreshPrefix(ops);
      var init := ops[..|ops| - 1];
      RunKeepsLives(init);
      CallbackRunsOnce(init, id);
      StepKeepsCallbacks(Run(init), ops[|ops| - 1], id);
    }
  }

  // ---------------------------------------------------------------------
  // The legacy doorbell stream
  // ---------------------------------------------------------------------

  function LegacyStream(trace: seq<Entry>): seq<(string, string)> {
    if trace == [] then []
    else
      var last := trace[|trace| - 1];
      LegacyStream(trace[..|trace| - 1]) + if last.Aliased? then [(last.legacy, last.id)] else []
  }

  function RenamedDoorbells(trace: seq<Entry>): seq<(string, string)> {
    if trace == [] then []
    else
      var last := trace[|trace| - 1];
      RenamedDoorbells(trace[..|trace| - 1])
      + if last.Pushed? && last.kind == "doorbell" then [(LegacyName(last.name), last.id)] else []
  }

  ghost predicate Mirrored(trace: seq<Entry>) {
    LegacyStream(trace) == RenamedDoorbells(trace)
  }

  lemma PushKeepsMirror(trace: seq<Entry>, name: EventName, a: Alert)
    requires Mirrored(trace)
    ensures Mirrored(trace + Push(name, a))
  {
    var p := Push(name, a);
    var t1 := trace + [p[0]];
    assert t1[..|t1| - 1] == trace;
    if a.kind == DOORBELL {
      assert trace + p == t1 + [p[1]];
      assert (trace + p)[..|trace + p| - 1] == t1;
    } else {
      assert trace + p == t1;
    }
  }

  lemma {:induction false} SweepKeepsMirror(trace: seq<Entry>, alerts: seq<Alert>, now: real)
    requires Mirrored(trace)
    ensures Mirrored(trace + SweepEntries(alerts, now))
  {
    if alerts == [] {
      assert trace + SweepEntries(alerts, now) == trace;
    } else {
      var init, last := alerts[..|alerts| - 1], alerts[|alerts| - 1];
      SweepKeepsMirror(trace, init, now);
      if TimedOut(last, now) {
        PushKeepsMirror(trace + SweepEntries(init, now), Resolved(Expired), last);
        assert trace + SweepEntries(alerts, now) == trace + SweepEntries(init, now) + Push(Resolved(Expired), last);
      } else {
        assert SweepEntries(alerts, now) == SweepEntries(init, now);
      }
    }
  }

  lemma StepKeepsMirror(r: Registry, op: Op)
    requires Mirrored(r.trace)
    ensures Mirrored(Step(r, op).trace)
  {
    var r' := Step(r, op);
    match op
    case Create(_, _, _, _, _, _, _) =>
      PushKeepsMirror(r.trace, Created, NewAlert(op));
    case Register(rid, fn) =>
      assert r'.trace[..|r'.trace| - 1] == r.trace;
    case Acknowledge(aid) =>
      var i := Resolve(r.alerts, aid);
      if i < |r.alerts| && r.alerts[i].state == Active {
        PushKeepsMirror(r.trace, Resolved(Acknowledged), r.alerts[i]);
        var mid := Settle(r, i, Acknowledged);
        assert r.alerts[i].id in r.callbacks ==> r'.trace[..|r'.trace| - 1] == mid.trace;
      }
    case Dismiss(aid) =>
      var i := Resolve(r.alerts, aid);
      if i < |r.alerts| { PushKeepsMirror(r.trace, Resolved(Dismissed), r.alerts[i]); }
    case Update(aid, meta) =>
      var i := Find(r.alerts, aid);
      if i < |r.alerts| { PushKeepsMirror(r.trace, Updated, r.alerts[i].(meta := meta)); }
    case Sweep(now) =>
      SweepKeepsMirror(r.trace, r.alerts, now);
  }

  /** Over any run, the legacy doorbell events are the doorbell alerts' events, renamed. */
  lemma {:induction false} LegacyStreamMirrors(ops: seq<Op>)
    ensures LegacyStream(Run(ops).trace) == RenamedDoorbells(Run(ops).trace)
  {
    if ops == [] {
    } else {
      LegacyStreamMirrors(ops[..|ops| - 1]);
      StepKeepsMirror(Run(ops[..|ops| - 1]), ops[|ops| - 1]);
    }
  }

  /** A doorbell that rings, is recognised and is then answered, dismissed or left
      alone appears on the legacy stream under the doorbell's own names. */
  lemma DoorbellStory(ring: Op, meta: Metadata, end: Op)
    requires ring.Create? && ring.kind == "doorbell" && ring.id != "" && ring.timeoutS > 0
    requires end == Acknowledge(ring.id) || end == Dismiss(ring.id)
             || (end.Sweep? && end.now - ring.now > ring.timeoutS as real)
    ensures LegacyStream(Run([ring, Update(ring.id, meta), end]).trace)
            == [("doorbell.ringing", ring.id), ("doorbell.updated", ring.id),
                (if end.Acknowledge? then "doorbell.answered" else if end.Dismiss? then "doorbell.dismissed"
                 else "doorbell.expired", ring.id)]
  {
    var a0 := NewAlert(ring);
    var a1 := a0.(meta := meta);
    var t1 := [] + Push(Created, a0);
    var t2 := t1 + Push(Updated, a1);
    RunOfThree(ring, Update(ring.id, meta), end);
    RingListed(ring);
    OnlyAlertUpdated(a0, t1, meta);
    OnlyAlertEnds(a1, t2, end);
    LegacyOfThree(a0, a1, HowEnds(end));
  }

  lemma LegacyOfThree(a0: Alert, a1: Alert, ends: EventName)
    requires a0.kind == "doorbell" && a1.kind == "doorbell"
    ensures LegacyStream([] + Push(Created, a0) + Push(Updated, a1) + Push(ends, a1))
            == [("doorbell.ringing", a0.id), ("doorbell.updated", a1.id), (LegacyName(ends), a1.id)]
  {
    var none: seq<Entry> := [];
    LegacyAfterPush(none, Created, a0);
    LegacyAfterPush(none + Push(Created, a0), Updated, a1);
    LegacyAfterPush(none + Push(Created, a0) + Push(Updated, a1), ends, a1);
  }

  lemma RunOfThree(o1: Op, o2: Op, o3: Op)
    ensures Run([o1, o2, o3]) == Step(Step(Step(EMPTY, o1), o2), o3)
  {
    var ops, none: seq<Op> := [o1, o2, o3], [];
    assert ops[..2] == [o1, o2] && [o1, o2][..1] == [o1] && [o1][..0] == none;
    assert Run([o1]) == Step(EMPTY, o1);
    assert Run([o1, o2]) == Step(Run([o1]), o2);
  }

  lemma RingListed(ring: Op)
    requires ring.Create?
    ensures Step(EMPTY, ring) == Registry([NewAlert(ring)], map[], [] + Push(Created, NewAlert(ring)))
  {
    var r := Step(EMPTY, ring);
    assert !Debounced([], ring);
    assert r.alerts == [NewAlert(ring)] && r.callbacks == map[] && r.trace == [] + Push(Created, NewAlert(ring));
  }

  lemma OnlyAlertUpdated(a: Alert, trace: seq<Entry>, meta: Metadata)
    requires a.state == Active
    ensures Step(Registry([a], map[], trace), Update(a.id, meta))
            == Registry([a.(meta := meta)], map[], trace + Push(Updated, a.(meta := meta)))
  {
    assert Find([a], a.id) == 0 && [a][0 := a.(meta := meta)] == [a.(meta := meta)];
  }

  function HowEnds(end: Op): EventName {
    Resolved(if end.Acknowledge? then Acknowledged else if end.Dismiss? then Dismissed else Expired)
  }

  lemma OnlyAlertEnds(a: Alert, trace: seq<Entry>, end: Op)
    requires a.state == Active && a.id != "" && a.timeoutS > 0
    requires end == Acknowledge(a.id) || end == Dismiss(a.id)
             || (end.Sweep? && end.now - a.startedAt > a.timeoutS as real)
    ensures Step(Registry([a], map[], trace), end).trace == trace + Push(HowEnds(end), a)
  {
    if end.Sweep? {
      var none: seq<Alert> := [];
      assert [a][..0] == none && SweepEntries(none, end.now) == [];
      assert SweepEntries([a], end.now) == [] + Push(Resolved(Expired), a);
    } else {
      assert Find([a], a.id) == 0;
    }
  }

  lemma LegacyAfterPush(trace: seq<Entry>, name: EventName, a: Alert)
    requires a.kind == "doorbell"
    ensures LegacyStream(trace + Push(name, a)) == LegacyStream(trace) + [(LegacyName(name), a.id)]
  {
    var p := Push(name, a);
    assert (trace + p)[..|trace| + 1] == trace + [p[0]] && (trace + [p[0]])[..|trace|] == trace;
    assert (trace + p)[..|trace + p| - 1] == trace + [p[0]];
  }

  // ---------------------------------------------------------------------
  // What a call does to the registry
  // ---------------------------------------------------------------------

  /** A create is suppressed exactly when it names a debounce key and an active alert
      of the same kind and camera started less than the debounce time before; else
      the new alert is listed last. */
  lemma CreatesExactly(r: Registry, op: Op)
    requires op.Create?
    ensures var recent := exists a :: a in r.alerts && a.state == Active && a.kind == op.kind
                                     && a.meta.camera == op.meta.camera && op.now - a.startedAt < op.debounceS;
            if op.debounceKey != "" && recent then Step(r, op) == r
            else Step(r, op).alerts == r.alerts + [Alert(op.id, op.kind, op.now, op.timeoutS, Active, op.meta)]
  {
    if Debounced(r.alerts, op) {
      var i :| 0 <= i < |r.alerts| && Suppresses(r.alerts[i], op);
      assert r.alerts[i] in r.alerts;
    }
  }

  /** The call is about the alert at i: by its id or, for an empty one, because it is
      the active alert that started last. */
  ghost predicate Addresses(id: string, alerts: seq<Alert>, i: nat) {
    i < |alerts| && if id == "" then IsMostRecentActive(alerts, None, i) else alerts[i].id == id
  }

  lemma ResolvesTo(alerts: seq<Alert>, id: string, i: nat)
    requires UniqueIds(alerts) && Addresses(id, alerts, i)
    ensures Resolve(alerts, id) == i
  {
    if id == "" {
      var n := MostRecentActive(alerts, None);
      assert Wanted(alerts[i], None);
    }
  }

  /** A call on an active alert changes that alert only: it is acknowledged, which
      uses up its callback, or dismissed, or has new metadata, and one event says so. */
  lemma CallChangesOne(r: Registry, op: Op, i: nat)
    requires UniqueIds(r.alerts) && (op.Acknowledge? || op.Dismiss? || op.Update?)
    requires Addresses(op.id, r.alerts, i) && (op.Update? ==> op.id != "") && r.alerts[i].state == Active
    ensures var a, r' := r.alerts[i], Step(r, op);
            && r'.alerts == r.alerts[i := match op case Acknowledge(_) => a.(state := Acknowledged)
                                                   case Dismiss(_) => a.(state := Dismissed)
                                                   case Update(_, meta) => a.(meta := meta)]
            && r'.callbacks == (if op.Acknowledge? then r.callbacks - {a.id} else r.callbacks)
            && |r'.trace| > |r.trace| && r'.trace[..|r.trace|] == r.trace
            && r'.trace[|r.trace|] == Pushed(match op case Acknowledge(_) => Resolved(Acknowledged)
                                                      case Dismiss(_) => Resolved(Dismissed)
                                                      case Update(_, _) => Updated, a.id, a.kind)
  {
    if op.Update? { assert Find(r.alerts, op.id) == i; } else { ResolvesTo(r.alerts, op.id, i); }
  }

  /** A call on anything else changes nothing. */
  lemma CallWithoutEffect(r: Registry, op: Op)
    requires op.Acknowledge? || op.Dismiss? || op.Update?
    requires forall a | a in r.alerts && a.state == Active :: op.id != "" && a.id != op.id
    ensures Step(r, op) == r
  {
    if op.id == "" { assert forall j | 0 <= j < |r.alerts| :: r.alerts[j] in r.alerts && !Wanted(r.alerts[j], None); }
  }

  // ---------------------------------------------------------------------
  // Debouncing over a run
  // ---------------------------------------------------------------------

  /** Of two active alerts of one kind and camera the later listed started at least
      so much later. */
  ghost predicate Separated(alerts: seq<Alert>, d: real) {
    forall i, j | 0 <= i < j < |alerts| && Alike(alerts[i], alerts[j]) :: alerts[j].startedAt - alerts[i].startedAt >= d
  }

  predicate Alike(a: Alert, b: Alert) {
    a.state == Active && b.state == Active && a.kind == b.kind && a.meta.camera == b.meta.camera
  }

  /** Creates name a debounce key and at least this time, and updates leave the
      camera alone. */
  predicate Careful(r: Registry, op: Op, d: real) {
    match op
    case Create(_, _, _, debounceKey, debounceS, _, _) => debounceKey != "" && debounceS >= d
    case Update(id, meta) =>
      Find(r.alerts, id) < |r.alerts| ==> r.alerts[Find(r.alerts, id)].meta.camera == meta.camera
    case _ => true
  }

  predicate CarefulRun(ops: seq<Op>, d: real) {
    ops != [] ==> CarefulRun(ops[..|ops| - 1], d) && Careful(Run(ops[..|ops| - 1]), ops[|ops| - 1], d)
  }

  lemma ChangeKeepsSeparated(alerts: seq<Alert>, i: nat, a: Alert, d: real)
    requires Separated(alerts, d) && i < |alerts| && a.startedAt == alerts[i].startedAt
    requires a.state == Active ==> a.kind == alerts[i].kind && a.meta.camera == alerts[i].meta.camera
                                   && alerts[i].state == Active
    ensures Separated(alerts[i := a], d)
  {
    var after := alerts[i := a];
    forall j, k | 0 <= j < k < |after| && Alike(after[j], after[k])
      ensures after[k].startedAt - after[j].startedAt >= d
    {
      assert Alike(alerts[j], alerts[k]);
    }
  }

  lemma {:induction false} SweepKeepsSeparated(alerts: seq<Alert>, now: real, d: real)
    requires Separated(alerts, d)
    ensures Separated(Swept(alerts, now), d)
  {
    if alerts == [] {
    } else {
      var init, last := alerts[..|alerts| - 1], AfterExpiry(alerts[|alerts| - 1], now);
      forall i, j | 0 <= i < j < |init| && Alike(init[i], init[j]) ensures init[j].startedAt - init[i].startedAt >= d {
        assert Alike(alerts[i], alerts[j]);
      }
      SweepKeepsSeparated(init, now, d);
      forall k | 0 <= k < |Swept(init, now)| && Alike(Swept(init, now)[k], last)
        ensures last.startedAt - Swept(init, now)[k].startedAt >= d
      {
        var i := SweptFrom(init, now, k);
        assert Alike(alerts[i], alerts[|alerts| - 1]);
      }
    }
  }

  lemma CreateKeepsSeparated(r: Registry, op: Op, d: real)
    requires Separated(r.alerts, d) && op.Create? && Careful(r, op, d)
    ensures Separated(Step(r, op).alerts, d)
  {
    CreatesExactly(r, op);
    forall i | 0 <= i < |r.alerts| ensures r.alerts[i] in r.alerts {}
  }

  lemma StepKeepsSeparated(r: Registry, op: Op, d: real)
    requires Separated(r.alerts, d) && Careful(r, op, d)
    ensures Separated(Step(r, op).alerts, d)
  {
    match op
    case Create(_, _, _, _, _, _, _) => CreateKeepsSeparated(r, op, d);
    case Register(_, _) =>
    case Acknowledge(id) =>
      var i := Resolve(r.alerts, id);
      if i < |r.alerts| { ChangeKeepsSeparated(r.alerts, i, r.alerts[i].(state := Acknowledged), d); }
    case Dismiss(id) =>
      var i := Resolve(r.alerts, id);
      if i < |r.alerts| { ChangeKeepsSeparated(r.alerts, i, r.alerts[i].(state := Dismissed), d); }
    case Update(id, meta) =>
      var i := Find(r.alerts, id);
      if i < |r.alerts| && r.alerts[i].state == Active {
        ChangeKeepsSeparated(r.alerts, i, r.alerts[i].(meta := meta), d);
      }
    case Sweep(now) => SweepKeepsSeparated(r.alerts, now, d);
  }

  /** Over every run in which creates are debounced, two active alerts of one kind and
      camera are never closer together than the debounce time. */
  lemma {:induction false} DebounceSeparates(ops: seq<Op>, d: real)
    requires CarefulRun(ops, d)
    ensures Separated(Run(ops).alerts, d)
  {
    if ops == [] {
    } else {
      DebounceSeparates(ops[..|ops| - 1], d);
      StepKeepsSeparated(Run(ops[..|ops| - 1]), ops[|ops| - 1], d);
    }
  }

  // ---------------------------------------------------------------------
  // Sweeps
  // ---------------------------------------------------------------------

  /** After a sweep no timed alert is active past its timeout and no resolved
      alert is older than the time to live; nothing else is lost: every alert
      that was active and not timed out is still there, unchanged. */
  lemma SweepGuarantee(r: Registry, now: real)
    ensures forall a | a in Step(r, Sweep(now)).alerts ::
              if a.state == Active then a.timeoutS <= 0 || now - a.startedAt <= a.timeoutS as real
              else now - a.startedAt <= 300.0
    ensures forall a | a in r.alerts && a.state == Active
                       && (a.timeoutS <= 0 || now - a.startedAt <= a.timeoutS as real) ::
              a in Step(r, Sweep(now)).alerts
  {
    var after := Swept(r.alerts, now);
    forall a | a in after
      ensures if a.state == Active then a.timeoutS <= 0 || now - a.startedAt <= a.timeoutS as real
              else now - a.startedAt <= 300.0
    {
      var k :| 0 <= k < |after| && after[k] == a;
      var i := SweptFrom(r.alerts, now, k);
    }
    forall a | a in r.alerts && a.state == Active && (a.timeoutS <= 0 || now - a.startedAt <= a.timeoutS as real)
      ensures a in after
    {
      var i :| 0 <= i < |r.alerts| && r.alerts[i] == a;
      SweptKeeps(r.alerts, now, i);
    }
  }

  /** The alert an operation acts on, if it acts on one. */
  predicate ActsOn(r: Registry, op: Op, a: Alert) {
    match op
    case Acknowledge(id) => Resolve(r.alerts, id) < |r.alerts| && r.alerts[Resolve(r.alerts, id)] == a
    case Dismiss(id) => Resolve(r.alerts, id) < |r.alerts| && r.alerts[Resolve(r.alerts, id)] == a
    case Update(id, _) => Find(r.alerts, id) < |r.alerts| && r.alerts[Find(r.alerts, id)] == a
    case _ => false
  }

  function RunFrom(r: Registry, ops: seq<Op>): Registry {
    if ops == [] then r else Step(RunFrom(r, ops[..|ops| - 1]), ops[|ops| - 1])
  }

  /** No operation of the run acts on the alert. */
  predicate LeftAlone(r: Registry, ops: seq<Op>, a: Alert) {
    ops != [] ==> LeftAlone(r, ops[..|ops| - 1], a) && !ActsOn(RunFrom(r, ops[..|ops| - 1]), ops[|ops| - 1], a)
  }

  lemma StepLeavesAlone(r: Registry, op: Op, a: Alert)
    requires a in r.alerts && a.state == Active && a.timeoutS <= 0 && !ActsOn(r, op, a)
    ensures a in Step(r, op).alerts
  {
    var i :| 0 <= i < |r.alerts| && r.alerts[i] == a;
    match op
    case Sweep(now) => SweptKeeps(r.alerts, now, i);
    case _ => assert i < |Step(r, op).alerts| && Step(r, op).alerts[i] == a;
  }

  /** An alert without a timeout stays listed, active and unchanged through every
      run of calls and sweeps until one of them acts on it. */
  lemma {:induction false} TimeoutZeroSurvives(r: Registry, ops: seq<Op>, a: Alert)
    requires a in r.alerts && a.state == Active && a.timeoutS <= 0 && LeftAlone(r, ops, a)
    ensures a in RunFrom(r, ops).alerts
  {
    if ops == [] {
    } else {
      TimeoutZeroSurvives(r, ops[..|ops| - 1], a);
      StepLeavesAlone(RunFrom(r, ops[..|ops| - 1]), ops[|ops| - 1], a);
    }
  }

  /** The time to live counts from the start of an alert, not from its
      resolution: a sweep leaves an alert that was acknowledged or dismissed, or
      that it expires itself, listed exactly when the alert started at most 300
      seconds ago. */
  lemma ResolvedStaysListed(r: Registry, now: real, i: nat)
    requires UniqueIds(r.alerts) && i < |r.alerts| && AfterExpiry(r.alerts[i], now).state != Active
    ensures Known(Step(r, Sweep(now)).alerts, r.alerts[i].id) <==> now - r.alerts[i].startedAt <= 300.0
  {
    var after := Swept(r.alerts, now);
    if !Stale(AfterExpiry(r.alerts[i], now), now) {
      SweptKeeps(r.alerts, now, i);
    } else if Known(after, r.alerts[i].id) {
      var k :| 0 <= k < |after| && after[k].id == r.alerts[i].id;
      var j := SweptFrom(r.alerts, now, k);
    }
  }
}
