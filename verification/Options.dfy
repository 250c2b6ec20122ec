/** The conventional optional value, standing for Python's `X | None`. */
module Options {
  datatype Option<+T> = None | Some(value: T)
}

/** Extensionality for sets of integers, by way of a comprehension. */
module IntSets {
  lemma Same(a: set<int>, b: set<int>)
    requires forall k :: k in a <==> k in b
    ensures a == b
  {
    var x := set k | k in a;
    assert x == a;
    assert forall k: int :: k in x <==> k in b;
  }

  lemma Inhabited(s: set<int>)
    requires s != {}
    ensures exists k :: k in s
  {
    if forall k :: k !in s {
      Same(s, {});
    }
  }
}

module Integers {
  function Abs(x: int): nat { if x < 0 then -x else x }

  function Min(a: int, b: int): int { if a <= b then a else b }

  function Max(a: int, b: int): int { if a <= b then b else a }
}

/** A string outside a finite set. */
module Strings {
  ghost function Bound(all: set<string>): (n: nat)
    ensures forall x | x in all :: |x| <= n
  {
    if all == {} then 0
    else
      var x :| x in all;
      var m := Bound(all - {x});
      assert forall y | y in all :: y == x || y in all - {x};
      if m < |x| then |x| else m
  }

  ghost function Fresh(all: set<string>): (x: string)
    ensures x != "" && x !in all
  {
    seq(Bound(all) + 1, _ => 'x')
  }
}
