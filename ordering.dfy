/** Python's ordering of strings (code point by code point) and
    `sorted(set(xs))` on a list of strings. */
module Ordering {

  /** `a < b` on Python strings. */
  predicate Less(a: string, b: string) {
    if a == [] then b != []
    else if b == [] then false
    else if a[0] != b[0] then a[0] < b[0]
    else Less(a[1..], b[1..])
  }

  lemma {:induction false} LessIrreflexive(a: string)
    ensures !Less(a, a)
  {
    if a != [] { LessIrreflexive(a[1..]); }
  }

  lemma {:induction false} LessTransitive(a: string, b: string, c: string)
    requires Less(a, b) && Less(b, c)
    ensures Less(a, c)
  {
    if a != [] && b != [] && c != [] && a[0] == b[0] && b[0] == c[0] {
      LessTransitive(a[1..], b[1..], c[1..]);
    }
  }

  lemma {:induction false} LessTotal(a: string, b: string)
    requires a != b
    ensures Less(a, b) || Less(b, a)
  {
    if a != [] && b != [] && a[0] == b[0] {
      assert a == [a[0]] + a[1..] && b == [b[0]] + b[1..];
      LessTotal(a[1..], b[1..]);
    }
  }

  /** Strictly increasing, hence free of duplicates. */
  predicate SortedStrict(xs: seq<string>) {
    forall i, j :: 0 <= i < j < |xs| ==> Less(xs[i], xs[j])
  }

  lemma SortedStrictNoDup(xs: seq<string>)
    requires SortedStrict(xs)
    ensures forall i, j :: 0 <= i < j < |xs| ==> xs[i] != xs[j]
  {
    forall i, j | 0 <= i < j < |xs| ensures xs[i] != xs[j] {
      LessIrreflexive(xs[i]);
    }
  }

  function Elems(xs: seq<string>): set<string> {
    set y | y in xs
  }

  /** Inserts `x` into a strictly increasing list unless it is already there. */
  function Insert(xs: seq<string>, x: string): (r: seq<string>)
    requires SortedStrict(xs)
    ensures SortedStrict(r)
    ensures Elems(r) == Elems(xs) + {x}
  {
    if xs == [] then [x]
    else if xs[0] == x then xs
    else if Less(x, xs[0]) then
      LessTransitiveAll(x, xs);
      [x] + xs
    else
      LessTotal(x, xs[0]);
      var tail := Insert(xs[1..], x);
      InsertTailAbove(xs, x, tail);
      assert xs == [xs[0]] + xs[1..];
      assert Elems([xs[0]] + tail) == {xs[0]} + Elems(tail);
      assert Elems(xs) == {xs[0]} + Elems(xs[1..]);
      [xs[0]] + tail
  }

  lemma InsertTailAbove(xs: seq<string>, x: string, tail: seq<string>)
    requires SortedStrict(xs) && xs != [] && Less(xs[0], x)
    requires Elems(tail) == Elems(xs[1..]) + {x}
    ensures forall k :: 0 <= k < |tail| ==> Less(xs[0], tail[k])
  {
    forall k | 0 <= k < |tail| ensures Less(xs[0], tail[k]) {
      var y := tail[k];
      assert y in Elems(tail);
      if y != x {
        assert y in Elems(xs[1..]);
        var j :| 0 <= j < |xs[1..]| && xs[1..][j] == y;
        assert xs[j + 1] == y;
      }
    }
  }

  lemma LessTransitiveAll(x: string, xs: seq<string>)
    requires SortedStrict(xs) && xs != [] && Less(x, xs[0])
    ensures forall k :: 0 <= k < |xs| ==> Less(x, xs[k])
  {
    forall k | 0 < k < |xs| ensures Less(x, xs[k]) {
      LessTransitive(x, xs[0], xs[k]);
    }
  }

  /** `sorted(set(xs))`. */
  function SortedSet(xs: seq<string>): (r: seq<string>)
    ensures SortedStrict(r)
    ensures Elems(r) == Elems(xs)
  {
    if xs == [] then []
    else
      assert xs == xs[..|xs| - 1] + [xs[|xs| - 1]];
      assert Elems(xs) == Elems(xs[..|xs| - 1]) + {xs[|xs| - 1]};
      Insert(SortedSet(xs[..|xs| - 1]), xs[|xs| - 1])
  }

  /** `s.discard(x)` on a set kept as a strictly increasing list. */
  function Discard(xs: seq<string>, x: string): (r: seq<string>)
    requires SortedStrict(xs)
    ensures SortedStrict(r)
    ensures Elems(r) == Elems(xs) - {x}
  {
    if xs == [] then []
    else
      var tail := Discard(xs[1..], x);
      assert xs == [xs[0]] + xs[1..];
      assert Elems(xs) == {xs[0]} + Elems(xs[1..]);
      SortedStrictNoDup(xs);
      if xs[0] == x then
        assert x !in Elems(xs[1..]);
        tail
      else
        forall k | 0 <= k < |tail| ensures tail[k] in Elems(xs[1..]) {
          assert tail[k] in Elems(tail);
        }
        DiscardTailAbove(xs, tail);
        assert Elems([xs[0]] + tail) == {xs[0]} + Elems(tail);
        [xs[0]] + tail
  }

  lemma DiscardTailAbove(xs: seq<string>, tail: seq<string>)
    requires SortedStrict(xs) && xs != []
    requires forall k :: 0 <= k < |tail| ==> tail[k] in Elems(xs[1..])
    requires SortedStrict(tail)
    ensures SortedStrict([xs[0]] + tail)
  {
    forall k | 0 <= k < |tail| ensures Less(xs[0], tail[k]) {
      var j :| 0 <= j < |xs[1..]| && xs[1..][j] == tail[k];
      assert xs[j + 1] == tail[k];
    }
  }

  /** A strictly increasing list is fixed by its elements: it is the one
      value `sorted(set(...))` can return for them. */
  lemma {:induction false} SortedUnique(xs: seq<string>, ys: seq<string>)
    requires SortedStrict(xs) && SortedStrict(ys) && Elems(xs) == Elems(ys)
    ensures xs == ys
  {
    assert xs != [] ==> xs[0] in Elems(xs);
    assert ys != [] ==> ys[0] in Elems(ys);
    if xs != [] && ys != [] {
      assert xs[0] in Elems(ys) && ys[0] in Elems(xs);
      var j :| 0 <= j < |ys| && ys[j] == xs[0];
      var i :| 0 <= i < |xs| && xs[i] == ys[0];
      if i != 0 && j != 0 {
        LessTransitive(xs[0], ys[0], xs[0]);
        LessIrreflexive(xs[0]);
      }
      assert xs[0] == ys[0];
      SortedStrictNoDup(xs);
      SortedStrictNoDup(ys);
      assert xs == [xs[0]] + xs[1..] && ys == [ys[0]] + ys[1..];
      assert Elems(xs[1..]) == Elems(xs) - {xs[0]};
      assert Elems(ys[1..]) == Elems(ys) - {ys[0]};
      SortedUnique(xs[1..], ys[1..]);
    }
  }
}
