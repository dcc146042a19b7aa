/** Python list operations used by the example stores: `list.remove(x)`
    (drop the first element equal to `x`, or fail with ValueError), a run of
    removals, and filtering. Equality is a parameter because the stored
    records compare in different ways (by name only, or field by field). */
module Removal {
  import opened Wrappers

  lemma PrefixSnoc<T>(s: seq<T>, i: nat)
    requires i < |s|
    ensures s[..i + 1] == s[..i] + [s[i]]
  {
  }

  lemma WholePrefix<T>(s: seq<T>)
    ensures s[..|s|] == s
  {
  }

  lemma PrefixOfPrefix<T>(s: seq<T>, i: nat)
    requires i < |s|
    ensures s[..i + 1][..i] == s[..i]
  {
  }

  lemma SplitJoin<T>(s: seq<T>, i: nat)
    requires i <= |s|
    ensures s[..i] + s[i..] == s
  {
  }

  /** The elements of `s` satisfying `p`, in order. */
  function Filter<T(!new)>(s: seq<T>, p: T -> bool): (r: seq<T>)
    ensures |r| <= |s|
  {
    if s == [] then [] else (if p(s[0]) then [s[0]] else []) + Filter(s[1..], p)
  }

  /** The elements of `s` not satisfying `p`, in order. */
  function Reject<T(!new)>(s: seq<T>, p: T -> bool): (r: seq<T>)
    ensures |r| <= |s|
  {
    if s == [] then [] else (if p(s[0]) then [] else [s[0]]) + Reject(s[1..], p)
  }

  ghost predicate Reflexive<T(!new)>(eq: (T, T) -> bool) {
    forall a :: eq(a, a)
  }

  /** `p` cannot tell apart elements that `eq` considers equal. */
  ghost predicate Respects<T(!new)>(p: T -> bool, eq: (T, T) -> bool) {
    forall a, b :: eq(a, b) ==> p(a) == p(b)
  }

  /** The index of the first element of `s` equal to `x`. */
  function FirstEqual<T(!new)>(s: seq<T>, x: T, eq: (T, T) -> bool): (r: Option<nat>)
    ensures r.Some? ==> r.value < |s| && eq(s[r.value], x)
                        && forall j :: 0 <= j < r.value ==> !eq(s[j], x)
    ensures r.None? ==> forall j :: 0 <= j < |s| ==> !eq(s[j], x)
  {
    if s == [] then None
    else if eq(s[0], x) then Some(0)
    else
      match FirstEqual(s[1..], x, eq)
      case None => None
      case Some(i) => Some(i + 1)
  }

  /** `s.remove(x)` on a copy: `None` stands for the ValueError raised when no
      element equals `x`. */
  function RemoveFirst<T(!new)>(s: seq<T>, x: T, eq: (T, T) -> bool): (r: Option<seq<T>>)
    ensures r.None? <==> forall j :: 0 <= j < |s| ==> !eq(s[j], x)
    ensures r.Some? ==> |r.value| == |s| - 1
  {
    match FirstEqual(s, x, eq)
    case None => None
    case Some(i) => Some(s[..i] + s[i + 1..])
  }

  /** Removal skips over a head that differs from the removed element. */
  lemma RemoveFirstSkipHead<T(!new)>(h: T, t: seq<T>, x: T, eq: (T, T) -> bool)
    requires !eq(h, x)
    ensures RemoveFirst([h] + t, x, eq) ==
            (match RemoveFirst(t, x, eq) case None => None case Some(u) => Some([h] + u))
  {
    assert ([h] + t)[1..] == t;
    match FirstEqual(t, x, eq)
    case None =>
    case Some(i) =>
      assert ([h] + t)[..i + 1] + ([h] + t)[i + 2..] == [h] + (t[..i] + t[i + 1..]);
  }

  /** `for x in xs: s.remove(x)`, stopping at the first ValueError. */
  function RemoveEach<T(!new)>(s: seq<T>, xs: seq<T>, eq: (T, T) -> bool): Option<seq<T>> {
    if xs == [] then Some(s)
    else
      match RemoveFirst(s, xs[0], eq)
      case None => None
      case Some(t) => RemoveEach(t, xs[1..], eq)
  }

  /** A head equal to none of the removed elements stays in front. */
  lemma {:induction false} RemoveEachSkipHead<T(!new)>(h: T, t: seq<T>, xs: seq<T>, eq: (T, T) -> bool)
    requires forall y :: y in xs ==> !eq(h, y)
    ensures RemoveEach([h] + t, xs, eq) ==
            (match RemoveEach(t, xs, eq) case None => None case Some(u) => Some([h] + u))
  {
    if xs != [] {
      assert ([h] + t)[0] == h && ([h] + t)[1..] == t;
      RemoveFirstSkipHead(h, t, xs[0], eq);
      match RemoveFirst(t, xs[0], eq)
      case None =>
      case Some(u) =>
        RemoveFirstSkipHead(h, t, xs[0], eq);
        RemoveEachSkipHead(h, u, xs[1..], eq);
    }
  }

  lemma {:induction false} FilterMember<T(!new)>(s: seq<T>, p: T -> bool, x: T)
    requires x in Filter(s, p)
    ensures x in s && p(x)
  {
    if s != [] && !(p(s[0]) && x == s[0]) {
      assert Filter(s, p) == (if p(s[0]) then [s[0]] else []) + Filter(s[1..], p);
      FilterMember(s[1..], p, x);
    }
  }

  lemma {:induction false} FilterContains<T(!new)>(s: seq<T>, p: T -> bool, x: T)
    requires x in s && p(x)
    ensures x in Filter(s, p)
  {
    if s[0] != x {
      FilterContains(s[1..], p, x);
    }
  }

  /** Filtering distributes over concatenation. */
  lemma {:induction false} FilterAppend<T(!new)>(a: seq<T>, b: seq<T>, p: T -> bool)
    ensures Filter(a + b, p) == Filter(a, p) + Filter(b, p)
  {
    if a == [] {
      assert a + b == b;
    } else {
      var head := if p(a[0]) then [a[0]] else [];
      assert (a + b)[0] == a[0] && (a + b)[1..] == a[1..] + b;
      assert Filter(a + b, p) == head + Filter(a[1..] + b, p);
      FilterAppend(a[1..], b, p);
      assert Filter(a, p) == head + Filter(a[1..], p);
      assert head + (Filter(a[1..], p) + Filter(b, p)) == (head + Filter(a[1..], p)) + Filter(b, p);
    }
  }

  lemma FilterSnoc<T(!new)>(s: seq<T>, x: T, p: T -> bool)
    ensures Filter(s + [x], p) == Filter(s, p) + (if p(x) then [x] else [])
  {
    FilterAppend(s, [x], p);
    assert [x][1..] == [];
  }

  lemma {:induction false} FilterNone<T(!new)>(s: seq<T>, p: T -> bool)
    requires forall x :: x in s ==> !p(x)
    ensures Filter(s, p) == []
  {
    if s != [] {
      FilterNone(s[1..], p);
    }
  }

  /** At most one element satisfying `p` leaves at most one after
      filtering. */
  lemma {:induction false} FilterAtMostOne<T(!new)>(s: seq<T>, p: T -> bool)
    requires forall i, j :: 0 <= i < j < |s| && p(s[i]) ==> !p(s[j])
    ensures |Filter(s, p)| <= 1
  {
    if s != [] {
      if p(s[0]) {
        forall x | x in s[1..] ensures !p(x) {
          var j :| 0 <= j < |s[1..]| && s[1..][j] == x;
          assert s[j + 1] == x;
        }
        FilterNone(s[1..], p);
      } else {
        FilterAtMostOne(s[1..], p);
      }
    }
  }

  lemma {:induction false} RejectMember<T(!new)>(s: seq<T>, p: T -> bool, x: T)
    requires x in Reject(s, p)
    ensures x in s && !p(x)
  {
    if s != [] && !(!p(s[0]) && x == s[0]) {
      assert Reject(s, p) == (if p(s[0]) then [] else [s[0]]) + Reject(s[1..], p);
      RejectMember(s[1..], p, x);
    }
  }

  /** The first element satisfying `p` heads the filtered list. */
  lemma FilterFirstAt<T(!new)>(s: seq<T>, p: T -> bool, i: nat)
    requires i < |s| && p(s[i])
    requires forall j :: 0 <= j < i ==> !p(s[j])
    ensures Filter(s, p) == [s[i]] + Filter(s[i + 1..], p)
  {
    assert s == s[..i] + s[i..];
    FilterAppend(s[..i], s[i..], p);
    FilterNone(s[..i], p);
    assert s[i..] == [s[i]] + s[i + 1..];
    assert Filter(s[i..], p) == [s[i]] + Filter(s[i + 1..], p);
  }

  lemma RemoveEachOne<T(!new)>(s: seq<T>, x: T, eq: (T, T) -> bool)
    ensures RemoveEach(s, [x], eq) == RemoveFirst(s, x, eq)
  {
    assert [x][0] == x && [x][1..] == [];
  }

  /** Removing, one by one, every element that satisfies an
      equality-respecting `q` leaves exactly the elements that do not. */
  lemma {:induction false} RemoveMatching<T(!new)>(s: seq<T>, q: T -> bool, eq: (T, T) -> bool)
    requires Reflexive(eq) && Respects(q, eq)
    ensures RemoveEach(s, Filter(s, q), eq) == Some(Reject(s, q))
  {
    if s != [] {
      var f := Filter(s[1..], q);
      RemoveMatching(s[1..], q, eq);
      if q(s[0]) {
        assert Filter(s, q) == [s[0]] + f;
        assert eq(s[0], s[0]);
        assert s[..0] + s[1..] == s[1..];
        assert RemoveFirst(s, s[0], eq) == Some(s[1..]);
        assert ([s[0]] + f)[0] == s[0] && ([s[0]] + f)[1..] == f;
        assert RemoveEach(s, [s[0]] + f, eq) == RemoveEach(s[1..], f, eq);
        assert Reject(s, q) == Reject(s[1..], q);
      } else {
        assert Filter(s, q) == f;
        forall y | y in f ensures !eq(s[0], y) {
          FilterMember(s[1..], q, y);
        }
        assert s == [s[0]] + s[1..];
        RemoveEachSkipHead(s[0], s[1..], f, eq);
      }
    }
  }

  /** Filtering commutes with an earlier rejection that cannot hit the
      filtered elements. */
  lemma {:induction false} FilterAfterReject<T(!new)>(s: seq<T>, a: T -> bool, q: T -> bool)
    requires forall x :: x in s && q(x) ==> !a(x)
    ensures Filter(Reject(s, a), q) == Filter(s, q)
  {
    if s != [] {
      var r := Reject(s[1..], a);
      FilterAfterReject(s[1..], a, q);
      if !a(s[0]) {
        assert Reject(s, a) == [s[0]] + r;
        assert ([s[0]] + r)[0] == s[0] && ([s[0]] + r)[1..] == r;
      } else {
        assert Reject(s, a) == r;
        assert !q(s[0]);
      }
    }
  }

  /** Two rejections in a row reject by the disjunction. */
  lemma {:induction false} RejectTwice<T(!new)>(s: seq<T>, a: T -> bool, q: T -> bool, both: T -> bool)
    requires forall x :: x in s ==> (both(x) <==> a(x) || q(x))
    ensures Reject(Reject(s, a), q) == Reject(s, both)
  {
    if s != [] {
      var r := Reject(s[1..], a);
      RejectTwice(s[1..], a, q, both);
      if !a(s[0]) {
        assert Reject(s, a) == [s[0]] + r;
        assert ([s[0]] + r)[0] == s[0] && ([s[0]] + r)[1..] == r;
      } else {
        assert Reject(s, a) == r;
      }
    }
  }

  /** Rejecting by pointwise-equal predicates gives the same list. */
  lemma {:induction false} RejectExt<T(!new)>(s: seq<T>, a: T -> bool, b: T -> bool)
    requires forall x :: x in s ==> (a(x) <==> b(x))
    ensures Reject(s, a) == Reject(s, b)
  {
    if s != [] { RejectExt(s[1..], a, b); }
  }
}
