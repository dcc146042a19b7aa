/** The dynamic values the workflow code passes around: JSON-like Python
    values (dicts with string keys, lists, tuples, sets, scalars) and
    owlready2 entities, with Python's `str`, truthiness and the dict
    operations the code uses. Dicts keep insertion order. */
module Values {
  import opened Wrappers
  import opened Text

  datatype Value =
    | NoneV
    | Bool(b: bool)
    | Int(i: int)
    | Str(s: string)
    | List(items: seq<Value>)
    | Tuple(items: seq<Value>)
    | Set(items: seq<Value>)
    | Dict(entries: seq<(string, Value)>)
      /** An owlready2 `Thing` or `ThingClass`: its `name`, and what `str`
          prints for it. */
    | Entity(name: string, text: string)
      /** Any other object, by what `str` prints for it. */
    | Opaque(text: string)

  /** `bool(v)` */
  predicate Truthy(v: Value) {
    match v
    case NoneV => false
    case Bool(b) => b
    case Int(i) => i != 0
    case Str(s) => s != ""
    case List(items) => items != []
    case Tuple(items) => items != []
    case Set(items) => items != []
    case Dict(entries) => entries != []
    case Entity(_, _) => true
    case Opaque(_) => true
  }

  /** `str(i)` */
  function IntToString(i: int): string {
    if i < 0 then "-" + NatToString(-i) else NatToString(i)
  }

  /** `str(v)`; quotes inside strings are not escaped. */
  function PyStr(v: Value): string
    decreases v, 1
  {
    match v
    case NoneV => "None"
    case Bool(b) => if b then "True" else "False"
    case Int(i) => IntToString(i)
    case Str(s) => s
    case List(items) => "[" + Join(seq(|items|, k requires 0 <= k < |items| => Repr(items[k])), ", ") + "]"
    case Tuple(items) =>
      if |items| == 1 then "(" + Repr(items[0]) + ",)"
      else "(" + Join(seq(|items|, k requires 0 <= k < |items| => Repr(items[k])), ", ") + ")"
    case Set(items) =>
      if items == [] then "set()"
      else "{" + Join(seq(|items|, k requires 0 <= k < |items| => Repr(items[k])), ", ") + "}"
    case Dict(entries) =>
      "{" + Join(seq(|entries|, k requires 0 <= k < |entries| => "'" + entries[k].0 + "': " + Repr(entries[k].1)), ", ") + "}"
    case Entity(_, text) => text
    case Opaque(text) => text
  }

  /** `repr(v)`: strings quoted, everything else as `str`. */
  function Repr(v: Value): string
    decreases v, 2
  {
    if v.Str? then "'" + v.s + "'" else PyStr(v)
  }

  // ---------------------------------------------------------------------
  // Dicts as insertion-ordered entry lists
  // ---------------------------------------------------------------------

  type Entries = seq<(string, Value)>

  function Keys(d: Entries): (r: seq<string>)
    ensures |r| == |d| && forall i :: 0 <= i < |d| ==> r[i] == d[i].0
  {
    seq(|d|, i requires 0 <= i < |d| => d[i].0)
  }

  predicate HasKey(d: Entries, k: string) {
    exists i :: 0 <= i < |d| && d[i].0 == k
  }

  /** No key is stored twice, as in a Python dict. */
  predicate UniqueKeys(d: Entries) {
    forall i, j :: 0 <= i < j < |d| ==> d[i].0 != d[j].0
  }

  /** `d.get(k)`: the value stored under `k`, if any. */
  function Lookup(d: Entries, k: string): (r: Option<Value>)
    ensures r.Some? <==> HasKey(d, k)
    ensures r.Some? ==> exists i :: 0 <= i < |d| && d[i] == (k, r.value)
  {
    if d == [] then None
    else if d[0].0 == k then Some(d[0].1)
    else
      var r := Lookup(d[1..], k);
      assert forall i :: 0 < i < |d| ==> d[i] == d[1..][i - 1];
      assert HasKey(d[1..], k) ==> HasKey(d, k);
      r
  }

  /** `d.get(k, default)` */
  function Get(d: Entries, k: string, default: Value): Value {
    Lookup(d, k).GetOr(default)
  }

  /** `d[k] = v`: replaces the value in place when the key is there,
      otherwise appends the entry. */
  function Store(d: Entries, k: string, v: Value): (r: Entries)
    ensures HasKey(d, k) ==> |r| == |d|
    ensures !HasKey(d, k) ==> r == d + [(k, v)]
  {
    if d == [] then [(k, v)]
    else if d[0].0 == k then [(k, v)] + d[1..]
    else
      assert HasKey(d[1..], k) <==> HasKey(d, k) by {
        assert forall i :: 0 < i < |d| ==> d[i] == d[1..][i - 1];
      }
      [d[0]] + Store(d[1..], k, v)
  }

  lemma HasKeyCons(d: Entries, k: string)
    requires d != []
    ensures HasKey(d, k) <==> d[0].0 == k || HasKey(d[1..], k)
  {
    assert forall i :: 0 < i < |d| ==> d[i] == d[1..][i - 1];
  }

  /** After `d[k] = v`, `k` looks up `v` and every other key what it
      looked up before. */
  lemma {:induction false} StoreLookup(d: Entries, k: string, v: Value, k': string)
    ensures Lookup(Store(d, k, v), k') == if k' == k then Some(v) else Lookup(d, k')
  {
    if d != [] && d[0].0 != k {
      StoreLookup(d[1..], k, v, k');
      assert Store(d, k, v)[1..] == Store(d[1..], k, v);
    }
  }

  /** After `d[k] = v` the keys are the old ones plus `k`. */
  lemma {:induction false} StoreKeys(d: Entries, k: string, v: Value, k': string)
    ensures HasKey(Store(d, k, v), k') <==> k' == k || HasKey(d, k')
  {
    if d != [] {
      var r := Store(d, k, v);
      HasKeyCons(d, k');
      HasKeyCons(r, k');
      assert r[1..] == (if d[0].0 == k then d[1..] else Store(d[1..], k, v));
      if d[0].0 != k {
        StoreKeys(d[1..], k, v, k');
      }
    } else {
      assert Store(d, k, v)[0].0 == k;
    }
  }

  /** `d[k] = v` keeps the keys unique. */
  lemma {:induction false} StoreUnique(d: Entries, k: string, v: Value)
    requires UniqueKeys(d)
    ensures UniqueKeys(Store(d, k, v))
  {
    if d != [] && d[0].0 != k {
      var tail := Store(d[1..], k, v);
      StoreUnique(d[1..], k, v);
      var r := Store(d, k, v);
      assert r == [d[0]] + tail;
      StoreKeys(d[1..], k, v, d[0].0);
      assert !HasKey(d[1..], d[0].0) by {
        forall i | 0 <= i < |d[1..]| ensures d[1..][i].0 != d[0].0 {
          assert d[1..][i] == d[i + 1];
        }
      }
      forall i, j | 0 <= i < j < |r| ensures r[i].0 != r[j].0 {
        if i == 0 {
          assert r[j] == tail[j - 1];
        } else {
          assert r[i] == tail[i - 1] && r[j] == tail[j - 1];
        }
      }
    } else if d != [] {
      var r := Store(d, k, v);
      forall i, j | 0 <= i < j < |r| ensures r[i].0 != r[j].0 {
        assert r[j].0 == d[j].0;
        assert r[i].0 == d[i].0;
      }
    }
  }

  /** A dict value's own lookup. */
  function Field(v: Value, k: string): Option<Value> {
    if v.Dict? then Lookup(v.entries, k) else None
  }

  /** After appending an entry, a key looks up its first entry as before,
      or the new one when it was missing. */
  lemma {:induction false} LookupSnoc(d: Entries, k': string, v: Value, k: string)
    ensures Lookup(d + [(k', v)], k) == if HasKey(d, k) then Lookup(d, k) else if k == k' then Some(v) else None
  {
    if d != [] {
      HasKeyCons(d, k);
      if d[0].0 != k {
        assert (d + [(k', v)])[1..] == d[1..] + [(k', v)];
        LookupSnoc(d[1..], k', v, k);
      }
    }
  }

  // ---------------------------------------------------------------------
  // Exceptions and the operations that raise them
  // ---------------------------------------------------------------------

  /** The exceptions an operation on a malformed value raises. */
  datatype PyError = KeyError(key: string) | TypeError | AttributeError | ValueError | IndexError

  /** `d[k]` */
  function Index(d: Entries, k: string): (r: Result<Value, PyError>)
    ensures r.Ok? <==> HasKey(d, k)
    ensures r.Ok? ==> Lookup(d, k) == Some(r.value)
    ensures r.Err? ==> r.error == KeyError(k)
  {
    match Lookup(d, k)
    case Some(v) => Ok(v)
    case None => Err(KeyError(k))
  }

  /** `v[-1]`: the last item of a list, tuple or string, `IndexError` when
      it is empty (callers guard with a truthiness test and never reach
      that case), `KeyError` on a dict and `TypeError` on anything else. */
  function LastItem(v: Value): Result<Value, PyError> {
    match v
    case List(items) => if items == [] then Err(IndexError) else Ok(items[|items| - 1])
    case Tuple(items) => if items == [] then Err(IndexError) else Ok(items[|items| - 1])
    case Str(s) => if s == [] then Err(IndexError) else Ok(Str([s[|s| - 1]]))
    case Dict(_) => Err(KeyError("-1"))
    case _ => Err(TypeError)
  }

  /** What iterating over `v` yields (`list(v)`), if it is iterable. */
  function Elements(v: Value): Option<seq<Value>> {
    match v
    case List(items) => Some(items)
    case Tuple(items) => Some(items)
    case Set(items) => Some(items)
    case Str(s) => Some(seq(|s|, i requires 0 <= i < |s| => Str([s[i]])))
    case Dict(entries) => Some(seq(|entries|, i requires 0 <= i < |entries| => Str(entries[i].0)))
    case _ => None
  }

  /** `d[k].append(item)`: the list stored under `k` grows by `item`. */
  function AppendAt(d: Entries, k: string, item: Value): (r: Result<Entries, PyError>)
    ensures r.Ok? <==> HasKey(d, k) && Lookup(d, k).value.List?
    ensures !HasKey(d, k) ==> r == Err(KeyError(k))
    ensures r.Ok? ==> r.value == Store(d, k, List(Lookup(d, k).value.items + [item]))
  {
    match Index(d, k)
    case Err(e) => Err(e)
    case Ok(v) => if v.List? then Ok(Store(d, k, List(v.items + [item]))) else Err(AttributeError)
  }

  /** Python's `item in container` for a string `item`: a key of a dict,
      an element of a list, tuple or set, a substring of a string; any
      other value cannot be searched. */
  function Member(item: string, container: Value): (r: Result<bool, PyError>)
    ensures container.Dict? ==> r == Ok(HasKey(container.entries, item))
    ensures r.Err? <==> Elements(container).None?
  {
    match container
    case Dict(entries) => Ok(HasKey(entries, item))
    case List(items) => Ok(Str(item) in items)
    case Tuple(items) => Ok(Str(item) in items)
    case Set(items) => Ok(Str(item) in items)
    case Str(s) => Ok(Contains(s, item))
    case _ => Err(TypeError)
  }
}
