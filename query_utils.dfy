/** `autonogy_constructor/idea/query_team/utils.py`: decoding of execution
    plans, formatting of owlready2 values and SPARQL results, the SPARQL
    variable scanner and the text formatters of the query team. */
module QueryUtils {
  import opened Wrappers
  import Removal
  import opened Text
  import opened Values
  import OntologyTools

  // ---------------------------------------------------------------------
  // parse_json
  // ---------------------------------------------------------------------

  /** `parse_json`: the decoded document, or an empty list when decoding
      fails. The JSON decoder itself is a parameter: `None` stands for a
      `JSONDecodeError`. */
  function ParseJson(decoded: Option<Value>): (r: Value)
    ensures decoded.None? ==> r == List([])
    ensures decoded.Some? ==> r == decoded.value
  {
    decoded.GetOr(List([]))
  }

  // ---------------------------------------------------------------------
  // format_owlready2_value
  // ---------------------------------------------------------------------

  /** `format_owlready2_value` */
  function FormatValue(v: Value): (r: Value)
    ensures v.Entity? ==> r == Str(v.name)
    ensures v.List? || v.Set? ==> r.List? && |r.items| == |v.items|
    ensures v.Dict? ==> r.Dict? && Keys(r.entries) == Keys(v.entries)
    ensures !(v.Entity? || v.List? || v.Set? || v.Dict?) ==> r == Str(PyStr(v))
    decreases v
  {
    match v
    case Entity(name, _) => Str(name)
    case List(items) => List(seq(|items|, i requires 0 <= i < |items| => FormatValue(items[i])))
    case Set(items) => List(seq(|items|, i requires 0 <= i < |items| => FormatValue(items[i])))
    case Dict(entries) =>
      Dict(seq(|entries|, i requires 0 <= i < |entries| => (entries[i].0, FormatValue(entries[i].1))))
    case _ => Str(PyStr(v))
  }

  /** What `format_owlready2_value` can return: strings, lists and dicts of
      them. */
  predicate Formatted(v: Value)
    decreases v
  {
    match v
    case Str(_) => true
    case List(items) => forall i :: 0 <= i < |items| ==> Formatted(items[i])
    case Dict(entries) => forall i :: 0 <= i < |entries| ==> Formatted(entries[i].1)
    case _ => false
  }

  /** Elements and dict values are formatted one by one, in order. */
  lemma FormatValueElements(v: Value)
    ensures v.List? || v.Set? ==> forall i :: 0 <= i < |v.items| ==> FormatValue(v).items[i] == FormatValue(v.items[i])
    ensures v.Dict? ==> forall i :: 0 <= i < |v.entries| ==>
              FormatValue(v).entries[i] == (v.entries[i].0, FormatValue(v.entries[i].1))
  {
  }

  /** The result holds no entity, tuple, set or scalar other than strings. */
  lemma {:induction false} FormatValueFormatted(v: Value)
    ensures Formatted(FormatValue(v))
    decreases v
  {
    match v
    case List(items) =>
      forall i | 0 <= i < |items| ensures Formatted(FormatValue(v).items[i]) {
        FormatValueFormatted(items[i]);
      }
    case Set(items) =>
      forall i | 0 <= i < |items| ensures Formatted(FormatValue(v).items[i]) {
        FormatValueFormatted(items[i]);
      }
    case Dict(entries) =>
      forall i | 0 <= i < |entries| ensures Formatted(FormatValue(v).entries[i].1) {
        FormatValueFormatted(entries[i].1);
      }
    case _ =>
  }

  /** Formatted values are left as they are. */
  lemma {:induction false} FormatValueFixes(v: Value)
    requires Formatted(v)
    ensures FormatValue(v) == v
    decreases v
  {
    match v
    case List(items) =>
      forall i | 0 <= i < |items| ensures FormatValue(items[i]) == items[i] {
        FormatValueFixes(items[i]);
      }
      assert FormatValue(v).items == items;
    case Dict(entries) =>
      forall i | 0 <= i < |entries| ensures FormatValue(entries[i].1) == entries[i].1 {
        FormatValueFixes(entries[i].1);
      }
      assert FormatValue(v).entries == entries;
    case Str(_) =>
  }

  /** Formatting twice is formatting once. */
  lemma FormatValueIdempotent(v: Value)
    ensures FormatValue(FormatValue(v)) == FormatValue(v)
  {
    FormatValueFormatted(v);
    FormatValueFixes(FormatValue(v));
  }

  // ---------------------------------------------------------------------
  // format_sparql_results
  // ---------------------------------------------------------------------

  /** `f"var{i}"` */
  function VarKey(i: nat): string {
    "var" + NatToString(i)
  }

  lemma VarKeyInjective(i: nat, j: nat)
    requires VarKey(i) == VarKey(j)
    ensures i == j
  {
    assert VarKey(i)[3..] == NatToString(i);
    assert VarKey(j)[3..] == NatToString(j);
    NatToStringInjective(i, j);
  }

  /** The dict built for a tuple row: `var0`, `var1`, ... in order. */
  function TupleRow(values: seq<Value>): (r: Entries)
    ensures |r| == |values|
  {
    seq(|values|, i requires 0 <= i < |values| => (VarKey(i), FormatValue(values[i])))
  }

  /** The dict built for one SPARQL result. */
  function SparqlRow(result: Value): Value {
    if result.Tuple? then Dict(TupleRow(result.items)) else Dict([("result", FormatValue(result))])
  }

  function SparqlRows(results: seq<Value>): (r: seq<Value>)
  {
    seq(|results|, i requires 0 <= i < |results| => SparqlRow(results[i]))
  }

  /** The inner loop of `format_sparql_results`: `item[f"var{i}"] = ...`
      for each value of a tuple. */
  method TupleItem(values: seq<Value>) returns (item: Entries)
    ensures item == TupleRow(values)
  {
    item := [];
    var i := 0;
    while i < |values|
      invariant 0 <= i <= |values|
      invariant item == TupleRow(values[..i])
    {
      forall j | 0 <= j < |item| ensures item[j].0 != VarKey(i) {
        if item[j].0 == VarKey(i) {
          VarKeyInjective(j, i);
        }
      }
      item := Store(item, VarKey(i), FormatValue(values[i]));
      i := i + 1;
      assert item == TupleRow(values[..i]);
    }
    Removal.WholePrefix(values);
  }

  /** `format_sparql_results` */
  method FormatSparqlResults(results: seq<Value>) returns (r: Value)
    ensures r == Dict([("results", List(SparqlRows(results)))])
  {
    var formatted: seq<Value> := [];
    var k := 0;
    while k < |results|
      invariant 0 <= k <= |results|
      invariant formatted == SparqlRows(results[..k])
    {
      var result := results[k];
      if result.Tuple? {
        var item := TupleItem(result.items);
        formatted := formatted + [Dict(item)];
      } else {
        formatted := formatted + [Dict([("result", FormatValue(result))])];
      }
      k := k + 1;
    }
    Removal.WholePrefix(results);
    r := Dict([("results", List(formatted))]);
  }

  /** One dict per result; a tuple of n values gives exactly the keys
      `var0` to `var{n-1}`, each once, holding the formatted values, and
      anything else the single key `result`. */
  lemma SparqlRowShape(result: Value)
    ensures result.Tuple? ==>
              UniqueKeys(SparqlRow(result).entries)
              && (forall i :: 0 <= i < |result.items| ==> Lookup(SparqlRow(result).entries, VarKey(i)) == Some(FormatValue(result.items[i])))
              && (forall k :: HasKey(SparqlRow(result).entries, k) <==> exists i :: 0 <= i < |result.items| && k == VarKey(i))
    ensures !result.Tuple? ==> Keys(SparqlRow(result).entries) == ["result"]
  {
    if result.Tuple? {
      var row := TupleRow(result.items);
      forall i, j | 0 <= i < j < |row| ensures row[i].0 != row[j].0 {
        if row[i].0 == row[j].0 {
          VarKeyInjective(i, j);
        }
      }
      forall i | 0 <= i < |result.items| ensures Lookup(row, VarKey(i)) == Some(FormatValue(result.items[i])) {
        UniqueLookup(row, i);
      }
    }
  }

  /** In a dict with unique keys, the key of an entry looks up its value. */
  lemma {:induction false} UniqueLookup(d: Entries, i: nat)
    requires UniqueKeys(d) && i < |d|
    ensures Lookup(d, d[i].0) == Some(d[i].1)
  {
    if i > 0 {
      UniqueLookup(d[1..], i - 1);
      assert d[1..][i - 1] == d[i];
    }
  }

  // ---------------------------------------------------------------------
  // extract_variables_from_sparql
  // ---------------------------------------------------------------------

  /** The longest prefix of `s` made of word characters. */
  function WordPrefix(s: string): (r: string)
    ensures |r| <= |s| && r == s[..|r|]
    ensures forall i :: 0 <= i < |r| ==> IsWordChar(r[i])
    ensures |r| < |s| ==> !IsWordChar(s[|r|])
  {
    if s != [] && IsWordChar(s[0]) then [s[0]] + WordPrefix(s[1..]) else []
  }

  /** `re.findall(r'\?(\w+)', s)`: scanning left to right, a `?` followed
      by word characters yields the longest run of them, and the scan goes
      on after it. */
  function FindVariables(s: string): seq<string>
    decreases |s|
  {
    if |s| < 2 then []
    else if s[0] == '?' && IsWordChar(s[1]) then
      var w := WordPrefix(s[1..]);
      [w] + FindVariables(s[1 + |w|..])
    else FindVariables(s[1..])
  }

  /** The index of the first occurrence of `x` in `xs`. */
  function FirstIndex(xs: seq<string>, x: string): (i: nat)
    requires x in xs
    ensures i < |xs| && xs[i] == x && x !in xs[..i]
  {
    if xs[0] == x then 0
    else
      var j := FirstIndex(xs[1..], x);
      assert xs[..1 + j] == [xs[0]] + xs[1..][..j];
      1 + j
  }

  /** An element of a prefix occurs first where it occurs first in the
      prefix. */
  lemma FirstIndexPrefix(xs: seq<string>, m: nat, x: string)
    requires m <= |xs| && x in xs[..m]
    ensures FirstIndex(xs, x) == FirstIndex(xs[..m], x)
  {
    assert xs[..m][..FirstIndex(xs[..m], x)] == xs[..FirstIndex(xs[..m], x)];
  }

  /** The element that first occurs at the last index. */
  lemma FirstIndexLast(xs: seq<string>)
    requires xs != [] && xs[|xs| - 1] !in xs[..|xs| - 1]
    ensures FirstIndex(xs, xs[|xs| - 1]) == |xs| - 1
  {
  }

  /** One more element `last` after `p` keeps the deduplicated list `init`
      of `p` in order of first occurrence, and a new element comes after
      every earlier one. */
  lemma DedupOrderStep(p: seq<string>, last: string, init: seq<string>, r: seq<string>)
    requires forall i :: 0 <= i < |init| ==> init[i] in p
    requires forall i, j :: 0 <= i < j < |init| ==> FirstIndex(p, init[i]) < FirstIndex(p, init[j])
    requires r == if last in init then init else init + [last]
    requires last in init <==> last in p
    ensures forall i :: 0 <= i < |r| ==> r[i] in p + [last]
    ensures forall i, j :: 0 <= i < j < |r| ==> FirstIndex(p + [last], r[i]) < FirstIndex(p + [last], r[j])
  {
    var xs := p + [last];
    assert xs[..|p|] == p;
    forall i | 0 <= i < |init| ensures init[i] in xs && FirstIndex(xs, init[i]) == FirstIndex(p, init[i]) < |p| {
      FirstIndexPrefix(xs, |p|, init[i]);
    }
    if last !in p {
      FirstIndexLast(xs);
      forall i, j | 0 <= i < j < |r| ensures FirstIndex(xs, r[i]) < FirstIndex(xs, r[j]) {
        assert r[i] == init[i];
        if j < |init| {
          assert r[j] == init[j];
        }
      }
    }
  }

  /** `list(dict.fromkeys(xs))`: the first occurrence of each element, in
      the order of first occurrence. */
  function Dedup(xs: seq<string>): (r: seq<string>)
    ensures forall x :: x in r <==> x in xs
    ensures forall i, j :: 0 <= i < j < |r| ==> r[i] != r[j]
    ensures forall i, j :: 0 <= i < j < |r| ==> FirstIndex(xs, r[i]) < FirstIndex(xs, r[j])
  {
    if xs == [] then []
    else
      var init := Dedup(xs[..|xs| - 1]);
      assert forall x :: x in xs <==> x in xs[..|xs| - 1] || x == xs[|xs| - 1];
      var r := if xs[|xs| - 1] in init then init else init + [xs[|xs| - 1]];
      DedupOrderStep(xs[..|xs| - 1], xs[|xs| - 1], init, r);
      assert xs[..|xs| - 1] + [xs[|xs| - 1]] == xs;
      r
  }

  /** `extract_variables_from_sparql`: each matched name once, in the order
      of its first match. */
  function ExtractVariables(query: string): (r: seq<string>)
    ensures forall x :: x in r <==> x in FindVariables(query)
    ensures forall i, j :: 0 <= i < j < |r| ==> r[i] != r[j]
    ensures forall i, j :: 0 <= i < j < |r| ==> FirstIndex(FindVariables(query), r[i]) < FirstIndex(FindVariables(query), r[j])
  {
    Dedup(FindVariables(query))
  }

  /** A variable occurrence: a `?` at `i` followed by the word `w`. */
  predicate VariableAt(s: string, i: int, w: string) {
    0 <= i < |s| && s[i] == '?' && w != [] && w == WordPrefix(s[i + 1..])
  }

  lemma {:induction false} FindVariablesSound(s: string, w: string)
    requires w in FindVariables(s)
    ensures exists i :: VariableAt(s, i, w)
    decreases |s|
  {
    if s[0] == '?' && IsWordChar(s[1]) {
      var v := WordPrefix(s[1..]);
      if w != v {
        var rest := s[1 + |v|..];
        FindVariablesSound(rest, w);
        var i :| VariableAt(rest, i, w);
        assert rest[i + 1..] == s[1 + |v| + i + 1..];
        assert VariableAt(s, 1 + |v| + i, w);
      } else {
        assert VariableAt(s, 0, w);
      }
    } else {
      FindVariablesSound(s[1..], w);
      var i :| VariableAt(s[1..], i, w);
      assert s[1..][i + 1..] == s[i + 2..];
      assert VariableAt(s, i + 1, w);
    }
  }

  lemma {:induction false} FindVariablesComplete(s: string, i: int, w: string)
    requires VariableAt(s, i, w)
    ensures w in FindVariables(s)
    decreases |s|
  {
    assert |s| >= 2 && IsWordChar(s[i + 1]);
    if i == 0 {
    } else if s[0] == '?' && IsWordChar(s[1]) {
      var v := WordPrefix(s[1..]);
      // a `?` is not a word character, so it cannot lie inside the run `v`
      forall j | 1 <= j < 1 + |v| ensures s[j] != '?' {
        assert s[j] == v[j - 1];
      }
      var rest := s[1 + |v|..];
      assert rest[i - 1 - |v| + 1..] == s[i + 1..];
      FindVariablesComplete(rest, i - 1 - |v|, w);
    } else {
      assert s[1..][i - 1 + 1..] == s[i + 1..];
      FindVariablesComplete(s[1..], i - 1, w);
    }
  }

  /** The result lists exactly the words that follow a `?`, each once. */
  lemma ExtractVariablesExact(query: string, w: string)
    ensures w in ExtractVariables(query) <==> exists i :: VariableAt(query, i, w)
  {
    if w in FindVariables(query) {
      FindVariablesSound(query, w);
    }
    if exists i :: VariableAt(query, i, w) {
      var i :| VariableAt(query, i, w);
      FindVariablesComplete(query, i, w);
    }
  }

  /** Text without a `?` contributes no variable. */
  lemma {:induction false} SkipPlain(p: string, s: string)
    requires Plain(p)
    ensures FindVariables(p + s) == FindVariables(s)
  {
    if p != [] {
      var t := p + s;
      assert t[0] == p[0] && t[0] != '?';
      assert t[1..] == p[1..] + s;
      SkipPlain(p[1..], s);
      if |t| >= 2 {
        assert FindVariables(t) == FindVariables(t[1..]);
        assert FindVariables(t[1..]) == FindVariables(s);
      }
    } else {
      assert p + s == s;
    }
  }

  /** A `?` followed by a whole word yields that word, and the scan goes
      on after it. */
  lemma {:induction false} TakeVariable(w: string, s: string)
    requires w != [] && forall i :: 0 <= i < |w| ==> IsWordChar(w[i])
    requires s == [] || !IsWordChar(s[0])
    ensures FindVariables("?" + w + s) == [w] + FindVariables(s)
  {
    var t := ['?'] + (w + s);
    assert "?" + w + s == t;
    assert t[0] == '?' && t[1] == w[0];
    assert t[1..] == w + s;
    WordPrefixOf(w, s);
    assert WordPrefix(t[1..]) == w;
    assert t[1 + |w|..] == s;
    assert FindVariables(t) == [w] + FindVariables(t[1 + |w|..]);
  }

  lemma {:induction false} WordPrefixOf(w: string, s: string)
    requires forall i :: 0 <= i < |w| ==> IsWordChar(w[i])
    requires s == [] || !IsWordChar(s[0])
    ensures WordPrefix(w + s) == w
  {
    if w != [] {
      assert (w + s)[1..] == w[1..] + s;
      WordPrefixOf(w[1..], s);
    }
  }

  /** Plain text, then `?` and a whole word: that word, and the scan goes
      on after it. */
  lemma {:induction false} PlainThenVariable(plain: string, w: string, rest: string)
    requires Plain(plain) && Word(w)
    requires rest == [] || !IsWordChar(rest[0])
    ensures FindVariables(plain + ("?" + w + rest)) == [w] + FindVariables(rest)
  {
    SkipPlain(plain, "?" + w + rest);
    TakeVariable(w, rest);
  }

  /** Text without `?` around two variables, each used twice. */
  predicate Plain(p: string) {
    forall i :: 0 <= i < |p| ==> p[i] != '?'
  }

  predicate Word(w: string) {
    w != [] && forall i :: 0 <= i < |w| ==> IsWordChar(w[i])
  }

  /** `?x` and `?y` used twice each, separated by text that holds no `?`
      and does not continue a word, are found in order of use. */
  lemma {:induction false} TwoVariablesTwice(p: seq<string>, x: string, y: string)
    requires |p| == 5 && forall k :: 0 <= k < 5 ==> Plain(p[k])
    requires forall k :: 1 <= k < 5 ==> p[k] != [] && !IsWordChar(p[k][0])
    requires Word(x) && Word(y)
    ensures FindVariables(p[0] + "?" + x + p[1] + "?" + y + p[2] + "?" + x + p[3] + "?" + y + p[4])
            == [x, y, x, y]
  {
    var t4 := p[4];
    var t3 := p[3] + ("?" + y + t4);
    var t2 := p[2] + ("?" + x + t3);
    var t1 := p[1] + ("?" + y + t2);
    assert p[0] + "?" + x + p[1] + "?" + y + p[2] + "?" + x + p[3] + "?" + y + p[4]
           == p[0] + ("?" + x + t1);
    SkipPlain(t4, []);
    assert t4 + [] == t4;
    PlainThenVariable(p[3], y, t4);
    PlainThenVariable(p[2], x, t3);
    PlainThenVariable(p[1], y, t2);
    PlainThenVariable(p[0], x, t1);
  }

  /** The documented example: `?x` and `?y`, each used twice, give
      `["x", "y"]`. */
  lemma DocumentedExample(query: string)
    requires query == "SELECT ?x ?y WHERE { ?x rdf:type ?y }"
    ensures ExtractVariables(query) == ["x", "y"]
  {
    var p := ["SELECT ", " ", " WHERE { ", " rdf:type ", " }"];
    ExampleParts(query, p);
    assert p[1][0] == ' ' && p[2][0] == ' ' && p[3][0] == ' ' && p[4][0] == ' ';
    TwoVariablesTwice(p, "x", "y");
    RepeatedPairDedup("x", "y");
  }

  lemma ExampleParts(query: string, p: seq<string>)
    requires query == "SELECT ?x ?y WHERE { ?x rdf:type ?y }"
    requires p == ["SELECT ", " ", " WHERE { ", " rdf:type ", " }"]
    ensures query == p[0] + "?" + "x" + p[1] + "?" + "y" + p[2] + "?" + "x" + p[3] + "?" + "y" + p[4]
  {
  }

  /** Repeating two distinct variables keeps one copy of each, in order. */
  lemma RepeatedPairDedup(x: string, y: string)
    requires x != y
    ensures Dedup([x, y, x, y]) == [x, y]
  {
    var found := [x, y, x, y];
    assert found[..3] == [x, y, x] && found[..3][..2] == [x, y];
    assert [x, y][..1] == [x] && [x][..0] == [];
    assert Dedup([x]) == [x];
    assert Dedup([x, y]) == [x, y];
    assert Dedup([x, y, x]) == [x, y];
  }

  // ---------------------------------------------------------------------
  // format_query_results
  // ---------------------------------------------------------------------

  /** Every row is a dict, as `result.get` and `result.items()` need. */
  predicate AllDicts(rows: seq<Value>) {
    forall i :: 0 <= i < |rows| ==> rows[i].Dict?
  }

  /** The lines printed for one result row. */
  function RowLines(row: Entries, variables: seq<string>): (r: seq<string>)
    ensures variables != [] ==> |r| == |variables|
    ensures variables == [] ==> |r| == |row|
  {
    if variables != [] then
      seq(|variables|, i requires 0 <= i < |variables| => variables[i] + ": " + PyStr(Get(row, VarKey(i), Str("N/A"))))
    else seq(|row|, i requires 0 <= i < |row| => row[i].0 + ": " + PyStr(row[i].1))
  }

  function Blocks(rows: seq<Value>, variables: seq<string>): (r: seq<string>)
    requires AllDicts(rows)
    ensures |r| == |rows|
  {
    seq(|rows|, i requires 0 <= i < |rows| => Join(RowLines(rows[i].entries, variables), "\n"))
  }

  /** `format_query_results`. A missing `variables` argument is the empty
      list: both are falsy and behave alike. A falsy argument, or one
      without `results`, gives the message. `in` on a value that cannot be
      searched, `results['results']` on anything but a dict, and iterating
      over an entry that is not iterable raise `TypeError`; a row that is
      not a dict has no `get` or `items` and raises `AttributeError`. Rows
      are whatever iterating over the entry yields: the items of a list,
      tuple or set, the keys of a dict, the characters of a string. */
  method FormatQueryResults(results: Value, variables: seq<string>) returns (r: Result<string, PyError>)
    ensures !Truthy(results) ==> r == Ok("No results found")
    ensures Truthy(results) && Member("results", results).Err? ==> r == Err(TypeError)
    ensures Truthy(results) && Member("results", results) == Ok(false) ==> r == Ok("No results found")
    ensures Truthy(results) && Member("results", results) == Ok(true) && !results.Dict? ==> r == Err(TypeError)
    ensures Truthy(results) && results.Dict? && HasKey(results.entries, "results") ==>
              match Elements(Lookup(results.entries, "results").value)
              case None => r == Err(TypeError)
              case Some(rows) =>
                (AllDicts(rows) ==> r == Ok(Join(Blocks(rows, variables), "\n\n")))
                && (!AllDicts(rows) ==> r == Err(AttributeError))
  {
    if !Truthy(results) {
      return Ok("No results found");
    }
    var found := Member("results", results);
    if found.Err? {
      return Err(TypeError);
    }
    if !found.value {
      return Ok("No results found");
    }
    if !results.Dict? {
      return Err(TypeError);
    }
    var iterated := Elements(Lookup(results.entries, "results").value);
    if iterated.None? {
      return Err(TypeError);
    }
    r := FormatRows(iterated.value, variables);
  }

  /** The loop of `format_query_results` over the rows: the row blocks
      joined by blank lines, or `AttributeError` at a row that is not a
      dict. */
  method FormatRows(rows: seq<Value>, variables: seq<string>) returns (r: Result<string, PyError>)
    ensures AllDicts(rows) ==> r == Ok(Join(Blocks(rows, variables), "\n\n"))
    ensures !AllDicts(rows) ==> r == Err(AttributeError)
  {
    var formatted: seq<string> := [];
    var k := 0;
    while k < |rows|
      invariant 0 <= k <= |rows|
      invariant AllDicts(rows[..k])
      invariant formatted == Blocks(rows[..k], variables)
    {
      if !rows[k].Dict? {
        return Err(AttributeError);
      }
      var lines := RowLines(rows[k].entries, variables);
      formatted := formatted + [Join(lines, "\n")];
      k := k + 1;
    }
    Removal.WholePrefix(rows);
    r := Ok(Join(formatted, "\n\n"));
  }

  /** With variable names, each row prints one line per name, in order:
      the name, then the row's `var{i}` value or `N/A` when it has none. */
  lemma RowLinesNamed(row: Entries, variables: seq<string>)
    requires variables != []
    requires forall i :: 0 <= i < |variables| ==> '\n' !in variables[i] + ": " + PyStr(Get(row, VarKey(i), Str("N/A")))
    ensures var lines := Split(Join(RowLines(row, variables), "\n"), "\n");
            |lines| == |variables|
            && forall i :: 0 <= i < |variables| ==>
                 lines[i] == variables[i] + ": " + (match Lookup(row, VarKey(i)) case Some(v) => PyStr(v) case None => "N/A")
  {
    SplitJoinLines(RowLines(row, variables));
  }

  // ---------------------------------------------------------------------
  // Text formatters
  // ---------------------------------------------------------------------

  /** `f"  - {item}"` for each item. */
  function Bullets(items: seq<string>): (r: seq<string>)
  {
    seq(|items|, i requires 0 <= i < |items| => "  - " + items[i])
  }

  /** The loop `for item in items: result += f"  - {item}\n"`. */
  method AppendBullets(acc: string, ghost lines: seq<string>, items: seq<string>) returns (r: string)
    requires acc == Unlines(lines)
    ensures r == Unlines(lines + Bullets(items))
  {
    r := acc;
    var k := 0;
    assert lines + Bullets(items[..0]) == lines;
    while k < |items|
      invariant 0 <= k <= |items|
      invariant r == Unlines(lines + Bullets(items[..k]))
    {
      UnlinesSnoc(lines + Bullets(items[..k]), "  - " + items[k]);
      BulletsStep(lines, items, k);
      r := r + "  - " + items[k] + "\n";
      k := k + 1;
    }
    Removal.WholePrefix(items);
  }

  /** One more item adds its bullet line at the end. */
  lemma BulletsStep(lines: seq<string>, items: seq<string>, k: nat)
    requires k < |items|
    ensures lines + Bullets(items[..k + 1]) == (lines + Bullets(items[..k])) + ["  - " + items[k]]
  {
    assert Bullets(items[..k + 1]) == Bullets(items[..k]) + ["  - " + items[k]];
  }

  function ClassInfoLines(info: OntologyTools.ClassInfo): seq<string> {
    ["Information of '" + info.name + "':"] + Bullets(info.information)
    + ["Source of '" + info.name + "':"] + Bullets(info.source)
  }

  /** `format_class_info` */
  method FormatClassInfo(info: OntologyTools.ClassInfo) returns (r: string)
    ensures r == Unlines(ClassInfoLines(info))
  {
    var header := "Information of '" + info.name + "':";
    UnlinesSnoc([], header);
    r := header + "\n";
    r := AppendBullets(r, [header], info.information);
    var middle := "Source of '" + info.name + "':";
    UnlinesSnoc([header] + Bullets(info.information), middle);
    r := r + middle + "\n";
    r := AppendBullets(r, [header] + Bullets(info.information) + [middle], info.source);
  }

  /** The class information prints as its header, one line per
      information item, the source header and one line per source, each
      line ended by a newline. */
  lemma ClassInfoShape(info: OntologyTools.ClassInfo)
    requires '\n' !in info.name
    requires forall i :: 0 <= i < |info.information| ==> '\n' !in info.information[i]
    requires forall i :: 0 <= i < |info.source| ==> '\n' !in info.source[i]
    ensures var lines := Split(Unlines(ClassInfoLines(info)), "\n");
            |lines| == |info.information| + |info.source| + 3
            && lines[0] == "Information of '" + info.name + "':"
            && (forall i :: 0 <= i < |info.information| ==> lines[1 + i] == "  - " + info.information[i])
            && lines[1 + |info.information|] == "Source of '" + info.name + "':"
            && (forall i :: 0 <= i < |info.source| ==> lines[2 + |info.information| + i] == "  - " + info.source[i])
            && lines[|lines| - 1] == ""
  {
    var ls := ClassInfoLines(info);
    forall i | 0 <= i < |ls| ensures '\n' !in ls[i] {
      NoNewlineQuoted(info.name);
    }
    SplitUnlines(ls);
  }

  lemma NoNewlineQuoted(name: string)
    requires '\n' !in name
    ensures '\n' !in "Information of '" + name + "':" && '\n' !in "Source of '" + name + "':"
  {
  }

  /** One restriction as `get_property_restrictions` describes it. */
  datatype RestrictionText = RestrictionText(kind: string, value: string)

  function RestrictionLines(restrictions: seq<RestrictionText>): (r: seq<string>)
    ensures |r| == 3 * |restrictions|
  {
    if restrictions == [] then []
    else
      var last := restrictions[|restrictions| - 1];
      RestrictionLines(restrictions[..|restrictions| - 1])
      + ["Type: " + last.kind, "Value: " + last.value, "---"]
  }

  /** `format_restrictions` */
  method FormatRestrictions(restrictions: seq<RestrictionText>, className: string, propertyName: string)
    returns (r: string)
    ensures r == Unlines([className + " class restrictions on property " + propertyName + ":"] + RestrictionLines(restrictions))
  {
    var header := className + " class restrictions on property " + propertyName + ":";
    UnlinesSnoc([], header);
    r := header + "\n";
    var k := 0;
    while k < |restrictions|
      invariant 0 <= k <= |restrictions|
      invariant r == Unlines([header] + RestrictionLines(restrictions[..k]))
    {
      var x := restrictions[k];
      ghost var acc := r;
      r := r + "Type: " + x.kind + "\n";
      r := r + "Value: " + x.value + "\n";
      r := r + "---\n";
      RestrictionTextStep(restrictions, k, header, acc, r);
      k := k + 1;
    }
    Removal.WholePrefix(restrictions);
  }

  /** The three lines one restriction adds to the text. */
  lemma RestrictionTextStep(restrictions: seq<RestrictionText>, k: nat, header: string, acc: string, r: string)
    requires k < |restrictions| && acc == Unlines([header] + RestrictionLines(restrictions[..k]))
    requires r == acc + "Type: " + restrictions[k].kind + "\n" + "Value: " + restrictions[k].value + "\n" + "---\n"
    ensures r == Unlines([header] + RestrictionLines(restrictions[..k + 1]))
  {
    var x := restrictions[k];
    var lines := [header] + RestrictionLines(restrictions[..k]);
    var a, b, c := "Type: " + x.kind, "Value: " + x.value, "---";
    Removal.PrefixOfPrefix(restrictions, k);
    assert [header] + RestrictionLines(restrictions[..k + 1]) == lines + [a] + [b] + [c];
    UnlinesSnoc(lines, a);
    UnlinesSnoc(lines + [a], b);
    UnlinesSnoc(lines + [a] + [b], c);
  }

  /** Each restriction prints as exactly three lines: its type, its value
      and a separator. */
  lemma {:induction false} RestrictionLinesAt(restrictions: seq<RestrictionText>, i: nat)
    requires i < |restrictions|
    ensures RestrictionLines(restrictions)[3 * i .. 3 * i + 3]
            == ["Type: " + restrictions[i].kind, "Value: " + restrictions[i].value, "---"]
  {
    var n := |restrictions| - 1;
    var init := restrictions[..n];
    if i < n {
      RestrictionLinesAt(init, i);
      assert init[i] == restrictions[i];
      assert RestrictionLines(restrictions)[3 * i .. 3 * i + 3] == RestrictionLines(init)[3 * i .. 3 * i + 3];
    }
  }

  function Section(title: string, items: seq<string>): seq<string> {
    if items == [] then [] else [title] + Bullets(items)
  }

  function HierarchyLines(parents: seq<string>, children: seq<string>, className: string): seq<string> {
    ["Hierarchy for class '" + className + "':"] + Section("Parents:", parents) + Section("Children:", children)
  }

  /** `if items: result += title + "\n"` followed by the bullet loop. */
  method AppendSection(acc: string, ghost lines: seq<string>, title: string, items: seq<string>) returns (r: string)
    requires acc == Unlines(lines)
    ensures r == Unlines(lines + Section(title, items))
  {
    r := acc;
    if items != [] {
      UnlinesSnoc(lines, title);
      r := r + title + "\n";
      r := AppendBullets(r, lines + [title], items);
    }
    SectionAfter(lines, title, items);
  }

  lemma SectionAfter(lines: seq<string>, title: string, items: seq<string>)
    ensures lines + Section(title, items) == if items == [] then lines else lines + [title] + Bullets(items)
  {
    if items != [] {
      var section, bullets := Section(title, items), Bullets(items);
      assert section == [title] + bullets;
      assert lines + ([title] + bullets) == lines + [title] + bullets;
    } else {
      assert lines + [] == lines;
    }
  }

  /** `format_hierarchy` */
  method FormatHierarchy(parents: seq<string>, children: seq<string>, className: string) returns (r: string)
    ensures r == Unlines(HierarchyLines(parents, children, className))
  {
    var header := "Hierarchy for class '" + className + "':";
    UnlinesSnoc([], header);
    r := header + "\n";
    r := AppendSection(r, [header], "Parents:", parents);
    r := AppendSection(r, [header] + Section("Parents:", parents), "Children:", children);
  }

  /** The Parents (Children) section is printed iff there are parents
      (children). */
  lemma HierarchySections(parents: seq<string>, children: seq<string>, className: string)
    ensures "Parents:" in HierarchyLines(parents, children, className) <==> parents != []
    ensures "Children:" in HierarchyLines(parents, children, className) <==> children != []
  {
    var header := "Hierarchy for class '" + className + "':";
    var ps, cs := Section("Parents:", parents), Section("Children:", children);
    var lines := [header] + ps + cs;
    assert lines == HierarchyLines(parents, children, className);
    forall j | 0 <= j < |lines|
      ensures lines[j] == "Parents:" ==> parents != []
      ensures lines[j] == "Children:" ==> children != []
    {
      if j == 0 {
        assert header[0] == 'H';
      } else if j < 1 + |ps| {
        assert ps[j - 1] == "Parents:" || ps[j - 1] == "  - " + parents[j - 2];
        assert ps[j - 1][0] in {'P', ' '};
      } else {
        assert cs[j - 1 - |ps|] == "Children:" || cs[j - 1 - |ps|] == "  - " + children[j - 2 - |ps|];
        assert cs[j - 1 - |ps|][0] in {'C', ' '};
      }
    }
    if parents != [] {
      assert lines[1] == "Parents:";
    }
    if children != [] {
      assert lines[1 + |ps|] == "Children:";
    }
  }
}
