/** `config/settings.py`: the `{{key}}` references between values of one
    level of the YAML configuration, and the `${VAR}` environment prefix
    of `!path` scalars. The environment is a map passed in; YAML loading,
    the loader's resolver registration and the ontology loading are not
    part of this model. */
module Settings {
  import opened Wrappers
  import opened Text
  import opened Values

  /** A character of a reference body: the character class `[^}^{]`. */
  predicate BodyChar(c: char) {
    c != '}' && c != '^' && c != '{'
  }

  /** The greedy `[^}^{]+` run at the start of `s` (possibly empty). */
  function BodyRun(s: string): (r: string)
    ensures |r| <= |s| && r == s[..|r|]
    ensures forall i :: 0 <= i < |r| ==> BodyChar(r[i])
    ensures |r| < |s| ==> !BodyChar(s[|r|])
  {
    if s != [] && BodyChar(s[0]) then [s[0]] + BodyRun(s[1..]) else []
  }

  /** A run of body characters is read back whole, whatever follows a
      character outside the class. */
  lemma {:induction false} BodyRunOf(body: string, rest: string)
    requires forall i :: 0 <= i < |body| ==> BodyChar(body[i])
    requires rest == [] || !BodyChar(rest[0])
    ensures BodyRun(body + rest) == body
  {
    if body != [] {
      assert (body + rest)[1..] == body[1..] + rest;
      BodyRunOf(body[1..], rest);
    }
  }

  // ---------------------------------------------------------------------
  // key_matcher: \{\{([^}^{]+)\}\}
  // ---------------------------------------------------------------------

  /** `key_matcher` matches at `j`: `{{`, a non-empty body, then `}}`.
      Because the body cannot hold `}`, the greedy run is the only
      candidate. */
  predicate TokenAt(s: string, j: int) {
    0 <= j && j + 2 <= |s| && s[j..j + 2] == "{{"
    && var body := BodyRun(s[j + 2..]);
       body != [] && j + 4 + |body| <= |s| && s[j + 2 + |body|..j + 4 + |body|] == "}}"
  }

  /** `key_matcher.search`: the leftmost match at or after `k`. */
  function FindToken(s: string, k: nat): (r: Option<nat>)
    ensures r.Some? ==> k <= r.value && TokenAt(s, r.value)
                        && forall j :: k <= j < r.value ==> !TokenAt(s, j)
    ensures r.None? ==> forall j :: k <= j ==> !TokenAt(s, j)
    decreases |s| - k
  {
    if k + 2 > |s| then None
    else if TokenAt(s, k) then Some(k)
    else FindToken(s, k + 1)
  }

  /** `match.group(1)` */
  function TokenBody(s: string, j: nat): string
    requires TokenAt(s, j)
  {
    BodyRun(s[j + 2..])
  }

  /** `match.group(0)` is the matched text. */
  lemma TokenText(s: string, j: nat)
    requires TokenAt(s, j)
    ensures var t := "{{" + TokenBody(s, j) + "}}";
            j + |t| <= |s| && s[j..j + |t|] == t
  {
    var b := TokenBody(s, j);
    assert s[j + 2..][..|b|] == s[j + 2..j + 2 + |b|];
  }

  /** `_resolve_value(value, yaml_dict)`: a string's first reference is
      looked up, trimmed, among the keys of the same dict; when the key is
      there, every copy of the reference text is replaced by `str` of the
      key's unresolved value. Anything else is returned as it is. */
  function ResolveValue(v: Value, level: Entries): (r: Value)
    ensures !v.Str? ==> r == v
    ensures v.Str? ==> r.Str?
    ensures v.Str? && FindToken(v.s, 0).None? ==> r == v
  {
    if v.Str? && FindToken(v.s, 0).Some? then
      var body := TokenBody(v.s, FindToken(v.s, 0).value);
      var key := Strip(body);
      if HasKey(level, key) then Str(ReplaceAll(v.s, "{{" + body + "}}", PyStr(Lookup(level, key).value)))
      else v
    else v
  }

  // ---------------------------------------------------------------------
  // resolve_key_references
  // ---------------------------------------------------------------------

  /** Every dict level has distinct keys, as Python dicts do. */
  predicate NestedUnique(d: Entries)
    decreases Dict(d)
  {
    UniqueKeys(d)
    && forall i :: 0 <= i < |d| ==> d[i].1.Dict? ==> NestedUnique(d[i].1.entries)
  }

  /** What `resolve_key_references` returns: every key kept, in order; a
      dict value resolved on its own, a non-dict value against this level. */
  function Resolve(d: Entries): (r: Entries)
    ensures |r| == |d| && Keys(r) == Keys(d)
    ensures forall i :: 0 <= i < |d| && !d[i].1.Dict? ==> r[i].1 == ResolveValue(d[i].1, d)
    ensures forall i :: 0 <= i < |d| ==> r[i].1.Dict? == d[i].1.Dict?
    decreases Dict(d)
  {
    seq(|d|, i requires 0 <= i < |d| =>
      (d[i].0, if d[i].1.Dict? then Dict(Resolve(d[i].1.entries)) else ResolveValue(d[i].1, d)))
  }

  /** `resolve_key_references` */
  method ResolveKeyReferences(d: Entries) returns (r: Entries)
    requires NestedUnique(d)
    ensures r == Resolve(d)
    decreases Dict(d)
  {
    r := [];
    var i := 0;
    while i < |d|
      invariant 0 <= i <= |d|
      invariant r == Resolve(d)[..i]
    {
      var key, value := d[i].0, d[i].1;
      assert !HasKey(r, key) by {
        forall j | 0 <= j < |r| ensures r[j].0 != key {
          assert r[j].0 == d[j].0;
        }
      }
      if value.Dict? {
        var inner := ResolveKeyReferences(value.entries);
        r := Store(r, key, Dict(inner));
      } else {
        r := Store(r, key, ResolveValue(value, d));
      }
      assert r == Resolve(d)[..i + 1];
      i := i + 1;
    }
  }

  /** A nested dict is resolved against itself only: what surrounds it
      does not matter. */
  lemma NestedResolvedAlone(d: Entries, i: nat)
    requires i < |d| && d[i].1.Dict?
    ensures Resolve(d)[i].1 == Dict(Resolve(d[i].1.entries))
  {
  }

  /** Resolving keeps every dict level's keys distinct. */
  lemma {:induction false} ResolveUnique(d: Entries)
    requires NestedUnique(d)
    ensures NestedUnique(Resolve(d))
    decreases Dict(d)
  {
    var r := Resolve(d);
    forall i | 0 <= i < |r| && r[i].1.Dict? ensures NestedUnique(r[i].1.entries) {
      ResolveUnique(d[i].1.entries);
    }
    assert UniqueKeys(r) by {
      forall i, j | 0 <= i < j < |r| ensures r[i].0 != r[j].0 {
        assert r[i].0 == Keys(r)[i] == Keys(d)[i] && r[j].0 == Keys(r)[j] == Keys(d)[j];
      }
    }
  }

  /** No string anywhere in the dict holds a reference. */
  predicate NoReferences(d: Entries)
    decreases Dict(d)
  {
    forall i :: 0 <= i < |d| ==>
      (d[i].1.Str? ==> FindToken(d[i].1.s, 0).None?)
      && (d[i].1.Dict? ==> NoReferences(d[i].1.entries))
  }

  /** A configuration without references is returned unchanged. */
  lemma {:induction false} ResolveWithoutReferences(d: Entries)
    requires NoReferences(d)
    ensures Resolve(d) == d
    decreases Dict(d)
  {
    var r := Resolve(d);
    forall i | 0 <= i < |d| ensures r[i] == d[i] {
      if d[i].1.Dict? {
        ResolveWithoutReferences(d[i].1.entries);
      }
      assert r[i].0 == Keys(r)[i];
    }
  }

  /** A reference written out at the start of a string is the one found. */
  lemma LeadingToken(body: string, post: string)
    requires body != [] && forall i :: 0 <= i < |body| ==> BodyChar(body[i])
    ensures var s := "{{" + body + "}}" + post;
            FindToken(s, 0) == Some(0) && TokenBody(s, 0) == body
  {
    var s := "{{" + body + "}}" + post;
    assert s[2..] == body + ("}}" + post);
    BodyRunOf(body, "}}" + post);
    assert s[2 + |body|..4 + |body|] == "}}";
  }

  /** Only the first reference counts: when its key is missing here, the
      string stays as it is, whatever references follow it. */
  lemma FirstReferenceOnly(body: string, post: string, level: Entries)
    requires body != [] && forall i :: 0 <= i < |body| ==> BodyChar(body[i])
    requires !HasKey(level, Strip(body))
    ensures ResolveValue(Str("{{" + body + "}}" + post), level) == Str("{{" + body + "}}" + post)
  {
    LeadingToken(body, post);
  }

  /** When the key of the first reference is at this level, the string is
      cut at every copy of the reference into pieces that hold none, and
      the pieces are joined by `str` of the key's raw value; the key is the
      body with white space trimmed. */
  lemma FirstReferenceReplaced(body: string, post: string, level: Entries)
    requires body != [] && forall i :: 0 <= i < |body| ==> BodyChar(body[i])
    requires HasKey(level, Strip(body))
    ensures var s := "{{" + body + "}}" + post;
            var t := "{{" + body + "}}";
            var pieces := Split(s, t);
            Join(pieces, t) == s
            && (forall k :: 0 <= k < |pieces| ==> !Contains(pieces[k], t))
            && ResolveValue(Str(s), level) == Str(Join(pieces, PyStr(Lookup(level, Strip(body)).value)))
  {
    var s := "{{" + body + "}}" + post;
    LeadingToken(body, post);
    ReplaceAllPieces(s, "{{" + body + "}}", PyStr(Lookup(level, Strip(body)).value));
  }

  // ---------------------------------------------------------------------
  // path_matcher: \$\{([^}^{]+)\}   and   path_constructor
  // ---------------------------------------------------------------------

  /** `path_matcher.match(value)`: the variable name, when `value` starts
      with `${`, a non-empty body and `}`. */
  function PathMatch(value: string): (r: Option<string>)
    ensures r.Some? ==> r.value != [] && 3 + |r.value| <= |value|
                        && value[..3 + |r.value|] == "${" + r.value + "}"
  {
    if |value| >= 2 && value[..2] == "${" then
      var body := BodyRun(value[2..]);
      if body != [] && 2 + |body| < |value| && value[2 + |body|] == '}' then
        assert value[2..][..|body|] == value[2..2 + |body|];
        assert value[..3 + |body|] == value[..2] + value[2..2 + |body|] + [value[2 + |body|]];
        Some(body)
      else None
    else None
  }

  /** `path_constructor`: the environment value of the leading variable
      (empty when unset) followed by the rest of the scalar, verbatim.
      `None` is the failure on a scalar the pattern does not match. */
  function PathConstructor(value: string, env: map<string, string>): (r: Option<string>)
    ensures r.Some? <==> PathMatch(value).Some?
  {
    match PathMatch(value)
    case None => None
    case Some(name) => Some((if name in env then env[name] else "") + value[3 + |name|..])
  }

  /** `${NAME}` followed by any text expands to NAME's value (or nothing)
      followed by that text. */
  lemma PathExpands(name: string, rest: string, env: map<string, string>)
    requires name != [] && forall i :: 0 <= i < |name| ==> BodyChar(name[i])
    ensures PathConstructor("${" + name + "}" + rest, env)
            == Some((if name in env then env[name] else "") + rest)
  {
    var value := "${" + name + "}" + rest;
    assert value[2..] == name + ("}" + rest);
    BodyRunOf(name, "}" + rest);
    assert value[3 + |name|..] == rest;
  }

  /** A scalar that does not start with `${` is refused. */
  lemma PathNeedsPrefix(value: string, env: map<string, string>)
    requires !StartsWith(value, "${")
    ensures PathConstructor(value, env).None?
  {
  }
}
