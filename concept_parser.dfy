/** `parse_llm_output` of `src/agents/builder_team/concept_extractor.py`:
    the model's answer is cut into blank-line separated blocks, each block
    read as `key: value` lines, and routed by its classification. */
module ConceptParser {
  import opened Wrappers
  import opened Text
  import opened Removal


  /** The two result records; their embedding and location fields keep
      their defaults and are not modelled. */
  datatype ClassMetaData = ClassMetaData(name: string, information: string)

  datatype IndividualMetaData = IndividualMetaData(name: string, information: string)

  /** One piece of the answer as the comprehension keeps it: stripped, or
      nothing when it is blank. */
  function Piece(part: string): (r: seq<string>)
    ensures |r| <= 1
  {
    var b := Strip(part);
    if b != [] then [b] else []
  }

  /** `[b.strip() for b in parts if b.strip()]` */
  function NonBlank(parts: seq<string>): (r: seq<string>)
    ensures |r| <= |parts|
  {
    if parts == [] then [] else Piece(parts[0]) + NonBlank(parts[1..])
  }

  /** The concept blocks: the answer cut at every blank line, each piece
      stripped, the empty pieces dropped. */
  function Blocks(content: string): seq<string> {
    NonBlank(Split(content, "\n\n"))
  }

  /** The two halves of `line.split(':', 1)`: the text before the first
      colon and the text after it. */
  function Before(line: string): string
    requires Contains(line, ":")
  {
    line[..IndexOf(line, ":").value]
  }

  function After(line: string): string
    requires Contains(line, ":")
  {
    line[IndexOf(line, ":").value + 1..]
  }

  /** The two halves and the colon between them make up the line. */
  lemma SplitOnceJoin(line: string)
    requires Contains(line, ":")
    ensures line == Before(line) + ":" + After(line)
  {
    var i := IndexOf(line, ":").value;
    assert line[i..i + 1] == ":";
    assert line == line[..i] + line[i..i + 1] + line[i + 1..];
  }

  /** The key and the value a line contributes: the key stripped and
      lowercased, the value stripped; `None` for a line without a colon. */
  function Entry(line: string): (r: Option<(string, string)>)
    ensures r.None? <==> !Contains(line, ":")
  {
    if Contains(line, ":") then Some((Lower(Strip(Before(line))), Strip(After(line)))) else None
  }

  /** The `properties` dict of a block after reading `lines` in order. */
  function Properties(lines: seq<string>): map<string, string> {
    if lines == [] then map[] else Read(Properties(lines[..|lines| - 1]), lines[|lines| - 1])
  }

  /** One line read into the dict: a later key overwrites an earlier one. */
  function Read(props: map<string, string>, line: string): map<string, string> {
    match Entry(line)
    case None => props
    case Some(kv) => props[kv.0 := kv.1]
  }

  lemma PropertiesStep(lines: seq<string>, j: nat)
    requires j < |lines|
    ensures Properties(lines[..j + 1]) == Read(Properties(lines[..j]), lines[j])
  {
    PrefixSnoc(lines, j);
    PrefixOfPrefix(lines, j);
  }

  /** `properties.get(key, '')` */
  function Get(m: map<string, string>, key: string): string {
    if key in m then m[key] else ""
  }

  /** Where one block goes. */
  datatype Parsed = AsClass(c: ClassMetaData) | AsIndividual(i: IndividualMetaData) | Dropped

  function Route(props: map<string, string>): Parsed {
    var name := Get(props, "name");
    var classification := Lower(Get(props, "classification"));
    var information := Get(props, "information");
    if classification == "class" then AsClass(ClassMetaData(name, information))
    else if classification == "individual" then AsIndividual(IndividualMetaData(name, information))
    else Dropped
  }

  function ParseBlock(block: string): Parsed {
    Route(Properties(Split(block, "\n")))
  }

  function ClassPart(p: Parsed): seq<ClassMetaData> {
    if p.AsClass? then [p.c] else []
  }

  function IndividualPart(p: Parsed): seq<IndividualMetaData> {
    if p.AsIndividual? then [p.i] else []
  }

  /** What each element of `s` contributes, concatenated in order. */
  function Gather<A, B>(s: seq<A>, f: A -> seq<B>): seq<B> {
    if s == [] then [] else Gather(s[..|s| - 1], f) + f(s[|s| - 1])
  }

  lemma GatherStep<A, B>(s: seq<A>, i: nat, f: A -> seq<B>)
    requires i < |s|
    ensures Gather(s[..i + 1], f) == Gather(s[..i], f) + f(s[i])
  {
    PrefixOfPrefix(s, i);
  }

  lemma {:induction false} GatherAppend<A, B>(a: seq<A>, b: seq<A>, f: A -> seq<B>)
    ensures Gather(a + b, f) == Gather(a, f) + Gather(b, f)
    decreases |b|
  {
    if b == [] {
      assert a + b == a;
    } else {
      var init := b[..|b| - 1];
      assert (a + b)[..|a + b| - 1] == a + init;
      assert (a + b)[|a + b| - 1] == b[|b| - 1];
      GatherAppend(a, init, f);
    }
  }

  function ClassOf(block: string): seq<ClassMetaData> {
    ClassPart(ParseBlock(block))
  }

  function IndividualOf(block: string): seq<IndividualMetaData> {
    IndividualPart(ParseBlock(block))
  }

  /** The `class_concepts` list built from `blocks`. */
  function ClassesOf(blocks: seq<string>): seq<ClassMetaData> {
    Gather(blocks, ClassOf)
  }

  /** The `individual_concepts` list built from `blocks`. */
  function IndividualsOf(blocks: seq<string>): seq<IndividualMetaData> {
    Gather(blocks, IndividualOf)
  }

  lemma RoutedStep(blocks: seq<string>, i: nat)
    requires i < |blocks|
    ensures ClassesOf(blocks[..i + 1]) == ClassesOf(blocks[..i]) + ClassOf(blocks[i])
    ensures IndividualsOf(blocks[..i + 1]) == IndividualsOf(blocks[..i]) + IndividualOf(blocks[i])
  {
    GatherStep(blocks, i, ClassOf);
    GatherStep(blocks, i, IndividualOf);
  }

  /** The inner loop of `parse_llm_output`: the `properties` dict of one
      block, given the block's lines. */
  method ReadProperties(lines: seq<string>) returns (props: map<string, string>)
    ensures props == Properties(lines)
  {
    props := map[];
    var j := 0;
    assert lines[..0] == [];
    assert props == Properties(lines[..0]);
    while j < |lines|
      invariant 0 <= j <= |lines|
      invariant props == Properties(lines[..j])
    {
      var line := lines[j];
      PropertiesStep(lines, j);
      if Contains(line, ":") {
        var key, value := Before(line), After(line);
        props := props[Lower(Strip(key)) := Strip(value)];
      }
      j := j + 1;
    }
    WholePrefix(lines);
  }

  /** `parse_llm_output`: the class concepts and the individual concepts,
      each in block order. */
  method ParseLlmOutput(content: string) returns (classes: seq<ClassMetaData>, individuals: seq<IndividualMetaData>)
    ensures classes == ClassesOf(Blocks(content))
    ensures individuals == IndividualsOf(Blocks(content))
  {
    var blocks := Blocks(content);
    classes, individuals := [], [];
    var i := 0;
    assert blocks[..0] == [];
    while i < |blocks|
      invariant 0 <= i <= |blocks|
      invariant classes == ClassesOf(blocks[..i])
      invariant individuals == IndividualsOf(blocks[..i])
    {
      var props := ReadProperties(Split(blocks[i], "\n"));
      RoutedStep(blocks, i);
      var name := Get(props, "name");
      var classification := Lower(Get(props, "classification"));
      var information := Get(props, "information");
      if classification == "class" {
        classes := classes + [ClassMetaData(name, information)];
      } else if classification == "individual" {
        individuals := individuals + [IndividualMetaData(name, information)];
      }
      i := i + 1;
    }
    WholePrefix(blocks);
  }

  lemma PieceClean(part: string)
    ensures forall b :: b in Piece(part) ==> b != [] && Strip(b) == b
  {
    var b := Strip(part);
    StripTrimmed(b);
    assert Piece(part) == if b != [] then [b] else [];
  }

  /** Every block is non-empty and has no white space at either end. */
  lemma {:induction false} NonBlankClean(parts: seq<string>)
    ensures forall b :: b in NonBlank(parts) ==> b != [] && Strip(b) == b
  {
    if parts != [] {
      NonBlankClean(parts[1..]);
      PieceClean(parts[0]);
    }
  }

  lemma BlocksClean(content: string)
    ensures forall b :: b in Blocks(content) ==> b != [] && Strip(b) == b
  {
    NonBlankClean(Split(content, "\n\n"));
  }

  /** An answer without a blank line is one block, unless it is all white
      space. */
  lemma SingleBlock(content: string)
    requires !Contains(content, "\n\n")
    ensures Blocks(content) == Piece(content)
  {
  }

  /** The text before the first colon holds no colon. */
  lemma BeforeNoColon(line: string)
    requires Contains(line, ":")
    ensures ':' !in Before(line)
  {
    var i := IndexOf(line, ":").value;
    forall p | 0 <= p < i ensures line[p] != ':' {
      assert !OccursAt(line, ":", p);
      assert line[p..p + 1] == [line[p]];
    }
  }

  /** The key is lowercase and holds no colon. */
  lemma KeyShape(line: string)
    requires Contains(line, ":")
    ensures Lower(Entry(line).value.0) == Entry(line).value.0
    ensures ':' !in Entry(line).value.0
  {
    var raw := Strip(Before(line));
    LowerIdempotent(raw);
    BeforeNoColon(line);
  }

  /** The value has no white space at either end. */
  lemma ValueShape(line: string)
    requires Contains(line, ":")
    ensures Strip(Entry(line).value.1) == Entry(line).value.1
  {
    StripTrimmed(Strip(After(line)));
  }

  /** A key is recorded iff some line carries it. */
  lemma {:induction false} PropertyKeys(lines: seq<string>, k: string)
    ensures k in Properties(lines) <==>
            exists j :: 0 <= j < |lines| && Entry(lines[j]).Some? && Entry(lines[j]).value.0 == k
  {
    if lines != [] {
      var init := lines[..|lines| - 1];
      PropertyKeys(init, k);
      if k in Properties(lines) && k !in Properties(init) {
        assert Entry(lines[|lines| - 1]).Some? && Entry(lines[|lines| - 1]).value.0 == k;
      }
      if j :| 0 <= j < |lines| && Entry(lines[j]).Some? && Entry(lines[j]).value.0 == k {
        if j < |lines| - 1 {
          assert init[j] == lines[j];
        }
      }
    }
  }

  /** A line with another key, or with none, keeps what a key holds. */
  lemma ReadOther(props: map<string, string>, line: string, k: string)
    requires Entry(line).None? || Entry(line).value.0 != k
    ensures k in Read(props, line) <==> k in props
    ensures k in props ==> Read(props, line)[k] == props[k]
  {
  }

  /** A line with a key sets it. */
  lemma ReadSame(props: map<string, string>, line: string, k: string, v: string)
    requires Entry(line) == Some((k, v))
    ensures k in Read(props, line) && Read(props, line)[k] == v
  {
  }

  /** A later line overwrites an earlier one: the value kept for a key is
      the one on the last line carrying it. */
  lemma LastKeyWins(lines: seq<string>, j: nat, k: string, v: string)
    requires j < |lines| && Entry(lines[j]) == Some((k, v))
    requires forall i :: j < i < |lines| ==> Entry(lines[i]).None? || Entry(lines[i]).value.0 != k
    ensures k in Properties(lines) && Properties(lines)[k] == v
  {
    forall i | j < i < |lines| ensures !SetsKey(lines[i], k) {
    }
    KeptFrom(lines, j, k, v, |lines|);
    WholePrefix(lines);
  }

  /** The line holds an entry for key `k`. */
  predicate SetsKey(line: string, k: string) {
    Entry(line).Some? && Entry(line).value.0 == k
  }

  /** The value line `j` gives a key survives every later prefix that does
      not set the key again. */
  lemma {:induction false} KeptFrom(lines: seq<string>, j: nat, k: string, v: string, m: nat)
    requires j < m <= |lines| && Entry(lines[j]) == Some((k, v))
    requires forall i :: j < i < |lines| ==> !SetsKey(lines[i], k)
    ensures k in Properties(lines[..m]) && Properties(lines[..m])[k] == v
    decreases m
  {
    if m == j + 1 {
      KeyRead(lines, j, k, v);
    } else {
      KeptFrom(lines, j, k, v, m - 1);
      KeyKept(lines, m - 1, k, v);
    }
  }

  /** Reading the line that sets a key leaves its value there. */
  lemma KeyRead(lines: seq<string>, j: nat, k: string, v: string)
    requires j < |lines| && Entry(lines[j]) == Some((k, v))
    ensures k in Properties(lines[..j + 1]) && Properties(lines[..j + 1])[k] == v
  {
    PropertiesStep(lines, j);
    ReadSame(Properties(lines[..j]), lines[j], k, v);
  }

  /** Reading a line that does not set a key keeps its value. */
  lemma KeyKept(lines: seq<string>, n: nat, k: string, v: string)
    requires n < |lines| && !SetsKey(lines[n], k)
    requires k in Properties(lines[..n]) && Properties(lines[..n])[k] == v
    ensures k in Properties(lines[..n + 1]) && Properties(lines[..n + 1])[k] == v
  {
    PropertiesStep(lines, n);
    ReadOther(Properties(lines[..n]), lines[n], k);
  }

  /** Order follows block order: the outputs of consecutive parts of the
      answer are concatenated. */
  lemma RoutedAppend(a: seq<string>, b: seq<string>)
    ensures ClassesOf(a + b) == ClassesOf(a) + ClassesOf(b)
    ensures IndividualsOf(a + b) == IndividualsOf(a) + IndividualsOf(b)
  {
    GatherAppend(a, b, ClassOf);
    GatherAppend(a, b, IndividualOf);
  }

  predicate Kept(block: string) {
    !ParseBlock(block).Dropped?
  }

  /** Every kept block yields exactly one concept, so the two outputs
      together have as many entries as there are classified blocks. */
  lemma {:induction false} RoutedCount(blocks: seq<string>)
    ensures |ClassesOf(blocks)| + |IndividualsOf(blocks)| == |Filter(blocks, Kept)|
  {
    if blocks != [] {
      var n := |blocks| - 1;
      RoutedCount(blocks[..n]);
      RoutedStep(blocks, n);
      PrefixSnoc(blocks, n);
      WholePrefix(blocks);
      FilterSnoc(blocks[..n], blocks[n], Kept);
    }
  }

  /** The classification is compared without regard to case: any spelling
      routes the block as its lower-case form does, and a block is a class
      (an individual) exactly when its lowercased classification is `class`
      (`individual`). */
  lemma {:induction false} ClassificationIgnoresCase(props: map<string, string>, c: string)
    ensures Route(props["classification" := c]) == Route(props["classification" := Lower(c)])
    ensures Route(props["classification" := c]).AsClass? <==> Lower(c) == "class"
    ensures Route(props["classification" := c]).AsIndividual? <==> Lower(c) == "individual"
  {
    LowerIdempotent(c);
  }
}
