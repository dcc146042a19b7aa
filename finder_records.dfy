/** The all-or-nothing check the knowledge and meta-science finders apply
    to the JSON a language model returns: every element must hold every
    required field, or the whole answer is dropped. Decoding is a
    parameter: `None` is a decode error. */
module FinderRecords {
  import opened Wrappers
  import opened Values

  /** `all(field in item for field in fields)`, or the exception a
      membership test raises on an item that cannot be searched. */
  function HasFields(fields: seq<string>, item: Value): (r: Result<bool, PyError>)
    ensures r == Ok(true) <==> forall j :: 0 <= j < |fields| ==> Member(fields[j], item) == Ok(true)
  {
    if fields == [] then Ok(true)
    else match Member(fields[0], item)
      case Err(e) => Err(e)
      case Ok(found) =>
        if !found then Ok(false)
        else
          var rest := HasFields(fields[1..], item);
          assert forall j :: 1 <= j < |fields| ==> fields[j] == fields[1..][j - 1];
          rest
  }

  /** Every item holds every field. */
  predicate AllValid(fields: seq<string>, items: seq<Value>) {
    forall i :: 0 <= i < |items| ==> HasFields(fields, items[i]) == Ok(true)
  }

  /** The loop over the items: the first item that lacks a field, or whose
      membership test raises, ends it with an exception. */
  function FirstInvalid(fields: seq<string>, items: seq<Value>): (r: Option<nat>)
    ensures r.None? <==> AllValid(fields, items)
    ensures r.Some? ==> r.value < |items| && HasFields(fields, items[r.value]) != Ok(true)
                        && AllValid(fields, items[..r.value])
  {
    if items == [] then None
    else if HasFields(fields, items[0]) != Ok(true) then Some(0)
    else
      match FirstInvalid(fields, items[1..])
      case None => None
      case Some(i) =>
        assert items[..i + 1] == [items[0]] + items[1..][..i];
        Some(i + 1)
  }

  /** `_parse_gaps` / `_parse_ideas`: the decoded value itself when it can
      be iterated and every element holds every field, `[]` otherwise (a
      decode error, a value that cannot be iterated, a missing field). */
  function ParseRecords(fields: seq<string>, decoded: Option<Value>): (r: Value)
    ensures r == List([]) || (decoded.Some? && r == decoded.value)
  {
    match decoded
    case None => List([])
    case Some(v) =>
      match Elements(v)
      case None => List([])
      case Some(items) => if FirstInvalid(fields, items).None? then v else List([])
  }

  /** A JSON list of objects. */
  function RecordList(records: seq<Entries>): (v: Value)
  {
    List(seq(|records|, i requires 0 <= i < |records| => Dict(records[i])))
  }

  /** Every record holds every field as a key. */
  predicate HoldAll(fields: seq<string>, records: seq<Entries>) {
    forall i, j :: 0 <= i < |records| && 0 <= j < |fields| ==> HasKey(records[i], fields[j])
  }

  /** A decoded list of records is returned unchanged, with its order and
      extra fields, exactly when every record holds every field; otherwise
      the result is the empty list. */
  lemma RecordsAllOrNothing(fields: seq<string>, records: seq<Entries>)
    ensures ParseRecords(fields, Some(RecordList(records)))
            == if HoldAll(fields, records) then RecordList(records) else List([])
  {
    var v := RecordList(records);
    if HoldAll(fields, records) {
      assert AllValid(fields, v.items) by {
        forall i | 0 <= i < |v.items| ensures HasFields(fields, v.items[i]) == Ok(true) {
          assert v.items[i] == Dict(records[i]);
        }
      }
    } else {
      var i, j :| 0 <= i < |records| && 0 <= j < |fields| && !HasKey(records[i], fields[j]);
      assert v.items[i] == Dict(records[i]);
      assert Member(fields[j], v.items[i]) == Ok(false);
      assert !AllValid(fields, v.items);
    }
  }

  /** An empty list is accepted as it is, and a decode error gives `[]`. */
  lemma EmptyAndInvalid(fields: seq<string>)
    ensures ParseRecords(fields, Some(List([]))) == List([])
    ensures ParseRecords(fields, None) == List([])
  {
  }

  /** A decoded value that cannot be iterated (a number, a boolean,
      `null`) gives `[]`. */
  lemma ScalarRejected(fields: seq<string>, v: Value)
    requires v.NoneV? || v.Bool? || v.Int?
    ensures ParseRecords(fields, Some(v)) == List([])
  {
  }
}
