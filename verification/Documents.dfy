/** The stored form of a checkpoint row, and the strict decoding that guards a restore. */
module Documents {
  import opened Keyspace
  import opened CrawlState

  /** A BSON value, with the wire types a row may use; Other stands for all the rest. */
  datatype Value =
    | Null
    | Text(text: string)
    | Int32(n: int)
    | Int64(n: int)
    | Embedded(fields: seq<Field>)
    | Other

  datatype Field = Field(key: string, value: Value)

  type Document = seq<Field>

  function Keys(doc: Document): (ks: seq<string>)
    ensures |ks| == |doc|
  {
    seq(|doc|, i requires 0 <= i < |doc| => doc[i].key)
  }

  /** Every named field exactly once, and nothing else. */
  predicate HasExactly(doc: Document, names: seq<string>) {
    && Distinct(Keys(doc)) && Distinct(names)
    && (forall k :: k in Keys(doc) ==> k in names)
    && (forall n :: n in names ==> n in Keys(doc))
  }

  /** A document with as many fields as names, all distinct and all named, has exactly those fields. */
  lemma Exhausted(doc: Document, names: seq<string>)
    requires |doc| == |names| && Distinct(Keys(doc)) && forall k :: k in Keys(doc) ==> k in names
    ensures HasExactly(doc, names)
  {
    var ks := Keys(doc);
    DistinctSize(ks);
    DistinctSize(names);
    SubsetSize(Elements(ks), Elements(names));
    forall n | n in names
      ensures n in ks
    {
      assert n in Elements(names);
      assert n in Elements(ks);
    }
  }

  lemma ExactSize(doc: Document, names: seq<string>)
    requires HasExactly(doc, names)
    ensures |doc| == |names|
  {
    DistinctSize(Keys(doc));
    DistinctSize(names);
    assert Elements(Keys(doc)) == Elements(names);
  }

  /** validateMongoFields: strike each field off the list of names. */
  method ValidateFields(doc: Document, names: seq<string>) returns (ok: bool)
    ensures ok <==> HasExactly(doc, names)
  {
    if |doc| != |names| {
      if HasExactly(doc, names) {
        ExactSize(doc, names);
        assert false;
      }
      return false;
    }
    var remaining := set n | n in names;
    var i := 0;
    while i < |doc|
      invariant i <= |doc|
      invariant Distinct(Keys(doc)[..i]) && forall k :: k in Keys(doc)[..i] ==> k in names
      invariant forall n :: n in remaining <==> n in names && n !in Keys(doc)[..i]
    {
      var key := doc[i].key;
      assert Keys(doc)[i] == key;
      if key !in remaining {
        assert key in Keys(doc);
        return false;
      }
      remaining := remaining - {key};
      assert Keys(doc)[..i + 1] == Keys(doc)[..i] + [key];
      i := i + 1;
    }
    assert Keys(doc)[..i] == Keys(doc);
    Exhausted(doc, names);
    return true;
  }

  /** raw.Lookup: the first field with the key. */
  function ValueAt(doc: Document, key: string): Value {
    if doc == [] then Other else if doc[0].key == key then doc[0].value else ValueAt(doc[1..], key)
  }

  const ROW_FIELDS: seq<string> := ["_id", "schema", "next_due", "barren", "dead"]
  const DEAD_FIELDS: seq<string> := ["reason", "until"]

  function EncodeNext(next: Option<int>): Value {
    if next.None? then Null else Int64(next.value)
  }

  function DeadValue(dead: Option<Dead>): Value {
    if dead.None? then Null
    else Embedded([Field("reason", Text(dead.value.reason)), Field("until", Int64(dead.value.until))])
  }

  function EncodeRow(r: Row): Document {
    [Field("_id", Text(r.url)), Field("schema", Int32(1)), Field("next_due", EncodeNext(r.next)),
     Field("barren", Int64(r.barren)), Field("dead", DeadValue(r.dead))]
  }

  function DecodeNext(v: Value): Option<Option<int>> {
    match v
    case Null => Some(None)
    case Int64(n) => Some(Some(n))
    case _ => None
  }

  function ReadDead(v: Value): Option<Option<Dead>> {
    match v
    case Null => Some(None)
    case Embedded(doc) =>
      if !HasExactly(doc, DEAD_FIELDS) then None
      else
        var reason, until := ValueAt(doc, "reason"), ValueAt(doc, "until");
        if reason.Text? && until.Int64? then Some(Some(Dead(reason.text, until.n))) else None
    case _ => None
  }

  /** The row a document stands for, if it is well formed and valid. */
  function DecodeRow(parses: Url -> bool, doc: Document): Option<Row> {
    if !HasExactly(doc, ROW_FIELDS) then None
    else
      var id, schema, barren := ValueAt(doc, "_id"), ValueAt(doc, "schema"), ValueAt(doc, "barren");
      var next, dead := DecodeNext(ValueAt(doc, "next_due")), ReadDead(ValueAt(doc, "dead"));
      if !id.Text? || !schema.Int32? || !barren.Int64? || next.None? || dead.None? then None
      else
        var r := Row(id.text, next.value, barren.n, dead.value);
        if schema.n == 1 && ValidRow(parses, r) then Some(r) else None
  }

  /** The dead field: null, or a document of a reason and an expiry. */
  method CheckDead(v: Value) returns (r: Option<Option<Dead>>)
    ensures r == ReadDead(v)
  {
    if v.Null? {
      return Some(None);
    }
    if !v.Embedded? {
      return None;
    }
    var ok := ValidateFields(v.fields, DEAD_FIELDS);
    var reason, until := ValueAt(v.fields, "reason"), ValueAt(v.fields, "until");
    if !ok || !reason.Text? || !until.Int64? {
      return None;
    }
    return Some(Some(Dead(reason.text, until.n)));
  }

  /** decodeMongoCrawlRecord: fields, then wire types, then values. */
  method Decode(parses: Url -> bool, doc: Document) returns (r: Option<Row>)
    ensures r == DecodeRow(parses, doc)
  {
    var ok := ValidateFields(doc, ROW_FIELDS);
    if !ok {
      return None;
    }
    var id, schema, barren := ValueAt(doc, "_id"), ValueAt(doc, "schema"), ValueAt(doc, "barren");
    if !id.Text? || !schema.Int32? || !barren.Int64? {
      return None;
    }
    var next := ValueAt(doc, "next_due");
    if !next.Null? && !next.Int64? {
      return None;
    }
    var dead := CheckDead(ValueAt(doc, "dead"));
    if dead.None? {
      return None;
    }
    var row := Row(id.text, if next.Null? then None else Some(next.n), barren.n, dead.value);
    return if schema.n == 1 && ValidRow(parses, row) then Some(row) else None;
  }

  lemma RowFieldsDistinct()
    ensures Distinct(ROW_FIELDS) && Distinct(DEAD_FIELDS)
  {
    var s := ROW_FIELDS;
    assert s[0][0] == '_' && s[1][0] == 's' && s[2][0] == 'n' && s[3][0] == 'b' && s[4][0] == 'd';
    assert DEAD_FIELDS[0][0] == 'r' && DEAD_FIELDS[1][0] == 'u';
  }

  lemma {:induction false} ValueAtIndex(doc: Document, i: nat)
    requires i < |doc| && Distinct(Keys(doc))
    ensures ValueAt(doc, doc[i].key) == doc[i].value
  {
    var ks := Keys(doc);
    if i > 0 {
      assert ks[0] != ks[i];
      forall a, b | 0 <= a < b < |doc| - 1
        ensures Keys(doc[1..])[a] != Keys(doc[1..])[b]
      {
        assert ks[a + 1] != ks[b + 1];
      }
      ValueAtIndex(doc[1..], i - 1);
    }
  }

  lemma EncodedFields(r: Row)
    ensures HasExactly(EncodeRow(r), ROW_FIELDS)
    ensures r.dead.Some? ==> HasExactly(DeadValue(r.dead).fields, DEAD_FIELDS)
  {
    RowFieldsDistinct();
    assert Keys(EncodeRow(r)) == ROW_FIELDS;
    if r.dead.Some? {
      assert Keys(DeadValue(r.dead).fields) == DEAD_FIELDS;
    }
  }

  lemma DeadReadBack(d: Option<Dead>)
    requires d.Some? ==> HasExactly(DeadValue(d).fields, DEAD_FIELDS)
    ensures ReadDead(DeadValue(d)) == Some(d)
  {
    if d.Some? {
      var doc := DeadValue(d).fields;
      ValueAtIndex(doc, 0);
      ValueAtIndex(doc, 1);
    }
  }

  /** A saved row is accepted by a later restore, and read back unchanged, exactly when it is valid. */
  lemma RowReadBack(parses: Url -> bool, r: Row)
    ensures DecodeRow(parses, EncodeRow(r)) == if ValidRow(parses, r) then Some(r) else None
  {
    EncodedFields(r);
    DeadReadBack(r.dead);
    var doc := EncodeRow(r);
    ValueAtIndex(doc, 0);
    ValueAtIndex(doc, 1);
    ValueAtIndex(doc, 2);
    ValueAtIndex(doc, 3);
    ValueAtIndex(doc, 4);
  }

  lemma FieldIn(doc: Document, names: seq<string>, key: string)
    requires HasExactly(doc, names) && key in names
    ensures Field(key, ValueAt(doc, key)) in doc
  {
    var i :| 0 <= i < |doc| && Keys(doc)[i] == key;
    ValueAtIndex(doc, i);
  }

  /** Nothing but a valid row's own fields decodes: no missing, repeated or extra field, no coerced type. */
  lemma DecodedFields(parses: Url -> bool, doc: Document)
    requires DecodeRow(parses, doc).Some?
    ensures var r := DecodeRow(parses, doc).value;
            && ValidRow(parses, r) && |doc| == |ROW_FIELDS|
            && Field("_id", Text(r.url)) in doc && Field("schema", Int32(1)) in doc
            && Field("next_due", EncodeNext(r.next)) in doc && Field("barren", Int64(r.barren)) in doc
            && (r.dead.None? ==> Field("dead", Null) in doc)
            && (r.dead.Some? ==> exists d :: Field("dead", Embedded(d)) in doc && |d| == |DEAD_FIELDS|
                                             && Field("reason", Text(r.dead.value.reason)) in d
                                             && Field("until", Int64(r.dead.value.until)) in d)
  {
    ExactSize(doc, ROW_FIELDS);
    forall key | key in ROW_FIELDS
      ensures Field(key, ValueAt(doc, key)) in doc
    {
      FieldIn(doc, ROW_FIELDS, key);
    }
    assert "_id" in ROW_FIELDS && "schema" in ROW_FIELDS && "next_due" in ROW_FIELDS;
    assert "barren" in ROW_FIELDS && "dead" in ROW_FIELDS;
    var dead := ValueAt(doc, "dead");
    if dead.Embedded? {
      ExactSize(dead.fields, DEAD_FIELDS);
      FieldIn(dead.fields, DEAD_FIELDS, "reason");
      FieldIn(dead.fields, DEAD_FIELDS, "until");
    }
  }
}
