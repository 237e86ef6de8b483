/** What every loaded document is like: distinct keys at every depth, and floats as Python prints them. */
module Loaded {
  import opened Results
  import opened Text
  import opened Values
  import opened Scalars
  import opened Blocks
  import opened Grammar
  import opened Documents
  import opened Composition

  /** Reading a float token and printing the number gives a `repr`, which reads as the same number again. */
  ghost predicate ReprReader(floats: FloatReader) {
    forall t :: IsFloatToken(t) ==>
      IsFloatRepr(floats(t)) && (IsFloatToken(floats(t)) ==> floats(floats(t)) == floats(t))
  }

  lemma {:induction false} ScalarGenuine(value: string, floats: FloatReader)
    requires ReprReader(floats) && Scalar(value, floats).Ok?
    ensures Genuine(Scalar(value, floats).value, floats)
    decreases |value|, 1, 0
  {
    var v := Scalar(value, floats).value;
    if v.List? && v.items != [] {
      var inner := Strip(value[1..|value| - 1]);
      var parts := InlineParts(inner).value;
      PartsGenuine(parts, floats, |value|);
    }
  }

  lemma {:induction false} PartsGenuine(parts: seq<string>, floats: FloatReader, bound: nat)
    requires ReprReader(floats) && (forall i :: 0 <= i < |parts| ==> |parts[i]| < bound)
    requires ScalarAll(parts, floats, bound).Ok?
    ensures AllGenuine(ScalarAll(parts, floats, bound).value, floats)
    decreases bound, 0, |parts|
  {
    if parts != [] {
      ScalarGenuine(parts[0], floats);
      PartsGenuine(parts[1..], floats, bound);
      var values := ScalarAll(parts, floats, bound).value;
      assert values[1..] == ScalarAll(parts[1..], floats, bound).value;
    }
  }

  predicate RowGenuine(row: Row, floats: FloatReader) {
    row.item.payload.Some? ==> Genuine(row.item.payload.value, floats)
  }

  predicate RowsGenuine(rows: seq<Row>, floats: FloatReader) {
    forall i :: 0 <= i < |rows| ==> RowGenuine(rows[i], floats)
  }

  lemma KeyItemGenuine(dash: bool, key: string, raw: string, floats: FloatReader)
    requires ReprReader(floats) && KeyItem(dash, key, raw, floats).Ok?
    ensures var item := KeyItem(dash, key, raw, floats).value;
            item.payload.Some? ==> Genuine(item.payload.value, floats)
  {
    if raw != "" {
      ScalarGenuine(raw, floats);
    }
  }

  lemma ItemGenuine(text: string, floats: FloatReader)
    requires ReprReader(floats) && Classify(text, floats).Ok?
    ensures var item := Classify(text, floats).value;
            item.payload.Some? ==> Genuine(item.payload.value, floats)
  {
    var dash := Dashed(text);
    var body := if dash then Strip(text[2..]) else text;
    var parts := MappingParts(body);
    if parts.Ok? {
      KeyItemGenuine(dash, parts.value.0, parts.value.1, floats);
    } else {
      ScalarGenuine(body, floats);
    }
  }

  lemma DescribedRowsGenuine(lines: seq<Line>, rest: seq<Line>, rows: seq<Row>, floats: FloatReader)
    requires ReprReader(floats) && Spans(lines, rest, rows, floats)
    ensures RowsGenuine(rows, floats)
  {
    forall i | 0 <= i < |rows|
      ensures RowGenuine(rows[i], floats)
    {
      assert Says(lines[i], rows[i], floats);
      ItemGenuine(lines[i].text, floats);
    }
  }

  lemma RowsGenuineSplit(a: seq<Row>, b: seq<Row>, floats: FloatReader)
    requires RowsGenuine(a + b, floats)
    ensures RowsGenuine(a, floats) && RowsGenuine(b, floats)
  {
    assert forall i :: 0 <= i < |a| ==> a[i] == (a + b)[i];
    assert forall i :: 0 <= i < |b| ==> b[i] == (a + b)[|a| + i];
  }

  lemma {:induction false} TreeGenuine(node: Node, indent: nat, floats: FloatReader)
    requires WellFormed(node) && !node.Inline? && RowsGenuine(BlockRows(node, indent), floats)
    ensures Genuine(ValueOf(node), floats)
    decreases node, 1
  {
    match node
    case Mapping(entries) =>
      EntriesGenuine(entries, indent, floats);
      FieldsKeepKeys(entries);
    case Sequence(items) => ItemsGenuine(items, indent, floats);
  }

  lemma {:induction false} FieldsKeepKeys(entries: seq<Entry>)
    ensures forall i :: 0 <= i < |entries| ==> FieldsOf(entries)[i].key == entries[i].key
  {
    if entries != [] {
      FieldsKeepKeys(entries[1..]);
    }
  }

  lemma {:induction false} EntriesGenuine(entries: seq<Entry>, indent: nat, floats: FloatReader)
    requires EntriesWellFormed(entries) && RowsGenuine(EntriesRows(entries, indent), floats)
    ensures FieldsGenuine(FieldsOf(entries), floats)
    decreases entries, 0
  {
    if entries != [] {
      var head := EntryRows(entries[0], indent);
      RowsGenuineSplit(head, EntriesRows(entries[1..], indent), floats);
      assert RowGenuine(head[0], floats);
      if !entries[0].node.Inline? {
        RowsGenuineSplit([head[0]], BlockRows(entries[0].node, indent + 2), floats);
        TreeGenuine(entries[0].node, indent + 2, floats);
      }
      EntriesGenuine(entries[1..], indent, floats);
      assert FieldsOf(entries)[1..] == FieldsOf(entries[1..]);
    }
  }

  lemma {:induction false} ItemsGenuine(items: seq<Node>, indent: nat, floats: FloatReader)
    requires ItemsWellFormed(items) && RowsGenuine(ItemsRows(items, indent), floats)
    ensures AllGenuine(ItemsOf(items), floats)
    decreases items, 0
  {
    if items != [] {
      var head := ItemRows(items[0], indent);
      RowsGenuineSplit(head, ItemsRows(items[1..], indent), floats);
      if items[0].Inline? {
        assert RowGenuine(head[0], floats);
      } else {
        UndashGenuine(EntriesRows(items[0].entries, indent + 2), indent, floats);
        EntriesGenuine(items[0].entries, indent + 2, floats);
        FieldsKeepKeys(items[0].entries);
      }
      ItemsGenuine(items[1..], indent, floats);
      assert ItemsOf(items)[1..] == ItemsOf(items[1..]);
    }
  }

  lemma UndashGenuine(rows: seq<Row>, indent: nat, floats: FloatReader)
    requires RowsGenuine(WithDash(rows, indent), floats)
    ensures RowsGenuine(rows, floats)
  {
    forall i | 0 <= i < |rows|
      ensures RowGenuine(rows[i], floats)
    {
      assert RowGenuine(WithDash(rows, indent)[i], floats);
    }
  }

  /** Loading gives a value Python could hold: no key occurs twice in any mapping, at any depth. */
  lemma LoadedGenuine(text: string, floats: FloatReader)
    requires ReprReader(floats) && Loads(text, floats).Ok?
    ensures Genuine(Loads(text, floats).value, floats) && Tidy(Loads(text, floats).value.fields)
  {
    var lines := LexAll(SplitLines(text)).value;
    var node := ParseLines(lines, floats).value;
    ParserIsExact(lines, node, floats);
    DescribedRowsGenuine(lines, [], BlockRows(node, 0), floats);
    TreeGenuine(node, 0, floats);
    GenuineTidy(Loads(text, floats).value.fields, floats);
  }

  lemma {:induction false} GenuineTidy(fields: seq<Field>, floats: FloatReader)
    requires UniqueKeys(fields) && FieldsGenuine(fields, floats)
    ensures Tidy(fields)
    decreases fields
  {
    forall i | 0 <= i < |fields| && fields[i].value.Map?
      ensures Tidy(fields[i].value.fields)
    {
      FieldGenuine(fields, i, floats);
      GenuineTidy(fields[i].value.fields, floats);
    }
  }

  lemma {:induction false} FieldGenuine(fields: seq<Field>, i: nat, floats: FloatReader)
    requires FieldsGenuine(fields, floats) && i < |fields|
    ensures Genuine(fields[i].value, floats)
    decreases i
  {
    if i > 0 {
      FieldGenuine(fields[1..], i - 1, floats);
    }
  }

  /** Setting a word below a path keeps a value one that Python could hold. */
  lemma {:induction false} PutGenuine(fields: seq<Field>, key: string, value: Value, floats: FloatReader)
    requires UniqueKeys(fields) && FieldsGenuine(fields, floats) && Genuine(value, floats)
    ensures UniqueKeys(Put(fields, key, value)) && FieldsGenuine(Put(fields, key, value), floats)
    decreases |fields|
  {
    PutUnique(fields, key, value);
    var put := Put(fields, key, value);
    if fields == [] {
      assert put[1..] == [];
    } else {
      UniqueTail(fields);
      if fields[0].key == key {
        assert put[1..] == fields[1..];
      } else {
        PutGenuine(fields[1..], key, value, floats);
        assert put[1..] == Put(fields[1..], key, value);
      }
    }
  }

  lemma {:induction false} GetGenuine(fields: seq<Field>, key: string, floats: FloatReader)
    requires FieldsGenuine(fields, floats) && Get(fields, key).Some?
    ensures Genuine(Get(fields, key).value, floats)
    decreases |fields|
  {
    if fields[0].key != key {
      GetGenuine(fields[1..], key, floats);
    }
  }

  lemma {:induction false} SetDefaultGenuine(fields: seq<Field>, path: seq<string>, value: Value, floats: FloatReader)
    requires UniqueKeys(fields) && FieldsGenuine(fields, floats) && Genuine(value, floats)
    requires path != [] && SetDefaultDeep(fields, path, value).Ok?
    ensures var changed := SetDefaultDeep(fields, path, value).value;
            UniqueKeys(changed) && FieldsGenuine(changed, floats)
    decreases path
  {
    if |path| == 1 {
      PutGenuine(fields, path[0], value, floats);
    } else {
      var inner: seq<Field> := [];
      if Get(fields, path[0]).Some? {
        GetGenuine(fields, path[0], floats);
        inner := Get(fields, path[0]).value.fields;
      }
      SetDefaultGenuine(inner, path[1..], value, floats);
      PutGenuine(fields, path[0], Map(SetDefaultDeep(inner, path[1..], value).value), floats);
    }
  }

  // ----- every line of the text is used once -----

  /** A line with something on it besides a comment. */
  predicate Significant(raw: string) {
    CommentFree(raw).Ok? && Strip(CommentFree(raw).value) != ""
  }

  function SignificantLines(raws: seq<string>): nat {
    if raws == [] then 0 else (if Significant(raws[0]) then 1 else 0) + SignificantLines(raws[1..])
  }

  lemma {:induction false} LexKeeps(raws: seq<string>)
    requires LexAll(raws).Ok?
    ensures |LexAll(raws).value| == SignificantLines(raws)
  {
    if raws != [] {
      assert LexLine(raws[0]).value.Some? <==> Significant(raws[0]);
      LexKeeps(raws[1..]);
    }
  }

  /** A text that loads has one significant line for each block mapping entry and each scalar list item. */
  lemma DocumentLines(text: string, floats: FloatReader)
    requires LoadsTree(text, floats).Ok?
    ensures SignificantLines(SplitLines(text)) == Weight(LoadsTree(text, floats).value)
  {
    LexKeeps(SplitLines(text));
    LineCount(LexAll(SplitLines(text)).value, floats);
  }
}
