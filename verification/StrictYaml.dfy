/** The parser and printer of strict_yaml.py as the program runs them, proved to compute `Loads` and `Dumps`. */
module StrictYaml {
  import opened Results
  import opened Text
  import opened Scanners
  import opened Values
  import opened Scalars
  import opened Blocks
  import opened Grammar
  import opened Documents

  // ----- the parser -----

  /** Reads one line: a dash or none, a key or none, a one-line value or none. */
  method ReadLine(text: string, floats: FloatReader) returns (r: Result<Item>)
    ensures r == Classify(text, floats)
  {
    var dash := Dashed(text);
    var item := text;
    if dash {
      item := Strip(text[2..]);
      if item == "" {
        return Err;
      }
    }
    var parts := SplitMapping(item);
    if parts.Err? {
      if !dash {
        return Err;
      }
      var word := Scalar(item, floats);
      return if word.Ok? then Ok(Item(true, None, Some(word.value))) else Err;
    }
    var (key, raw) := parts.value;
    if !SafeKey(key) {
      return Err;
    }
    if raw == "" {
      return Ok(Item(dash, Some(key), None));
    }
    var value := Scalar(raw, floats);
    return if value.Ok? then Ok(Item(dash, Some(key), Some(value.value))) else Err;
  }

  /** What `_block` hands back in terms of the tree the grammar gives it: the value and the next line number. */
  ghost predicate Reads(r: Result<(Value, nat)>, lines: seq<Line>, spec: Result<(Node, seq<Line>)>) {
    match spec
    case Err => r.Err?
    case Ok(read) =>
      r.Ok? && r.value.0 == ValueOf(read.0) && r.value.1 <= |lines| && read.1 == lines[r.value.1..]
  }

  lemma TailStep(lines: seq<Line>, i: nat)
    requires i < |lines|
    ensures lines[i..] != [] && lines[i..][0] == lines[i] && lines[i..][1..] == lines[i + 1..]
  {
  }

  method ReadValue(payload: Option<Value>, lines: seq<Line>, index: nat, indent: nat, floats: FloatReader)
    returns (r: Result<(Value, nat)>)
    requires index <= |lines|
    ensures Reads(r, lines, ParseValue(payload, lines[index..], indent, floats))
    ensures r.Ok? ==> index <= r.value.1 <= |lines|
    decreases |lines| - index, 3
  {
    if payload.Some? {
      return Ok((payload.value, index));
    }
    if index == |lines| || lines[index].indent != indent {
      return Err;
    }
    r := Block(lines, index, indent, floats);
  }

  method Block(lines: seq<Line>, start: nat, indent: nat, floats: FloatReader) returns (r: Result<(Value, nat)>)
    requires start < |lines| && lines[start].indent == indent
    ensures Reads(r, lines, ParseBlock(lines[start..], indent, floats))
    ensures r.Ok? ==> start < r.value.1 <= |lines|
    decreases |lines| - start, 2
  {
    if Dashed(lines[start].text) {
      r := SequenceBlock(lines, start, indent, floats);
    } else {
      r := MappingBlock(lines, start, indent, floats);
    }
  }

  lemma FieldsAppend(entries: seq<Entry>, entry: Entry)
    ensures FieldsOf(entries + [entry]) == FieldsOf(entries) + [Field(entry.key, ValueOf(entry.node))]
  {
    if entries == [] {
      assert entries + [entry] == [entry];
    } else {
      assert (entries + [entry])[1..] == entries[1..] + [entry];
      FieldsAppend(entries[1..], entry);
    }
  }

  lemma FieldKeys(entries: seq<Entry>)
    ensures forall i :: 0 <= i < |entries| ==> FieldsOf(entries)[i].key == entries[i].key
  {
    if entries != [] {
      FieldKeys(entries[1..]);
    }
  }

  lemma ItemsAppend(items: seq<Node>, item: Node)
    ensures ItemsOf(items + [item]) == ItemsOf(items) + [ValueOf(item)]
  {
    if items == [] {
      assert items + [item] == [item];
    } else {
      assert (items + [item])[1..] == items[1..] + [item];
      ItemsAppend(items[1..], item);
    }
  }

  predicate KeyIn(fields: seq<Field>, key: string) {
    exists i :: 0 <= i < |fields| && fields[i].key == key
  }

  /** One entry of a block mapping: refused, or the entry and the number of the line after it. */
  method MappingEntry(
    lines: seq<Line>, index: nat, indent: nat, result: seq<Field>, ghost done: seq<Entry>, floats: FloatReader)
    returns (r: Result<(Field, nat)>, ghost entry: Entry)
    requires index < |lines| && lines[index].indent == indent && !Dashed(lines[index].text)
    requires result == FieldsOf(done)
    ensures r.Err? ==> ParseEntries(lines[index..], indent, done, floats).Err?
    ensures r.Ok? ==>
              && index < r.value.1 <= |lines| && r.value.0 == Field(entry.key, ValueOf(entry.node))
              && ParseEntries(lines[index..], indent, done, floats)
                 == ParseEntries(lines[r.value.1..], indent, done + [entry], floats)
    decreases |lines| - index, 0
  {
    entry := Entry("", Inline(Null));
    var item := ReadLine(lines[index].text, floats);
    TailStep(lines, index);
    if item.Err? {
      return Err, entry;
    }
    var key := item.value.key.value;
    SameKeys(done, key);
    if KeyIn(result, key) {
      return Err, entry;
    }
    var nested := ReadValue(item.value.payload, lines, index + 1, indent + 2, floats);
    if nested.Err? {
      return Err, entry;
    }
    entry := Entry(key, ParseValue(item.value.payload, lines[index + 1..], indent + 2, floats).value.0);
    return Ok((Field(key, nested.value.0), nested.value.1)), entry;
  }

  lemma SameKeys(entries: seq<Entry>, key: string)
    ensures KeyIn(FieldsOf(entries), key) <==> HasKey(entries, key)
  {
    FieldKeys(entries);
    if KeyIn(FieldsOf(entries), key) {
      var i :| 0 <= i < |entries| && FieldsOf(entries)[i].key == key;
      assert entries[i].key == key;
    }
    if HasKey(entries, key) {
      var i :| 0 <= i < |entries| && entries[i].key == key;
      assert FieldsOf(entries)[i].key == key;
    }
  }

  method MappingBlock(lines: seq<Line>, start: nat, indent: nat, floats: FloatReader) returns (r: Result<(Value, nat)>)
    requires start < |lines| && lines[start].indent == indent && !Dashed(lines[start].text)
    ensures Reads(r, lines, ParseBlock(lines[start..], indent, floats))
    ensures r.Ok? ==> start < r.value.1 <= |lines|
    decreases |lines| - start, 1
  {
    var result: seq<Field> := [];
    var index := start;
    ghost var done: seq<Entry> := [];
    while index < |lines| && lines[index].indent == indent && !Dashed(lines[index].text)
      invariant start <= index <= |lines|
      invariant result == FieldsOf(done)
      invariant ParseEntries(lines[start..], indent, [], floats) == ParseEntries(lines[index..], indent, done, floats)
      invariant index == start ==> done == []
      decreases |lines| - index
    {
      ghost var entry;
      var next;
      next, entry := MappingEntry(lines, index, indent, result, done, floats);
      if next.Err? {
        return Err;
      }
      FieldsAppend(done, entry);
      done, result := done + [entry], result + [next.value.0];
      index := next.value.1;
    }
    if index < |lines| && lines[index].indent > indent {
      return Err;
    }
    return Ok((Map(result), index));
  }

  method SequenceBlock(lines: seq<Line>, start: nat, indent: nat, floats: FloatReader) returns (r: Result<(Value, nat)>)
    requires start < |lines| && lines[start].indent == indent && Dashed(lines[start].text)
    ensures Reads(r, lines, ParseBlock(lines[start..], indent, floats))
    ensures r.Ok? ==> start < r.value.1 <= |lines|
    decreases |lines| - start, 1
  {
    var result: seq<Value> := [];
    var index := start;
    ghost var done: seq<Node> := [];
    while index < |lines| && lines[index].indent == indent && Dashed(lines[index].text)
      invariant start <= index <= |lines|
      invariant result == ItemsOf(done)
      invariant ParseItems(lines[start..], indent, [], floats) == ParseItems(lines[index..], indent, done, floats)
      invariant index == start ==> done == []
      decreases |lines| - index
    {
      var item := SequenceItem(lines, index, indent, floats);
      if item.Err? {
        return Err;
      }
      ghost var node := ParseItem(lines[index..], indent, floats).value.0;
      ItemsAppend(done, node);
      done, result := done + [node], result + [item.value.0];
      index := item.value.1;
    }
    if index < |lines| && lines[index].indent > indent {
      return Err;
    }
    return Ok((List(result), index));
  }

  method SequenceItem(lines: seq<Line>, start: nat, indent: nat, floats: FloatReader) returns (r: Result<(Value, nat)>)
    requires start < |lines| && Dashed(lines[start].text)
    ensures Reads(r, lines, ParseItem(lines[start..], indent, floats))
    ensures r.Ok? ==> start < r.value.1 <= |lines|
    decreases |lines| - start, 0
  {
    TailStep(lines, start);
    var item := ReadLine(lines[start].text, floats);
    if item.Err? {
      return Err;
    }
    if item.value.key.None? {
      return Ok((item.value.payload.value, start + 1));
    }
    var key := item.value.key.value;
    var nested := ReadValue(item.value.payload, lines, start + 1, indent + 4, floats);
    if nested.Err? {
      return Err;
    }
    ghost var read := ParseValue(item.value.payload, lines[start + 1..], indent + 4, floats).value;
    r := Continuation(Field(key, nested.value.0), Entry(key, read.0), lines, nested.value.1, indent + 2, floats);
  }

  /** Folds the entries below a dash entry into its mapping; the read block must be a mapping without its key. */
  method Continuation(
    item: Field, ghost first: Entry, lines: seq<Line>, index: nat, indent: nat, floats: FloatReader)
    returns (r: Result<(Value, nat)>)
    requires index <= |lines| && item == Field(first.key, ValueOf(first.node))
    ensures Reads(r, lines, ParseMore(first, lines[index..], indent, floats))
    ensures r.Ok? ==> index <= r.value.1 <= |lines|
    decreases |lines| - index, 3
  {
    if index < |lines| && lines[index].indent == indent {
      var more := Block(lines, index, indent, floats);
      if more.Err? {
        return Err;
      }
      ghost var node := ParseBlock(lines[index..], indent, floats).value.0;
      BlockSound(lines[index..], indent, floats);
      if !more.value.0.Map? {
        return Err;
      }
      SameKeys(node.entries, first.key);
      var fields := more.value.0.fields;
      if KeyIn(fields, item.key) {
        return Err;
      }
      assert ([first] + node.entries)[1..] == node.entries;
      return Ok((Map([item] + fields), more.value.1));
    }
    assert FieldsOf([first]) == [item];
    return Ok((Map([item]), index));
  }

  method LexRaw(raw: string) returns (r: Result<Option<Line>>)
    ensures r == LexLine(raw)
  {
    if HasTab(raw) {
      return Err;
    }
    var stripped := StripComment(raw);
    if stripped.Err? {
      return Err;
    }
    var text := stripped.value;
    if Strip(text) == "" {
      return Ok(None);
    }
    if Marked(LStrip(text)) {
      return Err;
    }
    var indent := SpaceRun(text);
    if indent % 2 != 0 {
      return Err;
    }
    return Ok(Some(Line(indent, text[indent..])));
  }

  method LexDocument(raws: seq<string>) returns (r: Result<seq<Line>>)
    ensures r == LexAll(raws)
  {
    var lines: seq<Line> := [];
    assert raws[0..] == raws;
    PrependNothing(LexAll(raws));
    for number := 0 to |raws|
      invariant LexAll(raws) == Prepend(lines, LexAll(raws[number..]))
    {
      assert raws[number..][0] == raws[number] && raws[number..][1..] == raws[number + 1..];
      var line := LexRaw(raws[number]);
      if line.Err? {
        return Err;
      }
      PrependStep(lines, line.value, LexAll(raws[number + 1..]));
      if line.value.Some? {
        lines := lines + [line.value.value];
      }
    }
    assert raws[|raws|..] == [] && lines + [] == lines;
    return Ok(lines);
  }

  function Prepend(lines: seq<Line>, rest: Result<seq<Line>>): Result<seq<Line>> {
    if rest.Err? then Err else Ok(lines + rest.value)
  }

  lemma PrependNothing(rest: Result<seq<Line>>)
    ensures Prepend([], rest) == rest
  {
    if rest.Ok? {
      assert [] + rest.value == rest.value;
    }
  }

  lemma PrependStep(lines: seq<Line>, line: Option<Line>, rest: Result<seq<Line>>)
    ensures var more := if line.Some? then [line.value] else [];
            Prepend(lines, Prepend(more, rest)) == Prepend(lines + more, rest) && lines + [] == lines
  {
    if rest.Ok? {
      var more := if line.Some? then [line.value] else [];
      assert lines + (more + rest.value) == (lines + more) + rest.value;
    }
  }

  method ReadDocument(text: string, floats: FloatReader) returns (r: Result<Value>)
    ensures r == Loads(text, floats)
  {
    var lexed := LexDocument(SplitLines(text));
    if lexed.Err? || lexed.value == [] || lexed.value[0].indent != 0 {
      return Err;
    }
    var lines := lexed.value;
    var root := Block(lines, 0, 0, floats);
    assert lines[0..] == lines;
    if root.Err? || root.value.1 != |lines| || !root.value.0.Map? {
      return Err;
    }
    return Ok(root.value.0);
  }

  // ----- the printer -----

  function RawLines(rows: seq<Row>): (raws: seq<string>)
    requires RowsPrint(rows)
    ensures |raws| == |rows| && forall i :: 0 <= i < |rows| ==> raws[i] == RawLine(rows[i])
  {
    if rows == [] then [] else [RawLine(rows[0])] + RawLines(rows[1..])
  }

  lemma RawLinesConcat(a: seq<Row>, b: seq<Row>)
    requires RowsPrint(a) && RowsPrint(b)
    ensures RowsPrint(a + b) && RawLines(a + b) == RawLines(a) + RawLines(b)
  {
  }

  /** The lines of a mapping's entries, laid out at `indent`. */
  function FieldLines(fields: seq<Field>, indent: nat): seq<string> {
    EntriesPrint(fields, indent);
    RawLines(EntriesRows(EntriesOf(fields), indent))
  }

  function ListLines(items: seq<Value>, indent: nat): seq<string> {
    ItemsPrint(items, indent);
    RawLines(ItemsRows(NodesOf(items), indent))
  }

  /** The lines `emit` appends for a mapping or a list. */
  function EmittedLines(item: Value, indent: nat): seq<string> {
    match item
    case Map(fields) => FieldLines(fields, indent)
    case List(items) => ListLines(items, indent)
    case _ => []
  }

  function FieldText(field: Field, indent: nat): seq<string> {
    if OneLine(field.value) then [Spaces(indent) + field.key + ": " + ScalarText(field.value)]
    else [Spaces(indent) + field.key + ":"] + EmittedLines(field.value, indent + 2)
  }

  lemma FieldLinesCons(field: Field, rest: seq<Field>, indent: nat)
    ensures FieldLines([field] + rest, indent) == FieldText(field, indent) + FieldLines(rest, indent)
  {
    var fields := [field] + rest;
    var entry := Entry(field.key, TreeOf(field.value));
    assert fields[1..] == rest && EntriesOf(fields) == [entry] + EntriesOf(rest);
    assert ([entry] + EntriesOf(rest))[1..] == EntriesOf(rest);
    EntryText(field, indent);
    EntriesPrint(rest, indent);
    EntriesPrint(fields, indent);
    RawLinesConcat(EntryRows(entry, indent), EntriesRows(EntriesOf(rest), indent));
  }

  lemma EntryText(field: Field, indent: nat)
    ensures var rows := EntryRows(Entry(field.key, TreeOf(field.value)), indent);
            RowsPrint(rows) && RawLines(rows) == FieldText(field, indent)
  {
    var rows := EntryRows(Entry(field.key, TreeOf(field.value)), indent);
    var head := rows[0];
    assert RowPrints(head);
    assert RowText(head.item) == BodyText(head.item);
    if OneLine(field.value) {
      assert RawLine(head) == Spaces(indent) + field.key + ": " + ScalarText(field.value);
      assert rows[1..] == [];
    } else {
      var tail := BlockRows(TreeOf(field.value), indent + 2);
      TreePrints(field.value, indent + 2);
      assert [head][1..] == [];
      RawLinesConcat([head], tail);
      assert rows == [head] + tail;
      assert RawLine(head) == Spaces(indent) + field.key + ":";
      assert RawLines([head]) == [RawLine(head)];
      assert RawLines(tail) == EmittedLines(field.value, indent + 2);
    }
  }

  /** A nested mapping's lines with the dash patched into the first. */
  function DashFirstLine(lines: seq<string>, indent: nat): seq<string>
    requires lines != [] && indent + 2 <= |lines[0]|
  {
    lines[0 := Spaces(indent) + "- " + lines[0][indent + 2..]]
  }

  function ItemText(item: Value, indent: nat): seq<string>
    requires !item.List? && item != Map([])
  {
    if item.Map? then
      FirstLineIndented(item.fields, indent + 2);
      DashFirstLine(FieldLines(item.fields, indent + 2), indent)
    else [Spaces(indent) + "- " + ScalarText(item)]
  }

  lemma FirstLineIndented(fields: seq<Field>, indent: nat)
    requires fields != []
    ensures FieldLines(fields, indent) != [] && Spaces(indent) <= FieldLines(fields, indent)[0]
  {
    assert [fields[0]] + fields[1..] == fields;
    FieldLinesCons(fields[0], fields[1..], indent);
    var line := FieldText(fields[0], indent)[0];
    assert line[..indent] == Spaces(indent);
  }

  lemma ListLinesCons(item: Value, rest: seq<Value>, indent: nat)
    requires !item.List? && item != Map([])
    ensures ListLines([item] + rest, indent) == ItemText(item, indent) + ListLines(rest, indent)
  {
    var items := [item] + rest;
    assert items[1..] == rest && NodesOf(items) == [TreeOf(item)] + NodesOf(rest);
    assert ([TreeOf(item)] + NodesOf(rest))[1..] == NodesOf(rest);
    ItemRowText(item, indent);
    ItemsPrint(rest, indent);
    ItemsPrint(items, indent);
    RawLinesConcat(ItemRows(TreeOf(item), indent), ItemsRows(NodesOf(rest), indent));
  }

  lemma ItemRowText(item: Value, indent: nat)
    requires !item.List? && item != Map([])
    ensures RowsPrint(ItemRows(TreeOf(item), indent))
            && RawLines(ItemRows(TreeOf(item), indent)) == ItemText(item, indent)
  {
    var rows := ItemRows(TreeOf(item), indent);
    if item.Map? {
      EntriesPrint(item.fields, indent + 2);
      FirstEntryRow(EntriesOf(item.fields), indent + 2);
      DashText(EntriesRows(EntriesOf(item.fields), indent + 2), indent);
    } else {
      assert rows[1..] == [];
      assert RawLine(rows[0]) == Spaces(indent) + "- " + ScalarText(item);
    }
  }

  lemma DashRaw(row: Row, indent: nat)
    requires RowPrints(row) && row.indent == indent + 2 && !row.item.dash
    ensures |RawLine(row)| >= indent + 2
    ensures RawLine(Row(indent, row.item.(dash := true))) == Spaces(indent) + "- " + RawLine(row)[indent + 2..]
  {
    var text := RowText(row.item);
    assert text == BodyText(row.item) && RawLine(row)[indent + 2..] == text;
    assert RowText(row.item.(dash := true)) == "- " + text;
  }

  lemma DashText(rows: seq<Row>, indent: nat)
    requires RowsPrint(rows) && rows != [] && rows[0].indent == indent + 2 && !rows[0].item.dash
    ensures indent + 2 <= |RawLines(rows)[0]|
    ensures RowsPrint(WithDash(rows, indent))
            && RawLines(WithDash(rows, indent)) == DashFirstLine(RawLines(rows), indent)
  {
    DashRaw(rows[0], indent);
    var dashed := Row(indent, rows[0].item.(dash := true));
    assert RowPrints(rows[0]) && RowPrints(dashed);
    assert [dashed][1..] == [];
    RawLinesConcat([dashed], rows[1..]);
    RawLinesConcat([rows[0]], rows[1..]);
    assert [rows[0]] + rows[1..] == rows;
  }

  lemma Regroup<T>(a: seq<T>, b: seq<T>, c: seq<T>)
    ensures (a + b) + c == a + (b + c)
  {
  }

  lemma FieldsStep(fields: seq<Field>, i: nat, indent: nat)
    requires i < |fields|
    ensures FieldLines(fields[i..], indent) == FieldText(fields[i], indent) + FieldLines(fields[i + 1..], indent)
    ensures FieldsPrintable(fields[i..])
         == (SafeKey(fields[i].key) && Printable(fields[i].value) && FieldsPrintable(fields[i + 1..]))
  {
    assert fields[i..] == [fields[i]] + fields[i + 1..] && fields[i..][1..] == fields[i + 1..];
    FieldLinesCons(fields[i], fields[i + 1..], indent);
  }

  lemma ListStep(items: seq<Value>, i: nat, indent: nat)
    requires i < |items|
    ensures !items[i].List? && items[i] != Map([]) ==>
              ListLines(items[i..], indent) == ItemText(items[i], indent) + ListLines(items[i + 1..], indent)
    ensures ItemsPrintable(items[i..])
         == (!items[i].List? && items[i] != Map([]) && Printable(items[i]) && ItemsPrintable(items[i + 1..]))
  {
    assert items[i..] == [items[i]] + items[i + 1..] && items[i..][1..] == items[i + 1..];
    if !items[i].List? && items[i] != Map([]) {
      ListLinesCons(items[i], items[i + 1..], indent);
    }
  }

  /** The line buffer that `emit` appends to, and patches when it puts a dash in front of a nested mapping. */
  class Emitter {
    var lines: seq<string>

    constructor ()
      ensures lines == []
    {
      lines := [];
    }

    method EmitField(field: Field, indent: nat) returns (ok: bool)
      modifies this
      ensures ok == (SafeKey(field.key) && Printable(field.value))
      ensures ok ==> lines == old(lines) + FieldText(field, indent)
      decreases field, 0
    {
      if !SafeKey(field.key) {
        return false;
      }
      var prefix := Spaces(indent);
      if OneLine(field.value) {
        lines := lines + [prefix + field.key + ": " + ScalarText(field.value)];
        return true;
      }
      var head := [prefix + field.key + ":"];
      lines := lines + head;
      ok := Emit(field.value, indent + 2);
      Regroup(old(lines), head, EmittedLines(field.value, indent + 2));
    }

    method EmitItem(item: Value, indent: nat) returns (ok: bool)
      modifies this
      ensures ok == (!item.List? && item != Map([]) && Printable(item))
      ensures ok ==> lines == old(lines) + ItemText(item, indent)
      decreases item, 3
    {
      if item.List? || item == Map([]) {
        return false;
      }
      if !item.Map? {
        lines := lines + [Spaces(indent) + "- " + ScalarText(item)];
        return true;
      }
      var start := |lines|;
      ok := Emit(item, indent + 2);
      if ok {
        FirstLineIndented(item.fields, indent + 2);
        assert lines[start] == FieldLines(item.fields, indent + 2)[0];
        lines := lines[start := Spaces(indent) + "- " + lines[start][indent + 2..]];
      }
    }

    method Emit(item: Value, indent: nat) returns (ok: bool)
      requires item.Map? || item.List?
      modifies this
      ensures ok == Printable(item)
      ensures ok ==> lines == old(lines) + EmittedLines(item, indent)
      decreases item, 2
    {
      if item.Map? {
        ok := EmitFields(item.fields, indent);
      } else {
        ok := EmitItems(item.items, indent);
      }
    }

    method EmitFields(fields: seq<Field>, indent: nat) returns (ok: bool)
      modifies this
      ensures ok == FieldsPrintable(fields)
      ensures ok ==> lines == old(lines) + FieldLines(fields, indent)
      decreases fields, 1
    {
      assert fields[0..] == fields && fields[|fields|..] == [];
      ghost var target := lines + FieldLines(fields, indent);
      for i := 0 to |fields|
        invariant FieldsPrintable(fields) == FieldsPrintable(fields[i..])
        invariant target == lines + FieldLines(fields[i..], indent)
      {
        FieldsStep(fields, i, indent);
        Regroup(lines, FieldText(fields[i], indent), FieldLines(fields[i + 1..], indent));
        ok := EmitField(fields[i], indent);
        if !ok {
          return;
        }
      }
      assert target == lines + [];
      ok := true;
    }

    method EmitItems(items: seq<Value>, indent: nat) returns (ok: bool)
      modifies this
      ensures ok == ItemsPrintable(items)
      ensures ok ==> lines == old(lines) + ListLines(items, indent)
      decreases items, 1
    {
      assert items[0..] == items && items[|items|..] == [];
      ghost var target := lines + ListLines(items, indent);
      for i := 0 to |items|
        invariant ItemsPrintable(items) == ItemsPrintable(items[i..])
        invariant target == lines + ListLines(items[i..], indent)
      {
        ListStep(items, i, indent);
        if !items[i].List? && items[i] != Map([]) {
          Regroup(lines, ItemText(items[i], indent), ListLines(items[i + 1..], indent));
        }
        ok := EmitItem(items[i], indent);
        if !ok {
          return;
        }
      }
      assert target == lines + [];
      ok := true;
    }
  }

  /** Python's `"\n".join(lines)`. */
  function Joined(lines: seq<string>): string {
    if lines == [] then "" else if |lines| == 1 then lines[0] else lines[0] + "\n" + Joined(lines[1..])
  }

  lemma {:induction false} JoinedRender(rows: seq<Row>)
    requires RowsPrint(rows) && rows != []
    ensures Joined(RawLines(rows)) + "\n" == Render(rows)
    decreases |rows|
  {
    var raws := RawLines(rows);
    if |rows| == 1 {
      assert Render(rows[1..]) == "";
    } else {
      assert raws[1..] == RawLines(rows[1..]);
      JoinedRender(rows[1..]);
      assert raws[0] + "\n" + (Joined(raws[1..]) + "\n") == (raws[0] + "\n" + Joined(raws[1..])) + "\n";
    }
  }

  lemma EmittedIsRendered(v: Value)
    requires Dumpable(v)
    ensures Dumps(v) == Ok(Joined(EmittedLines(v, 0)) + "\n")
  {
    TreePrints(v, 0);
    var rows := BlockRows(TreeOf(v), 0);
    if OneLine(v) {
      assert rows == [] && EmittedLines(v, 0) == [] && Joined([]) + "\n" == "\n";
    } else {
      assert EmittedLines(v, 0) == RawLines(rows);
      FirstTreeRow(v);
      JoinedRender(rows);
    }
  }

  lemma FirstTreeRow(v: Value)
    requires Dumpable(v) && !OneLine(v)
    ensures BlockRows(TreeOf(v), 0) != []
  {
    if v.Map? {
      FirstEntryRow(EntriesOf(v.fields), 0);
    } else {
      var first := v.items[0];
      assert ItemsPrintable(v.items);
      assert NodesOf(v.items)[0] == TreeOf(first);
      if first.Map? {
        FirstEntryRow(EntriesOf(first.fields), 2);
      }
      assert ItemRows(TreeOf(first), 0) != [];
    }
  }

  method PrintDocument(v: Value) returns (r: Result<string>)
    ensures r == Dumps(v)
  {
    if !v.Map? && !v.List? {
      return Err;
    }
    var emitter := new Emitter();
    var ok := emitter.Emit(v, 0);
    if !ok {
      return Err;
    }
    assert emitter.lines == EmittedLines(v, 0);
    EmittedIsRendered(v);
    return Ok(Joined(emitter.lines) + "\n");
  }
}
