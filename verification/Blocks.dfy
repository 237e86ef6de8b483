/**
 * The block structure of a document: what one line says, how lines nest, and that whatever is parsed is laid out by the
 * lines it was parsed from.
 */
module Blocks {
  import opened Results
  import opened Text
  import opened Values
  import opened Scalars

  /** A line after comments and indentation are taken off. Line numbers only serve messages. */
  datatype Line = Line(indent: nat, text: string)

  /** What was read, still showing which parts stood on one line. */
  datatype Node = Inline(value: Value) | Mapping(entries: seq<Entry>) | Sequence(items: seq<Node>)

  datatype Entry = Entry(key: string, node: Node)

  /** What one line says: a list dash, a key, a one-line value; a key without a value opens a nested block. */
  datatype Item = Item(dash: bool, key: Option<string>, payload: Option<Value>)

  datatype Row = Row(indent: nat, item: Item)

  // ----- keys -----

  predicate KeyChar(c: char) {
    'A' <= c <= 'Z' || 'a' <= c <= 'z' || '0' <= c <= '9' || c == '_' || c == '.' || c == '/' || c == '-'
  }

  predicate ParentStepAt(s: string, i: nat) {
    && i + 2 <= |s| && s[i] == '.' && s[i + 1] == '.'
    && (i == 0 || s[i - 1] == '/') && (i + 2 == |s| || s[i + 2] == '/')
  }

  predicate SafeKey(s: string) {
    && s != "" && (forall i :: 0 <= i < |s| ==> KeyChar(s[i]))
    && s[0] != '/' && s[|s| - 1] != '/'
    && (forall i :: 0 <= i < |s| ==> !ParentStepAt(s, i))
    && (forall i :: 0 < i < |s| ==> !(s[i - 1] == '/' && s[i] == '/'))
  }

  // ----- one line -----

  predicate Dashed(text: string) {
    |text| >= 2 && text[0] == '-' && text[1] == ' '
  }

  function KeyItem(dash: bool, key: string, raw: string, floats: FloatReader): Result<Item> {
    if !SafeKey(key) then Err
    else if raw == "" then Ok(Item(dash, Some(key), None))
    else var v :- Scalar(raw, floats); Ok(Item(dash, Some(key), Some(v)))
  }

  function Classify(text: string, floats: FloatReader): (r: Result<Item>)
    ensures r.Ok? ==> r.value.dash == Dashed(text) && (r.value.key.Some? || (r.value.dash && r.value.payload.Some?))
  {
    if Dashed(text) then
      var item := Strip(text[2..]);
      if item == "" then Err
      else
        match MappingParts(item)
        case Err => var v :- Scalar(item, floats); Ok(Item(true, None, Some(v)))
        case Ok(parts) => KeyItem(true, parts.0, parts.1, floats)
    else
      var parts :- MappingParts(text);
      KeyItem(false, parts.0, parts.1, floats)
  }

  // ----- nested blocks: `_Parser._block`, handing back the lines it leaves -----

  predicate HasKey(entries: seq<Entry>, key: string) {
    exists i :: 0 <= i < |entries| && entries[i].key == key
  }

  function ParseBlock(lines: seq<Line>, indent: nat, floats: FloatReader): (r: Result<(Node, seq<Line>)>)
    requires lines != [] && lines[0].indent == indent
    ensures r.Ok? ==> |r.value.1| < |lines|
    decreases |lines|, 2
  {
    if Dashed(lines[0].text) then
      var (items, rest) :- ParseItems(lines, indent, [], floats);
      Ok((Sequence(items), rest))
    else
      var (entries, rest) :- ParseEntries(lines, indent, [], floats);
      Ok((Mapping(entries), rest))
  }

  function ParseEntries(lines: seq<Line>, indent: nat, done: seq<Entry>, floats: FloatReader)
    : (r: Result<(seq<Entry>, seq<Line>)>)
    ensures r.Ok? ==> |r.value.1| <= |lines|
    ensures r.Ok? && lines != [] && lines[0].indent == indent && !Dashed(lines[0].text) ==> |r.value.1| < |lines|
    decreases |lines|, 1
  {
    if lines == [] || lines[0].indent < indent then Ok((done, lines))
    else if lines[0].indent > indent then Err
    else if Dashed(lines[0].text) then Ok((done, lines))
    else
      var item :- Classify(lines[0].text, floats);
      if HasKey(done, item.key.value) then Err
      else
        var (node, rest) :- ParseValue(item.payload, lines[1..], indent + 2, floats);
        ParseEntries(rest, indent, done + [Entry(item.key.value, node)], floats)
  }

  /** The value of a key: what its line held, or the block nested below it at exactly `indent`. */
  function ParseValue(payload: Option<Value>, lines: seq<Line>, indent: nat, floats: FloatReader)
    : (r: Result<(Node, seq<Line>)>)
    ensures r.Ok? ==> |r.value.1| <= |lines|
    decreases |lines|, 3
  {
    match payload
    case Some(v) => Ok((Inline(v), lines))
    case None => if lines == [] || lines[0].indent != indent then Err else ParseBlock(lines, indent, floats)
  }

  function ParseItems(lines: seq<Line>, indent: nat, done: seq<Node>, floats: FloatReader)
    : (r: Result<(seq<Node>, seq<Line>)>)
    ensures r.Ok? ==> |r.value.1| <= |lines|
    ensures r.Ok? && lines != [] && lines[0].indent == indent && Dashed(lines[0].text) ==> |r.value.1| < |lines|
    decreases |lines|, 1
  {
    if lines == [] || lines[0].indent < indent then Ok((done, lines))
    else if lines[0].indent > indent then Err
    else if !Dashed(lines[0].text) then Ok((done, lines))
    else
      var (node, rest) :- ParseItem(lines, indent, floats);
      ParseItems(rest, indent, done + [node], floats)
  }

  function ParseItem(lines: seq<Line>, indent: nat, floats: FloatReader): (r: Result<(Node, seq<Line>)>)
    requires lines != [] && Dashed(lines[0].text)
    ensures r.Ok? ==> |r.value.1| < |lines|
    decreases |lines|, 0
  {
    var item :- Classify(lines[0].text, floats);
    if item.key.None? then Ok((Inline(item.payload.value), lines[1..]))
    else
      var (node, rest) :- ParseValue(item.payload, lines[1..], indent + 4, floats);
      ParseMore(Entry(item.key.value, node), rest, indent + 2, floats)
  }

  /** The rest of a mapping whose first entry stood behind a list dash. */
  function ParseMore(first: Entry, lines: seq<Line>, indent: nat, floats: FloatReader): (r: Result<(Node, seq<Line>)>)
    ensures r.Ok? ==> |r.value.1| <= |lines|
    decreases |lines|, 3
  {
    if lines != [] && lines[0].indent == indent then
      var (more, rest) :- ParseBlock(lines, indent, floats);
      if !more.Mapping? || HasKey(more.entries, first.key) then Err
      else Ok((Mapping([first] + more.entries), rest))
    else Ok((Mapping([first]), lines))
  }

  function ParseLines(lines: seq<Line>, floats: FloatReader): Result<Node> {
    if lines == [] || lines[0].indent != 0 then Err
    else
      var (node, rest) :- ParseBlock(lines, 0, floats);
      if rest == [] then Ok(node) else Err
  }

  // ----- the layout of a tree: one row per entry and per scalar list item, in document order -----

  function BlockRows(node: Node, indent: nat): seq<Row>
    decreases node, 1
  {
    match node
    case Inline(_) => []
    case Mapping(entries) => EntriesRows(entries, indent)
    case Sequence(items) => ItemsRows(items, indent)
  }

  function EntryRows(entry: Entry, indent: nat): seq<Row>
    decreases entry, 0
  {
    match entry.node
    case Inline(v) => [Row(indent, Item(false, Some(entry.key), Some(v)))]
    case _ => [Row(indent, Item(false, Some(entry.key), None))] + BlockRows(entry.node, indent + 2)
  }

  function EntriesRows(entries: seq<Entry>, indent: nat): seq<Row>
    decreases entries, 0
  {
    if entries == [] then [] else EntryRows(entries[0], indent) + EntriesRows(entries[1..], indent)
  }

  /** A mapping inside a list stands two columns further in, with a dash in front of its first row. */
  function ItemRows(node: Node, indent: nat): seq<Row>
    decreases node, 2
  {
    match node
    case Inline(v) => [Row(indent, Item(true, None, Some(v)))]
    case Mapping(entries) => WithDash(EntriesRows(entries, indent + 2), indent)
    case Sequence(_) => []
  }

  function WithDash(rows: seq<Row>, indent: nat): seq<Row> {
    if rows == [] then [] else [Row(indent, rows[0].item.(dash := true))] + rows[1..]
  }

  /** The rows of the entry behind a list dash. */
  function DashedRows(first: Entry, indent: nat): seq<Row> {
    WithDash(EntryRows(first, indent + 2), indent)
  }

  function ItemsRows(items: seq<Node>, indent: nat): seq<Row>
    decreases items, 0
  {
    if items == [] then [] else ItemRows(items[0], indent) + ItemsRows(items[1..], indent)
  }

  /** Distinct keys, no empty block, and lists that hold scalars and mappings but no lists. */
  predicate WellFormed(node: Node)
    decreases node, 1
  {
    match node
    case Inline(_) => true
    case Mapping(entries) => entries != [] && DistinctKeys(entries) && EntriesWellFormed(entries)
    case Sequence(items) => items != [] && ItemsWellFormed(items)
  }

  predicate DistinctKeys(entries: seq<Entry>) {
    forall i, j :: 0 <= i < j < |entries| ==> entries[i].key != entries[j].key
  }

  predicate EntriesWellFormed(entries: seq<Entry>)
    decreases entries, 0
  {
    entries == [] || (WellFormed(entries[0].node) && EntriesWellFormed(entries[1..]))
  }

  predicate ItemsWellFormed(items: seq<Node>)
    decreases items, 0
  {
    items == [] || (!items[0].Sequence? && WellFormed(items[0]) && ItemsWellFormed(items[1..]))
  }

  // ----- which lines a layout describes -----

  ghost predicate Says(line: Line, row: Row, floats: FloatReader) {
    line.indent == row.indent && Classify(line.text, floats) == Ok(row.item)
  }

  /** The lines in front of `rest` are exactly those that `rows` describes, one each, in order. */
  ghost predicate Spans(lines: seq<Line>, rest: seq<Line>, rows: seq<Row>, floats: FloatReader) {
    && |lines| == |rows| + |rest|
    && lines[|rows|..] == rest
    && forall i :: 0 <= i < |rows| ==> Says(lines[i], rows[i], floats)
  }

  lemma SpansJoin(a: seq<Line>, b: seq<Line>, c: seq<Line>, r: seq<Row>, s: seq<Row>, floats: FloatReader)
    requires Spans(a, b, r, floats) && Spans(b, c, s, floats)
    ensures Spans(a, c, r + s, floats)
  {
    forall i | 0 <= i < |r + s|
      ensures Says(a[i], (r + s)[i], floats)
    {
      if i >= |r| {
        assert a[i] == b[i - |r|];
      }
    }
    assert a[|r + s|..] == b[|s|..];
  }

  lemma SpansSplit(a: seq<Line>, c: seq<Line>, r: seq<Row>, s: seq<Row>, floats: FloatReader)
    requires Spans(a, c, r + s, floats)
    ensures Spans(a, a[|r|..], r, floats) && Spans(a[|r|..], c, s, floats)
  {
    var b := a[|r|..];
    forall i | 0 <= i < |r|
      ensures Says(a[i], r[i], floats)
    {
      assert (r + s)[i] == r[i];
    }
    forall i | 0 <= i < |s|
      ensures Says(b[i], s[i], floats)
    {
      assert (r + s)[|r| + i] == s[i] && b[i] == a[|r| + i];
    }
    assert b[|s|..] == a[|r + s|..];
  }

  lemma SpansFirst(lines: seq<Line>, row: Row, floats: FloatReader)
    requires lines != [] && Says(lines[0], row, floats)
    ensures Spans(lines, lines[1..], [row], floats)
  {
  }

  // ----- what the parser accepts it lays out exactly -----

  lemma {:induction false} BlockSound(lines: seq<Line>, indent: nat, floats: FloatReader)
    requires lines != [] && lines[0].indent == indent && ParseBlock(lines, indent, floats).Ok?
    ensures var (node, rest) := ParseBlock(lines, indent, floats).value;
            WellFormed(node) && !node.Inline? && Spans(lines, rest, BlockRows(node, indent), floats)
    decreases |lines|, 3
  {
    if Dashed(lines[0].text) {
      ItemsSound(lines, indent, [], floats);
    } else {
      EntriesSound(lines, indent, [], floats);
      EntriesDistinct(lines, indent, [], floats);
      var entries := ParseEntries(lines, indent, [], floats).value.0;
      assert entries[0..] == entries;
    }
  }

  lemma {:induction false} ValueSound(
    key: string, payload: Option<Value>, lines: seq<Line>, indent: nat, floats: FloatReader)
    requires indent >= 2 && ParseValue(payload, lines, indent, floats).Ok?
    ensures var (node, rest) := ParseValue(payload, lines, indent, floats).value;
            && WellFormed(node)
            && EntryRows(Entry(key, node), indent - 2)
               == [Row(indent - 2, Item(false, Some(key), payload))] + EntryRows(Entry(key, node), indent - 2)[1..]
            && Spans(lines, rest, EntryRows(Entry(key, node), indent - 2)[1..], floats)
    decreases |lines|, 4
  {
    if payload.None? {
      BlockSound(lines, indent, floats);
      var node := ParseBlock(lines, indent, floats).value.0;
      assert EntryRows(Entry(key, node), indent - 2)[1..] == BlockRows(node, indent);
    }
  }

  lemma {:induction false} EntriesSound(lines: seq<Line>, indent: nat, done: seq<Entry>, floats: FloatReader)
    requires ParseEntries(lines, indent, done, floats).Ok?
    ensures var (entries, rest) := ParseEntries(lines, indent, done, floats).value;
            && |done| <= |entries| && entries[..|done|] == done
            && EntriesWellFormed(entries[|done|..])
            && Spans(lines, rest, EntriesRows(entries[|done|..], indent), floats)
            && (|rest| < |lines| ==> |done| < |entries|)
    decreases |lines|, 1
  {
    if lines != [] && lines[0].indent == indent && !Dashed(lines[0].text) {
      var item := Classify(lines[0].text, floats).value;
      var key := item.key.value;
      var (node, middle) := ParseValue(item.payload, lines[1..], indent + 2, floats).value;
      var entry := Entry(key, node);
      FirstEntrySound(lines, item, indent, entry, middle, floats);
      var next := done + [entry];
      EntriesSound(middle, indent, next, floats);
      var (entries, rest) := ParseEntries(middle, indent, next, floats).value;
      AfterOne(entries, done, entry);
      SpansJoin(lines, middle, rest, EntryRows(entry, indent), EntriesRows(entries[|next|..], indent), floats);
    }
  }

  lemma {:induction false} FirstEntrySound(
    lines: seq<Line>, item: Item, indent: nat, entry: Entry, middle: seq<Line>, floats: FloatReader)
    requires lines != [] && Says(lines[0], Row(indent, item), floats)
            && item == Item(false, Some(entry.key), item.payload)
    requires ParseValue(item.payload, lines[1..], indent + 2, floats) == Ok((entry.node, middle))
    ensures WellFormed(entry.node) && Spans(lines, middle, EntryRows(entry, indent), floats)
    decreases |lines|, 0
  {
    ValueSound(entry.key, item.payload, lines[1..], indent + 2, floats);
    SpansFirst(lines, Row(indent, item), floats);
    SpansJoin(lines, lines[1..], middle, [Row(indent, item)], EntryRows(entry, indent)[1..], floats);
  }

  lemma {:induction false} EntriesDistinct(lines: seq<Line>, indent: nat, done: seq<Entry>, floats: FloatReader)
    requires ParseEntries(lines, indent, done, floats).Ok? && DistinctKeys(done)
    ensures DistinctKeys(ParseEntries(lines, indent, done, floats).value.0)
    decreases |lines|
  {
    if lines != [] && lines[0].indent == indent && !Dashed(lines[0].text) {
      var item := Classify(lines[0].text, floats).value;
      var (node, middle) := ParseValue(item.payload, lines[1..], indent + 2, floats).value;
      EntriesDistinct(middle, indent, done + [Entry(item.key.value, node)], floats);
    }
  }

  lemma AfterOne<T>(all: seq<T>, done: seq<T>, x: T)
    requires |done| < |all| && all[..|done| + 1] == done + [x]
    ensures all[..|done|] == done && all[|done|..] == [x] + all[|done| + 1..]
    ensures all[|done|..][0] == x && all[|done|..][1..] == all[|done| + 1..]
  {
    assert all[..|done|] == all[..|done| + 1][..|done|];
    assert all[|done|] == all[..|done| + 1][|done|];
  }

  lemma {:induction false} ItemSound(lines: seq<Line>, indent: nat, floats: FloatReader)
    requires lines != [] && lines[0].indent == indent && Dashed(lines[0].text)
    requires ParseItem(lines, indent, floats).Ok?
    ensures var (node, rest) := ParseItem(lines, indent, floats).value;
            !node.Sequence? && WellFormed(node) && Spans(lines, rest, ItemRows(node, indent), floats)
    decreases |lines|, 1
  {
    var item := Classify(lines[0].text, floats).value;
    if item.key.None? {
      SpansFirst(lines, Row(indent, item), floats);
    } else {
      var (node, middle) := ParseValue(item.payload, lines[1..], indent + 4, floats).value;
      var first := Entry(item.key.value, node);
      var (whole, rest) := ParseMore(first, middle, indent + 2, floats).value;
      assert ParseItem(lines, indent, floats) == Ok((whole, rest));
      DashedSound(lines, item, indent, first, middle, floats);
      var more := MoreSound(first, middle, indent + 2, floats);
      SpansJoin(lines, middle, rest, DashedRows(first, indent), EntriesRows(more, indent + 2), floats);
      DashFirst(first, more, indent);
    }
  }

  lemma {:induction false} MoreSound(first: Entry, lines: seq<Line>, indent: nat, floats: FloatReader)
    returns (more: seq<Entry>)
    requires ParseMore(first, lines, indent, floats).Ok?
    ensures (more == [] || WellFormed(Mapping(more))) && !HasKey(more, first.key)
    ensures var (node, rest) := ParseMore(first, lines, indent, floats).value;
            node == Mapping([first] + more) && Spans(lines, rest, EntriesRows(more, indent), floats)
    decreases |lines|, 4
  {
    if lines != [] && lines[0].indent == indent {
      BlockSound(lines, indent, floats);
      more := ParseBlock(lines, indent, floats).value.0.entries;
    } else {
      more := [];
      assert [first] + more == [first];
    }
  }

  lemma {:induction false} DashedSound(
    lines: seq<Line>, item: Item, indent: nat, first: Entry, middle: seq<Line>, floats: FloatReader)
    requires lines != [] && Says(lines[0], Row(indent, item), floats)
            && item == Item(true, Some(first.key), item.payload)
    requires ParseValue(item.payload, lines[1..], indent + 4, floats) == Ok((first.node, middle))
    ensures WellFormed(first.node) && Spans(lines, middle, DashedRows(first, indent), floats)
    decreases |lines|, 0
  {
    var rows := EntryRows(first, indent + 2);
    ValueSound(first.key, item.payload, lines[1..], indent + 4, floats);
    SpansFirst(lines, Row(indent, item), floats);
    SpansJoin(lines, lines[1..], middle, [Row(indent, item)], rows[1..], floats);
    assert DashedRows(first, indent) == [Row(indent, item)] + rows[1..];
  }

  lemma DashFirst(first: Entry, more: seq<Entry>, indent: nat)
    requires WellFormed(first.node) && (more == [] || WellFormed(Mapping(more))) && !HasKey(more, first.key)
    ensures WellFormed(Mapping([first] + more))
    ensures ItemRows(Mapping([first] + more), indent) == DashedRows(first, indent) + EntriesRows(more, indent + 2)
  {
    var all := [first] + more;
    assert all[0] == first && all[1..] == more;
    assert EntriesRows(all, indent + 2) == EntryRows(first, indent + 2) + EntriesRows(more, indent + 2);
  }

  lemma {:induction false} ItemsSound(lines: seq<Line>, indent: nat, done: seq<Node>, floats: FloatReader)
    requires ParseItems(lines, indent, done, floats).Ok?
    ensures var (items, rest) := ParseItems(lines, indent, done, floats).value;
            && |done| <= |items| && items[..|done|] == done
            && ItemsWellFormed(items[|done|..])
            && Spans(lines, rest, ItemsRows(items[|done|..], indent), floats)
            && (|rest| < |lines| ==> |done| < |items|)
    decreases |lines|, 2
  {
    if lines != [] && lines[0].indent == indent && Dashed(lines[0].text) {
      ItemSound(lines, indent, floats);
      var (node, middle) := ParseItem(lines, indent, floats).value;
      var next := done + [node];
      ItemsSound(middle, indent, next, floats);
      var (items, rest) := ParseItems(middle, indent, next, floats).value;
      AfterOne(items, done, node);
      SpansJoin(lines, middle, rest, ItemRows(node, indent), ItemsRows(items[|next|..], indent), floats);
    }
  }
}
