/**
 * Whole documents: reading text into a mapping, and the text a value prints as, as functions that the loops of the
 * program are proved to compute.
 */
module Documents {
  import opened Results
  import opened Text
  import opened Values
  import opened Scalars
  import opened Blocks

  // ----- reading -----

  /** Directives and document markers, which the subset forbids. */
  predicate Marked(text: string) {
    "---" <= text || "..." <= text || "%YAML" <= text || "%TAG" <= text
  }

  predicate HasTab(raw: string) {
    exists i :: 0 <= i < |raw| && raw[i] == '\t'
  }

  function SpaceRun(s: string): (n: nat)
    ensures n <= |s|
  {
    if s != "" && s[0] == ' ' then 1 + SpaceRun(s[1..]) else 0
  }

  /** One raw line: refused, blank, or a line with its indentation. */
  function LexLine(raw: string): Result<Option<Line>> {
    if HasTab(raw) then Err
    else
      var stripped :- CommentFree(raw);
      if Strip(stripped) == "" then Ok(None)
      else if Marked(LStrip(stripped)) || SpaceRun(stripped) % 2 != 0 then Err
      else Ok(Some(Line(SpaceRun(stripped), stripped[SpaceRun(stripped)..])))
  }

  function LexAll(raws: seq<string>): Result<seq<Line>> {
    if raws == [] then Ok([])
    else
      var first :- LexLine(raws[0]);
      var rest :- LexAll(raws[1..]);
      Ok((if first.Some? then [first.value] else []) + rest)
  }

  /** The value a tree stands for. */
  function ValueOf(node: Node): Value
    decreases node, 1
  {
    match node
    case Inline(v) => v
    case Mapping(entries) => Map(FieldsOf(entries))
    case Sequence(items) => List(ItemsOf(items))
  }

  function FieldsOf(entries: seq<Entry>): (fields: seq<Field>)
    ensures |fields| == |entries|
    decreases entries, 0
  {
    if entries == [] then [] else [Field(entries[0].key, ValueOf(entries[0].node))] + FieldsOf(entries[1..])
  }

  function ItemsOf(items: seq<Node>): (values: seq<Value>)
    ensures |values| == |items|
    decreases items, 0
  {
    if items == [] then [] else [ValueOf(items[0])] + ItemsOf(items[1..])
  }

  function LoadsTree(text: string, floats: FloatReader): Result<Node> {
    var lines :- LexAll(SplitLines(text));
    ParseLines(lines, floats)
  }

  /** `loads`: the root must be a mapping. */
  function Loads(text: string, floats: FloatReader): Result<Value> {
    var node :- LoadsTree(text, floats);
    if ValueOf(node).Map? then Ok(ValueOf(node)) else Err
  }

  // ----- printing -----

  /** A value Python can hold: keys are distinct and every float is the `repr` of one. */
  predicate Genuine(v: Value, floats: FloatReader)
    decreases v, 1
  {
    match v
    case Float(repr) => IsFloatRepr(repr) && (IsFloatToken(repr) ==> floats(repr) == repr)
    case List(items) => AllGenuine(items, floats)
    case Map(fields) => UniqueKeys(fields) && FieldsGenuine(fields, floats)
    case _ => true
  }

  predicate AllGenuine(items: seq<Value>, floats: FloatReader)
    decreases items, 0
  {
    items == [] || (Genuine(items[0], floats) && AllGenuine(items[1..], floats))
  }

  predicate FieldsGenuine(fields: seq<Field>, floats: FloatReader)
    decreases fields, 0
  {
    fields == [] || (Genuine(fields[0].value, floats) && FieldsGenuine(fields[1..], floats))
  }

  /** What `dumps` accepts below the root: safe keys; lists of scalars and of non-empty mappings only. */
  predicate Printable(v: Value)
    decreases v, 1
  {
    match v
    case List(items) => ItemsPrintable(items)
    case Map(fields) => FieldsPrintable(fields)
    case _ => true
  }

  predicate ItemsPrintable(items: seq<Value>)
    decreases items, 0
  {
    items == [] || (!items[0].List? && items[0] != Map([]) && Printable(items[0]) && ItemsPrintable(items[1..]))
  }

  predicate FieldsPrintable(fields: seq<Field>)
    decreases fields, 0
  {
    fields == [] || (SafeKey(fields[0].key) && Printable(fields[0].value) && FieldsPrintable(fields[1..]))
  }

  /** The tree `dumps` lays out: anything that fits on one line is inline. */
  function TreeOf(v: Value): Node
    decreases v, 1
  {
    if OneLine(v) then Inline(v)
    else match v
      case Map(fields) => Mapping(EntriesOf(fields))
      case List(items) => Sequence(NodesOf(items))
  }

  function EntriesOf(fields: seq<Field>): (entries: seq<Entry>)
    ensures |entries| == |fields|
    decreases fields, 0
  {
    if fields == [] then [] else [Entry(fields[0].key, TreeOf(fields[0].value))] + EntriesOf(fields[1..])
  }

  function NodesOf(items: seq<Value>): (nodes: seq<Node>)
    ensures |nodes| == |items|
    decreases items, 0
  {
    if items == [] then [] else [TreeOf(items[0])] + NodesOf(items[1..])
  }

  function Spaces(n: nat): string {
    seq(n, _ => ' ')
  }

  function BodyText(item: Item): string
    requires item.payload.Some? ==> OneLine(item.payload.value)
    requires item.key.Some? || item.payload.Some?
  {
    match item.key
    case None => ScalarText(item.payload.value)
    case Some(key) => if item.payload.None? then key + ":" else key + ": " + ScalarText(item.payload.value)
  }

  predicate RowPrints(row: Row) {
    && (row.item.payload.Some? ==> OneLine(row.item.payload.value))
    && (row.item.key.Some? || row.item.payload.Some?)
  }

  function RowText(item: Item): string
    requires RowPrints(Row(0, item))
  {
    (if item.dash then "- " else "") + BodyText(item)
  }

  function RawLine(row: Row): string
    requires RowPrints(row)
  {
    Spaces(row.indent) + RowText(row.item)
  }

  predicate RowsPrint(rows: seq<Row>) {
    forall i :: 0 <= i < |rows| ==> RowPrints(rows[i])
  }

  function Render(rows: seq<Row>): string
    requires RowsPrint(rows)
  {
    if rows == [] then "" else RawLine(rows[0]) + "\n" + Render(rows[1..])
  }

  predicate Dumpable(v: Value) {
    (v.Map? || v.List?) && Printable(v)
  }

  lemma {:induction false} RowsPrintConcat(a: seq<Row>, b: seq<Row>)
    requires RowsPrint(a) && RowsPrint(b)
    ensures RowsPrint(a + b) && Render(a + b) == Render(a) + Render(b)
    decreases |a|
  {
    if a == [] {
      assert a + b == b;
    } else {
      assert (a + b)[1..] == a[1..] + b && (a + b)[0] == a[0];
      RowsPrintConcat(a[1..], b);
    }
  }

  lemma {:induction false} TreePrints(v: Value, indent: nat)
    ensures RowsPrint(BlockRows(TreeOf(v), indent))
    decreases v, 1
  {
    if !OneLine(v) {
      match v
      case Map(fields) => EntriesPrint(fields, indent);
      case List(items) => ItemsPrint(items, indent);
    }
  }

  lemma {:induction false} EntriesPrint(fields: seq<Field>, indent: nat)
    ensures RowsPrint(EntriesRows(EntriesOf(fields), indent))
    decreases fields, 0
  {
    if fields != [] {
      TreePrints(fields[0].value, indent + 2);
      EntriesPrint(fields[1..], indent);
      var entry := EntriesOf(fields)[0];
      assert EntriesOf(fields)[1..] == EntriesOf(fields[1..]);
      assert RowsPrint(EntryRows(entry, indent));
    }
  }

  lemma {:induction false} ItemsPrint(items: seq<Value>, indent: nat)
    ensures RowsPrint(ItemsRows(NodesOf(items), indent))
    decreases items, 0
  {
    if items != [] {
      if items[0].Map? {
        EntriesPrint(items[0].fields, indent + 2);
      }
      ItemsPrint(items[1..], indent);
      assert NodesOf(items)[1..] == NodesOf(items[1..]);
    }
  }

  /**
   * `dumps`: refused, or the lines of the layout each followed by a line feed; a value with no lines is one line feed.
   */
  function Dumps(v: Value): Result<string> {
    if !Dumpable(v) then Err
    else
      TreePrints(v, 0);
      var rows := BlockRows(TreeOf(v), 0);
      Ok(if rows == [] then "\n" else Render(rows))
  }
}
