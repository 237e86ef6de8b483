/** The round trip of whole values: `loads(dumps(v))`. */
module Reloading {
  import opened Results
  import opened Text
  import opened Values
  import opened Scalars
  import opened Blocks
  import opened Grammar
  import opened Documents
  import opened RoundTrip

  // ----- what reading back changes -----

  function RereadNode(node: Node, floats: FloatReader): Node
    decreases node, 1
  {
    match node
    case Inline(v) => if OneLine(v) then Inline(RereadOneLine(v, floats)) else node
    case Mapping(entries) => Mapping(RereadEntries(entries, floats))
    case Sequence(items) => Sequence(RereadItems(items, floats))
  }

  function RereadEntries(entries: seq<Entry>, floats: FloatReader): (r: seq<Entry>)
    ensures |r| == |entries| && forall i :: 0 <= i < |r| ==> r[i].key == entries[i].key
    decreases entries, 0
  {
    if entries == [] then []
    else [Entry(entries[0].key, RereadNode(entries[0].node, floats))] + RereadEntries(entries[1..], floats)
  }

  function RereadItems(items: seq<Node>, floats: FloatReader): (r: seq<Node>)
    ensures |r| == |items|
    decreases items, 0
  {
    if items == [] then [] else [RereadNode(items[0], floats)] + RereadItems(items[1..], floats)
  }

  function RereadRow(row: Row, floats: FloatReader): Row
    requires RowPrints(row)
  {
    Row(row.indent, RereadItem(row.item, floats))
  }

  function RereadRows(rows: seq<Row>, floats: FloatReader): (r: seq<Row>)
    requires RowsPrint(rows)
    ensures |r| == |rows| && forall i :: 0 <= i < |r| ==> r[i] == RereadRow(rows[i], floats)
  {
    if rows == [] then [] else [RereadRow(rows[0], floats)] + RereadRows(rows[1..], floats)
  }

  lemma RereadConcat(a: seq<Row>, b: seq<Row>, floats: FloatReader)
    requires RowsPrint(a) && RowsPrint(b)
    ensures RowsPrint(a + b) && RereadRows(a + b, floats) == RereadRows(a, floats) + RereadRows(b, floats)
  {
  }

  /** Laying out and reading back commute. */
  lemma {:induction false} RowsReread(node: Node, indent: nat, floats: FloatReader)
    requires RowsPrint(BlockRows(node, indent))
    ensures BlockRows(RereadNode(node, floats), indent) == RereadRows(BlockRows(node, indent), floats)
    decreases node, 1
  {
    match node
    case Inline(_) =>
    case Mapping(entries) => EntriesReread(entries, indent, floats);
    case Sequence(items) => ItemsReread(items, indent, floats);
  }

  lemma {:induction false} EntryReread(entry: Entry, indent: nat, floats: FloatReader)
    requires RowsPrint(EntryRows(entry, indent))
    ensures EntryRows(Entry(entry.key, RereadNode(entry.node, floats)), indent)
         == RereadRows(EntryRows(entry, indent), floats)
    decreases entry, 0
  {
    var rows := EntryRows(entry, indent);
    if entry.node.Inline? {
      assert RowPrints(rows[0]);
    } else {
      var head, tail := [rows[0]], BlockRows(entry.node, indent + 2);
      assert rows == head + tail;
      assert RowsPrint(tail) by {
        forall i | 0 <= i < |tail|
          ensures RowPrints(tail[i])
        {
          assert tail[i] == rows[i + 1];
        }
      }
      RowsReread(entry.node, indent + 2, floats);
      RereadConcat(head, tail, floats);
    }
  }

  lemma PrintsSplit(a: seq<Row>, b: seq<Row>)
    requires RowsPrint(a + b)
    ensures RowsPrint(a) && RowsPrint(b)
  {
    assert forall i :: 0 <= i < |a| ==> a[i] == (a + b)[i];
    assert forall i :: 0 <= i < |b| ==> b[i] == (a + b)[|a| + i];
  }

  lemma {:induction false} EntriesReread(entries: seq<Entry>, indent: nat, floats: FloatReader)
    requires RowsPrint(EntriesRows(entries, indent))
    ensures EntriesRows(RereadEntries(entries, floats), indent) == RereadRows(EntriesRows(entries, indent), floats)
    decreases entries, 0
  {
    if entries != [] {
      var head, tail := EntryRows(entries[0], indent), EntriesRows(entries[1..], indent);
      PrintsSplit(head, tail);
      EntryReread(entries[0], indent, floats);
      EntriesReread(entries[1..], indent, floats);
      RereadConcat(head, tail, floats);
      assert RereadEntries(entries, floats)[1..] == RereadEntries(entries[1..], floats);
    }
  }

  lemma {:induction false} ItemReread(item: Node, indent: nat, floats: FloatReader)
    requires RowsPrint(ItemRows(item, indent))
    ensures ItemRows(RereadNode(item, floats), indent) == RereadRows(ItemRows(item, indent), floats)
    decreases item, 0
  {
    match item
    case Inline(_) =>
      assert RowPrints(ItemRows(item, indent)[0]);
    case Mapping(entries) =>
      var rows := EntriesRows(entries, indent + 2);
      assert RowsPrint(rows) by {
        forall i | 0 <= i < |rows|
          ensures RowPrints(rows[i])
        {
          assert RowPrints(WithDash(rows, indent)[i]);
        }
      }
      EntriesReread(entries, indent + 2, floats);
      assert WithDash(RereadRows(rows, floats), indent) == RereadRows(WithDash(rows, indent), floats);
    case Sequence(_) =>
  }

  lemma {:induction false} ItemsReread(items: seq<Node>, indent: nat, floats: FloatReader)
    requires RowsPrint(ItemsRows(items, indent))
    ensures ItemsRows(RereadItems(items, floats), indent) == RereadRows(ItemsRows(items, indent), floats)
    decreases items, 0
  {
    if items != [] {
      var head, tail := ItemRows(items[0], indent), ItemsRows(items[1..], indent);
      PrintsSplit(head, tail);
      ItemReread(items[0], indent, floats);
      ItemsReread(items[1..], indent, floats);
      RereadConcat(head, tail, floats);
      assert RereadItems(items, floats)[1..] == RereadItems(items[1..], floats);
    }
  }

  lemma {:induction false} RereadWellFormed(node: Node, floats: FloatReader)
    requires WellFormed(node)
    ensures WellFormed(RereadNode(node, floats))
    decreases node, 1
  {
    match node
    case Inline(_) =>
    case Mapping(entries) => RereadEntriesWellFormed(entries, floats);
    case Sequence(items) => RereadItemsWellFormed(items, floats);
  }

  lemma {:induction false} RereadEntriesWellFormed(entries: seq<Entry>, floats: FloatReader)
    requires EntriesWellFormed(entries)
    ensures EntriesWellFormed(RereadEntries(entries, floats))
    decreases entries, 0
  {
    if entries != [] {
      RereadWellFormed(entries[0].node, floats);
      RereadEntriesWellFormed(entries[1..], floats);
      assert RereadEntries(entries, floats)[1..] == RereadEntries(entries[1..], floats);
    }
  }

  lemma {:induction false} RereadItemsWellFormed(items: seq<Node>, floats: FloatReader)
    requires ItemsWellFormed(items)
    ensures ItemsWellFormed(RereadItems(items, floats))
    decreases items, 0
  {
    if items != [] {
      RereadWellFormed(items[0], floats);
      RereadItemsWellFormed(items[1..], floats);
      assert RereadItems(items, floats)[1..] == RereadItems(items[1..], floats);
    }
  }

  // ----- the printed tree of a value -----

  lemma {:induction false} TreeWellFormed(v: Value, floats: FloatReader)
    requires Printable(v) && Genuine(v, floats)
    ensures WellFormed(TreeOf(v))
    decreases v, 1
  {
    if !OneLine(v) {
      match v
      case Map(fields) =>
        FieldsWellFormed(fields, floats);
        KeysOfEntries(fields);
      case List(items) => NodesWellFormed(items, floats);
    }
  }

  lemma {:induction false} KeysOfEntries(fields: seq<Field>)
    ensures forall i :: 0 <= i < |fields| ==> EntriesOf(fields)[i].key == fields[i].key
  {
    if fields != [] {
      KeysOfEntries(fields[1..]);
    }
  }

  lemma {:induction false} FieldsWellFormed(fields: seq<Field>, floats: FloatReader)
    requires FieldsPrintable(fields) && FieldsGenuine(fields, floats)
    ensures EntriesWellFormed(EntriesOf(fields))
    decreases fields, 0
  {
    if fields != [] {
      TreeWellFormed(fields[0].value, floats);
      FieldsWellFormed(fields[1..], floats);
      assert EntriesOf(fields)[1..] == EntriesOf(fields[1..]);
    }
  }

  lemma {:induction false} NodesWellFormed(items: seq<Value>, floats: FloatReader)
    requires ItemsPrintable(items) && AllGenuine(items, floats)
    ensures ItemsWellFormed(NodesOf(items))
    decreases items, 0
  {
    if items != [] {
      TreeWellFormed(items[0], floats);
      NodesWellFormed(items[1..], floats);
      assert NodesOf(items)[1..] == NodesOf(items[1..]);
    }
  }

  predicate ValidRows(rows: seq<Row>) {
    forall i :: 0 <= i < |rows| ==> ValidRow(rows[i])
  }

  lemma {:induction false} TreeRowsValid(v: Value, indent: nat, floats: FloatReader)
    requires Printable(v) && Genuine(v, floats) && indent % 2 == 0
    ensures ValidRows(BlockRows(TreeOf(v), indent))
    decreases v, 1
  {
    if !OneLine(v) {
      match v
      case Map(fields) => EntriesRowsValid(fields, indent, floats);
      case List(items) => ItemsRowsValid(items, indent, floats);
    }
  }

  lemma {:induction false} EntriesRowsValid(fields: seq<Field>, indent: nat, floats: FloatReader)
    requires FieldsPrintable(fields) && FieldsGenuine(fields, floats) && indent % 2 == 0
    ensures ValidRows(EntriesRows(EntriesOf(fields), indent))
    decreases fields, 0
  {
    if fields != [] {
      TreeRowsValid(fields[0].value, indent + 2, floats);
      EntriesRowsValid(fields[1..], indent, floats);
      assert EntriesOf(fields)[1..] == EntriesOf(fields[1..]);
      assert ValidRows(EntryRows(EntriesOf(fields)[0], indent));
    }
  }

  lemma {:induction false} ItemsRowsValid(items: seq<Value>, indent: nat, floats: FloatReader)
    requires ItemsPrintable(items) && AllGenuine(items, floats) && indent % 2 == 0
    ensures ValidRows(ItemsRows(NodesOf(items), indent))
    decreases items, 0
  {
    if items != [] {
      if items[0].Map? {
        EntriesRowsValid(items[0].fields, indent + 2, floats);
      }
      assert ValidRows(ItemRows(TreeOf(items[0]), indent));
      ItemsRowsValid(items[1..], indent, floats);
      assert NodesOf(items)[1..] == NodesOf(items[1..]);
    }
  }

  // ----- the printed text is split and lexed line by line -----

  predicate RowLexes(row: Row) {
    KeyLexes(row.item) && TextLexes(row.item)
  }

  predicate RowsLex(rows: seq<Row>) {
    forall i :: 0 <= i < |rows| ==> RowLexes(rows[i])
  }

  function LinesOf(rows: seq<Row>): (lines: seq<Line>)
    requires RowsPrint(rows)
    ensures |lines| == |rows|
    ensures forall i :: 0 <= i < |rows| ==> lines[i] == Line(rows[i].indent, RowText(rows[i].item))
  {
    if rows == [] then [] else [Line(rows[0].indent, RowText(rows[0].item))] + LinesOf(rows[1..])
  }

  lemma SplitFirst(raw: string, rest: string)
    ensures NoBreaks(raw) ==> SplitLines(raw + "\n" + rest) == [raw] + SplitLines(rest)
    ensures BreakAt(raw) < |raw| ==>
              var lines := SplitLines(raw + "\n" + rest); lines != [] && lines[0] == raw[..BreakAt(raw)]
  {
    var text := raw + "\n" + rest;
    var n := BreakAt(text);
    assert text[|raw|] == '\n' && forall i :: 0 <= i < |raw| ==> text[i] == raw[i];
    if NoBreaks(raw) {
      assert n == |raw| && text[..n] == raw && text[n + 1..] == rest;
    } else {
      assert n == BreakAt(raw) && text[..n] == raw[..n];
    }
  }

  lemma {:induction false} RenderLexes(rows: seq<Row>)
    requires RowsPrint(rows) && ValidRows(rows)
    ensures LexAll(SplitLines(Render(rows))) == if RowsLex(rows) then Ok(LinesOf(rows)) else Err
    decreases |rows|
  {
    if rows != [] {
      var row, raw, rest := rows[0], RawLine(rows[0]), Render(rows[1..]);
      assert Render(rows) == raw + "\n" + rest;
      RenderLexes(rows[1..]);
      SplitFirst(raw, rest);
      if TextLexes(row.item) {
        RawUnbroken(row);
        RawLexes(row);
        var raws := SplitLines(Render(rows));
        assert raws[0] == raw && raws[1..] == SplitLines(rest);
        assert RowsLex(rows) <==> KeyLexes(row.item) && RowsLex(rows[1..]);
      } else {
        RawBroken(row);
        CutLine(row, BreakAt(raw));
      }
    }
  }

  lemma LinesDescribed(rows: seq<Row>, floats: FloatReader)
    requires RowsPrint(rows) && ValidRows(rows)
    ensures Spans(LinesOf(rows), [], RereadRows(rows, floats), floats)
  {
    forall i | 0 <= i < |rows|
      ensures Says(LinesOf(rows)[i], RereadRows(rows, floats)[i], floats)
    {
      assert ValidRow(Row(0, rows[i].item)) by {
        assert ValidRow(rows[i]);
      }
      RowClassifies(rows[i].item, floats);
    }
  }

  /**
   * Reading a printed non-empty mapping fails, or gives the printed tree with its non-finite floats turned to words.
   */
  lemma LoadsOfDumps(v: Value, floats: FloatReader)
    requires v.Map? && v.fields != [] && Printable(v) && Genuine(v, floats)
    ensures var rows := BlockRows(TreeOf(v), 0);
            && RowsPrint(rows) && Dumps(v).Ok?
            && LoadsTree(Dumps(v).value, floats)
               == if RowsLex(rows) then Ok(RereadNode(TreeOf(v), floats)) else Err
  {
    var tree := TreeOf(v);
    var rows := BlockRows(tree, 0);
    TreePrints(v, 0);
    TreeRowsValid(v, 0, floats);
    TreeWellFormed(v, floats);
    FirstRow(tree, 0);
    RenderLexes(rows);
    if RowsLex(rows) {
      LinesDescribed(rows, floats);
      RowsReread(tree, 0, floats);
      RereadWellFormed(tree, floats);
      ParserIsExact(LinesOf(rows), RereadNode(tree, floats), floats);
    }
  }

  // ----- the exact condition -----

  /** Every key and string survives the line lexer. A key behind a list dash is never mistaken for a document marker. */
  predicate Lexable(v: Value)
    decreases v, 1
  {
    match v
    case Str(s) => Unbroken(s)
    case List(items) => ItemsLexable(items)
    case Map(fields) => FieldsLexable(fields, false)
    case _ => true
  }

  predicate FieldsLexable(fields: seq<Field>, behindDash: bool)
    decreases fields, 0
  {
    fields == []
    || ((behindDash || !Marked(fields[0].key)) && Lexable(fields[0].value) && FieldsLexable(fields[1..], false))
  }

  predicate ItemsLexable(items: seq<Value>)
    decreases items, 0
  {
    items == []
    || ((if items[0].Map? then FieldsLexable(items[0].fields, true) else Lexable(items[0]))
        && ItemsLexable(items[1..]))
  }

  predicate Finite(v: Value)
    decreases v, 1
  {
    match v
    case Float(repr) => IsFloatToken(repr)
    case List(items) => ItemsFinite(items)
    case Map(fields) => FieldsFinite(fields)
    case _ => true
  }

  predicate FieldsFinite(fields: seq<Field>)
    decreases fields, 0
  {
    fields == [] || (Finite(fields[0].value) && FieldsFinite(fields[1..]))
  }

  predicate ItemsFinite(items: seq<Value>)
    decreases items, 0
  {
    items == [] || (Finite(items[0]) && ItemsFinite(items[1..]))
  }

  lemma RowsLexConcat(a: seq<Row>, b: seq<Row>)
    ensures RowsLex(a + b) <==> RowsLex(a) && RowsLex(b)
  {
    assert forall i :: 0 <= i < |a| ==> (a + b)[i] == a[i];
    assert forall i :: 0 <= i < |b| ==> (a + b)[|a| + i] == b[i];
    if RowsLex(a) && RowsLex(b) {
      assert forall i :: 0 <= i < |a + b| ==> (a + b)[i] == if i < |a| then a[i] else b[i - |a|];
    }
  }

  lemma {:induction false} TreeLex(v: Value, indent: nat)
    requires !OneLine(v) && Printable(v)
    ensures RowsLex(BlockRows(TreeOf(v), indent)) <==> Lexable(v)
    decreases v, 1
  {
    match v
    case Map(fields) => FieldsLex(fields, indent);
    case List(items) => NodesLex(items, indent);
  }

  /** One entry, in front of a dash or not. */
  lemma {:induction false} EntryLex(field: Field, indent: nat)
    requires Printable(field.value)
    ensures var entry := Entry(field.key, TreeOf(field.value));
            && (RowsLex(EntryRows(entry, indent)) <==> !Marked(field.key) && Lexable(field.value))
            && (RowsLex(WithDash(EntryRows(entry, indent), indent)) <==> Lexable(field.value))
    decreases field, 0
  {
    var entry := Entry(field.key, TreeOf(field.value));
    var rows := EntryRows(entry, indent);
    var tail := rows[1..];
    RowsLexConcat([rows[0]], tail);
    assert [rows[0]] + tail == rows;
    var dashed := Row(indent, rows[0].item.(dash := true));
    RowsLexConcat([dashed], tail);
    assert WithDash(rows, indent) == [dashed] + tail;
    if OneLine(field.value) {
      assert tail == [];
    } else {
      assert tail == BlockRows(entry.node, indent + 2);
      TreeLex(field.value, indent + 2);
    }
    assert RowsLex([rows[0]]) <==> RowLexes(rows[0]) by {
      assert [rows[0]][0] == rows[0];
    }
    assert RowsLex([dashed]) <==> RowLexes(dashed) by {
      assert [dashed][0] == dashed;
    }
  }

  lemma {:induction false} FieldsLex(fields: seq<Field>, indent: nat)
    requires FieldsPrintable(fields)
    ensures RowsLex(EntriesRows(EntriesOf(fields), indent)) <==> FieldsLexable(fields, false)
    ensures RowsLex(WithDash(EntriesRows(EntriesOf(fields), indent), indent)) <==> FieldsLexable(fields, true)
    decreases fields, 0
  {
    if fields != [] {
      EntryLex(fields[0], indent);
      FieldsLex(fields[1..], indent);
      FirstFieldLex(fields, indent);
    }
  }

  lemma FirstFieldLex(fields: seq<Field>, indent: nat)
    requires fields != []
    ensures var head := EntryRows(Entry(fields[0].key, TreeOf(fields[0].value)), indent);
            var tail := EntriesRows(EntriesOf(fields[1..]), indent);
            var rows := EntriesRows(EntriesOf(fields), indent);
            && (RowsLex(rows) <==> RowsLex(head) && RowsLex(tail))
            && (RowsLex(WithDash(rows, indent)) <==> RowsLex(WithDash(head, indent)) && RowsLex(tail))
  {
    assert EntriesOf(fields)[1..] == EntriesOf(fields[1..]);
    DashConcat(EntryRows(Entry(fields[0].key, TreeOf(fields[0].value)), indent),
               EntriesRows(EntriesOf(fields[1..]), indent), indent);
  }

  lemma DashConcat(head: seq<Row>, tail: seq<Row>, indent: nat)
    requires head != []
    ensures RowsLex(head + tail) <==> RowsLex(head) && RowsLex(tail)
    ensures RowsLex(WithDash(head + tail, indent)) <==> RowsLex(WithDash(head, indent)) && RowsLex(tail)
  {
    RowsLexConcat(head, tail);
    RowsLexConcat(WithDash(head, indent), tail);
    assert WithDash(head + tail, indent) == WithDash(head, indent) + tail;
  }

  lemma DashIndent(rows: seq<Row>, a: nat, b: nat)
    ensures RowsLex(WithDash(rows, a)) <==> RowsLex(WithDash(rows, b))
  {
    if rows != [] {
      var tail := rows[1..];
      var x, y := Row(a, rows[0].item.(dash := true)), Row(b, rows[0].item.(dash := true));
      RowsLexConcat([x], tail);
      RowsLexConcat([y], tail);
      assert [x][0] == x && [y][0] == y;
    }
  }

  lemma {:induction false} NodesLex(items: seq<Value>, indent: nat)
    requires ItemsPrintable(items)
    ensures RowsLex(ItemsRows(NodesOf(items), indent)) <==> ItemsLexable(items)
    decreases items, 0
  {
    if items != [] {
      var head := ItemRows(TreeOf(items[0]), indent);
      var tail := ItemsRows(NodesOf(items[1..]), indent);
      NodesLex(items[1..], indent);
      assert NodesOf(items)[1..] == NodesOf(items[1..]);
      RowsLexConcat(head, tail);
      if items[0].Map? {
        FieldsLex(items[0].fields, indent + 2);
        DashIndent(EntriesRows(EntriesOf(items[0].fields), indent + 2), indent + 2, indent);
      } else {
        assert head[0] == Row(indent, Item(true, None, Some(items[0])));
        assert RowsLex(head) <==> RowLexes(head[0]);
      }
    }
  }

  lemma {:induction false} RereadSame(v: Value, floats: FloatReader)
    requires Genuine(v, floats)
    ensures ValueOf(RereadNode(TreeOf(v), floats)) == v <==> Finite(v)
    decreases v, 1
  {
    if !OneLine(v) {
      match v
      case Map(fields) => RereadFieldsSame(fields, floats);
      case List(items) => RereadItemsSame(items, floats);
    }
  }

  lemma {:induction false} RereadFieldsSame(fields: seq<Field>, floats: FloatReader)
    requires FieldsGenuine(fields, floats)
    ensures FieldsOf(RereadEntries(EntriesOf(fields), floats)) == fields <==> FieldsFinite(fields)
    decreases fields, 0
  {
    if fields != [] {
      RereadSame(fields[0].value, floats);
      RereadFieldsSame(fields[1..], floats);
      var entries := EntriesOf(fields);
      assert entries[1..] == EntriesOf(fields[1..]);
      var reread := RereadEntries(entries, floats);
      assert reread[1..] == RereadEntries(entries[1..], floats);
      var back := FieldsOf(reread);
      assert back[1..] == FieldsOf(reread[1..]) && back[0] == Field(fields[0].key, ValueOf(reread[0].node));
      assert back == fields <==> back[0] == fields[0] && back[1..] == fields[1..] by {
        assert back == [back[0]] + back[1..] && fields == [fields[0]] + fields[1..];
      }
    }
  }

  lemma {:induction false} RereadItemsSame(items: seq<Value>, floats: FloatReader)
    requires AllGenuine(items, floats)
    ensures ItemsOf(RereadItems(NodesOf(items), floats)) == items <==> ItemsFinite(items)
    decreases items, 0
  {
    if items != [] {
      RereadSame(items[0], floats);
      RereadItemsSame(items[1..], floats);
      var nodes := NodesOf(items);
      assert nodes[1..] == NodesOf(items[1..]);
      var reread := RereadItems(nodes, floats);
      assert reread[1..] == RereadItems(nodes[1..], floats);
      var back := ItemsOf(reread);
      assert back[1..] == ItemsOf(reread[1..]) && back[0] == ValueOf(reread[0]);
      assert back == items <==> back[0] == items[0] && back[1..] == items[1..] by {
        assert back == [back[0]] + back[1..] && items == [items[0]] + items[1..];
      }
    }
  }

  /**
   * Printing then reading gives the value back exactly when all its floats are finite, no string holds U+0085, U+2028
   * or U+2029, and no key that starts a line starts with a document marker. The empty mapping never comes back.
   */
  lemma RoundTripExact(v: Value, floats: FloatReader)
    requires v.Map? && Printable(v) && Genuine(v, floats)
    ensures Dumps(v).Ok?
    ensures Loads(Dumps(v).value, floats) == Ok(v) <==> v.fields != [] && Finite(v) && Lexable(v)
  {
    if v.fields == [] {
      assert SplitLines("\n") == [""] by {
        assert "\n"[..0] == "" && "\n"[1..] == "";
      }
      assert LexLine("") == Ok(None);
    } else {
      LoadsOfDumps(v, floats);
      TreeLex(v, 0);
      RereadSame(v, floats);
    }
  }
}
