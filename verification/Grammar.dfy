/** The block parser accepts exactly the laid-out trees: it is the inverse of the layout. */
module Grammar {
  import opened Results
  import opened Values
  import opened Scalars
  import opened Blocks

  /** Nothing follows at this depth or deeper. */
  ghost predicate Closed(rest: seq<Line>, indent: nat) {
    rest == [] || rest[0].indent < indent
  }

  lemma FirstRow(node: Node, indent: nat)
    requires WellFormed(node) && !node.Inline?
    ensures var rows := BlockRows(node, indent);
            rows != [] && rows[0].indent == indent && rows[0].item.dash == node.Sequence?
  {
    match node
    case Mapping(entries) => FirstEntryRow(entries, indent);
    case Sequence(items) =>
      FirstItemRow(items[0], indent);
      assert BlockRows(node, indent) == ItemRows(items[0], indent) + ItemsRows(items[1..], indent);
  }

  lemma FirstItemRow(item: Node, indent: nat)
    requires WellFormed(item) && !item.Sequence?
    ensures var rows := ItemRows(item, indent);
            rows != [] && rows[0].indent == indent && rows[0].item.dash
  {
    if item.Mapping? {
      FirstEntryRow(item.entries, indent + 2);
    }
  }

  lemma FirstEntryRow(entries: seq<Entry>, indent: nat)
    requires entries != []
    ensures var rows := EntriesRows(entries, indent);
            && rows != [] && rows[0].indent == indent && !rows[0].item.dash
            && rows[0].item.key == Some(entries[0].key)
  {
  }

  lemma {:induction false} BlockComplete(
    lines: seq<Line>, rest: seq<Line>, node: Node, indent: nat, floats: FloatReader)
    requires WellFormed(node) && !node.Inline? && Closed(rest, indent)
    requires Spans(lines, rest, BlockRows(node, indent), floats)
    ensures lines != [] && lines[0].indent == indent && ParseBlock(lines, indent, floats) == Ok((node, rest))
    decreases node, 2
  {
    FirstRow(node, indent);
    assert Says(lines[0], BlockRows(node, indent)[0], floats);
    match node
    case Mapping(entries) =>
      EntriesComplete(lines, rest, entries, indent, [], floats);
      assert [] + entries == entries;
    case Sequence(items) =>
      ItemsComplete(lines, rest, items, indent, [], floats);
      assert [] + items == items;
  }

  /** The value of an entry is read back from the rows below its key. */
  lemma {:induction false} ValueComplete(
    lines: seq<Line>, middle: seq<Line>, entry: Entry, indent: nat, floats: FloatReader)
    requires WellFormed(entry.node) && Closed(middle, indent + 2)
    requires Spans(lines, middle, EntryRows(entry, indent)[1..], floats)
    ensures ParseValue(EntryRows(entry, indent)[0].item.payload, lines, indent + 2, floats) == Ok((entry.node, middle))
    decreases entry, 0
  {
    if !entry.node.Inline? {
      assert EntryRows(entry, indent)[1..] == BlockRows(entry.node, indent + 2);
      BlockComplete(lines, middle, entry.node, indent + 2, floats);
    }
  }

  lemma {:induction false} EntryComplete(
    lines: seq<Line>, middle: seq<Line>, entry: Entry, indent: nat, floats: FloatReader)
    requires WellFormed(entry.node) && Closed(middle, indent + 2)
    requires Spans(lines, middle, EntryRows(entry, indent), floats)
    ensures lines != [] && lines[0].indent == indent && !Dashed(lines[0].text)
    ensures var r := Classify(lines[0].text, floats);
            && r.Ok? && r.value.key == Some(entry.key)
            && ParseValue(r.value.payload, lines[1..], indent + 2, floats) == Ok((entry.node, middle))
    decreases entry, 1
  {
    TailSpans(lines, middle, EntryRows(entry, indent), floats);
    ValueComplete(lines[1..], middle, entry, indent, floats);
  }

  /** Moving the first of what is left to the end of what is done keeps the whole. */
  lemma TakeFirst<T>(done: seq<T>, left: seq<T>)
    requires left != []
    ensures (done + [left[0]]) + left[1..] == done + left
  {
  }

  lemma {:induction false} EntriesComplete(
    lines: seq<Line>, rest: seq<Line>, entries: seq<Entry>, indent: nat, done: seq<Entry>, floats: FloatReader)
    requires EntriesWellFormed(entries) && DistinctKeys(done + entries) && Closed(rest, indent)
    requires Spans(lines, rest, EntriesRows(entries, indent), floats)
    ensures ParseEntries(lines, indent, done, floats) == Ok((done + entries, rest))
    decreases entries, 1
  {
    if entries == [] {
      assert done + entries == done && lines == rest;
    } else {
      var entry, more := entries[0], entries[1..];
      var rows := EntryRows(entry, indent);
      var middle := lines[|rows|..];
      SpansSplit(lines, rest, rows, EntriesRows(more, indent), floats);
      MiddleClosed(middle, rest, more, indent, floats);
      EntryComplete(lines, middle, entry, indent, floats);
      TakeFirst(done, entries);
      NotAmong(done, entry, more);
      EntriesComplete(middle, rest, more, indent, done + [entry], floats);
    }
  }

  lemma TailSpans(lines: seq<Line>, middle: seq<Line>, rows: seq<Row>, floats: FloatReader)
    requires rows != [] && Spans(lines, middle, rows, floats)
    ensures Spans(lines[1..], middle, rows[1..], floats) && Says(lines[0], rows[0], floats)
  {
    assert [rows[0]] + rows[1..] == rows;
    SpansSplit(lines, middle, [rows[0]], rows[1..], floats);
  }

  lemma MiddleClosed(middle: seq<Line>, rest: seq<Line>, more: seq<Entry>, indent: nat, floats: FloatReader)
    requires Spans(middle, rest, EntriesRows(more, indent), floats) && Closed(rest, indent + 1)
    ensures Closed(middle, indent + 2)
    ensures more != [] ==> middle != [] && middle[0].indent == indent
  {
    if more == [] {
      assert middle == rest;
    } else {
      FirstEntryRow(more, indent);
      assert Says(middle[0], EntriesRows(more, indent)[0], floats);
    }
  }

  lemma NotAmong(done: seq<Entry>, entry: Entry, more: seq<Entry>)
    requires DistinctKeys((done + [entry]) + more)
    ensures !HasKey(done, entry.key)
  {
    var all := (done + [entry]) + more;
    assert all[|done|] == entry;
    assert forall i :: 0 <= i < |done| ==> all[i] == done[i];
  }

  lemma {:induction false} ItemsComplete(
    lines: seq<Line>, rest: seq<Line>, items: seq<Node>, indent: nat, done: seq<Node>, floats: FloatReader)
    requires ItemsWellFormed(items) && Closed(rest, indent)
    requires Spans(lines, rest, ItemsRows(items, indent), floats)
    ensures ParseItems(lines, indent, done, floats) == Ok((done + items, rest))
    decreases items, 1
  {
    if items == [] {
      assert done + items == done && lines == rest;
    } else {
      var item, more := items[0], items[1..];
      var rows := ItemRows(item, indent);
      var middle := lines[|rows|..];
      SpansSplit(lines, rest, rows, ItemsRows(more, indent), floats);
      ItemsMiddleClosed(middle, rest, more, indent, floats);
      ItemComplete(lines, middle, item, indent, floats);
      TakeFirst(done, items);
      ItemsComplete(middle, rest, more, indent, done + [item], floats);
    }
  }

  lemma ItemsMiddleClosed(middle: seq<Line>, rest: seq<Line>, more: seq<Node>, indent: nat, floats: FloatReader)
    requires ItemsWellFormed(more) && Spans(middle, rest, ItemsRows(more, indent), floats) && Closed(rest, indent)
    ensures Closed(middle, indent + 1)
  {
    if more == [] {
      assert middle == rest;
    } else {
      FirstRow(Sequence(more), indent);
      assert Says(middle[0], ItemsRows(more, indent)[0], floats);
    }
  }

  lemma {:induction false} ItemComplete(
    lines: seq<Line>, rest: seq<Line>, item: Node, indent: nat, floats: FloatReader)
    requires !item.Sequence? && WellFormed(item) && Closed(rest, indent + 1)
    requires Spans(lines, rest, ItemRows(item, indent), floats)
    ensures lines != [] && lines[0].indent == indent && Dashed(lines[0].text)
    ensures ParseItem(lines, indent, floats) == Ok((item, rest))
    decreases item, 1
  {
    if item.Inline? {
      assert Says(lines[0], ItemRows(item, indent)[0], floats);
    } else {
      var first, more := item.entries[0], item.entries[1..];
      assert [first] + more == item.entries;
      MoreWellFormed(item.entries);
      assert ItemRows(item, indent) == DashedRows(first, indent) + EntriesRows(more, indent + 2) by {
        DashFirst(first, more, indent);
      }
      var head := DashedRows(first, indent);
      var middle := lines[|head|..];
      SpansSplit(lines, rest, head, EntriesRows(more, indent + 2), floats);
      MiddleClosed(middle, rest, more, indent + 2, floats);
      DashedComplete(lines, middle, first, indent, floats);
      assert ParseItem(lines, indent, floats) == ParseMore(first, middle, indent + 2, floats);
      MoreComplete(first, middle, rest, more, indent + 2, floats);
    }
  }

  lemma {:induction false} DashedComplete(
    lines: seq<Line>, middle: seq<Line>, first: Entry, indent: nat, floats: FloatReader)
    requires WellFormed(first.node) && Closed(middle, indent + 4)
    requires Spans(lines, middle, DashedRows(first, indent), floats)
    ensures lines != [] && lines[0].indent == indent && Dashed(lines[0].text)
    ensures var r := Classify(lines[0].text, floats);
            && r.Ok? && r.value.key == Some(first.key)
            && ParseValue(r.value.payload, lines[1..], indent + 4, floats) == Ok((first.node, middle))
    decreases first, 1
  {
    var head := DashedRows(first, indent);
    TailSpans(lines, middle, head, floats);
    assert head[1..] == EntryRows(first, indent + 2)[1..];
    ValueComplete(lines[1..], middle, first, indent + 2, floats);
  }

  lemma MoreWellFormed(entries: seq<Entry>)
    requires entries != [] && WellFormed(Mapping(entries))
    ensures entries[1..] == [] || WellFormed(Mapping(entries[1..]))
    ensures WellFormed(entries[0].node) && !HasKey(entries[1..], entries[0].key)
  {
  }

  lemma {:induction false} MoreComplete(
    first: Entry, middle: seq<Line>, rest: seq<Line>, more: seq<Entry>, indent: nat, floats: FloatReader)
    requires Closed(rest, indent) && Spans(middle, rest, EntriesRows(more, indent), floats)
    requires (more == [] || WellFormed(Mapping(more))) && !HasKey(more, first.key)
    ensures ParseMore(first, middle, indent, floats) == Ok((Mapping([first] + more), rest))
    decreases more, 2
  {
    if more == [] {
      assert middle == rest && [first] + more == [first];
    } else {
      FirstEntryRow(more, indent);
      assert Says(middle[0], EntriesRows(more, indent)[0], floats);
      EntriesComplete(middle, rest, more, indent, [], floats);
      assert [] + more == more;
      assert ParseBlock(middle, indent, floats) == Ok((Mapping(more), rest));
    }
  }

  ghost predicate Describes(node: Node, lines: seq<Line>, floats: FloatReader) {
    Spans(lines, [], BlockRows(node, 0), floats)
  }

  /**
   * The parser accepts a document exactly when some well-formed tree describes its lines one for one, and then it
   * returns that tree. No line is dropped, repeated or reordered, no key is lost, and every such layout is accepted.
   */
  lemma ParserIsExact(lines: seq<Line>, node: Node, floats: FloatReader)
    ensures ParseLines(lines, floats) == Ok(node)
       <==> WellFormed(node) && !node.Inline? && Describes(node, lines, floats)
  {
    if ParseLines(lines, floats) == Ok(node) {
      BlockSound(lines, 0, floats);
    }
    if WellFormed(node) && !node.Inline? && Describes(node, lines, floats) {
      BlockComplete(lines, [], node, 0, floats);
    }
  }

  // ----- counting -----

  /** Block mapping entries plus scalar list items of a tree. */
  function Weight(node: Node): nat
    decreases node, 1
  {
    match node
    case Inline(_) => 0
    case Mapping(entries) => EntriesWeight(entries)
    case Sequence(items) => ItemsWeight(items)
  }

  function EntriesWeight(entries: seq<Entry>): nat
    decreases entries, 0
  {
    if entries == [] then 0 else 1 + Weight(entries[0].node) + EntriesWeight(entries[1..])
  }

  function ItemsWeight(items: seq<Node>): nat
    decreases items, 0
  {
    if items == [] then 0 else (if items[0].Inline? then 1 else Weight(items[0])) + ItemsWeight(items[1..])
  }

  lemma {:induction false} RowsCount(node: Node, indent: nat)
    requires WellFormed(node)
    ensures |BlockRows(node, indent)| == Weight(node)
    decreases node, 1
  {
    match node
    case Inline(_) =>
    case Mapping(entries) => EntriesCount(entries, indent);
    case Sequence(items) => ItemsCount(items, indent);
  }

  lemma {:induction false} EntriesCount(entries: seq<Entry>, indent: nat)
    requires EntriesWellFormed(entries)
    ensures |EntriesRows(entries, indent)| == EntriesWeight(entries)
    decreases entries, 0
  {
    if entries != [] {
      RowsCount(entries[0].node, indent + 2);
      EntriesCount(entries[1..], indent);
    }
  }

  lemma {:induction false} ItemsCount(items: seq<Node>, indent: nat)
    requires ItemsWellFormed(items)
    ensures |ItemsRows(items, indent)| == ItemsWeight(items)
    decreases items, 0
  {
    if items != [] {
      RowsCount(items[0], indent + 2);
      ItemsCount(items[1..], indent);
    }
  }

  /** A document that parses has one line for each block mapping entry and each scalar list item. */
  lemma LineCount(lines: seq<Line>, floats: FloatReader)
    requires ParseLines(lines, floats).Ok?
    ensures |lines| == Weight(ParseLines(lines, floats).value)
  {
    var node := ParseLines(lines, floats).value;
    ParserIsExact(lines, node, floats);
    RowsCount(node, 0);
  }
}
