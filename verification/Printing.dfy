/** What is printed, and how. */
module Printing {
  import opened Results
  import opened Text
  import opened Values
  import opened Scalars
  import opened Blocks
  import opened Documents

  // ----- what is refused -----

  /** Somewhere in the value is a list in a list, an empty mapping in a list, or an unsafe key. */
  predicate Formless(v: Value)
    decreases v
  {
    match v
    case List(items) =>
      exists i :: 0 <= i < |items| && (items[i].List? || items[i] == Map([]) || Formless(items[i]))
    case Map(fields) =>
      exists i :: 0 <= i < |fields| && (!SafeKey(fields[i].key) || Formless(fields[i].value))
    case _ => false
  }

  lemma {:induction false} ItemsForm(items: seq<Value>)
    ensures !ItemsPrintable(items) <==>
            exists i :: 0 <= i < |items| && (items[i].List? || items[i] == Map([]) || Formless(items[i]))
    decreases items, 0
  {
    if items != [] {
      ValueForm(items[0]);
      ItemsForm(items[1..]);
      if i :| 0 <= i < |items[1..]| && (items[1..][i].List? || items[1..][i] == Map([]) || Formless(items[1..][i])) {
        assert items[i + 1] == items[1..][i];
      }
      if i :| 0 < i < |items| && (items[i].List? || items[i] == Map([]) || Formless(items[i])) {
        assert items[1..][i - 1] == items[i];
      }
    }
  }

  lemma {:induction false} FieldsForm(fields: seq<Field>)
    ensures !FieldsPrintable(fields) <==>
            exists i :: 0 <= i < |fields| && (!SafeKey(fields[i].key) || Formless(fields[i].value))
    decreases fields, 0
  {
    if fields != [] {
      ValueForm(fields[0].value);
      FieldsForm(fields[1..]);
      if i :| 0 <= i < |fields[1..]| && (!SafeKey(fields[1..][i].key) || Formless(fields[1..][i].value)) {
        assert fields[i + 1] == fields[1..][i];
      }
      if i :| 0 < i < |fields| && (!SafeKey(fields[i].key) || Formless(fields[i].value)) {
        assert fields[1..][i - 1] == fields[i];
      }
    }
  }

  lemma {:induction false} ValueForm(v: Value)
    ensures Printable(v) <==> !Formless(v)
    decreases v, 1
  {
    match v
    case List(items) => ItemsForm(items);
    case Map(fields) => FieldsForm(fields);
    case _ =>
  }

  /** Printing is refused exactly for scalars and for values that are formless somewhere. */
  lemma PrintsExactly(v: Value)
    ensures Dumps(v).Ok? <==> (v.Map? || v.List?) && !Formless(v)
  {
    ValueForm(v);
  }

  // ----- the forms -----

  /** The reserved words and the empty collections as they are printed. */
  lemma PrintedForms()
    ensures ScalarText(Null) == "null" && ScalarText(Bool(true)) == "true" && ScalarText(Bool(false)) == "false"
    ensures ScalarText(List([])) == "[]" && ScalarText(Map([])) == "{}"
    ensures forall repr :: ScalarText(Float(repr)) == repr
  {
  }

  /** A character is printed as it is unless it is a quote, a backslash or a control character; those are escaped. */
  lemma EscapedAsNeeded(c: char)
    ensures Escaped(c) == [c] <==> c as int >= 32 && c != '"' && c != '\\'
    ensures Escaped(c) != [c] ==> Escaped(c)[0] == '\\' && (|Escaped(c)| == 2 || |Escaped(c)| == 6)
    ensures |Escaped(c)| == 2 <==> c in "\"\\\n\r\t" || c as int == 8 || c as int == 12
  {
  }

  /** A string is printed between double quotes, each character in turn. */
  lemma {:induction false} QuotedParts(a: string, b: string)
    ensures EscapedText(a + b) == EscapedText(a) + EscapedText(b)
    ensures Quoted(a) == "\"" + EscapedText(a) + "\""
    decreases |a|
  {
    if a == "" {
      assert a + b == b;
    } else {
      assert (a + b)[0] == a[0] && (a + b)[1..] == a[1..] + b;
      QuotedParts(a[1..], b);
    }
  }

  /** A document of one field whose value fits on its line. */
  lemma OneFieldPrints(key: string, v: Value)
    requires SafeKey(key) && OneLine(v)
    ensures Dumps(Map([Field(key, v)])) == Ok(key + ": " + ScalarText(v) + "\n")
  {
    var fields := [Field(key, v)];
    var entries := [Entry.Entry(key, Inline(v))];
    var row := Row(0, Item(false, Some(key), Some(v)));
    assert fields[1..] == [] && entries[1..] == [] && [row][1..] == [];
    assert EntriesOf(fields) == entries + [] == entries;
    assert EntriesRows(entries, 0) == [row] + [] == [row];
    TreePrints(Map(fields), 0);
    OneLinePrints(v);
    assert FieldsPrintable(fields[1..]) && FieldsPrintable(fields) && Dumpable(Map(fields));
    assert TreeOf(Map(fields)) == Mapping(entries) && BlockRows(Mapping(entries), 0) == [row];
    OneRowPrints(row, key, v);
  }

  lemma OneRowPrints(row: Row, key: string, v: Value)
    requires OneLine(v) && row == Row(0, Item(false, Some(key), Some(v)))
    ensures RowsPrint([row]) && Render([row]) == key + ": " + ScalarText(v) + "\n"
  {
    var text := key + ": " + ScalarText(v);
    assert [row][1..] == [] && Spaces(0) == "";
    assert RowText(row.item) == "" + text == text;
    assert RawLine(row) == Spaces(0) + text == text;
    assert Render([row]) == text + "\n" + "";
  }

  lemma OneLinePrints(v: Value)
    requires OneLine(v)
    ensures Printable(v)
  {
  }
}
