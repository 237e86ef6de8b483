/**
 * The round trip of single lines: what printing one line of a value and reading its text again gives, for every line
 * that `dumps` can write.
 */
module RoundTrip {
  import opened Results
  import opened Text
  import opened Values
  import opened Scalars
  import opened Blocks
  import opened Grammar
  import opened Documents

  // ----- one printed line -----

  /** None of the three line breaks that the printer leaves raw. */
  predicate Unbroken(s: string) {
    forall i :: 0 <= i < |s| ==> s[i] as int != 0x85 && s[i] as int != 0x2028 && s[i] as int != 0x2029
  }

  predicate ValidRow(row: Row) {
    && RowPrints(row)
    && row.indent % 2 == 0
    && (row.item.dash || row.item.key.Some?)
    && (row.item.key.Some? ==> SafeKey(row.item.key.value))
    && (row.item.payload.Some? && row.item.payload.value.Float? ==> IsFloatRepr(row.item.payload.value.repr))
  }

  predicate KeyLexes(item: Item) {
    item.key.Some? && !item.dash ==> !Marked(item.key.value)
  }

  predicate TextLexes(item: Item) {
    item.payload.Some? && item.payload.value.Str? ==> Unbroken(item.payload.value.s)
  }

  function RereadItem(item: Item, floats: FloatReader): Item
    requires item.payload.Some? ==> OneLine(item.payload.value)
  {
    if item.payload.None? then item
    else item.(payload := Some(RereadOneLine(item.payload.value, floats)))
  }

  function FrontKey(item: Item): string {
    if item.key.Some? then item.key.value + ": " else ""
  }

  function FrontDash(item: Item): string {
    if item.dash then "- " else ""
  }

  lemma FrontKeyScans(item: Item)
    requires ValidRow(Row(0, item))
    ensures Run(Plain, FrontKey(item)) == Plain && '#' !in Bare(Plain, FrontKey(item))
  {
    if item.key.Some? {
      assert ": "[1..] == " ";
      MuteRun(item.key.value);
      NoHashInKey(item.key.value);
      RunConcat(Plain, item.key.value, ": ");
    }
  }

  lemma BodyScans(item: Item)
    requires ValidRow(Row(0, item))
    ensures var b := BodyText(item); Trim(b) && Run(Plain, b) == Plain && '#' !in Bare(Plain, b)
  {
    if item.payload.Some? {
      var st := ScalarText(item.payload.value);
      ScalarScans(item.payload.value);
      FrontKeyScans(item);
      RunConcat(Plain, FrontKey(item), st);
      assert BodyText(item) == FrontKey(item) + st;
      if item.key.Some? {
      }
    } else {
      KeyAloneScans(item.key.value);
    }
  }

  lemma KeyAloneScans(key: string)
    requires SafeKey(key)
    ensures var b := key + ":"; Trim(b) && Run(Plain, b) == Plain && '#' !in Bare(Plain, b)
  {
    MuteRun(key);
    NoHashInKey(key);
    RunConcat(Plain, key, ":");
  }

  lemma NoHashInKey(key: string)
    requires Mute(key)
    ensures '#' !in key
  {
  }

  lemma {:induction false} SpacesScan(n: nat)
    ensures Run(Plain, Spaces(n)) == Plain && '#' !in Bare(Plain, Spaces(n))
  {
    if n > 0 {
      SpacesScan(n - 1);
      assert Spaces(n)[1..] == Spaces(n - 1);
    }
  }

  lemma RawScans(row: Row)
    requires ValidRow(row)
    ensures var raw := RawLine(row);
            && Run(Plain, raw) == Plain && '#' !in Bare(Plain, raw)
            && raw != "" && !IsSpace(raw[|raw| - 1])
  {
    BodyScans(row.item);
    SpacesScan(row.indent);
    var body := BodyText(row.item);
    RunConcat(Plain, Spaces(row.indent), RowText(row.item));
    if row.item.dash {
      assert "- "[1..] == " ";
      RunConcat(Plain, "- ", body);
    } else {
      assert RowText(row.item) == body;
    }
  }

  lemma {:induction false} SpacesRun(n: nat, w: string)
    requires w != "" && w[0] != ' '
    ensures SpaceRun(Spaces(n) + w) == n
  {
    var s := Spaces(n) + w;
    if n == 0 {
      assert s == w;
    } else {
      assert s[1..] == Spaces(n - 1) + w;
      SpacesRun(n - 1, w);
    }
  }

  lemma {:induction false} LStripSpaces(n: nat, w: string)
    requires w != "" && !IsSpace(w[0])
    ensures LStrip(Spaces(n) + w) == w
  {
    var s := Spaces(n) + w;
    if n == 0 {
      assert s == w;
    } else {
      assert s[0] == ' ' && s[1..] == Spaces(n - 1) + w;
      LStripSpaces(n - 1, w);
    }
  }

  // ----- characters of a printed line -----

  predicate Quiet(c: char) {
    c as int >= 0x20
  }

  lemma {:induction false} EscapedQuiet(s: string)
    ensures forall i :: 0 <= i < |EscapedText(s)| ==> Quiet(EscapedText(s)[i])
  {
    if s != "" {
      EscapedQuiet(s[1..]);
      assert forall i :: 0 <= i < |Escaped(s[0])| ==> Quiet(Escaped(s[0])[i]);
    }
  }

  lemma ScalarQuiet(v: Value)
    requires OneLine(v) && (v.Float? ==> IsFloatRepr(v.repr))
    ensures forall i :: 0 <= i < |ScalarText(v)| ==> Quiet(ScalarText(v)[i])
  {
    match v
    case Str(s) => EscapedQuiet(s);
    case Float(repr) => FloatQuiet(repr);
    case Int(n) => IntQuiet(n);
    case _ =>
  }

  lemma FloatQuiet(repr: string)
    requires IsFloatRepr(repr)
    ensures forall i :: 0 <= i < |repr| ==> 0x20 <= repr[i] as int < 0x7F
  {
    if IsFloatToken(repr) {
      FloatTokenText(repr);
      assert forall i :: 0 <= i < |repr| ==> NumberChar(repr[i]);
    }
  }

  lemma IntQuiet(n: int)
    ensures forall i :: 0 <= i < |IntText(n)| ==> 0x20 <= IntText(n)[i] as int < 0x7F
  {
    assert forall i :: 0 <= i < |IntText(n)| ==> IntText(n)[i] == '-' || IsDigit(IntText(n)[i]);
  }

  lemma RawQuiet(row: Row)
    requires ValidRow(row)
    ensures forall i :: 0 <= i < |RawLine(row)| ==> Quiet(RawLine(row)[i])
    ensures !HasTab(RawLine(row))
  {
    var item := row.item;
    if item.key.Some? {
    }
    if item.payload.Some? {
      ScalarQuiet(item.payload.value);
    }
    assert forall i :: 0 <= i < |BodyText(item)| ==> Quiet(BodyText(item)[i]);
  }

  // ----- a printed line is lexed back -----

  lemma MarkedText(item: Item)
    requires ValidRow(Row(0, item))
    ensures Marked(RowText(item)) <==> !KeyLexes(item)
  {
    var text := RowText(item);
    if item.dash {
      assert text[1] == ' ';
    } else {
      var key := item.key.value;
      assert text[..|key|] == key && text[|key|] == ':';
      assert text[0] == key[0] && key[0] != '%';
      if |key| >= 3 {
        assert text[..3] == key[..3];
      }
    }
  }

  lemma RawLexes(row: Row)
    requires ValidRow(row)
    ensures LexLine(RawLine(row))
         == if KeyLexes(row.item) then Ok(Some(Line(row.indent, RowText(row.item)))) else Err
  {
    var raw, text := RawLine(row), RowText(row.item);
    RawQuiet(row);
    RawScans(row);
    NoBareSign(true, Plain, raw);
    BodyScans(row.item);
    assert text != "" && !IsSpace(text[0]);
    assert CommentFree(raw) == Ok(raw);
    LStripSpaces(row.indent, text);
    assert Strip(raw) == text;
    SpacesRun(row.indent, text);
    MarkedText(row.item);
    assert raw[row.indent..] == text;
  }

  /** What a printed line says when it is read: its own item, up to non-finite floats. */
  lemma RowClassifies(item: Item, floats: FloatReader)
    requires ValidRow(Row(0, item))
    ensures Classify(RowText(item), floats) == Ok(RereadItem(item, floats))
  {
    var text, body := RowText(item), BodyText(item);
    BodyScans(item);
    if item.payload.Some? {
      ScalarReads(item.payload.value, floats);
      ScalarScans(item.payload.value);
    }
    if item.dash {
      assert text[0] == '-' && text[1] == ' ' && text[2..] == body;
      StripSpaceBefore(body);
      if item.key.Some? {
        KeyBody(item);
      } else {
        NoBareColon(Plain, 0, body);
      }
    } else {
      KeyBody(item);
      NotDashed(item);
      assert text == body;
    }
  }

  lemma NotDashed(item: Item)
    requires ValidRow(Row(0, item)) && item.key.Some?
    ensures !Dashed(BodyText(item))
  {
    var body, key := BodyText(item), item.key.value;
    assert body[0] == key[0];
    assert body[1] == if |key| == 1 then ':' else key[1];
  }

  lemma KeyBody(item: Item)
    requires ValidRow(Row(0, item)) && item.key.Some?
    ensures MappingParts(BodyText(item))
         == Ok((item.key.value, if item.payload.Some? then ScalarText(item.payload.value) else ""))
  {
    var key := item.key.value;
    StripSpaceBefore(key);
    var rest := if item.payload.Some? then " " + ScalarText(item.payload.value) else "";
    assert BodyText(item) == key + ":" + rest;
    ColonAfterMute(key, rest);
    assert BodyText(item)[..|key|] == key && BodyText(item)[|key| + 1..] == rest;
    if item.payload.Some? {
      ScalarScans(item.payload.value);
      StripSpaceBefore(ScalarText(item.payload.value));
    }
  }

  // ----- a line that a raw break cuts short cannot be read -----

  lemma {:induction false} OpenPrefix(w: string, k: nat)
    requires k < |w| && Bare(Double, w) == ""
    ensures Run(Double, w[..k]) != Plain && Bare(Double, w[..k]) == ""
  {
    RunConcat(Double, w[..k], w[k..]);
    assert w[..k] + w[k..] == w;
  }

  /** The text of a row in front of an opening quote. */
  function Front(row: Row): string {
    Spaces(row.indent) + FrontDash(row.item) + FrontKey(row.item)
  }

  lemma FrontScans(row: Row)
    requires ValidRow(row)
    ensures Run(Plain, Front(row)) == Plain && '#' !in Bare(Plain, Front(row))
  {
    var spaces, dash, key := Spaces(row.indent), FrontDash(row.item), FrontKey(row.item);
    SpacesScan(row.indent);
    FrontKeyScans(row.item);
    assert "- "[1..] == " ";
    RunConcat(Plain, spaces, dash);
    RunConcat(Plain, spaces + dash, key);
  }

  lemma RawIsFront(row: Row)
    requires ValidRow(row) && row.item.payload.Some?
    ensures RawLine(row) == Front(row) + ScalarText(row.item.payload.value)
  {
    var st := ScalarText(row.item.payload.value);
    assert BodyText(row.item) == FrontKey(row.item) + st;
  }

  lemma CutLine(row: Row, n: nat)
    requires ValidRow(row) && row.item.payload.Some? && row.item.payload.value.Str?
    requires |Front(row)| < n < |RawLine(row)|
    ensures LexLine(RawLine(row)[..n]) == Err
  {
    assert CommentFree(RawLine(row)[..n]) == Err by {
      var s := row.item.payload.value.s;
      RawIsFront(row);
      FrontScans(row);
      CutQuoted(Front(row), s, n - |Front(row)|);
      CutConcat(Front(row), Quoted(s), n);
    }
  }

  lemma CutConcat(a: string, b: string, n: nat)
    requires |a| <= n <= |a + b|
    ensures (a + b)[..n] == a + b[..n - |a|]
  {
  }

  lemma CutQuoted(front: string, s: string, n: nat)
    requires Run(Plain, front) == Plain && '#' !in Bare(Plain, front) && 0 < n < |Quoted(s)|
    ensures CommentFree(front + Quoted(s)[..n]) == Err
  {
    var tail := EscapedText(s) + "\"";
    var cut := tail[..n - 1];
    assert Quoted(s)[..n] == "\"" + cut;
    EscapedScans(s);
    RunConcat(Double, EscapedText(s), "\"");
    OpenPrefix(tail, n - 1);
    RunConcat(Plain, "\"", cut);
    RunConcat(Plain, front, "\"" + cut);
    OpenQuote(front + ("\"" + cut));
  }

  lemma {:induction false} EscapedBreaks(s: string)
    ensures NoBreaks(EscapedText(s)) <==> Unbroken(s)
  {
    if s != "" {
      EscapedBreaks(s[1..]);
      var e, t := Escaped(s[0]), EscapedText(s);
      assert Unbroken(s) <==> Unbroken([s[0]]) && Unbroken(s[1..]) by {
        assert s == [s[0]] + s[1..];
      }
      if !Unbroken([s[0]]) {
        assert t[0] == e[0];
      }
      if !Unbroken(s[1..]) {
        var i :| 0 <= i < |EscapedText(s[1..])| && IsBreak(EscapedText(s[1..])[i]);
        assert t[|e| + i] == EscapedText(s[1..])[i];
      }
    }
  }

  predicate NoBreaks(w: string) {
    forall i :: 0 <= i < |w| ==> !IsBreak(w[i])
  }

  lemma FrontUnbroken(row: Row)
    requires ValidRow(row)
    ensures NoBreaks(Front(row))
  {
    if row.item.key.Some? {
    }
  }

  lemma RawUnbroken(row: Row)
    requires ValidRow(row) && TextLexes(row.item)
    ensures NoBreaks(RawLine(row))
  {
    FrontUnbroken(row);
    if row.item.payload.Some? {
      RawIsFront(row);
      var v := row.item.payload.value;
      if v.Str? {
        EscapedBreaks(v.s);
        assert NoBreaks("\"");
        assert NoBreaks(Quoted(v.s));
      } else {
        PlainScalarUnbroken(v);
      }
    } else {
    }
  }

  /** A raw break inside a printed string cuts the line after its opening quote. */
  lemma RawBroken(row: Row)
    requires ValidRow(row) && !TextLexes(row.item)
    ensures |Front(row)| < BreakAt(RawLine(row)) < |RawLine(row)|
  {
    var s := row.item.payload.value.s;
    FrontUnbroken(row);
    RawIsFront(row);
    EscapedBreaks(s);
    BreakInside(Front(row), EscapedText(s));
    assert RawLine(row) == Front(row) + ("\"" + EscapedText(s) + "\"");
  }

  lemma BreakInside(front: string, inner: string)
    requires NoBreaks(front) && !NoBreaks(inner)
    ensures var w := front + ("\"" + inner + "\""); |front| < BreakAt(w) < |w|
  {
    var w := front + ("\"" + inner + "\"");
    var i :| 0 <= i < |inner| && IsBreak(inner[i]);
    assert w[|front| + 1 + i] == inner[i] && w[|front|] == '"';
    assert forall j :: 0 <= j < |front| ==> w[j] == front[j];
  }

  lemma PlainScalarUnbroken(v: Value)
    requires OneLine(v) && !v.Str? && (v.Float? ==> IsFloatRepr(v.repr))
    ensures NoBreaks(ScalarText(v))
  {
    match v
    case Int(n) => IntQuiet(n);
    case Float(repr) => FloatQuiet(repr);
    case _ =>
  }
}
