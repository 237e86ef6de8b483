/** Documents as people write them load as what they say. */
module Handwritten {
  import opened Results
  import opened Text
  import opened Values
  import opened Scalars
  import opened Blocks
  import opened Grammar
  import opened Documents
  import opened RoundTrip
  import opened Reloading
  import opened Spellings

  // ----- what stands behind a key or a dash -----

  /** One value in any spelling, or some in an inline sequence. */
  datatype Shown = Alone(x: Spelling) | Bracketed(items: seq<Spelling>, gap: nat)

  predicate WellShown(shown: Shown) {
    match shown
    case Alone(x) => Spelled(x)
    case Bracketed(items, _) => items != [] && AllSpelled(items)
  }

  function ShownText(shown: Shown): string
    requires WellShown(shown)
  {
    match shown
    case Alone(x) => TextOf(x)
    case Bracketed(items, gap) => InlineText(items, gap)
  }

  function ShownValue(shown: Shown, floats: FloatReader): Value
    requires WellShown(shown)
  {
    match shown
    case Alone(x) => Meaning(x, floats)
    case Bracketed(items, _) => List(Meanings(items, floats))
  }

  lemma ShownReads(shown: Shown, floats: FloatReader)
    requires WellShown(shown)
    ensures Scalar(ShownText(shown), floats) == Ok(ShownValue(shown, floats))
  {
    match shown
    case Alone(x) => SpellingReads(x, floats);
    case Bracketed(items, gap) => InlineReads(items, gap, floats);
  }

  /** No quote is left open, no comment starts in it, and the text stays on its line. */
  predicate Clean(t: string) {
    Run(Plain, t) == Plain && OnOneLine(t) && Sharpless(true, Plain, t)
  }

  lemma {:induction false} SharplessMore(afterSpace: bool, q: Quote, a: string, b: string)
    requires Sharpless(afterSpace, q, a) && Run(q, a) == Plain && Sharpless(true, Plain, b)
    ensures Sharpless(afterSpace, q, a + b)
    decreases |a|
  {
    if a == "" {
      assert a + b == b;
      SharplessAnywhere(b);
    } else {
      assert (a + b)[0] == a[0] && (a + b)[1..] == a[1..] + b;
      SharplessMore(IsSpace(a[0]), Step(q, a[0]), a[1..], b);
    }
  }

  lemma SharplessAnywhere(b: string)
    requires Sharpless(true, Plain, b)
    ensures Sharpless(false, Plain, b)
  {
  }

  lemma CleanMore(a: string, b: string)
    requires Clean(a) && Clean(b)
    ensures Clean(a + b)
  {
    RunConcat(Plain, a, b);
    SharplessMore(true, Plain, a, b);
  }

  lemma MarksClean()
    ensures Clean(",") && Clean("[") && Clean("]") && Clean(": ") && Clean(":") && Clean("- ") && Clean(" ")
  {
    assert ","[1..] == "" && "["[1..] == "" && "]"[1..] == "" && ":"[1..] == "" && " "[1..] == "";
    assert ": "[1..] == " " && "- "[1..] == " ";
  }

  lemma SpacesClean(n: nat)
    ensures Clean(Spaces(n))
  {
    SpacesBare(n);
    BareSharpless(true, Plain, Spaces(n));
  }

  lemma {:induction false} JoinedClean(texts: seq<string>, gap: nat)
    requires texts != [] && AllPieces(texts)
    ensures Clean(Joined(texts, gap))
    decreases |texts|
  {
    assert Piece(texts[0]);
    if |texts| > 1 {
      JoinedClean(texts[1..], gap);
      SpacesClean(gap);
      MarksClean();
      CleanMore(texts[0], ",");
      CleanMore(texts[0] + ",", Spaces(gap));
      CleanMore(texts[0] + "," + Spaces(gap), Joined(texts[1..], gap));
    }
  }

  lemma InlineStill(items: seq<Spelling>, gap: nat)
    requires AllSpelled(items) && items != []
    ensures Still(InlineText(items, gap))
  {
    var inner := Joined(TextsOf(items), gap);
    TextsArePieces(items);
    JoinedClean(TextsOf(items), gap);
    MarksClean();
    CleanMore("[", inner);
    CleanMore("[" + inner, "]");
  }

  lemma ShownStill(shown: Shown)
    requires WellShown(shown)
    ensures Still(ShownText(shown))
  {
    match shown
    case Alone(x) => SpellingScans(x);
    case Bracketed(items, gap) => InlineStill(items, gap);
  }

  // ----- no colon ends a list item early -----

  /** Below a bracket, text without brackets of its own hides its colons. */
  lemma {:induction false} LevelText(q: Quote, depth: int, t: string, rest: string)
    requires depth >= 1 && '[' !in Bare(q, t) && ']' !in Bare(q, t) && Run(q, t) == Plain
    ensures ColonAt(q, depth, t + rest) == |t| + ColonAt(Plain, depth, rest)
    decreases |t|
  {
    if t == "" {
      assert t + rest == rest;
    } else {
      assert (t + rest)[0] == t[0] && (t + rest)[1..] == t[1..] + rest;
      assert q == Plain ==> Bare(q, t)[0] == t[0];
      LevelText(Step(q, t[0]), depth, t[1..], rest);
    }
  }

  lemma LevelEmpty(depth: int, rest: string)
    requires depth >= 1
    ensures ColonAt(Plain, depth, "[]" + rest) == 2 + ColonAt(Plain, depth, rest)
  {
    var w := "[]" + rest;
    assert w[0] == '[' && w[1..][0] == ']' && w[1..][1..] == rest;
  }

  lemma LevelPiece(depth: int, t: string, rest: string)
    requires depth >= 1 && Piece(t)
    ensures ColonAt(Plain, depth, t + rest) == |t| + ColonAt(Plain, depth, rest)
  {
    if t == "[]" {
      LevelEmpty(depth, rest);
    } else {
      LevelText(Plain, depth, t, rest);
    }
  }

  lemma LevelGap(depth: int, gap: nat, rest: string)
    requires depth >= 1
    ensures ColonAt(Plain, depth, "," + Spaces(gap) + rest) == 1 + gap + ColonAt(Plain, depth, rest)
  {
    SpacesBare(gap);
    LevelText(Plain, depth, Spaces(gap), rest);
    var w := "," + Spaces(gap) + rest;
    assert w[0] == ',' && w[1..] == Spaces(gap) + rest;
  }

  lemma {:induction false} LevelJoined(texts: seq<string>, gap: nat, rest: string)
    requires texts != [] && AllPieces(texts)
    ensures ColonAt(Plain, 1, Joined(texts, gap) + rest) == |Joined(texts, gap)| + ColonAt(Plain, 1, rest)
    decreases |texts|
  {
    assert Piece(texts[0]);
    if |texts| == 1 {
      LevelPiece(1, texts[0], rest);
    } else {
      var more := Joined(texts[1..], gap);
      LevelJoined(texts[1..], gap, rest);
      LevelGap(1, gap, more + rest);
      LevelPiece(1, texts[0], "," + Spaces(gap) + (more + rest));
      JoinedShape(texts[0], gap, more, rest);
    }
  }

  lemma JoinedShape(first: string, gap: nat, more: string, rest: string)
    ensures first + "," + Spaces(gap) + more + rest == first + ("," + Spaces(gap) + (more + rest))
  {
  }

  lemma InlineColons(items: seq<Spelling>, gap: nat)
    requires AllSpelled(items) && items != []
    ensures ColonAt(Plain, 0, InlineText(items, gap)) == |InlineText(items, gap)|
  {
    var inner := Joined(TextsOf(items), gap);
    TextsArePieces(items);
    LevelJoined(TextsOf(items), gap, "]");
    var w := "[" + inner + "]";
    assert w[0] == '[' && w[1..] == inner + "]" && "]"[1..] == "";
  }

  /** Behind a dash alone, a word must show no colon, or it would be a key. */
  predicate Keyless(shown: Shown) {
    shown.Alone? ==> Colonless(shown.x)
  }

  lemma ShownColons(shown: Shown)
    requires WellShown(shown) && Keyless(shown)
    ensures ColonAt(Plain, 0, ShownText(shown)) == |ShownText(shown)|
  {
    match shown
    case Alone(x) =>
      SpellingScans(x);
      NoBareColon(Plain, 0, TextOf(x));
    case Bracketed(items, gap) => InlineColons(items, gap);
  }

  // ----- one line -----

  /** A line that says something, perhaps with a comment behind it, or one that is blank or just a comment. */
  datatype Written =
    | Entered(indent: nat, dash: bool, key: Option<string>, shown: Option<Shown>, remark: string)
    | Aside(indent: nat, remark: string)

  predicate WellWritten(w: Written) {
    && OnOneLine(w.remark)
    && (w.Entered? ==>
          && w.indent % 2 == 0 && (w.dash || w.key.Some?) && (w.key.Some? || w.shown.Some?)
          && (w.key.Some? ==> SafeKey(w.key.value) && (w.dash || !Marked(w.key.value)))
          && (w.shown.Some? ==> WellShown(w.shown.value))
          && (w.key.None? ==> Keyless(w.shown.value)))
  }

  function BodyFrom(key: Option<string>, text: Option<string>): string
    requires key.Some? || text.Some?
  {
    if key.None? then text.value else key.value + ":" + if text.Some? then " " + text.value else ""
  }

  function BodyOf(w: Written): string
    requires WellWritten(w) && w.Entered?
  {
    BodyFrom(w.key, if w.shown.Some? then Some(ShownText(w.shown.value)) else None)
  }

  function LineText(w: Written): string
    requires WellWritten(w) && w.Entered?
  {
    (if w.dash then "- " else "") + BodyOf(w)
  }

  function RawOf(w: Written): string
    requires WellWritten(w)
  {
    match w
    case Aside(indent, remark) => Spaces(indent) + if remark == "" then "" else "#" + remark
    case Entered(indent, _, _, _, remark) =>
      Spaces(indent) + LineText(w) + Remarked(remark)
  }

  function ItemOf(w: Written, floats: FloatReader): Item
    requires WellWritten(w) && w.Entered?
  {
    Item(w.dash, w.key, if w.shown.Some? then Some(ShownValue(w.shown.value, floats)) else None)
  }

  lemma KeyClean(key: string)
    requires SafeKey(key)
    ensures Clean(key)
  {
    MuteRun(key);
    NoHashInKey(key);
    BareSharpless(true, Plain, key);
  }

  lemma KeyTextClean(key: string, text: string)
    requires SafeKey(key) && Still(text)
    ensures Clean(key + ":" + (" " + text)) && Trim(key + ":" + (" " + text))
  {
    KeyAloneClean(key);
    MarksClean();
    CleanMore(" ", text);
    CleanMore(key + ":", " " + text);
  }

  lemma BodyFromClean(key: Option<string>, text: Option<string>)
    requires (key.Some? || text.Some?) && (key.Some? ==> SafeKey(key.value)) && (text.Some? ==> Still(text.value))
    ensures Trim(BodyFrom(key, text)) && Clean(BodyFrom(key, text))
  {
    if key.Some? && text.Some? {
      KeyTextClean(key.value, text.value);
    } else if key.Some? {
      KeyAloneClean(key.value);
      assert key.value + ":" + "" == key.value + ":";
    }
  }

  lemma BodyClean(w: Written)
    requires WellWritten(w) && w.Entered?
    ensures Trim(BodyOf(w)) && Clean(BodyOf(w))
  {
    if w.shown.Some? {
      ShownStill(w.shown.value);
    }
    BodyFromClean(w.key, if w.shown.Some? then Some(ShownText(w.shown.value)) else None);
  }

  lemma KeyAloneClean(key: string)
    requires SafeKey(key)
    ensures Clean(key + ":") && Trim(key + ":")
  {
    KeyClean(key);
    MarksClean();
    CleanMore(key, ":");
  }

  lemma BodyClassifies(w: Written, floats: FloatReader)
    requires WellWritten(w) && w.Entered? && w.key.Some?
    ensures MappingParts(BodyOf(w))
         == Ok((w.key.value, if w.shown.Some? then ShownText(w.shown.value) else ""))
  {
    var key := w.key.value;
    var rest := if w.shown.Some? then " " + ShownText(w.shown.value) else "";
    StripSpaceBefore(key);
    ColonAfterMute(key, rest);
    assert BodyOf(w) == key + ":" + rest;
    assert BodyOf(w)[..|key|] == key && BodyOf(w)[|key| + 1..] == rest;
    if w.shown.Some? {
      ShownStill(w.shown.value);
      StripSpaceBefore(ShownText(w.shown.value));
    }
  }

  /** What a line says depends on what its key and its value read as. */
  lemma PartsClassify(dash: bool, body: string, item: Item, floats: FloatReader, rest: string)
    requires Trim(body) && item.dash == dash && (dash || !Dashed(body)) && (dash || item.key.Some?)
    requires item.key.Some? ==> SafeKey(item.key.value) && MappingParts(body) == Ok((item.key.value, rest))
    requires item.key.None? ==> MappingParts(body).Err? && rest == body && item.payload.Some?
    requires if rest == "" then item.payload == None
             else item.payload.Some? && Scalar(rest, floats) == Ok(item.payload.value)
    ensures Classify((if dash then "- " else "") + body, floats) == Ok(item)
  {
    var text := (if dash then "- " else "") + body;
    StripSpaceBefore(body);
    if dash {
      assert text[0] == '-' && text[1] == ' ' && text[2..] == body;
    } else {
      assert text == body;
    }
  }

  lemma SaidBy(w: Written, floats: FloatReader, rest: string)
    requires WellWritten(w) && w.Entered?
    requires rest == if w.shown.Some? then ShownText(w.shown.value) else ""
    ensures var item := ItemOf(w, floats);
            if rest == "" then item.payload == None
            else item.payload.Some? && Scalar(rest, floats) == Ok(item.payload.value)
  {
    if w.shown.Some? {
      ShownReads(w.shown.value, floats);
      ShownStill(w.shown.value);
    }
  }

  lemma NoKeyNoParts(w: Written)
    requires WellWritten(w) && w.Entered? && w.key.None?
    ensures MappingParts(BodyOf(w)).Err? && BodyOf(w) == ShownText(w.shown.value)
  {
    ShownColons(w.shown.value);
  }

  /** A line classifies as what it says. */
  lemma LineClassifies(w: Written, floats: FloatReader)
    requires WellWritten(w) && w.Entered?
    ensures Classify(LineText(w), floats) == Ok(ItemOf(w, floats))
  {
    var rest := if w.shown.Some? then ShownText(w.shown.value) else "";
    BodyClean(w);
    SaidBy(w, floats, rest);
    if w.key.Some? {
      BodyClassifies(w, floats);
    } else {
      NoKeyNoParts(w);
    }
    if !w.dash {
      KeyNotDashed(w);
    }
    PartsClassify(w.dash, BodyOf(w), ItemOf(w, floats), floats, rest);
  }

  lemma KeyNotDashed(w: Written)
    requires WellWritten(w) && w.Entered? && !w.dash
    ensures !Dashed(BodyOf(w))
  {
    var body, key := BodyOf(w), w.key.value;
    assert body[0] == key[0];
    assert body[1] == if |key| == 1 then ':' else key[1];
  }

  // ----- its raw line -----

  lemma {:induction false} NoSharps(afterSpace: bool, q: Quote, w: string)
    requires Sharpless(afterSpace, q, w)
    ensures CommentAt(afterSpace, q, w) == |w|
    decreases |w|
  {
    if w != "" {
      NoSharps(IsSpace(w[0]), Step(q, w[0]), w[1..]);
    }
  }

  /** A comment sign behind a blank is found where it stands. */
  lemma {:induction false} CommentFound(afterSpace: bool, q: Quote, a: string, rest: string)
    requires Sharpless(afterSpace, q, a) && Run(q, a) == Plain
    requires if a == "" then afterSpace else IsSpace(a[|a| - 1])
    ensures CommentAt(afterSpace, q, a + "#" + rest) == |a|
    decreases |a|
  {
    var w := a + "#" + rest;
    if a == "" {
      assert w[0] == '#';
    } else {
      assert w[0] == a[0] && w[1..] == a[1..] + "#" + rest;
      CommentFound(IsSpace(a[0]), Step(q, a[0]), a[1..], rest);
    }
  }

  lemma StripTrailing(s: string)
    requires s != "" && !IsSpace(s[|s| - 1])
    ensures RStrip(s) == s && RStrip(s + " ") == s
  {
    assert (s + " ")[..|s|] == s;
  }

  lemma {:induction false} AllBlank(n: nat)
    ensures RStrip(Spaces(n)) == "" && LStrip("") == ""
  {
    if n > 0 {
      assert Spaces(n)[..n - 1] == Spaces(n - 1);
      AllBlank(n - 1);
    }
  }

  function Remarked(remark: string): string {
    if remark == "" then "" else " #" + remark
  }

  /** Without its comment a line is what stands in front of it. */
  lemma RemarkFree(front: string, remark: string)
    requires Clean(front) && front != "" && !IsSpace(front[|front| - 1])
    ensures CommentFree(front + Remarked(remark)) == Ok(front)
  {
    if remark == "" {
      StripTrailing(front);
      assert front + Remarked(remark) == front;
      NoSharps(true, Plain, front);
    } else {
      MarksClean();
      CleanMore(front, " ");
      CommentFound(true, Plain, front + " ", remark);
      RemarkShape(front, remark);
      RemarkCut(front, front + " " + "#" + remark);
    }
  }

  lemma RemarkShape(front: string, remark: string)
    requires remark != ""
    ensures front + Remarked(remark) == front + " " + "#" + remark
  {
    assert " #" == " " + "#";
  }

  lemma RemarkCut(front: string, raw: string)
    requires front != "" && !IsSpace(front[|front| - 1])
    requires CommentAt(true, Plain, raw) == |front| + 1 < |raw| && front + " " <= raw
    ensures CommentFree(raw) == Ok(front)
  {
    StripTrailing(front);
    assert raw[..|front| + 1] == front + " ";
  }

  lemma FrontClean(w: Written)
    requires WellWritten(w) && w.Entered?
    ensures var front := Spaces(w.indent) + LineText(w);
            Clean(front) && front != "" && !IsSpace(front[|front| - 1])
  {
    TextClean(w);
    SpacesClean(w.indent);
    CleanMore(Spaces(w.indent), LineText(w));
  }

  lemma TextClean(w: Written)
    requires WellWritten(w) && w.Entered?
    ensures Clean(LineText(w)) && LineText(w) != "" && !IsSpace(LineText(w)[|LineText(w)| - 1])
  {
    BodyClean(w);
    MarksClean();
    if w.dash {
      CleanMore("- ", BodyOf(w));
    } else {
      assert LineText(w) == BodyOf(w);
    }
  }

  lemma MarkedBehind(key: string, rest: string)
    requires SafeKey(key) && !Marked(key)
    ensures !Marked(key + ":" + rest) && !IsSpace((key + ":" + rest)[0])
  {
    var text := key + ":" + rest;
    assert text[..|key|] == key && text[|key|] == ':' && text[0] == key[0];
    if |key| >= 3 {
      assert text[..3] == key[..3];
    }
  }

  lemma MarkedLine(w: Written)
    requires WellWritten(w) && w.Entered?
    ensures !Marked(LineText(w)) && LineText(w) != "" && !IsSpace(LineText(w)[0])
  {
    var text := LineText(w);
    if w.dash {
      assert text[0] == '-' && text[1] == ' ';
    } else {
      var rest := if w.shown.Some? then " " + ShownText(w.shown.value) else "";
      MarkedBehind(w.key.value, rest);
      assert text == w.key.value + ":" + rest;
    }
  }

  lemma RemarkOnLine(front: string, remark: string)
    requires OnOneLine(front) && OnOneLine(remark)
    ensures OnOneLine(front + Remarked(remark))
  {
    assert OnOneLine(" #");
  }

  lemma RawOnLine(w: Written)
    requires WellWritten(w)
    ensures OnOneLine(RawOf(w)) && NoBreaks(RawOf(w)) && !HasTab(RawOf(w))
  {
    if w.Entered? {
      FrontClean(w);
      RemarkOnLine(Spaces(w.indent) + LineText(w), w.remark);
    } else {
      assert OnOneLine("#");
    }
  }

  lemma TextLexed(raw: string, indent: nat, text: string)
    requires !HasTab(raw) && CommentFree(raw) == Ok(Spaces(indent) + text) && indent % 2 == 0
    requires Trim(text) && !Marked(text)
    ensures LexLine(raw) == Ok(Some(Line(indent, text)))
  {
    LStripSpaces(indent, text);
    SpacesRun(indent, text);
    StripTrailing(text);
    assert (Spaces(indent) + text)[indent..] == text;
  }

  /** Its raw line lexes to its text at its indentation, or to nothing when it is an aside. */
  lemma WrittenLexes(w: Written)
    requires WellWritten(w)
    ensures LexLine(RawOf(w)) == Ok(if w.Aside? then None else Some(Line(w.indent, LineText(w))))
  {
    RawOnLine(w);
    if w.Aside? {
      AsideLexes(w);
    } else {
      FrontClean(w);
      MarkedLine(w);
      RemarkFree(Spaces(w.indent) + LineText(w), w.remark);
      LastKept(Spaces(w.indent), LineText(w));
      TextLexed(RawOf(w), w.indent, LineText(w));
    }
  }

  lemma LastKept(a: string, b: string)
    requires b != ""
    ensures (a + b)[|a + b| - 1] == b[|b| - 1]
  {
  }

  lemma AsideLexes(w: Written)
    requires WellWritten(w) && w.Aside?
    ensures CommentFree(RawOf(w)) == Ok("")
  {
    SpacesClean(w.indent);
    AllBlank(w.indent);
    if w.remark == "" {
      assert RawOf(w) == Spaces(w.indent);
      NoSharps(true, Plain, RawOf(w));
    } else {
      CommentFound(true, Plain, Spaces(w.indent), w.remark);
      assert RawOf(w) == Spaces(w.indent) + "#" + w.remark;
      assert RawOf(w)[..w.indent] == Spaces(w.indent);
    }
  }

  // ----- whole documents -----

  predicate AllWritten(ws: seq<Written>) {
    forall i :: 0 <= i < |ws| ==> WellWritten(ws[i])
  }

  function TextOfAll(ws: seq<Written>): string
    requires AllWritten(ws)
  {
    if ws == [] then "" else RawOf(ws[0]) + "\n" + TextOfAll(ws[1..])
  }

  /** What the lines say, one row for each that is not an aside. */
  function RowsOfAll(ws: seq<Written>, floats: FloatReader): seq<Row>
    requires AllWritten(ws)
  {
    if ws == [] then []
    else
      (if ws[0].Aside? then [] else [Row(ws[0].indent, ItemOf(ws[0], floats))]) + RowsOfAll(ws[1..], floats)
  }

  function LinesOfAll(ws: seq<Written>): seq<Line>
    requires AllWritten(ws)
  {
    if ws == [] then []
    else (if ws[0].Aside? then [] else [Line(ws[0].indent, LineText(ws[0]))]) + LinesOfAll(ws[1..])
  }

  lemma {:induction false} AllLex(ws: seq<Written>)
    requires AllWritten(ws)
    ensures LexAll(SplitLines(TextOfAll(ws))) == Ok(LinesOfAll(ws))
    decreases |ws|
  {
    if ws != [] {
      var raw, rest := RawOf(ws[0]), TextOfAll(ws[1..]);
      AllLex(ws[1..]);
      RawOnLine(ws[0]);
      SplitFirst(raw, rest);
      WrittenLexes(ws[0]);
      var raws := SplitLines(TextOfAll(ws));
      assert TextOfAll(ws) == raw + "\n" + rest;
      assert raws[0] == raw && raws[1..] == SplitLines(rest);
    }
  }

  lemma {:induction false} AllSay(ws: seq<Written>, floats: FloatReader)
    requires AllWritten(ws)
    ensures Spans(LinesOfAll(ws), [], RowsOfAll(ws, floats), floats)
    decreases |ws|
  {
    if ws != [] {
      AllSay(ws[1..], floats);
      if ws[0].Entered? {
        LineClassifies(ws[0], floats);
        var line, row := Line(ws[0].indent, LineText(ws[0])), Row(ws[0].indent, ItemOf(ws[0], floats));
        assert Spans([line] + LinesOfAll(ws[1..]), LinesOfAll(ws[1..]), [row], floats);
        SpansJoin([line] + LinesOfAll(ws[1..]), LinesOfAll(ws[1..]), [], [row], RowsOfAll(ws[1..], floats), floats);
      } else {
        assert LinesOfAll(ws) == LinesOfAll(ws[1..]) && RowsOfAll(ws, floats) == RowsOfAll(ws[1..], floats);
      }
    }
  }

  /**
   * A document whose lines say the rows of a well-formed tree, each value in any spelling or inline, with
   * comments and blank lines anywhere, loads as that tree.
   */
  lemma HandwrittenLoads(ws: seq<Written>, node: Node, floats: FloatReader)
    requires AllWritten(ws) && node.Mapping? && WellFormed(node)
    requires RowsOfAll(ws, floats) == BlockRows(node, 0)
    ensures Loads(TextOfAll(ws), floats) == Ok(ValueOf(node))
  {
    AllLex(ws);
    AllSay(ws, floats);
    ParserIsExact(LinesOfAll(ws), node, floats);
  }

  lemma OneLineOnly(w: Written, floats: FloatReader)
    requires WellWritten(w) && w.Entered?
    ensures TextOfAll([w]) == RawOf(w) + "\n"
    ensures RowsOfAll([w], floats) == [Row(w.indent, ItemOf(w, floats))]
  {
    assert [w][1..] == [];
    assert TextOfAll([w][1..]) == "" && RowsOfAll([w][1..], floats) == [];
  }

  lemma OneEntry(key: string, shown: Shown, remark: string)
    requires SafeKey(key) && !Marked(key) && WellShown(shown) && OnOneLine(remark)
    ensures RawOf(Entered(0, false, Some(key), Some(shown), remark))
         == key + ": " + ShownText(shown) + Remarked(remark)
  {
    var w, text := Entered(0, false, Some(key), Some(shown), remark), ShownText(shown);
    assert BodyOf(w) == key + ":" + (" " + text);
    KeyShape(key, text);
    assert Spaces(0) == "" && LineText(w) == "" + BodyOf(w);
    EmptyFront(key + ": " + text, Remarked(remark));
  }

  lemma KeyShape(key: string, text: string)
    ensures "" + (key + ":" + (" " + text)) == key + ": " + text
  {
    assert ": " == ":" + " ";
  }

  lemma EmptyFront(text: string, tail: string)
    ensures "" + text + tail == text + tail
  {
  }

  lemma OneNode(key: string, v: Value)
    ensures var node := Mapping([Entry.Entry(key, Inline(v))]);
            && WellFormed(node) && BlockRows(node, 0) == [Row(0, Item(false, Some(key), Some(v)))]
            && ValueOf(node) == Map([Field(key, v)])
  {
    var entries := [Entry.Entry(key, Inline(v))];
    assert entries[1..] == [];
    assert EntriesWellFormed(entries[1..]) && FieldsOf(entries[1..]) == [] && EntriesRows(entries[1..], 0) == [];
    assert FieldsOf(entries) == [Field(key, v)] + [];
    assert EntriesRows(entries, 0) == EntryRows(entries[0], 0) + [];
  }

  /** One line with a key loads as that key with what is shown behind it. */
  lemma KeyLoads(key: string, shown: Shown, remark: string, floats: FloatReader)
    requires SafeKey(key) && !Marked(key) && WellShown(shown) && OnOneLine(remark)
    ensures Loads(key + ": " + ShownText(shown) + Remarked(remark) + "\n", floats)
         == Ok(Map([Field(key, ShownValue(shown, floats))]))
  {
    OneLineOnly(Entered(0, false, Some(key), Some(shown), remark), floats);
    OneEntry(key, shown, remark);
    OneNode(key, ShownValue(shown, floats));
    HandwrittenLoads(
      [Entered(0, false, Some(key), Some(shown), remark)],
      Mapping([Entry.Entry(key, Inline(ShownValue(shown, floats)))]), floats);
  }
}
