/** What no document may hold. */
module Refusals {
  import opened Results
  import opened Text
  import opened Values
  import opened Scalars
  import opened Blocks
  import opened Grammar
  import opened Documents
  import opened RoundTrip
  import opened Reloading
  import opened Spellings
  import opened Handwritten

  // ----- a line that refuses the document -----

  /** Raw lines, each followed by a line feed. */
  function TextOfRaws(raws: seq<string>): string {
    if raws == [] then "" else raws[0] + "\n" + TextOfRaws(raws[1..])
  }

  lemma {:induction false} RawsSplit(raws: seq<string>)
    requires forall i :: 0 <= i < |raws| ==> NoBreaks(raws[i])
    ensures SplitLines(TextOfRaws(raws)) == raws
    decreases |raws|
  {
    if raws != [] {
      RawsSplit(raws[1..]);
      SplitFirst(raws[0], TextOfRaws(raws[1..]));
      assert raws == [raws[0]] + raws[1..];
    }
  }

  lemma {:induction false} OneRefuses(raws: seq<string>, k: nat)
    requires k < |raws| && LexLine(raws[k]).Err?
    ensures LexAll(raws).Err?
    decreases |raws|
  {
    if k > 0 {
      OneRefuses(raws[1..], k - 1);
    }
  }

  /** What opens a directive or another document. */
  predicate Opens(text: string) {
    "---" <= text || "..." <= text || "%YAML" <= text || "%TAG" <= text
  }

  /** A line of its own with a comment or without, at an odd indentation or with a directive or a marker in front. */
  predicate Misplaced(raw: string, n: nat, text: string, remark: string) {
    raw == Spaces(n) + text + Remarked(remark) && Trim(text) && Clean(text) && (n % 2 == 1 || Opens(text))
  }

  /** A tab; a misplaced line; or a quote left open with no comment sign before it. */
  ghost predicate BadLine(raw: string) {
    || '\t' in raw
    || (exists n: nat, text: string, remark: string :: Misplaced(raw, n, text, remark))
    || (Run(Plain, raw) != Plain && CommentAt(true, Plain, raw) == |raw|)
  }

  lemma FrontLexed(n: nat, text: string, raw: string)
    requires !HasTab(raw) && CommentFree(raw) == Ok(Spaces(n) + text) && Trim(text) && (n % 2 == 1 || Opens(text))
    ensures LexLine(raw).Err?
  {
    LStripSpaces(n, text);
    SpacesRun(n, text);
    StripTrailing(text);
    MarksOpen(text);
  }

  lemma MarksOpen(text: string)
    ensures Opens(text) <==> Marked(text)
  {
  }

  lemma BadIndent(n: nat, text: string, remark: string)
    requires Trim(text) && Clean(text)
    ensures CommentFree(Spaces(n) + text + Remarked(remark)) == Ok(Spaces(n) + text)
  {
    SpacesClean(n);
    CleanMore(Spaces(n), text);
    LastKept(Spaces(n), text);
    RemarkFree(Spaces(n) + text, remark);
  }

  lemma MisplacedRefused(raw: string, n: nat, text: string, remark: string)
    requires Misplaced(raw, n, text, remark)
    ensures LexLine(raw).Err?
  {
    BadIndent(n, text, remark);
    if !HasTab(raw) {
      FrontLexed(n, text, raw);
    }
  }

  lemma BadRefused(raw: string)
    requires BadLine(raw)
    ensures LexLine(raw).Err?
  {
    if n: nat, text: string, remark: string :| Misplaced(raw, n, text, remark) {
      MisplacedRefused(raw, n, text, remark);
    } else if '\t' in raw {
      assert HasTab(raw);
    }
  }

  /** One such line refuses the whole document. */
  lemma BadLineRefuses(raws: seq<string>, k: nat, floats: FloatReader)
    requires forall i :: 0 <= i < |raws| ==> NoBreaks(raws[i])
    requires k < |raws| && BadLine(raws[k])
    ensures Loads(TextOfRaws(raws), floats).Err?
  {
    RawsSplit(raws);
    BadRefused(raws[k]);
    OneRefuses(raws, k);
  }

  // ----- a value that refuses it -----

  /** An anchor, an alias, a tag, a merge key, a block scalar, or one side of an inline mapping. */
  predicate Advanced(t: string)
    requires t != ""
  {
    (t != "{}" && (t[0] == '{' || t[|t| - 1] == '}')) || Odd(t)
  }

  /** A character of none of the reserved words and numbers. */
  predicate Foreign(c: char) {
    Sigil(c) || c == '|' || c == '>' || c == '<'
  }

  lemma ForeignChar(t: string, i: nat)
    requires i < |t| && Foreign(t[i])
    ensures !LowerIs(t, "null") && !LowerIs(t, "true") && !LowerIs(t, "false") && t != "~"
    ensures !IsIntToken(t) && !IsFloatToken(t)
  {
    if IsIntToken(t) || IsFloatToken(t) {
      TokenChars(t);
    }
  }

  lemma TokenChars(t: string)
    requires IsIntToken(t) || IsFloatToken(t)
    ensures NumberText(t)
  {
    if IsFloatToken(t) {
      FloatTokenText(t);
    } else {
      var d := Unsigned(t);
      assert forall i :: 0 <= i < |d| ==> IsDigit(d[i]) && d[i] == t[|t| - |d| + i];
    }
  }

  /** The sign of an anchor, an alias or a tag. */
  predicate Sign(c: char) {
    c == '&' || c == '*' || c == '!'
  }

  /** Such a sign stands at the front of a word. */
  predicate Signed(t: string, i: int) {
    0 < i < |t| - 1 && Sign(t[i]) && IsSpace(t[i - 1]) && !IsSpace(t[i + 1])
  }

  predicate Odd(t: string)
    requires t != ""
  {
    || Sign(t[0]) || t[0] == '|' || t[0] == '>' || (|t| >= 2 && t[0] == '<' && t[1] == '<')
    || exists i :: 0 < i < |t| - 1 && Signed(t, i)
  }

  lemma SignedSigil(t: string, i: nat)
    requires Signed(t, i)
    ensures HasSigil(t)
  {
    assert Sigil(t[i]);
  }

  lemma SigilSigned(t: string) returns (i: nat)
    requires HasSigil(t)
    ensures Sign(t[0]) || (0 < i < |t| - 1 && Signed(t, i))
  {
    i :| 0 <= i < |t| - 1 && Sigil(t[i]) && (i == 0 || IsSpace(t[i - 1])) && !IsSpace(t[i + 1]);
    assert Sigil(t[i]) && Sign(t[i]);
    assert i == 0 || Signed(t, i);
  }

  lemma OddIsForbidden(t: string)
    requires t != ""
    ensures Forbidden(t) <==> Odd(t)
  {
    if HasSigil(t) {
      var i := SigilSigned(t);
    }
    if i :| 0 < i < |t| - 1 && Signed(t, i) {
      SignedSigil(t, i);
    }
  }

  lemma OddRefused(t: string, floats: FloatReader)
    requires t != ""
    ensures Word(t, floats).Err? <==> Odd(t)
  {
    OddIsForbidden(t);
    if Foreign(t[0]) {
      ForeignChar(t, 0);
    } else if Odd(t) {
      var i :| 0 < i < |t| - 1 && Signed(t, i);
      ForeignChar(t, i);
    }
  }

  predicate Opener(c: char) {
    c == '[' || c == '"' || c == '\''
  }

  /** Text that opens with neither a quote nor a bracket reads exactly when there is nothing advanced in it. */
  lemma AdvancedRefused(t: string, floats: FloatReader)
    requires t != "" && !Opener(t[0])
    ensures Scalar(t, floats).Err? <==> Advanced(t)
  {
    OddRefused(t, floats);
    assert t == "{}" ==> !Odd(t);
  }

  /** Text in single quotes reads exactly when it ends in another one. */
  lemma SingleQuoteRefused(t: string, floats: FloatReader)
    requires t != "" && t[0] == '\''
    ensures Scalar(t, floats).Err? <==> |t| < 2 || t[|t| - 1] != '\''
  {
  }

  /** What opens with a bracket and does not end in one is refused. */
  lemma BracketRefused(t: string, floats: FloatReader)
    requires t != "" && t[0] == '[' && t[|t| - 1] != ']'
    ensures Scalar(t, floats).Err?
  {
  }

  predicate Written(c: char) {
    c as int >= 32 || IsSpace(c)
  }

  /** A JSON string ends in its quote, up to blanks, and shows no control character but blanks. */
  predicate JsonShaped(w: string) {
    w != "" && (w[|w| - 1] == '"' || IsSpace(w[|w| - 1])) && forall i :: 0 <= i < |w| ==> Written(w[i])
  }

  lemma BlankShape(w: string)
    requires JsonBlank(w)
    ensures forall i :: 0 <= i < |w| ==> IsSpace(w[i])
  {
  }

  lemma ShapeBehind(w: string, n: nat)
    requires n <= |w| && JsonShaped(w[n..]) && forall i :: 0 <= i < n ==> Written(w[i])
    ensures JsonShaped(w)
  {
    assert w[|w| - 1] == w[n..][|w| - n - 1];
    forall i | n <= i < |w|
      ensures Written(w[i])
    {
      assert w[i] == w[n..][i - n];
    }
  }

  lemma HexShape(w: string)
    requires Hex4(w).Some?
    ensures forall i :: 0 <= i < 4 ==> Written(w[i])
  {
  }

  lemma EscapeShape(w: string)
    requires |w| >= 2 && w[0] == '\\' && w[1] == 'u' && UnicodeEscape(w).Some?
    ensures forall i :: 0 <= i < UnicodeEscape(w).value.1 ==> Written(w[i])
  {
    HexShape(w[2..]);
    assert forall i :: 2 <= i < 6 ==> w[i] == w[2..][i - 2];
    if UnicodeEscape(w).value.1 > 6 {
      HexShape(w[8..]);
      assert forall i :: 8 <= i < 12 ==> w[i] == w[8..][i - 8];
      assert w[6] == w[6..8][0] && w[7] == w[6..8][1];
    }
  }

  lemma {:induction false} JsonShape(w: string)
    requires JsonTail(w).Ok?
    ensures JsonShaped(w)
    decreases |w|
  {
    if w[0] == '"' {
      BlankShape(w[1..]);
      assert forall i :: 0 < i < |w| ==> w[i] == w[1..][i - 1];
    } else if w[0] == '\\' && w[1] == 'u' {
      var n := UnicodeEscape(w).value.1;
      EscapeShape(w);
      JsonShape(w[n..]);
      ShapeBehind(w, n);
    } else if w[0] == '\\' {
      JsonShape(w[2..]);
      ShapeBehind(w, 2);
    } else {
      JsonShape(w[1..]);
      ShapeBehind(w, 1);
    }
  }

  lemma QuotedShape(t: string)
    requires t != "" && t[0] == '"' && JsonTail(t[1..]).Ok?
    ensures |t| >= 2 && JsonShaped(t)
  {
    JsonShape(t[1..]);
    ShapeBehind(t, 1);
  }

  /** Text in double quotes is refused unless it ends in one, and if it holds a control character as it is. */
  lemma DoubleQuoteRefused(t: string, floats: FloatReader)
    requires t != "" && t[0] == '"' && !IsSpace(t[|t| - 1])
    requires |t| < 2 || t[|t| - 1] != '"' || exists i :: 0 <= i < |t| && !Written(t[i])
    ensures Scalar(t, floats).Err?
  {
    if JsonTail(t[1..]).Ok? {
      QuotedShape(t);
    }
  }

  // ----- one line, whatever is shown behind its key -----

  lemma TextLineLexes(key: string, text: string, remark: string)
    requires SafeKey(key) && !Marked(key) && Still(text) && OnOneLine(remark)
    ensures var line := key + ":" + (" " + text);
            LexLine(line + Remarked(remark)) == Ok(Some(Line(0, line))) && NoBreaks(line + Remarked(remark))
  {
    var line := key + ":" + (" " + text);
    KeyTextClean(key, text);
    MarkedBehind(key, " " + text);
    WholeLineLexes(line, remark);
  }

  lemma WholeLineLexes(line: string, remark: string)
    requires Clean(line) && Trim(line) && !Marked(line) && OnOneLine(remark)
    ensures LexLine(line + Remarked(remark)) == Ok(Some(Line(0, line))) && NoBreaks(line + Remarked(remark))
  {
    RemarkOnLine(line, remark);
    RemarkFree(line, remark);
    assert Spaces(0) + line == line;
    TextLexed(line + Remarked(remark), 0, line);
  }

  lemma LexOne(raw: string)
    requires LexLine(raw).Ok? && LexLine(raw).value.Some?
    ensures LexAll([raw] + []) == Ok([LexLine(raw).value.value])
  {
    var line := LexLine(raw).value.value;
    assert ([raw] + [])[1..] == [] && ([raw] + [])[0] == raw;
    assert LexAll([]) == Ok([]) && [line] + [] == [line];
  }

  lemma OnlyLine(raw: string, line: Line)
    requires LexLine(raw) == Ok(Some(line)) && NoBreaks(raw)
    ensures LexAll(SplitLines(raw + "\n")) == Ok([line])
  {
    SplitFirst(raw, "");
    assert raw + "\n" + "" == raw + "\n";
    LexOne(raw);
  }

  lemma TextLineParts(key: string, text: string)
    requires SafeKey(key) && !Marked(key) && Still(text)
    ensures var line := key + ":" + (" " + text); !Dashed(line) && MappingParts(line) == Ok((key, text))
  {
    var line := key + ":" + (" " + text);
    StripSpaceBefore(key);
    ColonAfterMute(key, " " + text);
    StripSpaceBefore(text);
    assert line[..|key|] == key && line[|key| + 1..] == " " + text;
    assert line[0] == key[0] && line[1] == if |key| == 1 then ':' else key[1];
  }

  lemma OneLineParses(line: Line, key: string, text: string, floats: FloatReader)
    requires line.indent == 0 && SafeKey(key) && text != ""
    requires !Dashed(line.text) && MappingParts(line.text) == Ok((key, text))
    ensures ParseLines([line], floats)
         == match Scalar(text, floats) case Ok(v) => Ok(Mapping([Entry.Entry(key, Inline(v))])) case Err => Err
  {
    var read := Scalar(text, floats);
    if read.Ok? {
      var node := Mapping([Entry.Entry(key, Inline(read.value))]);
      OneNode(key, read.value);
      assert Spans([line], [], BlockRows(node, 0), floats);
      ParserIsExact([line], node, floats);
    } else {
      assert Classify(line.text, floats).Err?;
      assert ParseEntries([line], 0, [], floats).Err?;
    }
  }

  /** Whatever stands behind a key on the only line of a document decides whether and as what it loads. */
  lemma TextLoads(key: string, text: string, remark: string, floats: FloatReader)
    requires SafeKey(key) && !Marked(key) && Still(text) && OnOneLine(remark)
    ensures Loads(key + ":" + (" " + text) + Remarked(remark) + "\n", floats)
         == match Scalar(text, floats) case Ok(v) => Ok(Map([Field(key, v)])) case Err => Err
  {
    var line := key + ":" + (" " + text);
    TextLineLexes(key, text, remark);
    TextLineParts(key, text);
    OnlyLine(line + Remarked(remark), Line(0, line));
    OneLineParses(Line(0, line), key, text, floats);
    if Scalar(text, floats).Ok? {
      OneNode(key, Scalar(text, floats).value);
    }
  }

  /** A document with an anchor, an alias, a tag, a merge, a block scalar or an inline mapping as a value is refused. */
  lemma AdvancedLoads(key: string, text: string, remark: string, floats: FloatReader)
    requires SafeKey(key) && !Marked(key) && Still(text) && OnOneLine(remark) && !Opener(text[0])
    ensures Loads(key + ":" + (" " + text) + Remarked(remark) + "\n", floats).Err? <==> Advanced(text)
  {
    TextLoads(key, text, remark, floats);
    AdvancedRefused(text, floats);
  }
}
