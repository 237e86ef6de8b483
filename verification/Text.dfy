/**
 * Characters and the quote-aware scanners of strict_yaml.py, read as functions of the text: white space, line breaks,
 * comments, colons and commas.
 */
module Text {
  import opened Results

  /** Python's `str.isspace` for one character; `strip` removes the same characters. */
  predicate IsSpace(c: char) {
    var n := c as int;
    || 0x09 <= n <= 0x0D || 0x1C <= n <= 0x20 || n == 0x85 || n == 0xA0 || n == 0x1680
    || 0x2000 <= n <= 0x200A || n == 0x2028 || n == 0x2029 || n == 0x202F || n == 0x205F || n == 0x3000
  }

  /** The characters at which Python's `str.splitlines` ends a line. */
  predicate IsBreak(c: char) {
    var n := c as int;
    0x0A <= n <= 0x0D || 0x1C <= n <= 0x1E || n == 0x85 || n == 0x2028 || n == 0x2029
  }

  function LStrip(s: string): (r: string)
    ensures |r| <= |s| && (r != "" ==> !IsSpace(r[0]))
  {
    if s != "" && IsSpace(s[0]) then LStrip(s[1..]) else s
  }

  function RStrip(s: string): (r: string)
    ensures r <= s && (r != "" ==> !IsSpace(r[|r| - 1]))
  {
    if s != "" && IsSpace(s[|s| - 1]) then RStrip(s[..|s| - 1]) else s
  }

  function Strip(s: string): (r: string)
    ensures |r| <= |s|
  {
    RStrip(LStrip(s))
  }

  /** A text that `strip` leaves alone. */
  predicate Trim(s: string) {
    s != "" && !IsSpace(s[0]) && !IsSpace(s[|s| - 1])
  }

  lemma StripSpaceBefore(s: string)
    requires Trim(s)
    ensures Strip(s) == s && Strip(" " + s) == s
  {
    assert (" " + s)[1..] == s;
  }

  /** The position of the first line break, or the length of the text. */
  function BreakAt(text: string): (n: nat)
    ensures n <= |text|
    ensures forall i :: 0 <= i < n ==> !IsBreak(text[i])
    ensures n < |text| ==> IsBreak(text[n])
  {
    if text == "" || IsBreak(text[0]) then 0 else 1 + BreakAt(text[1..])
  }

  /** Python's `str.splitlines`. */
  function SplitLines(text: string): (lines: seq<string>) {
    if text == "" then []
    else
      var n := BreakAt(text);
      if n == |text| then [text]
      else if text[n] == '\r' && n + 1 < |text| && text[n + 1] == '\n' then [text[..n]] + SplitLines(text[n + 2..])
      else [text[..n]] + SplitLines(text[n + 1..])
  }

  /** Where a scanner stands: outside quotes, inside either kind, or just after a backslash inside double quotes. */
  datatype Quote = Plain | Single | Double | Escape

  function Step(q: Quote, c: char): Quote {
    match q
    case Escape => Double
    case Double => if c == '\\' then Escape else if c == '"' then Plain else Double
    case Single => if c == '\'' then Plain else Single
    case Plain => if c == '"' then Double else if c == '\'' then Single else Plain
  }

  function Run(q: Quote, w: string): Quote
    decreases |w|
  {
    if w == "" then q else Run(Step(q, w[0]), w[1..])
  }

  /** The characters a scanner meets outside quotes. */
  function Bare(q: Quote, w: string): string
    decreases |w|
  {
    if w == "" then "" else (if q == Plain then [w[0]] else "") + Bare(Step(q, w[0]), w[1..])
  }

  lemma {:induction false} RunConcat(q: Quote, a: string, b: string)
    ensures Run(q, a + b) == Run(Run(q, a), b)
    ensures Bare(q, a + b) == Bare(q, a) + Bare(Run(q, a), b)
    decreases |a|
  {
    if a == "" {
      assert a + b == b;
    } else {
      assert (a + b)[1..] == a[1..] + b;
      RunConcat(Step(q, a[0]), a[1..], b);
    }
  }

  /** The first comment sign outside quotes that follows white space or starts the text; the length if none. */
  function CommentAt(afterSpace: bool, q: Quote, w: string): (n: nat)
    ensures n <= |w|
    decreases |w|
  {
    if w == "" || (q == Plain && w[0] == '#' && afterSpace) then 0
    else 1 + CommentAt(IsSpace(w[0]), Step(q, w[0]), w[1..])
  }

  function CommentFree(text: string): Result<string> {
    var n := CommentAt(true, Plain, text);
    if n < |text| then Ok(RStrip(text[..n]))
    else if Run(Plain, text) != Plain then Err
    else Ok(RStrip(text))
  }

  /** The first colon outside quotes at bracket depth zero; the length if none. */
  function ColonAt(q: Quote, depth: int, w: string): (n: nat)
    ensures n <= |w|
    decreases |w|
  {
    if w == "" || (q == Plain && depth == 0 && w[0] == ':') then 0
    else 1 + ColonAt(Step(q, w[0]), depth + Nesting(q, w[0]), w[1..])
  }

  function Nesting(q: Quote, c: char): int {
    if q == Plain && c == '[' then 1 else if q == Plain && c == ']' then -1 else 0
  }

  function MappingParts(text: string): Result<(string, string)> {
    var n := ColonAt(Plain, 0, text);
    if n == |text| then Err else Ok((Strip(text[..n]), Strip(text[n + 1..])))
  }

  /** The text between commas outside quotes; `piece` is what the current piece already holds. */
  function CommaPieces(q: Quote, piece: string, w: string): (pieces: seq<string>)
    decreases |w|
  {
    if w == "" then [Strip(piece)]
    else if q == Plain && w[0] == ',' then [Strip(piece)] + CommaPieces(Plain, "", w[1..])
    else CommaPieces(Step(q, w[0]), piece + [w[0]], w[1..])
  }

  lemma {:induction false} PiecesFit(q: Quote, piece: string, w: string)
    ensures forall i :: 0 <= i < |CommaPieces(q, piece, w)| ==> |CommaPieces(q, piece, w)[i]| <= |piece| + |w|
    decreases |w|
  {
    if w != "" {
      if q == Plain && w[0] == ',' {
        PiecesFit(Plain, "", w[1..]);
      } else {
        PiecesFit(Step(q, w[0]), piece + [w[0]], w[1..]);
      }
    }
  }

  function InlineParts(value: string): (r: Result<seq<string>>)
    ensures r.Ok? ==> forall i :: 0 <= i < |r.value| ==> |r.value[i]| <= |value|
  {
    PiecesFit(Plain, "", value);
    var pieces := CommaPieces(Plain, "", value);
    if "" in pieces then Err else Ok(pieces)
  }

  lemma {:induction false} NoBareSign(afterSpace: bool, q: Quote, w: string)
    requires '#' !in Bare(q, w)
    ensures CommentAt(afterSpace, q, w) == |w|
    decreases |w|
  {
    if w != "" {
      assert q == Plain ==> Bare(q, w)[0] == w[0];
      NoBareSign(IsSpace(w[0]), Step(q, w[0]), w[1..]);
    }
  }

  lemma {:induction false} NoBareColon(q: Quote, depth: int, w: string)
    requires ':' !in Bare(q, w)
    ensures ColonAt(q, depth, w) == |w|
    decreases |w|
  {
    if w != "" {
      assert q == Plain ==> Bare(q, w)[0] == w[0];
      NoBareColon(Step(q, w[0]), depth + Nesting(q, w[0]), w[1..]);
    }
  }

  /** An open quote at the end makes the whole line unreadable, whatever the comment rule says before it. */
  lemma OpenQuote(w: string)
    requires '#' !in Bare(Plain, w) && Run(Plain, w) != Plain
    ensures CommentFree(w) == Err
  {
    NoBareSign(true, Plain, w);
  }

  /** Letters that mean nothing to any scanner: they neither quote, nest, separate nor comment. */
  predicate Mute(w: string) {
    forall i :: 0 <= i < |w| ==> MuteChar(w[i])
  }

  predicate MuteChar(c: char) {
    c != '"' && c != '\'' && c != '#' && c != ':' && c != '[' && c != ']' && c != ','
  }

  lemma {:induction false} MuteRun(w: string)
    requires Mute(w)
    ensures Run(Plain, w) == Plain && Bare(Plain, w) == w
  {
    if w != "" {
      assert MuteChar(w[0]);
      MuteRun(w[1..]);
    }
  }

  lemma {:induction false} ColonAfterMute(w: string, rest: string)
    requires Mute(w)
    ensures ColonAt(Plain, 0, w + ":" + rest) == |w|
  {
    var text := w + ":" + rest;
    if w == "" {
      assert text[0] == ':';
    } else {
      assert MuteChar(w[0]);
      assert text[1..] == w[1..] + ":" + rest;
      ColonAfterMute(w[1..], rest);
    }
  }
}
