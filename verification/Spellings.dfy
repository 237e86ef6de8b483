/** Documents as people write them. */
module Spellings {
  // Values spelled in other ways than the printer's, inline sequences, comments and blank lines.

  import opened Results
  import opened Text
  import opened Values
  import opened Scalars
  import opened Blocks
  import opened Grammar
  import opened Documents
  import opened RoundTrip
  import opened Reloading
  import opened Escapes
  import opened Numbers

  // ----- one value -----

  /** A one-line value as the printer writes it, or as people do. */
  datatype Spelling =
    | Printed(v: Value)
    | SingleQuoted(s: string)
    | DoubleQuoted(signs: seq<Sign>)
    | Unquoted(w: string)
    | Whole(sign: string, n: nat)
    | Fractional(parts: Parts)
    | Tilde

  /** A string between single quotes: each of its own is doubled. */
  function Doubled(s: string): string {
    if s == "" then "" else (if s[0] == '\'' then "''" else [s[0]]) + Doubled(s[1..])
  }

  function TextOf(x: Spelling): string
    requires x.Printed? ==> OneLine(x.v)
  {
    match x
    case Printed(v) => ScalarText(v)
    case SingleQuoted(s) => "'" + Doubled(s) + "'"
    case DoubleQuoted(signs) => "\"" + SignsText(signs) + "\""
    case Unquoted(w) => w
    case Whole(sign, n) => sign + Digits(n)
    case Fractional(parts) => PartsText(parts)
    case Tilde => "~"
  }

  predicate Letter(c: char) {
    'a' <= c <= 'z' || 'A' <= c <= 'Z'
  }

  /** A character of an unquoted word. */
  predicate WordChar(c: char) {
    (MuteChar(c) || c == ':' || c == '#') && !Sigil(c) && (c == ' ' || !IsSpace(c))
  }

  /** Starts with a letter, ends in neither a blank nor a brace, and holds nothing that means something else. */
  predicate IsWord(w: string) {
    && w != "" && Letter(w[0]) && w[|w| - 1] != ' ' && w[|w| - 1] != '}'
    && (forall i :: 0 <= i < |w| ==> WordChar(w[i]))
    && forall i :: 0 < i < |w| && w[i] == '#' ==> w[i - 1] != ' '
  }

  /** A character that neither ends a line nor is a tab. */
  predicate LineChar(c: char) {
    !IsBreak(c) && c != '\t'
  }

  predicate OnOneLine(s: string) {
    forall i :: 0 <= i < |s| ==> LineChar(s[i])
  }

  predicate Spelled(x: Spelling) {
    match x
    case Printed(v) =>
      OneLine(v) && (v.Float? ==> IsFloatRepr(v.repr)) && (v.Str? ==> Unbroken(v.s))
    case SingleQuoted(s) => OnOneLine(s)
    case DoubleQuoted(signs) => AllSigns(signs) && OnOneLine(SignsText(signs))
    case Unquoted(w) => IsWord(w)
    case Whole(sign, _) => IsSign(sign)
    case Fractional(parts) => WellParted(parts)
    case Tilde => true
  }

  function Lowered(w: string): string {
    if w == "" then "" else [if 'A' <= w[0] <= 'Z' then (w[0] as int + 32) as char else w[0]] + Lowered(w[1..])
  }

  /** What a spelling means; reserved words may be written in any case. */
  function Meaning(x: Spelling, floats: FloatReader): Value
    requires Spelled(x)
  {
    match x
    case Printed(v) => RereadOneLine(v, floats)
    case SingleQuoted(s) => Str(s)
    case DoubleQuoted(signs) => Str(StringOf(signs))
    case Unquoted(w) =>
      if Lowered(w) == "null" then Null
      else if Lowered(w) == "true" then Bool(true)
      else if Lowered(w) == "false" then Bool(false)
      else Str(w)
    case Whole(sign, n) => Int(Signed(sign, n))
    case Fractional(parts) => Float(floats(PartsText(parts)))
    case Tilde => Null
  }

  /** Outside quotes, every comment sign stands behind something else than a blank, and so opens no comment. */
  predicate Sharpless(afterSpace: bool, q: Quote, t: string)
    decreases |t|
  {
    t == ""
    || (!(q == Plain && t[0] == '#' && afterSpace) && Sharpless(IsSpace(t[0]), Step(q, t[0]), t[1..]))
  }

  /** No blanks around it, no quote left open, no comment in it, and all on one line. */
  predicate Still(t: string) {
    Trim(t) && Run(Plain, t) == Plain && OnOneLine(t) && Sharpless(true, Plain, t)
  }

  /** No bracket outside quotes. */
  predicate Flat(t: string) {
    '[' !in Bare(Plain, t) && ']' !in Bare(Plain, t)
  }

  /** What an inline sequence takes as one item: no comma outside quotes, and no bracket but an empty list. */
  predicate Piece(t: string) {
    Still(t) && ',' !in Bare(Plain, t) && (Flat(t) || t == "[]")
  }

  /** No scanner sees a comment sign, a colon or a comma in the text, nor blanks around it; it stays on its line. */
  predicate OnePiece(t: string) {
    && Trim(t) && Run(Plain, t) == Plain && OnOneLine(t) && (Flat(t) || t == "[]")
    && '#' !in Bare(Plain, t) && ':' !in Bare(Plain, t) && ',' !in Bare(Plain, t)
  }

  lemma {:induction false} BareSharpless(afterSpace: bool, q: Quote, t: string)
    requires '#' !in Bare(q, t)
    ensures Sharpless(afterSpace, q, t)
    decreases |t|
  {
    if t != "" {
      assert q == Plain ==> Bare(q, t)[0] == t[0];
      BareSharpless(IsSpace(t[0]), Step(q, t[0]), t[1..]);
    }
  }

  lemma OnePieceIsPiece(t: string)
    requires OnePiece(t)
    ensures Piece(t)
  {
    BareSharpless(true, Plain, t);
  }

  predicate Unquote(c: char) {
    c != '"' && c != '\''
  }

  lemma {:induction false} UnquotedRun(w: string)
    requires forall i :: 0 <= i < |w| ==> Unquote(w[i])
    ensures Run(Plain, w) == Plain && Bare(Plain, w) == w
  {
    if w != "" {
      assert Unquote(w[0]);
      UnquotedRun(w[1..]);
    }
  }

  lemma {:induction false} UnquotedSharps(afterSpace: bool, w: string)
    requires forall i :: 0 <= i < |w| ==> Unquote(w[i])
    requires forall i :: 0 < i < |w| && w[i] == '#' ==> !IsSpace(w[i - 1])
    requires w != "" && afterSpace ==> w[0] != '#'
    ensures Sharpless(afterSpace, Plain, w)
    decreases |w|
  {
    if w != "" {
      assert Unquote(w[0]);
      assert forall i :: 0 <= i < |w[1..]| ==> w[1..][i] == w[i + 1];
      UnquotedSharps(IsSpace(w[0]), w[1..]);
    }
  }

  lemma WordPiece(w: string)
    requires IsWord(w)
    ensures Piece(w) && Bare(Plain, w) == w
  {
    forall i | 0 <= i < |w|
      ensures Unquote(w[i]) && LineChar(w[i]) && w[i] != ',' && w[i] != '[' && w[i] != ']'
      ensures !IsSpace(w[i]) || w[i] == ' '
    {
      assert WordChar(w[i]);
    }
    UnquotedRun(w);
    UnquotedSharps(true, w);
  }

  lemma {:induction false} LoweredIs(w: string, word: string)
    requires forall i :: 0 <= i < |word| ==> 'a' <= word[i] <= 'z'
    ensures LowerIs(w, word) <==> Lowered(w) == word
  {
    if w != "" && word != "" {
      LoweredIs(w[1..], word[1..]);
      assert w == [w[0]] + w[1..] && word == [word[0]] + word[1..];
      assert Lowered(w)[1..] == Lowered(w[1..]);
      assert LowerIs(w, word) <==> LowerIs([w[0]], [word[0]]) && LowerIs(w[1..], word[1..]);
    }
  }

  lemma WordIsNothingElse(w: string)
    requires IsWord(w)
    ensures !IsIntToken(w) && !IsFloatToken(w) && !Forbidden(w) && w != "~"
  {
    assert Unsigned(w) == w && DigitRun(w) == 0;
    assert forall i :: 0 <= i < |w| ==> WordChar(w[i]) && !Sigil(w[i]);
  }

  lemma UnquotedIsWord(w: string, floats: FloatReader)
    requires IsWord(w)
    ensures Scalar(w, floats) == Word(w, floats)
  {
    assert WordChar(w[|w| - 1]);
  }

  lemma UnquotedReads(w: string, floats: FloatReader)
    requires IsWord(w)
    ensures Scalar(w, floats) == Ok(Meaning(Unquoted(w), floats))
  {
    LoweredIs(w, "null");
    LoweredIs(w, "true");
    LoweredIs(w, "false");
    WordIsNothingElse(w);
    UnquotedIsWord(w, floats);
  }

  lemma {:induction false} Undoubled(s: string)
    ensures SingleUnquoted(Doubled(s)) == s
  {
    if s != "" {
      Undoubled(s[1..]);
      var t := Doubled(s);
      if s[0] == '\'' {
        assert t[2..] == Doubled(s[1..]);
      } else {
        assert t[1..] == Doubled(s[1..]);
      }
    }
  }

  lemma SingleQuotedReads(s: string, floats: FloatReader)
    ensures Scalar("'" + Doubled(s) + "'", floats) == Ok(Str(s))
  {
    Undoubled(s);
    var t := "'" + Doubled(s) + "'";
    assert t[1..|t| - 1] == Doubled(s);
  }

  lemma DoubleQuotedReads(signs: seq<Sign>, floats: FloatReader)
    requires AllSigns(signs)
    ensures Scalar("\"" + SignsText(signs) + "\"", floats) == Ok(Str(StringOf(signs)))
  {
    SignsRead(signs);
    var t := "\"" + SignsText(signs) + "\"";
    assert t[1..] == SignsText(signs) + "\"";
  }

  lemma WholeReads(sign: string, n: nat, floats: FloatReader)
    requires IsSign(sign)
    ensures Scalar(sign + Digits(n), floats) == Ok(Int(Signed(sign, n)))
  {
    IntTokens(sign + Digits(n));
    NumberIsWord(sign + Digits(n), floats);
  }

  lemma FractionalReads(parts: Parts, floats: FloatReader)
    requires WellParted(parts)
    ensures Scalar(PartsText(parts), floats) == Ok(Float(floats(PartsText(parts))))
  {
    PartsRead(parts);
    FloatTokenText(PartsText(parts));
    NumberIsWord(PartsText(parts), floats);
  }

  /** Every spelling reads as what it means. */
  lemma SpellingReads(x: Spelling, floats: FloatReader)
    requires Spelled(x)
    ensures Scalar(TextOf(x), floats) == Ok(Meaning(x, floats))
  {
    match x
    case Printed(v) => ScalarReads(v, floats);
    case SingleQuoted(s) => SingleQuotedReads(s, floats);
    case DoubleQuoted(signs) => DoubleQuotedReads(signs, floats);
    case Unquoted(w) => UnquotedReads(w, floats);
    case Whole(sign, n) => WholeReads(sign, n, floats);
    case Fractional(parts) => FractionalReads(parts, floats);
    case Tilde =>
  }

  // ----- how it scans -----

  lemma {:induction false} DoubledScans(s: string)
    ensures Run(Quote.Single, Doubled(s)) == Quote.Single
    ensures forall c :: c in Bare(Quote.Single, Doubled(s)) ==> c == '\''
  {
    if s != "" {
      DoubledScans(s[1..]);
      var head := if s[0] == '\'' then "''" else [s[0]];
      RunConcat(Quote.Single, head, Doubled(s[1..]));
      assert "''"[1..] == "'" && "'"[1..] == "";
      assert [s[0]][1..] == "";
    }
  }

  lemma {:induction false} DoubledOnLine(s: string)
    requires OnOneLine(s)
    ensures OnOneLine(Doubled(s))
  {
    if s != "" {
      assert LineChar(s[0]);
      DoubledOnLine(s[1..]);
    }
  }

  lemma SingleQuotedScans(s: string)
    requires OnOneLine(s)
    ensures OnePiece("'" + Doubled(s) + "'")
  {
    DoubledScans(s);
    DoubledOnLine(s);
    BetweenSingles(Doubled(s));
  }

  lemma BetweenSingles(t: string)
    requires Run(Quote.Single, t) == Quote.Single && OnOneLine(t)
    requires forall c :: c in Bare(Quote.Single, t) ==> c == '\''
    ensures OnePiece("'" + t + "'")
  {
    RunConcat(Quote.Single, t, "'");
    RunConcat(Plain, "'", t + "'");
    assert "'"[1..] == "";
    assert "'" + t + "'" == "'" + (t + "'");
  }

  lemma DoubleQuotedScans(signs: seq<Sign>)
    requires AllSigns(signs) && OnOneLine(SignsText(signs))
    ensures OnePiece("\"" + SignsText(signs) + "\"")
  {
    SignsScan(signs);
    BetweenQuotes(SignsText(signs));
  }

  lemma BetweenQuotes(t: string)
    requires Run(Double, t) == Double && Bare(Double, t) == "" && OnOneLine(t)
    ensures OnePiece("\"" + t + "\"")
  {
    RunConcat(Double, t, "\"");
    RunConcat(Plain, "\"", t + "\"");
    assert "\""[1..] == "";
    assert "\"" + t + "\"" == "\"" + (t + "\"");
  }

  lemma MuteOnePiece(t: string)
    requires Trim(t) && Mute(t) && OnOneLine(t)
    ensures OnePiece(t)
  {
    MuteRun(t);
  }

  lemma QuotedOnePiece(s: string)
    requires Unbroken(s)
    ensures OnePiece(Quoted(s))
  {
    QuotedScans(s);
    QuotedIsTrim(s);
    EscapedBreaks(s);
    EscapedQuiet(s);
  }

  lemma NumberOnePiece(t: string)
    requires NumberText(t) || t == "inf" || t == "-inf" || t == "nan"
    ensures OnePiece(t)
  {
    if NumberText(t) {
      NumberScans(t);
      assert forall i :: 0 <= i < |t| ==> NumberChar(t[i]);
    }
    MuteOnePiece(t);
  }

  lemma PrintedOnePiece(v: Value)
    requires Spelled(Printed(v))
    ensures OnePiece(ScalarText(v))
  {
    match v
    case Str(s) => QuotedOnePiece(s);
    case Float(repr) =>
      if IsFloatToken(repr) {
        FloatTokenText(repr);
      }
      NumberOnePiece(repr);
    case Int(n) =>
      IntTextNumber(n);
      NumberOnePiece(IntText(n));
    case _ => WordOnePiece(v);
  }

  lemma IntTextNumber(n: int)
    ensures NumberText(IntText(n))
  {
    assert forall i :: 0 <= i < |IntText(n)| ==> IntText(n)[i] == '-' || IsDigit(IntText(n)[i]);
  }

  lemma WordOnePiece(v: Value)
    requires OneLine(v) && !v.Str? && !v.Float? && !v.Int?
    ensures OnePiece(ScalarText(v))
  {
    if v.List? {
      EmptyListScans();
      assert OnOneLine("[]") && Trim("[]");
    } else {
      MuteOnePiece(ScalarText(v));
    }
  }

  /** A spelling that shows no colon outside quotes. */
  predicate Colonless(x: Spelling) {
    x.Unquoted? ==> ':' !in x.w
  }

  lemma SpellingOnePiece(x: Spelling)
    requires Spelled(x) && !x.Unquoted?
    ensures OnePiece(TextOf(x))
  {
    match x
    case Printed(v) => PrintedOnePiece(v);
    case SingleQuoted(s) => SingleQuotedScans(s);
    case DoubleQuoted(signs) => DoubleQuotedScans(signs);
    case Whole(sign, n) => NumberOnePiece(sign + Digits(n));
    case Fractional(parts) =>
      PartsRead(parts);
      FloatTokenText(PartsText(parts));
      NumberOnePiece(PartsText(parts));
    case Tilde => MuteOnePiece("~");
  }

  lemma SpellingScans(x: Spelling)
    requires Spelled(x)
    ensures Piece(TextOf(x)) && (Colonless(x) ==> ':' !in Bare(Plain, TextOf(x)))
  {
    if x.Unquoted? {
      WordPiece(x.w);
    } else {
      SpellingOnePiece(x);
      OnePieceIsPiece(TextOf(x));
    }
  }

  // ----- inline sequences -----

  predicate AllSpelled(items: seq<Spelling>) {
    forall i :: 0 <= i < |items| ==> Spelled(items[i])
  }

  function TextsOf(items: seq<Spelling>): (texts: seq<string>)
    requires AllSpelled(items)
    ensures |texts| == |items| && forall i :: 0 <= i < |items| ==> texts[i] == TextOf(items[i])
  {
    seq(|items|, i requires 0 <= i < |items| => TextOf(items[i]))
  }

  function Meanings(items: seq<Spelling>, floats: FloatReader): (values: seq<Value>)
    requires AllSpelled(items)
    ensures |values| == |items| && forall i :: 0 <= i < |items| ==> values[i] == Meaning(items[i], floats)
  {
    seq(|items|, i requires 0 <= i < |items| => Meaning(items[i], floats))
  }

  /** Texts behind one another, a comma and some blanks in between. */
  function Joined(texts: seq<string>, gap: nat): string
    requires texts != []
  {
    if |texts| == 1 then texts[0] else texts[0] + "," + Spaces(gap) + Joined(texts[1..], gap)
  }

  function InlineText(items: seq<Spelling>, gap: nat): string
    requires AllSpelled(items) && items != []
  {
    "[" + Joined(TextsOf(items), gap) + "]"
  }

  predicate AllPieces(texts: seq<string>) {
    forall i :: 0 <= i < |texts| ==> Piece(texts[i])
  }

  /** Up to a bare comma, a piece is what has been read so far. */
  lemma {:induction false} PieceEnds(q: Quote, piece: string, t: string, rest: string)
    requires ',' !in Bare(q, t) && Run(q, t) == Plain
    ensures CommaPieces(q, piece, t) == [Strip(piece + t)]
    ensures CommaPieces(q, piece, t + "," + rest) == [Strip(piece + t)] + CommaPieces(Plain, "", rest)
    decreases |t|
  {
    if t == "" {
      assert piece + t == piece && t + "," + rest == "," + rest && ("," + rest)[1..] == rest;
    } else {
      assert q == Plain ==> Bare(q, t)[0] == t[0];
      assert (t + "," + rest)[1..] == t[1..] + "," + rest;
      assert piece + [t[0]] + t[1..] == piece + t;
      PieceEnds(Step(q, t[0]), piece + [t[0]], t[1..], rest);
    }
  }

  lemma LeadPiece(lead: nat, t: string)
    requires Piece(t)
    ensures ',' !in Bare(Plain, Spaces(lead) + t) && Run(Plain, Spaces(lead) + t) == Plain
    ensures Strip(Spaces(lead) + t) == t
  {
    SpacesBare(lead);
    RunConcat(Plain, Spaces(lead), t);
    LStripSpaces(lead, t);
  }

  lemma JoinedFirst(texts: seq<string>, gap: nat, lead: nat)
    requires |texts| > 1
    ensures Spaces(lead) + Joined(texts, gap)
         == Spaces(lead) + texts[0] + "," + (Spaces(gap) + Joined(texts[1..], gap))
  {
  }

  lemma FirstPiece(t: string, lead: nat, rest: string)
    requires Piece(t)
    ensures CommaPieces(Plain, "", Spaces(lead) + t) == [t]
    ensures CommaPieces(Plain, "", Spaces(lead) + t + "," + rest) == [t] + CommaPieces(Plain, "", rest)
  {
    LeadPiece(lead, t);
    PieceEnds(Plain, "", Spaces(lead) + t, rest);
    assert "" + (Spaces(lead) + t) == Spaces(lead) + t;
  }

  lemma {:induction false} PiecesOf(texts: seq<string>, gap: nat, lead: nat)
    requires texts != [] && AllPieces(texts)
    ensures CommaPieces(Plain, "", Spaces(lead) + Joined(texts, gap)) == texts
    decreases |texts|
  {
    if |texts| == 1 {
      FirstPiece(texts[0], lead, "");
      assert texts == [texts[0]];
    } else {
      FirstPiece(texts[0], lead, Spaces(gap) + Joined(texts[1..], gap));
      JoinedFirst(texts, gap, lead);
      PiecesOf(texts[1..], gap, gap);
      assert texts == [texts[0]] + texts[1..];
    }
  }

  lemma {:induction false} SpacesBare(n: nat)
    ensures Run(Plain, Spaces(n)) == Plain && forall c :: c in Bare(Plain, Spaces(n)) ==> c == ' '
  {
    if n > 0 {
      assert Spaces(n)[1..] == Spaces(n - 1);
      SpacesBare(n - 1);
    }
  }

  lemma {:induction false} AllScalars(texts: seq<string>, values: seq<Value>, floats: FloatReader, bound: nat)
    requires |texts| == |values| && forall i :: 0 <= i < |texts| ==> |texts[i]| < bound
    requires forall i :: 0 <= i < |texts| ==> Scalar(texts[i], floats) == Ok(values[i])
    ensures ScalarAll(texts, floats, bound) == Ok(values)
    decreases |texts|
  {
    if texts != [] {
      AllScalars(texts[1..], values[1..], floats, bound);
      assert values == [values[0]] + values[1..];
    }
  }

  lemma AllRead(items: seq<Spelling>, texts: seq<string>, floats: FloatReader, bound: nat)
    requires AllSpelled(items) && texts == TextsOf(items)
    requires forall i :: 0 <= i < |texts| ==> |texts[i]| < bound
    ensures ScalarAll(texts, floats, bound) == Ok(Meanings(items, floats))
  {
    forall i | 0 <= i < |items|
      ensures Scalar(texts[i], floats) == Ok(Meaning(items[i], floats))
    {
      SpellingReads(items[i], floats);
    }
    AllScalars(texts, Meanings(items, floats), floats, bound);
  }

  lemma {:induction false} JoinedTrim(texts: seq<string>, gap: nat)
    requires texts != [] && AllPieces(texts)
    ensures Trim(Joined(texts, gap)) && |Joined(texts, gap)| >= |texts[0]|
    decreases |texts|
  {
    if |texts| > 1 {
      JoinedTrim(texts[1..], gap);
    }
  }

  lemma TextsArePieces(items: seq<Spelling>)
    requires AllSpelled(items)
    ensures AllPieces(TextsOf(items))
  {
    forall i | 0 <= i < |items|
      ensures Piece(TextsOf(items)[i])
    {
      SpellingScans(items[i]);
    }
  }

  lemma BracketedReads(inner: string, texts: seq<string>, values: seq<Value>, floats: FloatReader)
    requires Trim(inner) && InlineParts(inner) == Ok(texts)
    requires forall i :: 0 <= i < |texts| ==> |texts[i]| < |inner| + 2
    requires ScalarAll(texts, floats, |inner| + 2) == Ok(values)
    ensures Scalar("[" + inner + "]", floats) == Ok(List(values))
  {
    var text := "[" + inner + "]";
    StripSpaceBefore(inner);
    assert text[1..|text| - 1] == inner;
  }

  lemma JoinedParts(texts: seq<string>, gap: nat)
    requires texts != [] && AllPieces(texts)
    ensures Trim(Joined(texts, gap)) && InlineParts(Joined(texts, gap)) == Ok(texts)
  {
    JoinedTrim(texts, gap);
    PiecesOf(texts, gap, 0);
    assert Spaces(0) + Joined(texts, gap) == Joined(texts, gap);
  }

  /** An inline sequence reads as the list of what its items mean, in order. */
  lemma InlineReads(items: seq<Spelling>, gap: nat, floats: FloatReader)
    requires AllSpelled(items) && items != []
    ensures Scalar(InlineText(items, gap), floats) == Ok(List(Meanings(items, floats)))
  {
    var texts := TextsOf(items);
    var inner := Joined(texts, gap);
    TextsArePieces(items);
    JoinedParts(texts, gap);
    AllRead(items, texts, floats, |inner| + 2);
    BracketedReads(inner, texts, Meanings(items, floats), floats);
  }
}
