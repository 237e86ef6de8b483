/**
 * One scalar: how strict_yaml.py reads it and how it prints it, for integers, floats, JSON strings, the reserved words
 * and inline sequences alike.
 */
module Scalars {
  import opened Results
  import opened Text
  import opened Values

  /** `repr(float(token))`: the printed form of the number a float token denotes. */
  type FloatReader = string -> string

  // ----- integers -----

  predicate IsDigit(c: char) {
    '0' <= c <= '9'
  }

  predicate AllDigits(s: string) {
    forall i :: 0 <= i < |s| ==> IsDigit(s[i])
  }

  function Unsigned(t: string): string {
    if t != "" && (t[0] == '-' || t[0] == '+') then t[1..] else t
  }

  predicate IsIntToken(t: string) {
    var d := Unsigned(t);
    d == "0" || (d != "" && AllDigits(d) && d[0] != '0')
  }

  function Decimal(s: string): nat
    requires AllDigits(s)
  {
    if s == "" then 0 else 10 * Decimal(s[..|s| - 1]) + (s[|s| - 1] as int - '0' as int)
  }

  function Digits(n: nat): (s: string)
    ensures s != "" && AllDigits(s)
  {
    if n < 10 then ['0' + n as char] else Digits(n / 10) + ['0' + (n % 10) as char]
  }

  function IntOf(t: string): int
    requires IsIntToken(t)
  {
    var n: int := Decimal(Unsigned(t));
    if t[0] == '-' then -n else n
  }

  function IntText(n: int): string {
    if n < 0 then "-" + Digits(-n) else Digits(n)
  }

  lemma {:induction false} DecimalOfDigits(n: nat)
    ensures Decimal(Digits(n)) == n
    ensures n > 0 ==> Digits(n)[0] != '0'
  {
    if n < 10 {
      assert Digits(n)[..0] == "";
    } else {
      DecimalOfDigits(n / 10);
      assert Digits(n)[..|Digits(n)| - 1] == Digits(n / 10);
    }
  }

  lemma IntRoundTrip(n: int)
    ensures IsIntToken(IntText(n)) && IntOf(IntText(n)) == n
  {
    if n < 0 {
      DecimalOfDigits(-n);
      assert IntText(n)[1..] == Digits(-n);
    } else {
      DecimalOfDigits(n);
      assert IsDigit(Digits(n)[0]);
    }
  }

  // ----- floats -----

  /** How many leading characters are digits. */
  function DigitRun(s: string): (n: nat)
    ensures n <= |s| && AllDigits(s[..n]) && (n < |s| ==> !IsDigit(s[n]))
  {
    if s != "" && IsDigit(s[0]) then
      var n := 1 + DigitRun(s[1..]);
      assert forall i :: 0 < i < n ==> s[i] == s[1..][i - 1];
      n
    else 0
  }

  predicate IsExponent(s: string) {
    s != "" && (s[0] == 'e' || s[0] == 'E') && Unsigned(s[1..]) != "" && AllDigits(Unsigned(s[1..]))
  }

  predicate IsFloatToken(t: string) {
    var s := Unsigned(t);
    var n := DigitRun(s);
    if n == |s| then false
    else if s[n] == '.' then
      var rest := s[n + 1..];
      var m := DigitRun(rest);
      if m == |rest| then n > 0 || m > 0 else n > 0 && IsExponent(rest[m..])
    else n > 0 && IsExponent(s[n..])
  }

  /** What `repr` prints for a float: a float token, or one of the three non-finite words. */
  predicate IsFloatRepr(t: string) {
    IsFloatToken(t) || t == "inf" || t == "-inf" || t == "nan"
  }

  predicate NumberChar(c: char) {
    IsDigit(c) || c == '+' || c == '-' || c == '.' || c == 'e' || c == 'E'
  }

  /** Every character of a printed number. */
  predicate NumberText(t: string) {
    t != "" && forall i :: 0 <= i < |t| ==> NumberChar(t[i])
  }

  lemma FloatTokenText(t: string)
    requires IsFloatToken(t)
    ensures NumberText(t) && !IsIntToken(t)
  {
    var s := Unsigned(t);
    var n := DigitRun(s);
    assert NumberText(s) by {
      forall i | 0 <= i < |s|
        ensures NumberChar(s[i])
      {
        if i < n {
          assert s[i] == s[..n][i];
        } else if s[n] == '.' {
          var rest := s[n + 1..];
          var m := DigitRun(rest);
          assert i == n || s[i] == rest[i - n - 1];
          if n < i < n + 1 + m {
            assert rest[i - n - 1] == rest[..m][i - n - 1];
          } else if i > n {
            ExponentText(rest[m..], i - n - 1 - m);
          }
        } else {
          ExponentText(s[n..], i - n);
        }
      }
    }
    assert forall i :: 0 < i < |t| && s != t ==> t[i] == s[i - 1];
    assert !AllDigits(s);
  }

  lemma ExponentText(e: string, i: nat)
    requires IsExponent(e) && i < |e|
    ensures NumberChar(e[i])
  {
    var u := Unsigned(e[1..]);
    if i > 0 {
      assert e[1..][i - 1] == e[i];
      assert u == e[1..] || (u == e[2..] && (e[1] == '+' || e[1] == '-'));
      if u == e[1..] {
        assert IsDigit(u[i - 1]);
      } else if i > 1 {
        assert IsDigit(u[i - 2]);
      }
    }
  }

  // ----- double-quoted strings: section 7 of RFC 8259 as Python prints and reads it -----

  function HexDigit(n: nat): char
    requires n < 16
  {
    if n < 10 then '0' + n as char else 'a' + (n - 10) as char
  }

  function HexValue(c: char): Option<nat> {
    if '0' <= c <= '9' then Some(c as int - '0' as int)
    else if 'a' <= c <= 'f' then Some(c as int - 'a' as int + 10)
    else if 'A' <= c <= 'F' then Some(c as int - 'A' as int + 10)
    else None
  }

  function Hex4(w: string): Option<nat> {
    if |w| < 4 || HexValue(w[0]) == None || HexValue(w[1]) == None || HexValue(w[2]) == None || HexValue(w[3]) == None
    then None
    else Some(4096 * HexValue(w[0]).value + 256 * HexValue(w[1]).value
              + 16 * HexValue(w[2]).value + HexValue(w[3]).value)
  }

  /** The letter Python writes after a backslash for the characters that have a short escape. */
  function ShortName(c: char): Option<char> {
    if c == '"' || c == '\\' then Some(c)
    else if c == '\n' then Some('n')
    else if c == '\r' then Some('r')
    else if c == '\t' then Some('t')
    else if c as int == 8 then Some('b')
    else if c as int == 12 then Some('f')
    else None
  }

  function Escaped(c: char): string {
    if ShortName(c).Some? then ['\\', ShortName(c).value]
    else if c as int < 32 then ['\\', 'u', '0', '0', HexDigit(c as int / 16), HexDigit(c as int % 16)]
    else [c]
  }

  function EscapedText(s: string): string {
    if s == "" then "" else Escaped(s[0]) + EscapedText(s[1..])
  }

  function Quoted(s: string): string {
    "\"" + EscapedText(s) + "\""
  }

  predicate JsonBlank(w: string) {
    forall i :: 0 <= i < |w| ==> (w[i] == ' ' || w[i] == '\t' || w[i] == '\n' || w[i] == '\r')
  }

  function SimpleEscape(c: char): Option<char> {
    if c == '"' then Some('"')
    else if c == '\\' then Some('\\')
    else if c == '/' then Some('/')
    else if c == 'b' then Some(8 as char)
    else if c == 'f' then Some(12 as char)
    else if c == 'n' then Some('\n')
    else if c == 'r' then Some('\r')
    else if c == 't' then Some('\t')
    else None
  }

  /** The character a `\u` escape at the front of `w` names, and the length of the escape. */
  function UnicodeEscape(w: string): (r: Option<(char, nat)>)
    requires |w| >= 2
    ensures r.Some? ==> 6 <= r.value.1 <= |w|
  {
    match Hex4(w[2..])
    case None => None
    case Some(code) =>
      if 0xD800 <= code < 0xDC00 then
        if |w| >= 12 && w[6..8] == "\\u" && Hex4(w[8..]).Some? && 0xDC00 <= Hex4(w[8..]).value < 0xE000 then
          var pair := 0x10000 + 1024 * (code - 0xD800) + (Hex4(w[8..]).value - 0xDC00);
          if pair < 0x110000 then Some((pair as char, 12)) else None
        else None
      else if 0xDC00 <= code < 0xE000 || code >= 0x10000 then None
      else Some((code as char, 6))
  }

  /** The string whose text follows an opening quote, provided nothing but blanks follow its closing quote. */
  function JsonTail(w: string): Result<string>
    decreases |w|
  {
    if w == "" then Err
    else if w[0] == '"' then (if JsonBlank(w[1..]) then Ok("") else Err)
    else if w[0] == '\\' then
      if |w| < 2 then Err
      else if w[1] == 'u' then
        match UnicodeEscape(w)
        case None => Err
        case Some((c, n)) => var rest :- JsonTail(w[n..]); Ok([c] + rest)
      else
        match SimpleEscape(w[1])
        case None => Err
        case Some(c) => var rest :- JsonTail(w[2..]); Ok([c] + rest)
    else if w[0] as int < 32 then Err
    else var rest :- JsonTail(w[1..]); Ok([w[0]] + rest)
  }

  lemma EscapeReads(c: char, w: string)
    requires JsonTail(w).Ok?
    ensures JsonTail(Escaped(c) + w) == Ok([c] + JsonTail(w).value)
  {
    if ShortName(c).Some? {
      ShortEscapeReads(c, w);
    } else if c as int < 32 {
      ControlReads(c, w);
    } else {
      assert (Escaped(c) + w)[1..] == w;
    }
  }

  lemma ShortNameReads(c: char)
    requires ShortName(c).Some?
    ensures ShortName(c).value != 'u' && SimpleEscape(ShortName(c).value) == Some(c)
  {
  }

  lemma ShortEscapeReads(c: char, w: string)
    requires JsonTail(w).Ok? && ShortName(c).Some?
    ensures JsonTail(Escaped(c) + w) == Ok([c] + JsonTail(w).value)
  {
    ShortNameReads(c);
    var t := Escaped(c) + w;
    assert t[0] == '\\' && t[1] == ShortName(c).value && t[2..] == w;
  }

  lemma ControlReads(c: char, w: string)
    requires JsonTail(w).Ok? && ShortName(c).None? && c as int < 32
    ensures JsonTail(Escaped(c) + w) == Ok([c] + JsonTail(w).value)
  {
    var t := Escaped(c) + w;
    ControlEscape(c, w);
    assert t[0] == '\\' && t[1] == 'u' && t[6..] == w;
  }

  lemma ControlEscape(c: char, w: string)
    requires ShortName(c).None? && c as int < 32
    ensures UnicodeEscape(Escaped(c) + w) == Some((c, 6))
  {
    var n := c as int;
    HexReads(n / 16);
    HexReads(n % 16);
    var u := (Escaped(c) + w)[2..];
    assert u[0] == '0' && u[1] == '0' && u[2] == HexDigit(n / 16) && u[3] == HexDigit(n % 16);
    assert Hex4(u) == Some(n);
  }

  lemma HexReads(n: nat)
    requires n < 16
    ensures HexValue(HexDigit(n)) == Some(n)
  {
  }

  lemma {:induction false} QuotedReads(s: string)
    ensures JsonTail(EscapedText(s) + "\"") == Ok(s)
  {
    if s == "" {
      assert EscapedText(s) + "\"" == "\"";
    } else {
      QuotedReads(s[1..]);
      EscapeReads(s[0], EscapedText(s[1..]) + "\"");
      assert EscapedText(s) + "\"" == Escaped(s[0]) + (EscapedText(s[1..]) + "\"");
      assert [s[0]] + s[1..] == s;
    }
  }

  lemma EscapeScans(c: char)
    ensures Run(Double, Escaped(c)) == Double && Bare(Double, Escaped(c)) == ""
  {
    var e := Escaped(c);
    if |e| == 1 {
      DigitsScan(e);
    } else {
      assert e[0] == '\\' && Step(Double, e[0]) == Escape && Step(Escape, e[1]) == Double;
      assert e[1..][1..] == e[2..];
      DigitsScan(e[2..]);
      assert Run(Double, e) == Run(Escape, e[1..]) == Run(Double, e[2..]);
      assert Bare(Double, e) == Bare(Escape, e[1..]) == Bare(Double, e[2..]);
    }
  }

  lemma {:induction false} DigitsScan(w: string)
    requires forall i :: 0 <= i < |w| ==> w[i] != '"' && w[i] != '\\'
    ensures Run(Double, w) == Double && Bare(Double, w) == ""
  {
    if w != "" {
      DigitsScan(w[1..]);
    }
  }

  /** No scanner sees anything of a printed string but its opening quote, and each leaves it closed. */
  lemma {:induction false} EscapedScans(s: string)
    ensures Run(Double, EscapedText(s)) == Double && Bare(Double, EscapedText(s)) == ""
  {
    if s != "" {
      EscapeScans(s[0]);
      EscapedScans(s[1..]);
      RunConcat(Double, Escaped(s[0]), EscapedText(s[1..]));
    }
  }

  lemma QuotedScans(s: string)
    ensures Run(Plain, Quoted(s)) == Plain && Bare(Plain, Quoted(s)) == "\""
  {
    EscapedScans(s);
    RunConcat(Double, EscapedText(s), "\"");
    RunConcat(Plain, "\"", EscapedText(s) + "\"");
    assert Quoted(s) == "\"" + (EscapedText(s) + "\"");
  }

  // ----- the reader -----

  /** `value.lower()` equals a lower-case ASCII word. */
  predicate LowerIs(value: string, word: string) {
    && |value| == |word|
    && forall i :: 0 <= i < |word| ==>
         value[i] == word[i] || ('A' <= value[i] <= 'Z' && value[i] as int + 32 == word[i] as int)
  }

  predicate Sigil(c: char) {
    c == '&' || c == '*' || c == '!'
  }

  /** An ampersand, asterisk or exclamation mark that starts a word and is followed by more of it. */
  predicate HasSigil(value: string) {
    exists i :: 0 <= i < |value| - 1 && Sigil(value[i]) && (i == 0 || IsSpace(value[i - 1])) && !IsSpace(value[i + 1])
  }

  predicate Forbidden(value: string) {
    (value != "" && (Sigil(value[0]) || value[0] == '|' || value[0] == '>')) || "<<" <= value || HasSigil(value)
  }

  function SingleUnquoted(w: string): string {
    if w == "" then ""
    else if "''" <= w then "'" + SingleUnquoted(w[2..])
    else [w[0]] + SingleUnquoted(w[1..])
  }

  /** What a plain word without quotes or brackets denotes. */
  function Word(value: string, floats: FloatReader): Result<Value>
    requires value != ""
  {
    if LowerIs(value, "null") || value == "~" then Ok(Null)
    else if LowerIs(value, "true") then Ok(Bool(true))
    else if LowerIs(value, "false") then Ok(Bool(false))
    else if IsIntToken(value) then Ok(Int(IntOf(value)))
    else if IsFloatToken(value) then Ok(Float(floats(value)))
    else if Forbidden(value) then Err
    else Ok(Str(value))
  }

  function Scalar(value: string, floats: FloatReader): Result<Value>
    decreases |value|, 1, 0
  {
    if value == "" then Err
    else
      var first, last := value[0], value[|value| - 1];
      if first == '[' then
        if last != ']' then Err
        else
          var inner := Strip(value[1..|value| - 1]);
          if inner == "" then Ok(List([]))
          else
            var parts :- InlineParts(inner);
            var items :- ScalarAll(parts, floats, |value|);
            Ok(List(items))
      else if value == "{}" then Ok(Map([]))
      else if first == '{' || last == '}' then Err
      else if first == '"' then var s :- JsonTail(value[1..]); Ok(Str(s))
      else if first == '\'' then
        if |value| < 2 || last != '\'' then Err else Ok(Str(SingleUnquoted(value[1..|value| - 1])))
      else Word(value, floats)
  }

  function ScalarAll(parts: seq<string>, floats: FloatReader, bound: nat): Result<seq<Value>>
    requires forall i :: 0 <= i < |parts| ==> |parts[i]| < bound
    decreases bound, 0, |parts|
  {
    if parts == [] then Ok([])
    else
      var v :- Scalar(parts[0], floats);
      var rest :- ScalarAll(parts[1..], floats, bound);
      Ok([v] + rest)
  }

  // ----- the printer -----

  /** A value `dumps` writes on one line. */
  predicate OneLine(v: Value) {
    match v
    case List(items) => items == []
    case Map(fields) => fields == []
    case _ => true
  }

  function ScalarText(v: Value): string
    requires OneLine(v)
  {
    match v
    case Null => "null"
    case Bool(b) => if b then "true" else "false"
    case Int(n) => IntText(n)
    case Float(repr) => repr
    case Str(s) => Quoted(s)
    case List(_) => "[]"
    case Map(_) => "{}"
  }

  /** What reading a printed one-line value gives: itself, except that a non-finite float comes back as a word. */
  function RereadOneLine(v: Value, floats: FloatReader): Value
    requires OneLine(v)
  {
    if v.Float? then (if IsFloatToken(v.repr) then Float(floats(v.repr)) else Str(v.repr)) else v
  }

  lemma NumberIsWord(t: string, floats: FloatReader)
    requires NumberText(t)
    ensures Scalar(t, floats) == Word(t, floats)
    ensures !LowerIs(t, "null") && t != "~" && !LowerIs(t, "true") && !LowerIs(t, "false")
  {
    assert NumberChar(t[0]) && NumberChar(t[|t| - 1]);
  }

  lemma NumberScans(t: string)
    requires NumberText(t)
    ensures Trim(t) && Mute(t)
  {
    assert NumberChar(t[0]) && NumberChar(t[|t| - 1]);
  }

  lemma WordsRead(floats: FloatReader)
    ensures Scalar("null", floats) == Ok(Null)
    ensures Scalar("true", floats) == Ok(Bool(true))
    ensures Scalar("false", floats) == Ok(Bool(false))
  {
  }

  lemma NonFiniteReads(repr: string, floats: FloatReader)
    requires repr == "inf" || repr == "-inf" || repr == "nan"
    ensures !IsFloatToken(repr) && Scalar(repr, floats) == Ok(Str(repr))
  {
    NonFiniteIsNoNumber(repr);
    assert repr[0] != '[' && repr[0] != '{' && repr[|repr| - 1] != '}' && repr[0] != '"' && repr[0] != '\'';
    assert Scalar(repr, floats) == Word(repr, floats);
  }

  lemma NonFiniteIsNoNumber(repr: string)
    requires repr == "inf" || repr == "-inf" || repr == "nan"
    ensures !IsFloatToken(repr) && !IsIntToken(repr) && !Forbidden(repr)
  {
    var word := Unsigned(repr);
    assert !IsDigit(word[0]) && DigitRun(word) == 0;
    assert forall i :: 0 <= i < |repr| ==> !Sigil(repr[i]);
  }

  lemma QuotedIsString(s: string, floats: FloatReader)
    ensures Scalar(Quoted(s), floats) == Ok(Str(s))
  {
    QuotedReads(s);
    assert Quoted(s)[1..] == EscapedText(s) + "\"";
  }

  lemma ScalarReads(v: Value, floats: FloatReader)
    requires OneLine(v) && (v.Float? ==> IsFloatRepr(v.repr))
    ensures Scalar(ScalarText(v), floats) == Ok(RereadOneLine(v, floats))
  {
    match v
    case Int(n) =>
      IntRoundTrip(n);
      NumberIsWord(IntText(n), floats);
    case Float(repr) =>
      if IsFloatToken(repr) {
        FloatTokenText(repr);
        NumberIsWord(repr, floats);
      } else {
        NonFiniteReads(repr, floats);
      }
    case Str(s) =>
      QuotedIsString(s, floats);
    case List(_) =>
      assert Strip("") == "";
    case Map(_) =>
    case _ =>
      WordsRead(floats);
  }

  lemma QuotedIsTrim(s: string)
    ensures Trim(Quoted(s))
  {
  }

  lemma FloatScans(repr: string)
    requires IsFloatRepr(repr)
    ensures Trim(repr) && Mute(repr)
  {
    if IsFloatToken(repr) {
      FloatTokenText(repr);
      NumberScans(repr);
    }
  }

  lemma EmptyListScans()
    ensures Run(Plain, "[]") == Plain && Bare(Plain, "[]") == "[]"
  {
    assert "[]"[1..] == "]" && "]"[1..] == "";
    assert Bare(Plain, "]") == "]" && Run(Plain, "]") == Plain;
  }

  /** A printed one-line value has no outer blanks and shows no scanner a comment sign or a colon. */
  lemma ScalarScans(v: Value)
    requires OneLine(v) && (v.Float? ==> IsFloatRepr(v.repr))
    ensures Trim(ScalarText(v)) && Run(Plain, ScalarText(v)) == Plain
    ensures '#' !in Bare(Plain, ScalarText(v)) && ':' !in Bare(Plain, ScalarText(v))
  {
    match v
    case Int(n) =>
      IntRoundTrip(n);
      NumberScans(IntText(n));
      MuteScans(IntText(n));
    case Float(repr) =>
      FloatScans(repr);
      MuteScans(repr);
    case Str(s) =>
      QuotedScans(s);
      QuotedIsTrim(s);
    case List(_) =>
      EmptyListScans();
    case Map(_) =>
      MuteScans("{}");
    case _ =>
      MuteScans(ScalarText(v));
  }

  lemma MuteScans(t: string)
    requires Mute(t)
    ensures Run(Plain, t) == Plain && '#' !in Bare(Plain, t) && ':' !in Bare(Plain, t)
  {
    MuteRun(t);
  }
}
