/** Every way to write a string between double quotes (section 7 of RFC 8259) reads as that string. */
module Escapes {
  import opened Results
  import opened Text
  import opened Scalars

  /** One character as it is, behind a backslash, or by its code units in UTF-16. */
  datatype Sign = Raw(c: char) | Short(letter: char) | Coded(c: char, upper: bool)

  /** What the letter behind a backslash stands for. */
  const SHORT: map<char, char> := map[
    '"' := '"', '\\' := '\\', '/' := '/', 'b' := 8 as char, 'f' := 12 as char, 'n' := '\n', 'r' := '\r', 't' := '\t']

  predicate ValidSign(sign: Sign) {
    match sign
    case Raw(c) => c != '"' && c != '\\' && c as int >= 32
    case Short(letter) => letter in SHORT
    case Coded(_, _) => true
  }

  function CharOf(sign: Sign): char
    requires ValidSign(sign)
  {
    match sign
    case Raw(c) => c
    case Short(letter) => SHORT[letter]
    case Coded(c, _) => c
  }

  function HexSign(n: nat, upper: bool): char
    requires n < 16
  {
    if n < 10 then '0' + n as char else (if upper then 'A' else 'a') + (n - 10) as char
  }

  /** One code unit. */
  function Unit(n: nat, upper: bool): string
    requires n < 0x10000
  {
    ['\\', 'u', HexSign(n / 16 / 16 / 16, upper), HexSign(n / 16 / 16 % 16, upper), HexSign(n / 16 % 16, upper),
     HexSign(n % 16, upper)]
  }

  function SignText(sign: Sign): string {
    match sign
    case Raw(c) => [c]
    case Short(letter) => ['\\', letter]
    case Coded(c, upper) =>
      var n := c as int;
      if n < 0x10000 then Unit(n, upper)
      else Unit(0xD800 + (n - 0x10000) / 1024, upper) + Unit(0xDC00 + (n - 0x10000) % 1024, upper)
  }

  predicate AllSigns(signs: seq<Sign>) {
    forall i :: 0 <= i < |signs| ==> ValidSign(signs[i])
  }

  function SignsText(signs: seq<Sign>): string {
    if signs == [] then "" else SignText(signs[0]) + SignsText(signs[1..])
  }

  function StringOf(signs: seq<Sign>): string
    requires AllSigns(signs)
  {
    if signs == [] then "" else [CharOf(signs[0])] + StringOf(signs[1..])
  }

  // ----- reading -----

  lemma HexSignReads(n: nat, upper: bool)
    requires n < 16
    ensures HexValue(HexSign(n, upper)) == Some(n)
  {
  }

  lemma UnitReads(n: nat, upper: bool, w: string)
    requires n < 0x10000
    ensures var t := Unit(n, upper) + w;
            t[0] == '\\' && t[1] == 'u' && t[6..] == w && Hex4(t[2..]) == Some(n)
  {
    HexSignReads(n / 16 / 16 / 16, upper);
    HexSignReads(n / 16 / 16 % 16, upper);
    HexSignReads(n / 16 % 16, upper);
    HexSignReads(n % 16, upper);
    var t := Unit(n, upper) + w;
    assert t[2..][0] == t[2] && t[2..][1] == t[3] && t[2..][2] == t[4] && t[2..][3] == t[5];
    HexParts(n);
  }

  lemma HexParts(n: nat)
    requires n < 0x10000
    ensures 4096 * (n / 16 / 16 / 16) + 256 * (n / 16 / 16 % 16) + 16 * (n / 16 % 16) + n % 16 == n
  {
    var a := n / 16;
    var b := a / 16;
    assert n == 16 * a + n % 16 && a == 16 * b + a % 16 && b == 16 * (b / 16) + b % 16;
  }

  lemma UnitEscape(c: char, upper: bool, w: string)
    requires c as int < 0x10000
    ensures UnicodeEscape(Unit(c as int, upper) + w) == Some((c, 6))
  {
    UnitReads(c as int, upper, w);
  }

  /** Two code units read as the character they encode. */
  lemma PairEscape(c: char, upper: bool, w: string)
    requires c as int >= 0x10000
    ensures var t := SignText(Coded(c, upper)) + w;
            |t| >= 12 && t[0] == '\\' && t[1] == 'u' && UnicodeEscape(t) == Some((c, 12)) && t[12..] == w
  {
    var n := c as int - 0x10000;
    var high, low := 0xD800 + n / 1024, 0xDC00 + n % 1024;
    var rest, t := Unit(low, upper) + w, SignText(Coded(c, upper)) + w;
    assert t == Unit(high, upper) + rest;
    UnitReads(high, upper, rest);
    UnitReads(low, upper, w);
    FromPair(t, rest, high, low);
    assert 1024 * (n / 1024) + n % 1024 == n;
    assert t[12..] == rest[6..];
  }

  lemma FromPair(t: string, rest: string, high: nat, low: nat)
    requires |t| >= 12 && Hex4(t[2..]) == Some(high) && 0xD800 <= high < 0xDC00 && t[6..] == rest
    requires rest[0] == '\\' && rest[1] == 'u' && Hex4(rest[2..]) == Some(low) && 0xDC00 <= low < 0xE000
    ensures UnicodeEscape(t) == Some(((0x10000 + 1024 * (high - 0xD800) + (low - 0xDC00)) as char, 12))
  {
    assert t[6..8] == rest[..2] == "\\u" && t[8..] == rest[2..];
  }

  lemma ShortReads(letter: char)
    requires letter in SHORT
    ensures letter != 'u' && SimpleEscape(letter) == Some(SHORT[letter])
  {
  }

  lemma SignReads(sign: Sign, w: string)
    requires ValidSign(sign) && JsonTail(w).Ok?
    ensures JsonTail(SignText(sign) + w) == Ok([CharOf(sign)] + JsonTail(w).value)
  {
    var t := SignText(sign) + w;
    match sign
    case Raw(c) => assert t[1..] == w;
    case Short(letter) =>
      ShortReads(letter);
      assert t[0] == '\\' && t[1] == letter && t[2..] == w;
    case Coded(c, upper) =>
      if c as int < 0x10000 {
        UnitReads(c as int, upper, w);
        UnitEscape(c, upper, w);
      } else {
        PairEscape(c, upper, w);
      }
  }

  /** Whichever way each character is written, the string is read. */
  lemma {:induction false} SignsRead(signs: seq<Sign>)
    requires AllSigns(signs)
    ensures JsonTail(SignsText(signs) + "\"") == Ok(StringOf(signs))
    decreases |signs|
  {
    if signs == [] {
      assert "" + "\"" == "\"" && "\""[1..] == "";
    } else {
      SignsRead(signs[1..]);
      SignReads(signs[0], SignsText(signs[1..]) + "\"");
      assert SignsText(signs) + "\"" == SignText(signs[0]) + (SignsText(signs[1..]) + "\"");
    }
  }

  // ----- scanning -----

  lemma UnitScans(n: nat, upper: bool)
    requires n < 0x10000
    ensures Run(Double, Unit(n, upper)) == Double && Bare(Double, Unit(n, upper)) == ""
  {
    var e := Unit(n, upper);
    assert e[0] == '\\' && e[1..][0] == 'u' && e[1..][1..] == e[2..];
    assert forall i :: 2 <= i < 6 ==> e[i] != '"' && e[i] != '\\';
    DigitsScan(e[2..]);
  }

  lemma SignScans(sign: Sign)
    requires ValidSign(sign)
    ensures Run(Double, SignText(sign)) == Double && Bare(Double, SignText(sign)) == ""
  {
    match sign
    case Raw(c) => DigitsScan([c]);
    case Short(letter) =>
      assert ['\\', letter][1..] == [letter] && [letter][1..] == "";
    case Coded(c, upper) =>
      var n := c as int;
      if n < 0x10000 {
        UnitScans(n, upper);
      } else {
        var high, low := 0xD800 + (n - 0x10000) / 1024, 0xDC00 + (n - 0x10000) % 1024;
        UnitScans(high, upper);
        UnitScans(low, upper);
        RunConcat(Double, Unit(high, upper), Unit(low, upper));
      }
  }

  lemma {:induction false} SignsScan(signs: seq<Sign>)
    requires AllSigns(signs)
    ensures Run(Double, SignsText(signs)) == Double && Bare(Double, SignsText(signs)) == ""
    decreases |signs|
  {
    if signs != [] {
      SignScans(signs[0]);
      SignsScan(signs[1..]);
      RunConcat(Double, SignText(signs[0]), SignsText(signs[1..]));
    }
  }
}
