/** The numbers of a document, by their parts. */
module Numbers {
  import opened Results
  import opened Scalars

  /** `whole.fraction` or `whole`, with an exponent or without. */
  datatype Parts = Parts(sign: string, whole: string, fraction: Option<string>, exponent: Option<Power>)

  datatype Power = Power(mark: char, sign: string, digits: string)

  predicate IsSign(s: string) {
    s == "" || s == "-" || s == "+"
  }

  /** Digits in front of the point or, without an exponent, behind it; a point or an exponent makes it no integer. */
  predicate WellParted(p: Parts) {
    && IsSign(p.sign) && AllDigits(p.whole) && (p.fraction.Some? ==> AllDigits(p.fraction.value))
    && (p.exponent.Some? ==>
          && p.exponent.value.mark in "eE" && IsSign(p.exponent.value.sign)
          && p.exponent.value.digits != "" && AllDigits(p.exponent.value.digits))
    && (p.fraction.Some? || p.exponent.Some?)
    && (p.whole != "" || (p.fraction.Some? && p.fraction.value != "" && p.exponent.None?))
  }

  function PowerText(e: Option<Power>): string {
    if e.None? then "" else [e.value.mark] + e.value.sign + e.value.digits
  }

  /** What follows the leading digits. */
  function Behind(fraction: Option<string>, power: string): string {
    if fraction.None? then power else "." + (fraction.value + power)
  }

  function PartsText(p: Parts): string {
    p.sign + (p.whole + Behind(p.fraction, PowerText(p.exponent)))
  }

  lemma {:induction false} DigitsEnd(digits: string, rest: string)
    requires AllDigits(digits) && (rest == "" || !IsDigit(rest[0]))
    ensures DigitRun(digits + rest) == |digits| && (digits + rest)[|digits|..] == rest
    decreases |digits|
  {
    if digits == "" {
      assert digits + rest == rest;
    } else {
      assert (digits + rest)[1..] == digits[1..] + rest && digits[0] == (digits + rest)[0];
      DigitsEnd(digits[1..], rest);
    }
  }

  lemma SignOff(sign: string, rest: string)
    requires IsSign(sign) && rest != "" && rest[0] != '-' && rest[0] != '+'
    ensures Unsigned(sign + rest) == rest
  {
  }

  lemma PowerReads(e: Power)
    requires e.mark in "eE" && IsSign(e.sign) && e.digits != "" && AllDigits(e.digits)
    ensures IsExponent(PowerText(Some(e)))
  {
    var s := PowerText(Some(e));
    assert IsDigit(e.digits[0]);
    SignOff(e.sign, e.digits);
    assert s == [e.mark] + (e.sign + e.digits);
    assert s[1..] == e.sign + e.digits && (s[0] == 'e' || s[0] == 'E');
  }

  lemma PointReads(whole: string, digits: string, power: string, s: string)
    requires AllDigits(whole) && AllDigits(digits) && s == whole + ("." + (digits + power)) && Unsigned(s) == s
    requires power == "" || IsExponent(power)
    requires whole != "" || (digits != "" && power == "")
    ensures IsFloatToken(s)
  {
    DigitsEnd(whole, "." + (digits + power));
    DigitsEnd(digits, power);
    assert s[|whole|] == '.' && s[|whole| + 1..] == digits + power;
  }

  lemma NoPointReads(whole: string, power: string, s: string)
    requires AllDigits(whole) && whole != "" && IsExponent(power) && s == whole + power && Unsigned(s) == s
    ensures IsFloatToken(s)
  {
    DigitsEnd(whole, power);
    assert s[|whole|] == power[0];
  }

  lemma NoSignInFront(whole: string, rest: string)
    requires AllDigits(whole) && (if whole == "" then rest != "" && rest[0] == '.' else true)
    ensures var s := whole + rest; s != "" && s[0] != '-' && s[0] != '+' && Unsigned(s) == s
  {
    assert whole != "" ==> IsDigit(whole[0]) && (whole + rest)[0] == whole[0];
  }

  lemma SignedToken(sign: string, s: string)
    requires IsSign(sign) && s != "" && s[0] != '-' && s[0] != '+' && IsFloatToken(s)
    ensures IsFloatToken(sign + s)
  {
    SignOff(sign, s);
    assert Unsigned(s) == s;
  }

  lemma PartsRead(p: Parts)
    requires WellParted(p)
    ensures IsFloatToken(PartsText(p))
  {
    var power := PowerText(p.exponent);
    var s := p.whole + Behind(p.fraction, power);
    if p.exponent.Some? {
      PowerReads(p.exponent.value);
    }
    NoSignInFront(p.whole, Behind(p.fraction, power));
    if p.fraction.Some? {
      PointReads(p.whole, p.fraction.value, power, s);
    } else {
      NoPointReads(p.whole, power, s);
    }
    SignedToken(p.sign, s);
  }

  function SignOf(t: string): (sign: string)
    ensures IsSign(sign) && t == sign + Unsigned(t)
  {
    if t != "" && t[0] == '-' then "-" else if t != "" && t[0] == '+' then "+" else ""
  }

  function PowerOf(s: string): (e: Power)
    requires IsExponent(s)
    ensures e.mark in "eE" && IsSign(e.sign) && e.digits != "" && AllDigits(e.digits) && PowerText(Some(e)) == s
  {
    assert s == [s[0]] + SignOf(s[1..]) + Unsigned(s[1..]);
    Power(s[0], SignOf(s[1..]), Unsigned(s[1..]))
  }

  function PointParts(sign: string, whole: string, rest: string): (p: Parts)
    requires IsSign(sign) && AllDigits(whole)
    requires var m := DigitRun(rest);
             if m == |rest| then whole != "" || m > 0 else whole != "" && IsExponent(rest[m..])
    ensures WellParted(p) && PartsText(p) == sign + (whole + ("." + rest))
  {
    var m := DigitRun(rest);
    assert rest == rest[..m] + rest[m..];
    Parts(sign, whole, Some(rest[..m]), if m == |rest| then None else Some(PowerOf(rest[m..])))
  }

  function PowerParts(sign: string, whole: string, power: string): (p: Parts)
    requires IsSign(sign) && AllDigits(whole) && whole != "" && IsExponent(power)
    ensures WellParted(p) && PartsText(p) == sign + (whole + power)
  {
    Parts(sign, whole, None, Some(PowerOf(power)))
  }

  lemma CutAt(s: string, n: nat)
    requires n < |s|
    ensures s == s[..n] + s[n..] && s[n..] == [s[n]] + s[n + 1..]
  {
  }

  /** A token comes apart. */
  lemma TakenApart(t: string) returns (p: Parts)
    requires IsFloatToken(t)
    ensures WellParted(p) && PartsText(p) == t
  {
    var s, sign := Unsigned(t), SignOf(t);
    var n := DigitRun(s);
    CutAt(s, n);
    if s[n] == '.' {
      p := PointParts(sign, s[..n], s[n + 1..]);
    } else {
      p := PowerParts(sign, s[..n], s[n..]);
    }
  }

  /** The texts that read as floats are those made of such parts. */
  lemma FloatTokens(t: string)
    ensures IsFloatToken(t) <==> exists p :: WellParted(p) && PartsText(p) == t
  {
    if IsFloatToken(t) {
      var p := TakenApart(t);
    }
    forall p | WellParted(p) && PartsText(p) == t
      ensures IsFloatToken(t)
    {
      PartsRead(p);
    }
  }

  lemma Tens(a: nat, b: nat)
    requires b < 10
    ensures (10 * a + b) / 10 == a && (10 * a + b) % 10 == b
  {
  }

  lemma {:induction false} DigitsOfDecimal(s: string)
    requires AllDigits(s) && s != "" && (s[0] != '0' || s == "0")
    ensures Digits(Decimal(s)) == s && (s != "0" ==> Decimal(s) > 0)
    decreases |s|
  {
    var front, last := s[..|s| - 1], s[|s| - 1];
    assert IsDigit(last);
    if front == "" {
      assert Decimal(front) == 0;
    } else {
      assert front[0] == s[0];
      DigitsOfDecimal(front);
      Tens(Decimal(front), last as int - '0' as int);
      assert s == front + [last];
    }
  }

  function Signed(sign: string, n: int): int {
    if sign == "-" then -n else n
  }

  /** The texts that read as integers are the decimal numbers without leading zeros, and each reads as what it says. */
  lemma IntTokens(t: string)
    ensures IsIntToken(t) <==> exists sign: string, n: nat {:trigger sign + Digits(n)} ::
                                 IsSign(sign) && t == sign + Digits(n)
    ensures forall sign: string, n: nat {:trigger sign + Digits(n)} :: IsSign(sign) && t == sign + Digits(n) ==>
              IsIntToken(t) && IntOf(t) == Signed(sign, n)
  {
    if IsIntToken(t) {
      DigitsOfDecimal(Unsigned(t));
      assert t == SignOf(t) + Digits(Decimal(Unsigned(t)));
    }
    forall sign: string, n: nat {:trigger sign + Digits(n)} | IsSign(sign) && t == sign + Digits(n)
      ensures IsIntToken(t) && IntOf(t) == Signed(sign, n)
    {
      DecimalOfDigits(n);
      assert IsDigit(Digits(n)[0]);
      SignOff(sign, Digits(n));
    }
  }
}
