/** A formatted integer has the length it should, is padded in one way, and reads back. */
module PrintfLaws {
  import opened Common
  import opened PrintfSpec

  // ----- length -----

  /** The field is as long as its width, or its precision, or its digits, demand. */
  lemma FieldLength(f: Format, c: Conversion, u: nat)
    requires u < TWO_TO_THE_64
    ensures var n := Number(Magnitude(c, u), BaseOf(c), UpperOf(c), f.alt, f.prec);
            |Field(f, c, u)| == Max(f.width, Max(Precision(f), |n|) + |Prefix(f, c, u)|)
  {
    hide Number; hide Prefix; hide Magnitude;
  }

  /** Exactly one rule pads: blanks before, zeros after the prefix, or blanks behind. */
  lemma OnePadding(f: Format, prefix: string, number: string)
    ensures var pad := Max(0, f.width - (Max(Precision(f), |number|) + |prefix|));
            var body := Repeat('0', Precision(f) - |number|) + number;
            && (f.ladjust ==> Layout(f, prefix, number) == prefix + body + Repeat(' ', pad))
            && (!f.ladjust && f.zeropad && f.prec.None? ==>
                  Layout(f, prefix, number) == prefix + (Repeat('0', pad) + number))
            && (!f.ladjust && !(f.zeropad && f.prec.None?) ==>
                  Layout(f, prefix, number) == Repeat(' ', pad) + prefix + body)
  {
  }

  // ----- digits -----

  function Pow(b: nat, n: nat): nat {
    if n == 0 then 1 else b * Pow(b, n - 1)
  }

  lemma PowOne(r: nat)
    ensures Pow(r, 1) == r
  {
    assert Pow(r, 1) == r * Pow(r, 0);
  }

  lemma MulMonotone(r: nat, a: nat, b: nat)
    ensures a <= b ==> r * a <= r * b
  {
  }

  lemma QuotientBelow(u: nat, r: nat, m: nat)
    requires r > 0 && u < r * m
    ensures u / r < m
  {
    MulMonotone(r, m, u / r);
    assert u == r * (u / r) + u % r;
  }

  lemma {:induction false} DigitsBound(u: nat, b: Base, upper: bool, n: nat)
    requires n > 0 && u < Pow(Radix(b), n)
    ensures |Digits(u, b, upper)| <= n
    decreases n
  {
    PowOne(Radix(b));
    if u >= Radix(b) {
      QuotientBelow(u, Radix(b), Pow(Radix(b), n - 1));
      DigitsBound(u / Radix(b), b, upper, n - 1);
    }
  }

  /** A 64-bit number has at most 22 digits, so the 348 places of the buffer never run out. */
  lemma DigitsFit(u: nat, b: Base, upper: bool)
    requires u < TWO_TO_THE_64
    ensures |Digits(u, b, upper)| <= 22
  {
    match b
    case OCT =>
      assert Pow(8, 5) == 32768;
      assert Pow(8, 10) == 1073741824;
      assert Pow(8, 15) == 35184372088832;
      assert Pow(8, 20) == 1152921504606846976;
      assert Pow(8, 22) == 73786976294838206464;
      DigitsBound(u, OCT, upper, 22);
    case DEC =>
      assert Pow(10, 5) == 100000;
      assert Pow(10, 10) == 10000000000;
      assert Pow(10, 15) == 1000000000000000;
      assert Pow(10, 20) == 100000000000000000000;
      DigitsBound(u, DEC, upper, 20);
    case HEX =>
      assert Pow(16, 4) == 65536;
      assert Pow(16, 8) == 4294967296;
      assert Pow(16, 12) == 281474976710656;
      assert Pow(16, 16) == 18446744073709551616;
      DigitsBound(u, HEX, upper, 16);
  }

  lemma DigitIsRead(n: nat, b: Base, upper: bool)
    requires n < Radix(b)
    ensures DigitValue(DigitChar(n, upper), b) == Some(n)
  {
  }

  ghost predicate AllDigits(s: string, b: Base) {
    forall i :: 0 <= i < |s| ==> DigitValue(s[i], b).Some?
  }

  lemma {:induction false} ReadSnoc(s: string, c: char, b: Base, so: nat)
    requires AllDigits(s, b) && DigitValue(c, b).Some?
    ensures Read(s + [c], b, so) == Radix(b) * Read(s, b, so) + DigitValue(c, b).value
  {
    if s == "" {
      assert ("" + [c])[1..] == "";
    } else {
      ReadSnoc(s[1..], c, b, Radix(b) * so + DigitValue(s[0], b).value);
      assert (s + [c])[1..] == s[1..] + [c];
    }
  }

  lemma DivMod(u: nat, r: nat)
    requires 8 <= r
    ensures u == r * (u / r) + u % r && u % r < r && (u > 0 ==> u / r < u)
  {
  }

  lemma DigitsUnfold(u: nat, b: Base, upper: bool)
    requires u >= Radix(b)
    ensures u % Radix(b) < Radix(b) && u / Radix(b) >= 0
    ensures Digits(u, b, upper) == Digits(u / Radix(b), b, upper) + [DigitChar(u % Radix(b), upper)]
  {
    hide DigitChar; hide Radix;
  }

  lemma ReadOne(n: nat, b: Base, upper: bool)
    requires n < Radix(b)
    ensures AllDigits([DigitChar(n, upper)], b) && Read([DigitChar(n, upper)], b, 0) == n
  {
    DigitIsRead(n, b, upper);
    assert [DigitChar(n, upper)][1..] == "";
  }

  /** The digits evaluate back to the number. */
  lemma {:induction false} DigitsAreRead(u: nat, b: Base, upper: bool)
    ensures AllDigits(Digits(u, b, upper), b) && Read(Digits(u, b, upper), b, 0) == u
    decreases u
  {
    if u < Radix(b) {
      ReadOne(u, b, upper);
    } else {
      var q, c := u / Radix(b), DigitChar(u % Radix(b), upper);
      DigitsUnfold(u, b, upper);
      DivMod(u, Radix(b));
      DigitIsRead(u % Radix(b), b, upper);
      DigitsAreRead(q, b, upper);
      hide Digits; hide DigitChar; hide DigitValue; hide Radix; hide Read;
      ReadSnoc(Digits(q, b, upper), c, b, 0);
    }
  }

  lemma {:induction false} ReadZeros(n: int, s: string, b: Base)
    ensures Read(Repeat('0', n) + s, b, 0) == Read(s, b, 0)
    decreases n
  {
    if n <= 0 {
      assert Repeat('0', n) + s == s;
    } else {
      ReadZeros(n - 1, s, b);
      assert (Repeat('0', n) + s)[1..] == Repeat('0', n - 1) + s;
    }
  }

  lemma {:induction false} ReadStops(s: string, n: int, b: Base, so: nat)
    ensures Read(s + Repeat(' ', n), b, so) == Read(s, b, so)
    decreases |s|
  {
    if s == "" {
      assert "" + Repeat(' ', n) == Repeat(' ', n);
    } else {
      assert (s + Repeat(' ', n))[1..] == s[1..] + Repeat(' ', n);
      if DigitValue(s[0], b).Some? {
        ReadStops(s[1..], n, b, Radix(b) * so + DigitValue(s[0], b).value);
      }
    }
  }

  lemma {:induction false} BlanksSkipped(n: int, s: string)
    ensures SkipBlanks(Repeat(' ', n) + s) == SkipBlanks(s)
    decreases n
  {
    if n <= 0 {
      assert Repeat(' ', n) + s == s;
    } else {
      BlanksSkipped(n - 1, s);
      assert (Repeat(' ', n) + s)[1..] == Repeat(' ', n - 1) + s;
    }
  }

  // ----- reading a field -----

  /** The digits of a number, with zeros before and blanks behind, read as the number. */
  lemma BodyIsRead(u: nat, b: Base, upper: bool, alt: bool, prec: Option<nat>, zeros: int, blanks: int)
    ensures var body := Repeat('0', zeros) + Number(u, b, upper, alt, prec) + Repeat(' ', blanks);
            Read(body, b, 0) == u
    ensures AllDigits(Number(u, b, upper, alt, prec), b)
  {
    var n := Number(u, b, upper, alt, prec);
    DigitsAreRead(u, b, upper);
    ReadZeros(1, Digits(u, b, upper), b);
    assert Repeat('0', 1) + Digits(u, b, upper) == "0" + Digits(u, b, upper);
    assert Read(n, b, 0) == u;
    ReadZeros(zeros, n, b);
    ReadStops(Repeat('0', zeros) + n, blanks, b, 0);
  }

  lemma BlankOrZero(c: char, b: Base)
    ensures DigitValue(c, b).Some? ==> c != ' ' && c != '-' && c != '+' && c != 'x' && c != 'X'
  {
  }

  /** A number's text does not look like a sign, nor, unless it has the prefix, like 0x. */
  ghost predicate Bare(s: string, b: Base) {
    && (s != "" ==> s[0] == ' ' || DigitValue(s[0], b).Some?)
    && (|s| >= 2 ==> s[1] != 'x' && s[1] != 'X')
  }

  lemma BodyIsBare(u: nat, b: Base, upper: bool, alt: bool, prec: Option<nat>, zeros: int, blanks: int)
    ensures Bare(Repeat('0', zeros) + Number(u, b, upper, alt, prec) + Repeat(' ', blanks), b)
  {
    var n := Number(u, b, upper, alt, prec);
    BodyIsRead(u, b, upper, alt, prec, zeros, blanks);
    hide Number;
    var s := Repeat('0', zeros) + n + Repeat(' ', blanks);
    forall i | 0 <= i < |s| ensures s[i] == ' ' || DigitValue(s[i], b).Some? {
      if i >= |Repeat('0', zeros)| && i < |Repeat('0', zeros) + n| {
        assert s[i] == n[i - |Repeat('0', zeros)|];
      }
    }
    if |s| >= 2 {
      BlankOrZero(s[1], b);
    }
  }

  lemma LayoutParts(f: Format, prefix: string, n: string)
    ensures var pad := f.width - (Max(Precision(f), |n|) + |prefix|);
            Layout(f, prefix, n)
              == Repeat(' ', if !f.ladjust && !Zeros(f) then pad else 0)
                 + (prefix + (Repeat('0', if !f.ladjust && Zeros(f) then pad else Precision(f) - |n|) + n
                              + Repeat(' ', if f.ladjust then pad else 0)))
  {
  }

  /** Blanks come only when the digits have ended. */
  ghost predicate EndsInBlanks(s: string) {
    s != "" && s[0] == ' ' ==> s == Repeat(' ', |s|)
  }

  lemma {:induction false} ReadBlanks(n: int, b: Base)
    ensures Read(Repeat(' ', n), b, 0) == 0 && SkipBlanks(Repeat(' ', n)) == ""
  {
    BlanksSkipped(n, "");
    assert Repeat(' ', n) + "" == Repeat(' ', n);
  }

  lemma SkipsBlank(s: string)
    ensures SkipBlanks(" " + s) == SkipBlanks(s) && (s == "" || s[0] != ' ' ==> SkipBlanks(s) == s)
  {
    assert (" " + s)[1..] == s;
  }

  /** Reading a sign and the bare text behind it. */
  lemma SignIsRead(prefix: string, s: string, b: Base)
    requires Bare(s, b) && EndsInBlanks(s) && prefix in {"", "-", "+", " "}
    ensures Parse(prefix + s, b) == if prefix == "-" then -(Read(s, b, 0) as int) else Read(s, b, 0)
  {
    ReadBlanks(|s|, b);
    SkipsBlank(s);
    assert "" + s == s;
    if prefix == "-" || prefix == "+" {
      assert (prefix + s)[1..] == s;
    }
    if s != "" {
      BlankOrZero(s[0], b);
    }
    hide SkipBlanks; hide Read; hide DigitValue;
    if prefix == "-" || prefix == "+" {
      NoBlank(prefix + s);
    }
  }

  lemma NoBlank(t: string)
    requires t != "" && t[0] != ' '
    ensures SkipBlanks(t) == t
  {
  }

  lemma HexIsRead(prefix: string, s: string)
    requires prefix in {"0x", "0X"}
    ensures Parse(prefix + s, HEX) == Read(s, HEX, 0)
  {
    var t := prefix + s;
    NoBlank(t);
    assert t[2..] == s;
    hide SkipBlanks; hide Read;
  }

  ghost predicate GoodFormat(f: Format) {
    f.sign.Some? ==> f.sign.value in {' ', '+'}
  }

  lemma BodyEndsInBlanks(u: nat, b: Base, upper: bool, alt: bool, prec: Option<nat>, zeros: int, blanks: int)
    ensures EndsInBlanks(Repeat('0', zeros) + Number(u, b, upper, alt, prec) + Repeat(' ', blanks))
  {
    var n := Number(u, b, upper, alt, prec);
    BodyIsRead(u, b, upper, alt, prec, zeros, blanks);
    hide Number;
    var s := Repeat('0', zeros) + n + Repeat(' ', blanks);
    if n != "" { BlankOrZero(n[0], b); }
    assert zeros > 0 ==> s[0] == '0';
    assert zeros <= 0 && n != "" ==> s[0] == n[0];
    assert zeros <= 0 && n == "" ==> s == Repeat(' ', blanks);
  }

  /** Whatever the flags, width and precision, a field reads back as the argument: the most
      negative one, and zero printed as nothing, included. */
  lemma FieldIsRead(f: Format, c: Conversion, u: nat)
    requires u < TWO_TO_THE_64 && GoodFormat(f)
    ensures Parse(Field(f, c, u), BaseOf(c))
         == if c.Signed? && u >= 0x8000_0000_0000_0000 then u - 0x1_0000_0000_0000_0000 else u
  {
    var m, b, prefix := Magnitude(c, u), BaseOf(c), Prefix(f, c, u);
    var n := Number(m, b, UpperOf(c), f.alt, f.prec);
    var pad := f.width - (Max(Precision(f), |n|) + |prefix|);
    var zeros, blanks := if !f.ladjust && Zeros(f) then pad else Precision(f) - |n|, if f.ladjust then pad else 0;
    var body := Repeat('0', zeros) + n + Repeat(' ', blanks);
    LayoutParts(f, prefix, n);
    BodyIsRead(m, b, UpperOf(c), f.alt, f.prec, zeros, blanks);
    BodyIsBare(m, b, UpperOf(c), f.alt, f.prec, zeros, blanks);
    BodyEndsInBlanks(m, b, UpperOf(c), f.alt, f.prec, zeros, blanks);
    PrefixKinds(f, c, u);
    SignedMagnitude(c, u);
    assert AsSigned(u) == if u >= 0x8000_0000_0000_0000 then u - 0x1_0000_0000_0000_0000 else u;
    hide *;
    ParseSkips(if !f.ladjust && !Zeros(f) then pad else 0, prefix + body, b);
    if prefix in {"0x", "0X"} {
      HexIsRead(prefix, body);
    } else {
      SignIsRead(prefix, body, b);
    }
  }

  lemma PrefixKinds(f: Format, c: Conversion, u: nat)
    requires u < TWO_TO_THE_64 && GoodFormat(f)
    ensures var p := Prefix(f, c, u);
            && p in {"", "-", "+", " ", "0x", "0X"}
            && (p in {"0x", "0X"} ==> BaseOf(c) == HEX && !c.Signed?)
            && (p == "-" <==> c.Signed? && AsSigned(u) < 0)
  {
  }

  lemma SignedMagnitude(c: Conversion, u: nat)
    requires u < TWO_TO_THE_64
    ensures Magnitude(c, u) == if c.Signed? && AsSigned(u) < 0 then -AsSigned(u) else u
    ensures c.Signed? && AsSigned(u) >= 0 ==> AsSigned(u) == u
  {
  }

  lemma ParseSkips(n: int, s: string, b: Base)
    ensures Parse(Repeat(' ', n) + s, b) == Parse(s, b)
  {
    BlanksSkipped(n, s);
  }

  // ----- what it is written with -----

  /** What may go before the number, and exactly when it does. */
  lemma PrefixIs(f: Format, c: Conversion, u: nat)
    requires u < TWO_TO_THE_64 && GoodFormat(f)
    ensures var p, hex := Prefix(f, c, u), c.Unsigned? && c.base == HEX && f.alt && u > 0;
            && (p == "-" <==> c.Signed? && u >= 0x8000_0000_0000_0000)
            && (p == "+" <==> c.Signed? && u < 0x8000_0000_0000_0000 && f.sign == Some('+'))
            && (p == " " <==> c.Signed? && u < 0x8000_0000_0000_0000 && f.sign == Some(' '))
            && (p == "0X" <==> hex && c.upper)
            && (p == "0x" <==> c.Pointer? || (hex && !c.upper))
            && p in {"", "-", "+", " ", "0x", "0X"}
  {
    var p := Prefix(f, c, u);
    assert p != "" ==> p[0] == (if c.Signed? then (if AsSigned(u) < 0 then '-' else f.sign.value) else '0');
  }

  /** The digits in use, in one case. */
  ghost predicate InCase(s: string, upper: bool) {
    forall i :: 0 <= i < |s| ==> if upper then !('a' <= s[i] <= 'f') else !('A' <= s[i] <= 'F')
  }

  lemma DigitInCase(n: nat, upper: bool)
    requires n < 16
    ensures InCase([DigitChar(n, upper)], upper) && (DigitChar(n, upper) == '0' <==> n == 0)
  {
  }

  lemma {:induction false} DigitsInCase(u: nat, b: Base, upper: bool)
    ensures InCase(Digits(u, b, upper), upper) && (Digits(u, b, upper)[0] == '0' <==> u == 0)
    decreases u
  {
    if u < Radix(b) {
      DigitInCase(u, upper);
    } else {
      DigitsUnfold(u, b, upper);
      DivMod(u, Radix(b));
      DigitsInCase(u / Radix(b), b, upper);
      DigitInCase(u % Radix(b), upper);
      hide Digits; hide DigitChar; hide Radix;
    }
  }

  /** The number is in digits of the right case, without leading zeros, but for the one of the
      alternate octal form; and is left out just for zero with an explicit precision of zero. */
  lemma NumberIs(u: nat, b: Base, upper: bool, alt: bool, prec: Option<nat>)
    ensures var n := Number(u, b, upper, alt, prec);
            && AllDigits(n, b) && InCase(n, upper)
            && (n == "" <==> u == 0 && prec == Some(0))
            && (n != "" ==> (n[0] == '0' <==> u == 0 || (b == OCT && alt)))
            && (u > 0 && n[0] == '0' ==> |n| > 1 && n[1] != '0') && (u == 0 && n != "" ==> n == "0")
  {
    DigitsInCase(u, b, upper);
    DigitsAreRead(u, b, upper);
    hide DigitValue;
    assert DigitValue('0', b).Some? by { DigitIsRead(0, b, upper); }
  }

  // ----- the alternate form -----

  /** ISO C99 (section 7.19.6.1) has %#o show a zero first. The code does, unless it prints
      zero with an explicit precision of zero, of which it prints nothing. */
  lemma AlternateOctal(u: nat, prec: Option<nat>)
    ensures var n := Number(u, OCT, false, true, prec);
            (n != "" && n[0] == '0') <==> !(u == 0 && prec == Some(0))
  {
  }
}
