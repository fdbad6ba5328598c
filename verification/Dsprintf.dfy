/** Ns_DStringVPrintf (nsd/dsprintf.c), one integer conversion: digits are written backward
    into a fixed buffer, and the field is appended to a string. */
module Dsprintf {
  import opened Common
  import opened PrintfSpec
  import opened PrintfLaws

  const BUF := 348

  /** The digits of `u`, at the end of the buffer; they begin at the place returned. */
  method PutNumber(buf: array<char>, u: nat, b: Base, upper: bool, alt: bool, prec: Option<nat>) returns (bp: nat)
    requires buf.Length == BUF && u < TWO_TO_THE_64
    modifies buf
    ensures bp <= BUF && buf[bp..] == Number(u, b, upper, alt, prec)
  {
    bp := BUF;
    assert buf[BUF..] == "";
    if u != 0 || prec != Some(0) {
      DigitsFit(u, b, upper);
      match b
      case OCT =>
        bp := PutByDo(buf, u, b, upper);
        if alt && buf[bp] != '0' {
          ghost var was := buf[bp..];
          bp := bp - 1;
          buf[bp] := '0';
          assert buf[bp + 1..] == was && buf[bp..] == "0" + was;
        }
      case DEC =>
        bp := PutByWhile(buf, u, b, upper);
      case HEX =>
        bp := PutByDo(buf, u, b, upper);
    }
  }

  lemma Before(buf: array<char>, bp: nat, d: string, q: nat, b: Base, upper: bool, c: char)
    requires bp < buf.Length && buf[bp] == c
    ensures buf[bp..] == [c] + buf[bp + 1..]
    ensures d == Digits(q, b, upper) + [c] + buf[bp + 1..] ==> d == Digits(q, b, upper) + buf[bp..]
  {
    hide Digits;
    assert Digits(q, b, upper) + [c] + buf[bp + 1..] == Digits(q, b, upper) + ([c] + buf[bp + 1..]);
  }

  /** do *--bp = digit; while the quotient is not 0. */
  method PutByDo(buf: array<char>, u: nat, b: Base, upper: bool) returns (bp: nat)
    requires buf.Length == BUF && |Digits(u, b, upper)| <= 22
    modifies buf
    ensures BUF - 22 <= bp < BUF && buf[bp..] == Digits(u, b, upper)
  {
    ghost var d := Digits(u, b, upper);
    var rest: nat, more := u, true;
    bp := BUF;
    assert buf[BUF..] == "" && d + "" == d;
    while more
      invariant bp <= BUF
      invariant more ==> d == Digits(rest, b, upper) + buf[bp..]
      invariant !more ==> d == buf[bp..]
      decreases more, rest
    {
      DigitsStep(rest, b, upper);
      var c := DigitChar(rest % Radix(b), upper);
      ghost var q := rest / Radix(b);
      bp := bp - 1;
      buf[bp] := c;
      Before(buf, bp, d, q, b, upper, c);
      rest := rest / Radix(b);
      more := rest != 0;
    }
  }

  /** One digit less to come. */
  lemma DigitsStep(u: nat, b: Base, upper: bool)
    ensures u % Radix(b) < Radix(b)
    ensures Digits(u, b, upper)
         == if u / Radix(b) == 0 then [DigitChar(u % Radix(b), upper)]
            else Digits(u / Radix(b), b, upper) + [DigitChar(u % Radix(b), upper)]
    ensures u / Radix(b) != 0 ==> u / Radix(b) < u
    ensures |Digits(u, b, upper)| > 0
  {
    DivMod(u, Radix(b));
    hide DigitChar;
  }

  /** while there are digits to come after the next, and then the last one. */
  method PutByWhile(buf: array<char>, u: nat, b: Base, upper: bool) returns (bp: nat)
    requires buf.Length == BUF && |Digits(u, b, upper)| <= 22
    modifies buf
    ensures BUF - 22 <= bp < BUF && buf[bp..] == Digits(u, b, upper)
  {
    ghost var d := Digits(u, b, upper);
    var rest: nat := u;
    bp := BUF;
    assert buf[BUF..] == "" && d + "" == d;
    while rest >= Radix(b)
      invariant bp <= BUF
      invariant d == Digits(rest, b, upper) + buf[bp..]
      decreases rest
    {
      DigitsStep(rest, b, upper);
      var c := DigitChar(rest % Radix(b), upper);
      ghost var q := rest / Radix(b);
      bp := bp - 1;
      buf[bp] := c;
      Before(buf, bp, d, q, b, upper, c);
      rest := rest / Radix(b);
    }
    bp := bp - 1;
    buf[bp] := DigitChar(rest, upper);
    Before(buf, bp, d, 0, b, upper, DigitChar(rest, upper));
  }

  /** The string that is appended to. */
  class DString {
    var string_: string

    constructor ()
      ensures string_ == ""
    {
      string_ := "";
    }

    /** PRINT. */
    method Print(s: string)
      modifies this
      ensures string_ == old(string_) + s
    {
      string_ := string_ + s;
    }

    /** PAD. */
    method Pad(howMany: int, c: char)
      modifies this
      ensures string_ == old(string_) + Repeat(c, howMany)
    {
      ghost var start := string_;
      var n := howMany;
      assert start + "" == start;
      while n > 0
        invariant howMany > 0 ==> 0 <= n <= howMany
        invariant howMany <= 0 ==> n == howMany
        invariant string_ == start + Repeat(c, howMany - n)
      {
        RepeatMore(c, howMany - n);
        assert start + (Repeat(c, howMany - n) + [c]) == (start + Repeat(c, howMany - n)) + [c];
        string_ := string_ + [c];
        n := n - 1;
      }
    }

    /** Padding, sign or prefix, zeros and digits, in their order. */
    method Emit(f: Format, prefix: string, cp: string)
      modifies this
      ensures string_ == old(string_) + Layout(f, prefix, cp)
    {
      hide Layout; hide Repeat;
      var dprec, size := if f.prec.Some? then f.prec.value else -1, |cp|;
      var zeropad := f.zeropad && f.prec.None?;
      var realsz := (if dprec > size then dprec else size) + |prefix|;
      ghost var start := string_;
      if !f.ladjust && !zeropad {
        Pad(f.width - realsz, ' ');
      }
      Print(prefix);
      if !f.ladjust && zeropad {
        Pad(f.width - realsz, '0');
      }
      Pad(dprec - size, '0');
      Print(cp);
      if f.ladjust {
        Pad(f.width - realsz, ' ');
      }
      Appended(start, f, prefix, cp);
    }

    /** One of %d %o %u %x %X %p, the argument having been fetched as the 64-bit word `u`. */
    method FormatInteger(f: Format, c: Conversion, u: nat)
      requires u < TWO_TO_THE_64
      modifies this
      ensures string_ == old(string_) + Field(f, c, u)
    {
      hide Number; hide Layout;
      var buf := new char[BUF];
      var uquad := u;
      var sign: string := if f.sign.Some? then [f.sign.value] else "";
      var hexPrefix := "";
      match c {
        case Signed =>
          if uquad >= TWO_TO_THE_63 {
            uquad := Negated(uquad);
            sign := "-";
          }
        case Unsigned(b, upper) =>
          if b == HEX && f.alt && uquad != 0 {
            hexPrefix := if upper then "0X" else "0x";
          }
          sign := "";
        case Pointer =>
          hexPrefix := "0x";
          sign := "";
      }
      var bp := PutNumber(buf, uquad, BaseOf(c), UpperOf(c), f.alt, f.prec);
      Emit(f, if sign != "" then sign else hexPrefix, buf[bp..]);
    }
  }

  lemma RepeatMore(c: char, n: nat)
    ensures Repeat(c, n + 1) == Repeat(c, n) + [c]
  {
  }

  lemma Appended(start: string, f: Format, prefix: string, n: string)
    ensures var pad := f.width - (Max(Precision(f), |n|) + |prefix|);
            var blanks := if !f.ladjust && !Zeros(f) then start + Repeat(' ', pad) else start;
            var zeros := if !f.ladjust && Zeros(f) then (blanks + prefix) + Repeat('0', pad) else blanks + prefix;
            var digits := zeros + Repeat('0', Precision(f) - |n|) + n;
            start + Layout(f, prefix, n) == if f.ladjust then digits + Repeat(' ', pad) else digits
  {
    hide Repeat;
  }
}
