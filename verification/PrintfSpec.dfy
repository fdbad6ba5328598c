/** The integer conversions of Ns_DStringVPrintf (nsd/dsprintf.c): digits and layout of a
    field, and reading it back. */
module PrintfSpec {
  import opened Common

  datatype Base = OCT | DEC | HEX

  function Radix(b: Base): (r: nat)
    ensures 8 <= r <= 16
  {
    match b case OCT => 8 case DEC => 10 case HEX => 16
  }

  function DigitChar(n: nat, upper: bool): char
    requires n < 16
  {
    if upper then "0123456789ABCDEF"[n] else "0123456789abcdef"[n]
  }

  /** Most significant digit first, no leading zeros. */
  function Digits(u: nat, b: Base, upper: bool): (r: string)
    ensures r != ""
    decreases u
  {
    if u < Radix(b) then [DigitChar(u, upper)]
    else Digits(u / Radix(b), b, upper) + [DigitChar(u % Radix(b), upper)]
  }

  const TWO_TO_THE_63 := 0x8000_0000_0000_0000
  const TWO_TO_THE_64 := 0x1_0000_0000_0000_0000

  /** A 64-bit word as quad_t. */
  function AsSigned(u: nat): int
    requires u < TWO_TO_THE_64
  {
    if u >= TWO_TO_THE_63 then u - TWO_TO_THE_64 else u
  }

  /** -_uquad, in 64 bits. */
  function Negated(u: nat): (r: nat)
    requires u < TWO_TO_THE_64
    ensures r < TWO_TO_THE_64
  {
    (TWO_TO_THE_64 - u) % TWO_TO_THE_64
  }

  /** Flags, width and precision, if given. `sign` is from the flags ' ' and '+'. */
  datatype Format = Format(ladjust: bool, zeropad: bool, alt: bool, sign: Option<char>, width: nat, prec: Option<nat>)

  /** %d; or %o, %u, %x, %X; or %p. */
  datatype Conversion = Signed | Unsigned(base: Base, upper: bool) | Pointer

  function BaseOf(c: Conversion): Base {
    match c case Signed => DEC case Unsigned(b, _) => b case Pointer => HEX
  }

  function UpperOf(c: Conversion): bool {
    c.Unsigned? && c.upper
  }

  /** What is converted: the magnitude of a signed argument. */
  function Magnitude(c: Conversion, u: nat): (r: nat)
    requires u < TWO_TO_THE_64
    ensures r < TWO_TO_THE_64
  {
    if c.Signed? && AsSigned(u) < 0 then Negated(u) else u
  }

  /** What goes before the number. */
  function Prefix(f: Format, c: Conversion, u: nat): (r: string)
    requires u < TWO_TO_THE_64
    ensures |r| <= 2
  {
    if c.Signed? then
      if AsSigned(u) < 0 then "-" else if f.sign.Some? then [f.sign.value] else ""
    else if c.Pointer? then "0x"
    else if c.base == HEX && f.alt && u != 0 then (if c.upper then "0X" else "0x")
    else ""
  }

  /** The digits: none for zero with an explicit precision of zero, one more for octal in the
      alternate form. */
  function Number(u: nat, b: Base, upper: bool, alt: bool, prec: Option<nat>): string {
    if u == 0 && prec == Some(0) then ""
    else
      var d := Digits(u, b, upper);
      if b == OCT && alt && d[0] != '0' then "0" + d else d
  }

  function Repeat(c: char, n: int): (r: string)
    ensures |r| == (if n > 0 then n else 0) && forall i :: 0 <= i < |r| ==> r[i] == c
  {
    if n <= 0 then "" else seq(n, _ => c)
  }

  function Max(a: int, b: int): int {
    if a > b then a else b
  }

  /** The flag 0 is ignored with a precision. */
  predicate Zeros(f: Format) {
    f.zeropad && f.prec.None?
  }

  function Precision(f: Format): int {
    if f.prec.Some? then f.prec.value else -1
  }

  /** Padding, prefix, zeros and digits of a field. */
  function Layout(f: Format, prefix: string, number: string): string {
    var pad := f.width - (Max(Precision(f), |number|) + |prefix|);
    (if !f.ladjust && !Zeros(f) then Repeat(' ', pad) else "")
    + prefix
    + (if !f.ladjust && Zeros(f) then Repeat('0', pad) else "")
    + Repeat('0', Precision(f) - |number|)
    + number
    + (if f.ladjust then Repeat(' ', pad) else "")
  }

  function Field(f: Format, c: Conversion, u: nat): string
    requires u < TWO_TO_THE_64
  {
    Layout(f, Prefix(f, c, u), Number(Magnitude(c, u), BaseOf(c), UpperOf(c), f.alt, f.prec))
  }

  // ----- reading back -----

  function DigitValue(c: char, b: Base): Option<nat> {
    var v := if '0' <= c <= '9' then (c - '0') as int
             else if 'a' <= c <= 'f' then (c - 'a') as int + 10
             else if 'A' <= c <= 'F' then (c - 'A') as int + 10 else 16;
    if v < Radix(b) then Some(v) else None
  }

  /** The number that the digits at the front of `s` stand for, after `so` already read. */
  function Read(s: string, b: Base, so: nat): nat {
    if s == "" || DigitValue(s[0], b).None? then so
    else Read(s[1..], b, Radix(b) * so + DigitValue(s[0], b).value)
  }

  function SkipBlanks(s: string): string {
    if s != "" && s[0] == ' ' then SkipBlanks(s[1..]) else s
  }

  /** As strtoll would: blanks, a sign, 0x before hexadecimal digits, digits. */
  function Parse(s: string, b: Base): int {
    var t := SkipBlanks(s);
    var v := if t != "" && (t[0] == '-' || t[0] == '+') then t[1..] else t;
    var w := if b == HEX && |v| >= 2 && v[0] == '0' && (v[1] == 'x' || v[1] == 'X') then v[2..] else v;
    if t != "" && t[0] == '-' then -(Read(w, b, 0) as int) else Read(w, b, 0)
  }
}
