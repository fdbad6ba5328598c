/** Passwords as nsd/crypt.c stores and checks them: what Ns_Encrypt makes of a password and a
    salt, and what that is good for. Characters are their codes, which may be negative; a
    password is without its NUL, a salt with it. */
module CryptSpec {
  import opened DesSpec
  import opened DesLaws

  /** (c >> j) & 01 */
  function ShiftedBit(c: int, j: nat): bool
    decreases j
  {
    if j == 0 then c % 2 == 1 else ShiftedBit(c / 2, j - 1)
  }

  // ----- from a password to a key -----

  /** Seven bits of each of the first eight characters, the highest first. */
  function KeyOf(pw: seq<int>): (r: Bits)
    ensures |r| == 64
  {
    seq(64, i requires 0 <= i < 64 => i / 8 < |pw| && i % 8 < 7 && ShiftedBit(pw[i / 8], 6 - i % 8))
  }

  // ----- from a salt to a selection -----

  /** What a character of the alphabet ./0-9A-Za-z stands for. */
  function SaltValue(c: int): int {
    var c1 := if c > 'Z' as int then c - 6 else c;
    var c2 := if c1 > '9' as int then c1 - 7 else c1;
    c2 - '.' as int
  }

  /** Six bits of each of the first two characters, the lowest first. */
  function SaltBits(salt: seq<int>): (r: Bits)
    requires |salt| >= 2
    ensures |r| == 12
  {
    seq(12, k requires 0 <= k < 12 => ShiftedBit(SaltValue(salt[k / 6]), k % 6))
  }

  function SaltedE(salt: seq<int>): (e: seq<nat>)
    requires |salt| >= 2
    ensures IsE(e)
  {
    TablesFit();
    SaltedIsE(E_TABLE, SaltBits(salt));
    Salted(E_TABLE, SaltBits(salt))
  }

  // ----- the result -----

  /** The block enciphered `n` times. */
  function Times(n: nat, ks: seq<Bits>, e: seq<nat>): (b: Bits)
    requires AreKeys(ks) && IsE(e)
    ensures |b| == 64
  {
    if n == 0 then seq(64, _ => false) else Des(Times(n - 1, ks, e), ks, e, false)
  }

  /** The block of 66 bits that is written as eleven characters. */
  function Block(pw: seq<int>, salt: seq<int>): (b: Bits)
    requires |salt| >= 2
    ensures |b| == 66
  {
    Times(25, Schedule(KeyOf(pw)), SaltedE(salt)) + [false, false]
  }

  /** `n` bits from `from` on, the highest first. */
  function Number(b: Bits, from: nat, n: nat): nat
    requires from + n <= |b|
  {
    if n == 0 then 0 else 2 * Number(b, from, n - 1) + if b[from + n - 1] then 1 else 0
  }

  /** The character of the alphabet that stands for `v`. */
  function OutChar(v: int): int {
    var c := v + '.' as int;
    var c1 := if c > '9' as int then c + 7 else c;
    if c1 > 'Z' as int then c1 + 6 else c1
  }

  function Chars(b: Bits): (r: seq<int>)
    requires |b| == 66
    ensures |r| == 11
  {
    seq(11, i requires 0 <= i < 11 => OutChar(Number(b, 6 * i, 6)))
  }

  /** The salt as it is kept: a second character that is missing becomes the first. */
  function Kept(salt: seq<int>): (r: seq<int>)
    requires |salt| >= 2
    ensures |r| == 2
  {
    [salt[0], if salt[1] == 0 then salt[0] else salt[1]]
  }

  /** What Ns_Encrypt leaves in iobuf before the NUL. */
  function Hash(pw: seq<int>, salt: seq<int>): (r: seq<int>)
    requires |salt| >= 2
    ensures |r| == 13
  {
    Kept(salt) + Chars(Block(pw, salt))
  }

  // ----- the characters keep the block -----

  lemma {:induction false} NumberBounds(b: Bits, from: nat, n: nat)
    requires from + n <= |b| && n <= 6
    ensures Number(b, from, n) < Power(n)
  {
    if n > 0 {
      NumberBounds(b, from, n - 1);
    }
  }

  function Power(n: nat): nat {
    if n == 0 then 1 else 2 * Power(n - 1)
  }

  /** The bits of a number are those it was made of. */
  lemma {:induction false} NumberBit(b: Bits, from: nat, n: nat, j: nat)
    requires from + n <= |b| && j < n
    ensures ShiftedBit(Number(b, from, n), n - 1 - j) == b[from + j]
  {
    var v, w := Number(b, from, n), Number(b, from, n - 1);
    assert v / 2 == w && (v % 2 == 1 <==> b[from + n - 1]);
    if j < n - 1 {
      NumberBit(b, from, n - 1, j);
    }
  }

  /** The bits that eleven characters stand for. */
  ghost function Read(chars: seq<int>): (b: Bits)
    requires |chars| == 11
    ensures |b| == 66
  {
    seq(66, k requires 0 <= k < 66 => ShiftedBit(SaltValue(chars[k / 6]), 5 - k % 6))
  }

  /** Sixty-four values are written as ./0-9A-Za-z, in this order. */
  lemma CharIsRead(v: int)
    requires 0 <= v < 64
    ensures SaltValue(OutChar(v)) == v
    ensures OutChar(v) == if v == 0 then '.' as int else if v == 1 then '/' as int
                          else if v < 12 then '0' as int + v - 2
                          else if v < 38 then 'A' as int + v - 12
                          else 'a' as int + v - 38
  {
  }

  /** The characters give back the block. */
  lemma CharsAreRead(b: Bits)
    requires |b| == 66
    ensures Read(Chars(b)) == b
  {
    forall k | 0 <= k < 66 ensures Read(Chars(b))[k] == b[k] {
      NumberBounds(b, 6 * (k / 6), 6);
      assert Power(6) == 64;
      CharIsRead(Number(b, 6 * (k / 6), 6));
      NumberBit(b, 6 * (k / 6), 6, k % 6);
    }
  }

  // ----- undoing a hash -----

  ghost function Deciphered(b: Bits, n: nat, ks: seq<Bits>, e: seq<nat>): Bits
    requires |b| == 64 && AreKeys(ks) && IsE(e)
    decreases n
  {
    if n == 0 then b else Deciphered(Des(b, ks, e, true), n - 1, ks, e)
  }

  lemma {:induction false} TimesUndone(n: nat, ks: seq<Bits>, e: seq<nat>)
    requires AreKeys(ks) && IsE(e)
    ensures Deciphered(Times(n, ks, e), n, ks, e) == seq(64, _ => false)
  {
    hide Des;
    if n > 0 {
      DesIsInverted(Times(n - 1, ks, e), ks, e, false);
      TimesUndone(n - 1, ks, e);
    }
  }

  /** Whoever knows the password can undo its hash: the characters after the salt, deciphered 25
      times with the password's keys and the salt's E, are 64 bits of zero, and two more. */
  lemma HashIsUndone(pw: seq<int>, salt: seq<int>)
    requires |salt| >= 2
    ensures var h := Hash(pw, salt);
            var b := Read(h[2..]);
            && h[..2] == Kept(salt) && b[64..] == [false, false]
            && Deciphered(b[..64], 25, Schedule(KeyOf(pw)), SaltedE(salt)) == seq(64, _ => false)
  {
    var b := Block(pw, salt);
    CharsAreRead(b);
    TimesUndone(25, Schedule(KeyOf(pw)), SaltedE(salt));
    assert Hash(pw, salt)[2..] == Chars(b) && Hash(pw, salt)[..2] == Kept(salt);
    assert b[..64] == Times(25, Schedule(KeyOf(pw)), SaltedE(salt));
    hide Times; hide Deciphered; hide Chars; hide Read;
  }

  /** With one salt, two passwords have the same hash if and only if they leave the same block. */
  lemma HashIsBlock(p: seq<int>, q: seq<int>, salt: seq<int>)
    requires |salt| >= 2
    ensures Hash(p, salt) == Hash(q, salt) <==> Block(p, salt) == Block(q, salt)
  {
    CharsAreRead(Block(p, salt));
    CharsAreRead(Block(q, salt));
    assert Hash(p, salt)[2..] == Chars(Block(p, salt)) && Hash(q, salt)[2..] == Chars(Block(q, salt));
  }

  // ----- checking a password -----

  /** A check against what was stored enciphers with the same E as the storing did. */
  ghost predicate SameE(salt: seq<int>, stored: seq<int>)
    requires |salt| >= 2 && |stored| >= 2
  {
    SaltedE(stored) == SaltedE(salt)
  }

  /** Two salts give the same E if and only if their bits are the same. */
  lemma SameEIsSameBits(salt: seq<int>, stored: seq<int>)
    requires |salt| >= 2 && |stored| >= 2
    ensures SameE(salt, stored) <==> SaltBits(stored) == SaltBits(salt)
  {
    var a, b := SaltBits(stored), SaltBits(salt);
    TablesFit();
    Apart();
    hide E_TABLE;
    if SameE(salt, stored) {
      forall j | 0 <= j < 12 ensures a[j] == b[j] {
        assert Salted(E_TABLE, a)[j] == Salted(E_TABLE, b)[j];
      }
    }
  }

  /** No entry of E that a salt may move is the one it changes places with. */
  lemma Apart()
    ensures |E_TABLE| == 48 && forall j :: 0 <= j < 12 ==> E_TABLE[j] != E_TABLE[j + 24]
  {
  }

  /** The stored salt has the bits of the given one if and only if that has two characters, or
      its one character has the six bits that the NUL has, as in ASCII only 'G' does. */
  lemma StoredBits(salt: seq<int>)
    requires |salt| >= 2
    ensures SaltBits(Kept(salt)) == SaltBits(salt) <==> salt[1] != 0 || SaltValue(salt[0]) % 64 == 18
  {
    var a, b := SaltBits(Kept(salt)), SaltBits(salt);
    if salt[1] == 0 {
      LowBits(SaltValue(salt[0]), SaltValue(0), 6);
      assert Power(6) == 64 && SaltValue(0) % 64 == 18;
      forall k | 0 <= k < 6
        ensures a[k] == b[k]
        ensures a[6 + k] == ShiftedBit(SaltValue(salt[0]), k) && b[6 + k] == ShiftedBit(SaltValue(0), k)
      {
      }
      if SameLow(SaltValue(salt[0]), SaltValue(0), 6) {
        forall k | 0 <= k < 12 ensures a[k] == b[k] {
          if k >= 6 { assert a[6 + (k - 6)] == b[6 + (k - 6)]; }
        }
      } else if a == b {
        forall k | 0 <= k < 6 ensures ShiftedBit(SaltValue(salt[0]), k) == ShiftedBit(SaltValue(0), k) {
          assert a[6 + k] == b[6 + k];
        }
      }
    } else {
      SameBits(Kept(salt), salt);
    }
  }

  ghost predicate SameLow(x: int, y: int, n: nat) {
    forall k :: 0 <= k < n ==> ShiftedBit(x, k) == ShiftedBit(y, k)
  }

  lemma LowestBit(x: int, y: int, n: nat)
    requires n > 0
    ensures SameLow(x, y, n) <==> (x % 2 == y % 2 && SameLow(x / 2, y / 2, n - 1))
  {
    assert ShiftedBit(x, 0) == (x % 2 == 1) && ShiftedBit(y, 0) == (y % 2 == 1);
    if SameLow(x, y, n) {
      assert ShiftedBit(x, 0) == ShiftedBit(y, 0);
      forall k | 0 <= k < n - 1 ensures ShiftedBit(x / 2, k) == ShiftedBit(y / 2, k) {
        assert ShiftedBit(x, k + 1) == ShiftedBit(y, k + 1);
      }
    } else if x % 2 == y % 2 && SameLow(x / 2, y / 2, n - 1) {
      forall k | 0 <= k < n ensures ShiftedBit(x, k) == ShiftedBit(y, k) {
        if k > 0 { assert ShiftedBit(x / 2, k - 1) == ShiftedBit(y / 2, k - 1); }
      }
    }
  }

  /** Numbers agree in their lowest `n` bits if and only if they are equal modulo 2 to the `n`. */
  lemma {:induction false} LowBits(x: int, y: int, n: nat)
    ensures Power(n) > 0
    ensures SameLow(x, y, n) <==> x % Power(n) == y % Power(n)
    decreases n
  {
    hide SameLow; hide ShiftedBit;
    if n == 0 {
      NoBits(x, y);
    } else {
      LowestBit(x, y, n);
      LowBits(x / 2, y / 2, n - 1);
      Doubled(x, Power(n - 1));
      Doubled(y, Power(n - 1));
    }
  }

  lemma NoBits(x: int, y: int)
    ensures SameLow(x, y, 0) && Power(0) == 1
  {
  }

  lemma Doubled(x: int, m: nat)
    requires m > 0
    ensures x % (2 * m) == 2 * ((x / 2) % m) + x % 2
  {
    var q, r := (x / 2) / m, (x / 2) % m;
    assert x / 2 == q * m + r;
    assert x == (2 * m) * q + (2 * r + x % 2);
    Remainder(x, 2 * m, q, 2 * r + x % 2);
  }

  lemma Remainder(x: int, m: nat, q: int, r: int)
    requires m > 0 && x == m * q + r && 0 <= r < m
    ensures x % m == r
  {
    Quotient(m, x / m, q, x % m, r);
  }

  lemma Quotient(m: nat, p: int, q: int, s: int, r: int)
    requires m * p + s == m * q + r && 0 <= s < m && 0 <= r < m
    ensures p == q
  {
    assert m * (p - q) == r - s && m * (q - p) == s - r;
    if p > q {
      Grows(m, p - q);
      assert false;
    } else if p < q {
      Grows(m, q - p);
      assert false;
    }
  }

  lemma Grows(m: nat, d: int)
    requires d > 0
    ensures m * d >= m
  {
  }

  /** A password is accepted against its own hash whenever the salt has two characters; with a
      salt of one character the check uses another E than the storing did, unless that is 'G'
      or has its bits. */
  lemma OwnHashIsAccepted(pw: seq<int>, salt: seq<int>)
    requires |salt| >= 2
    ensures SameE(salt, Hash(pw, salt)) <==> salt[1] != 0 || SaltValue(salt[0]) % 64 == 18
    ensures salt[1] != 0 || SaltValue(salt[0]) % 64 == 18 ==> Hash(pw, Hash(pw, salt)) == Hash(pw, salt)
  {
    var h := Hash(pw, salt);
    assert h[..2] == Kept(salt) && h[0] == Kept(salt)[0] && h[1] == Kept(salt)[1];
    SameBits(h, Kept(salt));
    StoredBits(salt);
    SameEIsSameBits(salt, h);
    hide Block; hide SaltBits; hide Chars;
    if SameE(salt, h) {
      BlockOf(pw, salt, h);
      assert Kept(h) == Kept(salt);
    }
  }

  lemma SameBits(a: seq<int>, b: seq<int>)
    requires |a| >= 2 && |b| >= 2 && a[0] == b[0] && a[1] == b[1]
    ensures SaltBits(a) == SaltBits(b)
  {
  }

  lemma BlockOf(pw: seq<int>, salt: seq<int>, stored: seq<int>)
    requires |salt| >= 2 && |stored| >= 2 && SameE(salt, stored)
    ensures Block(pw, stored) == Block(pw, salt)
  {
  }

  // ----- what of a password counts -----

  ghost function LowSeven(pw: seq<int>, k: nat): int {
    if k < |pw| then pw[k] % 128 else 0
  }

  /** Bit `j` of the key's eight for character `k`. */
  ghost function KeyBit(pw: seq<int>, k: nat, j: nat): bool
    requires k < 8 && j < 8
  {
    KeyOf(pw)[8 * k + j]
  }

  ghost predicate SameSeven(p: seq<int>, q: seq<int>, k: nat)
    requires k < 8
  {
    forall j :: 0 <= j < 7 ==> KeyBit(p, k, j) == KeyBit(q, k, j)
  }

  /** Two passwords have the same key if and only if their first eight characters agree, but for
      the highest bit of each; what comes behind them does not count. */
  lemma KeyIsEightChars(p: seq<int>, q: seq<int>)
    ensures KeyOf(p) == KeyOf(q) <==> forall k :: 0 <= k < 8 ==> LowSeven(p, k) == LowSeven(q, k)
  {
    hide LowSeven;
    forall k | 0 <= k < 8 ensures LowSeven(p, k) == LowSeven(q, k) <==> SameSeven(p, q, k) {
      SevenBits(p, q, k);
    }
    if forall k :: 0 <= k < 8 ==> LowSeven(p, k) == LowSeven(q, k) {
      forall i | 0 <= i < 64 ensures KeyOf(p)[i] == KeyOf(q)[i] {
        var k, j := i / 8, i % 8;
        assert LowSeven(p, k) == LowSeven(q, k);
        assert 8 * k + j == i;
        if j < 7 { assert KeyBit(p, k, j) == KeyBit(q, k, j); }
      }
    }
  }

  lemma SevenBits(p: seq<int>, q: seq<int>, k: nat)
    requires k < 8
    ensures LowSeven(p, k) == LowSeven(q, k) <==> SameSeven(p, q, k)
  {
    var x, y := CharAt(p, k), CharAt(q, k);
    assert Power(7) == 128;
    LowBits(x, y, 7);
    hide KeyBit; hide Power;
    forall j | 0 <= j < 7
      ensures KeyBit(p, k, j) == ShiftedBit(x, 6 - j) && KeyBit(q, k, j) == ShiftedBit(y, 6 - j)
    {
      BitOfKey(p, k, j);
      BitOfKey(q, k, j);
    }
    hide ShiftedBit;
    if SameSeven(p, q, k) {
      forall m | 0 <= m < 7 ensures ShiftedBit(x, m) == ShiftedBit(y, m) {
        assert KeyBit(p, k, 6 - m) == KeyBit(q, k, 6 - m);
      }
    } else if SameLow(x, y, 7) {
      forall j | 0 <= j < 7 ensures KeyBit(p, k, j) == KeyBit(q, k, j) {
        assert ShiftedBit(x, 6 - j) == ShiftedBit(y, 6 - j);
      }
    }
  }

  ghost function CharAt(pw: seq<int>, k: nat): int {
    if k < |pw| then pw[k] else 0
  }

  lemma BitOfKey(pw: seq<int>, k: nat, j: nat)
    requires k < 8 && j < 7
    ensures KeyBit(pw, k, j) == ShiftedBit(CharAt(pw, k), 6 - j)
  {
    assert (8 * k + j) / 8 == k && (8 * k + j) % 8 == j;
    ZeroBits(6 - j);
  }

  lemma {:induction false} ZeroBits(j: nat)
    ensures !ShiftedBit(0, j)
  {
    if j > 0 { ZeroBits(j - 1); }
  }

  /** So a password of more than eight characters can be given with its first eight. */
  lemma LongPasswordsAreCut(pw: seq<int>, salt: seq<int>)
    requires |salt| >= 2 && |pw| > 8
    ensures Hash(pw, salt) == Hash(pw[..8], salt)
  {
    KeyIsEightChars(pw, pw[..8]);
  }
}
