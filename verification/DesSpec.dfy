/** The Data Encryption Standard (FIPS PUB 46-3) as nsd/crypt.c computes it, a bit to a
    place: its tables, and what the key schedule and the cipher are. */
module DesSpec {
  type Bits = seq<bool>

  /** The initial permutation. */
  const IP: seq<nat> :=
    [58, 50, 42, 34, 26, 18, 10, 2] +
    [60, 52, 44, 36, 28, 20, 12, 4] +
    [62, 54, 46, 38, 30, 22, 14, 6] +
    [64, 56, 48, 40, 32, 24, 16, 8] +
    [57, 49, 41, 33, 25, 17, 9, 1] +
    [59, 51, 43, 35, 27, 19, 11, 3] +
    [61, 53, 45, 37, 29, 21, 13, 5] +
    [63, 55, 47, 39, 31, 23, 15, 7]

  /** The final one, its inverse. */
  const FP: seq<nat> :=
    [40, 8, 48, 16, 56, 24, 64, 32] +
    [39, 7, 47, 15, 55, 23, 63, 31] +
    [38, 6, 46, 14, 54, 22, 62, 30] +
    [37, 5, 45, 13, 53, 21, 61, 29] +
    [36, 4, 44, 12, 52, 20, 60, 28] +
    [35, 3, 43, 11, 51, 19, 59, 27] +
    [34, 2, 42, 10, 50, 18, 58, 26] +
    [33, 1, 41, 9, 49, 17, 57, 25]

  /** Permuted choice 1, to the halves C and D. */
  const PC1_C: seq<nat> :=
    [57, 49, 41, 33, 25, 17, 9] +
    [1, 58, 50, 42, 34, 26, 18] +
    [10, 2, 59, 51, 43, 35, 27] +
    [19, 11, 3, 60, 52, 44, 36]

  const PC1_D: seq<nat> :=
    [63, 55, 47, 39, 31, 23, 15] +
    [7, 62, 54, 46, 38, 30, 22] +
    [14, 6, 61, 53, 45, 37, 29] +
    [21, 13, 5, 28, 20, 12, 4]

  const SHIFTS: seq<nat> := [1, 1, 2, 2, 2, 2, 2, 2, 1, 2, 2, 2, 2, 2, 2, 1]

  /** Permuted choice 2, from C and from D; the latter's entries count from 29. */
  const PC2_C: seq<nat> :=
    [14, 17, 11, 24, 1, 5] +
    [3, 28, 15, 6, 21, 10] +
    [23, 19, 12, 4, 26, 8] +
    [16, 7, 27, 20, 13, 2]

  const PC2_D: seq<nat> :=
    [41, 52, 31, 37, 47, 55] +
    [30, 40, 51, 45, 33, 48] +
    [44, 49, 39, 56, 34, 53] +
    [46, 42, 50, 36, 29, 32]

  /** The bit selection E, before salting. */
  const E_TABLE: seq<nat> :=
    [32, 1, 2, 3, 4, 5] +
    [4, 5, 6, 7, 8, 9] +
    [8, 9, 10, 11, 12, 13] +
    [12, 13, 14, 15, 16, 17] +
    [16, 17, 18, 19, 20, 21] +
    [20, 21, 22, 23, 24, 25] +
    [24, 25, 26, 27, 28, 29] +
    [28, 29, 30, 31, 32, 1]

  const P: seq<nat> :=
    [16, 7, 20, 21, 29, 12, 28, 17] +
    [1, 15, 23, 26, 5, 18, 31, 10] +
    [2, 8, 24, 14, 32, 27, 3, 9] +
    [19, 13, 30, 6, 22, 11, 4, 25]

  /** The selection functions. */
  const S: seq<seq<bv4>> := [
    [14, 4, 13, 1, 2, 15, 11, 8, 3, 10, 6, 12, 5, 9, 0, 7] +
    [0, 15, 7, 4, 14, 2, 13, 1, 10, 6, 12, 11, 9, 5, 3, 8] +
    [4, 1, 14, 8, 13, 6, 2, 11, 15, 12, 9, 7, 3, 10, 5, 0] +
    [15, 12, 8, 2, 4, 9, 1, 7, 5, 11, 3, 14, 10, 0, 6, 13],
    [15, 1, 8, 14, 6, 11, 3, 4, 9, 7, 2, 13, 12, 0, 5, 10] +
    [3, 13, 4, 7, 15, 2, 8, 14, 12, 0, 1, 10, 6, 9, 11, 5] +
    [0, 14, 7, 11, 10, 4, 13, 1, 5, 8, 12, 6, 9, 3, 2, 15] +
    [13, 8, 10, 1, 3, 15, 4, 2, 11, 6, 7, 12, 0, 5, 14, 9],
    [10, 0, 9, 14, 6, 3, 15, 5, 1, 13, 12, 7, 11, 4, 2, 8] +
    [13, 7, 0, 9, 3, 4, 6, 10, 2, 8, 5, 14, 12, 11, 15, 1] +
    [13, 6, 4, 9, 8, 15, 3, 0, 11, 1, 2, 12, 5, 10, 14, 7] +
    [1, 10, 13, 0, 6, 9, 8, 7, 4, 15, 14, 3, 11, 5, 2, 12],
    [7, 13, 14, 3, 0, 6, 9, 10, 1, 2, 8, 5, 11, 12, 4, 15] +
    [13, 8, 11, 5, 6, 15, 0, 3, 4, 7, 2, 12, 1, 10, 14, 9] +
    [10, 6, 9, 0, 12, 11, 7, 13, 15, 1, 3, 14, 5, 2, 8, 4] +
    [3, 15, 0, 6, 10, 1, 13, 8, 9, 4, 5, 11, 12, 7, 2, 14],
    [2, 12, 4, 1, 7, 10, 11, 6, 8, 5, 3, 15, 13, 0, 14, 9] +
    [14, 11, 2, 12, 4, 7, 13, 1, 5, 0, 15, 10, 3, 9, 8, 6] +
    [4, 2, 1, 11, 10, 13, 7, 8, 15, 9, 12, 5, 6, 3, 0, 14] +
    [11, 8, 12, 7, 1, 14, 2, 13, 6, 15, 0, 9, 10, 4, 5, 3],
    [12, 1, 10, 15, 9, 2, 6, 8, 0, 13, 3, 4, 14, 7, 5, 11] +
    [10, 15, 4, 2, 7, 12, 9, 5, 6, 1, 13, 14, 0, 11, 3, 8] +
    [9, 14, 15, 5, 2, 8, 12, 3, 7, 0, 4, 10, 1, 13, 11, 6] +
    [4, 3, 2, 12, 9, 5, 15, 10, 11, 14, 1, 7, 6, 0, 8, 13],
    [4, 11, 2, 14, 15, 0, 8, 13, 3, 12, 9, 7, 5, 10, 6, 1] +
    [13, 0, 11, 7, 4, 9, 1, 10, 14, 3, 5, 12, 2, 15, 8, 6] +
    [1, 4, 11, 13, 12, 3, 7, 14, 10, 15, 6, 8, 0, 5, 9, 2] +
    [6, 11, 13, 8, 1, 4, 10, 7, 9, 5, 0, 15, 14, 2, 3, 12],
    [13, 2, 8, 4, 6, 15, 11, 1, 10, 9, 3, 14, 5, 0, 12, 7] +
    [1, 15, 13, 8, 10, 3, 7, 4, 12, 5, 6, 11, 0, 14, 9, 2] +
    [7, 11, 4, 1, 9, 12, 14, 2, 0, 6, 10, 13, 15, 3, 5, 8] +
    [2, 1, 14, 7, 4, 10, 8, 13, 15, 12, 9, 0, 3, 5, 6, 11]]

  /** All entries name one of `n` places, counted from 1. */
  ghost predicate Selects(table: seq<nat>, n: nat) {
    forall j :: 0 <= j < |table| ==> 1 <= table[j] <= n
  }

  /** The bits at the places the table names. */
  function Permute(x: Bits, table: seq<nat>): (r: Bits)
    requires Selects(table, |x|)
    ensures |r| == |table| && forall j :: 0 <= j < |table| ==> r[j] == x[table[j] - 1]
  {
    seq(|table|, j requires 0 <= j < |table| => x[table[j] - 1])
  }

  function Xor(a: Bits, b: Bits): (r: Bits)
    requires |a| == |b|
    ensures |r| == |a| && forall j :: 0 <= j < |a| ==> r[j] == (a[j] != b[j])
  {
    seq(|a|, j requires 0 <= j < |a| => a[j] != b[j])
  }

  function Not(a: Bits): (r: Bits)
    ensures |r| == |a| && forall j :: 0 <= j < |a| ==> r[j] == !a[j]
  {
    seq(|a|, j requires 0 <= j < |a| => !a[j])
  }

  function Bit(b: bool): nat {
    if b then 1 else 0
  }

  /** Which entry of a selection function six bits pick. */
  function Entry(s: Bits, t: nat): (r: nat)
    requires t + 6 <= |s|
    ensures r < 64
  {
    32 * Bit(s[t]) + 8 * Bit(s[t + 1]) + 4 * Bit(s[t + 2]) + 2 * Bit(s[t + 3]) + Bit(s[t + 4]) + 16 * Bit(s[t + 5])
  }

  // ----- the cipher -----

  /** The 32 bits the selection functions give for 48: four for each six. */
  function Selected(s: Bits): (r: Bits)
    requires |s| == 48
    ensures |r| == 32
  {
    SizesOfS();
    seq(32, i requires 0 <= i < 32 => BitOf(S[i / 4][Entry(s, 6 * (i / 4))], 3 - i % 4))
  }

  /** (k >> n) & 01. */
  function BitOf(k: bv4, n: nat): bool
    requires n < 4
  {
    (k >> n) & 1 == 1
  }

  lemma SizesOfS()
    ensures |S| == 8 && forall j :: 0 <= j < 8 ==> |S[j]| == 64
  {
  }

  lemma TablesFit()
    ensures |IP| == |FP| == 64 && |P| == 32 && |E_TABLE| == 48
    ensures Selects(P, 32) && Selects(E_TABLE, 32)
  {
  }

  lemma IpSelects()
    ensures |IP| == 64 && Selects(IP, 64)
  {
  }

  lemma FpSelects()
    ensures |FP| == 64 && Selects(FP, 64)
  {
  }

  /** A selection of 48 of the 32 bits, as E is however it is salted. */
  ghost predicate IsE(e: seq<nat>) {
    |e| == 48 && Selects(e, 32)
  }

  function Cipher(r: Bits, k: Bits, e: seq<nat>): (f: Bits)
    requires |r| == 32 && |k| == 48 && IsE(e)
    ensures |f| == 32
  {
    TablesFit();
    Permute(Selected(Xor(Permute(r, e), k)), P)
  }

  datatype Halves = Halves(l: Bits, r: Bits)

  ghost predicate IsHalves(h: Halves) {
    |h.l| == 32 && |h.r| == 32
  }

  function Round(h: Halves, k: Bits, e: seq<nat>): (g: Halves)
    requires IsHalves(h) && |k| == 48 && IsE(e)
    ensures IsHalves(g)
  {
    Halves(h.r, Xor(h.l, Cipher(h.r, k, e)))
  }

  ghost predicate AreKeys(ks: seq<Bits>) {
    forall i :: 0 <= i < |ks| ==> |ks[i]| == 48
  }

  function Rounds(h: Halves, ks: seq<Bits>, e: seq<nat>): (g: Halves)
    requires IsHalves(h) && AreKeys(ks) && IsE(e)
    ensures IsHalves(g)
  {
    if ks == [] then h else Round(Rounds(h, ks[..|ks| - 1], e), ks[|ks| - 1], e)
  }

  function Reversed(ks: seq<Bits>): (r: seq<Bits>)
    ensures |r| == |ks| && forall i :: 0 <= i < |ks| ==> r[i] == ks[|ks| - 1 - i]
  {
    seq(|ks|, i requires 0 <= i < |ks| => ks[|ks| - 1 - i])
  }

  function Swap(h: Halves): Halves {
    Halves(h.r, h.l)
  }

  function Split(x: Bits): (h: Halves)
    requires |x| == 64
    ensures IsHalves(h)
  {
    Halves(x[..32], x[32..])
  }

  function Join(h: Halves): Bits {
    h.l + h.r
  }

  /** One block; the keys in the other order to decipher. */
  function Des(block: Bits, ks: seq<Bits>, e: seq<nat>, edflag: bool): (r: Bits)
    requires |block| == 64 && AreKeys(ks) && IsE(e)
    ensures |r| == 64
  {
    IpSelects();
    FpSelects();
    Permute(Join(Swap(Rounds(Split(Permute(block, IP)), if edflag then Reversed(ks) else ks, e))), FP)
  }

  // ----- the key schedule -----

  lemma KeyTablesFit()
    ensures |PC1_C| == |PC1_D| == 28 && Selects(PC1_C, 64) && Selects(PC1_D, 64) && |SHIFTS| == 16
    ensures |PC2_C| == |PC2_D| == 24 && Selects(PC2_C, 28) && forall j :: 0 <= j < 24 ==> 29 <= PC2_D[j] <= 56
  {
  }

  /** How far C and D have been rotated for key `i`. */
  function Turned(i: nat): nat
    requires i < 16
  {
    KeyTablesFit();
    SHIFTS[i] + if i == 0 then 0 else Turned(i - 1)
  }

  function Rotated(x: Bits, n: nat): (r: Bits)
    ensures |r| == |x| && forall j :: 0 <= j < |x| ==> r[j] == x[(j + n) % |x|]
  {
    seq(|x|, j requires 0 <= j < |x| => x[(j + n) % |x|])
  }

  /** Key `i`: bits of the key at fixed places, turned by a fixed number. */
  function KeyBits(key: Bits, i: nat): (r: Bits)
    requires |key| == 64 && i < 16
    ensures |r| == 48
  {
    KeyTablesFit();
    var c, d := Rotated(Permute(key, PC1_C), Turned(i)), Rotated(Permute(key, PC1_D), Turned(i));
    seq(48, j requires 0 <= j < 48 => if j < 24 then c[PC2_C[j] - 1] else d[PC2_D[j - 24] - 29])
  }

  function Schedule(key: Bits): (ks: seq<Bits>)
    requires |key| == 64
    ensures |ks| == 16 && AreKeys(ks)
  {
    seq(16, i requires 0 <= i < 16 => KeyBits(key, i))
  }

  // ----- the salt -----

  /** For each salt bit that is set, two entries of E change places. */
  function Salted(e: seq<nat>, salt: seq<bool>): (r: seq<nat>)
    requires |e| == 48 && |salt| <= 12
    ensures |r| == 48
  {
    seq(48, j requires 0 <= j < 48 =>
      if j < |salt| && salt[j] then e[j + 24]
      else if 24 <= j < 24 + |salt| && salt[j - 24] then e[j - 24] else e[j])
  }
}
