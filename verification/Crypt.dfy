/** The DES routines of nsd/crypt.c on fixed arrays of bits. */
module Crypt {
  import opened DesSpec
  import opened DesLaws
  import opened CryptSpec

  /** struct sched. */
  class Sched {
    const C: array<bool>
    const D: array<bool>
    const KS: array2<bool>
    const E: array<nat>

    constructor ()
      ensures Valid() && fresh(C) && fresh(D) && fresh(KS) && fresh(E)
    {
      C := new bool[28];
      D := new bool[28];
      KS := new bool[16, 48];
      E := new nat[48];
    }

    ghost predicate Valid() {
      C.Length == D.Length == 28 && C != D && KS.Length0 == 16 && KS.Length1 == 48 && E.Length == 48
    }

    ghost function Key(i: nat): (k: Bits)
      requires Valid() && i < 16
      reads KS
      ensures |k| == 48
    {
      seq(48, j requires 0 <= j < 48 reads KS => KS[i, j])
    }

    ghost function Keys(): (ks: seq<Bits>)
      requires Valid()
      reads KS
      ensures |ks| == 16 && AreKeys(ks)
    {
      seq(16, i requires 0 <= i < 16 reads KS => Key(i))
    }
  }

  /** Take the bits the table names, one by one. */
  method Gather(src: array<bool>, ghost n: nat, table: seq<nat>, dst: array<bool>)
    requires n <= src.Length && Selects(table, n) && |table| <= dst.Length && src != dst
    modifies dst
    ensures dst[..|table|] == Permute(src[..n], table) && dst[|table|..] == old(dst[|table|..])
  {
    ghost var x := src[..n];
    var j := 0;
    while j < |table|
      invariant 0 <= j <= |table|
      invariant forall q :: 0 <= q < j ==> dst[q] == x[table[q] - 1]
      invariant dst[|table|..] == old(dst[|table|..])
    {
      assert src[table[j] - 1] == x[table[j] - 1];
      dst[j] := src[table[j] - 1];
      j := j + 1;
    }
  }

  /** One place to the left, the first bit last. */
  method RotateOnce(a: array<bool>)
    requires a.Length == 28
    modifies a
    ensures a[..] == Rotated(old(a[..]), 1)
  {
    RotatedOne(a[..]);
    hide Rotated;
    var t := a[0];
    var j := 0;
    while j < 27
      invariant 0 <= j <= 27
      invariant forall i :: 0 <= i < j ==> a[i] == old(a[i + 1])
      invariant forall i :: j <= i < 28 ==> a[i] == old(a[i])
    {
      a[j] := a[j + 1];
      j := j + 1;
    }
    a[27] := t;
  }

  lemma RotatedOne(x: Bits)
    requires |x| == 28
    ensures Rotated(x, 1) == x[1..] + [x[0]]
  {
  }

  /** How far C and D have been rotated before key `i`. */
  ghost function Before(i: nat): nat
    requires i <= 16
  {
    if i == 0 then 0 else Turned(i - 1)
  }

  /** Rotate C and D as the schedule says for key `i`. */
  method Turn(sp: Sched, i: nat, ghost c: Bits, ghost d: Bits)
    requires sp.Valid() && i < 16 && |c| == |d| == 28
    requires sp.C[..] == Rotated(c, Before(i)) && sp.D[..] == Rotated(d, Before(i))
    modifies sp.C, sp.D
    ensures sp.C[..] == Rotated(c, Turned(i)) && sp.D[..] == Rotated(d, Turned(i))
  {
    hide SHIFTS; hide Rotated; hide Turned; hide Before; hide Permute; hide PC1_C; hide PC1_D;
    ghost var n := Before(i);
    TurnedMore(i);
    var k := 0;
    while k < SHIFTS[i]
      invariant 0 <= k <= SHIFTS[i]
      invariant sp.C[..] == Rotated(c, n + k) && sp.D[..] == Rotated(d, n + k)
    {
      TurnOnce(sp.C, c, n + k);
      TurnOnce(sp.D, d, n + k);
      k := k + 1;
    }
  }

  method TurnOnce(a: array<bool>, ghost x: Bits, ghost m: nat)
    requires a.Length == 28 && |x| == 28 && a[..] == Rotated(x, m)
    modifies a
    ensures a[..] == Rotated(x, m + 1)
  {
    hide Rotated;
    RotateOnce(a);
    RotatedTwice(x, m, 1);
  }

  lemma TurnedMore(i: nat)
    requires i < 16
    ensures |SHIFTS| == 16 && Turned(i) == SHIFTS[i] + Before(i)
  {
    KeyTablesFit();
    hide SHIFTS;
  }

  /** Pick key `i` out of C and D. */
  method PickKey(sp: Sched, i: nat, ghost key: Bits)
    requires sp.Valid() && i < 16 && |key| == 64
    requires Selects(PC1_C, 64) && Selects(PC1_D, 64)
    requires sp.C[..] == Rotated(Permute(key, PC1_C), Turned(i)) && sp.D[..] == Rotated(Permute(key, PC1_D), Turned(i))
    modifies sp.KS
    ensures sp.Key(i) == KeyBits(key, i)
    ensures forall m :: 0 <= m < 16 && m != i ==> sp.Key(m) == old(sp.Key(m))
  {
    KeyTablesFit();
    hide PC1_C; hide PC1_D; hide PC2_C; hide PC2_D; hide Permute; hide Turned;
    ghost var c, d := sp.C[..], sp.D[..];
    hide Rotated;
    var j := 0;
    while j < 24
      invariant 0 <= j <= 24
      invariant forall q :: 0 <= q < j ==> sp.KS[i, q] == c[PC2_C[q] - 1]
      invariant forall q :: 24 <= q < 24 + j ==> sp.KS[i, q] == d[PC2_D[q - 24] - 29]
      invariant forall m, q :: 0 <= m < 16 && m != i && 0 <= q < 48 ==> sp.KS[m, q] == old(sp.KS[m, q])
    {
      sp.KS[i, j] := sp.C[PC2_C[j] - 1];
      sp.KS[i, j + 24] := sp.D[PC2_D[j] - 29];
      j := j + 1;
    }
  }

  /** setkey_private: the keys are those of the closed form, E is the table's, and C and D end
      as they were after the first permutation. */
  method SetKey(sp: Sched, key: array<bool>)
    requires sp.Valid() && key.Length >= 64 && key != sp.C && key != sp.D
    modifies sp.C, sp.D, sp.KS, sp.E
    ensures sp.Keys() == Schedule(key[..64]) && sp.E[..] == E_TABLE
    ensures Selects(PC1_C, 64) && Selects(PC1_D, 64)
    ensures sp.C[..] == Permute(key[..64], PC1_C) && sp.D[..] == Permute(key[..64], PC1_D)
  {
    KeyTablesFit();
    ghost var k := key[..64];
    hide PC1_C; hide PC1_D; hide E_TABLE; hide SHIFTS; hide Turned; hide Rotated; hide Permute;
    ghost var c, d := Permute(k, PC1_C), Permute(k, PC1_D);
    Gather(key, 64, PC1_C, sp.C);
    Gather(key, 64, PC1_D, sp.D);
    assert sp.C[..28] == sp.C[..] && sp.D[..28] == sp.D[..];
    MakeKeys(sp, k, c, d);
    CopyTable(sp.E);
  }

  /** The sixteen keys. */
  method MakeKeys(sp: Sched, ghost k: Bits, ghost c: Bits, ghost d: Bits)
    requires sp.Valid() && |k| == 64 && Selects(PC1_C, 64) && Selects(PC1_D, 64) && |PC1_C| == |PC1_D| == 28
    requires c == Permute(k, PC1_C) && d == Permute(k, PC1_D) && sp.C[..] == c && sp.D[..] == d
    modifies sp.C, sp.D, sp.KS
    ensures sp.Keys() == Schedule(k) && sp.C[..] == c && sp.D[..] == d
  {
    AllTurns(c);
    AllTurns(d);
    hide PC1_C; hide PC1_D; hide SHIFTS; hide Turned; hide Rotated; hide Permute; hide KeyBits; hide Before;
    var i := 0;
    while i < 16
      invariant 0 <= i <= 16
      invariant sp.C[..] == Rotated(c, Before(i)) && sp.D[..] == Rotated(d, Before(i))
      invariant forall m :: 0 <= m < i ==> sp.Key(m) == KeyBits(k, m)
    {
      NextTurn(i);
      Turn(sp, i, c, d);
      PickKey(sp, i, k);
      i := i + 1;
    }
  }

  lemma AllTurns(x: Bits)
    requires |x| == 28
    ensures Rotated(x, Before(0)) == x == Rotated(x, Before(16))
  {
    NoTurn(x);
    FullTurn(x);
  }

  lemma NextTurn(i: nat)
    requires i < 16
    ensures Before(i + 1) == Turned(i)
  {
  }

  lemma NoTurn(x: Bits)
    requires |x| == 28
    ensures Rotated(x, 0) == x
  {
  }

  method CopyTable(a: array<nat>)
    requires a.Length == 48
    modifies a
    ensures a[..] == E_TABLE
  {
    TablesFit();
    hide E_TABLE;
    var i := 0;
    while i < 48
      invariant 0 <= i <= 48
      invariant forall j :: 0 <= j < i ==> a[j] == E_TABLE[j]
    {
      a[i] := E_TABLE[i];
      i := i + 1;
    }
  }

  // ----- enciphering -----

  /** Expand the right half to 48 bits and combine it with the key. */
  method Expand(L: array<bool>, sp: Sched, i: nat, preS: array<bool>)
    requires L.Length == 64 && sp.Valid() && i < 16 && IsE(sp.E[..]) && preS.Length == 48 && preS != L
    modifies preS
    ensures preS[..] == Xor(Permute(L[32..], sp.E[..]), sp.Key(i))
  {
    ghost var r, e := L[32..], sp.E[..];
    var j := 0;
    while j < 48
      invariant 0 <= j <= 48
      invariant forall q :: 0 <= q < j ==> preS[q] == (r[e[q] - 1] != sp.KS[i, q])
    {
      assert r[e[j] - 1] == L[32 + sp.E[j] - 1];
      preS[j] := L[32 + sp.E[j] - 1] != sp.KS[i, j];
      j := j + 1;
    }
  }

  /** The selection functions, four bits for each six. */
  method Select(preS: array<bool>, f: array<bool>)
    requires preS.Length == 48 && f.Length == 32 && f != preS
    modifies f
    ensures f[..] == Selected(preS[..])
  {
    SizesOfS();
    hide S; hide BitOf; hide Entry;
    ghost var s := preS[..];
    var j := 0;
    while j < 8
      invariant 0 <= j <= 8
      invariant forall q :: 0 <= q < 4 * j ==> f[q] == Selected(s)[q]
    {
      EntryOf(preS[..], s, 6 * j);
      var k := S[j][Entry(preS[..], 6 * j)];
      var t := 4 * j;
      f[t] := BitOf(k, 3);
      f[t + 1] := BitOf(k, 2);
      f[t + 2] := BitOf(k, 1);
      f[t + 3] := BitOf(k, 0);
      FourBits(s, j);
      j := j + 1;
    }
  }

  lemma EntryOf(a: Bits, b: Bits, t: nat)
    requires a == b && t + 6 <= |a|
    ensures Entry(a, t) == Entry(b, t)
  {
  }

  lemma FourBits(s: Bits, j: nat)
    requires |s| == 48 && j < 8
    ensures |S| == 8 && |S[j]| == 64
    ensures var k := S[j][Entry(s, 6 * j)];
            && Selected(s)[4 * j] == BitOf(k, 3) && Selected(s)[4 * j + 1] == BitOf(k, 2)
            && Selected(s)[4 * j + 2] == BitOf(k, 1) && Selected(s)[4 * j + 3] == BitOf(k, 0)
  {
    SizesOfS();
    hide S; hide BitOf; hide Entry;
  }

  /** One of the 16 operations. */
  method EncryptRound(L: array<bool>, sp: Sched, i: nat)
    requires L.Length == 64 && sp.Valid() && i < 16 && IsE(sp.E[..])
    requires L != sp.C && L != sp.D
    modifies L
    ensures Split(L[..]) == Round(Split(old(L[..])), sp.Key(i), sp.E[..])
  {
    hide *;
    ghost var was, k, e := L[..], sp.Key(i), sp.E[..];
    SelectsAll(e);
    var tempL, preS, f := new bool[32], new bool[48], new bool[32];
    CopyBits(L, 32, tempL);
    Expand(L, sp, i, preS);
    Select(preS, f);
    Combine(L, f);
    PutBits(tempL, L);
    assert L[..] == tempL[..] + L[..][32..] && was[32..][..32] == was[32..];
    RoundIs(was, k, e, L[..]);
  }

  lemma SelectsAll(e: seq<nat>)
    requires IsE(e)
    ensures |e| == 48 && Selects(e, 32) && |P| == 32 && Selects(P, 32)
  {
    TablesFit();
  }

  lemma RoundIs(was: Bits, k: Bits, e: seq<nat>, now: Bits)
    requires |was| == |now| == 64 && |k| == 48 && IsE(e) && Selects(e, 32) && |P| == 32 && Selects(P, 32)
    requires |Xor(Permute(was[32..], e), k)| == 48
    requires var f := Selected(Xor(Permute(was[32..], e), k));
             now[..32] == was[32..] && now[32..] == Xor(was[..32], Permute(f, P))
    ensures Split(now) == Round(Split(was), k, e)
  {
    hide P; hide Selected; hide Permute; hide Xor;
  }

  /** tempL is the right half. */
  method CopyBits(src: array<bool>, from: nat, dst: array<bool>)
    requires from + dst.Length <= src.Length && src != dst
    modifies dst
    ensures dst[..] == src[from..from + dst.Length]
  {
    var j := 0;
    while j < dst.Length
      invariant 0 <= j <= dst.Length
      invariant forall q :: 0 <= q < j ==> dst[q] == src[from + q]
    {
      dst[j] := src[from + j];
      j := j + 1;
    }
  }

  /** And becomes the left one. */
  method PutBits(src: array<bool>, dst: array<bool>)
    requires src.Length <= dst.Length && src != dst
    modifies dst
    ensures dst[..] == src[..] + old(dst[src.Length..])
  {
    var j := 0;
    while j < src.Length
      invariant 0 <= j <= src.Length
      invariant forall q :: 0 <= q < j ==> dst[q] == src[q]
      invariant dst[src.Length..] == old(dst[src.Length..])
    {
      dst[j] := src[j];
      j := j + 1;
    }
    assert dst[..] == dst[..src.Length] + dst[src.Length..];
  }

  /** The new R is L exclusive-or f, permuted. */
  method Combine(L: array<bool>, f: array<bool>)
    requires L.Length == 64 && f.Length == 32 && f != L && |P| == 32 && Selects(P, 32)
    modifies L
    ensures L[..][..32] == old(L[..][..32]) && L[..][32..] == Xor(old(L[..][..32]), Permute(f[..], P))
  {
    hide P;
    var j := 0;
    ghost var l, c := L[..][..32], Permute(f[..], P);
    while j < 32
      invariant 0 <= j <= 32
      invariant forall q :: 32 <= q < 32 + j ==> L[q] == (l[q - 32] != c[q - 32])
      invariant L[..][..32] == l
    {
      assert L[j] == l[j];
      L[32 + j] := L[j] != f[P[j] - 1];
      j := j + 1;
    }
  }

  /** encrypt_private. */
  method Encrypt(sp: Sched, block: array<bool>, edflag: bool)
    requires sp.Valid() && IsE(sp.E[..]) && block.Length >= 64
    modifies block
    ensures block[..64] == old(Des(block[..64], sp.Keys(), sp.E[..], edflag))
    ensures block[64..] == old(block[64..])
  {
    ghost var was, ks, e := block[..64], sp.Keys(), sp.E[..];
    IpSelects();
    FpSelects();
    hide IP; hide FP; hide IsE; hide Rounds; hide Permute; hide Split;
    var L := new bool[64];
    Gather(block, 64, IP, L);
    assert L[..64] == L[..];
    AllRounds(L, sp, edflag);
    SwapHalves(L);
    Gather(L, 64, FP, block);
    assert L[..64] == L[..];
  }

  method AllRounds(L: array<bool>, sp: Sched, edflag: bool)
    requires L.Length == 64 && sp.Valid() && IsE(sp.E[..]) && L != sp.C && L != sp.D
    modifies L
    ensures Split(L[..]) == Rounds(Split(old(L[..])), if edflag then Reversed(sp.Keys()) else sp.Keys(), sp.E[..])
  {
    hide IsE; hide Round; hide Rounds; hide Split; hide AreKeys;
    ghost var h, e, keys := Split(L[..]), sp.E[..], if edflag then Reversed(sp.Keys()) else sp.Keys();
    KeysTurned(sp.Keys());
    NoRounds(h, keys, e);
    var ii := 0;
    while ii < 16
      invariant 0 <= ii <= 16
      invariant AreKeys(keys[..ii]) && Split(L[..]) == Rounds(h, keys[..ii], e)
    {
      var i := if edflag then 15 - ii else ii;
      assert keys[ii] == sp.Key(i);
      OneRound(h, keys, e, ii);
      EncryptRound(L, sp, i);
      ii := ii + 1;
    }
    assert keys[..16] == keys;
  }

  lemma KeysTurned(ks: seq<Bits>)
    requires AreKeys(ks)
    ensures AreKeys(Reversed(ks))
  {
  }

  lemma NoRounds(h: Halves, ks: seq<Bits>, e: seq<nat>)
    requires IsHalves(h) && IsE(e)
    ensures AreKeys(ks[..0]) && Rounds(h, ks[..0], e) == h
  {
  }

  lemma OneRound(h: Halves, ks: seq<Bits>, e: seq<nat>, i: nat)
    requires IsHalves(h) && AreKeys(ks) && IsE(e) && i < |ks|
    ensures AreKeys(ks[..i]) && AreKeys(ks[..i + 1]) && |ks[i]| == 48
    ensures Rounds(h, ks[..i + 1], e) == Round(Rounds(h, ks[..i], e), ks[i], e)
  {
    hide Round; hide IsE;
    assert ks[..i + 1][..i] == ks[..i];
  }

  method SwapHalves(L: array<bool>)
    requires L.Length == 64
    modifies L
    ensures L[..] == Join(Swap(Split(old(L[..]))))
  {
    var j := 0;
    while j < 32
      invariant 0 <= j <= 32
      invariant forall q :: 0 <= q < j ==> L[q] == old(L[q + 32])
      invariant forall q :: 32 <= q < 32 + j ==> L[q] == old(L[q - 32])
      invariant forall q :: j <= q < 32 || 32 + j <= q < 64 ==> L[q] == old(L[q])
    {
      L[j], L[32 + j] := L[32 + j], L[j];
      j := j + 1;
    }
  }

  // ----- Ns_Encrypt -----

  /** The six bits of one value exchange entries of E. */
  method SaltSix(E: array<nat>, c: int, i: nat, ghost e: seq<nat>, ghost bits: Bits)
    requires E.Length == |e| == 48 && |bits| == 12 && i < 2
    requires E[..] == Salted(e, bits[..6 * i]) && forall j :: 0 <= j < 6 ==> bits[6 * i + j] == ShiftedBit(c, j)
    modifies E
    ensures E[..] == Salted(e, bits[..6 * i + 6])
  {
    var j := 0;
    while j < 6
      invariant 0 <= j <= 6
      invariant E[..] == Salted(e, bits[..6 * i + j])
    {
      if ShiftedBit(c, j) {
        var temp := E[6 * i + j];
        E[6 * i + j] := E[6 * i + j + 24];
        E[6 * i + j + 24] := temp;
      }
      j := j + 1;
    }
  }

  /** Each character of the salt is kept, and the bits it stands for exchange entries of E. */
  method SaltE(E: array<nat>, salt: seq<int>, iobuf: array<int>)
    requires E.Length == 48 && |salt| >= 2 && iobuf.Length >= 14
    modifies E, iobuf
    ensures E[..] == Salted(old(E[..]), SaltBits(salt))
    ensures iobuf[0] == salt[0] && iobuf[1] == salt[1]
  {
    hide Salted; hide ShiftedBit; hide SaltBits;
    ghost var bits, e := SaltBits(salt), E[..];
    NotSalted(e, bits);
    var i := 0;
    while i < 2
      invariant 0 <= i <= 2
      invariant E[..] == Salted(e, bits[..6 * i])
      invariant forall m :: 0 <= m < i ==> iobuf[m] == salt[m]
    {
      var c := salt[i];
      iobuf[i] := c;
      if c > 'Z' as int {
        c := c - 6;
      }
      if c > '9' as int {
        c := c - 7;
      }
      c := c - '.' as int;
      assert c == SaltValue(salt[i]);
      BitsOfSalt(salt, i);
      SaltSix(E, c, i, e, bits);
      i := i + 1;
    }
    assert bits[..12] == bits;
  }

  lemma NotSalted(e: seq<nat>, bits: Bits)
    requires |e| == 48
    ensures Salted(e, bits[..0]) == e
  {
  }

  lemma BitsOfSalt(salt: seq<int>, i: nat)
    requires |salt| >= 2 && i < 2
    ensures forall j :: 0 <= j < 6 ==> SaltBits(salt)[6 * i + j] == ShiftedBit(SaltValue(salt[i]), j)
  {
    hide ShiftedBit;
  }

  /** The password's characters are spread over the block, which is clear. */
  method PutPassword(pw: seq<int>, block: array<bool>)
    requires block.Length == 66 && forall q :: 0 <= q < 66 ==> !block[q]
    modifies block
    ensures block[..64] == KeyOf(pw)
  {
    ghost var key := KeyOf(pw);
    var i, n := 0, 0;
    while n < |pw| && i < 64
      invariant 0 <= n <= |pw| && n <= 8 && i == 8 * n
      invariant forall q :: 0 <= q < i ==> block[q] == key[q]
      invariant forall q :: i <= q < 66 ==> !block[q]
    {
      var j := 0;
      while j < 7
        invariant 0 <= j <= 7 && i == 8 * n + j
        invariant forall q :: 0 <= q < i ==> block[q] == key[q]
        invariant forall q :: i <= q < 66 ==> !block[q]
      {
        BitAt(pw, n, j);
        block[i] := ShiftedBit(pw[n], 6 - j);
        i, j := i + 1, j + 1;
      }
      BitAt(pw, n, 7);
      i, n := i + 1, n + 1;
    }
    forall q | i <= q < 64 ensures !key[q] {
      assert q / 8 >= n;
    }
  }

  lemma BitAt(pw: seq<int>, n: nat, j: nat)
    requires n < |pw| && n < 8 && j < 8
    ensures KeyOf(pw)[8 * n + j] == (j < 7 && ShiftedBit(pw[n], 6 - j))
  {
    assert (8 * n + j) / 8 == n && (8 * n + j) % 8 == j;
  }

  /** The block is written as eleven characters. */
  method WriteChars(block: array<bool>, iobuf: array<int>)
    requires block.Length == 66 && iobuf.Length >= 14
    modifies iobuf
    ensures iobuf[2..13] == Chars(block[..]) && iobuf[0] == old(iobuf[0]) && iobuf[1] == old(iobuf[1])
  {
    ghost var b := block[..];
    var i := 0;
    while i < 11
      invariant 0 <= i <= 11
      invariant forall m :: 0 <= m < i ==> iobuf[m + 2] == Chars(b)[m]
      invariant iobuf[0] == old(iobuf[0]) && iobuf[1] == old(iobuf[1])
    {
      var c, j := 0, 0;
      while j < 6
        invariant 0 <= j <= 6 && c == Number(b, 6 * i, j)
      {
        c := 2 * c + if block[6 * i + j] then 1 else 0;
        j := j + 1;
      }
      c := c + '.' as int;
      if c > '9' as int {
        c := c + 7;
      }
      if c > 'Z' as int {
        c := c + 6;
      }
      iobuf[i + 2] := c;
      i := i + 1;
    }
  }

  /** Twenty-five encryptions of nothing. */
  method EncryptTimes(sp: Sched, block: array<bool>)
    requires sp.Valid() && IsE(sp.E[..]) && block.Length == 66 && forall q :: 0 <= q < 66 ==> !block[q]
    modifies block
    ensures block[..] == Times(25, sp.Keys(), sp.E[..]) + [false, false]
  {
    ghost var ks, e := sp.Keys(), sp.E[..];
    hide Des; hide IsE;
    assert block[..64] == Times(0, ks, e) && block[64..] == [false, false];
    var i := 0;
    while i < 25
      invariant 0 <= i <= 25
      invariant block[..64] == Times(i, ks, e) && block[64..] == [false, false]
    {
      Encrypt(sp, block, false);
      i := i + 1;
    }
    assert block[..] == block[..64] + block[64..];
  }

  /** Ns_Encrypt: the password without its NUL, the salt with it. */
  method NsEncrypt(pw: seq<int>, salt: seq<int>, iobuf: array<int>)
    requires |salt| >= 2 && iobuf.Length >= 14
    modifies iobuf
    ensures iobuf[..13] == Hash(pw, salt) && iobuf[13] == 0
  {
    hide *;
    var block := new bool[66](_ => false);
    var sp := new Sched();
    PutPassword(pw, block);
    SetKey(sp, block);
    block := new bool[66](_ => false);
    SaltE(sp.E, salt, iobuf);
    SaltedIs(salt);
    EncryptTimes(sp, block);
    WriteChars(block, iobuf);
    iobuf[13] := 0;
    if iobuf[1] == 0 {
      iobuf[1] := iobuf[0];
    }
    HashIs(pw, salt);
    assert iobuf[..13] == [iobuf[0], iobuf[1]] + iobuf[2..13];
  }

  lemma SaltedIs(salt: seq<int>)
    requires |salt| >= 2
    ensures |E_TABLE| == 48 && IsE(SaltedE(salt)) && SaltedE(salt) == Salted(E_TABLE, SaltBits(salt))
  {
    TablesFit();
  }

  lemma HashIs(pw: seq<int>, salt: seq<int>)
    requires |salt| >= 2
    ensures Hash(pw, salt) == [salt[0], if salt[1] == 0 then salt[0] else salt[1]]
                              + Chars(Times(25, Schedule(KeyOf(pw)), SaltedE(salt)) + [false, false])
  {
  }
}
