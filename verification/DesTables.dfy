/** What the selection functions of the DES are: how six bits select, and the properties the
    tables were chosen for. */
module DesTables {
  import opened DesSpec

  // ----- the regular tables -----

  /** Eight entries of the initial permutation: a column of the block's eight rows, from below;
      the even columns first. */
  predicate InitialRow(q: nat)
    requires |IP| == 64 && q < 8
  {
    var first, i := (if q < 4 then 58 else 57) + 2 * (q % 4), 8 * q;
    && IP[i] == first && IP[i + 1] == first - 8 && IP[i + 2] == first - 16 && IP[i + 3] == first - 24
    && IP[i + 4] == first - 32 && IP[i + 5] == first - 40 && IP[i + 6] == first - 48 && IP[i + 7] == first - 56
  }

  lemma InitialIs(q: nat)
    requires q < 8
    ensures |IP| == 64 && InitialRow(q)
  {
    assert InitialRow(0) && InitialRow(1) && InitialRow(2) && InitialRow(3);
    assert InitialRow(4) && InitialRow(5) && InitialRow(6) && InitialRow(7);
    hide *;
    assert q == 0 || q == 1 || q == 2 || q == 3 || q == 4 || q == 5 || q == 6 || q == 7;
  }

  /** Six entries of E: four bits and their neighbours, in a ring. */
  predicate ExpansionRow(q: nat)
    requires |E_TABLE| == 48 && q < 8
  {
    var i := 6 * q;
    && E_TABLE[i] == (if q == 0 then 32 else 4 * q) && E_TABLE[i + 1] == 4 * q + 1 && E_TABLE[i + 2] == 4 * q + 2
    && E_TABLE[i + 3] == 4 * q + 3 && E_TABLE[i + 4] == 4 * q + 4
    && E_TABLE[i + 5] == (if q == 7 then 1 else 4 * q + 5)
  }

  lemma ExpansionBegins()
    ensures |E_TABLE| == 48 && ExpansionRow(0) && ExpansionRow(1) && ExpansionRow(2) && ExpansionRow(3)
  {
  }

  lemma ExpansionEnds()
    ensures |E_TABLE| == 48 && ExpansionRow(4) && ExpansionRow(5) && ExpansionRow(6) && ExpansionRow(7)
  {
  }

  lemma ExpansionIs(q: nat)
    requires q < 8
    ensures |E_TABLE| == 48 && ExpansionRow(q)
  {
    ExpansionBegins();
    ExpansionEnds();
    hide *;
    assert q == 0 || q == 1 || q == 2 || q == 3 || q == 4 || q == 5 || q == 6 || q == 7;
  }

  /** The selected bits all go somewhere: P names each of the 32 places. */
  lemma PNamesAll(v: nat)
    requires 1 <= v <= 32
    ensures |P| == 32 && exists j :: 0 <= j < 32 && P[j] == v
  {
    assert P[0] == v || P[1] == v || P[2] == v || P[3] == v || P[4] == v || P[5] == v || P[6] == v || P[7] == v ||
      P[8] == v || P[9] == v || P[10] == v || P[11] == v || P[12] == v || P[13] == v || P[14] == v || P[15] == v ||
      P[16] == v || P[17] == v || P[18] == v || P[19] == v || P[20] == v || P[21] == v || P[22] == v || P[23] == v
      || P[24] == v || P[25] == v || P[26] == v || P[27] == v || P[28] == v || P[29] == v || P[30] == v || P[31] ==
      v;
  }

  // ----- which entry -----

  /** The first and last of six bits give the row, the others the column; four bits of the
      entry follow, the highest first. */
  lemma SixSelectFour(s: Bits, j: nat, c: nat)
    requires |s| == 48 && j < 8 && c < 4
    ensures var row := 2 * Bit(s[6 * j]) + Bit(s[6 * j + 5]);
            var column := 8 * Bit(s[6 * j + 1]) + 4 * Bit(s[6 * j + 2]) + 2 * Bit(s[6 * j + 3]) + Bit(s[6 * j + 4]);
            && |S| == 8 && |S[j]| == 64
            && Selected(s)[4 * j + c] == ((S[j][16 * row + column] >> (3 - c)) & 1 == 1)
  {
    SizesOfS();
    hide S;
    assert (4 * j + c) / 4 == j && (4 * j + c) % 4 == c;
  }

  // ----- one bit more or less -----

  /** They differ in two bits or more. */
  predicate Far(a: bv4, b: bv4) {
    var d := a ^ b;
    d != 0 && d & (d - 1) != 0
  }

  predicate Far4(t: seq<bv4>, i: nat, j: nat)
    requires i + 4 <= |t| && j + 4 <= |t|
  {
    Far(t[i], t[j]) && Far(t[i + 1], t[j + 1]) && Far(t[i + 2], t[j + 2]) && Far(t[i + 3], t[j + 3])
  }

  predicate Far16(t: seq<bv4>, i: nat, j: nat)
    requires i + 16 <= |t| && j + 16 <= |t|
  {
    Far4(t, i, j) && Far4(t, i + 4, j + 4) && Far4(t, i + 8, j + 8) && Far4(t, i + 12, j + 12)
  }

  /** Among four entries from `i`, those whose numbers differ in one bit. */
  predicate Near4(t: seq<bv4>, i: nat)
    requires i + 4 <= |t|
  {
    Far(t[i], t[i + 1]) && Far(t[i + 2], t[i + 3]) && Far(t[i], t[i + 2]) && Far(t[i + 1], t[i + 3])
  }

  /** Among sixteen, beyond those. */
  predicate Near16(t: seq<bv4>, i: nat)
    requires i + 16 <= |t|
  {
    && Far4(t, i, i + 8) && Far4(t, i + 4, i + 12) && Far4(t, i, i + 4) && Far4(t, i + 8, i + 12)
    && Near4(t, i) && Near4(t, i + 4) && Near4(t, i + 8) && Near4(t, i + 12)
  }

  predicate Near64(t: seq<bv4>)
    requires |t| == 64
  {
    && Far16(t, 0, 32) && Far16(t, 16, 48) && Far16(t, 0, 16) && Far16(t, 32, 48)
    && Near16(t, 0) && Near16(t, 16) && Near16(t, 32) && Near16(t, 48)
  }

  /** And those that differ in the two middle ones of six bits, among eight from `i`. */
  predicate Middle8(t: seq<bv4>, i: nat)
    requires i + 8 <= |t|
  {
    Far(t[i], t[i + 6]) && Far(t[i + 1], t[i + 7]) && Far(t[i + 2], t[i + 4]) && Far(t[i + 3], t[i + 5])
  }

  predicate Middle64(t: seq<bv4>)
    requires |t| == 64
  {
    && Middle8(t, 0) && Middle8(t, 8) && Middle8(t, 16) && Middle8(t, 24)
    && Middle8(t, 32) && Middle8(t, 40) && Middle8(t, 48) && Middle8(t, 56)
  }

  predicate InRow(t: seq<bv4>, i: nat, v: bv4)
    requires i + 16 <= |t|
  {
    || v == t[i] || v == t[i + 1] || v == t[i + 2] || v == t[i + 3] || v == t[i + 4] || v == t[i + 5]
    || v == t[i + 6] || v == t[i + 7]
    || v == t[i + 8] || v == t[i + 9] || v == t[i + 10] || v == t[i + 11] || v == t[i + 12] || v == t[i + 13]
    || v == t[i + 14] || v == t[i + 15]
  }

  /** Each row holds each value. */
  ghost predicate Rows(t: seq<bv4>)
    requires |t| == 64
  {
    forall v :: InRow(t, 0, v) && InRow(t, 16, v) && InRow(t, 32, v) && InRow(t, 48, v)
  }

  ghost predicate Sound(t: seq<bv4>) {
    |t| == 64 && Near64(t) && Middle64(t) && Rows(t)
  }

  lemma Sound01()
    ensures |S| == 8 && Sound(S[0]) && Sound(S[1])
  {
    SizesOfS();
  }

  lemma Sound23()
    ensures |S| == 8 && Sound(S[2]) && Sound(S[3])
  {
    SizesOfS();
  }

  lemma Sound45()
    ensures |S| == 8 && Sound(S[4]) && Sound(S[5])
  {
    SizesOfS();
  }

  lemma Sound67()
    ensures |S| == 8 && Sound(S[6]) && Sound(S[7])
  {
    SizesOfS();
  }

  lemma AllSound(j: nat)
    requires j < 8
    ensures |S| == 8 && Sound(S[j])
  {
    Sound01();
    Sound23();
    Sound45();
    Sound67();
    hide *;
    assert j == 0 || j == 1 || j == 2 || j == 3 || j == 4 || j == 5 || j == 6 || j == 7;
  }

  lemma Far4At(t: seq<bv4>, i: nat, j: nat, m: nat)
    requires i + 4 <= |t| && j + 4 <= |t| && Far4(t, i, j) && m < 4
    ensures Far(t[i + m], t[j + m])
  {
    hide Far;
    assert m == 0 || m == 1 || m == 2 || m == 3;
  }

  lemma Far16At(t: seq<bv4>, i: nat, j: nat, m: nat)
    requires i + 16 <= |t| && j + 16 <= |t| && Far16(t, i, j) && m < 16
    ensures Far(t[i + m], t[j + m])
  {
    hide Far; hide Far4;
    if m < 4 { Far4At(t, i, j, m); }
    else if m < 8 { Far4At(t, i + 4, j + 4, m - 4); }
    else if m < 12 { Far4At(t, i + 8, j + 8, m - 8); }
    else { Far4At(t, i + 12, j + 12, m - 12); }
  }

  type Binary = d: nat | d < 2

  lemma Near4At(t: seq<bv4>, i: nat, d: Binary, e: Binary)
    requires i + 4 <= |t| && Near4(t, i)
    ensures d == 0 ==> Far(t[i + e], t[i + 2 + e])
    ensures e == 0 ==> Far(t[i + 2 * d], t[i + 2 * d + 1])
  {
    hide Far;
  }

  lemma Near16At(t: seq<bv4>, i: nat, b: Binary, c: Binary, d: Binary, e: Binary)
    requires i + 16 <= |t| && Near16(t, i)
    ensures var k := i + 8 * b + 4 * c + 2 * d + e;
            && (b == 0 ==> Far(t[k], t[k + 8])) && (c == 0 ==> Far(t[k], t[k + 4]))
            && (d == 0 ==> Far(t[k], t[k + 2])) && (e == 0 ==> Far(t[k], t[k + 1]))
  {
    hide Far; hide Far4; hide Near4;
    if b == 0 { Far4At(t, i + 4 * c, i + 4 * c + 8, 2 * d + e); }
    if c == 0 { Far4At(t, i + 8 * b, i + 8 * b + 4, 2 * d + e); }
    Near4At(t, i + 8 * b + 4 * c, d, e);
  }

  /** Entries whose numbers differ in one binary digit. */
  lemma NearIsFar(t: seq<bv4>, a: Binary, f: Binary, b: Binary, c: Binary, d: Binary, e: Binary)
    requires |t| == 64 && Near64(t)
    ensures var k := 32 * a + 8 * b + 4 * c + 2 * d + e + 16 * f;
            && (a == 0 ==> Far(t[k], t[k + 32])) && (f == 0 ==> Far(t[k], t[k + 16]))
            && (b == 0 ==> Far(t[k], t[k + 8])) && (c == 0 ==> Far(t[k], t[k + 4]))
            && (d == 0 ==> Far(t[k], t[k + 2])) && (e == 0 ==> Far(t[k], t[k + 1]))
  {
    hide Far; hide Far16; hide Near16;
    if a == 0 { Far16At(t, 16 * f, 16 * f + 32, 8 * b + 4 * c + 2 * d + e); }
    if f == 0 { Far16At(t, 32 * a, 32 * a + 16, 8 * b + 4 * c + 2 * d + e); }
    Near16At(t, 32 * a + 16 * f, b, c, d, e);
  }

  /** `a` and `b` differ in two bits or more of four from `i`, and nowhere else. */
  ghost predicate DifferAt(a: Bits, b: Bits, i: nat)
    requires |a| == |b| == 32 && i + 4 <= 32
  {
    && (exists m, n :: i <= m < n < i + 4 && a[m] != b[m] && a[n] != b[n])
    && (forall m :: 0 <= m < 32 && !(i <= m < i + 4) ==> a[m] == b[m])
  }

  /** Places of two of the bits. */
  lemma FarBits(a: bv4, b: bv4) returns (m: nat, n: nat)
    requires Far(a, b)
    ensures m < n < 4 && BitOf(a, 3 - m) != BitOf(b, 3 - m) && BitOf(a, 3 - n) != BitOf(b, 3 - n)
  {
    var x0, x1, x2, x3 := BitOf(a, 3) != BitOf(b, 3), BitOf(a, 2) != BitOf(b, 2), BitOf(a, 1) != BitOf(b, 1),
                          BitOf(a, 0) != BitOf(b, 0);
    m := if x0 then 0 else if x1 then 1 else 2;
    n := if x3 then 3 else if x2 then 2 else 1;
  }

  lemma BitSelected(s: Bits, j: nat, m: nat)
    requires |s| == 48 && j < 8 && m < 4
    ensures |S| == 8 && |S[j]| == 64 && Selected(s)[4 * j + m] == BitOf(S[j][Entry(s, 6 * j)], 3 - m)
  {
    SizesOfS();
    hide S; hide BitOf; hide Entry;
    assert (4 * j + m) / 4 == j && (4 * j + m) % 4 == m;
  }

  lemma OthersSelected(s: Bits, u: Bits, j: nat, i: nat)
    requires |s| == |u| == 48 && j < 8 && i < 32 && !(4 * j <= i < 4 * j + 4)
    requires forall k :: 0 <= k < 48 && k / 6 != j ==> s[k] == u[k]
    ensures Selected(s)[i] == Selected(u)[i]
  {
    var l := i / 4;
    BitSelected(s, l, i % 4);
    BitSelected(u, l, i % 4);
    hide S; hide BitOf; hide Selected;
    assert l != j;
    forall k | 6 * l <= k < 6 * l + 6 ensures s[k] == u[k] {
      assert k / 6 == l;
    }
    assert Entry(s, 6 * l) == Entry(u, 6 * l);
  }

  lemma FarIsSeen(s: Bits, u: Bits, j: nat)
    requires |s| == |u| == 48 && j < 8 && forall i :: 0 <= i < 48 && i / 6 != j ==> s[i] == u[i]
    requires |S| == 8 && |S[j]| == 64 && Far(S[j][Entry(s, 6 * j)], S[j][Entry(u, 6 * j)])
    ensures DifferAt(Selected(s), Selected(u), 4 * j)
  {
    hide S; hide Far; hide BitOf; hide Selected; hide Entry;
    var m, n := FarBits(S[j][Entry(s, 6 * j)], S[j][Entry(u, 6 * j)]);
    BitSelected(s, j, m);
    BitSelected(u, j, m);
    BitSelected(s, j, n);
    BitSelected(u, j, n);
    assert Selected(s)[4 * j + m] != Selected(u)[4 * j + m] && Selected(s)[4 * j + n] != Selected(u)[4 * j + n];
    forall i | 0 <= i < 32 && !(4 * j <= i < 4 * j + 4) ensures Selected(s)[i] == Selected(u)[i] {
      OthersSelected(s, u, j, i);
    }
  }

  function Flip(s: Bits, q: nat): (r: Bits)
    requires q < |s|
    ensures |r| == |s|
  {
    s[q := !s[q]]
  }

  lemma RaisedEntry(s: Bits, t: nat, m: nat)
    requires t + 6 <= |s| && m < 6 && !s[t + m]
    ensures Entry(Flip(s, t + m), t) == Entry(s, t)
         + if m == 0 then 32 else if m == 1 then 8 else if m == 2 then 4 else if m == 3 then 2
           else if m == 4 then 1 else 16
  {
    var u := Flip(s, t + m);
    assert forall i :: 0 <= i < |s| && i != t + m ==> u[i] == s[i];
    hide Flip;
  }

  lemma EntryIs(s: Bits, t: nat)
    requires t + 6 <= |s|
    ensures Entry(s, t) == 32 * Bit(s[t]) + 8 * Bit(s[t + 1]) + 4 * Bit(s[t + 2]) + 2 * Bit(s[t + 3]) + Bit(s[t + 4])
                           + 16 * Bit(s[t + 5])
  {
  }

  /** From 0 to 1. */
  lemma RaisedIsFar(s: Bits, j: nat, m: nat)
    requires |s| == 48 && j < 8 && m < 6 && !s[6 * j + m]
    ensures |S| == 8 && |S[j]| == 64
    ensures Far(S[j][Entry(s, 6 * j)], S[j][Entry(Flip(s, 6 * j + m), 6 * j)])
  {
    hide S; hide Far; hide Near64; hide Rows; hide Middle64; hide Flip; hide Entry;
    var t := 6 * j;
    AllSound(j);
    RaisedEntry(s, t, m);
    EntryIs(s, t);
    NearIsFar(S[j], Bit(s[t]), Bit(s[t + 5]), Bit(s[t + 1]), Bit(s[t + 2]), Bit(s[t + 3]), Bit(s[t + 4]));
  }

  /** One bit more or less of the 48 changes two or more of the four bits selected by its six,
      and no others. */
  lemma OneBitChangesTwo(s: Bits, j: nat, m: nat)
    requires |s| == 48 && j < 8 && m < 6
    ensures DifferAt(Selected(s), Selected(s[6 * j + m := !s[6 * j + m]]), 4 * j)
  {
    hide Entry; hide S; hide Far; hide DifferAt; hide Selected;
    var u := Flip(s, 6 * j + m);
    if s[6 * j + m] {
      RaisedIsFar(u, j, m);
      assert Flip(u, 6 * j + m) == s;
      FarBoth(S[j][Entry(u, 6 * j)], S[j][Entry(s, 6 * j)]);
    } else {
      RaisedIsFar(s, j, m);
    }
    FarIsSeen(s, u, j);
  }

  lemma FarBoth(a: bv4, b: bv4)
    ensures Far(a, b) == Far(b, a)
  {
  }

  lemma Middle64At(t: seq<bv4>, a: Binary, f: Binary, b: Binary, c: Binary, d: Binary, e: Binary)
    requires |t| == 64 && Middle64(t)
    ensures var i := 32 * a + 16 * f + 8 * b + e; Far(t[i + 4 * c + 2 * d], t[i + 4 * (1 - c) + 2 * (1 - d)])
  {
    hide Far; hide Middle8;
    var i := 32 * a + 16 * f + 8 * b;
    assert Middle8(t, i);
    Middle8At(t, i, c, d, e);
  }

  lemma Middle8At(t: seq<bv4>, i: nat, c: Binary, d: Binary, e: Binary)
    requires i + 8 <= |t| && Middle8(t, i)
    ensures Far(t[i + 4 * c + 2 * d + e], t[i + 4 * (1 - c) + 2 * (1 - d) + e])
  {
    var p, q := i + 4 * c + 2 * d + e, i + 4 * (1 - c) + 2 * (1 - d) + e;
    FarBoth(t[p], t[q]);
    hide Far;
  }

  /** And so do the two bits in the middle of six together. */
  lemma MiddleBitsChangeTwo(s: Bits, j: nat)
    requires |s| == 48 && j < 8
    ensures DifferAt(Selected(s), Selected(s[6 * j + 2 := !s[6 * j + 2]][6 * j + 3 := !s[6 * j + 3]]), 4 * j)
  {
    hide S; hide Far; hide DifferAt; hide Selected; hide Near64; hide Rows; hide Middle64;
    var t, u := 6 * j, s[6 * j + 2 := !s[6 * j + 2]][6 * j + 3 := !s[6 * j + 3]];
    AllSound(j);
    Middle64At(S[j], Bit(s[t]), Bit(s[t + 5]), Bit(s[t + 1]), Bit(s[t + 2]), Bit(s[t + 3]), Bit(s[t + 4]));
    assert Entry(u, t) == Entry(s, t) - 4 * Bit(s[t + 2]) - 2 * Bit(s[t + 3]) + 4 * Bit(u[t + 2]) + 2 * Bit(u[t + 3]);
    FarIsSeen(s, u, j);
  }

  lemma InRowAt(t: seq<bv4>, i: nat, v: bv4) returns (column: nat)
    requires i + 16 <= |t| && InRow(t, i, v)
    ensures column < 16 && t[i + column] == v
  {
    column := if v == t[i] then 0 else if v == t[i + 1] then 1 else if v == t[i + 2] then 2 else if v == t[i
              + 3] then 3 else if v == t[i + 4] then 4 else if v == t[i + 5] then 5 else if v == t[i + 6] then 6 else
              if v == t[i + 7] then 7 else if v == t[i + 8] then 8 else if v == t[i + 9] then 9 else if v == t[i + 10]
              then 10 else if v == t[i + 11] then 11 else if v == t[i + 12] then 12 else if v == t[i + 13] then 13 else
              if v == t[i + 14] then 14 else 15;
  }

  /** Each row of a selection function is a permutation: each value is in some column. */
  lemma RowsArePermutations(j: nat, row: nat, v: bv4) returns (column: nat)
    requires j < 8 && row < 4
    ensures column < 16 && |S| == 8 && |S[j]| == 64 && S[j][16 * row + column] == v
  {
    hide S; hide Sound; hide InRow;
    AllSound(j);
    SomeRow(S[j], row, v);
    column := InRowAt(S[j], 16 * row, v);
  }

  lemma SomeRow(t: seq<bv4>, row: nat, v: bv4)
    requires Sound(t) && row < 4
    ensures |t| == 64 && InRow(t, 16 * row, v)
  {
    hide Near64; hide Middle64; hide InRow;
    assert InRow(t, 0, v) && InRow(t, 16, v) && InRow(t, 32, v) && InRow(t, 48, v);
    assert row == 0 || row == 1 || row == 2 || row == 3;
  }
}
