/** What makes the cipher of nsd/crypt.c invertible, and its complementation property. */
module DesLaws {
  import opened DesSpec

  // ----- the tables -----

  lemma FinalUndoesInitialLow()
    ensures forall j :: 0 <= j < 32 ==> 1 <= FP[j] <= 64 && IP[FP[j] - 1] == j + 1
  {
    forall j | 0 <= j < 32 ensures 1 <= FP[j] <= 64 && IP[FP[j] - 1] == j + 1 {
      if j < 8 {
        assert j == 0 || j == 1 || j == 2 || j == 3 || j == 4 || j == 5 || j == 6 || j == 7;
      } else if j < 16 {
        assert j == 8 || j == 9 || j == 10 || j == 11 || j == 12 || j == 13 || j == 14 || j == 15;
      } else if j < 24 {
        assert j == 16 || j == 17 || j == 18 || j == 19 || j == 20 || j == 21 || j == 22 || j == 23;
      } else {
        assert j == 24 || j == 25 || j == 26 || j == 27 || j == 28 || j == 29 || j == 30 || j == 31;
      }
    }
  }

  lemma FinalUndoesInitialHigh()
    ensures forall j :: 32 <= j < 64 ==> 1 <= FP[j] <= 64 && IP[FP[j] - 1] == j + 1
  {
    forall j | 32 <= j < 64 ensures 1 <= FP[j] <= 64 && IP[FP[j] - 1] == j + 1 {
      if j < 40 {
        assert j == 32 || j == 33 || j == 34 || j == 35 || j == 36 || j == 37 || j == 38 || j == 39;
      } else if j < 48 {
        assert j == 40 || j == 41 || j == 42 || j == 43 || j == 44 || j == 45 || j == 46 || j == 47;
      } else if j < 56 {
        assert j == 48 || j == 49 || j == 50 || j == 51 || j == 52 || j == 53 || j == 54 || j == 55;
      } else {
        assert j == 56 || j == 57 || j == 58 || j == 59 || j == 60 || j == 61 || j == 62 || j == 63;
      }
    }
  }

  lemma InitialUndoesFinalLow()
    ensures forall j :: 0 <= j < 32 ==> 1 <= IP[j] <= 64 && FP[IP[j] - 1] == j + 1
  {
    forall j | 0 <= j < 32 ensures 1 <= IP[j] <= 64 && FP[IP[j] - 1] == j + 1 {
      if j < 8 {
        assert j == 0 || j == 1 || j == 2 || j == 3 || j == 4 || j == 5 || j == 6 || j == 7;
      } else if j < 16 {
        assert j == 8 || j == 9 || j == 10 || j == 11 || j == 12 || j == 13 || j == 14 || j == 15;
      } else if j < 24 {
        assert j == 16 || j == 17 || j == 18 || j == 19 || j == 20 || j == 21 || j == 22 || j == 23;
      } else {
        assert j == 24 || j == 25 || j == 26 || j == 27 || j == 28 || j == 29 || j == 30 || j == 31;
      }
    }
  }

  lemma InitialUndoesFinalHigh()
    ensures forall j :: 32 <= j < 64 ==> 1 <= IP[j] <= 64 && FP[IP[j] - 1] == j + 1
  {
    forall j | 32 <= j < 64 ensures 1 <= IP[j] <= 64 && FP[IP[j] - 1] == j + 1 {
      if j < 40 {
        assert j == 32 || j == 33 || j == 34 || j == 35 || j == 36 || j == 37 || j == 38 || j == 39;
      } else if j < 48 {
        assert j == 40 || j == 41 || j == 42 || j == 43 || j == 44 || j == 45 || j == 46 || j == 47;
      } else if j < 56 {
        assert j == 48 || j == 49 || j == 50 || j == 51 || j == 52 || j == 53 || j == 54 || j == 55;
      } else {
        assert j == 56 || j == 57 || j == 58 || j == 59 || j == 60 || j == 61 || j == 62 || j == 63;
      }
    }
  }

  /** `b` names, at each place, where `a` took that place from. */
  ghost predicate Undoes(a: seq<nat>, b: seq<nat>) {
    && |a| == |b| == 64 && Selects(a, 64) && Selects(b, 64)
    && forall j :: 0 <= j < 64 ==> a[b[j] - 1] == j + 1
  }

  lemma PermuteUndone(x: Bits, a: seq<nat>, b: seq<nat>)
    requires |x| == 64 && Undoes(a, b)
    ensures Permute(Permute(x, a), b) == x
  {
  }

  lemma TablesUndo()
    ensures Undoes(IP, FP) && Undoes(FP, IP)
  {
    IpSelects();
    FpSelects();
    FinalUndoesInitialLow();
    FinalUndoesInitialHigh();
    InitialUndoesFinalLow();
    InitialUndoesFinalHigh();
    hide IP; hide FP;
  }

  lemma PermutedBack(x: Bits)
    requires |x| == 64
    ensures Selects(IP, 64) && Selects(FP, 64) && |IP| == |FP| == 64
    ensures Permute(Permute(x, IP), FP) == x && Permute(Permute(x, FP), IP) == x
  {
    TablesUndo();
    hide IP; hide FP;
    PermuteUndone(x, IP, FP);
    PermuteUndone(x, FP, IP);
  }

  // ----- inversion -----

  lemma RoundUndone(h: Halves, k: Bits, e: seq<nat>)
    requires IsHalves(h) && |k| == 48 && IsE(e)
    ensures Round(Swap(Round(h, k, e)), k, e) == Swap(h)
  {
    hide Cipher;
    var g := Round(h, k, e);
    assert Xor(Xor(h.l, Cipher(h.r, k, e)), Cipher(h.r, k, e)) == h.l;
  }

  /** The first round can be taken off, too. */
  lemma {:induction false} RoundsFirst(h: Halves, k: Bits, ks: seq<Bits>, e: seq<nat>)
    requires IsHalves(h) && |k| == 48 && AreKeys(ks) && IsE(e)
    ensures AreKeys([k] + ks) && Rounds(h, [k] + ks, e) == Rounds(Round(h, k, e), ks, e)
  {
    hide Round; hide IsE;
    var all := [k] + ks;
    if ks == [] {
      assert all[..0] == [] && all[0] == k;
      assert Rounds(h, [], e) == h;
    } else {
      var n := |ks| - 1;
      RoundsFirst(h, k, ks[..n], e);
      assert all[..|all| - 1] == [k] + ks[..n] && all[|all| - 1] == ks[n];
    }
  }

  /** Running the rounds again on the swapped halves, keys reversed, undoes them, whatever the
      keys and whatever is selected. */
  lemma {:induction false} RoundsUndone(h: Halves, ks: seq<Bits>, e: seq<nat>)
    requires IsHalves(h) && AreKeys(ks) && IsE(e)
    ensures AreKeys(Reversed(ks)) && Rounds(Swap(Rounds(h, ks, e)), Reversed(ks), e) == Swap(h)
  {
    hide Round; hide IsE;
    if ks != [] {
      var n := |ks| - 1;
      var g := Rounds(h, ks[..n], e);
      assert Reversed(ks) == [ks[n]] + Reversed(ks[..n]);
      RoundsUndone(h, ks[..n], e);
      RoundUndone(g, ks[n], e);
      RoundsFirst(Swap(Round(g, ks[n], e)), ks[n], Reversed(ks[..n]), e);
    }
  }

  lemma SplitJoin(h: Halves, x: Bits)
    requires IsHalves(h) && |x| == 64
    ensures Split(Join(h)) == h && Join(Split(x)) == x && Swap(Swap(h)) == h
  {
  }

  /** Deciphering undoes enciphering, and enciphering deciphering: for every block, every key
      schedule and every E, so for every salt. */
  lemma DesIsInverted(block: Bits, ks: seq<Bits>, e: seq<nat>, edflag: bool)
    requires |block| == 64 && AreKeys(ks) && IsE(e)
    ensures Des(Des(block, ks, e, edflag), ks, e, !edflag) == block
  {
    var first, then_ := if edflag then Reversed(ks) else ks, if edflag then ks else Reversed(ks);
    assert Reversed(Reversed(ks)) == ks;
    IpSelects();
    FpSelects();
    PermutedBack(block);
    var h := Split(Permute(block, IP));
    var g := Rounds(h, first, e);
    PermutedBack(Join(Swap(g)));
    SplitJoin(Swap(g), Permute(block, IP));
    RoundsUndone(h, first, e);
    hide IP; hide FP; hide Rounds; hide IsE; hide Permute;
  }

  // ----- complementation -----

  lemma NotPermute(x: Bits, table: seq<nat>)
    requires Selects(table, |x|)
    ensures Permute(Not(x), table) == Not(Permute(x, table))
  {
  }

  lemma NotXor(a: Bits, b: Bits)
    requires |a| == |b|
    ensures Xor(Not(a), b) == Not(Xor(a, b)) && Xor(Not(a), Not(b)) == Xor(a, b)
  {
  }

  function NotAll(ks: seq<Bits>): (r: seq<Bits>)
    ensures |r| == |ks| && forall i :: 0 <= i < |ks| ==> r[i] == Not(ks[i])
  {
    seq(|ks|, i requires 0 <= i < |ks| => Not(ks[i]))
  }

  function NotHalves(h: Halves): Halves {
    Halves(Not(h.l), Not(h.r))
  }

  lemma NotRound(h: Halves, k: Bits, e: seq<nat>)
    requires IsHalves(h) && |k| == 48 && IsE(e)
    ensures Round(NotHalves(h), Not(k), e) == NotHalves(Round(h, k, e))
  {
    hide Selected; hide P;
    NotPermute(h.r, e);
    NotXor(Permute(h.r, e), k);
    assert Cipher(Not(h.r), Not(k), e) == Cipher(h.r, k, e);
    hide Cipher;
    NotXor(h.l, Cipher(h.r, k, e));
  }

  lemma {:induction false} NotRounds(h: Halves, ks: seq<Bits>, e: seq<nat>)
    requires IsHalves(h) && AreKeys(ks) && IsE(e)
    ensures Rounds(NotHalves(h), NotAll(ks), e) == NotHalves(Rounds(h, ks, e))
  {
    hide Round; hide IsE; hide NotHalves;
    if ks != [] {
      var n := |ks| - 1;
      NotRounds(h, ks[..n], e);
      assert NotAll(ks)[..n] == NotAll(ks[..n]);
      NotRound(Rounds(h, ks[..n], e), ks[n], e);
    }
  }

  lemma NotParts(x: Bits, h: Halves, ks: seq<Bits>)
    requires |x| == 64
    ensures Split(Not(x)) == NotHalves(Split(x)) && Join(NotHalves(h)) == Not(Join(h))
    ensures Swap(NotHalves(h)) == NotHalves(Swap(h)) && Reversed(NotAll(ks)) == NotAll(Reversed(ks))
  {
  }

  /** The complement of every bit of block and keys complements every bit of the result. */
  lemma DesComplements(block: Bits, ks: seq<Bits>, e: seq<nat>, edflag: bool)
    requires |block| == 64 && AreKeys(ks) && IsE(e)
    ensures Des(Not(block), NotAll(ks), e, edflag) == Not(Des(block, ks, e, edflag))
  {
    IpSelects();
    FpSelects();
    hide IP; hide FP; hide Rounds; hide IsE; hide Permute; hide Not; hide NotAll; hide NotHalves; hide Reversed;
    hide Split;
    var first := if edflag then Reversed(ks) else ks;
    var x := Permute(block, IP);
    NotPermute(block, IP);
    NotParts(x, Split(x), ks);
    NotRounds(Split(x), first, e);
    var g := Rounds(Split(x), first, e);
    NotParts(x, g, ks);
    NotParts(x, Swap(g), ks);
    NotPermute(Join(Swap(g)), FP);
  }

  // ----- keys -----

  lemma NotRotated(x: Bits, n: nat)
    ensures Rotated(Not(x), n) == Not(Rotated(x, n))
  {
  }

  /** The schedule of a complemented key is the complement of its schedule. */
  lemma ScheduleComplements(key: Bits)
    requires |key| == 64
    ensures Schedule(Not(key)) == NotAll(Schedule(key))
  {
    KeyTablesFit();
    hide PC1_C; hide PC1_D; hide PC2_C; hide PC2_D; hide SHIFTS;
    forall i | 0 <= i < 16 ensures KeyBits(Not(key), i) == Not(KeyBits(key, i)) {
      NotPermute(key, PC1_C);
      NotPermute(key, PC1_D);
      NotRotated(Permute(key, PC1_C), Turned(i));
      NotRotated(Permute(key, PC1_D), Turned(i));
    }
  }

  lemma {:induction false} TurnsVanish(x: nat, k: nat)
    ensures (x + 28 * k) % 28 == x % 28
  {
    if k > 0 {
      TurnsVanish(x, k - 1);
      assert x + 28 * k == (x + 28 * (k - 1)) + 28;
    }
  }

  lemma TurnTwice(a: nat, m: nat)
    ensures (a % 28 + m) % 28 == (a + m) % 28
  {
    TurnsVanish(a % 28 + m, a / 28);
    assert a == 28 * (a / 28) + a % 28;
  }

  lemma RotatedTwice(x: Bits, m: nat, n: nat)
    requires |x| == 28
    ensures Rotated(Rotated(x, m), n) == Rotated(x, m + n)
  {
    forall j | 0 <= j < 28 ensures Rotated(Rotated(x, m), n)[j] == Rotated(x, m + n)[j] {
      TurnTwice(j + n, m);
    }
  }

  /** After the sixteenth key C and D are back where they began. */
  lemma FullTurn(x: Bits)
    requires |x| == 28
    ensures Turned(15) == 28 && Rotated(x, Turned(15)) == x
  {
    HalfTurn();
    assert Turned(11) == 21;
    assert Turned(15) == 28;
  }

  lemma HalfTurn()
    ensures Turned(7) == 14
  {
    assert Turned(3) == 6;
  }

  // ----- the salt -----

  /** Whatever the salt, E selects 48 of the 32 bits; and the same salt again restores it. */
  lemma SaltedIsE(e: seq<nat>, salt: seq<bool>)
    requires IsE(e) && |salt| <= 12
    ensures IsE(Salted(e, salt)) && Salted(Salted(e, salt), salt) == e
  {
  }
}
