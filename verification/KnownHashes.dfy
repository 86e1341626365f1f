/** Known answers of the hash, worked out round by round: they pin its constants, the order of the
    seed's bytes and the order of the two operations of a round. */
module KnownHashes {
  import opened Octets
  import opened Fnv

  // ---------- exclusive or ----------

  lemma {:induction false} XorZero(a: nat)
    ensures Xor(a, 0) == a
  {
    if a > 0 {
      XorZero(a / 2);
    }
  }

  /** Exclusive or with one changes the last bit. */
  lemma XorOne(a: nat)
    ensures Xor(a, 1) == if a % 2 == 0 then a + 1 else a - 1
  {
    XorZero(a / 2);
  }

  lemma HalfOf(p: nat, t: nat, low: nat)
    ensures (2 * p * t + low) / 2 == p * t + low / 2 && (2 * p * t + low) % 2 == low % 2
  {
    var u := p * t;
    assert 2 * p * t == 2 * u;
  }

  lemma XorJoins(a: nat, b: nat, u: nat, low: nat)
    requires a / 2 == u + low / 2 && a % 2 == low % 2 && Xor(a / 2, b / 2) == u + Xor(low / 2, b / 2)
    ensures Xor(a, b) == 2 * u + Xor(low, b)
  {
    XorHalves(a, b);
    XorHalves(low, b);
    SumParity(a, low, b);
  }

  lemma SumParity(a: nat, c: nat, b: nat)
    requires a % 2 == c % 2
    ensures (a + b) % 2 == (c + b) % 2
  {
  }

  lemma XorLowStep(p: nat, t: nat, low: nat, b: nat)
    requires Xor(p * t + low / 2, b / 2) == p * t + Xor(low / 2, b / 2)
    ensures Xor(2 * p * t + low, b) == 2 * p * t + Xor(low, b)
  {
    HalfOf(p, t, low);
    XorJoins(2 * p * t + low, b, p * t, low);
    assert 2 * p * t == 2 * (p * t);
  }

  /** Only the low bits change. */
  lemma {:induction false} XorLow(t: nat, low: nat, b: nat, k: nat)
    requires low < Pow2(k) && b < Pow2(k)
    ensures Xor(Pow2(k) * t + low, b) == Pow2(k) * t + Xor(low, b)
    decreases k
  {
    if k == 0 {
      XorZero(t);
    } else {
      XorLow(t, low / 2, b / 2, k - 1);
      XorLowStep(Pow2(k - 1), t, low, b);
    }
  }

  lemma LetterXor()
    ensures Xor(0x25, 0x61) == 0x44
  {
    assert Xor(0, 1) == 1;
    assert Xor(1, 3) == 2;
    assert Xor(2, 6) == 4;
    assert Xor(4, 12) == 8;
    assert Xor(9, 24) == 17;
    assert Xor(18, 48) == 34;
  }

  // ---------- rounds ----------

  /** A round on numbers, the product being q times 2^64 plus the next value. */
  lemma StepIs(h: nat, b: nat, x: nat, q: nat, n: nat)
    requires b < 256 && Xor(h, b) == x && x * PRIME == TWO64 * q + n && n < TWO64
    ensures Step(h, b) == n
  {
    Remainder(x * PRIME, TWO64, q, n);
  }

  lemma LetterStep()
    ensures Step(0xCBF29CE484222325, 0x61) == 0xAF63DC4C8601EC8C
  {
    LetterXor();
    Pow2Eight();
    XorLow(0xCBF29CE4842223, 0x25, 0x61, 8);
    StepIs(0xCBF29CE484222325, 0x61, 0xCBF29CE484222344, 875948729822, 0xAF63DC4C8601EC8C);
  }

  /** The value that draft-eastlake-fnv gives for the one-letter string "a". */
  lemma KnownAnswer(s: seq<nat>)
    requires s == [0x61]
    ensures Fold(OFFSET_BASIS, s) == 0xAF63DC4C8601EC8C
  {
    LetterStep();
    FoldMore(OFFSET_BASIS, s[..0], 0x61);
    assert s[..0] + [0x61] == s;
  }

  lemma OneStep()
    ensures Step(0xCBF29CE484222325, 1) == 12638152016183539244
  {
    XorOne(0xCBF29CE484222325);
    StepIs(0xCBF29CE484222325, 1, 0xCBF29CE484222324, 875948729822, 12638152016183539244);
  }

  lemma ZeroSteps()
    ensures Step(12638152016183539244, 0) == 589727492704079044
    ensures Step(589727492704079044, 0) == 15034026112158478604
    ensures Step(15034026112158478604, 0) == 12478008331234465636
  {
    XorZero(12638152016183539244);
    StepIs(12638152016183539244, 0, 12638152016183539244, 753292561840, 589727492704079044);
    XorZero(589727492704079044);
    StepIs(589727492704079044, 0, 589727492704079044, 35150497730, 15034026112158478604);
    XorZero(15034026112158478604);
    StepIs(15034026112158478604, 0, 15034026112158478604, 896097786313, 12478008331234465636);
  }

  lemma FoldFour(s: seq<nat>, a: nat, b: nat, c: nat, d: nat)
    requires AllBytes(s) && |s| == 4 && s[0] == 1 && s[1] == 0 && s[2] == 0 && s[3] == 0
    requires Step(OFFSET_BASIS, 1) == a && Step(a, 0) == b && Step(b, 0) == c && Step(c, 0) == d
    ensures Fold(OFFSET_BASIS, s) == d
  {
    FoldMore(OFFSET_BASIS, s[..0], s[0]);
    assert s[..0] + [s[0]] == s[..1];
    FoldMore(OFFSET_BASIS, s[..1], s[1]);
    assert s[..1] + [s[1]] == s[..2];
    FoldMore(OFFSET_BASIS, s[..2], s[2]);
    assert s[..2] + [s[2]] == s[..3];
    FoldMore(OFFSET_BASIS, s[..3], s[3]);
    assert s[..3] + [s[3]] == s;
  }

  lemma FoldOfOne(s: seq<nat>)
    requires AllBytes(s) && |s| == 4 && s[0] == 1 && s[1] == 0 && s[2] == 0 && s[3] == 0
    ensures Fold(OFFSET_BASIS, s) == 12478008331234465636
  {
    OneStep();
    ZeroSteps();
    FoldFour(s, 12638152016183539244, 589727492704079044, 15034026112158478604, 12478008331234465636);
  }

  /** The seed is hashed as four bytes, the lowest first. */
  lemma KnownSeeded(key: string, seed: nat)
    requires key == "" && seed == 1
    ensures Hash(key, seed) == 12478008331234465636
  {
    var s := SeedBytes(seed) + KeyBytes(key);
    assert KeyBytes(key) == [];
    FoldOfOne(s);
  }
}
