/** The seeded 64-bit FNV-1a hash of the Bloom filter, as described in section 2 of
    draft-eastlake-fnv, on numbers below 2^64. */
module Fnv {
  import opened Octets

  const OFFSET_BASIS: nat := 14695981039346656037
  const PRIME: nat := 1099511628211
  const TWO32: nat := 0x1_0000_0000
  const TWO64: nat := 0x1_0000_0000_0000_0000

  function Step(h: nat, b: nat): (r: nat)
    requires b < 256
    ensures r < TWO64
  {
    Xor(h, b) * PRIME % TWO64
  }

  ghost predicate AllBytes(s: seq<nat>) { forall i :: 0 <= i < |s| ==> s[i] < 256 }

  ghost function Fold(h: nat, s: seq<nat>): nat
    requires AllBytes(s)
  {
    if s == [] then h else Step(Fold(h, s[..|s| - 1]), s[|s| - 1])
  }

  ghost function SeedBytes(seed: nat): (s: seq<nat>)
    ensures AllBytes(s)
  {
    [seed % 256, seed / 256 % 256, seed / 65536 % 256, seed / 16777216 % 256]
  }

  function ByteOf(c: char): (b: nat)
    ensures b < 256
  {
    c as int % 256
  }

  /** The bytes of a key up to its first NUL, as a C string has them. */
  ghost function KeyBytes(key: string): (s: seq<nat>)
    ensures AllBytes(s)
  {
    if key == [] || ByteOf(key[0]) == 0 then [] else [ByteOf(key[0])] + KeyBytes(key[1..])
  }

  ghost function Hash(key: string, seed: nat): nat {
    Fold(OFFSET_BASIS, SeedBytes(seed) + KeyBytes(key))
  }

  lemma FoldMore(h: nat, s: seq<nat>, b: nat)
    requires AllBytes(s) && b < 256
    ensures AllBytes(s + [b]) && Fold(h, s + [b]) == Step(Fold(h, s), b)
  {
    assert (s + [b])[..|s|] == s;
  }

  lemma KeyBytesAt(key: string, i: nat)
    requires i <= |key|
    requires forall j :: 0 <= j < i ==> ByteOf(key[j]) != 0
    ensures i <= |KeyBytes(key)|
    ensures i < |KeyBytes(key)| <==> i < |key| && ByteOf(key[i]) != 0
    ensures i < |KeyBytes(key)| ==> KeyBytes(key)[i] == ByteOf(key[i])
  {
    if i > 0 {
      KeyBytesAt(key[1..], i - 1);
    }
  }

  /** The hash of the seed and of the first p bytes of the key. */
  ghost function HashUpTo(key: string, seed: nat, p: nat): nat
    requires p <= |KeyBytes(key)|
  {
    Fold(OFFSET_BASIS, SeedBytes(seed) + KeyBytes(key)[..p])
  }

  lemma HashStarts(key: string, seed: nat)
    ensures HashUpTo(key, seed, 0) == Fold(OFFSET_BASIS, SeedBytes(seed))
    ensures HashUpTo(key, seed, |KeyBytes(key)|) == Hash(key, seed)
  {
    assert SeedBytes(seed) + KeyBytes(key)[..0] == SeedBytes(seed);
    assert KeyBytes(key)[..|KeyBytes(key)|] == KeyBytes(key);
  }

  lemma HashGoesOn(key: string, seed: nat, p: nat)
    requires p < |KeyBytes(key)|
    ensures KeyBytes(key)[p] < 256
    ensures HashUpTo(key, seed, p + 1) == Step(HashUpTo(key, seed, p), KeyBytes(key)[p])
  {
    var s, b := SeedBytes(seed) + KeyBytes(key)[..p], KeyBytes(key)[p];
    FoldMore(OFFSET_BASIS, s, b);
    assert SeedBytes(seed) + KeyBytes(key)[..p + 1] == s + [b];
  }

  /** The hash as computed: four rounds over the seed's bytes, then one per byte of the key. */
  method ComputeHash(key: string, seed: nat) returns (h: nat)
    ensures h == Hash(key, seed)
  {
    HashStarts(key, seed);
    h := HashSeed(seed);
    var p := 0;
    while p < |key| && ByteOf(key[p]) != 0
      invariant 0 <= p <= |KeyBytes(key)| && p <= |key|
      invariant forall j :: 0 <= j < p ==> ByteOf(key[j]) != 0
      invariant h == HashUpTo(key, seed, p)
    {
      KeyBytesAt(key, p);
      HashGoesOn(key, seed, p);
      h := Xor(h, ByteOf(key[p]));
      h := h * PRIME % TWO64;
      p := p + 1;
    }
    KeyBytesAt(key, p);
  }

  ghost function Shifted(seed: nat, i: nat): nat {
    if i == 0 then seed else Shifted(seed, i - 1) / 256
  }

  lemma SeedByte(seed: nat, i: nat)
    requires i < 4
    ensures SeedBytes(seed)[i] == Shifted(seed, i) % 256
    ensures SeedBytes(seed)[..i + 1] == SeedBytes(seed)[..i] + [SeedBytes(seed)[i]]
  {
    assert Shifted(seed, 1) == seed / 256;
    assert Shifted(seed, 2) == seed / 256 / 256 == seed / 65536;
    assert Shifted(seed, 3) == seed / 65536 / 256 == seed / 16777216;
  }

  method HashSeed(seed: nat) returns (h: nat)
    ensures h == Fold(OFFSET_BASIS, SeedBytes(seed))
  {
    h := OFFSET_BASIS;
    var rest := seed;
    var i := 0;
    while i < 4
      invariant 0 <= i <= 4 && rest == Shifted(seed, i)
      invariant h == Fold(OFFSET_BASIS, SeedBytes(seed)[..i])
    {
      SeedByte(seed, i);
      FoldMore(OFFSET_BASIS, SeedBytes(seed)[..i], rest % 256);
      h := Xor(h, rest % 256);
      h := h * PRIME % TWO64;
      rest := rest / 256;
      i := i + 1;
    }
    assert SeedBytes(seed)[..4] == SeedBytes(seed);
  }

  // ---------- powers of two ----------

  lemma {:induction false} Pow2Sum(a: nat, b: nat)
    ensures Pow2(a + b) == Pow2(a) * Pow2(b)
  {
    if a > 0 {
      Pow2Sum(a - 1, b);
      assert Pow2(a + b) == 2 * Pow2(a - 1 + b);
    }
  }

  lemma Pow2OfWords()
    ensures Pow2(8) == 256 && Pow2(64) == TWO64
  {
    assert Pow2(8) == 256;
    Pow2Sum(8, 8);
    Pow2Sum(16, 16);
    Pow2Sum(32, 32);
  }

  // ---------- every round is a bijection modulo a power of two ----------

  lemma ModDouble(z: nat, m: nat)
    requires m > 0
    ensures z % (2 * m) == z % 2 + 2 * (z / 2 % m)
  {
    var q, r := z / 2 / m, z / 2 % m;
    assert z / 2 == m * q + r;
    assert z == 2 * m * q + (z % 2 + 2 * r);
    Remainder(z, 2 * m, q, z % 2 + 2 * r);
  }

  lemma Remainder(z: int, m: nat, q: int, r: nat)
    requires m > 0 && r < m && z == m * q + r
    ensures z % m == r
  {
    SameRemainder(m, q, r, z / m, z % m);
  }

  lemma SameRemainder(m: nat, q: int, r: nat, q': int, r': nat)
    requires r < m && r' < m && m * q + r == m * q' + r'
    ensures r == r'
  {
    if q > q' {
      AtLeast(m, q - q');
    } else if q < q' {
      AtLeast(m, q' - q);
    }
  }

  lemma AtLeast(m: nat, d: nat)
    requires d > 0
    ensures m * d >= m
  {
  }

  lemma {:induction false} XorHalves(a: nat, b: nat)
    ensures Xor(a, b) % 2 == (a + b) % 2 && Xor(a, b) / 2 == Xor(a / 2, b / 2)
  {
    var r, h := (a + b) % 2, Xor(a / 2, b / 2);
    assert Xor(a, b) == r + 2 * h;
  }

  lemma SameParity(x: nat, y: nat, b: nat)
    requires (x + b) % 2 == (y + b) % 2
    ensures x % 2 == y % 2
  {
  }

  /** A number modulo 2m is made of its lowest bit and of its half modulo m. */
  lemma SameModDouble(x: nat, y: nat, m: nat)
    requires m > 0
    ensures x % (2 * m) == y % (2 * m) <==> x % 2 == y % 2 && x / 2 % m == y / 2 % m
  {
    ModDouble(x, m);
    ModDouble(y, m);
  }

  lemma XorHalvesSame(x: nat, y: nat, b: nat, m: nat)
    requires m > 0 && Xor(x, b) % (2 * m) == Xor(y, b) % (2 * m)
    ensures x % 2 == y % 2 && Xor(x / 2, b / 2) % m == Xor(y / 2, b / 2) % m
  {
    SameModDouble(Xor(x, b), Xor(y, b), m);
    XorHalves(x, b);
    XorHalves(y, b);
    SameParity(x, y, b);
  }

  lemma {:induction false} XorInjective(x: nat, y: nat, b: nat, k: nat)
    requires Xor(x, b) % Pow2(k) == Xor(y, b) % Pow2(k)
    ensures x % Pow2(k) == y % Pow2(k)
    decreases k
  {
    if k > 0 {
      var m := Pow2(k - 1);
      XorHalvesSame(x, y, b, m);
      XorInjective(x / 2, y / 2, b / 2, k - 1);
      SameModDouble(x, y, m);
    }
  }

  lemma {:induction false} XorSymmetric(a: nat, b: nat)
    ensures Xor(a, b) == Xor(b, a)
    decreases a + b
  {
    if a != 0 || b != 0 {
      XorSymmetric(a / 2, b / 2);
    }
  }

  /** The inverse of the prime modulo 2^64. */
  const INVERSE: nat := 14886173955864302971

  lemma PrimeInverse()
    ensures PRIME * INVERSE == 1 + 887285111055 * TWO64
  {
  }

  lemma MultipleOf(x: int, y: int, m: nat, c: int)
    requires m > 0 && x - y == m * c
    ensures x % m == y % m
  {
    var q, r := y / m, y % m;
    assert x == m * (q + c) + r;
    Remainder(x, m, q + c, r);
  }

  lemma MulInjective(x: nat, y: nat, m: nat, n: nat)
    requires m > 0 && m * n == TWO64
    requires (x * PRIME) % m == (y * PRIME) % m
    ensures x % m == y % m
  {
    var a, b := x * PRIME / m, y * PRIME / m;
    var d := x - y;
    assert d * PRIME == m * (a - b);
    PrimeInverse();
    var t := 887285111055;
    calc {
      d;
    == { assert d * (1 + t * TWO64) == d + d * (t * TWO64); }
      d * (1 + t * TWO64) - d * (t * TWO64);
    ==
      d * (PRIME * INVERSE) - d * (t * TWO64);
    == { assert d * (PRIME * INVERSE) == d * PRIME * INVERSE; }
      m * (a - b) * INVERSE - d * (t * (m * n));
    == { Factor(m, a - b, INVERSE, d, t, n); }
      m * ((a - b) * INVERSE - d * t * n);
    }
    MultipleOf(x, y, m, (a - b) * INVERSE - d * t * n);
  }

  lemma Factor(m: int, p: int, q: int, d: int, t: int, n: int)
    ensures m * p * q - d * (t * (m * n)) == m * (p * q - d * t * n)
  {
    assert m * p * q == m * (p * q);
    assert d * (t * (m * n)) == m * (d * t * n) by {
      assert t * (m * n) == m * (t * n);
      assert d * (m * (t * n)) == m * (d * (t * n));
      assert d * (t * n) == d * t * n;
    }
  }

  lemma ModOfMod(z: nat, m: nat, n: nat)
    requires m > 0 && m * n == TWO64
    ensures z % TWO64 % m == z % m
  {
    MultipleOf(z % TWO64, z, m, -(n * (z / TWO64)));
  }

  lemma StepInjective(x: nat, y: nat, b: nat, k: nat)
    requires k <= 64 && b < 256 && x % Pow2(k) != y % Pow2(k)
    ensures Step(x, b) % Pow2(k) != Step(y, b) % Pow2(k)
  {
    RoundInjective(Xor(x, b), Xor(y, b), k);
    if Xor(x, b) % Pow2(k) == Xor(y, b) % Pow2(k) {
      XorInjective(x, y, b, k);
    }
  }

  lemma RoundInjective(u: nat, v: nat, k: nat)
    requires k <= 64
    ensures u % Pow2(k) != v % Pow2(k) ==>
      u * PRIME % TWO64 % Pow2(k) != v * PRIME % TWO64 % Pow2(k)
  {
    var m := Pow2(k);
    Pow2Sum(k, 64 - k);
    Pow2OfWords();
    ModOfMod(u * PRIME, m, Pow2(64 - k));
    ModOfMod(v * PRIME, m, Pow2(64 - k));
    if u * PRIME % m == v * PRIME % m {
      MulInjective(u, v, m, Pow2(64 - k));
    }
  }

  /** Hashing the same bytes after two states that differ modulo 2^k gives two hashes that do. */
  lemma {:induction false} FoldInjective(x: nat, y: nat, s: seq<nat>, k: nat)
    requires k <= 64 && AllBytes(s) && x % Pow2(k) != y % Pow2(k)
    ensures Fold(x, s) % Pow2(k) != Fold(y, s) % Pow2(k)
    decreases |s|
  {
    if s != [] {
      FoldInjective(x, y, s[..|s| - 1], k);
      StepInjective(Fold(x, s[..|s| - 1]), Fold(y, s[..|s| - 1]), s[|s| - 1], k);
    }
  }

  lemma {:induction false} FoldFirst(h: nat, b: nat, s: seq<nat>)
    requires b < 256 && AllBytes(s)
    ensures AllBytes([b] + s) && Fold(h, [b] + s) == Fold(Step(h, b), s)
    decreases |s|
  {
    if s == [] {
      assert [b] + s == [b] && [b][..0] == [];
    } else {
      var front := s[..|s| - 1];
      FoldFirst(h, b, front);
      assert ([b] + s)[..|s|] == [b] + front;
    }
  }

  /** Seeds whose low bytes differ and whose high bytes agree hash every key to different
      residues modulo 2^k, for every k from 8 to 64. */
  lemma SeedsHashApart(key: string, s: nat, t: nat, k: nat)
    requires 8 <= k <= 64 && s % 256 != t % 256 && s / 256 == t / 256
    ensures Hash(key, s) % Pow2(k) != Hash(key, t) % Pow2(k)
  {
    var a, b := s % 256, t % 256;
    var rest := SeedBytes(s)[1..] + KeyBytes(key);
    assert SeedBytes(s)[1..] == SeedBytes(t)[1..] by {
      HighBytes(s);
      HighBytes(t);
    }
    assert SeedBytes(s) + KeyBytes(key) == [a] + rest;
    assert SeedBytes(t) + KeyBytes(key) == [b] + rest;
    FoldFirst(OFFSET_BASIS, a, rest);
    FoldFirst(OFFSET_BASIS, b, rest);
    XorSymmetric(OFFSET_BASIS, a);
    XorSymmetric(OFFSET_BASIS, b);
    FirstRoundApart(a, b, k);
    FoldInjective(Step(OFFSET_BASIS, a), Step(OFFSET_BASIS, b), rest, k);
  }

  lemma HighBytes(s: nat)
    ensures SeedBytes(s)[1..] == [s / 256 % 256, s / 256 / 256 % 256, s / 256 / 65536 % 256]
  {
  }

  lemma FirstRoundApart(a: nat, b: nat, k: nat)
    requires 8 <= k <= 64 && a < 256 && b < 256 && a != b
    ensures Step(OFFSET_BASIS, a) % Pow2(k) != Step(OFFSET_BASIS, b) % Pow2(k)
  {
    Pow2OfWords();
    Pow2Grows(8, k);
    Remainder(a, Pow2(k), 0, a);
    Remainder(b, Pow2(k), 0, b);
    XorSymmetric(OFFSET_BASIS, a);
    XorSymmetric(OFFSET_BASIS, b);
    if Xor(a, OFFSET_BASIS) % Pow2(k) == Xor(b, OFFSET_BASIS) % Pow2(k) {
      XorInjective(a, b, OFFSET_BASIS, k);
    }
    RoundInjective(Xor(OFFSET_BASIS, a), Xor(OFFSET_BASIS, b), k);
  }
}
