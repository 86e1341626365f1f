/** The Bloom filter: six probes per key into a packed bit array, and its byte format. */
module Bloom {
  import opened Octets
  import opened Fnv

  const PROBES: nat := 6
  const DEFAULT_SIZE: nat := 1048576
  const MAX_SERIALIZED: nat := 104857600
  const MAX_INT: nat := 0x7fff_ffff

  /** `bytes` holds bit p as bit p % 8 of byte p / 8. */
  datatype Filter = Filter(seed: nat, size: nat, bytes: Bytes)

  function ByteCount(size: nat): nat { (size + 7) / 8 }

  ghost predicate WellFormed(f: Filter) {
    f.seed < TWO32 && f.size < TWO32 && |f.bytes| == ByteCount(f.size)
  }

  // ---------- bits ----------

  predicate Bit(s: Bytes, p: nat) {
    p / 8 < |s| && BitAt(s[p / 8], p % 8)
  }

  function SetBit(s: Bytes, p: nat): (r: Bytes)
    requires p / 8 < |s|
    ensures |r| == |s|
  {
    s[p / 8 := WithBit(s[p / 8], p % 8)]
  }

  lemma SetBitSets(s: Bytes, p: nat, q: nat)
    requires p / 8 < |s|
    ensures Bit(SetBit(s, p), q) <==> q == p || Bit(s, q)
  {
    if q / 8 == p / 8 {
      BitOfWithBit(s[p / 8], p % 8, q % 8);
    }
  }

  // ---------- probes ----------

  /** Position of a key's probe number i. The seed is a 32-bit number and wraps around. */
  ghost function Probe(seed: nat, size: nat, key: string, i: nat): (p: nat)
    requires size > 0
    ensures p < size
  {
    Hash(key, (seed + i) % TWO32) % size
  }

  ghost function ProbeSet(seed: nat, size: nat, key: string): set<nat>
    requires size > 0
  {
    set i | 0 <= i < PROBES :: Probe(seed, size, key, i)
  }

  /** Six consecutive seeds differ in their low byte only. */
  lemma SeedPlus(seed: nat, i: nat)
    requires seed < TWO32 && seed % 256 <= 250 && i < 6
    ensures (seed + i) % TWO32 == seed + i
    ensures (seed + i) / 256 == seed / 256 && (seed + i) % 256 == seed % 256 + i
  {
    var q, r := seed / 256, seed % 256;
    assert seed + i == 256 * q + (r + i);
    assert q < 16777216;
  }

  /** Six distinct bits: when the size is a power of two from 2^8 and the seed's low byte leaves
      room for six consecutive seeds, every key's six probes are pairwise distinct. */
  lemma SixDistinctBits(seed: nat, k: nat, key: string, i: nat, j: nat)
    requires seed < TWO32 && seed % 256 <= 250 && 8 <= k <= 64 && i < j < 6
    ensures Probe(seed, Pow2(k), key, i) != Probe(seed, Pow2(k), key, j)
  {
    SeedPlus(seed, i);
    SeedPlus(seed, j);
    SeedsHashApart(key, seed + i, seed + j, k);
  }

  // ---------- operations ----------

  ghost function Empty(size: nat, seed: nat): Filter {
    Filter(seed, size, seq(ByteCount(size), _ => 0))
  }

  /** The bytes after the first n probes of a key have been set. */
  ghost function SetProbes(f: Filter, key: string, n: nat): (s: Bytes)
    requires WellFormed(f) && f.size > 0
    ensures |s| == |f.bytes|
  {
    if n == 0 then f.bytes else SetBit(SetProbes(f, key, n - 1), Probe(f.seed, f.size, key, n - 1))
  }

  ghost function Set(f: Filter, key: string): Filter
    requires WellFormed(f) && f.size > 0
  {
    f.(bytes := SetProbes(f, key, PROBES))
  }

  ghost predicate MayContain(f: Filter, key: string)
    requires f.size > 0
  {
    forall i :: 0 <= i < PROBES ==> Bit(f.bytes, Probe(f.seed, f.size, key, i))
  }

  ghost predicate Padded(f: Filter) {
    forall p :: f.size <= p ==> !Bit(f.bytes, p)
  }

  lemma {:induction false} BitsOfProbes(f: Filter, key: string, n: nat, p: nat)
    requires WellFormed(f) && f.size > 0
    ensures Bit(SetProbes(f, key, n), p) <==>
      Bit(f.bytes, p) || exists i :: 0 <= i < n && p == Probe(f.seed, f.size, key, i)
  {
    if n > 0 {
      BitsOfProbes(f, key, n - 1, p);
      SetBitSets(SetProbes(f, key, n - 1), Probe(f.seed, f.size, key, n - 1), p);
    }
  }

  /** Setting a key turns on exactly its probes. */
  lemma SetMeans(f: Filter, key: string, p: nat)
    requires WellFormed(f) && f.size > 0
    ensures Bit(Set(f, key).bytes, p) <==> Bit(f.bytes, p) || p in ProbeSet(f.seed, f.size, key)
  {
    BitsOfProbes(f, key, PROBES, p);
  }

  lemma EmptyMeans(size: nat, seed: nat, p: nat)
    ensures !Bit(Empty(size, seed).bytes, p)
  {
    if p / 8 < ByteCount(size) {
      ZeroHasNoBits(p % 8);
    }
  }

  ghost function FirstProbes(seed: nat, size: nat, key: string, n: nat): set<nat>
    requires size > 0
  {
    set i | 0 <= i < n :: Probe(seed, size, key, i)
  }

  lemma FirstProbesMore(seed: nat, size: nat, key: string, n: nat)
    requires size > 0
    ensures FirstProbes(seed, size, key, n + 1) == FirstProbes(seed, size, key, n) + {Probe(seed, size, key, n)}
  {
  }

  lemma NextProbeNew(seed: nat, k: nat, key: string, n: nat)
    requires seed < TWO32 && seed % 256 <= 250 && 8 <= k <= 64 && n < 6
    ensures Probe(seed, Pow2(k), key, n) !in FirstProbes(seed, Pow2(k), key, n)
  {
    forall i | 0 <= i < n ensures Probe(seed, Pow2(k), key, i) != Probe(seed, Pow2(k), key, n) {
      SixDistinctBits(seed, k, key, i, n);
    }
  }

  lemma {:induction false} ProbesCounted(seed: nat, k: nat, key: string, n: nat)
    requires seed < TWO32 && seed % 256 <= 250 && 8 <= k <= 64 && n <= 6
    ensures |FirstProbes(seed, Pow2(k), key, n)| == n
  {
    if n == 0 {
      assert FirstProbes(seed, Pow2(k), key, 0) == {};
    } else {
      ProbesCounted(seed, k, key, n - 1);
      NextProbeNew(seed, k, key, n - 1);
      FirstProbesMore(seed, Pow2(k), key, n - 1);
    }
  }

  ghost function BitsOn(f: Filter): set<nat> { set p | 0 <= p < f.size && Bit(f.bytes, p) }

  lemma SizeFits(k: nat)
    requires k <= 30
    ensures Pow2(k) < TWO32
  {
    Pow2Grows(k, 30);
    SmallPower();
  }

  lemma SmallPower()
    ensures Pow2(30) == 1073741824
  {
    assert Pow2(10) == 1024;
    Pow2Sum(10, 10);
    Pow2Sum(20, 10);
  }

  /** Exactly six bits: setting a key in an empty filter whose size is a power of two turns on six
      bits, no two probes falling on the same one. */
  lemma SixBits(seed: nat, k: nat, key: string)
    requires seed < TWO32 && seed % 256 <= 250 && 8 <= k <= 30
    ensures WellFormed(Empty(Pow2(k), seed)) && BitsOn(Empty(Pow2(k), seed)) == {}
    ensures |BitsOn(Set(Empty(Pow2(k), seed), key))| == 6
  {
    var f := Empty(Pow2(k), seed);
    SizeFits(k);
    ProbesCounted(seed, k, key, 6);
    forall p ensures Bit(Set(f, key).bytes, p) <==> p in FirstProbes(seed, Pow2(k), key, 6) {
      SetMeans(f, key, p);
      EmptyMeans(Pow2(k), seed, p);
    }
    forall p ensures !Bit(f.bytes, p) {
      EmptyMeans(Pow2(k), seed, p);
    }
    assert BitsOn(Set(f, key)) == FirstProbes(seed, Pow2(k), key, 6);
  }

  // ---------- what a filter means after any run ----------

  /** The bits are exactly the probes of the keys, and the padding is clear. */
  ghost predicate Represents(f: Filter, keys: set<string>) {
    && WellFormed(f)
    && (f.size == 0 ==> keys == {})
    && forall p :: Bit(f.bytes, p) <==> f.size > 0 && exists k :: k in keys && p in ProbeSet(f.seed, f.size, k)
  }

  datatype Op = Reset(size: nat, seed: nat) | Add(key: string) | Copy

  ghost predicate Allowed(f: Filter, op: Op) {
    match op
    case Reset(size, seed) => size <= MAX_INT - 7 && seed < TWO32
    case Add(_) => f.size > 0
    case Copy => true
  }

  ghost function Apply(f: Filter, op: Op): Filter
    requires WellFormed(f) && Allowed(f, op)
  {
    match op
    case Reset(size, seed) => Empty(size, seed)
    case Add(key) => Set(f, key)
    case Copy => f
  }

  ghost function Keys(keys: set<string>, op: Op): set<string> {
    match op
    case Reset(_, _) => {}
    case Add(key) => keys + {key}
    case Copy => keys
  }

  lemma ApplyRepresents(f: Filter, keys: set<string>, op: Op)
    requires Represents(f, keys) && Allowed(f, op)
    ensures Represents(Apply(f, op), Keys(keys, op))
  {
    match op
    case Reset(size, seed) =>
      forall p ensures !Bit(Empty(size, seed).bytes, p) {
        EmptyMeans(size, seed, p);
      }
    case Add(key) => SetRepresents(f, keys, key);
    case Copy =>
  }

  lemma SetRepresents(f: Filter, keys: set<string>, key: string)
    requires Represents(f, keys) && f.size > 0
    ensures Represents(Set(f, key), keys + {key})
  {
    var g := Set(f, key);
    forall p ensures Bit(g.bytes, p) <==> exists k :: k in keys + {key} && p in ProbeSet(g.seed, g.size, k) {
      SetMeans(f, key, p);
      if p in ProbeSet(f.seed, f.size, key) {
        assert key in keys + {key};
      } else if Bit(f.bytes, p) {
        var k :| k in keys && p in ProbeSet(f.seed, f.size, k);
        assert k in keys + {key};
      }
    }
  }

  ghost predicate AllowedRun(f: Filter, ops: seq<Op>)
    requires WellFormed(f)
    decreases |ops|
  {
    ops == [] || (Allowed(f, ops[0]) && AllowedRun(Apply(f, ops[0]), ops[1..]))
  }

  ghost function Run(f: Filter, ops: seq<Op>): Filter
    requires WellFormed(f) && AllowedRun(f, ops)
    decreases |ops|
  {
    if ops == [] then f else Run(Apply(f, ops[0]), ops[1..])
  }

  ghost function KeysOfRun(keys: set<string>, ops: seq<Op>): set<string>
    decreases |ops|
  {
    if ops == [] then keys else KeysOfRun(Keys(keys, ops[0]), ops[1..])
  }

  /** Filter meaning: after any run of reset, set and copying, the bits that are on are exactly
      the probes of the keys set since the last reset. */
  lemma {:induction false} FilterMeaning(f: Filter, keys: set<string>, ops: seq<Op>)
    requires Represents(f, keys) && AllowedRun(f, ops)
    ensures Represents(Run(f, ops), KeysOfRun(keys, ops))
    decreases |ops|
  {
    if ops != [] {
      ApplyRepresents(f, keys, ops[0]);
      FilterMeaning(Apply(f, ops[0]), Keys(keys, ops[0]), ops[1..]);
    }
  }

  /** mayContain says yes exactly when all six probes are probes of keys that were set; in
      particular there are no false negatives. */
  lemma MayContainMeans(f: Filter, keys: set<string>, key: string)
    requires Represents(f, keys) && f.size > 0
    ensures MayContain(f, key) <==>
      forall p :: p in ProbeSet(f.seed, f.size, key) ==> exists k :: k in keys && p in ProbeSet(f.seed, f.size, k)
    ensures key in keys ==> MayContain(f, key)
    ensures Padded(f)
  {
    if MayContain(f, key) {
      forall p | p in ProbeSet(f.seed, f.size, key)
        ensures exists k :: k in keys && p in ProbeSet(f.seed, f.size, k)
      {
        assert Bit(f.bytes, p);
      }
    } else {
      var i :| 0 <= i < PROBES && !Bit(f.bytes, Probe(f.seed, f.size, key, i));
      assert Probe(f.seed, f.size, key, i) in ProbeSet(f.seed, f.size, key);
    }
  }

  /** The bytes are determined by the keys, whatever the order in which they were set. */
  lemma SameKeysSameFilter(f: Filter, g: Filter, keys: set<string>)
    requires Represents(f, keys) && Represents(g, keys) && f.seed == g.seed && f.size == g.size
    ensures f == g
  {
    forall i | 0 <= i < |f.bytes| ensures f.bytes[i] == g.bytes[i] {
      forall j | 0 <= j < 8 ensures BitAt(f.bytes[i], j) <==> BitAt(g.bytes[i], j) {
        var p := 8 * i + j;
        assert p / 8 == i && p % 8 == j;
        assert Bit(f.bytes, p) <==> Bit(g.bytes, p);
      }
      Pow2Eight();
      SameBits(f.bytes[i], g.bytes[i], 8);
    }
  }

  // ---------- serialization ----------

  function Little(n: nat): (s: Bytes)
    requires n < TWO32
    ensures |s| == 4
  {
    [n % 256, n / 256 % 256, n / 65536 % 256, n / 16777216]
  }

  function FromLittle(s: Bytes): (n: nat)
    requires |s| >= 4
    ensures n < TWO32
  {
    var a: nat, b: nat, c: nat, d: nat := s[0], s[1], s[2], s[3];
    a + 256 * b + 65536 * c + 16777216 * d
  }

  function Serialize(f: Filter): Bytes
    requires f.seed < TWO32 && f.size < TWO32
  {
    Little(f.seed) + Little(f.size) + f.bytes
  }

  /** The length and size checks of deserialize. */
  predicate Accepts(v: Bytes) {
    && |v| >= 8
    && FromLittle(v[4..]) <= MAX_SERIALIZED
    && |v| == ByteCount(FromLittle(v[4..])) + 8
  }

  function Deserialize(f: Filter, v: Bytes): Filter {
    if Accepts(v) then Filter(FromLittle(v), FromLittle(v[4..]), v[8..]) else f
  }

  lemma LittleRoundTrip(n: nat, rest: Bytes)
    requires n < TWO32
    ensures FromLittle(Little(n) + rest) == n
  {
    assert n / 65536 == n / 256 / 256 && n / 16777216 == n / 65536 / 256;
  }

  lemma FromLittleRoundTrip(s: Bytes)
    requires |s| >= 4
    ensures Little(FromLittle(s)) == s[..4]
  {
    var n := FromLittle(s);
    var b: nat, c: nat, d: nat := s[1], s[2], s[3];
    assert n / 256 == b + 256 * c + 65536 * d;
    assert n / 65536 == c + 256 * d;
  }

  /** Deserializing what a filter serialized gives back that filter exactly when its size does
      not exceed the limit of deserialize; a larger one is refused and changes nothing. */
  lemma SerializeRoundTrip(f: Filter, g: Filter)
    requires WellFormed(f)
    ensures Accepts(Serialize(f)) <==> f.size <= 100 * 1024 * 1024
    ensures Deserialize(g, Serialize(f)) == if f.size <= 100 * 1024 * 1024 then f else g
  {
    var v := Serialize(f);
    assert v == Little(f.seed) + (Little(f.size) + f.bytes);
    assert v[4..] == Little(f.size) + f.bytes;
    assert v[8..] == f.bytes;
    LittleRoundTrip(f.seed, Little(f.size) + f.bytes);
    LittleRoundTrip(f.size, f.bytes);
  }

  /** An accepted vector is reproduced by serializing the filter it was read into; any other
      vector leaves the filter unchanged. */
  lemma DeserializeRoundTrip(f: Filter, v: Bytes)
    ensures Accepts(v) ==> WellFormed(Deserialize(f, v)) && Serialize(Deserialize(f, v)) == v
    ensures !Accepts(v) ==> Deserialize(f, v) == f
  {
    if Accepts(v) {
      FromLittleRoundTrip(v);
      FromLittleRoundTrip(v[4..]);
      assert v == v[..4] + v[4..][..4] + v[8..];
    }
  }

  /** The number in four bytes, the lowest first. */
  ghost predicate Holds(v: Bytes, i: nat, n: nat)
    requires i + 4 <= |v|
  {
    var a: nat, b: nat, c: nat, d: nat := v[i], v[i + 1], v[i + 2], v[i + 3];
    n == a + 256 * b + 65536 * c + 16777216 * d
  }

  /** The layout of a serialized filter: seed, size, then one bit per position, eight to a byte
      and the lowest first, with the last byte filled up. */
  lemma SerializedLayout(f: Filter, p: nat)
    requires WellFormed(f)
    ensures var v := Serialize(f);
      && |v| == 8 + (f.size + 7) / 8 && Holds(v, 0, f.seed) && Holds(v, 4, f.size)
      && (p < f.size ==> (Bit(f.bytes, p) <==> BitAt(v[8 + p / 8], p % 8)))
  {
    var v := Serialize(f);
    LittleRoundTrip(f.seed, []);
    LittleRoundTrip(f.size, []);
    assert Little(f.seed) + [] == Little(f.seed) && Little(f.size) + [] == Little(f.size);
    assert v[..4] == Little(f.seed) && v[4..8] == Little(f.size) && v[8..] == f.bytes;
    assert v[4] == v[4..8][0] && v[5] == v[4..8][1] && v[6] == v[4..8][2] && v[7] == v[4..8][3];
  }

  /** deserialize accepts every vector of the right length for the size it names, up to the limit,
      and no other. */
  lemma AcceptsExactly(v: Bytes, size: nat)
    requires |v| >= 8 ==> Holds(v, 4, size)
    ensures Accepts(v) <==> |v| >= 8 && size <= 100 * 1024 * 1024 && |v| == 8 + (size + 7) / 8
  {
    if |v| >= 8 {
      assert v[4..][0] == v[4] && v[4..][1] == v[5] && v[4..][2] == v[6] && v[4..][3] == v[7];
    }
  }
}
