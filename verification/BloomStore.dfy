/** The Bloom filter as it runs: the byte buffer is changed in place. */
module BloomStore {
  import opened Octets
  import opened Fnv
  import opened Bloom

  /** The filter as it runs, over a byte buffer that may be longer than it needs to be. */
  class BloomFilter {
    var seed: nat
    var size: nat
    var hash: array<Byte>

    ghost predicate Valid()
      reads this
    {
      seed < TWO32 && size <= MAX_INT - 7 && ByteCount(size) <= hash.Length
    }

    ghost function Contents(): Filter
      reads this, hash
      requires Valid()
    {
      Filter(seed, size, hash[..ByteCount(size)])
    }

    constructor ()
      ensures Valid() && fresh(hash) && Contents() == Empty(1048576, 0)
    {
      seed, size := 0, DEFAULT_SIZE;
      hash := new Byte[ByteCount(DEFAULT_SIZE)](_ => 0);
      new;
      assert hash[..] == Empty(DEFAULT_SIZE, 0).bytes;
    }

    constructor Copy(other: BloomFilter)
      requires other.Valid()
      ensures Valid() && fresh(hash) && Contents() == other.Contents()
    {
      seed, size := other.seed, other.size;
      hash := new Byte[other.size];
      new;
      CopyIn(other.hash[..ByteCount(other.size)]);
    }

    /** memcpy to the start of the buffer. */
    method CopyIn(src: Bytes)
      requires |src| <= hash.Length
      modifies hash
      ensures hash[..|src|] == src
    {
      var i := 0;
      while i < |src|
        invariant 0 <= i <= |src| && hash[..i] == src[..i]
      {
        hash[i] := src[i];
        i := i + 1;
      }
    }

    /** The old buffer is given up before the other one is read, so a filter must not be assigned
        to itself. */
    method Assign(other: BloomFilter)
      requires other != this && other.Valid()
      modifies this
      ensures Valid() && fresh(hash) && Contents() == other.Contents() == old(other.Contents())
    {
      seed, size := other.seed, other.size;
      hash := new Byte[size];
      CopyIn(other.hash[..ByteCount(size)]);
    }

    method Reset(size: nat, seed: nat)
      requires size <= MAX_INT - 7 && seed < TWO32
      modifies this
      ensures Valid() && fresh(hash) && Contents() == Empty(size, seed)
    {
      this.size, this.seed := size, seed;
      hash := new Byte[ByteCount(size)](_ => 0);
      assert hash[..] == Empty(size, seed).bytes;
    }

    method Position(key: string, i: nat) returns (p: nat)
      requires Valid() && size > 0
      ensures p == Probe(seed, size, key, i) && p / 8 < ByteCount(size)
    {
      var h := ComputeHash(key, (seed + i) % TWO32);
      p := h % size;
    }

    method Set(key: string)
      requires Valid() && size > 0
      modifies hash
      ensures Valid() && Contents() == Bloom.Set(old(Contents()), key)
    {
      ghost var n := ByteCount(size);
      var i := 0;
      while i < PROBES
        invariant 0 <= i <= PROBES
        invariant hash[..n] == SetProbes(old(Contents()), key, i)
      {
        var p := Position(key, i);
        hash[p / 8] := WithBit(hash[p / 8], p % 8);
        i := i + 1;
      }
    }

    method MayContain(key: string) returns (yes: bool)
      requires Valid() && size > 0
      ensures yes <==> Bloom.MayContain(Contents(), key)
    {
      var i := 0;
      while i < PROBES
        invariant 0 <= i <= PROBES
        invariant forall j :: 0 <= j < i ==> Bit(Contents().bytes, Probe(seed, size, key, j))
      {
        var p := Position(key, i);
        AndPow2(hash[p / 8], p % 8);
        if And(hash[p / 8], Mask(p % 8)) == 0 {
          assert !Bit(Contents().bytes, Probe(seed, size, key, i));
          return false;
        }
        i := i + 1;
      }
      yes := true;
    }

    /** Whatever filter reads the vector becomes this one, if the size is within the limit. */
    method Serialize() returns (v: Bytes)
      requires Valid()
      ensures v == Bloom.Serialize(Contents())
      ensures size <= 100 * 1024 * 1024 ==> forall f :: Bloom.Deserialize(f, v) == Contents()
    {
      v := Little(seed) + Little(size) + hash[..ByteCount(size)];
      forall f ensures size <= 100 * 1024 * 1024 ==> Bloom.Deserialize(f, v) == Contents() {
        SerializeRoundTrip(Contents(), f);
      }
    }

    /** The buffer is not reallocated, so it must be long enough for an accepted vector. */
    method Deserialize(v: Bytes)
      requires Valid() && (Accepts(v) ==> |v| - 8 <= hash.Length)
      modifies this, hash
      ensures Valid() && hash == old(hash) && Contents() == Bloom.Deserialize(old(Contents()), v)
    {
      if |v| < 8 {
        return;
      }
      var newSize := FromLittle(v[4..]);
      if newSize > MAX_SERIALIZED || |v| != ByteCount(newSize) + 8 {
        return;
      }
      seed, size := FromLittle(v), newSize;
      CopyIn(v[8..]);
    }
  }
}
