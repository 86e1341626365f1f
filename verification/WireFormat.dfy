/** One concrete message format that meets what Framing asks of a codec: numbers of four bytes
    and byte strings preceded by their length. It stands in for msgpack, whose own byte format is
    not part of this model. */
module WireFormat {
  import opened Octets
  import opened Fnv
  import opened Bloom
  import opened Framing
  import opened Rpc

  type Reader<M> = Bytes -> Decoded<M>

  /** Reads two things one after the other. */
  function Pair<A, B>(p: Reader<A>, q: Reader<B>): Reader<(A, B)> {
    (s: Bytes) =>
      match p(s)
      case NeedMore => NeedMore
      case Got(a, n) =>
        if n > |s| then NeedMore else
        match q(s[n..])
        case NeedMore => NeedMore
        case Got(b, m) => Got((a, b), n + m)
  }

  lemma PairStable<A(!new), B(!new)>(p: Reader<A>, q: Reader<B>)
    requires Stable(p) && Stable(q)
    ensures Stable(Pair(p, q))
  {
    var r := Pair(p, q);
    forall s, t | r(s).Got? ensures 0 < r(s).used <= |s| && r(s + t) == r(s) {
      var n := p(s).used;
      assert p(s + t) == p(s);
      assert (s + t)[n..] == s[n..] + t;
      assert q(s[n..] + t) == q(s[n..]);
    }
  }

  /** A reader recovers from `e` exactly the value `a`. */
  ghost predicate Reads<M>(p: Reader<M>, e: Bytes, a: M) { p(e) == Got(a, |e|) }

  lemma PairReads<A(!new), B(!new)>(p: Reader<A>, q: Reader<B>, e: Bytes, a: A, f: Bytes, b: B)
    requires Stable(p) && Reads(p, e, a) && Reads(q, f, b)
    ensures Reads(Pair(p, q), e + f, (a, b))
  {
    assert p(e + f) == p(e);
    assert (e + f)[|e|..] == f;
  }

  /** Reads a thing and makes another of it. */
  function Mapped<A, B>(p: Reader<A>, f: A -> B): Reader<B> {
    (s: Bytes) =>
      match p(s)
      case NeedMore => NeedMore
      case Got(a, n) => Got(f(a), n)
  }

  lemma MappedStable<A(!new), B(!new)>(p: Reader<A>, f: A -> B)
    requires Stable(p)
    ensures Stable(Mapped(p, f))
  {
    var r := Mapped(p, f);
    forall s, t | r(s).Got? ensures 0 < r(s).used <= |s| && r(s + t) == r(s) {
      assert p(s + t) == p(s);
    }
  }

  function Word(s: Bytes): Decoded<nat> {
    if |s| < 4 then NeedMore else Got(FromLittle(s[..4]), 4)
  }

  lemma WordStableAt(s: Bytes, t: Bytes)
    requires Word(s).Got?
    ensures 0 < Word(s).used <= |s| && Word(s + t) == Word(s)
  {
    assert (s + t)[..4] == s[..4];
  }

  lemma WordStable()
    ensures Stable(Word)
  {
    var dec: Reader<nat> := Word;
    forall s, t ensures dec(s).Got? ==> 0 < dec(s).used <= |s| && dec(s + t) == dec(s) {
      assert dec(s) == Word(s) && dec(s + t) == Word(s + t);
      if Word(s).Got? { WordStableAt(s, t); }
    }
    assert Stable(dec);
  }

  lemma WordReads(n: nat)
    requires n < TWO32
    ensures Reads(Word, Little(n), n)
  {
    LittleRoundTrip(n, []);
    assert Little(n)[..4] == Little(n) + [];
  }

  function Blob(s: Bytes): Decoded<Bytes> {
    match Word(s)
    case NeedMore => NeedMore
    case Got(n, _) => if |s| < 4 + n then NeedMore else Got(s[4..4 + n], 4 + n)
  }

  function EncBlob(b: Bytes): Bytes
    requires |b| < TWO32
  {
    Little(|b|) + b
  }

  lemma BlobStableAt(s: Bytes, t: Bytes)
    requires Blob(s).Got?
    ensures 0 < Blob(s).used <= |s| && Blob(s + t) == Blob(s)
  {
    var n := Word(s).msg;
    assert (s + t)[..4] == s[..4];
    assert Word(s + t) == Got(n, 4);
    assert (s + t)[4..4 + n] == s[4..4 + n];
  }

  lemma BlobStable()
    ensures Stable(Blob)
  {
    var dec: Reader<Bytes> := Blob;
    forall s, t ensures dec(s).Got? ==> 0 < dec(s).used <= |s| && dec(s + t) == dec(s) {
      assert dec(s) == Blob(s) && dec(s + t) == Blob(s + t);
      if Blob(s).Got? { BlobStableAt(s, t); }
    }
    assert Stable(dec);
  }

  lemma BlobReads(b: Bytes)
    requires |b| < TWO32
    ensures Reads(Blob, EncBlob(b), b)
  {
    WordStable();
    WordReads(|b|);
    assert Word(Little(|b|) + b) == Word(Little(|b|));
    assert EncBlob(b)[4..4 + |b|] == b;
  }

  // ---------- frames: an id and two byte strings ----------

  type Parts = ((nat, nat), (Bytes, Bytes))

  function ReadParts(): Reader<Parts> { Pair(Pair(Word, Word), Pair(Blob, Blob)) }

  function EncParts(id: nat, a: Bytes, b: Bytes): Bytes {
    if id < ID_SPACE && |a| < TWO32 && |b| < TWO32 then
      (Little(id % TWO32) + Little(id / TWO32)) + (EncBlob(a) + EncBlob(b))
    else []
  }

  function IdOf(p: Parts): nat { p.0.0 + TWO32 * p.0.1 }

  lemma PartsStable()
    ensures Stable(ReadParts())
  {
    WordStable();
    BlobStable();
    PairStable(Word, Word);
    PairStable(Blob, Blob);
    PairStable(Pair(Word, Word), Pair(Blob, Blob));
  }

  lemma IdWords(id: nat)
    requires id < ID_SPACE
    ensures id / TWO32 < TWO32 && id % TWO32 + TWO32 * (id / TWO32) == id
  {
  }

  lemma WordsRead(lo: nat, hi: nat)
    requires lo < TWO32 && hi < TWO32
    ensures Stable(Pair(Word, Word)) && Reads(Pair(Word, Word), Little(lo) + Little(hi), (lo, hi))
  {
    WordStable();
    WordReads(lo);
    WordReads(hi);
    PairStable(Word, Word);
    PairReads(Word, Word, Little(lo), lo, Little(hi), hi);
  }

  lemma BlobsRead(a: Bytes, b: Bytes)
    requires |a| < TWO32 && |b| < TWO32
    ensures Reads(Pair(Blob, Blob), EncBlob(a) + EncBlob(b), (a, b))
  {
    BlobStable();
    BlobReads(a);
    BlobReads(b);
    PairReads(Blob, Blob, EncBlob(a), a, EncBlob(b), b);
  }

  lemma PartsRead(id: nat, a: Bytes, b: Bytes)
    requires id < ID_SPACE && |a| < TWO32 && |b| < TWO32
    ensures var e := EncParts(id, a, b); ReadParts()(e) == Got(((id % TWO32, id / TWO32), (a, b)), |e|)
    ensures IdOf(((id % TWO32, id / TWO32), (a, b))) == id
  {
    var lo, hi := id % TWO32, id / TWO32;
    IdWords(id);
    WordsRead(lo, hi);
    BlobsRead(a, b);
    PairReads(Pair(Word, Word), Pair(Blob, Blob), Little(lo) + Little(hi), (lo, hi), EncBlob(a) + EncBlob(b), (a, b));
  }

  // ---------- requests and responses ----------

  predicate NameOk(name: string) { |name| < TWO32 && forall i :: 0 <= i < |name| ==> name[i] as int < 256 }

  function NameBytes(name: string): (s: Bytes)
    ensures |s| == |name|
  {
    seq(|name|, i requires 0 <= i < |name| => name[i] as int % 256)
  }

  function BytesName(s: Bytes): (name: string)
    ensures |name| == |s|
  {
    seq(|s|, i requires 0 <= i < |s| => s[i] as char)
  }

  lemma NameRoundTrip(name: string)
    requires NameOk(name)
    ensures BytesName(NameBytes(name)) == name
  {
  }

  function ToRequest(p: Parts): Request { Request(IdOf(p), BytesName(p.1.0), p.1.1) }

  function ToResponse(p: Parts): Response { Response(IdOf(p), p.1.0) }

  function Requests(): Codec<Request> {
    Codec(
      (r: Request) => r.id < ID_SPACE && NameOk(r.name) && |r.args| < TWO32,
      (r: Request) => EncParts(r.id, NameBytes(r.name), r.args),
      Mapped(ReadParts(), ToRequest))
  }

  function Responses(): Codec<Response> {
    Codec(
      (r: Response) => r.id < ID_SPACE && |r.result| < TWO32,
      (r: Response) => EncParts(r.id, r.result, []),
      Mapped(ReadParts(), ToResponse))
  }

  lemma RequestsGood()
    ensures Good(Requests())
  {
    var c := Requests();
    PartsStable();
    MappedStable(ReadParts(), ToRequest);
    forall r | c.ok(r) ensures c.dec(c.enc(r)) == Got(r, |c.enc(r)|) {
      PartsRead(r.id, NameBytes(r.name), r.args);
      NameRoundTrip(r.name);
    }
  }

  lemma ResponsesGood()
    ensures Good(Responses())
  {
    var c := Responses();
    PartsStable();
    MappedStable(ReadParts(), ToResponse);
    forall r | c.ok(r) ensures c.dec(c.enc(r)) == Got(r, |c.enc(r)|) {
      PartsRead(r.id, r.result, []);
    }
  }

  /** The requirements on the message format are met, so the results about RPC are not vacuous. */
  lemma FormatsAreGood(funcs: set<string>)
    ensures GoodSetup(Setup(Requests(), Responses(), funcs))
  {
    RequestsGood();
    ResponsesGood();
  }
}
