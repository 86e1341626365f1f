/** One way to pack the arguments and results of block store calls into bytes, and with it a
    server that meets all that is asked of one. */
module Packing {
  import opened Common
  import opened Octets
  import opened Fnv
  import opened Framing
  import opened Rpc
  import opened WireFormat
  import opened RemoteBlockStore
  import opened RemoteSession

  predicate CanPack(q: Query) {
    match q
    case AskPut(key, data) => NameOk(key) && |data| < TWO32
    case AskGet(key) => NameOk(key)
    case AskRemove(key) => NameOk(key)
    case _ => true
  }

  function KeyAndData(key: string, data: Bytes): Bytes {
    if |key| < TWO32 && |data| < TWO32 then EncBlob(NameBytes(key)) + EncBlob(data) else []
  }

  function Args(q: Query): Bytes {
    match q
    case AskPut(key, data) => KeyAndData(key, data)
    case AskGet(key) => KeyAndData(key, [])
    case AskRemove(key) => KeyAndData(key, [])
    case _ => []
  }

  /** The key and the data found, empty when there are none. */
  function Unpack(s: Bytes): (string, Bytes) {
    match Pair(Blob, Blob)(s)
    case NeedMore => ("", [])
    case Got(p, _) => (BytesName(p.0), p.1)
  }

  function Question(op: Operation, s: Bytes): Query {
    match op
    case PutBlock => AskPut(Unpack(s).0, Unpack(s).1)
    case GetBlock => AskGet(Unpack(s).0)
    case RemoveBlock => AskRemove(Unpack(s).0)
    case BlockSize => AskBlockSize
    case NumFreeBlocks => AskFree
    case _ => AskTotal
  }

  /** A number as its base-256 digits, the lowest first. */
  function NumberBytes(n: nat): Bytes {
    if n == 0 then [] else [n % 256] + NumberBytes(n / 256)
  }

  function ReadNumber(s: Bytes): nat {
    if s == [] then 0 else s[0] + 256 * ReadNumber(s[1..])
  }

  function Result(v: Wire): Bytes {
    match v
    case WireFlag(ok) => if ok then [1] else [0]
    case WireVector(bytes) => bytes
    case WireNumber(n) => NumberBytes(n)
  }

  function ReadResult(op: Operation, s: Bytes): Wire {
    if op.PutBlock? || op.RemoveBlock? then WireFlag(s == [1])
    else if op.GetBlock? || op.Filter? then WireVector(s)
    else WireNumber(ReadNumber(s))
  }

  function Packed(): Marshal {
    Marshal(
      (q: Query) => CanPack(q),
      (q: Query) => Args(q),
      (op: Operation, s: Bytes) => Question(op, s),
      (v: Wire) => Result(v),
      (op: Operation, s: Bytes) => ReadResult(op, s))
  }

  lemma UnpackPacked(key: string, data: Bytes)
    requires NameOk(key) && |data| < TWO32
    ensures Unpack(KeyAndData(key, data)) == (key, data)
  {
    BlobsRead(NameBytes(key), data);
    NameRoundTrip(key);
  }

  lemma {:induction false} NumberRoundTrip(n: nat)
    ensures ReadNumber(NumberBytes(n)) == n
  {
    if n > 0 {
      NumberRoundTrip(n / 256);
      assert NumberBytes(n)[1..] == NumberBytes(n / 256);
    }
  }

  lemma QuestionRoundTrip(q: Query)
    requires CanPack(q)
    ensures Question(OperationOf(q), Args(q)) == q
  {
    match q
    case AskPut(key, data) => UnpackPacked(key, data);
    case AskGet(key) => UnpackPacked(key, []);
    case AskRemove(key) => UnpackPacked(key, []);
    case _ =>
  }

  lemma ResultRoundTrip(op: Operation, v: Wire)
    requires Fits(op, v)
    ensures ReadResult(op, Result(v)) == v
  {
    if v.WireNumber? {
      NumberRoundTrip(v.n);
    }
  }

  /** Packing loses nothing. */
  lemma PackedIsLossless()
    ensures Lossless(Packed())
  {
    var m := Packed();
    forall q | m.ok(q) ensures m.query(OperationOf(q), m.args(q)) == q {
      QuestionRoundTrip(q);
    }
    forall op, v | Fits(op, v) ensures m.wire(op, m.result(v)) == v {
      ResultRoundTrip(op, v);
    }
  }

  /** For any registrations there is a server as the results about sessions ask for. */
  lemma HostExists(regs: seq<(nat, nat)>)
    requires Numbers(regs)
    ensures GoodHost(Host(Setup(Requests(), Responses(), RegisterAll(regs).Keys), Packed(), regs))
  {
    FormatsAreGood(RegisterAll(regs).Keys);
    PackedIsLossless();
  }
}
