/** Block stores behind an RPC server: every store registers its operations under names made of
    the operation and the store's number, and a proxy calls them by those names. */
module RemoteBlockStore {
  import opened Common
  import opened Octets
  import opened Fnv
  import opened Decimal
  import opened BlockStore
  import Bloom

  // ---------- names ----------

  datatype Operation = PutBlock | GetBlock | RemoveBlock | BlockSize | NumFreeBlocks | NumTotalBlocks | Filter

  function NameOf(op: Operation): string {
    match op
    case PutBlock => "putBlock"
    case GetBlock => "getBlock"
    case RemoveBlock => "removeBlock"
    case BlockSize => "blockSize"
    case NumFreeBlocks => "numFreeBlocks"
    case NumTotalBlocks => "numTotalBlocks"
    case Filter => "bloomfilter"
  }

  /** The name is formatted into a buffer that keeps at most 126 characters. */
  function MakeString(str: string, bsid: nat): string {
    var s := str + Numeral(bsid);
    if |s| <= 126 then s else s[..126]
  }

  lemma NoDigits(op: Operation, i: nat)
    requires i < |NameOf(op)|
    ensures !IsDigit(NameOf(op)[i])
  {
  }

  lemma NameFits(op: Operation, bsid: nat)
    requires bsid < TWO64
    ensures MakeString(NameOf(op), bsid) == NameOf(op) + Numeral(bsid)
  {
    assert TWO64 <= Power10(20) by {
      assert Power10(5) == 100000;
      assert Power10(10) == 10000000000;
      assert Power10(15) == 1000000000000000;
      assert Power10(20) == 100000000000000000000;
    }
    NumeralLength(bsid, 20);
    assert |NameOf(op)| <= 14;
  }

  lemma SplitAtDigits(a: string, x: string, b: string, y: string)
    requires a + x == b + y && x != "" && y != "" && AllDigits(x) && AllDigits(y)
    requires forall i :: 0 <= i < |a| ==> !IsDigit(a[i])
    requires forall i :: 0 <= i < |b| ==> !IsDigit(b[i])
    ensures a == b && x == y
  {
    var s := a + x;
    assert IsDigit((a + x)[|a|]) && IsDigit((b + y)[|b|]);
    assert forall i :: 0 <= i < |a| ==> (a + x)[i] == a[i];
    assert forall i :: 0 <= i < |b| ==> (b + y)[i] == b[i];
    assert |a| == |b|;
    assert a == s[..|a|] && b == s[..|b|] && x == s[|a|..] && y == s[|b|..];
  }

  /** Generated names are distinct for distinct operations or stores. */
  lemma NamesAreDistinct(p: Operation, b: nat, q: Operation, c: nat)
    requires b < TWO64 && c < TWO64 && MakeString(NameOf(p), b) == MakeString(NameOf(q), c)
    ensures p == q && b == c
  {
    NameFits(p, b);
    NameFits(q, c);
    forall i | 0 <= i < |NameOf(p)| ensures !IsDigit(NameOf(p)[i]) { NoDigits(p, i); }
    forall i | 0 <= i < |NameOf(q)| ensures !IsDigit(NameOf(q)[i]) { NoDigits(q, i); }
    SplitAtDigits(NameOf(p), Numeral(b), NameOf(q), Numeral(c));
    NumeralRoundTrip(b);
    NumeralRoundTrip(c);
    assert NameOf(p)[0] == NameOf(q)[0] && |NameOf(p)| == |NameOf(q)|;
  }

  // ---------- the server's table ----------

  /** A registered function: an operation bound to one of the server's stores. */
  datatype Handler = Handler(op: Operation, store: nat)

  const OPERATIONS: seq<Operation> :=
    [PutBlock, GetBlock, RemoveBlock, BlockSize, NumFreeBlocks, NumTotalBlocks, Filter]

  function RegisterFrom(table: map<string, Handler>, store: nat, bsid: nat, i: nat): map<string, Handler>
    requires i <= |OPERATIONS|
    decreases |OPERATIONS| - i
  {
    if i == |OPERATIONS| then table
    else RegisterFrom(table[MakeString(NameOf(OPERATIONS[i]), bsid) := Handler(OPERATIONS[i], store)], store, bsid, i + 1)
  }

  function Register(table: map<string, Handler>, store: nat, bsid: nat): map<string, Handler> {
    RegisterFrom(table, store, bsid, 0)
  }

  /** Stores registered one after the other, each as (store, number). */
  function RegisterAll(regs: seq<(nat, nat)>): map<string, Handler> {
    if regs == [] then map[]
    else Register(RegisterAll(regs[..|regs| - 1]), regs[|regs| - 1].0, regs[|regs| - 1].1)
  }

  ghost predicate Numbers(regs: seq<(nat, nat)>) { forall i :: 0 <= i < |regs| ==> regs[i].1 < TWO64 }

  /** The store last registered under a number. */
  function Lookup(regs: seq<(nat, nat)>, bsid: nat): Option<nat> {
    if regs == [] then None
    else if regs[|regs| - 1].1 == bsid then Some(regs[|regs| - 1].0)
    else Lookup(regs[..|regs| - 1], bsid)
  }

  lemma {:induction false} RegisterFromBinds(table: map<string, Handler>, store: nat, bsid: nat, i: nat, op: Operation, b: nat)
    requires i <= |OPERATIONS| && bsid < TWO64 && b < TWO64
    ensures var name, t := MakeString(NameOf(op), b), RegisterFrom(table, store, bsid, i);
      if b == bsid && op in OPERATIONS[i..] then name in t && t[name] == Handler(op, store)
      else name in t <==> name in table
    ensures var name, t := MakeString(NameOf(op), b), RegisterFrom(table, store, bsid, i);
      !(b == bsid && op in OPERATIONS[i..]) && name in t ==> t[name] == table[name]
    decreases |OPERATIONS| - i
  {
    if i < |OPERATIONS| {
      var name := MakeString(NameOf(OPERATIONS[i]), bsid);
      var table' := table[name := Handler(OPERATIONS[i], store)];
      RegisterFromBinds(table', store, bsid, i + 1, op, b);
      if MakeString(NameOf(op), b) == name {
        NamesAreDistinct(op, b, OPERATIONS[i], bsid);
      }
      assert OPERATIONS[i..] == [OPERATIONS[i]] + OPERATIONS[i + 1..];
    }
  }

  lemma EveryOperation(op: Operation)
    ensures op in OPERATIONS[0..]
  {
    assert OPERATIONS[0] == PutBlock && OPERATIONS[1] == GetBlock && OPERATIONS[2] == RemoveBlock;
    assert OPERATIONS[3] == BlockSize && OPERATIONS[4] == NumFreeBlocks && OPERATIONS[5] == NumTotalBlocks;
    assert OPERATIONS[6] == Filter && OPERATIONS[0..] == OPERATIONS;
  }

  /** A name in the table leads to its operation on the store registered under its number, and
      a number never registered has no names. */
  lemma {:induction false} TableIsRight(regs: seq<(nat, nat)>, op: Operation, b: nat)
    requires Numbers(regs) && b < TWO64
    ensures var name, t := MakeString(NameOf(op), b), RegisterAll(regs);
      match Lookup(regs, b)
      case Some(store) => name in t && t[name] == Handler(op, store)
      case None => name !in t
    decreases |regs|
  {
    if regs != [] {
      var front, last := regs[..|regs| - 1], regs[|regs| - 1];
      TableIsRight(front, op, b);
      EveryOperation(op);
      RegisterFromBinds(RegisterAll(front), last.0, last.1, 0, op, b);
    }
  }

  // ---------- calls ----------

  /** What a caller asks of a block store. */
  datatype Query =
    | AskPut(key: string, data: Bytes)
    | AskGet(key: string)
    | AskRemove(key: string)
    | AskBlockSize
    | AskFree
    | AskTotal

  /** What the system calls behind the operation answer. */
  datatype Env = Env(canOpen: bool, written: int, readable: bool, unlinked: bool, disk: Disk)

  datatype Answer = Flag(ok: bool) | Block(block: Option<Bytes>) | Number(n: nat)

  /** What travels back: a block is sent as a vector, an empty one standing for no block. */
  datatype Wire = WireFlag(ok: bool) | WireVector(bytes: Bytes) | WireNumber(n: nat)

  ghost predicate Sensible(q: Query, env: Env) { q.AskPut? ==> WriteResult(q.data, env.written) }

  function OperationOf(q: Query): Operation {
    match q
    case AskPut(_, _) => PutBlock
    case AskGet(_) => GetBlock
    case AskRemove(_) => RemoveBlock
    case AskBlockSize => BlockSize
    case AskFree => NumFreeBlocks
    case AskTotal => NumTotalBlocks
  }

  /** The call made directly on the store. */
  ghost function Local(s: Store, q: Query, env: Env): (Store, Answer)
    requires Indexed(s) && Sensible(q, env)
  {
    match q
    case AskPut(key, data) =>
      var (t, ok) := Put(s, key, data, env.canOpen, env.written); (t, Flag(ok))
    case AskGet(key) => (s, Block(Get(s, key, env.readable)))
    case AskRemove(key) =>
      var (t, ok) := Remove(s, key, env.unlinked, env.disk); (t, Flag(ok))
    case AskBlockSize => (s, Number(s.blocksize))
    case AskFree => (s, Number(s.free))
    case AskTotal => (s, Number(TotalBlocks(s)))
  }

  function ToWire(a: Answer): Wire {
    match a
    case Flag(ok) => WireFlag(ok)
    case Block(None) => WireVector([])
    case Block(Some(b)) => WireVector(b)
    case Number(n) => WireNumber(n)
  }

  function FromWire(w: Wire): Answer {
    match w
    case WireFlag(ok) => Flag(ok)
    case WireVector(v) => Block(if |v| == 0 then None else Some(v))
    case WireNumber(n) => Number(n)
  }

  /** The kind of result that an operation sends back. */
  predicate Fits(op: Operation, v: Wire) {
    match op
    case PutBlock => v.WireFlag?
    case RemoveBlock => v.WireFlag?
    case GetBlock => v.WireVector?
    case Filter => v.WireVector?
    case _ => v.WireNumber?
  }

  /** What the caller of an aborted call gets: the empty value of the result type. */
  function Aborted(q: Query): Answer {
    match q
    case AskPut(_, _) => Flag(false)
    case AskRemove(_) => Flag(false)
    case AskGet(_) => Block(None)
    case _ => Number(0)
  }

  lemma LocalKeepsIndex(s: Store, q: Query, env: Env)
    requires Indexed(s) && Sensible(q, env)
    ensures Indexed(Local(s, q, env).0)
  {
    match q
    case AskPut(key, data) => IndexedKept(s, DoPut(key, data, env.canOpen, env.written));
    case AskRemove(key) => IndexedKept(s, DoRemove(key, env.unlinked, env.disk));
    case _ =>
  }

  /** A block never reads as an empty vector, so nothing is lost on the wire. */
  lemma WireRoundTrip(s: Store, q: Query, env: Env)
    requires Indexed(s) && Sensible(q, env)
    ensures FromWire(ToWire(Local(s, q, env).1)) == Local(s, q, env).1
    ensures Fits(OperationOf(q), ToWire(Local(s, q, env).1))
  {
  }

  // ---------- arguments and results as bytes ----------

  /** How arguments and results are packed. Unpacking needs to know the operation. */
  datatype Marshal = Marshal(
    ok: Query -> bool,
    args: Query -> Bytes,
    query: (Operation, Bytes) -> Query,
    result: Wire -> Bytes,
    wire: (Operation, Bytes) -> Wire)

  ghost predicate Lossless(m: Marshal) {
    && (forall q :: m.ok(q) ==> m.query(OperationOf(q), m.args(q)) == q)
    && (forall op, v :: Fits(op, v) ==> m.wire(op, m.result(v)) == v)
  }

  /** What the proxy makes of a reply, or of an abort. */
  function Returned(m: Marshal, q: Query, reply: Option<Bytes>): Answer {
    match reply
    case None => Aborted(q)
    case Some(bytes) => FromWire(m.wire(OperationOf(q), bytes))
  }

  /** What the questions mean, by what the store does and holds. */
  lemma LocalMeans(s: Store, q: Query, env: Env)
    requires Indexed(s) && Sensible(q, env)
    ensures q.AskPut? ==>
      var (t, ok) := Put(s, q.key, q.data, env.canOpen, env.written); Local(s, q, env) == (t, Flag(ok))
    ensures q.AskRemove? ==>
      var (t, ok) := Remove(s, q.key, env.unlinked, env.disk); Local(s, q, env) == (t, Flag(ok))
    ensures q.AskGet? ==> Local(s, q, env) == (s, Block(Get(s, q.key, env.readable)))
    ensures q.AskBlockSize? ==> Local(s, q, env) == (s, Number(s.blocksize))
    ensures q.AskFree? ==> Local(s, q, env) == (s, Number(s.free))
    ensures q.AskTotal? ==> Local(s, q, env) == (s, Number((s.used + s.free) % 0x1_0000_0000))
  {
  }

  /** One call, from the proxy to the store and back: under a registered number the server finds
      the operation and the store and unpacks the question as it was asked, and the proxy returns
      whether the put or removal succeeded, the block that the store's getBlock returns, or the
      store's number. Under any other number the server finds nothing. */
  lemma CallRoundTrip(m: Marshal, regs: seq<(nat, nat)>, bsid: nat, q: Query, s: Store, env: Env)
    requires Lossless(m) && Numbers(regs) && bsid < TWO64 && m.ok(q) && Indexed(s) && Sensible(q, env)
    ensures var name, table := MakeString(NameOf(OperationOf(q)), bsid), RegisterAll(regs);
      match Lookup(regs, bsid)
      case Some(p) => name in table && table[name].store == p && m.query(table[name].op, m.args(q)) == q
      case None => name !in table
    ensures var answer := Returned(m, q, Some(m.result(ToWire(Local(s, q, env).1))));
      match q
      case AskPut(key, data) => answer == Flag(Put(s, key, data, env.canOpen, env.written).1)
      case AskGet(key) => answer == Block(Get(s, key, env.readable))
      case AskRemove(key) => answer == Flag(key in s.files && env.unlinked)
      case AskBlockSize => answer == Number(s.blocksize)
      case AskFree => answer == Number(s.free)
      case AskTotal => answer == Number((s.used + s.free) % 0x1_0000_0000)
  {
    TableIsRight(regs, OperationOf(q), bsid);
    WireRoundTrip(s, q, env);
  }

  // ---------- the filter ----------

  /** The proxy's bloomfilter() discards the reply and returns a fresh filter. */
  ghost function RemoteFilter(s: Store): Bloom.Filter { Bloom.Empty(Bloom.DEFAULT_SIZE, 0) }

  /** So it is the store's filter exactly when the store has no blocks. */
  lemma RemoteFilterOnlyWhenEmpty(s: Store)
    requires Indexed(s)
    ensures RemoteFilter(s) == s.bloom <==> s.blockset == {}
  {
    if s.blockset == {} {
      EmptyRepresents();
      Bloom.SameKeysSameFilter(RemoteFilter(s), s.bloom, {});
    } else {
      var k :| k in s.blockset;
      var p := Bloom.Probe(s.bloom.seed, s.bloom.size, k, 0);
      assert p in Bloom.ProbeSet(s.bloom.seed, s.bloom.size, k);
      assert Bloom.Bit(s.bloom.bytes, p);
      Bloom.EmptyMeans(Bloom.DEFAULT_SIZE, 0, p);
    }
  }
}
