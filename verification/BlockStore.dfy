/** A block store over a directory of files: what put, get, remove and the rebuild of the index
    do to the directory, the Bloom filter, the set of block names and the counters. What the
    operating system answers is an argument. */
module BlockStore {
  import opened Common
  import opened Octets
  import opened Fnv
  import opened Bloom

  /** `files` is the directory; names do not contain a slash. */
  datatype Store = Store(
    blocksize: nat,
    files: map<string, Bytes>,
    bloom: Filter,
    blockset: set<string>,
    free: nat,
    used: nat)

  /** What statfs reports as free blocks, if it succeeds, and whether the directory opens. */
  datatype Disk = Disk(free: Option<nat>, listed: bool)

  /** Names that denote a directory and cannot be opened or unlinked as a file. */
  predicate IsDirectory(key: string) { key == "" || key == "." || key == ".." }

  /** Names that a rebuild skips. */
  predicate Hidden(key: string) { key != "" && key[0] == '.' }

  ghost function Visible(files: map<string, Bytes>): set<string> {
    set k | k in files && !Hidden(k)
  }

  /** The filter built from scratch from a set of names. */
  ghost function IndexOf(keys: set<string>): (f: Filter)
    ensures f.seed == 0 && f.size == DEFAULT_SIZE && Represents(f, keys)
    decreases |keys|
  {
    if keys == {} then
      EmptyRepresents();
      Empty(DEFAULT_SIZE, 0)
    else
      var k :| k in keys;
      SetRepresents(IndexOf(keys - {k}), keys - {k}, k);
      assert keys - {k} + {k} == keys;
      Set(IndexOf(keys - {k}), k)
  }

  lemma EmptyRepresents()
    ensures Represents(Empty(DEFAULT_SIZE, 0), {})
  {
    forall p ensures !Bit(Empty(DEFAULT_SIZE, 0).bytes, p) {
      EmptyMeans(DEFAULT_SIZE, 0, p);
    }
  }

  /** Adding one name to the index is what a rebuild with that name gives, in any order. */
  lemma IndexOfMore(keys: set<string>, k: string)
    ensures Set(IndexOf(keys), k) == IndexOf(keys + {k})
  {
    SetRepresents(IndexOf(keys), keys, k);
    SameKeysSameFilter(Set(IndexOf(keys), k), IndexOf(keys + {k}), keys + {k});
  }

  // ---------- operations ----------

  /** The put gets as far as opening, and thereby truncating, the file. */
  ghost predicate Opened(s: Store, key: string, canOpen: bool) {
    s.free > 0 && canOpen && !IsDirectory(key)
  }

  /** Only a write of exactly one block counts as success. */
  ghost predicate Succeeds(s: Store, key: string, data: Bytes, canOpen: bool, written: int) {
    Opened(s, key, canOpen) && |data| <= s.blocksize && written == s.blocksize
  }

  ghost predicate WriteResult(data: Bytes, written: int) { -1 <= written <= |data| }

  ghost function Content(s: Store, data: Bytes, written: int): Bytes
    requires WriteResult(data, written)
  {
    if |data| > s.blocksize || written < 0 then [] else data[..written]
  }

  ghost function Put(s: Store, key: string, data: Bytes, canOpen: bool, written: int): (Store, bool)
    requires WellFormed(s.bloom) && s.bloom.size > 0 && WriteResult(data, written)
  {
    if !Opened(s, key, canOpen) then (s, false)
    else
      var s' := s.(files := s.files[key := Content(s, data, written)]);
      if !Succeeds(s, key, data, canOpen, written) then (s', false)
      else (s'.(free := s.free - 1, used := (s.used + 1) % TWO32,
                bloom := Set(s.bloom, key), blockset := s.blockset + {key}), true)
  }

  /** A read of at most one block; an empty file reads as no block. */
  ghost function Get(s: Store, key: string, readable: bool): Option<Bytes> {
    if key !in s.files || !readable then None
    else
      var n := if |s.files[key]| < s.blocksize then |s.files[key]| else s.blocksize;
      if n == 0 then None else Some(s.files[key][..n])
  }

  ghost function Regenerate(s: Store, disk: Disk): Store {
    var names := if disk.listed then Visible(s.files) else {};
    s.(bloom := IndexOf(names), blockset := names,
       free := if disk.free.Some? then disk.free.value % TWO32 else 0,
       used := |names| % TWO32)
  }

  ghost function Remove(s: Store, key: string, unlinked: bool, disk: Disk): (Store, bool) {
    if key in s.files && unlinked then (Regenerate(s.(files := s.files - {key}), disk), true)
    else (s, false)
  }

  datatype Op =
    | DoPut(key: string, data: Bytes, canOpen: bool, written: int)
    | DoRemove(key: string, unlinked: bool, disk: Disk)
    | DoRegenerate(disk: Disk)

  ghost predicate Possible(op: Op) { op.DoPut? ==> WriteResult(op.data, op.written) }

  // ---------- the index equals a rebuild ----------

  /** The filter's bytes are those built from scratch from the block set. */
  ghost predicate Indexed(s: Store) {
    s.bloom == IndexOf(s.blockset) && s.free < TWO32 && s.used < TWO32
  }

  ghost function Step(s: Store, op: Op): Store
    requires Indexed(s) && Possible(op)
  {
    match op
    case DoPut(key, data, canOpen, written) => Put(s, key, data, canOpen, written).0
    case DoRemove(key, unlinked, disk) => Remove(s, key, unlinked, disk).0
    case DoRegenerate(disk) => Regenerate(s, disk)
  }

  lemma IndexedKept(s: Store, op: Op)
    requires Indexed(s) && Possible(op)
    ensures Indexed(Step(s, op))
  {
    if op.DoPut? {
      IndexOfMore(s.blockset, op.key);
    }
  }

  ghost predicate PossibleRun(ops: seq<Op>) { forall i :: 0 <= i < |ops| ==> Possible(ops[i]) }

  /** The store after a run. Incremental index equals rebuild: in every state that a run reaches,
      after successful and failed puts alike, the filter is the one built from scratch from the
      block set, whatever the order of the rebuild. */
  ghost function After(s: Store, ops: seq<Op>): (t: Store)
    requires Indexed(s) && PossibleRun(ops)
    ensures Indexed(t)
    decreases |ops|
  {
    if ops == [] then s
    else
      assert Possible(ops[0]);
      IndexedKept(s, ops[0]);
      After(Step(s, ops[0]), ops[1..])
  }

  /** No block in the set is ever denied by the filter. */
  lemma NoFalseNegatives(s: Store, ops: seq<Op>, key: string)
    requires Indexed(s) && PossibleRun(ops) && key in After(s, ops).blockset
    ensures MayContain(After(s, ops).bloom, key)
  {
    MayContainMeans(After(s, ops).bloom, After(s, ops).blockset, key);
  }

  // ---------- the index and the directory ----------

  ghost predicate Agrees(s: Store) { s.blockset == Visible(s.files) }

  /** When an operation keeps the block set in step with the directory. */
  ghost predicate KeepsAgreement(s: Store, op: Op) {
    match op
    case DoPut(key, data, canOpen, written) =>
      || !Opened(s, key, canOpen)
      || (if Succeeds(s, key, data, canOpen, written) then !Hidden(key) else Hidden(key) || key in s.blockset)
    case DoRemove(key, unlinked, disk) =>
      key in s.files && unlinked ==> disk.listed || Visible(s.files - {key}) == {}
    case DoRegenerate(disk) => disk.listed || Visible(s.files) == {}
  }

  /** An operation keeps the agreement exactly under that condition. */
  lemma AgreementStep(s: Store, op: Op)
    requires Indexed(s) && Possible(op) && Agrees(s)
    ensures Agrees(Step(s, op)) <==> KeepsAgreement(s, op)
  {
    if op.DoPut? {
      var key, t := op.key, Step(s, op);
      if Opened(s, key, op.canOpen) {
        assert Visible(t.files) == if Hidden(key) then Visible(s.files) else Visible(s.files) + {key};
        assert Hidden(key) ==> key !in s.blockset;
        if Hidden(key) && key in t.blockset {
          assert key !in Visible(t.files);
        }
      }
    }
  }

  ghost predicate AlwaysAgrees(s: Store, ops: seq<Op>)
    requires Indexed(s) && PossibleRun(ops)
    decreases |ops|
  {
    Agrees(s) && (ops != [] ==>
      assert Possible(ops[0]); IndexedKept(s, ops[0]);
      AlwaysAgrees(Step(s, ops[0]), ops[1..]))
  }

  ghost predicate AllKeepAgreement(s: Store, ops: seq<Op>)
    requires Indexed(s) && PossibleRun(ops)
    decreases |ops|
  {
    ops != [] ==>
      assert Possible(ops[0]); IndexedKept(s, ops[0]);
      KeepsAgreement(s, ops[0]) && AllKeepAgreement(Step(s, ops[0]), ops[1..])
  }

  /** The block set matches the directory all along a run exactly when every operation of the
      run meets its condition; full-size puts of visible names with working I/O do. */
  lemma {:induction false} IndexMatchesDirectory(s: Store, ops: seq<Op>)
    requires Indexed(s) && PossibleRun(ops) && Agrees(s)
    ensures AlwaysAgrees(s, ops) <==> AllKeepAgreement(s, ops)
    decreases |ops|
  {
    if ops != [] {
      assert Possible(ops[0]);
      IndexedKept(s, ops[0]);
      AgreementStep(s, ops[0]);
      if KeepsAgreement(s, ops[0]) {
        IndexMatchesDirectory(Step(s, ops[0]), ops[1..]);
      }
    }
  }

  // ---------- what get returns ----------

  /** A put that either succeeds or does not reach the file. */
  ghost predicate Clean(s: Store, op: Op) {
    op.DoPut? && Opened(s, op.key, op.canOpen) ==> Succeeds(s, op.key, op.data, op.canOpen, op.written)
  }

  ghost predicate CleanRun(s: Store, ops: seq<Op>)
    requires Indexed(s) && PossibleRun(ops)
    decreases |ops|
  {
    ops != [] ==>
      assert Possible(ops[0]); IndexedKept(s, ops[0]);
      Clean(s, ops[0]) && CleanRun(Step(s, ops[0]), ops[1..])
  }

  /** The last bytes put under each name and not removed since, judged by the results alone. */
  ghost function Contents(s: Store, blocks: map<string, Bytes>, op: Op): map<string, Bytes>
    requires Indexed(s) && Possible(op)
  {
    match op
    case DoPut(key, data, canOpen, written) =>
      if Put(s, key, data, canOpen, written).1 then blocks[key := data] else blocks
    case DoRemove(key, unlinked, disk) =>
      if Remove(s, key, unlinked, disk).1 then blocks - {key} else blocks
    case DoRegenerate(_) => blocks
  }

  ghost function LastPut(s: Store, blocks: map<string, Bytes>, ops: seq<Op>): map<string, Bytes>
    requires Indexed(s) && PossibleRun(ops)
    decreases |ops|
  {
    if ops == [] then blocks
    else
      assert Possible(ops[0]);
      IndexedKept(s, ops[0]);
      LastPut(Step(s, ops[0]), Contents(s, blocks, ops[0]), ops[1..])
  }

  ghost predicate WholeBlocks(s: Store) {
    forall k :: k in s.files ==> |s.files[k]| == s.blocksize
  }

  lemma CleanStep(s: Store, op: Op)
    requires Indexed(s) && Possible(op) && Clean(s, op) && WholeBlocks(s)
    ensures var t := Step(s, op);
      t.files == Contents(s, s.files, op) && WholeBlocks(t) && t.blocksize == s.blocksize
  {
    if op.DoPut? && Opened(s, op.key, op.canOpen) {
      assert op.data[..op.written] == op.data;
    }
  }

  lemma GetWhole(s: Store, key: string)
    requires WholeBlocks(s) && s.blocksize > 0
    ensures Get(s, key, true) == if key in s.files then Some(s.files[key]) else None
  {
    if key in s.files {
      assert s.files[key][..s.blocksize] == s.files[key];
    }
  }

  /** Reading back: along every clean run get returns the bytes last put and not removed. */
  lemma {:induction false} GetReturnsLastPut(s: Store, ops: seq<Op>, key: string)
    requires Indexed(s) && PossibleRun(ops) && CleanRun(s, ops) && WholeBlocks(s) && s.blocksize > 0
    ensures var blocks := LastPut(s, s.files, ops);
      Get(After(s, ops), key, true) == if key in blocks then Some(blocks[key]) else None
    decreases |ops|
  {
    if ops != [] {
      assert Possible(ops[0]);
      IndexedKept(s, ops[0]);
      CleanStep(s, ops[0]);
      GetReturnsLastPut(Step(s, ops[0]), ops[1..], key);
    } else {
      GetWhole(s, key);
    }
  }

  /** Full-size puts of visible names, written completely, and a directory that can be listed. */
  ghost predicate Ordinary(blocksize: nat, op: Op) {
    match op
    case DoPut(key, data, canOpen, written) => |data| == blocksize == written && !Hidden(key)
    case DoRemove(_, _, disk) => disk.listed
    case DoRegenerate(disk) => disk.listed
  }

  ghost predicate OrdinaryRun(blocksize: nat, ops: seq<Op>) {
    forall i :: 0 <= i < |ops| ==> Ordinary(blocksize, ops[i])
  }

  lemma {:induction false} OrdinaryMeetsConditions(s: Store, ops: seq<Op>)
    requires Indexed(s) && PossibleRun(ops) && OrdinaryRun(s.blocksize, ops)
    ensures AllKeepAgreement(s, ops) && CleanRun(s, ops)
    decreases |ops|
  {
    if ops != [] {
      assert Possible(ops[0]) && Ordinary(s.blocksize, ops[0]);
      IndexedKept(s, ops[0]);
      OrdinaryMeetsConditions(Step(s, ops[0]), ops[1..]);
    }
  }

  /** On ordinary runs filter, block set and directory agree throughout, and get returns the
      bytes last put and not removed. */
  lemma OrdinaryRunsAgree(s: Store, ops: seq<Op>, key: string)
    requires Indexed(s) && PossibleRun(ops) && OrdinaryRun(s.blocksize, ops)
    requires Agrees(s) && WholeBlocks(s) && s.blocksize > 0
    ensures AlwaysAgrees(s, ops)
    ensures var blocks := LastPut(s, s.files, ops);
      Get(After(s, ops), key, true) == if key in blocks then Some(blocks[key]) else None
  {
    OrdinaryMeetsConditions(s, ops);
    IndexMatchesDirectory(s, ops);
    GetReturnsLastPut(s, ops, key);
  }

  /** A put that fails after opening the file reports failure and yet replaces the block: what
      is read back is the part that was written, or nothing. */
  lemma FailedPutClobbers(s: Store, key: string, data: Bytes, written: int)
    requires Indexed(s) && WriteResult(data, written) && Opened(s, key, true)
    requires !Succeeds(s, key, data, true, written)
    ensures var (t, ok) := Put(s, key, data, true, written);
      && !ok && t.blockset == s.blockset
      && Get(t, key, true) == if |data| > s.blocksize || written <= 0 then None else Some(data[..written])
  {
    var (t, ok) := Put(s, key, data, true, written);
    if |data| <= s.blocksize && written > 0 {
      assert t.files[key] == data[..written];
      assert t.files[key][..|t.files[key]|] == data[..written];
    }
  }

  // ---------- counters ----------

  function TotalBlocks(s: Store): nat { (s.used + s.free) % TWO32 }

  lemma ModuloSum(a: nat, b: nat)
    ensures (a % TWO32 + b) % TWO32 == (a + b) % TWO32
  {
    var q := a / TWO32;
    assert a % TWO32 + b == a + b - TWO32 * q;
  }

  lemma PutKeepsTotal(s: Store, op: Op)
    requires Indexed(s) && Possible(op) && op.DoPut?
    ensures TotalBlocks(Step(s, op)) == TotalBlocks(s)
  {
    if Succeeds(s, op.key, op.data, op.canOpen, op.written) {
      ModuloSum(s.used + 1, s.free - 1);
    }
  }

  /** Conservation: no run of puts, successful or not, changes the total number of blocks. */
  lemma {:induction false} PutsKeepTotal(s: Store, ops: seq<Op>)
    requires Indexed(s) && PossibleRun(ops) && forall i :: 0 <= i < |ops| ==> ops[i].DoPut?
    ensures TotalBlocks(After(s, ops)) == TotalBlocks(s)
    decreases |ops|
  {
    if ops != [] {
      assert Possible(ops[0]) && ops[0].DoPut?;
      IndexedKept(s, ops[0]);
      PutKeepsTotal(s, ops[0]);
      PutsKeepTotal(Step(s, ops[0]), ops[1..]);
    }
  }

  /** How many times a stored block has been overwritten since the last rebuild, d before. */
  ghost function Overwritten(s: Store, d: nat, op: Op): nat
    requires Indexed(s) && Possible(op)
  {
    match op
    case DoPut(key, data, canOpen, written) =>
      if Succeeds(s, key, data, canOpen, written) && key in s.blockset then d + 1 else d
    case DoRemove(key, unlinked, _) => if key in s.files && unlinked then 0 else d
    case DoRegenerate(_) => 0
  }

  ghost function Overwrites(s: Store, d: nat, ops: seq<Op>): nat
    requires Indexed(s) && PossibleRun(ops)
    decreases |ops|
  {
    if ops == [] then d
    else
      assert Possible(ops[0]);
      IndexedKept(s, ops[0]);
      Overwrites(Step(s, ops[0]), Overwritten(s, d, ops[0]), ops[1..])
  }

  lemma CountStep(s: Store, d: nat, op: Op)
    requires Indexed(s) && Possible(op) && s.used == (|s.blockset| + d) % TWO32
    ensures var t := Step(s, op); t.used == (|t.blockset| + Overwritten(s, d, op)) % TWO32
  {
    if op.DoPut? && Succeeds(s, op.key, op.data, op.canOpen, op.written) {
      ModuloSum(|s.blockset| + d, 1);
      assert op.key in s.blockset ==> s.blockset + {op.key} == s.blockset;
    }
  }

  lemma {:induction false} CountRun(s: Store, d: nat, ops: seq<Op>)
    requires Indexed(s) && PossibleRun(ops) && s.used == (|s.blockset| + d) % TWO32
    ensures After(s, ops).used == (|After(s, ops).blockset| + Overwrites(s, d, ops)) % TWO32
    decreases |ops|
  {
    if ops != [] {
      assert Possible(ops[0]);
      IndexedKept(s, ops[0]);
      CountStep(s, d, ops[0]);
      CountRun(Step(s, ops[0]), Overwritten(s, d, ops[0]), ops[1..]);
    }
  }

  /** The used counter drifts: in every run it is off by the number of overwrites since the last
      rebuild, so it counts the blocks exactly when that number is 0 modulo 2^32. */
  lemma UsedCountsBlocks(s: Store, ops: seq<Op>)
    requires Indexed(s) && PossibleRun(ops) && s.used == |s.blockset| % TWO32
    ensures var t, d := After(s, ops), Overwrites(s, 0, ops);
      && t.used == (|t.blockset| + d) % TWO32
      && (t.used == |t.blockset| % TWO32 <==> d % TWO32 == 0)
  {
    CountRun(s, 0, ops);
    DriftShows(After(s, ops).used, |After(s, ops).blockset|, Overwrites(s, 0, ops));
  }

  lemma DriftShows(used: nat, n: nat, d: nat)
    requires used == (n + d) % TWO32
    ensures used == n % TWO32 <==> d % TWO32 == 0
  {
    var p, q := n / TWO32, (n + d) / TWO32;
    assert used - n % TWO32 == d - TWO32 * (q - p);
  }

  // ---------- results ----------

  /** What a get returns: the first bytes of the file, one block of them at most, and nothing when
      there are none, when there is no such file or when it cannot be read. */
  lemma GetMeans(s: Store, key: string, readable: bool)
    ensures Get(s, key, readable).Some? <==> readable && key in s.files && s.files[key] != [] && s.blocksize > 0
    ensures Get(s, key, readable).Some? ==>
      var block := Get(s, key, readable).value;
      && block <= s.files[key] && |block| <= s.blocksize
      && (|block| == s.blocksize || block == s.files[key])
  {
    if key in s.files {
      assert s.files[key][..|s.files[key]|] == s.files[key];
    }
  }

  /** When a put reports success, and what one does that does not even open the file. */
  lemma PutSucceedsExactly(s: Store, key: string, data: Bytes, canOpen: bool, written: int)
    requires Indexed(s) && WriteResult(data, written)
    ensures Put(s, key, data, canOpen, written).1 <==>
      && s.free > 0 && canOpen && key != "" && key != "." && key != ".."
      && |data| <= s.blocksize && written == s.blocksize
    ensures s.free == 0 || !canOpen || key == "" || key == "." || key == ".." ==>
      Put(s, key, data, canOpen, written) == (s, false)
  {
  }

  /** What a removal does: it succeeds on a file that is there if unlinking works, and then that
      file alone is gone. */
  lemma RemoveMeans(s: Store, key: string, unlinked: bool, disk: Disk, other: string)
    ensures Remove(s, key, unlinked, disk).1 <==> key in s.files && unlinked
    ensures var (t, ok) := Remove(s, key, unlinked, disk);
      && (ok ==> Get(t, key, true) == None) && (!ok ==> t == s)
      && (other != key ==> Get(t, other, true) == Get(s, other, true))
  {
  }

  /** A name can be removed once it has been put, and is gone then; other blocks stay. */
  lemma PutThenRemove(s: Store, key: string, data: Bytes, written: int, disk: Disk, other: string)
    requires Indexed(s) && WriteResult(data, written) && Put(s, key, data, true, written).1
    ensures var t := Remove(Put(s, key, data, true, written).0, key, true, disk);
      && t.1 && Get(t.0, key, true) == None && !Remove(t.0, key, true, disk).1
      && (other != key ==> Get(t.0, other, true) == Get(s, other, true))
  {
    var t := Put(s, key, data, true, written).0;
    assert key in t.files;
    RemoveMeans(t, key, true, disk, other);
    RemoveMeans(Remove(t, key, true, disk).0, key, true, disk, other);
    assert other != key ==> Get(t, other, true) == Get(s, other, true);
  }

  /** A rebuild indexes the names in the directory that do not start with a dot, if it can list
      the directory, and takes the number of free blocks from the file system. */
  lemma RebuildMeans(s: Store, disk: Disk, name: string)
    ensures var t := Regenerate(s, disk);
      && (name in t.blockset <==> disk.listed && name in s.files && (name == "" || name[0] != '.'))
      && (disk.free.Some? && disk.free.value < 0x1_0000_0000 ==> t.free == disk.free.value)
      && (disk.free.None? ==> t.free == 0)
      && t.files == s.files && Indexed(t)
  {
  }

  /** Blocks to be put one after the other, as (name, bytes). */
  type Puts = seq<(string, Bytes)>

  ghost predicate FullSize(blocksize: nat, puts: Puts) {
    forall i :: 0 <= i < |puts| ==>
      |puts[i].1| == blocksize && puts[i].0 != "" && puts[i].0 != "." && puts[i].0 != ".."
  }

  /** The store after the puts when every open and write works, and what each reported. */
  ghost function PutAll(s: Store, puts: Puts): (Store, seq<bool>)
    requires Indexed(s)
    decreases |puts|
  {
    if puts == [] then (s, [])
    else
      var op := DoPut(puts[0].0, puts[0].1, true, |puts[0].1|);
      IndexedKept(s, op);
      var (t, ok) := Put(s, op.key, op.data, true, op.written);
      var (end, oks) := PutAll(t, puts[1..]);
      (end, [ok] + oks)
  }

  /** The last bytes among the first n puts under a name. */
  ghost function LastAmong(puts: Puts, n: nat, key: string): Option<Bytes>
    requires n <= |puts|
    decreases n
  {
    if n == 0 then None
    else if puts[n - 1].0 == key then Some(puts[n - 1].1)
    else LastAmong(puts, n - 1, key)
  }

  lemma FullPut(s: Store, key: string, data: Bytes)
    requires Indexed(s) && |data| == s.blocksize && key != "" && key != "." && key != ".."
    ensures var (t, ok) := Put(s, key, data, true, |data|);
      && (ok <==> s.free > 0) && t.blocksize == s.blocksize && TotalBlocks(t) == TotalBlocks(s)
      && Indexed(t) && t.free == (if ok then s.free - 1 else 0)
      && t.files == if ok then s.files[key := data] else s.files
  {
    var op := DoPut(key, data, true, |data|);
    IndexedKept(s, op);
    PutKeepsTotal(s, op);
    assert data[..|data|] == data;
  }

  lemma {:induction false} LastAmongShift(puts: Puts, n: nat, key: string)
    requires 0 < n <= |puts|
    ensures LastAmong(puts, n, key) ==
      var rest := LastAmong(puts[1..], n - 1, key);
      if rest.Some? then rest else if puts[0].0 == key then Some(puts[0].1) else None
    decreases n
  {
    if n > 1 {
      assert puts[1..][n - 2] == puts[n - 1];
      LastAmongShift(puts, n - 1, key);
    }
  }

  ghost function Smaller(a: nat, b: nat): nat { if a < b then a else b }

  lemma {:induction false} PutAllMeans(s: Store, puts: Puts, key: string)
    requires Indexed(s) && FullSize(s.blocksize, puts)
    ensures var (t, oks) := PutAll(s, puts); var last := LastAmong(puts, Smaller(s.free, |puts|), key);
      && |oks| == |puts| && (forall i :: 0 <= i < |puts| ==> (oks[i] <==> i < s.free))
      && TotalBlocks(t) == TotalBlocks(s) && t.blocksize == s.blocksize
      && (last.Some? ==> key in t.files && t.files[key] == last.value)
    ensures var (t, oks) := PutAll(s, puts); var last := LastAmong(puts, Smaller(s.free, |puts|), key);
      last.None? ==> (key in t.files <==> key in s.files) && (key in s.files ==> t.files[key] == s.files[key])
    decreases |puts|
  {
    if puts != [] {
      var (name, data) := puts[0];
      assert |data| == s.blocksize && name != "" && name != "." && name != "..";
      FullPut(s, name, data);
      var t := Put(s, name, data, true, |data|).0;
      PutAllMeans(t, puts[1..], key);
      if s.free > 0 {
        assert Smaller(s.free, |puts|) == Smaller(t.free, |puts[1..]|) + 1;
        LastAmongShift(puts, Smaller(s.free, |puts|), key);
      }
    }
  }

  /** Puts by their results: on a store opened with n free blocks, of any full-size puts whose
      opens and writes work exactly the first n report success, getBlock then returns the bytes
      last put by those, and the total is n plus the number of visible files. */
  lemma FirstPutsSucceed(s: Store, n: nat, puts: Puts, key: string)
    requires n < 0x1_0000_0000 && FullSize(s.blocksize, puts) && s.blocksize > 0
    ensures var start := Regenerate(s, Disk(Some(n), true));
      && Indexed(start)
      && var (t, oks) := PutAll(start, puts);
      && |oks| == |puts| && (forall i :: 0 <= i < |puts| ==> (oks[i] <==> i < n))
      && TotalBlocks(t) == (n + |set k | k in s.files && (k == "" || k[0] != '.')|) % 0x1_0000_0000
      && var last := LastAmong(puts, Smaller(n, |puts|), key);
      && Get(t, key, true) == if last.Some? then last else Get(s, key, true)
  {
    var start := Regenerate(s, Disk(Some(n), true));
    RebuildMeans(s, Disk(Some(n), true), key);
    RebuildTotal(s, n);
    PutAllMeans(start, puts, key);
    LastIsFull(puts, Smaller(n, |puts|), key, s.blocksize);
    ReadsHeld(PutAll(start, puts).0, s, LastAmong(puts, Smaller(n, |puts|), key), key);
  }

  lemma RebuildTotal(s: Store, n: nat)
    requires n < 0x1_0000_0000
    ensures TotalBlocks(Regenerate(s, Disk(Some(n), true))) ==
      (n + |set k | k in s.files && (k == "" || k[0] != '.')|) % 0x1_0000_0000
  {
    assert Visible(s.files) == set k | k in s.files && (k == "" || k[0] != '.');
    var v, start := |Visible(s.files)|, Regenerate(s, Disk(Some(n), true));
    assert start.used == v % TWO32 && start.free == n;
    ModuloSum(v, n);
  }

  /** Reading a file that holds one whole block, or one that was not changed. */
  lemma ReadsHeld(t: Store, s: Store, last: Option<Bytes>, key: string)
    requires t.blocksize == s.blocksize > 0
    requires last.Some? ==> key in t.files && t.files[key] == last.value && |last.value| == s.blocksize
    requires last.None? ==> (key in t.files <==> key in s.files) && (key in s.files ==> t.files[key] == s.files[key])
    ensures Get(t, key, true) == if last.Some? then last else Get(s, key, true)
  {
    if last.Some? {
      assert t.files[key][..s.blocksize] == t.files[key];
    }
  }

  lemma {:induction false} LastIsFull(puts: Puts, n: nat, key: string, blocksize: nat)
    requires n <= |puts| && FullSize(blocksize, puts)
    ensures LastAmong(puts, n, key).Some? ==> |LastAmong(puts, n, key).value| == blocksize
    decreases n
  {
    if n > 0 {
      LastIsFull(puts, n - 1, key, blocksize);
    }
  }
}
