/** The heap-and-clock cache against the simplest least-recently-used cache there is: a list of
    items, oldest first. */
module LruRefinement {
  import opened Common
  import opened Octets
  import opened Heap
  import opened LruCache

  // ---------- the reference ----------

  datatype Item = Item(key: string, data: Bytes)

  function Find(l: seq<Item>, key: string): (i: nat)
    ensures i <= |l|
    ensures i < |l| ==> l[i].key == key
    ensures forall j :: 0 <= j < i ==> l[j].key != key
  {
    if l == [] then 0 else if l[0].key == key then 0 else 1 + Find(l[1..], key)
  }

  function Without<T>(l: seq<T>, i: nat): seq<T>
    requires i < |l|
  {
    l[..i] + l[i + 1..]
  }

  datatype Op = DoPut(key: string, data: Bytes) | DoGet(key: string) | DoInvalidate(key: string)

  function ListStep(l: seq<Item>, cap: nat, op: Op): (seq<Item>, Option<Bytes>) {
    var i := Find(l, op.key);
    match op
    case DoGet(key) =>
      if i == |l| then (l, None) else (Without(l, i) + [l[i]], Some(l[i].data))
    case DoInvalidate(key) =>
      if i == |l| then (l, None) else (Without(l, i), None)
    case DoPut(key, data) =>
      if i < |l| then (Without(l, i) + [Item(key, data)], None)
      else if |l| + 1 > cap then ((l + [Item(key, data)])[1..], None)
      else (l + [Item(key, data)], None)
  }

  function CacheStep(c: Cache, op: Op): (Cache, Option<Bytes>) {
    match op
    case DoGet(key) => Get(c, key)
    case DoInvalidate(key) => (Invalidate(c, key), None)
    case DoPut(key, data) => (Put(c, key, data), None)
  }

  function CacheRun(c: Cache, ops: seq<Op>): (Cache, seq<Option<Bytes>>)
    decreases |ops|
  {
    if ops == [] then (c, [])
    else
      var (d, out) := CacheStep(c, ops[0]);
      var (e, outs) := CacheRun(d, ops[1..]);
      (e, [out] + outs)
  }

  function ListRun(l: seq<Item>, cap: nat, ops: seq<Op>): (seq<Item>, seq<Option<Bytes>>)
    decreases |ops|
  {
    if ops == [] then (l, [])
    else
      var (m, out) := ListStep(l, cap, ops[0]);
      var (n, outs) := ListRun(m, cap, ops[1..]);
      (n, [out] + outs)
  }

  // ---------- the abstraction ----------

  ghost predicate Sorted(t: seq<Entry>) {
    forall i, j :: 0 <= i < j < |t| ==> t[i].atime < t[j].atime
  }

  /** `t` lists the entries of the cache from the oldest to the youngest. */
  ghost predicate ByAge(c: Cache, t: seq<Entry>) {
    && Sound(c) && Sorted(t) && |t| == |c.heap|
    && forall e :: e in t <==> e in c.heap
  }

  function Strip(t: seq<Entry>): (l: seq<Item>)
    ensures |l| == |t|
    ensures forall i :: 0 <= i < |t| ==> l[i] == Item(t[i].key, t[i].data)
  {
    seq(|t|, i requires 0 <= i < |t| => Item(t[i].key, t[i].data))
  }

  lemma OneEntryPerKey(c: Cache, d: Entry, e: Entry)
    requires Sound(c) && d in c.heap && e in c.heap && d.key == e.key
    ensures d == e
  {
  }

  /** The map from keys to entries finds the same entry as a search of the list. */
  lemma SameEntry(c: Cache, t: seq<Entry>, key: string)
    requires ByAge(c, t)
    ensures Hit(c, key) <==> Find(Strip(t), key) < |t|
    ensures Hit(c, key) ==> c.heap[Index(c.heap, key)] == t[Find(Strip(t), key)]
  {
    var i, j := Index(c.heap, key), Find(Strip(t), key);
    if i < |c.heap| {
      assert c.heap[i] in t;
      var k :| 0 <= k < |t| && t[k] == c.heap[i];
    }
    if j < |t| {
      assert t[j] in c.heap;
      var k :| 0 <= k < |c.heap| && c.heap[k] == t[j];
    }
    if i < |c.heap| {
      assert t[j] in c.heap;
      OneEntryPerKey(c, c.heap[i], t[j]);
    }
  }

  lemma WithoutMembers(t: seq<Entry>, i: nat)
    requires Sorted(t) && i < |t|
    ensures Sorted(Without(t, i)) && Strip(Without(t, i)) == Without(Strip(t), i)
    ensures forall e :: e in Without(t, i) <==> e in t && e != t[i]
  {
    var w := Without(t, i);
    assert forall j :: 0 <= j < |w| ==> w[j] == if j < i then t[j] else t[j + 1];
    forall e ensures e in w <==> e in t && e != t[i] {
      if e in t && e != t[i] {
        var j :| 0 <= j < |t| && t[j] == e;
        assert w[if j < i then j else j - 1] == e;
      }
    }
  }

  /** The list after an entry is moved to the young end with time `c.time`. */
  lemma MovedToEnd(c: Cache, d: Cache, t: seq<Entry>, i: nat, e: Entry) returns (u: seq<Entry>)
    requires ByAge(c, t) && i < |t| && e.atime == c.time
    requires Sound(d) && |d.heap| == |c.heap|
    requires forall x :: x in d.heap <==> x == e || (x in c.heap && x != t[i])
    ensures ByAge(d, u) && Strip(u) == Without(Strip(t), i) + [Item(e.key, e.data)]
  {
    var w := Without(t, i);
    WithoutMembers(t, i);
    u := w + [e];
    forall j | 0 <= j < |w| ensures w[j].atime < e.atime {
      assert w[j] in t && w[j] in c.heap;
    }
    assert forall x :: x in u <==> x in w || x == e;
    assert Strip(u) == Strip(w) + [Item(e.key, e.data)];
  }

  lemma GetRefines(c: Cache, t: seq<Entry>, key: string) returns (u: seq<Entry>)
    requires ByAge(c, t)
    ensures ByAge(Get(c, key).0, u)
    ensures (Strip(u), Get(c, key).1) == ListStep(Strip(t), c.cap, DoGet(key))
    ensures Hit(c, key) || Ordered(c.heap) ==> Ordered(Get(c, key).0.heap)
  {
    SameEntry(c, t, key);
    u := t;
    if Hit(c, key) {
      var i := Find(Strip(t), key);
      GetEntries(c, key);
      u := MovedToEnd(c, Get(c, key).0, t, i, t[i].(atime := c.time));
    }
  }

  lemma InvalidateRefines(c: Cache, t: seq<Entry>, key: string) returns (u: seq<Entry>)
    requires ByAge(c, t)
    ensures ByAge(Invalidate(c, key), u)
    ensures Strip(u) == ListStep(Strip(t), c.cap, DoInvalidate(key)).0
    ensures Hit(c, key) || Ordered(c.heap) ==> Ordered(Invalidate(c, key).heap)
  {
    SameEntry(c, t, key);
    u := t;
    if Hit(c, key) {
      InvalidateEntries(c, key);
      WithoutMembers(t, Find(Strip(t), key));
      u := Without(t, Find(Strip(t), key));
    }
  }

  lemma ReplaceRefines(c: Cache, t: seq<Entry>, key: string, data: Bytes) returns (u: seq<Entry>)
    requires ByAge(c, t) && Hit(c, key)
    ensures ByAge(Put(c, key, data), u)
    ensures Strip(u) == ListStep(Strip(t), c.cap, DoPut(key, data)).0
  {
    SameEntry(c, t, key);
    var i := Find(Strip(t), key);
    ReplaceEntries(c, Index(c.heap, key), data);
    u := MovedToEnd(c, Put(c, key, data), t, i, t[i].(atime := c.time, data := data));
  }

  /** The ages after an insertion that does not overflow. */
  lemma Appended(c: Cache, t: seq<Entry>, key: string, data: Bytes)
    requires ByAge(c, t)
    ensures var u := t + [Entry(key, data, c.time)];
      Sorted(u) && Strip(u) == Strip(t) + [Item(key, data)] &&
      forall e :: e in u <==> e in c.heap + [Entry(key, data, c.time)]
  {
    var u := t + [Entry(key, data, c.time)];
    forall j | 0 <= j < |t| ensures t[j].atime < c.time {
      assert t[j] in c.heap;
    }
    assert Strip(u) == Strip(t) + [Item(key, data)];
  }

  /** An inserting put evicts the oldest entry exactly when that is the entry at the front of
      the heap; the ages are then those of the list. */
  lemma InsertRefines(c: Cache, t: seq<Entry>, key: string, data: Bytes) returns (u: seq<Entry>)
    requires ByAge(c, t) && !Hit(c, key)
    requires |c.heap| + 1 > c.cap && c.heap != [] ==> c.heap[0] == t[0]
    ensures ByAge(Put(c, key, data), u)
    ensures Strip(u) == ListStep(Strip(t), c.cap, DoPut(key, data)).0
  {
    var n := Entry(key, data, c.time);
    SameEntry(c, t, key);
    InsertEntries(c, key, data);
    Appended(c, t, key, data);
    u := t + [n];
    if |c.heap| + 1 > c.cap {
      WithoutMembers(u, 0);
      assert Without(u, 0) == u[1..] && Without(Strip(u), 0) == Strip(u)[1..];
      u := u[1..];
    }
  }

  lemma OldestInFront(c: Cache, t: seq<Entry>)
    requires ByAge(c, t) && Ordered(c.heap) && c.heap != []
    ensures c.heap[0] == t[0]
  {
    forall d | d in c.heap ensures t[0].atime < d.atime || d == t[0] {
      var j :| 0 <= j < |t| && t[j] == d;
    }
    FrontIsTheOldest(c.heap, t[0]);
  }

  // ---------- refinement ----------

  /** No replaced entry is left unordered when an insertion overflows: a get or an invalidate
      that hits comes in between. `stale` says whether one is pending. */
  ghost predicate Tidy(l: seq<Item>, cap: nat, stale: bool, ops: seq<Op>)
    decreases |ops|
  {
    ops == [] ||
    (var hit := Find(l, ops[0].key) < |l|;
     (ops[0].DoPut? && !hit && |l| + 1 > cap ==> !stale) &&
     Tidy(ListStep(l, cap, ops[0]).0, cap, if hit then ops[0].DoPut? else stale, ops[1..]))
  }

  lemma StepRefines(c: Cache, t: seq<Entry>, op: Op, stale: bool) returns (u: seq<Entry>)
    requires ByAge(c, t) && (!stale ==> Ordered(c.heap))
    requires op.DoPut? && !Hit(c, op.key) && |c.heap| + 1 > c.cap ==> !stale
    ensures ByAge(CacheStep(c, op).0, u)
    ensures (Strip(u), CacheStep(c, op).1) == ListStep(Strip(t), c.cap, op)
    ensures !(if Find(Strip(t), op.key) < |t| then op.DoPut? else stale) ==> Ordered(CacheStep(c, op).0.heap)
  {
    SameEntry(c, t, op.key);
    match op
    case DoGet(key) => u := GetRefines(c, t, key);
    case DoInvalidate(key) => u := InvalidateRefines(c, t, key);
    case DoPut(key, data) =>
      if Hit(c, key) {
        u := ReplaceRefines(c, t, key, data);
      } else {
        if c.heap != [] && |c.heap| + 1 > c.cap {
          OldestInFront(c, t);
        }
        u := InsertRefines(c, t, key, data);
        if !stale {
          InsertOrders(c, key, data);
        }
      }
  }

  lemma {:induction false} RunRefines(c: Cache, t: seq<Entry>, stale: bool, ops: seq<Op>)
    returns (u: seq<Entry>)
    requires ByAge(c, t) && (!stale ==> Ordered(c.heap)) && Tidy(Strip(t), c.cap, stale, ops)
    ensures ByAge(CacheRun(c, ops).0, u)
    ensures (Strip(u), CacheRun(c, ops).1) == ListRun(Strip(t), c.cap, ops)
    decreases |ops|
  {
    if ops == [] {
      u := t;
    } else {
      var hit := Find(Strip(t), ops[0].key) < |t|;
      SameEntry(c, t, ops[0].key);
      var v := StepRefines(c, t, ops[0], stale);
      u := RunRefines(CacheStep(c, ops[0]).0, v, if hit then ops[0].DoPut? else stale, ops[1..]);
    }
  }

  ghost predicate Holds(c: Cache, key: string, data: Bytes) {
    exists e :: e in c.heap && e.key == key && e.data == data
  }

  /** LRU refinement: on every tidy run from an empty cache, every get answers as the recency
      list does, and the two hold the same items at the end, hence after every step. */
  lemma LruRefinesRecencyList(cap: nat, ops: seq<Op>)
    requires Tidy([], cap, false, ops)
    ensures CacheRun(Cache(cap, [], 1), ops).1 == ListRun([], cap, ops).1
    ensures |CacheRun(Cache(cap, [], 1), ops).0.heap| == |ListRun([], cap, ops).0|
    ensures forall key, data :: Holds(CacheRun(Cache(cap, [], 1), ops).0, key, data) <==>
      Item(key, data) in ListRun([], cap, ops).0
  {
    assert Strip([]) == [];
    var u := RunRefines(Cache(cap, [], 1), [], false, ops);
    var c, l := CacheRun(Cache(cap, [], 1), ops).0, ListRun([], cap, ops).0;
    forall key, data ensures Holds(c, key, data) <==> Item(key, data) in l {
      if Holds(c, key, data) {
        var e :| e in c.heap && e.key == key && e.data == data;
        assert e in u;
        var i :| 0 <= i < |u| && u[i] == e;
        assert l[i] == Item(key, data);
      }
      if Item(key, data) in l {
        var i :| 0 <= i < |l| && l[i] == Item(key, data);
        assert u[i] in c.heap;
      }
    }
  }

  /** Every reachable cache, tidy run or not, keeps keys and times distinct, times within the
      clock and its size within its capacity. */
  lemma {:induction false} AlwaysSound(c: Cache, ops: seq<Op>)
    requires Sound(c)
    ensures Sound(CacheRun(c, ops).0)
    decreases |ops|
  {
    if ops != [] {
      match ops[0] {
        case DoGet(key) =>
          if Hit(c, key) { GetEntries(c, key); }
        case DoInvalidate(key) =>
          if Hit(c, key) { InvalidateEntries(c, key); }
        case DoPut(key, data) =>
          if Hit(c, key) { ReplaceEntries(c, Index(c.heap, key), data); } else { InsertEntries(c, key, data); }
      }
      AlwaysSound(CacheStep(c, ops[0]).0, ops[1..]);
    }
  }

  // ---------- what happens otherwise ----------

  /** A run that neither puts the heap in order nor evicts: lookups that miss, replacing puts
      and insertions that fit. */
  ghost predicate Lazy(c: Cache, ops: seq<Op>)
    decreases |ops|
  {
    ops == [] ||
    ((if ops[0].DoPut? then Hit(c, ops[0].key) || |c.heap| + 1 <= c.cap else !Hit(c, ops[0].key)) &&
     Lazy(CacheStep(c, ops[0]).0, ops[1..]))
  }

  lemma {:induction false} LazyKeepsFront(c: Cache, ops: seq<Op>)
    requires Sound(c) && c.heap != [] && Lazy(c, ops)
    ensures var d := CacheRun(c, ops).0; Sound(d) && d.heap != [] && d.heap[0].key == c.heap[0].key && d.cap == c.cap
    decreases |ops|
  {
    if ops != [] {
      var op := ops[0];
      if op.DoPut? && !Hit(c, op.key) {
        PushedInPlace(c, op.key, op.data);
        InsertEntries(c, op.key, op.data);
      } else if op.DoPut? {
        ReplaceEntries(c, Index(c.heap, op.key), op.data);
      }
      LazyKeepsFront(CacheStep(c, op).0, ops[1..]);
    }
  }

  /** The victim after a lazy run is the key that was least recently used when the heap was last
      in order. So the eviction is the recency list's exactly when that key is still the oldest
      one, which a replacing put of it can spoil. */
  lemma StaleVictim(c: Cache, t: seq<Entry>, ops: seq<Op>, u: seq<Entry>, key: string, data: Bytes)
    requires ByAge(c, t) && Ordered(c.heap) && c.heap != [] && Lazy(c, ops)
    requires var d := CacheRun(c, ops).0; ByAge(d, u) && !Hit(d, key) && |d.heap| == d.cap
    ensures var d := CacheRun(c, ops).0;
      && d.heap != [] && d.heap[0].key == t[0].key
      && (forall e :: e in Put(d, key, data).heap <==>
            e == Entry(key, data, d.time) || (e in d.heap && e.key != t[0].key))
      && ((exists v :: ByAge(Put(d, key, data), v) && Strip(v) == ListStep(Strip(u), d.cap, DoPut(key, data)).0)
          <==> u[0].key == t[0].key)
  {
    var d := CacheRun(c, ops).0;
    OldestInFront(c, t);
    LazyKeepsFront(c, ops);
    InsertEntries(d, key, data);
    forall e ensures e in Put(d, key, data).heap <==>
      e == Entry(key, data, d.time) || (e in d.heap && e.key != t[0].key)
    {
      if e in d.heap && e.key == t[0].key {
        OneEntryPerKey(d, e, d.heap[0]);
      }
      assert d.heap[0] != Entry(key, data, d.time);
    }
    if u[0].key == t[0].key {
      assert u[0] in d.heap;
      OneEntryPerKey(d, u[0], d.heap[0]);
      var v := InsertRefines(d, u, key, data);
    } else {
      forall v | ByAge(Put(d, key, data), v)
        ensures Strip(v) != ListStep(Strip(u), d.cap, DoPut(key, data)).0
      {
        StaleVictimStays(d, u, v, key, data);
      }
    }
  }

  /** When the front of the heap is not the oldest entry, the oldest survives the eviction. */
  lemma StaleVictimStays(d: Cache, u: seq<Entry>, v: seq<Entry>, key: string, data: Bytes)
    requires ByAge(d, u) && !Hit(d, key) && |d.heap| == d.cap && d.heap != [] && d.heap[0].key != u[0].key
    requires ByAge(Put(d, key, data), v)
    ensures Strip(v) != ListStep(Strip(u), d.cap, DoPut(key, data)).0
  {
    InsertEntries(d, key, data);
    SameEntry(d, u, key);
    var l := ListStep(Strip(u), d.cap, DoPut(key, data)).0;
    assert u[0] in d.heap;
    assert u[0] in d.heap + [Entry(key, data, d.time)];
    assert u[0] in v;
    var i :| 0 <= i < |v| && v[i] == u[0];
    forall j | 0 <= j < |l| ensures l[j].key != u[0].key {
      assert l[j] == (Strip(u) + [Item(key, data)])[j + 1];
      if j + 1 < |u| && u[j + 1].key == u[0].key {
        OneEntryPerKey(d, u[0], u[j + 1]);
      }
    }
    assert Strip(v)[i].key == u[0].key;
  }

  lemma SpoiledCache(data: Bytes)
    ensures CacheRun(Cache(2, [], 1), [DoPut("a", data), DoPut("b", data), DoPut("a", data)]).0
         == Cache(2, [Entry("a", data, 3), Entry("b", data, 2)], 4)
  {
    var a, b := DoPut("a", data), DoPut("b", data);
    var ea, eb := Entry("a", data, 1), Entry("b", data, 2);
    assert CacheStep(Cache(2, [], 1), a).0 == Cache(2, [ea], 2);
    assert CacheStep(Cache(2, [ea], 2), b).0 == Cache(2, [ea, eb], 3);
    assert CacheStep(Cache(2, [ea, eb], 3), a).0 == Cache(2, [ea.(atime := 3), eb], 4);
    assert [a, b, a][1..] == [b, a] && [b, a][1..] == [a] && [a][1..] == [];
    assert CacheRun(Cache(2, [ea, eb], 3), [a]).0 == Cache(2, [ea.(atime := 3), eb], 4);
    assert CacheRun(Cache(2, [ea], 2), [b, a]).0 == Cache(2, [ea.(atime := 3), eb], 4);
  }

  lemma WrongVictim(data: Bytes)
    ensures Put(Cache(2, [Entry("a", data, 3), Entry("b", data, 2)], 4), "c", data)
         == Cache(2, [Entry("b", data, 2), Entry("c", data, 4)], 5)
  {
    var a, b, c := Entry("a", data, 3), Entry("b", data, 2), Entry("c", data, 4);
    var d := Cache(2, [a, b], 4);
    assert Pushed(d, "c", data) == [a, b, c];
    assert Swap([a, b, c], 0, 2)[..2] == [c, b];
    assert Swap([c, b], 0, 1) == [b, c];
    assert SiftDown([c, b], 0) == [b, c];
    assert PopHeap([a, b, c]) == [b, c, a];
  }

  /** With room for two, putting a, b, a again and then c evicts a; the recency list evicts b. */
  lemma ReplacingPutSpoilsOrder(data: Bytes)
    ensures var ops := [DoPut("a", data), DoPut("b", data), DoPut("a", data)];
      && !Hit(Put(CacheRun(Cache(2, [], 1), ops).0, "c", data), "a")
      && Item("a", data) in ListStep(ListRun([], 2, ops).0, 2, DoPut("c", data)).0
  {
    SpoiledCache(data);
    WrongVictim(data);
    var a, b := DoPut("a", data), DoPut("b", data);
    var ia, ib := Item("a", data), Item("b", data);
    assert [a, b, a][1..] == [b, a] && [b, a][1..] == [a] && [a][1..] == [];
    assert ListStep([], 2, a).0 == [ia];
    assert ListStep([ia], 2, b).0 == [ia, ib];
    assert ListStep([ia, ib], 2, a).0 == [ib, ia];
    assert ListRun([ia, ib], 2, [a]).0 == [ib, ia];
    assert ListRun([ia], 2, [b, a]).0 == [ib, ia];
    assert ListStep([ib, ia], 2, DoPut("c", data)).0 == [ia, Item("c", data)];
  }
}
