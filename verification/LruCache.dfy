/** The cache as a value: what put, get and invalidate do to the heap and the clock, and how that
    compares with a plain recency list. */
module LruCache {
  import opened Common
  import opened Octets
  import opened Heap

  datatype Cache = Cache(cap: nat, heap: seq<Entry>, time: nat)

  /** Position of a key, or the length when it is absent. */
  function Index(s: seq<Entry>, key: string): (i: nat)
    ensures i <= |s|
    ensures i < |s| ==> s[i].key == key
    ensures forall j :: 0 <= j < i ==> s[j].key != key
  {
    if s == [] then 0
    else if s[0].key == key then 0
    else 1 + Index(s[1..], key)
  }

  predicate Hit(c: Cache, key: string) { Index(c.heap, key) < |c.heap| }

  function Get(c: Cache, key: string): (Cache, Option<Bytes>) {
    var i := Index(c.heap, key);
    if i == |c.heap| then (c, None)
    else (c.(heap := MakeHeap(c.heap[i := c.heap[i].(atime := c.time)]), time := c.time + 1),
          Some(c.heap[i].data))
  }

  function Invalidate(c: Cache, key: string): Cache {
    var i := Index(c.heap, key);
    if i == |c.heap| then c
    else c.(heap := Front(PopHeap(MakeHeap(c.heap[i := c.heap[i].(atime := 0)]))))
  }

  /** pop_back */
  function Front(s: seq<Entry>): seq<Entry>
    requires s != []
  {
    s[..|s| - 1]
  }

  /** A replaced entry gets a new time but the heap is not put in order again. */
  function Replace(c: Cache, i: nat, data: Bytes): Cache
    requires i < |c.heap|
  {
    c.(heap := c.heap[i := c.heap[i].(atime := c.time, data := data)], time := c.time + 1)
  }

  function Pushed(c: Cache, key: string, data: Bytes): seq<Entry> {
    PushHeap(c.heap + [Entry(key, data, c.time)])
  }

  function Insert(c: Cache, key: string, data: Bytes): Cache {
    var s := Pushed(c, key, data);
    c.(heap := if |s| > c.cap then Front(PopHeap(s)) else s, time := c.time + 1)
  }

  function Put(c: Cache, key: string, data: Bytes): Cache {
    if Hit(c, key) then Replace(c, Index(c.heap, key), data) else Insert(c, key, data)
  }

  // ---------- invariant ----------

  /** True of every reachable cache, whether or not its heap is in order. */
  ghost predicate Sound(c: Cache) {
    && |c.heap| <= c.cap && 1 <= c.time && Unique(c.heap)
    && forall e :: e in c.heap ==> 1 <= e.atime < c.time
  }

  /** Popping takes exactly the front entry out. */
  lemma PopFront(s: seq<Entry>, e: Entry)
    requires s != [] && Unique(s)
    ensures Unique(Front(PopHeap(s)))
    ensures e in Front(PopHeap(s)) <==> e in s && e != s[0]
  {
    var t := PopHeap(s);
    PopHeapOrders(s);
    PermutedMembers(s, t, e);
    assert t == Front(t) + [s[0]];
    assert forall i :: 0 <= i < |t| - 1 ==> Front(t)[i] == t[i] && t[i].key != t[|t| - 1].key;
  }

  lemma TouchSound(c: Cache, i: nat, data: Bytes, atime: nat)
    requires Sound(c) && i < |c.heap| && (atime == c.time || atime == 0)
    ensures Unique(c.heap[i := c.heap[i].(atime := atime, data := data)])
    ensures forall e :: e in c.heap[i := c.heap[i].(atime := atime, data := data)] <==>
      e == c.heap[i].(atime := atime, data := data) || (e in c.heap && e != c.heap[i])
  {
    var s := c.heap[i := c.heap[i].(atime := atime, data := data)];
    assert forall j :: 0 <= j < |c.heap| ==> c.heap[j] in c.heap;
    forall e ensures e in s <==> e == s[i] || (e in c.heap && e != c.heap[i]) {
      if e in c.heap && e != c.heap[i] {
        var j :| 0 <= j < |c.heap| && c.heap[j] == e;
        assert s[j] == e;
      }
      if e in s {
        var j :| 0 <= j < |s| && s[j] == e;
        assert j != i ==> s[j] == c.heap[j] && c.heap[j].key != c.heap[i].key;
      }
    }
  }

  /** Entries after a get that hits: the entry's time is renewed, nothing else changes. */
  lemma GetEntries(c: Cache, key: string)
    requires Sound(c) && Hit(c, key)
    ensures Sound(Get(c, key).0) && Ordered(Get(c, key).0.heap)
    ensures var was := c.heap[Index(c.heap, key)];
      forall e :: e in Get(c, key).0.heap <==> e == was.(atime := c.time) || (e in c.heap && e != was)
  {
    var i := Index(c.heap, key);
    var s := c.heap[i := c.heap[i].(atime := c.time)];
    TouchSound(c, i, c.heap[i].data, c.time);
    MakeHeapOrders(s);
    forall e ensures e in MakeHeap(s) <==> e in s {
      PermutedMembers(s, MakeHeap(s), e);
    }
  }

  /** A heap in which one entry's time is set to zero has that entry at its front. */
  lemma ZeroedComesFirst(c: Cache, i: nat)
    requires Sound(c) && i < |c.heap|
    ensures var s := c.heap[i := c.heap[i].(atime := 0)];
      Permuted(s, MakeHeap(s)) && Unique(MakeHeap(s)) && Ordered(MakeHeap(s)) && MakeHeap(s)[0] == s[i]
  {
    var s := c.heap[i := c.heap[i].(atime := 0)];
    var h := MakeHeap(s);
    TouchSound(c, i, c.heap[i].data, 0);
    MakeHeapOrders(s);
    forall d | d in h ensures s[i].atime < d.atime || d == s[i] {
      PermutedMembers(s, h, d);
    }
    PermutedMembers(s, h, s[i]);
    FrontIsTheOldest(h, s[i]);
  }

  lemma InvalidateMembers(c: Cache, key: string, e: Entry)
    requires Sound(c) && Hit(c, key)
    ensures e in Invalidate(c, key).heap <==> e in c.heap && e != c.heap[Index(c.heap, key)]
    ensures Unique(Invalidate(c, key).heap)
  {
    var i := Index(c.heap, key);
    var s := c.heap[i := c.heap[i].(atime := 0)];
    ZeroedComesFirst(c, i);
    TouchSound(c, i, c.heap[i].data, 0);
    PopFront(MakeHeap(s), e);
    PermutedMembers(s, MakeHeap(s), e);
  }

  /** Entries after an invalidate that hits: pop_heap pops precisely the entry looked up, even
      when the heap was out of order before. */
  lemma InvalidateEntries(c: Cache, key: string)
    requires Sound(c) && Hit(c, key)
    ensures Sound(Invalidate(c, key)) && Ordered(Invalidate(c, key).heap)
    ensures |Invalidate(c, key).heap| == |c.heap| - 1
    ensures forall e :: e in Invalidate(c, key).heap <==> e in c.heap && e != c.heap[Index(c.heap, key)]
  {
    var i := Index(c.heap, key);
    forall e ensures e in Invalidate(c, key).heap <==> e in c.heap && e != c.heap[i] {
      InvalidateMembers(c, key, e);
    }
    InvalidateMembers(c, key, c.heap[i]);
    ZeroedComesFirst(c, i);
    PopHeapOrders(MakeHeap(c.heap[i := c.heap[i].(atime := 0)]));
  }

  /** Entries after a replacing put. */
  lemma ReplaceEntries(c: Cache, i: nat, data: Bytes)
    requires Sound(c) && i < |c.heap|
    ensures Sound(Replace(c, i, data))
    ensures forall e :: e in Replace(c, i, data).heap <==>
      e == c.heap[i].(atime := c.time, data := data) || (e in c.heap && e != c.heap[i])
  {
    TouchSound(c, i, data, c.time);
  }

  /** Pushing never moves anything: the new entry is younger than all others. */
  lemma PushedInPlace(c: Cache, key: string, data: Bytes)
    requires Sound(c) && !Hit(c, key)
    ensures Pushed(c, key, data) == c.heap + [Entry(key, data, c.time)]
    ensures Unique(Pushed(c, key, data))
  {
    var s := c.heap + [Entry(key, data, c.time)];
    if |c.heap| > 0 {
      assert s[Parent(|c.heap|)] in c.heap;
    }
    forall i | 0 <= i < |c.heap| ensures s[i].key != key && s[i].atime != c.time {
      assert s[i] in c.heap;
    }
  }

  lemma InsertMembers(c: Cache, key: string, data: Bytes, e: Entry)
    requires Sound(c) && !Hit(c, key)
    ensures Unique(Insert(c, key, data).heap)
    ensures var s := c.heap + [Entry(key, data, c.time)];
      e in Insert(c, key, data).heap <==> e in s && (|s| > c.cap ==> e != s[0])
  {
    PushedInPlace(c, key, data);
    PopFront(Pushed(c, key, data), e);
  }

  lemma InsertOrders(c: Cache, key: string, data: Bytes)
    requires Ordered(c.heap)
    ensures Ordered(Insert(c, key, data).heap)
  {
    var n := Entry(key, data, c.time);
    assert (c.heap + [n])[..|c.heap|] == c.heap;
    PushHeapOrders(c.heap + [n]);
    PopHeapOrders(Pushed(c, key, data));
  }

  /** Entries after an inserting put: when the cache overflows, the entry that leaves is the one
      at the front of the heap, in order or not. */
  lemma InsertEntries(c: Cache, key: string, data: Bytes)
    requires Sound(c) && !Hit(c, key)
    ensures Sound(Insert(c, key, data))
    ensures var s := c.heap + [Entry(key, data, c.time)];
      forall e :: e in Insert(c, key, data).heap <==> e in s && (|s| > c.cap ==> e != s[0])
  {
    var s := c.heap + [Entry(key, data, c.time)];
    forall e ensures e in Insert(c, key, data).heap <==> e in s && (|s| > c.cap ==> e != s[0]) {
      InsertMembers(c, key, data, e);
    }
    InsertMembers(c, key, data, s[0]);
    assert forall e :: e in s ==> e in c.heap || e == s[|c.heap|];
  }
}
