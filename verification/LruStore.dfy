/** The cache as it runs: entries are objects shared by the heap array and the key table, the
    heap algorithms swap array elements in place, and put, get and invalidate are proved to do
    what the functions of LruCache say. */
module LruStore {
  import opened Common
  import opened Octets
  import opened Heap
  import LruCache

  class BlockCacheData {
    const key: string
    var data: Bytes
    var atime: nat

    constructor (key: string, data: Bytes, atime: nat)
      ensures this.key == key && this.data == data && this.atime == atime
    {
      this.key, this.data, this.atime := key, data, atime;
    }
  }

  ghost function View(s: seq<BlockCacheData>): (v: seq<Entry>)
    reads s
    ensures |v| == |s|
    ensures forall i :: 0 <= i < |s| ==> v[i] == Entry(s[i].key, s[i].data, s[i].atime)
  {
    seq(|s|, i requires 0 <= i < |s| reads s => Entry(s[i].key, s[i].data, s[i].atime))
  }

  ghost function Beyond(a: array<BlockCacheData>, n: nat): seq<BlockCacheData>
    reads a
    requires n <= a.Length
  {
    a[n..]
  }

  method SwapAt(a: array<BlockCacheData>, n: nat, i: nat, j: nat)
    requires i < n <= a.Length && j < n
    modifies a
    ensures a[i] == old(a[j]) && a[j] == old(a[i])
    ensures View(a[..n]) == Swap(old(View(a[..n])), i, j)
    ensures multiset(a[..n]) == multiset(old(a[..n])) && Beyond(a, n) == old(Beyond(a, n))
  {
    ghost var was := a[..n];
    a[i], a[j] := a[j], a[i];
    assert a[..n] == Swap(was, i, j);
  }

  method PushHeapInPlace(a: array<BlockCacheData>, n: nat)
    requires 0 < n <= a.Length
    modifies a
    ensures View(a[..n]) == PushHeap(old(View(a[..n])))
    ensures multiset(a[..n]) == multiset(old(a[..n])) && Beyond(a, n) == old(Beyond(a, n))
  {
    ghost var goal, objects, tail := PushHeap(View(a[..n])), multiset(a[..n]), Beyond(a, n);
    var i := n - 1;
    while i > 0 && a[(i - 1) / 2].atime > a[i].atime
      invariant 0 <= i < n
      invariant SiftUp(View(a[..n]), i) == goal
      invariant multiset(a[..n]) == objects && Beyond(a, n) == tail
    {
      SwapAt(a, n, i, (i - 1) / 2);
      i := (i - 1) / 2;
    }
  }

  method FindOlderChild(a: array<BlockCacheData>, n: nat, i: nat) returns (c: nat)
    requires 2 * i + 1 < n <= a.Length
    ensures c == OlderChild(View(a[..n]), i)
  {
    c := 2 * i + 1;
    if c + 1 < n && a[c + 1].atime < a[c].atime {
      c := c + 1;
    }
  }

  method SiftDownInPlace(a: array<BlockCacheData>, n: nat, start: nat)
    requires n <= a.Length
    modifies a
    ensures View(a[..n]) == SiftDown(old(View(a[..n])), start)
    ensures multiset(a[..n]) == multiset(old(a[..n])) && Beyond(a, n) == old(Beyond(a, n))
  {
    ghost var goal, objects, tail := SiftDown(View(a[..n]), start), multiset(a[..n]), Beyond(a, n);
    var i := start;
    while 2 * i + 1 < n
      invariant 0 <= i
      invariant SiftDown(View(a[..n]), i) == goal
      invariant multiset(a[..n]) == objects && Beyond(a, n) == tail
      decreases n - i
    {
      var c := FindOlderChild(a, n, i);
      ghost var v := View(a[..n]);
      if a[i].atime <= a[c].atime {
        assert v[i].atime <= v[c].atime;
        return;
      }
      assert v[i].atime > v[c].atime;
      SwapAt(a, n, i, c);
      i := c;
    }
  }

  method MakeHeapInPlace(a: array<BlockCacheData>, n: nat)
    requires n <= a.Length
    modifies a
    ensures View(a[..n]) == MakeHeap(old(View(a[..n])))
    ensures multiset(a[..n]) == multiset(old(a[..n])) && Beyond(a, n) == old(Beyond(a, n))
  {
    ghost var goal, objects, tail := MakeHeap(View(a[..n])), multiset(a[..n]), Beyond(a, n);
    var k := n / 2;
    while k > 0
      invariant 0 <= k
      invariant Heapify(View(a[..n]), k) == goal
      invariant multiset(a[..n]) == objects && Beyond(a, n) == tail
    {
      k := k - 1;
      HeapifyOnce(View(a[..n]), k);
      SiftDownInPlace(a, n, k);
    }
  }

  lemma HeapifyOnce(s: seq<Entry>, k: nat)
    ensures Heapify(s, k + 1) == Heapify(SiftDown(s, k), k)
  {
  }

  method PopHeapInPlace(a: array<BlockCacheData>, n: nat)
    requires 0 < n <= a.Length
    modifies a
    ensures View(a[..n]) == PopHeap(old(View(a[..n])))
    ensures multiset(a[..n]) == multiset(old(a[..n])) && a[n - 1] == old(a[0])
  {
    SwapAt(a, n, 0, n - 1);
    Split(a, n);
    ghost var last := a[n - 1];
    assert Beyond(a, n - 1)[0] == last;
    SiftDownInPlace(a, n - 1, 0);
    assert Beyond(a, n - 1)[0] == last;
    Split(a, n);
  }

  lemma Split(a: array<BlockCacheData>, n: nat)
    requires 0 < n <= a.Length
    ensures a[..n] == a[..n - 1] + [a[n - 1]]
    ensures View(a[..n - 1]) == View(a[..n])[..n - 1]
    ensures View(a[..n]) == View(a[..n - 1]) + [Entry(a[n - 1].key, a[n - 1].data, a[n - 1].atime)]
  {
  }

  ghost predicate Matches(s: seq<BlockCacheData>, table: map<string, BlockCacheData>) {
    && (forall b :: b in s ==> b.key in table && table[b.key] == b)
    && (forall k :: k in table ==> table[k].key == k && table[k] in s)
  }

  lemma MatchesPermuted(s: seq<BlockCacheData>, t: seq<BlockCacheData>, table: map<string, BlockCacheData>)
    requires multiset(s) == multiset(t) && Matches(s, table)
    ensures Matches(t, table)
  {
    forall b | b in t ensures b in s {
      assert b in multiset(t);
    }
    forall k | k in table ensures table[k] in t {
      assert table[k] in multiset(s);
    }
  }

  /** Dropping the last of some entries with distinct keys, and its key. */
  lemma MatchesPopped(s: seq<BlockCacheData>, b: BlockCacheData, table: map<string, BlockCacheData>)
    requires Matches(s + [b], table) && Unique(View(s + [b]))
    ensures Matches(s, table - {b.key})
  {
    var t := s + [b];
    forall d | d in s ensures d in t && d.key != b.key {
      var j :| 0 <= j < |s| && s[j] == d;
      assert View(t)[j].key != View(t)[|s|].key;
    }
  }

  lemma Evicted(s: seq<BlockCacheData>, b: BlockCacheData, v: seq<Entry>, table: map<string, BlockCacheData>)
    requires v != [] && Unique(v) && Matches(s + [b], table) && View(s + [b]) == PopHeap(v)
    ensures Matches(s, table - {b.key}) && View(s) == LruCache.Front(PopHeap(v))
  {
    PopHeapOrders(v);
    MatchesPopped(s, b, table);
  }

  lemma MatchesPushed(s: seq<BlockCacheData>, table: map<string, BlockCacheData>, b: BlockCacheData)
    requires Matches(s, table) && b.key !in table
    ensures Matches(s + [b], table[b.key := b])
  {
  }

  class LRUCache {
    const size: nat
    var heap: array<BlockCacheData>
    var count: nat
    var table: map<string, BlockCacheData>
    var timeCnt: nat

    ghost function Value(): LruCache.Cache
      reads this, heap, heap[..]
      requires count <= heap.Length
    {
      LruCache.Cache(size, View(heap[..count]), timeCnt)
    }

    /** The table and the heap hold the same entries, each under its own key. */
    ghost predicate Shared()
      reads this, heap
    {
      count <= heap.Length == size + 1 && Matches(heap[..count], table)
    }

    ghost predicate Valid()
      reads this, heap, heap[..]
    {
      Shared() && LruCache.Sound(Value())
    }

    constructor (size: nat)
      ensures Valid() && fresh(heap) && fresh(heap[..])
      ensures Value() == LruCache.Cache(size, [], 1)
    {
      this.size, count, table, timeCnt := size, 0, map[], 1;
      var unused := new BlockCacheData("", [], 0);
      heap := new BlockCacheData[size + 1](_ => unused);
    }

    /** Looking a key up in the table finds the heap's entry for it. */
    lemma Looked(key: string)
      requires Shared()
      ensures key in table <==> LruCache.Hit(Value(), key)
      ensures key in table ==>
        var i := LruCache.Index(Value().heap, key); i < count && heap[i] == table[key]
    {
      var i := LruCache.Index(Value().heap, key);
      if key in table {
        var j :| 0 <= j < count && heap[j] == table[key];
        assert Value().heap[j].key == key;
      }
      if i < count {
        assert Value().heap[i].key == heap[i].key;
      }
    }

    /** Writes the fields of the entry found in the table. */
    method Touch(key: string, atime: nat, data: Bytes)
      requires Shared() && key in table && Unique(View(heap[..count]))
      modifies table[key]
      ensures var i := LruCache.Index(old(Value()).heap, key);
        i < count && View(heap[..count]) == old(View(heap[..count]))[i := Entry(key, data, atime)]
    {
      Looked(key);
      ghost var i := LruCache.Index(Value().heap, key);
      var b := table[key];
      forall j | 0 <= j < count && j != i ensures heap[j] != b {
        assert View(heap[..count])[j].key != View(heap[..count])[i].key;
      }
      b.atime, b.data := atime, data;
    }

    method Reorder()
      requires Shared()
      modifies heap
      ensures Shared() && View(heap[..count]) == MakeHeap(old(View(heap[..count])))
    {
      ghost var before := heap[..count];
      MakeHeapInPlace(heap, count);
      MatchesPermuted(before, heap[..count], table);
    }

    method Get(key: string) returns (r: Option<Bytes>)
      requires Valid()
      modifies this, heap, heap[..]
      ensures Valid() && heap == old(heap)
      ensures (Value(), r) == LruCache.Get(old(Value()), key)
    {
      Looked(key);
      r := None;
      if key in table {
        r := Some(table[key].data);
        Renew(key);
      }
    }

    method RenewTime(key: string)
      requires Shared() && key in table && Unique(View(heap[..count]))
      modifies this`timeCnt, table[key]
      ensures timeCnt == old(timeCnt) + 1 && Shared()
      ensures var i := LruCache.Index(old(Value()).heap, key);
        i < count && View(heap[..count]) == old(View(heap[..count]))[i := Entry(key, old(table[key].data), old(timeCnt))]
    {
      Touch(key, timeCnt, table[key].data);
      timeCnt := timeCnt + 1;
    }

    method Renew(key: string)
      requires Valid() && key in table
      modifies this`timeCnt, heap, table[key]
      ensures Valid() && Value() == LruCache.Get(old(Value()), key).0
    {
      ghost var c := Value();
      ghost var i := LruCache.Index(c.heap, key);
      Looked(key);
      assert c.heap[i].data == table[key].data && c.heap[i].key == key;
      ghost var goal := LruCache.Get(c, key).0;
      assert LruCache.Sound(goal) by { LruCache.GetEntries(c, key); }
      assert goal == LruCache.Cache(size, MakeHeap(c.heap[i := Entry(key, table[key].data, timeCnt)]), timeCnt + 1);
      RenewTime(key);
      Reorder();
      assert Value() == goal;
    }

    /** pop_heap and pop_back. */
    method PopBack() returns (b: BlockCacheData)
      requires 0 < count <= heap.Length && Matches(heap[..count], table)
      modifies this`count, heap
      ensures count == old(count) - 1 && b == old(heap[0])
      ensures View(heap[..count] + [b]) == PopHeap(old(View(heap[..count])))
      ensures Matches(heap[..count] + [b], table)
    {
      ghost var before := heap[..count];
      PopHeapInPlace(heap, count);
      ghost var after := heap[..count];
      MatchesPermuted(before, after, table);
      b := heap[count - 1];
      count := count - 1;
      assert heap[..count] + [b] == after;
    }

    /** Takes the front entry out of the heap and its key out of the table. */
    method EvictFront()
      requires Shared() && count > 0 && Unique(View(heap[..count]))
      modifies this`count, this`table, heap
      ensures Shared() && count == old(count) - 1
      ensures View(heap[..count]) == LruCache.Front(PopHeap(old(View(heap[..count]))))
      ensures table == old(table) - {old(heap[0].key)}
    {
      ghost var v := View(heap[..count]);
      var b := PopBack();
      Evicted(heap[..count], b, v, table);
      table := table - {b.key};
    }

    method Put(key: string, data: Bytes)
      requires Valid()
      modifies this, heap, heap[..]
      ensures Valid() && heap == old(heap)
      ensures Value() == LruCache.Put(old(Value()), key, data)
    {
      Looked(key);
      if key in table {
        Replace(key, data);
      } else {
        Insert(key, data);
      }
    }

    method Replace(key: string, data: Bytes)
      requires Valid() && key in table
      modifies this`timeCnt, table[key]
      ensures Valid() && Value() == LruCache.Put(old(Value()), key, data)
    {
      ghost var c := Value();
      ghost var i := LruCache.Index(c.heap, key);
      Looked(key);
      ghost var goal := LruCache.Put(c, key, data);
      assert LruCache.Sound(goal) by { LruCache.ReplaceEntries(c, i, data); }
      assert goal == LruCache.Cache(size, c.heap[i := Entry(key, data, timeCnt)], timeCnt + 1);
      Touch(key, timeCnt, data);
      timeCnt := timeCnt + 1;
      assert Value() == goal;
    }

    method Insert(key: string, data: Bytes)
      requires Valid() && key !in table
      modifies this`count, this`table, this`timeCnt, heap
      ensures Valid() && Value() == LruCache.Insert(old(Value()), key, data)
    {
      ghost var c := Value();
      Looked(key);
      assert LruCache.Sound(LruCache.Insert(c, key, data)) by { LruCache.InsertEntries(c, key, data); }
      assert Unique(LruCache.Pushed(c, key, data)) by { LruCache.PushedInPlace(c, key, data); }
      Append(key, data);
      if count > size {
        EvictFront();
      }
      assert Value() == LruCache.Insert(c, key, data);
    }

    /** push_back */
    method PushBack(b: BlockCacheData)
      requires count < heap.Length
      modifies this`count, heap
      ensures count == old(count) + 1 && heap[..count] == old(heap[..count]) + [b]
      ensures View(heap[..count]) == old(View(heap[..count])) + [Entry(b.key, b.data, b.atime)]
    {
      heap[count] := b;
      count := count + 1;
      Split(heap, count);
    }

    /** push_back, push_heap and the table entry. */
    method Append(key: string, data: Bytes)
      requires Shared() && count <= size && key !in table
      modifies this`count, this`table, this`timeCnt, heap
      ensures Shared() && count == old(count) + 1 && timeCnt == old(timeCnt) + 1
      ensures View(heap[..count]) == PushHeap(old(View(heap[..count])) + [Entry(key, data, old(timeCnt))])
    {
      var b := new BlockCacheData(key, data, timeCnt);
      timeCnt := timeCnt + 1;
      Enter(b);
    }

    method Enter(b: BlockCacheData)
      requires Shared() && count <= size && b.key !in table
      modifies this`count, this`table, heap
      ensures Shared() && count == old(count) + 1
      ensures View(heap[..count]) == PushHeap(old(View(heap[..count])) + [Entry(b.key, b.data, b.atime)])
    {
      MatchesPushed(heap[..count], table, b);
      PushBack(b);
      table := table[b.key := b];
      PushUp();
    }

    method PushUp()
      requires 0 < count <= heap.Length && Matches(heap[..count], table)
      modifies heap
      ensures Matches(heap[..count], table) && View(heap[..count]) == PushHeap(old(View(heap[..count])))
    {
      ghost var before := heap[..count];
      PushHeapInPlace(heap, count);
      MatchesPermuted(before, heap[..count], table);
    }

    method Invalidate(key: string)
      requires Valid()
      modifies this, heap, heap[..]
      ensures Valid() && heap == old(heap)
      ensures Value() == LruCache.Invalidate(old(Value()), key)
    {
      Looked(key);
      if key in table {
        ghost var c := Value();
        ghost var i := LruCache.Index(c.heap, key);
        assert LruCache.Sound(LruCache.Invalidate(c, key)) by { LruCache.InvalidateEntries(c, key); }
        LruCache.ZeroedComesFirst(c, i);
        Touch(key, 0, table[key].data);
        Reorder();
        EvictFront();
        assert Value() == LruCache.Invalidate(c, key);
      }
    }
  }
}
