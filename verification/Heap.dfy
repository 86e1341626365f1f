/** Binary heaps of cache entries ordered by access time, least recent at the front: the
    standard library's make_heap, push_heap and pop_heap as functions on a sequence. They are
    specified by section 25.3.6 of ISO/IEC 14882:2003. */
module Heap {
  import opened Octets

  datatype Entry = Entry(key: string, data: Bytes, atime: nat)

  function Parent(i: int): int { (i - 1) / 2 }

  /** No entry is older than its parent. */
  ghost predicate Ordered(s: seq<Entry>) {
    forall i :: 0 < i < |s| ==> s[Parent(i)].atime <= s[i].atime
  }

  /** Keys and access times are pairwise distinct. */
  ghost predicate Unique(s: seq<Entry>) {
    forall i, j :: 0 <= i < j < |s| ==> s[i].key != s[j].key && s[i].atime != s[j].atime
  }

  /** A rearrangement. */
  ghost predicate Permuted(s: seq<Entry>, t: seq<Entry>) {
    |s| == |t| && multiset(s) == multiset(t) && (Unique(s) ==> Unique(t))
  }

  function Swap<T>(s: seq<T>, i: nat, j: nat): seq<T>
    requires i < |s| && j < |s|
  {
    s[i := s[j]][j := s[i]]
  }

  lemma SwapPermutes(s: seq<Entry>, i: nat, j: nat)
    requires i < |s| && j < |s|
    ensures Permuted(s, Swap(s, i, j))
  {
    SwapMultiset(s, i, j);
  }

  lemma SwapMultiset(s: seq<Entry>, i: nat, j: nat)
    requires i < |s| && j < |s|
    ensures multiset(Swap(s, i, j)) == multiset(s)
  {
  }

  lemma PermutedMembers(s: seq<Entry>, t: seq<Entry>, e: Entry)
    requires Permuted(s, t)
    ensures e in s <==> e in t
  {
    assert e in s <==> e in multiset(s);
    assert e in t <==> e in multiset(t);
  }

  // ---------- push_heap ----------

  function SiftUp(s: seq<Entry>, i: nat): (r: seq<Entry>)
    requires i < |s|
    ensures |r| == |s|
    decreases i
  {
    if i == 0 || s[Parent(i)].atime <= s[i].atime then s
    else SiftUp(Swap(s, i, Parent(i)), Parent(i))
  }

  function PushHeap(s: seq<Entry>): (r: seq<Entry>)
    requires s != []
    ensures |r| == |s|
  {
    SiftUp(s, |s| - 1)
  }

  /** Ordered except that the entry at `i` may be older than its ancestors. */
  ghost predicate OrderedButAt(s: seq<Entry>, i: nat) {
    && (forall j :: 0 < j < |s| && j != i ==> s[Parent(j)].atime <= s[j].atime)
    && (forall j :: 0 < j < |s| && Parent(j) == i && 0 < i ==> s[Parent(i)].atime <= s[j].atime)
  }

  lemma {:induction false} SiftUpOrders(s: seq<Entry>, i: nat)
    requires i < |s|
    ensures Permuted(s, SiftUp(s, i))
    ensures OrderedButAt(s, i) ==> Ordered(SiftUp(s, i))
    decreases i
  {
    if i != 0 && s[Parent(i)].atime > s[i].atime {
      var t := Swap(s, i, Parent(i));
      SwapPermutes(s, i, Parent(i));
      assert OrderedButAt(s, i) ==> OrderedButAt(t, Parent(i));
      SiftUpOrders(t, Parent(i));
    }
  }

  /** push_heap makes a heap of a heap followed by one more entry. */
  lemma PushHeapOrders(s: seq<Entry>)
    requires s != []
    ensures Permuted(s, PushHeap(s))
    ensures Ordered(s[..|s| - 1]) ==> Ordered(PushHeap(s))
  {
    SiftUpOrders(s, |s| - 1);
    if Ordered(s[..|s| - 1]) {
      forall j | 0 < j < |s| - 1 ensures s[Parent(j)].atime <= s[j].atime {
        assert s[..|s| - 1][Parent(j)].atime <= s[..|s| - 1][j].atime;
      }
    }
  }

  // ---------- make_heap and pop_heap ----------

  function OlderChild(s: seq<Entry>, i: nat): (c: nat)
    requires 2 * i + 1 < |s|
    ensures c < |s| && Parent(c) == i && i < c
  {
    if 2 * i + 2 < |s| && s[2 * i + 2].atime < s[2 * i + 1].atime then 2 * i + 2 else 2 * i + 1
  }

  function SiftDown(s: seq<Entry>, i: nat): (r: seq<Entry>)
    ensures |r| == |s|
    decreases |s| - i
  {
    if 2 * i + 1 >= |s| then s
    else
      var c := OlderChild(s, i);
      if s[i].atime <= s[c].atime then s else SiftDown(Swap(s, i, c), c)
  }

  function Heapify(s: seq<Entry>, k: nat): (r: seq<Entry>)
    ensures |r| == |s|
    decreases k
  {
    if k == 0 then s else Heapify(SiftDown(s, k - 1), k - 1)
  }

  function MakeHeap(s: seq<Entry>): (r: seq<Entry>)
    ensures |r| == |s|
  {
    Heapify(s, |s| / 2)
  }

  /** The front goes to the back and what is left is put in order. */
  function PopHeap(s: seq<Entry>): (r: seq<Entry>)
    requires s != []
    ensures |r| == |s| && r[|s| - 1] == s[0]
  {
    SiftDown(Swap(s, 0, |s| - 1)[..|s| - 1], 0) + [s[0]]
  }

  /** Every parent from `k` on is in order with its children. */
  ghost predicate OrderedFrom(s: seq<Entry>, k: nat) {
    forall j :: 0 < j < |s| && k <= Parent(j) ==> s[Parent(j)].atime <= s[j].atime
  }

  /** As OrderedFrom, except that the entry at `i` may be younger than its descendants. */
  ghost predicate OrderedButBelow(s: seq<Entry>, k: nat, i: nat) {
    && (forall j :: 0 < j < |s| && k <= Parent(j) != i ==> s[Parent(j)].atime <= s[j].atime)
    && (forall j :: 0 < j < |s| && Parent(j) == i && 0 < i && k <= Parent(i) ==> s[Parent(i)].atime <= s[j].atime)
  }

  lemma {:induction false} SiftDownOrders(s: seq<Entry>, k: nat, i: nat)
    requires k <= i
    ensures Permuted(s, SiftDown(s, i))
    ensures OrderedButBelow(s, k, i) ==> OrderedFrom(SiftDown(s, i), k)
    decreases |s| - i
  {
    if 2 * i + 1 < |s| {
      var c := OlderChild(s, i);
      if s[i].atime > s[c].atime {
        SwapPermutes(s, i, c);
        SiftDownKeepsShape(s, k, i);
        SiftDownOrders(Swap(s, i, c), k, c);
      }
    }
  }

  lemma SiftDownKeepsShape(s: seq<Entry>, k: nat, i: nat)
    requires k <= i && 2 * i + 1 < |s| && s[i].atime > s[OlderChild(s, i)].atime
    ensures OrderedButBelow(s, k, i) ==> OrderedButBelow(Swap(s, i, OlderChild(s, i)), k, OlderChild(s, i))
  {
    var c := OlderChild(s, i);
    var t := Swap(s, i, c);
    if OrderedButBelow(s, k, i) {
      forall j | 0 < j < |t| && k <= Parent(j) != c ensures t[Parent(j)].atime <= t[j].atime {
        assert j == 2 * i + 1 || j == 2 * i + 2 || Parent(j) != i;
      }
    }
  }

  lemma {:induction false} HeapifyOrders(s: seq<Entry>, k: nat)
    requires OrderedFrom(s, k)
    ensures Ordered(Heapify(s, k)) && Permuted(s, Heapify(s, k))
    decreases k
  {
    if k != 0 {
      assert OrderedButBelow(s, k - 1, k - 1);
      SiftDownOrders(s, k - 1, k - 1);
      HeapifyOrders(SiftDown(s, k - 1), k - 1);
    }
  }

  /** make_heap makes a heap of anything. */
  lemma MakeHeapOrders(s: seq<Entry>)
    ensures Ordered(MakeHeap(s)) && Permuted(s, MakeHeap(s))
  {
    HeapifyOrders(s, |s| / 2);
  }

  lemma PopHeapPermutes(s: seq<Entry>)
    requires s != []
    ensures Permuted(s, PopHeap(s))
  {
    var n := |s| - 1;
    var t := Swap(s, 0, n);
    var low := t[..n];
    SwapPermutes(s, 0, n);
    SiftDownOrders(low, 0, 0);
    assert t == low + [s[0]];
    AppendPermutes(low, SiftDown(low, 0), s[0]);
  }

  lemma SwappedLow(s: seq<Entry>)
    requires s != [] && Ordered(s)
    ensures OrderedButBelow(Swap(s, 0, |s| - 1)[..|s| - 1], 0, 0)
  {
    var n := |s| - 1;
    var low := Swap(s, 0, n)[..n];
    forall j | 0 < j < n && 0 != Parent(j) ensures low[Parent(j)].atime <= low[j].atime {
      assert low[Parent(j)] == s[Parent(j)] && low[j] == s[j];
    }
  }

  /** pop_heap moves the front of a heap to the back and leaves a heap before it. */
  lemma PopHeapOrders(s: seq<Entry>)
    requires s != []
    ensures Permuted(s, PopHeap(s))
    ensures Ordered(s) ==> Ordered(PopHeap(s)[..|s| - 1])
  {
    var low := Swap(s, 0, |s| - 1)[..|s| - 1];
    PopHeapPermutes(s);
    assert PopHeap(s)[..|s| - 1] == SiftDown(low, 0);
    if Ordered(s) {
      SwappedLow(s);
      SiftDownOrders(low, 0, 0);
    }
  }

  lemma AppendPermutes(s: seq<Entry>, t: seq<Entry>, e: Entry)
    requires Permuted(s, t)
    ensures Permuted(s + [e], t + [e])
  {
    if Unique(s + [e]) {
      assert forall i, j :: 0 <= i < j < |s| ==> (s + [e])[i] == s[i] && (s + [e])[j] == s[j];
      forall i | 0 <= i < |t| ensures t[i].key != e.key && t[i].atime != e.atime {
        PermutedMembers(s, t, t[i]);
        var j :| 0 <= j < |s| && s[j] == t[i];
        assert (s + [e])[j] == s[j] && (s + [e])[|s|] == e;
      }
    }
  }

  /** The front of a heap is the oldest entry. */
  lemma {:induction false} FrontIsOldest(s: seq<Entry>, i: nat)
    requires Ordered(s) && i < |s|
    ensures s[0].atime <= s[i].atime
    decreases i
  {
    if i != 0 {
      FrontIsOldest(s, Parent(i));
    }
  }

  /** With distinct times the front of a heap is the one oldest entry. */
  lemma FrontIsTheOldest(s: seq<Entry>, e: Entry)
    requires Ordered(s) && e in s && forall d :: d in s ==> e.atime < d.atime || d == e
    ensures s[0] == e
  {
    var i :| 0 <= i < |s| && s[i] == e;
    FrontIsOldest(s, i);
    assert s[0] in s;
  }
}
