/** The priority queue of a lane: txQueue's order, and Go's container/heap driven through it. */
module TxHeap {
  import opened Transactions

  /** txQueue.Less: higher priority first, then earlier arrival. */
  predicate Before(a: TxMeta, b: TxMeta) {
    if a.priority != b.priority then a.priority > b.priority
    else a.receivedAt < b.receivedAt
  }

  /** `Less` is a strict weak order, and two entries tie only if priority and arrival both agree. */
  lemma BeforeIsStrictWeakOrder(a: TxMeta, b: TxMeta, c: TxMeta)
    ensures !(Before(a, b) && Before(b, a))
    ensures Before(a, b) && Before(b, c) ==> Before(a, c)
    ensures Before(a, c) ==> Before(a, b) || Before(b, c)
    ensures !Before(a, b) && !Before(b, a) <==> a.priority == b.priority && a.receivedAt == b.receivedAt
  {}

  function Parent(k: nat): nat
    requires k > 0
  {
    (k - 1) / 2
  }

  /** Entry k, if among the first n, does not come before its parent. */
  ghost predicate Edge(s: seq<TxMeta>, n: nat, k: int) {
    0 < k < n <= |s| ==> !Before(s[k], s[Parent(k)])
  }

  /** Nor before its grandparent. */
  ghost predicate SkipEdge(s: seq<TxMeta>, n: nat, k: int) {
    0 < k < n <= |s| && Parent(k) > 0 ==> !Before(s[k], s[Parent(Parent(k))])
  }

  /** Among the first n entries no child comes before its parent, for parents from `lo` on. */
  ghost predicate HeapFrom(s: seq<TxMeta>, n: nat, lo: nat) {
    n <= |s| && forall k: int {:trigger Edge(s, n, k)} :: 0 < k && Parent(k) >= lo ==> Edge(s, n, k)
  }

  ghost predicate Heap(s: seq<TxMeta>) {
    HeapFrom(s, |s|, 0)
  }

  /** HeapFrom, except at the edges of i; i's children are still no worse than i's parent. */
  ghost predicate HeapButAt(s: seq<TxMeta>, n: nat, lo: nat, i: nat) {
    && n <= |s|
    && (forall k: int {:trigger Edge(s, n, k)} :: 0 < k && Parent(k) >= lo && k != i && Parent(k) != i ==> Edge(s, n, k))
    && (i > 0 && Parent(i) >= lo ==> SkipsOver(s, n, i))
  }

  ghost predicate SkipsOver(s: seq<TxMeta>, n: nat, i: nat) {
    forall k: int {:trigger SkipEdge(s, n, k)} :: 0 < k && Parent(k) == i ==> SkipEdge(s, n, k)
  }

  ghost predicate LowerEdges(s: seq<TxMeta>, n: nat, i: nat) {
    n <= |s| && forall k: int {:trigger Edge(s, n, k)} :: 0 < k && Parent(k) == i ==> Edge(s, n, k)
  }

  /** Heap, except between j and its parent; j's children are still no worse than that parent. */
  ghost predicate HeapButAbove(s: seq<TxMeta>, n: nat, j: nat) {
    && n <= |s|
    && (forall k: int {:trigger Edge(s, n, k)} :: 0 < k && k != j ==> Edge(s, n, k))
    && (j > 0 ==> SkipsOver(s, n, j))
  }

  lemma {:induction false} RootIsFirst(s: seq<TxMeta>, k: nat)
    requires Heap(s) && k < |s|
    ensures !Before(s[k], s[0])
    decreases k
  {
    if k > 0 {
      assert Edge(s, |s|, k);
      RootIsFirst(s, Parent(k));
    }
  }

  function Swapped(s: seq<TxMeta>, i: nat, j: nat): seq<TxMeta>
    requires i < |s| && j < |s|
  {
    s[i := s[j]][j := s[i]]
  }

  ghost predicate SameFrom(s: seq<TxMeta>, t: seq<TxMeta>, n: nat) {
    |s| == |t| && forall k :: n <= k < |s| ==> s[k] == t[k]
  }

  lemma SwapPermutes(s: seq<TxMeta>, i: nat, j: nat)
    requires i < |s| && j < |s|
    ensures multiset(Swapped(s, i, j)) == multiset(s)
  {}

  /** One step up keeps everything but the new position's upper edge in order. */
  lemma UpStep(s: seq<TxMeta>, n: nat, j: nat)
    requires 0 < j < n && HeapButAbove(s, n, j) && Before(s[j], s[Parent(j)])
    ensures HeapButAbove(Swapped(s, Parent(j), j), n, Parent(j))
  {
    var p, t := Parent(j), Swapped(s, Parent(j), j);
    forall k: int | 0 < k && k != p
      ensures Edge(t, n, k)
    {
      assert k != j ==> Edge(s, n, k);
      assert Parent(k) == j ==> SkipEdge(s, n, k);
    }
    forall k: int | 0 < k && Parent(k) == p && p > 0
      ensures SkipEdge(t, n, k)
    {
      assert k != j ==> Edge(s, n, k);
      assert Edge(s, n, p);
    }
  }

  /** One step down to the child c that comes first keeps everything but c's lower edges in order. */
  lemma DownStep(s: seq<TxMeta>, n: nat, lo: nat, i: nat, c: nat)
    requires lo <= i < n && HeapButAt(s, n, lo, i)
    requires 0 < c < n && Parent(c) == i && Before(s[c], s[i])
    requires forall k :: 0 < k < n && Parent(k) == i ==> !Before(s[k], s[c])
    ensures var t := Swapped(s, i, c);
            && HeapButAt(t, n, lo, c) && Edge(t, n, c) && (i > 0 && Parent(i) >= lo ==> Edge(t, n, i))
  {
    var t := Swapped(s, i, c);
    if i > 0 && Parent(i) >= lo {
      assert SkipEdge(s, n, c);
    }
    forall k: int | 0 < k && Parent(k) >= lo && k != c && Parent(k) != c
      ensures Edge(t, n, k)
    {
      if k != i && Parent(k) != i {
        assert Edge(s, n, k);
      }
    }
    forall k: int | 0 < k && Parent(k) == c
      ensures SkipEdge(t, n, k)
    {
      assert Edge(s, n, k);
    }
  }

  lemma NoChildren(s: seq<TxMeta>, n: nat, i: nat)
    requires n <= |s| && 2 * i + 1 >= n
    ensures LowerEdges(s, n, i)
  {}

  /** The child that comes first; if even it does not come before i, no child does. */
  lemma FirstChild(s: seq<TxMeta>, n: nat, i: nat, j: nat)
    requires n <= |s| && 2 * i + 1 < n
    requires j == if 2 * i + 2 < n && Before(s[2 * i + 2], s[2 * i + 1]) then 2 * i + 2 else 2 * i + 1
    ensures Parent(j) == i
    ensures forall k :: 0 < k < n && Parent(k) == i ==> !Before(s[k], s[j])
    ensures !Before(s[j], s[i]) ==> LowerEdges(s, n, i)
  {
    assert forall k :: 0 < k < n && Parent(k) == i ==> k == 2 * i + 1 || k == 2 * i + 2;
  }

  /** A txQueue value; the heap operations below work on it in place. */
  class TxQueue {
    var items: seq<TxMeta>

    constructor ()
      ensures items == []
    {
      items := [];
    }

    function Len(): nat
      reads this
    {
      |items|
    }

    predicate Less(i: nat, j: nat)
      requires i < |items| && j < |items|
      reads this
    {
      Before(items[i], items[j])
    }

    method Swap(i: nat, j: nat)
      requires i < |items| && j < |items|
      modifies this
      ensures items == Swapped(old(items), i, j)
    {
      items := items[i := items[j]][j := items[i]];
    }

    method Push(x: TxMeta)
      modifies this
      ensures items == old(items) + [x]
    {
      items := items + [x];
    }

    method Pop() returns (x: TxMeta)
      requires items != []
      modifies this
      ensures old(items) == items + [x]
    {
      x := items[|items| - 1];
      items := items[..|items| - 1];
    }
  }

  /** What the upward loop keeps: s0 with the entry to be raised now at j. */
  ghost predicate Rising(s0: seq<TxMeta>, s: seq<TxMeta>, n: nat, j: nat) {
    && j < n && HeapButAbove(s, n, j)
    && SameFrom(s, s0, n) && multiset(s) == multiset(s0)
  }

  lemma RiseStep(s0: seq<TxMeta>, s: seq<TxMeta>, n: nat, j: nat)
    requires Rising(s0, s, n, j) && j > 0 && Before(s[j], s[Parent(j)])
    ensures Rising(s0, Swapped(s, Parent(j), j), n, Parent(j))
  {
    UpStep(s, n, j);
    SwapPermutes(s, Parent(j), j);
  }

  method Up(q: TxQueue, j0: nat, ghost n: nat)
    requires j0 < n && HeapButAbove(q.items, n, j0)
    modifies q
    ensures HeapFrom(q.items, n, 0)
    ensures multiset(q.items) == multiset(old(q.items)) && SameFrom(q.items, old(q.items), n)
  {
    var j: int := j0;
    while true
      invariant 0 <= j && Rising(old(q.items), q.items, n, j)
      decreases j
    {
      // Go's (j - 1) / 2 truncates to 0 at the root, where the loop stops
      var i: int := if j == 0 then 0 else (j - 1) / 2;
      if i == j || !q.Less(j, i) {
        RiseEnds(q.items, n, j);
        break;
      }
      RiseStep(old(q.items), q.items, n, j);
      q.Swap(i, j);
      j := i;
    }
  }

  /** What the downward loop keeps: s0 with the entry to be sunk, first at i0, now at i. */
  ghost predicate Sinking(s0: seq<TxMeta>, s: seq<TxMeta>, n: nat, lo: nat, i0: nat, i: nat) {
    && lo <= i0 <= i && HeapButAt(s, n, lo, i)
    && (i > i0 ==> Edge(s, n, i))
    && (i == i0 ==> s == s0)
    && SameFrom(s, s0, n) && multiset(s) == multiset(s0)
  }

  lemma SinkStep(s0: seq<TxMeta>, s: seq<TxMeta>, n: nat, lo: nat, i0: nat, i: nat, c: nat)
    requires Sinking(s0, s, n, lo, i0, i)
    requires 0 < c < n && Parent(c) == i && Before(s[c], s[i])
    requires forall k :: 0 < k < n && Parent(k) == i ==> !Before(s[k], s[c])
    ensures Sinking(s0, Swapped(s, i, c), n, lo, i0, c)
  {
    DownStep(s, n, lo, i, c);
    SwapPermutes(s, i, c);
  }

  lemma SinkEnds(s0: seq<TxMeta>, s: seq<TxMeta>, n: nat, lo: nat, i0: nat, i: nat)
    requires Sinking(s0, s, n, lo, i0, i) && LowerEdges(s, n, i) && i > i0
    ensures HeapFrom(s, n, lo)
  {
    forall k: int | 0 < k && Parent(k) >= lo
      ensures Edge(s, n, k)
    {}
  }

  lemma RiseEnds(s: seq<TxMeta>, n: nat, j: nat)
    requires HeapButAbove(s, n, j) && j < n && (j > 0 ==> !Before(s[j], s[Parent(j)]))
    ensures HeapFrom(s, n, 0)
  {
    forall k: int | 0 < k
      ensures Edge(s, n, k)
    {}
  }

  /** Sinks entry i0 among the first n; if it moved at all, its upper edge is in order too. */
  method Down(q: TxQueue, i0: nat, n: nat, ghost lo: nat) returns (moved: bool)
    requires lo <= i0 && n <= |q.items| && HeapButAt(q.items, n, lo, i0)
    modifies q
    ensures multiset(q.items) == multiset(old(q.items)) && SameFrom(q.items, old(q.items), n)
    ensures moved ==> HeapFrom(q.items, n, lo)
    ensures !moved ==> q.items == old(q.items) && LowerEdges(q.items, n, i0)
  {
    var i := i0;
    while true
      invariant Sinking(old(q.items), q.items, n, lo, i0, i)
      invariant n <= |q.items|
      decreases n - i
    {
      var j1 := 2 * i + 1;
      if j1 >= n {
        NoChildren(q.items, n, i);
        break;
      }
      var j := j1;
      var j2 := j1 + 1;
      if j2 < n && q.Less(j2, j1) {
        j := j2;
      }
      FirstChild(q.items, n, i, j);
      if !q.Less(j, i) {
        break;
      }
      SinkStep(old(q.items), q.items, n, lo, i0, i, j);
      q.Swap(i, j);
      i := j;
    }
    moved := i > i0;
    if moved {
      SinkEnds(old(q.items), q.items, n, lo, i0, i);
    }
  }

  lemma InitStep(s: seq<TxMeta>, n: nat, i: nat)
    requires i < n && HeapFrom(s, n, i + 1)
    ensures HeapButAt(s, n, i, i) && (LowerEdges(s, n, i) ==> HeapFrom(s, n, i))
  {
    forall k: int | 0 < k && Parent(k) >= i && Parent(k) != i
      ensures Edge(s, n, k)
    {}
    if LowerEdges(s, n, i) {
      forall k: int | 0 < k && Parent(k) >= i
        ensures Edge(s, n, k)
      {}
    }
  }

  lemma InitStart(s: seq<TxMeta>)
    ensures HeapFrom(s, |s|, |s| / 2)
  {
    forall k: int | 0 < k && Parent(k) >= |s| / 2
      ensures Edge(s, |s|, k)
    {}
  }

  /** Whatever replaces entry i, only the edges of i can be out of order. */
  lemma ReplaceStart(s: seq<TxMeta>, i: nat)
    requires Heap(s) && i < |s|
    ensures HeapButAt(Swapped(s, i, |s| - 1), |s| - 1, 0, i)
  {
    var n, t := |s| - 1, Swapped(s, i, |s| - 1);
    forall k: int | 0 < k && k != i && Parent(k) != i
      ensures Edge(t, n, k)
    {
      assert Edge(s, |s|, k);
    }
    forall k: int | 0 < k && Parent(k) == i && i > 0
      ensures SkipEdge(t, n, k)
    {
      assert Edge(s, |s|, k) && Edge(s, |s|, i);
    }
  }

  lemma NotMoved(s: seq<TxMeta>, n: nat, i: nat)
    requires HeapButAt(s, n, 0, i) && LowerEdges(s, n, i)
    ensures HeapButAbove(s, n, i) && (i == 0 || i >= n ==> HeapFrom(s, n, 0))
  {
    forall k: int | 0 < k && k != i
      ensures Edge(s, n, k)
    {}
  }

  lemma AllButLast(s: seq<TxMeta>)
    requires Heap(s) && s != []
    ensures HeapFrom(s, |s| - 1, 0)
  {
    var n := |s| - 1;
    forall k: int | 0 < k
      ensures Edge(s, n, k)
    {
      assert Edge(s, |s|, k);
    }
  }

  lemma DropLast(s: seq<TxMeta>)
    requires s != [] && HeapFrom(s, |s| - 1, 0)
    ensures Heap(s[..|s| - 1])
    ensures multiset(s) == multiset(s[..|s| - 1]) + multiset{s[|s| - 1]}
  {
    var t := s[..|s| - 1];
    assert s == t + [s[|s| - 1]];
    forall k: int | 0 < k
      ensures Edge(t, |t|, k)
    {
      assert Edge(s, |s| - 1, k);
    }
  }

  lemma AppendStart(s: seq<TxMeta>, x: TxMeta)
    requires Heap(s)
    ensures HeapButAbove(s + [x], |s| + 1, |s|)
  {
    var t := s + [x];
    forall k: int | 0 < k && k != |s|
      ensures Edge(t, |t|, k)
    {
      assert Edge(s, |s|, k);
    }
  }

  method HeapInit(q: TxQueue)
    modifies q
    ensures Heap(q.items) && multiset(q.items) == multiset(old(q.items))
  {
    var n: int := q.Len();
    var i: int := n / 2 - 1;
    InitStart(q.items);
    while i >= 0
      invariant -1 <= i < n / 2 && n == |q.items| == |old(q.items)|
      invariant HeapFrom(q.items, n, i + 1)
      invariant multiset(q.items) == multiset(old(q.items))
    {
      InitStep(q.items, n, i);
      var _ := Down(q, i, n, i);
      i := i - 1;
    }
  }

  method HeapPush(q: TxQueue, x: TxMeta)
    requires Heap(q.items)
    modifies q
    ensures Heap(q.items) && multiset(q.items) == multiset(old(q.items)) + multiset{x}
  {
    AppendStart(q.items, x);
    q.Push(x);
    Up(q, q.Len() - 1, q.Len());
  }

  /** Removes an entry that no other entry comes before. */
  method HeapPop(q: TxQueue) returns (x: TxMeta)
    requires Heap(q.items) && q.items != []
    modifies q
    ensures Heap(q.items) && multiset(q.items) + multiset{x} == multiset(old(q.items))
    ensures x == old(q.items)[0] && forall k :: 0 <= k < |old(q.items)| ==> !Before(old(q.items)[k], x)
  {
    hide Heap, HeapFrom, HeapButAt, HeapButAbove, LowerEdges;
    forall k | 0 <= k < |q.items|
      ensures !Before(q.items[k], q.items[0])
    {
      RootIsFirst(q.items, k);
    }
    var n := q.Len() - 1;
    ReplaceStart(q.items, 0);
    SwapPermutes(q.items, 0, n);
    q.Swap(0, n);
    ghost var s := q.items;
    var moved := Down(q, 0, n, 0);
    if !moved {
      NotMoved(s, n, 0);
    }
    DropLast(q.items);
    x := q.Pop();
  }

  /** Removes the entry at any index. */
  method HeapRemove(q: TxQueue, i: nat) returns (x: TxMeta)
    requires Heap(q.items) && i < |q.items|
    modifies q
    ensures Heap(q.items) && multiset(q.items) + multiset{x} == multiset(old(q.items))
    ensures x == old(q.items)[i]
  {
    hide Heap, HeapFrom, HeapButAt, HeapButAbove, LowerEdges;
    var n := q.Len() - 1;
    if n != i {
      ReplaceStart(q.items, i);
      SwapPermutes(q.items, i, n);
      q.Swap(i, n);
      ghost var s := q.items;
      var moved := Down(q, i, n, 0);
      if !moved {
        NotMoved(s, n, i);
        Up(q, i, n);
      }
    } else {
      AllButLast(q.items);
    }
    DropLast(q.items);
    x := q.Pop();
  }
}
