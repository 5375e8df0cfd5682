/**
 * The heap sort of (offset, length, process) entries: it leaves the entries
 * alone and fills an array with their indices in order of offset.
 */
module HeapSort {

  datatype OffLen = OffLen(offset: int, length: int, processId: int)

  /** t holds each of 0..n-1 once. */
  ghost predicate Permutation(t: seq<int>, n: nat) {
    && |t| == n
    && (forall i :: 0 <= i < n ==> 0 <= t[i] < n)
    && forall i, j :: 0 <= i < j < n ==> t[i] != t[j]
  }

  function Key(e: seq<OffLen>, t: seq<int>, i: nat): int
    requires i < |t| && 0 <= t[i] < |e|
  {
    e[t[i]].offset
  }

  ghost predicate Indices(e: seq<OffLen>, t: seq<int>) {
    forall i :: 0 <= i < |t| ==> 0 <= t[i] < |e|
  }

  function Parent(c: int): int {
    (c - 1) / 2
  }

  /** Entries lo.. of the first n dominate their children. */
  ghost predicate Heap(e: seq<OffLen>, t: seq<int>, lo: nat, n: nat)
    requires n <= |t| && Indices(e, t)
  {
    forall c :: 0 < c < n && lo <= Parent(c) ==> Key(e, t, Parent(c)) >= Key(e, t, c)
  }

  /** The same but for entry j, whose children its own parent still dominates. */
  ghost predicate HoleHeap(e: seq<OffLen>, t: seq<int>, lo: nat, n: nat, j: nat)
    requires n <= |t| && Indices(e, t)
  {
    && (forall c :: 0 < c < n && lo <= Parent(c) && Parent(c) != j ==> Key(e, t, Parent(c)) >= Key(e, t, c))
    && (forall c :: 0 < c < n && Parent(c) == j && 0 < j && lo <= Parent(j) ==> Key(e, t, Parent(j)) >= Key(e, t, c))
  }

  function Swap(t: seq<int>, i: nat, j: nat): (r: seq<int>)
    requires i < |t| && j < |t|
    ensures |r| == |t|
  {
    t[i := t[j]][j := t[i]]
  }

  ghost function Elements(t: seq<int>, n: nat): set<int>
    requires n <= |t|
  {
    set i | 0 <= i < n :: t[i]
  }

  lemma SwapElements(t: seq<int>, i: nat, j: nat, n: nat)
    requires i < n && j < n <= |t|
    ensures Elements(Swap(t, i, j), n) == Elements(t, n)
  {
    var u := Swap(t, i, j);
    assert u[i] == t[j] && u[j] == t[i];
    assert forall k :: 0 <= k < n && k != i && k != j ==> u[k] == t[k];
    forall x | x in Elements(t, n)
      ensures x in Elements(u, n)
    {
      var k :| 0 <= k < n && t[k] == x;
      assert x == u[if k == i then j else if k == j then i else k];
    }
    forall x | x in Elements(u, n)
      ensures x in Elements(t, n)
    {
      var k :| 0 <= k < n && u[k] == x;
      assert x == t[if k == i then j else if k == j then i else k];
    }
  }

  /** l is j, or the child of j to swap it with. */
  ghost predicate Largest(e: seq<OffLen>, t: seq<int>, n: nat, j: nat, l: nat)
    requires n <= |t| && Indices(e, t)
  {
    && j <= l < n
    && (l == j || (Parent(l) == j && Key(e, t, l) > Key(e, t, j)))
    && forall c :: 0 < c < n && Parent(c) == j ==> Key(e, t, c) <= Key(e, t, l)
  }

  /** Swapping the hole with its larger child moves the hole down. */
  lemma HoleMovesDown(e: seq<OffLen>, t: seq<int>, lo: nat, n: nat, j: nat, l: nat)
    requires n <= |t| && Indices(e, t) && HoleHeap(e, t, lo, n, j)
    requires lo <= j < l && Largest(e, t, n, j, l)
    ensures Indices(e, Swap(t, j, l)) && HoleHeap(e, Swap(t, j, l), lo, n, l)
  {
    var u := Swap(t, j, l);
    forall c | 0 < c < n && lo <= Parent(c) && Parent(c) != l
      ensures Key(e, u, Parent(c)) >= Key(e, u, c)
    {
      if c == j {
        assert Key(e, t, Parent(j)) >= Key(e, t, l);
      }
    }
  }

  /** What sifting has changed since t0: the hole is at j, the entries from n on and the set of the others are as they were. */
  ghost predicate Sifting(e: seq<OffLen>, t0: seq<int>, t: seq<int>, lo: nat, n: nat, j: nat, swaps: nat)
    requires |t0| >= n
  {
    && Permutation(t, |e|) && |t0| == |t|
    && lo <= j < n && HoleHeap(e, t, lo, n, j)
    && t[n..] == t0[n..] && Elements(t, n) == Elements(t0, n)
    && Doubled(lo + 1, swaps) <= j + 1
  }

  lemma SwapPermutation(t: seq<int>, i: nat, j: nat, n: nat)
    requires Permutation(t, n) && i < n && j < n
    ensures Permutation(Swap(t, i, j), n)
  {
  }

  lemma SiftTurn(e: seq<OffLen>, t0: seq<int>, t: seq<int>, lo: nat, n: nat, j: nat, swaps: nat, l: nat)
    requires |t0| >= n && Sifting(e, t0, t, lo, n, j, swaps)
    requires Largest(e, t, n, j, l) && j != l
    ensures Sifting(e, t0, Swap(t, j, l), lo, n, l, swaps + 1)
  {
    HoleMovesDown(e, t, lo, n, j, l);
    SwapElements(t, j, l, n);
    SwapPermutation(t, j, l, |e|);
    assert Swap(t, j, l)[n..] == t[n..];
  }

  // ----- counting swaps -----

  function Pow2(t: nat): nat {
    if t == 0 then 1 else 2 * Pow2(t - 1)
  }

  /** p, doubled t times. */
  function Doubled(p: nat, t: nat): nat {
    if t == 0 then p else 2 * Doubled(p, t - 1)
  }

  lemma {:induction false} DoubledIsProduct(p: nat, t: nat)
    ensures Doubled(p, t) == Pow2(t) * p
  {
    if t > 0 {
      DoubledIsProduct(p, t - 1);
    }
  }

  lemma {:induction false} DoubledFirst(p: nat, t: nat)
    requires t > 0
    ensures Doubled(p, t) == Doubled(2 * p, t - 1) && Doubled(p, t - 1) >= p
  {
    if t > 1 {
      DoubledFirst(p, t - 1);
    }
  }

  /** How often 1-based position j can be doubled without passing n: the height of its subtree. */
  function Height(j: nat, n: nat): nat
    requires j > 0
    decreases n - j
  {
    if n < 2 * j then 0 else 1 + Height(2 * j, n)
  }

  lemma {:induction false} HeightBounds(j: nat, n: nat, t: nat)
    requires j > 0 && Doubled(j, t) <= n
    ensures t <= Height(j, n)
    decreases t
  {
    if t > 0 {
      DoubledFirst(j, t);
      HeightBounds(2 * j, n, t - 1);
    }
  }

  lemma {:induction false} HeightOfHalf(j: nat, n: nat)
    requires j > 0 && 2 * j <= n
    ensures Height(j, n) == 1 + Height(j, n / 2)
    decreases n - j
  {
    if 2 * (2 * j) <= n {
      HeightOfHalf(2 * j, n);
    }
  }

  /** Heights of the 1-based positions up to m in a heap of n entries. */
  function Heights(m: nat, n: nat): nat {
    if m == 0 then 0 else Heights(m - 1, n) + Height(m, n)
  }

  lemma {:induction false} HeightsOfHalf(m: nat, n: nat)
    requires 2 * m <= n
    ensures Heights(m, n) == m + Heights(m, n / 2)
  {
    if m > 0 {
      HeightsOfHalf(m - 1, n);
      HeightOfHalf(m, n);
    }
  }

  lemma {:induction false} LeavesAddNothing(m: nat, n: nat)
    requires n / 2 <= m
    ensures Heights(m, n) == Heights(n / 2, n)
  {
    if n / 2 < m {
      LeavesAddNothing(m - 1, n);
    }
  }

  /** Building a heap of n entries costs fewer than n swaps. */
  lemma {:induction false} HeightsBound(n: nat)
    requires n > 0
    ensures Heights(n / 2, n) <= n - 1
  {
    if n > 1 {
      HeightsOfHalf(n / 2, n);
      LeavesAddNothing(n / 2, n / 2);
      HeightsBound(n / 2);
    }
  }

  lemma {:induction false} HeightsGrow(m: nat, k: nat, n: nat)
    requires m <= k
    ensures Heights(m, n) <= Heights(k, n)
  {
    if m < k {
      HeightsGrow(m, k - 1, n);
    }
  }

  /** floor(log2 i) for i > 0. */
  function Log2(i: nat): nat
    requires i > 0
  {
    Height(1, i)
  }

  lemma LogIsFloor(i: nat)
    requires i > 0
    ensures Pow2(Log2(i)) <= i < Pow2(Log2(i) + 1)
  {
    HeightIsFloor(1, i);
    DoubledIsProduct(1, Log2(i));
    DoubledIsProduct(1, Log2(i) + 1);
  }

  lemma {:induction false} HeightIsFloor(j: nat, n: nat)
    requires 0 < j <= n
    ensures Doubled(j, Height(j, n)) <= n < Doubled(j, Height(j, n) + 1)
    decreases n - j
  {
    if 2 * j <= n {
      HeightIsFloor(2 * j, n);
      DoubledFirst(j, Height(j, n));
      DoubledFirst(j, Height(j, n) + 1);
    }
  }

  /** The sum of floor(log2 k) for k from 1 to m. */
  function LogSum(m: nat): nat {
    if m == 0 then 0 else LogSum(m - 1) + Log2(m)
  }

  lemma {:induction false} Pow2Grows(a: nat, b: nat)
    requires a < b
    ensures 2 * Pow2(a) <= Pow2(b)
  {
    if a + 1 < b {
      Pow2Grows(a, b - 1);
    }
  }

  /** The logarithm is the next one only at a power of two. */
  lemma LogNext(m: nat)
    requires m > 0
    ensures Log2(m + 1) == if m + 1 == Pow2(Log2(m) + 1) then Log2(m) + 1 else Log2(m)
  {
    var a, b := Log2(m), Log2(m + 1);
    LogIsFloor(m);
    LogIsFloor(m + 1);
    if b < a {
      Pow2Grows(b, a);
    } else if a + 1 < b {
      Pow2Grows(a + 1, b);
    }
  }

  lemma BudgetStep(m: nat, l: nat)
    ensures (m + 1) * l == m * l + l && (m + 1) * (l + 1) == m * l + l + m + 1
  {
  }

  /** The extraction's budget for m + 1 entries: (m + 1) * floor(log2 m) - 2^(floor(log2 m) + 1) + 2. */
  lemma {:induction false} LogSumIs(m: nat)
    requires m > 0
    ensures LogSum(m) == (m + 1) * Log2(m) - Pow2(Log2(m) + 1) + 2
  {
    if m == 1 {
      assert LogSum(1) == LogSum(0) + Log2(1) && Log2(1) == 0;
    } else {
      var l := Log2(m - 1);
      LogSumIs(m - 1);
      LogNext(m - 1);
      BudgetStep(m, l);
    }
  }

  // ----- the sort -----

  method PickLargest(e: seq<OffLen>, a: array<int>, n: nat, j: nat) returns (largest: nat)
    requires j < n <= a.Length && Indices(e, a[..])
    ensures Largest(e, a[..], n, j, largest)
  {
    var left, right := j * 2 + 1, j * 2 + 2;
    if left < n && e[a[left]].offset > e[a[j]].offset {
      largest := left;
    } else {
      largest := j;
    }
    if right < n && e[a[right]].offset > e[a[largest]].offset {
      largest := right;
    }
    assert forall c :: 0 < c < n && Parent(c) == j ==> c == left || c == right;
  }

  method Exchange(a: array<int>, i: nat, j: nat)
    requires i < a.Length && j < a.Length
    modifies a
    ensures a[..] == Swap(old(a[..]), i, j)
  {
    a[i], a[j] := a[j], a[i];
  }

  /** Moves entry lo down until the heap on entries lo..n-1 is restored, and counts the swaps. */
  method SiftDown(e: seq<OffLen>, a: array<int>, lo: nat, n: nat) returns (ghost swaps: nat)
    requires lo < n <= a.Length && Permutation(a[..], |e|)
    requires HoleHeap(e, a[..], lo, n, lo)
    modifies a
    ensures Permutation(a[..], |e|) && Heap(e, a[..], lo, n)
    ensures a[n..] == old(a[n..]) && Elements(a[..], n) == Elements(old(a[..]), n)
    ensures Pow2(swaps) * (lo + 1) <= n && swaps <= Height(lo + 1, n)
  {
    var done, j := false, lo;
    swaps := 0;
    while !done
      invariant Sifting(e, old(a[..]), a[..], lo, n, j, swaps)
      invariant done ==> Heap(e, a[..], lo, n)
      decreases !done, n - j
    {
      var largest := PickLargest(e, a, n, j);
      if largest != j {
        SiftTurn(e, old(a[..]), a[..], lo, n, j, swaps, largest);
        Exchange(a, j, largest);
        swaps := swaps + 1;
        j := largest;
      } else {
        done := true;
      }
    }
    assert a[n..] == a[..][n..] && old(a[n..]) == old(a[..])[n..];
    DoubledIsProduct(lo + 1, swaps);
    HeightBounds(lo + 1, n, swaps);
  }

  // ----- the two phases -----

  /** What the extraction has reached: entries n.. are in order and none of the first n exceeds them. */
  ghost predicate Extracting(e: seq<OffLen>, t: seq<int>, n: nat) {
    && Permutation(t, |e|) && n <= |t|
    && (forall i, j :: n <= i < j < |t| ==> Key(e, t, i) <= Key(e, t, j))
    && (forall i, j :: 0 <= i < n <= j < |t| ==> Key(e, t, i) <= Key(e, t, j))
  }

  lemma {:induction false} RootIsLargest(e: seq<OffLen>, t: seq<int>, n: nat, i: nat)
    requires n <= |t| && Indices(e, t) && Heap(e, t, 0, n) && i < n
    ensures Key(e, t, 0) >= Key(e, t, i)
    decreases i
  {
    if i > 0 {
      RootIsLargest(e, t, n, Parent(i));
    }
  }

  /** Swapping the root behind the heap puts one more entry in its place. */
  lemma RootGoesLast(e: seq<OffLen>, t: seq<int>, n: nat)
    requires Extracting(e, t, n + 1) && Heap(e, t, 0, n + 1) && 0 < n
    ensures Extracting(e, Swap(t, 0, n), n)
    ensures HoleHeap(e, Swap(t, 0, n), 0, n, 0)
  {
    var u := Swap(t, 0, n);
    SwapPermutation(t, 0, n, |e|);
    forall i | 0 <= i <= n
      ensures Key(e, t, 0) >= Key(e, t, i)
    {
      RootIsLargest(e, t, n + 1, i);
    }
    assert forall i :: n < i < |t| ==> Key(e, u, i) == Key(e, t, i);
    assert forall i :: 0 < i < n ==> Key(e, u, i) == Key(e, t, i);
    assert Key(e, u, 0) == Key(e, t, n) && Key(e, u, n) == Key(e, t, 0);
    assert forall i :: 0 <= i < n ==> Key(e, u, i) <= Key(e, u, n);
    forall i, j | n <= i < j < |t|
      ensures Key(e, u, i) <= Key(e, u, j)
    {
      assert Key(e, t, if i == n then 0 else i) <= Key(e, t, j);
    }
  }

  /** Sifting moves entries only inside the heap, so it keeps the extraction's order. */
  lemma SiftKeepsOrder(e: seq<OffLen>, t: seq<int>, u: seq<int>, n: nat)
    requires Extracting(e, t, n) && Permutation(u, |e|)
    requires t[n..] == u[n..] && Elements(t, n) == Elements(u, n)
    ensures Extracting(e, u, n)
  {
    forall j | n <= j < |t|
      ensures u[j] == t[j] && Key(e, u, j) == Key(e, t, j)
    {
      assert u[n..][j - n] == t[n..][j - n];
    }
    forall i, j | n <= i < j < |t|
      ensures Key(e, u, i) <= Key(e, u, j)
    {
      assert Key(e, t, i) <= Key(e, t, j);
    }
    forall i, j | 0 <= i < n <= j < |t|
      ensures Key(e, u, i) <= Key(e, u, j)
    {
      assert u[i] in Elements(t, n);
      var k :| 0 <= k < n && t[k] == u[i];
      assert Key(e, t, k) <= Key(e, t, j);
    }
  }

  method BuildHeap(e: seq<OffLen>, a: array<int>) returns (ghost swaps: nat)
    requires Permutation(a[..], |e|) && a.Length > 0
    modifies a
    ensures Permutation(a[..], |e|) && Heap(e, a[..], 0, a.Length)
    ensures swaps <= a.Length - 1
  {
    var n := a.Length;
    var i: int := n / 2 - 1;
    swaps := 0;
    while i >= 0
      invariant -1 <= i < n
      invariant Permutation(a[..], |e|) && Heap(e, a[..], i + 1, n)
      invariant Heights(i + 1, n) + swaps <= Heights(n / 2, n)
    {
      ghost var more := SiftDown(e, a, i, n);
      swaps := swaps + more;
      i := i - 1;
    }
    HeightsBound(n);
  }

  /** One turn of the extraction: the root goes behind the heap, and what came in its place is sifted. */
  method ExtractRoot(e: seq<OffLen>, a: array<int>, i: nat) returns (ghost swaps: nat)
    requires 0 < i < a.Length && Extracting(e, a[..], i + 1) && Heap(e, a[..], 0, i + 1)
    modifies a
    ensures Extracting(e, a[..], i) && Heap(e, a[..], 0, i)
    ensures a[i + 1..] == old(a[i + 1..]) && swaps <= Log2(i)
  {
    RootGoesLast(e, a[..], i);
    ghost var swapped := Swap(a[..], 0, i);
    Exchange(a, 0, i);
    swaps := SiftDown(e, a, 0, i);
    assert swapped[i..] == a[..][i..];
    assert a[i + 1..] == a[i..][1..] == swapped[i + 1..];
    SiftKeepsOrder(e, swapped, a[..], i);
  }

  method Extract(e: seq<OffLen>, a: array<int>, sorted: array<int>) returns (ghost swaps: nat)
    requires Permutation(a[..], |e|) && a.Length > 0 && Heap(e, a[..], 0, a.Length)
    requires sorted != a && sorted.Length == a.Length
    modifies a, sorted
    ensures Extracting(e, sorted[..], 1)
    ensures swaps <= LogSum(a.Length - 1)
  {
    swaps := 0;
    var i := a.Length - 1;
    while i >= 1
      invariant 0 <= i < a.Length
      invariant Extracting(e, a[..], i + 1) && Heap(e, a[..], 0, i + 1)
      invariant sorted[i + 1..] == a[i + 1..]
      invariant swaps + LogSum(i) <= LogSum(a.Length - 1)
    {
      ghost var more := ExtractRoot(e, a, i);
      swaps := swaps + more;
      Store(sorted, a, i);
      i := i - 1;
    }
    Store(sorted, a, 0);
    assert sorted[..] == a[..];
  }

  method Store(sorted: array<int>, a: array<int>, i: nat)
    requires sorted != a && i < a.Length == sorted.Length && sorted[i + 1..] == a[i + 1..]
    modifies sorted
    ensures sorted[i..] == a[i..]
  {
    sorted[i] := a[i];
    assert sorted[i..] == [sorted[i]] + sorted[i + 1..];
    assert a[i..] == [a[i]] + a[i + 1..];
  }

  /**
   * Fills sorted with the indices of the entries in order of offset. The swap
   * counts are those of the two phases.
   */
  method SortOffLen(e: seq<OffLen>, sorted: array<int>) returns (ghost buildSwaps: nat, ghost extractSwaps: nat)
    requires |e| > 0 && sorted.Length == |e|
    modifies sorted
    ensures Permutation(sorted[..], |e|)
    ensures forall i, j :: 0 <= i < j < |e| ==>
              && 0 <= sorted[i] < |e| && 0 <= sorted[j] < |e| && e[sorted[i]].offset <= e[sorted[j]].offset
    ensures buildSwaps <= |e| - 1 && extractSwaps <= LogSum(|e| - 1)
  {
    var tempArr := new int[|e|](i => i);
    buildSwaps := BuildHeap(e, tempArr);
    extractSwaps := Extract(e, tempArr, sorted);
    forall i, j | 0 <= i < j < |e|
      ensures 0 <= sorted[i] < |e| && 0 <= sorted[j] < |e| && e[sorted[i]].offset <= e[sorted[j]].offset
    {
      assert Key(e, sorted[..], i) <= Key(e, sorted[..], j);
    }
  }

  /** Distinct indices in range leave none out. */
  lemma PermutationIsOnto(t: seq<int>, n: nat, x: int)
    requires Permutation(t, n) && 0 <= x < n
    ensures x in t
  {
    var s := Elements(t, n);
    ElementsCount(t, n);
    if x !in t {
      assert s <= UpTo(n) - {x};
      SubsetCount(s, UpTo(n) - {x});
    }
  }

  lemma {:induction false} ElementsCount(t: seq<int>, k: nat)
    requires k <= |t| && forall i, j :: 0 <= i < j < |t| ==> t[i] != t[j]
    ensures |Elements(t, k)| == k
  {
    if k > 0 {
      ElementsCount(t, k - 1);
      assert Elements(t, k) == Elements(t, k - 1) + {t[k - 1]};
    }
  }

  ghost function UpTo(n: nat): (s: set<int>)
    ensures |s| == n && forall x :: x in s <==> 0 <= x < n
  {
    if n == 0 then {} else UpTo(n - 1) + {n - 1}
  }

  lemma {:induction false} SubsetCount<T>(a: set<T>, b: set<T>)
    requires a <= b
    ensures |a| <= |b|
  {
    if a != {} {
      var x :| x in a;
      SubsetCount(a - {x}, b - {x});
    }
  }
}
