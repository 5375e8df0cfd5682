/**
 * The elements of a dimension dealt out to processes (section 4.1.4 of MPI
 * 3.1), in blocks or round by round: together the processes hold as many as
 * there are. And the grid in which the processes are arranged.
 */
module Distribution {
  import opened Arith
  import opened DirectIo

  /** What the first n processes hold of a dimension of g elements dealt out in blocks of b. */
  function BlocksHeld(g: nat, b: nat, n: nat): nat {
    if n == 0 then 0 else BlocksHeld(g, b, n - 1) + BlockPiece(g, b, n - 1)
  }

  lemma {:induction false} BlocksHeldAre(g: nat, b: nat, n: nat)
    ensures BlocksHeld(g, b, n) == if g <= b * n then g else b * n
  {
    if n > 0 {
      BlocksHeldAre(g, b, n - 1);
      assert b * n == b * (n - 1) + b;
    }
  }

  /** What the first n processes hold from start on, dealt out k elements at a time. */
  function StretchesHeld(g: nat, k: nat, start: nat, step: nat, n: nat): nat
    requires k > 0 && step > 0
  {
    if n == 0 then 0
    else StretchesHeld(g, k, start, step, n - 1) + Sum(CyclicPieces(g, k, start + k * (n - 1), step))
  }

  /** What of the elements from start on the first n stretches of a round take. */
  function RoundHeld(g: nat, k: nat, start: nat, n: nat): nat {
    if g <= start then 0 else if g - start <= k * n then g - start else k * n
  }

  lemma RoundShorter(k: nat, n: nat)
    requires n > 0
    ensures k * (n - 1) <= k * n
  {
  }

  lemma LastProcess(g: nat, k: nat, start: nat, step: nat, n: nat, at: nat)
    requires k > 0 && step > 0 && n > 0 && at == start + k * (n - 1)
    ensures StretchesHeld(g, k, start, step, n)
         == StretchesHeld(g, k, start, step, n - 1) + Sum(CyclicPieces(g, k, at, step))
  {
  }

  lemma {:induction false} RoundAndRest(g: nat, k: nat, start: nat, step: nat, n: nat)
    requires k > 0 && step > 0 && k * n <= step
    ensures StretchesHeld(g, k, start, step, n) == RoundHeld(g, k, start, n) + StretchesHeld(g, k, start + step, step, n)
    decreases n
  {
    if n > 0 {
      var at: nat := start + k * (n - 1);
      RoundShorter(k, n);
      RoundAndRest(g, k, start, step, n - 1);
      FirstStretch(g, k, at, step);
      RoundGrows(g, k, start, n);
      LastProcess(g, k, start, step, n, at);
      LastProcess(g, k, start + step, step, n, at + step);
    }
  }

  lemma FirstStretch(g: nat, k: nat, start: nat, step: nat)
    requires k > 0 && step > 0
    ensures Sum(CyclicPieces(g, k, start, step)) ==
            (if g <= start then 0 else if g - start < k then g - start else k) + Sum(CyclicPieces(g, k, start + step, step))
  {
    if g > start {
      var pieces := CyclicPieces(g, k, start, step);
      assert pieces[1..] == CyclicPieces(g, k, start + step, step);
    }
  }

  lemma RoundGrows(g: nat, k: nat, start: nat, n: nat)
    requires n > 0
    ensures var at := start + k * (n - 1);
            RoundHeld(g, k, start, n) ==
            RoundHeld(g, k, start, n - 1) + if g <= at then 0 else if g - at < k then g - at else k
  {
    assert k * n == k * (n - 1) + k;
  }

  lemma {:induction false} NoStretches(g: nat, k: nat, start: nat, step: nat, n: nat)
    requires k > 0 && step > 0 && g <= start
    ensures StretchesHeld(g, k, start, step, n) == 0
    decreases n
  {
    if n > 0 {
      NoStretches(g, k, start, step, n - 1);
    }
  }

  /** Round after round, all that is left from start on is held. */
  lemma {:induction false} StretchesHeldAre(g: nat, k: nat, start: nat, p: nat)
    requires k > 0 && p > 0 && k * p > 0
    ensures StretchesHeld(g, k, start, k * p, p) == if g <= start then 0 else g - start
    decreases g - start
  {
    if g <= start {
      NoStretches(g, k, start, k * p, p);
    } else {
      RoundAndRest(g, k, start, k * p, p);
      StretchesHeldAre(g, k, start + k * p, p);
    }
  }

  /** A dimension dealt out to p processes, in blocks or round by round, is dealt out whole. */
  lemma DealtOutWhole(g: nat, p: nat, darg: int)
    requires g > 0 && p > 0 && (darg == DFLT_DARG || darg > 0)
    ensures darg == DFLT_DARG || g <= darg * p ==> BlocksHeld(g, BlockSize(g, p, darg), p) == g
    ensures var k: nat := if darg == DFLT_DARG then 1 else darg; k * p > 0 && StretchesHeld(g, k, 0, k * p, p) == g
  {
    var k: nat := if darg == DFLT_DARG then 1 else darg;
    MulPositive(k, p);
    StretchesHeldAre(g, k, 0, p);
    if darg == DFLT_DARG || g <= darg * p {
      BlockSizeCovers(g, p, darg);
      BlocksHeldAre(g, BlockSize(g, p, darg), p);
    }
  }

  // ----- the grid of processes -----

  /** The number of a process from its coordinates, the last running fastest. */
  function RankOf(coordinates: seq<nat>, psizes: seq<nat>): nat
    requires |coordinates| == |psizes|
  {
    if psizes == [] then 0
    else
      var n := |psizes| - 1;
      RankOf(coordinates[..n], psizes[..n]) * psizes[n] + coordinates[n]
  }

  function Coordinates(rank: nat, psizes: seq<nat>): (r: seq<nat>)
    requires forall j :: 0 <= j < |psizes| ==> psizes[j] > 0
    ensures |r| == |psizes| && forall k :: 0 <= k < |r| ==> r[k] == Coordinate(rank, psizes, k)
  {
    seq(|psizes|, k requires 0 <= k < |psizes| => Coordinate(rank, psizes, k))
  }

  lemma NestedProduct(q: nat, a: nat, s: nat, b: nat)
    ensures (q * a + s) * b == q * (a * b) + s * b
  {
  }

  lemma RestFits(s: nat, a: nat, b: nat, r: nat)
    requires s < a && r < b
    ensures s * b + r < a * b
  {
    MulAtLeast(a - s, b);
    assert (a - s) * b == a * b - s * b;
  }

  lemma QuotientOfBoth(x: nat, y: nat, r: nat, q: nat, s: nat, a: nat, b: nat, n: nat, m: nat)
    requires x == y * b + r && y == q * a + s && n == a * b && m == s * b + r && s < a && r < b
    ensures n > 0 && x / n == q
  {
    NestedProduct(q, a, s, b);
    RestFits(s, a, b, r);
    DivModUnique(q, n, m);
  }

  lemma DivideTwice(x: nat, a: nat, b: nat)
    requires a > 0 && b > 0 && a * b > 0
    ensures x / (a * b) == (x / b) / a
  {
    var y, r := x / b, x % b;
    var q, s := y / a, y % a;
    QuotientOfBoth(x, y, r, q, s, a, b, a * b, s * b + r);
  }

  lemma ProductFront(s: seq<nat>)
    requires s != []
    ensures Product(s) == Product(s[..|s| - 1]) * s[|s| - 1]
  {
    ProductSplit(s, |s| - 1);
    ProductAt(s, |s| - 1);
    assert s[|s|..] == [] && s[|s| - 1 + 1..] == [];
  }

  /** The other coordinates are those of the quotient in the smaller grid. */
  lemma FrontCoordinate(rank: nat, psizes: seq<nat>, k: nat)
    requires k + 1 < |psizes| && forall j :: 0 <= j < |psizes| ==> psizes[j] > 0
    ensures Coordinate(rank, psizes, k) == Coordinate(rank / psizes[|psizes| - 1], psizes[..|psizes| - 1], k)
  {
    var n := |psizes| - 1;
    var rest, front := psizes[k + 1..], psizes[..n][k + 1..];
    assert rest[..|rest| - 1] == front && rest[|rest| - 1] == psizes[n];
    ProductFront(rest);
    ProductPositive(front);
    ProductPositive(rest);
    DivideTwice(rank, Product(front), psizes[n]);
  }

  lemma FrontCoordinates(rank: nat, psizes: seq<nat>)
    requires psizes != [] && forall j :: 0 <= j < |psizes| ==> psizes[j] > 0
    ensures var n := |psizes| - 1;
            && Coordinates(rank, psizes)[..n] == Coordinates(rank / psizes[n], psizes[..n])
            && Coordinates(rank, psizes)[n] == rank % psizes[n]
  {
    var n := |psizes| - 1;
    forall k | 0 <= k < n
      ensures Coordinates(rank, psizes)[k] == Coordinates(rank / psizes[n], psizes[..n])[k]
    {
      FrontCoordinate(rank, psizes, k);
    }
    assert psizes[n + 1..] == [];
  }

  lemma QuotientAndRest(rank: nat, a: nat, p: nat)
    requires p > 0 && rank < a * p
    ensures rank / p < a && (rank / p) * p + rank % p == rank
  {
    QuotientAtLeast(rank, p, a);
  }

  /** A process is known by its coordinates: they give its number back. */
  lemma {:induction false} RankRoundTrip(rank: nat, psizes: seq<nat>)
    requires (forall j :: 0 <= j < |psizes| ==> psizes[j] > 0) && rank < Product(psizes)
    ensures RankOf(Coordinates(rank, psizes), psizes) == rank
    decreases |psizes|
  {
    if psizes != [] {
      var n := |psizes| - 1;
      ProductFront(psizes);
      QuotientAndRest(rank, Product(psizes[..n]), psizes[n]);
      RankRoundTrip(rank / psizes[n], psizes[..n]);
      FrontCoordinates(rank, psizes);
    }
  }
}
