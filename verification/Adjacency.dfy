/**
 * Which processes touch neighbouring parts of the file: a matrix that counts,
 * over the entries in file order, how often two processes are next to each
 * other, and its compressed-row form.
 */
module Adjacency {
  import opened HeapSort

  type Matrix = seq<seq<nat>>

  ghost predicate Square(rows: Matrix, size: nat) {
    |rows| == size && forall i :: 0 <= i < size ==> |rows[i]| == size
  }

  ghost function Rows(a: array2<nat>): (rows: Matrix)
    reads a
    ensures |rows| == a.Length0 && forall i :: 0 <= i < |rows| ==> |rows[i]| == a.Length1
    ensures forall i, j {:trigger rows[i][j]} :: 0 <= i < a.Length0 && 0 <= j < a.Length1 ==> rows[i][j] == a[i, j]
  {
    seq(a.Length0, i requires 0 <= i < a.Length0 reads a =>
      seq(a.Length1, j requires 0 <= j < a.Length1 reads a => a[i, j]))
  }

  // ----- the matrix -----

  /** How many of the first k neighbouring pairs are (i, j), in this order. */
  function Pairs(ids: seq<nat>, k: nat, i: nat, j: nat): nat
    requires k < |ids| || k == 0
  {
    if k == 0 then 0
    else Pairs(ids, k - 1, i, j) + if ids[k - 1] == i && ids[k] == j then 1 else 0
  }

  /** Each entry counts the neighbouring pairs both ways round. */
  ghost predicate CountsPairs(rows: Matrix, size: nat, ids: seq<nat>, k: nat)
    requires k < |ids| || k == 0
  {
    && Square(rows, size)
    && forall i, j {:trigger rows[i][j]} :: 0 <= i < size && 0 <= j < size ==>
         rows[i][j] == Pairs(ids, k, i, j) + Pairs(ids, k, j, i)
  }

  ghost predicate Symmetric(rows: Matrix, size: nat) {
    Square(rows, size) && forall i, j :: 0 <= i < size && 0 <= j < size ==> rows[i][j] == rows[j][i]
  }

  lemma CountsAreSymmetric(rows: Matrix, size: nat, ids: seq<nat>, k: nat)
    requires (k < |ids| || k == 0) && CountsPairs(rows, size, ids, k)
    ensures Symmetric(rows, size)
  {
  }

  function RowSum(row: seq<nat>): nat {
    if row == [] then 0 else RowSum(row[..|row| - 1]) + row[|row| - 1]
  }

  function MatrixSum(rows: Matrix): nat {
    if rows == [] then 0 else MatrixSum(rows[..|rows| - 1]) + RowSum(rows[|rows| - 1])
  }

  lemma {:induction false} RowSumBump(row: seq<nat>, j: nat)
    requires j < |row|
    ensures RowSum(row[j := row[j] + 1]) == RowSum(row) + 1
  {
    var bumped := row[j := row[j] + 1];
    if j == |row| - 1 {
      assert bumped[..|row| - 1] == row[..|row| - 1];
    } else {
      RowSumBump(row[..|row| - 1], j);
      assert bumped[..|row| - 1] == row[..|row| - 1][j := row[j] + 1];
    }
  }

  function Bump(rows: Matrix, i: nat, j: nat): Matrix
    requires i < |rows| && j < |rows[i]|
  {
    rows[i := rows[i][j := rows[i][j] + 1]]
  }

  lemma {:induction false} MatrixSumBump(rows: Matrix, i: nat, j: nat)
    requires i < |rows| && j < |rows[i]|
    ensures MatrixSum(Bump(rows, i, j)) == MatrixSum(rows) + 1
  {
    var bumped := Bump(rows, i, j);
    if i == |rows| - 1 {
      RowSumBump(rows[i], j);
      assert bumped[..|rows| - 1] == rows[..|rows| - 1];
    } else {
      MatrixSumBump(rows[..|rows| - 1], i, j);
      assert bumped[..|rows| - 1] == Bump(rows[..|rows| - 1], i, j);
    }
  }

  lemma {:induction false} ZeroMatrixSum(rows: Matrix)
    requires forall i, j :: 0 <= i < |rows| && 0 <= j < |rows[i]| ==> rows[i][j] == 0
    ensures MatrixSum(rows) == 0
  {
    if rows != [] {
      ZeroMatrixSum(rows[..|rows| - 1]);
      ZeroRowSum(rows[|rows| - 1]);
    }
  }

  lemma {:induction false} ZeroRowSum(row: seq<nat>)
    requires forall j :: 0 <= j < |row| ==> row[j] == 0
    ensures RowSum(row) == 0
  {
    if row != [] {
      ZeroRowSum(row[..|row| - 1]);
    }
  }

  ghost predicate ProcessesBelow(e: seq<OffLen>, size: nat) {
    forall i :: 0 <= i < |e| ==> 0 <= e[i].processId < size
  }

  /** The processes of the entries, in the order of the sort. */
  function Ids(e: seq<OffLen>, sorted: seq<int>, size: nat): (ids: seq<nat>)
    requires Indices(e, sorted) && ProcessesBelow(e, size)
    ensures |ids| == |sorted|
    ensures forall i :: 0 <= i < |ids| ==> ids[i] == e[sorted[i]].processId < size
  {
    seq(|sorted|, i requires 0 <= i < |sorted| => e[sorted[i]].processId)
  }

  method Increment(adj: array2<nat>, i: nat, j: nat)
    requires i < adj.Length0 && j < adj.Length1
    modifies adj
    ensures Rows(adj) == Bump(old(Rows(adj)), i, j)
  {
    ghost var bumped := Bump(Rows(adj), i, j);
    adj[i, j] := adj[i, j] + 1;
    forall k | 0 <= k < adj.Length0
      ensures Rows(adj)[k] == bumped[k]
    {
      assert forall l :: 0 <= l < adj.Length1 ==> Rows(adj)[k][l] == adj[k, l];
    }
  }

  lemma CountsNextPair(rows: Matrix, size: nat, ids: seq<nat>, k: nat, j: nat, l: nat)
    requires k + 1 < |ids| && ids[k] == j < size && ids[k + 1] == l < size
    requires CountsPairs(rows, size, ids, k)
    ensures CountsPairs(Bump(Bump(rows, j, l), l, j), size, ids, k + 1)
  {
  }

  /** The first k pairs are counted, twice each. */
  ghost predicate Counted(rows: Matrix, size: nat, ids: seq<nat>, k: nat)
    requires k < |ids| || k == 0
  {
    CountsPairs(rows, size, ids, k) && MatrixSum(rows) == 2 * k
  }

  /** One neighbouring pair is counted at both of its places. */
  method CountPair(adj: array2<nat>, size: nat, ghost ids: seq<nat>, ghost k: nat, j: nat, l: nat)
    requires adj.Length0 == adj.Length1 == size && j < size && l < size
    requires k + 1 < |ids| && ids[k] == j && ids[k + 1] == l
    requires Counted(Rows(adj), size, ids, k)
    modifies adj
    ensures Counted(Rows(adj), size, ids, k + 1)
  {
    ghost var rows := Rows(adj);
    CountsNextPair(rows, size, ids, k, j, l);
    MatrixSumBump(rows, j, l);
    MatrixSumBump(Bump(rows, j, l), l, j);
    Increment(adj, j, l);
    Increment(adj, l, j);
  }

  method ZeroMatrix(size: nat, ghost ids: seq<nat>) returns (adj: array2<nat>)
    ensures fresh(adj) && adj.Length0 == adj.Length1 == size
    ensures Counted(Rows(adj), size, ids, 0)
  {
    adj := new nat[size, size]((_, _) => 0);
    ZeroMatrixSum(Rows(adj));
  }

  predicate Touch(e: seq<OffLen>, sorted: seq<int>, k: int, p: int, q: int)
    requires Indices(e, sorted) && 0 <= k < |sorted| - 1
  {
    e[sorted[k]].processId == p && e[sorted[k + 1]].processId == q
  }

  predicate IsPair(ids: seq<nat>, k: int, p: nat, q: nat)
    requires 0 <= k < |ids| - 1
  {
    ids[k] == p && ids[k + 1] == q
  }

  /** The places in file order where an entry of process p is followed by one of process q. */
  ghost function Touching(e: seq<OffLen>, sorted: seq<int>, p: int, q: int): (s: set<int>)
    requires Indices(e, sorted)
  {
    set k | 0 <= k < |sorted| - 1 && Touch(e, sorted, k, p, q)
  }

  ghost function PairsAt(ids: seq<nat>, n: nat, p: nat, q: nat): set<int>
    requires n < |ids| || n == 0
  {
    set k | 0 <= k < n && IsPair(ids, k, p, q)
  }

  lemma PairsNext(ids: seq<nat>, n: nat, p: nat, q: nat)
    requires 0 < n < |ids|
    ensures n - 1 !in PairsAt(ids, n - 1, p, q)
    ensures PairsAt(ids, n, p, q) == PairsAt(ids, n - 1, p, q) + if IsPair(ids, n - 1, p, q) then {n - 1} else {}
  {
  }

  lemma OneMore<T>(s: set<T>, x: T)
    requires x !in s
    ensures |s + {x}| == |s| + 1
  {
  }

  lemma {:induction false} PairsAreCounted(ids: seq<nat>, n: nat, p: nat, q: nat)
    requires n < |ids| || n == 0
    ensures Pairs(ids, n, p, q) == |PairsAt(ids, n, p, q)|
  {
    if n > 0 {
      PairsAreCounted(ids, n - 1, p, q);
      PairsNext(ids, n, p, q);
      OneMore(PairsAt(ids, n - 1, p, q), n - 1);
    }
  }

  /** A matrix that counts the pairs has in each cell how often its two processes touch, either way round. */
  lemma CellsCountTouching(rows: Matrix, e: seq<OffLen>, sorted: seq<int>, size: nat, p: nat, q: nat)
    requires Indices(e, sorted) && sorted != [] && ProcessesBelow(e, size) && p < size && q < size
    requires CountsPairs(rows, size, Ids(e, sorted, size), |sorted| - 1)
    ensures rows[p][q] == |Touching(e, sorted, p, q)| + |Touching(e, sorted, q, p)|
  {
    var ids, n := Ids(e, sorted, size), |sorted| - 1;
    PairsAreCounted(ids, n, p, q);
    PairsAreCounted(ids, n, q, p);
    assert PairsAt(ids, n, p, q) == Touching(e, sorted, p, q);
    assert PairsAt(ids, n, q, p) == Touching(e, sorted, q, p);
  }

  lemma TouchingCounted(adj: array2<nat>, e: seq<OffLen>, sorted: seq<int>, size: nat)
    requires Indices(e, sorted) && sorted != [] && ProcessesBelow(e, size) && adj.Length0 == adj.Length1 == size
    requires CountsPairs(Rows(adj), size, Ids(e, sorted, size), |sorted| - 1)
    ensures forall p, q {:trigger adj[p, q]} :: 0 <= p < size && 0 <= q < size ==>
              adj[p, q] == |Touching(e, sorted, p, q)| + |Touching(e, sorted, q, p)|
  {
    forall p, q | 0 <= p < size && 0 <= q < size
      ensures adj[p, q] == |Touching(e, sorted, p, q)| + |Touching(e, sorted, q, p)|
    {
      CellsCountTouching(Rows(adj), e, sorted, size, p, q);
    }
  }

  /** The adjacency matrix of entries that a sort has put in file order. */
  method Build(e: seq<OffLen>, sorted: array<int>, size: nat) returns (adj: array2<nat>)
    requires |e| > 0 && Permutation(sorted[..], |e|) && ProcessesBelow(e, size)
    ensures fresh(adj) && adj.Length0 == adj.Length1 == size
    ensures CountsPairs(Rows(adj), size, Ids(e, sorted[..], size), |e| - 1)
    ensures MatrixSum(Rows(adj)) == 2 * (|e| - 1)
    ensures forall p, q {:trigger adj[p, q]} :: 0 <= p < size && 0 <= q < size ==>
              adj[p, q] == |Touching(e, sorted[..], p, q)| + |Touching(e, sorted[..], q, p)|
  {
    ghost var order := sorted[..];
    adj := ZeroMatrix(size, Ids(e, order, size));
    var i := 0;
    while i < |e| - 1
      invariant i <= |e| - 1
      invariant Counted(Rows(adj), size, Ids(e, order, size), i)
    {
      CountNeighbours(e, sorted[i], sorted[i + 1], adj, size, order, i);
      i := i + 1;
    }
    TouchingCounted(adj, e, order, size);
  }

  method CountNeighbours(e: seq<OffLen>, a: int, b: int, adj: array2<nat>, size: nat, ghost order: seq<int>, ghost k: nat)
    requires adj.Length0 == adj.Length1 == size && Permutation(order, |e|) && ProcessesBelow(e, size)
    requires k + 1 < |order| && a == order[k] && b == order[k + 1]
    requires Counted(Rows(adj), size, Ids(e, order, size), k)
    modifies adj
    ensures Counted(Rows(adj), size, Ids(e, order, size), k + 1)
  {
    var j, l := e[a].processId, e[b].processId;
    CountPair(adj, size, Ids(e, order, size), k, j, l);
  }

  // ----- compressed rows -----

  datatype Cell = Cell(col: nat, val: nat)

  /** The non-zero cells among the first j columns of a row. */
  function RowCells(row: seq<nat>, j: nat): seq<Cell>
    requires j <= |row|
  {
    if j == 0 then []
    else RowCells(row, j - 1) + if row[j - 1] > 0 then [Cell(j - 1, row[j - 1])] else []
  }

  /** The non-zero cells of the first i rows, row by row. */
  function Cells(rows: Matrix, i: nat): seq<Cell>
    requires i <= |rows|
  {
    if i == 0 then [] else Cells(rows, i - 1) + RowCells(rows[i - 1], |rows[i - 1]|)
  }

  function Zip(columnList: seq<nat>, values: seq<nat>): (cells: seq<Cell>)
    requires |columnList| == |values|
    ensures |cells| == |values|
    ensures forall k :: 0 <= k < |cells| ==> cells[k] == Cell(columnList[k], values[k])
  {
    seq(|values|, k requires 0 <= k < |values| => Cell(columnList[k], values[k]))
  }

  /** Row starts, counted from 1, that divide n cells. */
  ghost predicate RowStarts(rowIndex: seq<nat>, size: nat, n: nat) {
    |rowIndex| == size + 1 && forall i, j :: 0 <= i <= j <= size ==> 1 <= rowIndex[i] <= rowIndex[j] <= n + 1
  }

  /** The cells of row i: from its start to the next row's. */
  function RowOf(cells: seq<Cell>, rowIndex: seq<nat>, i: nat): seq<Cell>
    requires i + 1 < |rowIndex| && 1 <= rowIndex[i] <= rowIndex[i + 1] <= |cells| + 1
  {
    cells[rowIndex[i] - 1..rowIndex[i + 1] - 1]
  }

  lemma RowStartsRise(rowIndex: seq<nat>, size: nat, n: nat, i: nat)
    requires RowStarts(rowIndex, size, n) && i < size
    ensures 1 <= rowIndex[i] <= rowIndex[i + 1] <= n + 1
  {
    var next := i + 1;
    assert 1 <= rowIndex[i] <= rowIndex[next] <= n + 1;
  }

  /** A matrix from its compressed rows. */
  ghost function Decode(columnList: seq<nat>, values: seq<nat>, rowIndex: seq<nat>, size: nat): Matrix
    requires |values| == |columnList| && RowStarts(rowIndex, size, |values|)
  {
    seq(size, i requires 0 <= i < size => DecodeRow(columnList, values, rowIndex, size, i))
  }

  ghost function DecodeRow(columnList: seq<nat>, values: seq<nat>, rowIndex: seq<nat>, size: nat, i: nat): (row: seq<nat>)
    requires |values| == |columnList| && RowStarts(rowIndex, size, |values|) && i < size
    ensures |row| == size
  {
    RowStartsRise(rowIndex, size, |values|, i);
    var cells := RowOf(Zip(columnList, values), rowIndex, i);
    seq(size, j => Lookup(cells, j))
  }

  /** The value stored for column j, 0 if there is none. */
  function Lookup(cells: seq<Cell>, j: int): nat {
    if cells == [] then 0
    else if cells[0].col == j then cells[0].val
    else Lookup(cells[1..], j)
  }

  lemma {:induction false} RowCellsIncrease(row: seq<nat>, n: nat)
    requires n <= |row|
    ensures forall i :: 0 <= i < |RowCells(row, n)| ==>
              RowCells(row, n)[i].col < n && row[RowCells(row, n)[i].col] == RowCells(row, n)[i].val > 0
    ensures forall i, j :: 0 <= i < j < |RowCells(row, n)| ==> RowCells(row, n)[i].col < RowCells(row, n)[j].col
  {
    if n > 0 {
      RowCellsIncrease(row, n - 1);
    }
  }

  lemma {:induction false} RowCellsComplete(row: seq<nat>, n: nat, j: nat)
    requires j < n <= |row| && row[j] > 0
    ensures Cell(j, row[j]) in RowCells(row, n)
  {
    if j < n - 1 {
      RowCellsComplete(row, n - 1, j);
    }
  }

  lemma {:induction false} CellsGrow(rows: Matrix, i: nat, n: nat)
    requires i <= n <= |rows|
    ensures Cells(rows, i) <= Cells(rows, n)
  {
    if i < n {
      CellsGrow(rows, i, n - 1);
    }
  }

  lemma {:induction false} LookupFinds(cells: seq<Cell>, j: int, k: nat)
    requires k < |cells| && cells[k].col == j
    requires forall i :: 0 <= i < k ==> cells[i].col != j
    ensures Lookup(cells, j) == cells[k].val
  {
    if 0 < k {
      LookupFinds(cells[1..], j, k - 1);
    }
  }

  lemma {:induction false} LookupMisses(cells: seq<Cell>, j: int)
    requires forall i :: 0 <= i < |cells| ==> cells[i].col != j
    ensures Lookup(cells, j) == 0
  {
    if cells != [] {
      LookupMisses(cells[1..], j);
    }
  }

  /** The three arrays hold the non-zero cells in row order and where each row starts. */
  ghost predicate Compressed(rows: Matrix, size: nat, columnList: seq<nat>, values: seq<nat>, rowIndex: seq<nat>) {
    && Square(rows, size)
    && |rowIndex| == size + 1 && |values| == |columnList|
    && Zip(columnList, values) == Cells(rows, size)
    && forall i :: 0 <= i <= size ==> rowIndex[i] == 1 + |Cells(rows, i)|
  }

  lemma RowSegment(rows: Matrix, size: nat, i: nat)
    requires Square(rows, size) && i < size
    ensures |Cells(rows, i)| + |RowCells(rows[i], size)| == |Cells(rows, i + 1)| <= |Cells(rows, size)|
    ensures Cells(rows, size)[|Cells(rows, i)|..|Cells(rows, i + 1)|] == RowCells(rows[i], size)
  {
    CellsGrow(rows, i + 1, size);
    var all, part := Cells(rows, size), Cells(rows, i + 1);
    assert all[..|part|] == part;
    assert all[|Cells(rows, i)|..|part|] == part[|Cells(rows, i)|..];
  }

  lemma CompressedStarts(rows: Matrix, size: nat, columnList: seq<nat>, values: seq<nat>, rowIndex: seq<nat>)
    requires Compressed(rows, size, columnList, values, rowIndex)
    ensures RowStarts(rowIndex, size, |values|)
  {
    forall i, j | 0 <= i <= j <= size
      ensures 1 <= rowIndex[i] <= rowIndex[j] <= |values| + 1
    {
      CellsGrow(rows, i, j);
      CellsGrow(rows, j, size);
    }
  }

  /** The stretch of the compressed form that belongs to row i is the row's cells. */
  lemma RowOfIsRowCells(rows: Matrix, size: nat, columnList: seq<nat>, values: seq<nat>, rowIndex: seq<nat>, i: nat)
    requires Compressed(rows, size, columnList, values, rowIndex) && i < size
    ensures 1 <= rowIndex[i] <= rowIndex[i + 1] <= |values| + 1
    ensures RowOf(Zip(columnList, values), rowIndex, i) == RowCells(rows[i], size)
  {
    var next := i + 1;
    assert rowIndex[next] == 1 + |Cells(rows, next)|;
    RowSegment(rows, size, i);
  }

  /** Within each row's stretch the columns strictly increase, and every value is positive. */
  lemma ColumnsIncrease(rows: Matrix, size: nat, columnList: seq<nat>, values: seq<nat>, rowIndex: seq<nat>, i: nat)
    requires Compressed(rows, size, columnList, values, rowIndex) && i < size
    ensures 1 <= rowIndex[i] <= rowIndex[i + 1] <= |values| + 1
    ensures var cells := RowOf(Zip(columnList, values), rowIndex, i);
            && (forall k, l :: 0 <= k < l < |cells| ==> cells[k].col < cells[l].col)
            && (forall k :: 0 <= k < |cells| ==> cells[k].col < size && cells[k].val > 0)
  {
    RowOfIsRowCells(rows, size, columnList, values, rowIndex, i);
    RowCellsIncrease(rows[i], size);
  }

  lemma LookupInRow(row: seq<nat>, j: nat)
    requires j < |row|
    ensures Lookup(RowCells(row, |row|), j) == row[j]
  {
    var cells := RowCells(row, |row|);
    RowCellsIncrease(row, |row|);
    if row[j] > 0 {
      RowCellsComplete(row, |row|, j);
      var k :| 0 <= k < |cells| && cells[k] == Cell(j, row[j]);
      LookupFinds(cells, j, k);
    } else {
      LookupMisses(cells, j);
    }
  }

  /** Decoding the compressed rows gives the matrix back. */
  lemma CompressedRoundTrip(rows: Matrix, size: nat, columnList: seq<nat>, values: seq<nat>, rowIndex: seq<nat>)
    requires Compressed(rows, size, columnList, values, rowIndex)
    ensures RowStarts(rowIndex, size, |values|) && Decode(columnList, values, rowIndex, size) == rows
  {
    CompressedStarts(rows, size, columnList, values, rowIndex);
    var decoded := Decode(columnList, values, rowIndex, size);
    forall i | 0 <= i < size
      ensures decoded[i] == rows[i]
    {
      RowOfIsRowCells(rows, size, columnList, values, rowIndex, i);
      forall j | 0 <= j < size
        ensures decoded[i][j] == rows[i][j]
      {
        LookupInRow(rows[i], j);
      }
    }
  }

  /** How many cells are not zero. */
  method CountCells(adj: array2<nat>) returns (m: nat)
    requires adj.Length0 == adj.Length1
    ensures m == |Cells(Rows(adj), adj.Length0)|
  {
    m := 0;
    ghost var rows := Rows(adj);
    for i := 0 to adj.Length0
      invariant m == |Cells(rows, i)|
    {
      for j := 0 to adj.Length1
        invariant m == |Cells(rows, i)| + |RowCells(rows[i], j)|
      {
        if adj[i, j] > 0 {
          m := m + 1;
        }
      }
    }
  }

  /** The first k places hold the given cells. */
  ghost predicate HoldsCells(values: array<nat>, columnList: array<nat>, cells: seq<Cell>)
    reads values, columnList
  {
    && |cells| <= values.Length && |cells| <= columnList.Length
    && forall k :: 0 <= k < |cells| ==> Cell(columnList[k], values[k]) == cells[k]
  }

  method CompressRow(adj: array2<nat>, i: nat, values: array<nat>, columnList: array<nat>, start: nat,
                     ghost row: seq<nat>, ghost before: seq<Cell>)
    returns (next: nat)
    requires i < adj.Length0 && values != columnList
    requires |row| == adj.Length1 && forall j :: 0 <= j < |row| ==> row[j] == adj[i, j]
    requires start == |before| && HoldsCells(values, columnList, before)
    requires start + |RowCells(row, |row|)| <= values.Length == columnList.Length
    modifies values, columnList
    ensures HoldsCells(values, columnList, before + RowCells(row, |row|))
    ensures next == start + |RowCells(row, |row|)|
  {
    next := start;
    for j := 0 to adj.Length1
      invariant next == start + |RowCells(row, j)|
      invariant HoldsCells(values, columnList, before + RowCells(row, j))
    {
      RowCellsGrow(row, j + 1, |row|);
      if adj[i, j] > 0 {
        values[next] := adj[i, j];
        columnList[next] := j;
        next := next + 1;
        assert before + RowCells(row, j + 1) == before + RowCells(row, j) + [Cell(j, row[j])];
      } else {
        assert RowCells(row, j + 1) == RowCells(row, j);
      }
    }
  }

  lemma {:induction false} RowCellsGrow(row: seq<nat>, j: nat, n: nat)
    requires j <= n <= |row|
    ensures |RowCells(row, j)| <= |RowCells(row, n)|
  {
    if j < n {
      RowCellsGrow(row, j, n - 1);
    }
  }

  /** The first i rows are compressed, columnIndex cells so far. */
  ghost predicate Compressing(rows: Matrix, i: nat, columnIndex: nat, columnList: array<nat>, values: array<nat>, rowIndex: array<nat>)
    reads columnList, values, rowIndex
  {
    && values.Length == columnList.Length && values != columnList && rowIndex != values && rowIndex != columnList
    && rowIndex.Length == |rows| + 1 && i <= |rows|
    && columnIndex == |Cells(rows, i)|
    && HoldsCells(values, columnList, Cells(rows, i))
    && forall k :: 0 <= k <= i ==> rowIndex[k] == 1 + |Cells(rows, k)|
  }

  method CompressNext(adj: array2<nat>, ghost rows: Matrix, i: nat, columnIndex: nat,
                      columnList: array<nat>, values: array<nat>, rowIndex: array<nat>)
    returns (next: nat)
    requires i < |rows| == adj.Length0 && rows == Rows(adj)
    requires Compressing(rows, i, columnIndex, columnList, values, rowIndex)
    requires |Cells(rows, |rows|)| == values.Length
    modifies columnList, values, rowIndex
    ensures Compressing(rows, i + 1, next, columnList, values, rowIndex)
  {
    CellsGrow(rows, i + 1, |rows|);
    next := CompressRow(adj, i, values, columnList, columnIndex, rows[i], Cells(rows, i));
    rowIndex[i + 1] := next + 1;
  }

  method Allocate(size: nat, m: nat, ghost rows: Matrix) returns (columnList: array<nat>, values: array<nat>, rowIndex: array<nat>)
    requires |rows| == size
    ensures fresh(columnList) && fresh(values) && fresh(rowIndex) && values.Length == m
    ensures Compressing(rows, 0, 0, columnList, values, rowIndex)
  {
    columnList, values := new nat[m](_ => 0), new nat[m](_ => 0);
    rowIndex := new nat[size + 1](_ => 0);
    rowIndex[0] := 1;
  }

  /** The compressed rows of the matrix; the arrays of m places are filled exactly. */
  method Compress(adj: array2<nat>, size: nat) returns (columnList: array<nat>, values: array<nat>, rowIndex: array<nat>, m: nat)
    requires adj.Length0 == adj.Length1 == size
    ensures values.Length == columnList.Length == m && rowIndex.Length == size + 1
    ensures Compressed(Rows(adj), size, columnList[..], values[..], rowIndex[..])
    ensures rowIndex[0] == 1 && rowIndex[size] == m + 1
  {
    ghost var rows := Rows(adj);
    m := CountCells(adj);
    columnList, values, rowIndex := Allocate(size, m, rows);
    var i, columnIndex := 0, 0;
    while i < size
      invariant i <= size
      invariant Compressing(rows, i, columnIndex, columnList, values, rowIndex)
    {
      columnIndex := CompressNext(adj, rows, i, columnIndex, columnList, values, rowIndex);
      i := i + 1;
    }
    CompressedAll(rows, columnIndex, columnList, values, rowIndex);
  }

  lemma CompressedAll(rows: Matrix, m: nat, columnList: array<nat>, values: array<nat>, rowIndex: array<nat>)
    requires Compressing(rows, |rows|, m, columnList, values, rowIndex) && values.Length == m
    requires Square(rows, |rows|)
    ensures Compressed(rows, |rows|, columnList[..], values[..], rowIndex[..])
    ensures rowIndex[0] == 1 && rowIndex[|rows|] == m + 1
  {
    assert Zip(columnList[..], values[..]) == Cells(rows, |rows|);
  }
}
