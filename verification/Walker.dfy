/**
 * The view walker: it turns the next maxData bytes of the stream into file
 * ranges and leaves its place in the view for the next call.
 */
module Walker {
  import opened AddressMap
  import opened Arith

  /** Where a walk stands in its view; copy counts the tiles already passed. */
  datatype Cursor = Cursor(offset: int, totalBytes: nat, index: nat, position: nat)

  ghost predicate CursorValid(v: View, c: Cursor, copy: nat) {
    && c.index < |v.blocks|
    && c.position == Size(v.blocks[..c.index])
    && c.position <= c.totalBytes <= c.position + v.blocks[c.index].len
    && c.offset == v.disp + v.extent * copy
  }

  function CursorIn(v: View, copy: nat, r: nat): (c: Cursor)
    requires r < ViewSize(v)
    ensures CursorValid(v, c, copy) && c.totalBytes == r + 1 && c.position < c.totalBytes
  {
    var j := BlockOf(v.blocks, r);
    SizeStep(v.blocks, j);
    Cursor(v.disp + v.extent * copy, r + 1, j, Size(v.blocks[..j]))
  }

  /**
   * The cursor after a non-empty walk that ends at stream position s: it sits
   * in the block, and the copy, of the last byte emitted.
   */
  function CursorAfter(v: View, s: nat): Cursor
    requires ViewSize(v) > 0 && s > 0
  {
    CursorIn(v, (s - 1) / ViewSize(v), (s - 1) % ViewSize(v))
  }

  lemma CursorInDetermined(v: View, c: Cursor, copy: nat)
    requires CursorValid(v, c, copy) && c.position < c.totalBytes
    ensures c.totalBytes - 1 < ViewSize(v) && c == CursorIn(v, copy, c.totalBytes - 1)
  {
    SizeStep(v.blocks, c.index);
    BlockOfUnique(v.blocks, c.totalBytes - 1, c.index);
  }

  /** A cursor that has consumed part of its block is the one its stream position determines. */
  lemma CursorDetermined(v: View, c: Cursor, copy: nat, s: nat)
    requires ViewSize(v) > 0 && CursorValid(v, c, copy) && c.position < c.totalBytes
    requires s == copy * ViewSize(v) + c.totalBytes
    ensures c == CursorAfter(v, s)
  {
    CursorInDetermined(v, c, copy);
    DivModUnique(copy, ViewSize(v), c.totalBytes - 1);
    assert copy * ViewSize(v) + (c.totalBytes - 1) == s - 1;
  }

  /** What a walk of n bytes from stream position s comes to: the addresses, and where it leaves the cursor. */
  function Walk(v: View, c: Cursor, s: nat, n: nat): (seq<int>, Cursor)
    requires ViewSize(v) > 0
  {
    (Addresses(v, s, n), if n == 0 then c else CursorAfter(v, s + n))
  }

  /** Walking a bytes and then b is walking a + b, across any number of block ends and copies. */
  lemma SplitInvariant(v: View, c: Cursor, s: nat, a: nat, b: nat)
    requires ViewSize(v) > 0
    ensures var (first, c') := Walk(v, c, s, a);
            var (second, c'') := Walk(v, c', s + a, b);
            Walk(v, c, s, a + b) == (first + second, c'')
  {
    AddressesSplit(v, s, a, b);
    assert s + a + b == s + (a + b);
  }

  // ----- the two steps of one turn of the walk -----

  function Rest(v: View, c: Cursor): int
    requires c.index < |v.blocks|
  {
    v.blocks[c.index].len - (c.totalBytes - c.position)
  }

  /** In a view without bytes every block is used up at once: a turn never emits anything. */
  lemma EmptyViewEmitsNothing(v: View, c: Cursor, copy: nat)
    requires CursorValid(v, c, copy) && ViewSize(v) == 0
    ensures Rest(v, c) == 0 && v.blocks[c.index].len == 0
  {
    SizeStep(v.blocks, c.index);
    SizeMonotone(v.blocks, c.index + 1, |v.blocks|);
  }

  lemma AdvanceBlock(v: View, c: Cursor, copy: nat)
    requires CursorValid(v, c, copy) && Rest(v, c) == 0 && c.index + 1 < |v.blocks|
    ensures CursorValid(v, Cursor(c.offset, c.totalBytes, c.index + 1, c.position + v.blocks[c.index].len), copy)
  {
    SizeStep(v.blocks, c.index);
  }

  lemma AdvanceCopy(v: View, c: Cursor, copy: nat)
    requires CursorValid(v, c, copy) && Rest(v, c) == 0 && c.index + 1 == |v.blocks|
    ensures CursorValid(v, Cursor(c.offset + v.extent, 0, 0, 0), copy + 1)
    ensures copy * ViewSize(v) + c.totalBytes == (copy + 1) * ViewSize(v)
  {
    SizeStep(v.blocks, c.index);
    assert v.blocks[..|v.blocks|] == v.blocks && v.blocks[..0] == [];
    assert v.extent * (copy + 1) == v.extent * copy + v.extent;
    assert (copy + 1) * ViewSize(v) == copy * ViewSize(v) + ViewSize(v);
  }

  lemma Emit(v: View, c: Cursor, copy: nat, len: nat)
    requires ViewSize(v) > 0 && CursorValid(v, c, copy) && len <= Rest(v, c)
    ensures CursorValid(v, c.(totalBytes := c.totalBytes + len), copy)
    ensures Addresses(v, copy * ViewSize(v) + c.totalBytes, len)
         == Range(IoVec(v.blocks[c.index].base + (c.totalBytes - c.position) + c.offset, len))
  {
    var k := c.totalBytes - c.position;
    AddressesInBlock(v, copy, c.index, k, len);
    assert copy * ViewSize(v) + Size(v.blocks[..c.index]) + k == copy * ViewSize(v) + c.totalBytes;
  }

  /** One more range, that covers the next len bytes of the stream. */
  lemma Extend(v: View, s: nat, n: nat, len: nat, emitted: seq<IoVec>, next: IoVec)
    requires ViewSize(v) > 0
    requires Expand(emitted) == Addresses(v, s, n)
    requires Range(next) == Addresses(v, s + n, len)
    ensures Expand(emitted + [next]) == Addresses(v, s, n + len)
  {
    ExpandSnoc(emitted, next);
    AddressesSplit(v, s, n, len);
  }

  /** Steps from the end of block j to block q, going round the copy. */
  ghost function Distance(n: nat, j: nat, q: nat): nat
    requires j < n && q < n
  {
    if j < q then q - j else q + n - j
  }

  class FileView {
    const view: View
    var offset: int          // f_offset
    var totalBytes: nat      // f_total_bytes
    var index: nat           // f_index_in_file_view
    var position: nat        // f_position_in_file_view
    ghost var copy: nat

    ghost predicate Valid()
      reads this
    {
      && ViewSize(view) > 0
      && CursorValid(view, State(), copy)
    }

    function State(): Cursor
      reads this
    {
      Cursor(offset, totalBytes, index, position)
    }

    /** The stream position the fields stand for. */
    ghost function Pos(): nat
      reads this
    {
      copy * ViewSize(view) + totalBytes
    }

    constructor (v: View)
      requires ViewSize(v) > 0
      ensures Valid() && view == v && Pos() == 0
    {
      view := v;
      offset, totalBytes, index, position := v.disp, 0, 0, 0;
      copy := 0;
      new;
      assert v.blocks[..0] == [];
    }

    /** In the middle of a walk that began at stream position start: the first k ranges cover the next done bytes. */
    ghost predicate Walking(ranges: seq<IoVec>, j: nat, sum: nat, start: nat, done: nat)
      reads this
    {
      && ViewSize(view) > 0
      && CursorValid(view, Cursor(offset, totalBytes, j, sum), copy)
      && Pos() == start + done
      && Expand(ranges) == Addresses(view, start, done)
    }

    /** Leaves block j when it is used up: to the next block, or to the first block of the next copy. */
    method Advance(j: nat, sum: nat, ghost ranges: seq<IoVec>, ghost start: nat, ghost done: nat)
      returns (j': nat, sum': nat)
      requires Walking(ranges, j, sum, start, done)
      modifies this
      ensures Walking(ranges, j', sum', start, done)
      ensures if old(Rest(view, Cursor(offset, totalBytes, j, sum))) > 0 then j' == j && sum' == sum && totalBytes == old(totalBytes)
              else j' == (if j + 1 == |view.blocks| then 0 else j + 1) && sum' == totalBytes
    {
      j', sum' := j, sum;
      if view.blocks[j].len - (totalBytes - sum) == 0 {
        ghost var c := Cursor(offset, totalBytes, j, sum);
        sum' := sum + view.blocks[j].len;
        j' := j + 1;
        if j' == |view.blocks| {
          AdvanceCopy(view, c, copy);
          j', sum' := 0, 0;
          offset := offset + view.extent;
          position, index, totalBytes := sum', j', 0;
          copy := copy + 1;
        } else {
          AdvanceBlock(view, c, copy);
        }
      }
    }

    /** Fills slot k with what block j still holds, up to left bytes. */
    method Take(iov: array<IoVec>, k: nat, j: nat, sum: nat, left: nat, ghost start: nat, ghost done: nat)
      returns (len: nat)
      requires k < iov.Length && left > 0
      requires Walking(iov[..k], j, sum, start, done)
      modifies this`totalBytes, iov
      ensures Walking(iov[..k + 1], j, sum, start, done + len)
      ensures len <= left && totalBytes == old(totalBytes) + len
      ensures len == 0 <==> old(Rest(view, Cursor(offset, totalBytes, j, sum))) == 0
    {
      var rest := view.blocks[j].len - (totalBytes - sum);
      len := if rest >= left then left else rest;
      Emit(view, Cursor(offset, totalBytes, j, sum), copy, len);
      iov[k] := IoVec(view.blocks[j].base + (totalBytes - sum) + offset, len);
      Extend(view, start, done, len, iov[..k], iov[k]);
      assert iov[..k + 1] == iov[..k] + [iov[k]];
      totalBytes := totalBytes + len;
    }

    /** One turn of the walk; q is any non-empty block, the one the turn must come closer to if it emits nothing. */
    method Turn(iov: array<IoVec>, k: nat, j: nat, sum: nat, left: nat, ghost start: nat, ghost done: nat, ghost q: nat)
      returns (j': nat, sum': nat, len: nat)
      requires k < iov.Length && left > 0
      requires Walking(iov[..k], j, sum, start, done)
      requires q < |view.blocks| && view.blocks[q].len > 0
      modifies this, iov
      ensures Walking(iov[..k + 1], j', sum', start, done + len)
      ensures len <= left && (len > 0 ==> sum' < totalBytes)
      ensures len == 0 ==> Distance(|view.blocks|, j', q) < Distance(|view.blocks|, j, q)
    {
      j', sum' := Advance(j, sum, iov[..k], start, done);
      len := Take(iov, k, j', sum', left, start, done);
    }

    /** The end of a walk: the locals go back into the fields. */
    method Settle(ghost ranges: seq<IoVec>, j: nat, sum: nat, ghost start: nat, ghost done: nat, ghost before: Cursor)
      requires Walking(ranges, j, sum, start, done)
      requires if done == 0 then State() == before && j == index && sum == position else sum < totalBytes
      modifies this`position, this`index
      ensures Valid() && Pos() == start + done
      ensures (Expand(ranges), State()) == Walk(view, before, start, done)
    {
      position, index := sum, j;
      if done > 0 {
        CursorDetermined(view, State(), copy, Pos());
      }
    }

    /**
     * The next maxData bytes of the stream as file ranges. The range array
     * starts with initial slots and grows by as many when it is full.
     * Blocks of length zero are stepped over, at the cost of empty ranges.
     */
    method Generate(maxData: nat, initial: nat) returns (iov: array<IoVec>, count: nat)
      requires Valid() && initial > 0
      modifies this
      ensures Valid() && fresh(iov) && count <= iov.Length
      ensures (Expand(iov[..count]), State()) == Walk(view, old(State()), old(Pos()), maxData)
      ensures Pos() == old(Pos()) + maxData
    {
      ghost var start := Pos();
      ghost var q := NonEmptyBlockExists(view.blocks);
      iov := new IoVec[initial](_ => IoVec(0, 0));
      var sum: nat, j: nat, left: nat, k: nat := position, index, maxData, 0;
      while left > 0
        invariant fresh(iov) && k <= iov.Length && left <= maxData
        invariant Walking(iov[..k], j, sum, start, maxData - left)
        invariant maxData == 0 ==> State() == old(State()) && j == index && sum == position
        invariant left == 0 < maxData ==> sum < totalBytes
        decreases left, Distance(|view.blocks|, j, q)
      {
        if iov.Length <= k {
          iov := Grow(iov, initial);
        }
        var len: nat;
        j, sum, len := Turn(iov, k, j, sum, left, start, maxData - left, q);
        left := left - len;
        k := k + 1;
      }
      Settle(iov[..k], j, sum, start, maxData, old(State()));
      count := k;
    }
  }

  /** Two walks in a row come to what one walk of both lengths comes to. */
  method TwoWalks(fv: FileView, a: nat, b: nat, initial: nat)
    returns (first: array<IoVec>, n: nat, second: array<IoVec>, m: nat)
    requires fv.Valid() && initial > 0
    modifies fv
    ensures fv.Valid() && n <= first.Length && m <= second.Length
    ensures (Expand(first[..n]) + Expand(second[..m]), fv.State())
         == Walk(fv.view, old(fv.State()), old(fv.Pos()), a + b)
    ensures fv.Pos() == old(fv.Pos()) + (a + b)
  {
    ghost var c, s := fv.State(), fv.Pos();
    SplitInvariant(fv.view, c, s, a, b);
    first, n := fv.Generate(a, initial);
    ghost var ranges, between := first[..n], fv.Pos();
    assert between == s + a;
    second, m := fv.Generate(b, initial);
    assert first[..n] == ranges && fv.Pos() == between + b;
  }

  /** realloc: more slots, the old entries first. */
  method Grow(a: array<IoVec>, more: nat) returns (b: array<IoVec>)
    ensures fresh(b) && b.Length == a.Length + more
    ensures forall k :: 0 <= k <= a.Length ==> b[..k] == a[..k]
  {
    b := new IoVec[a.Length + more](_ => IoVec(0, 0));
    forall i | 0 <= i < a.Length {
      b[i] := a[i];
    }
  }
}
