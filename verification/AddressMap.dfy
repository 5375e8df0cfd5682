/**
 * The byte stream of an MPI file view (section 13.3 of MPI 3.1) and the file
 * offsets it stands for: the filetype is tiled from the displacement on, one
 * copy every extent, and the stream runs through the bytes of each copy in
 * block order.
 */
module AddressMap {
  import opened Arith

  /** A run of bytes: a decoded block of a filetype, or one range the walker emits. */
  datatype IoVec = IoVec(base: int, len: nat)

  /** A displacement, a filetype extent and the decoded blocks of one copy. */
  datatype View = View(disp: int, extent: int, blocks: seq<IoVec>)

  function Range(v: IoVec): (r: seq<int>)
    ensures |r| == v.len
    ensures forall i :: 0 <= i < v.len ==> r[i] == v.base + i
  {
    seq(v.len, i => v.base + i)
  }

  function Size(vs: seq<IoVec>): nat {
    if vs == [] then 0 else Size(vs[..|vs| - 1]) + vs[|vs| - 1].len
  }

  /** Every byte the ranges cover, in order: the meaning of a list of ranges. */
  function Expand(vs: seq<IoVec>): (r: seq<int>)
    ensures |r| == Size(vs)
  {
    if vs == [] then [] else Expand(vs[..|vs| - 1]) + Range(vs[|vs| - 1])
  }

  function ViewSize(v: View): nat {
    Size(v.blocks)
  }

  /** File offset of byte r of copy c. */
  function AddrIn(v: View, c: nat, r: nat): int
    requires r < ViewSize(v)
  {
    v.disp + v.extent * c + Expand(v.blocks)[r]
  }

  /** File offset of stream byte s. */
  function Addr(v: View, s: nat): int
    requires ViewSize(v) > 0
  {
    AddrIn(v, s / ViewSize(v), s % ViewSize(v))
  }

  function Addresses(v: View, s: nat, n: nat): (r: seq<int>)
    requires ViewSize(v) > 0
    ensures |r| == n
    ensures forall i :: 0 <= i < n ==> r[i] == Addr(v, s + i)
  {
    seq(n, i requires 0 <= i => Addr(v, s + i))
  }

  // ----- prefix sizes -----

  lemma SizeStep(vs: seq<IoVec>, j: nat)
    requires j < |vs|
    ensures Size(vs[..j + 1]) == Size(vs[..j]) + vs[j].len
  {
    assert vs[..j + 1][..j] == vs[..j];
  }

  lemma SizeMonotone(vs: seq<IoVec>, i: nat, j: nat)
    requires i <= j <= |vs|
    ensures Size(vs[..i]) <= Size(vs[..j]) <= Size(vs)
    decreases |vs| - i
  {
    assert vs[..|vs|] == vs;
    if i < j {
      SizeStep(vs, i);
      SizeMonotone(vs, i + 1, j);
    } else if j < |vs| {
      SizeStep(vs, j);
      SizeMonotone(vs, j + 1, |vs|);
    }
  }

  lemma ExpandSnoc(vs: seq<IoVec>, x: IoVec)
    ensures Expand(vs + [x]) == Expand(vs) + Range(x)
    ensures Size(vs + [x]) == Size(vs) + x.len
  {
    assert (vs + [x])[..|vs|] == vs;
  }

  /** Byte k of block j sits where the block's base says, after the bytes of the blocks before it. */
  lemma {:induction false} ExpandAt(vs: seq<IoVec>, j: nat, k: nat)
    requires j < |vs| && k < vs[j].len
    ensures Size(vs[..j]) + k < Size(vs)
    ensures Expand(vs)[Size(vs[..j]) + k] == vs[j].base + k
  {
    var front := vs[..|vs| - 1];
    if j < |vs| - 1 {
      assert front[..j] == vs[..j];
      ExpandAt(front, j, k);
    }
  }

  /** The block that holds byte r of a copy. */
  function BlockOf(vs: seq<IoVec>, r: nat): (j: nat)
    requires r < Size(vs)
    ensures j < |vs|
    ensures Size(vs[..j]) <= r < Size(vs[..j + 1])
  {
    assert vs[..|vs|] == vs;
    var front := vs[..|vs| - 1];
    if Size(front) <= r then |vs| - 1
    else
      var j := BlockOf(front, r);
      assert front[..j] == vs[..j] && front[..j + 1] == vs[..j + 1];
      j
  }

  /** No other block holds byte r, so a cursor that has consumed it sits in that block. */
  lemma BlockOfUnique(vs: seq<IoVec>, r: nat, j: nat)
    requires j < |vs| && Size(vs[..j]) <= r < Size(vs[..j + 1])
    ensures r < Size(vs) && BlockOf(vs, r) == j
  {
    SizeMonotone(vs, j + 1, |vs|);
    var b := BlockOf(vs, r);
    if b < j {
      SizeMonotone(vs, b + 1, j);
    } else if j < b {
      SizeMonotone(vs, j + 1, b);
    }
  }

  lemma NonEmptyBlockExists(vs: seq<IoVec>) returns (q: nat)
    requires Size(vs) > 0
    ensures q < |vs| && vs[q].len > 0
  {
    q := BlockOf(vs, 0);
    SizeStep(vs, q);
  }

  lemma AddrInCopy(v: View, c: nat, r: nat)
    requires r < ViewSize(v)
    ensures Addr(v, c * ViewSize(v) + r) == AddrIn(v, c, r)
  {
    DivModUnique(c, ViewSize(v), r);
  }

  /** A stretch of the stream that stays inside block j of copy c is one contiguous range. */
  lemma AddressesInBlock(v: View, c: nat, j: nat, k: nat, n: nat)
    requires j < |v.blocks| && k + n <= v.blocks[j].len
    requires ViewSize(v) > 0
    ensures Addresses(v, c * ViewSize(v) + Size(v.blocks[..j]) + k, n)
         == Range(IoVec(v.disp + v.extent * c + v.blocks[j].base + k, n))
  {
    var s := c * ViewSize(v) + Size(v.blocks[..j]) + k;
    var r := Range(IoVec(v.disp + v.extent * c + v.blocks[j].base + k, n));
    forall i | 0 <= i < n
      ensures Addresses(v, s, n)[i] == r[i]
    {
      ExpandAt(v.blocks, j, k + i);
      AddrInCopy(v, c, Size(v.blocks[..j]) + k + i);
      assert s + i == c * ViewSize(v) + (Size(v.blocks[..j]) + k + i);
    }
  }

  lemma AddressesSplit(v: View, s: nat, a: nat, b: nat)
    requires ViewSize(v) > 0
    ensures Addresses(v, s, a + b) == Addresses(v, s, a) + Addresses(v, s + a, b)
  {
  }
}
