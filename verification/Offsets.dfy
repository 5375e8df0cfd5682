/** The file offset of an etype offset: the search for its block, and the closed form. */
module Offsets {
  import opened AddressMap
  import opened Arith
  import opened ViewShape

  datatype OffsetResult = Ok(disp: int) | ErrArg

  // ----- mca_io_bbview_file_get_byte_offset -----

  /** Where the search for byte i stops: inside block q, or on entering q with nothing left to skip. */
  ghost predicate StopsAt(vs: seq<IoVec>, i: nat, q: nat) {
    && q < |vs|
    && Size(vs[..q]) <= i
    && (1 < q ==> Size(vs[..q - 1]) < i)
    && (i < Size(vs[..q + 1]) || (0 < q && Size(vs[..q]) == i))
  }

  /** The closed form: block q's base plus what is left of the byte number after the blocks before q. */
  function ClosedForm(v: View, s: nat, q: nat): int
    requires ViewSize(v) > 0 && q < |v.blocks|
  {
    v.disp + v.extent * (s / ViewSize(v)) + v.blocks[q].base + (s % ViewSize(v) - Size(v.blocks[..q]))
  }

  lemma StopIsUnique(vs: seq<IoVec>, i: nat, q: nat, q': nat)
    requires StopsAt(vs, i, q) && StopsAt(vs, i, q')
    ensures q == q'
  {
    if q < q' {
      StopIsFirst(vs, i, q, q');
    } else if q' < q {
      StopIsFirst(vs, i, q', q);
    }
  }

  lemma StopIsFirst(vs: seq<IoVec>, i: nat, q: nat, q': nat)
    requires StopsAt(vs, i, q) && StopsAt(vs, i, q')
    ensures q >= q'
  {
    if q < q' {
      SizeMonotone(vs, q, q' - 1);
      SizeMonotone(vs, q + 1, q');
    }
  }

  /** Stopping at a non-empty block means stopping at the block that holds the byte. */
  lemma StopAtNonEmpty(vs: seq<IoVec>, i: nat, q: nat)
    requires StopsAt(vs, i, q) && vs[q].len > 0
    ensures i < Size(vs) && q == BlockOf(vs, i)
  {
    SizeStep(vs, q);
    BlockOfUnique(vs, i, q);
  }

  /** Block p is the first after the very first block to start at byte i of a copy. */
  ghost predicate FirstAt(vs: seq<IoVec>, i: nat, p: nat) {
    0 < p < |vs| && Size(vs[..p]) == i && forall r :: 0 < r < p ==> Size(vs[..r]) < i
  }

  /** If an empty block is the first at byte i, it is based where the block is that holds the byte. */
  ghost predicate EmptyBlocksAgree(vs: seq<IoVec>, i: nat)
    requires i < Size(vs)
  {
    forall p: nat :: FirstAt(vs, i, p) && vs[p].len == 0 ==> vs[p].base == vs[BlockOf(vs, i)].base
  }

  lemma StopIsFirstAt(vs: seq<IoVec>, i: nat, q: nat, p: nat)
    requires StopsAt(vs, i, q) && FirstAt(vs, i, p)
    ensures q == p
  {
    StopIsUnique(vs, i, q, p);
  }

  /** An empty block is stopped at only as the first at the byte, and the byte begins its own block. */
  lemma StopAtEmpty(vs: seq<IoVec>, i: nat, q: nat)
    requires StopsAt(vs, i, q) && vs[q].len == 0 && i < Size(vs)
    ensures FirstAt(vs, i, q) && Size(vs[..BlockOf(vs, i)]) == i
  {
    SizeStep(vs, q);
    forall r | 0 < r < q
      ensures Size(vs[..r]) < i
    {
      SizeMonotone(vs, r, q - 1);
    }
    BlockNotBefore(vs, i, q);
    SizeMonotone(vs, q, BlockOf(vs, i));
  }

  lemma BlockNotBefore(vs: seq<IoVec>, i: nat, q: nat)
    requires i < Size(vs) && q <= |vs| && Size(vs[..q]) <= i
    ensures q <= BlockOf(vs, i)
  {
    var b := BlockOf(vs, i);
    if b + 1 <= q {
      SizeMonotone(vs, b + 1, q);
    }
  }

  /**
   * The closed form is the address map exactly when no empty block stands
   * first at the byte, or only one based where the byte's own block is.
   */
  lemma ClosedFormIsAddr(v: View, s: nat, q: nat)
    requires ViewSize(v) > 0 && StopsAt(v.blocks, s % ViewSize(v), q)
    ensures ClosedForm(v, s, q) == Addr(v, s) <==> EmptyBlocksAgree(v.blocks, s % ViewSize(v))
  {
    var i := s % ViewSize(v);
    ExpandInBlock(v.blocks, i);
    if v.blocks[q].len > 0 {
      StopAtNonEmpty(v.blocks, i, q);
      forall p: nat | FirstAt(v.blocks, i, p)
        ensures p == q
      {
        StopIsFirstAt(v.blocks, i, q, p);
      }
    } else {
      StopAtEmpty(v.blocks, i, q);
      forall p: nat | FirstAt(v.blocks, i, p)
        ensures p == q
      {
        StopIsFirstAt(v.blocks, i, q, p);
      }
    }
  }

  /** An empty block after a block end makes the search answer with the empty block's base. */
  lemma EmptyBlockMisleads()
    ensures var v := View(0, 20, [IoVec(0, 4), IoVec(100, 0), IoVec(8, 4)]);
            ViewSize(v) == 8 && StopsAt(v.blocks, 4 % 8, 1) && ClosedForm(v, 4, 1) == 100 && Addr(v, 4) == 8
  {
    var v := View(0, 20, [IoVec(0, 4), IoVec(100, 0), IoVec(8, 4)]);
    assert v.blocks[..0] == [] && v.blocks[..3] == v.blocks;
    SizeStep(v.blocks, 0);
    SizeStep(v.blocks, 1);
    SizeStep(v.blocks, 2);
    ExpandAt(v.blocks, 2, 0);
    AddrInCopy(v, 0, 4);
  }

  /** The search loop: it never looks past the last block. */
  method FindBlock(blocks: seq<IoVec>, start: nat) returns (index: nat, k: nat)
    requires start < Size(blocks)
    ensures StopsAt(blocks, start, index) && k == start - Size(blocks[..index])
  {
    var i := start;
    index, k := 0, 0;
    assert blocks[..0] == [] && blocks[..|blocks|] == blocks;
    while true
      invariant index < |blocks|
      invariant start == Size(blocks[..index]) + i
      invariant index > 0 ==> i > 0 && Size(blocks[..index - 1]) < start
      decreases |blocks| - index
    {
      k := blocks[index].len;
      SizeStep(blocks, index);
      if i >= k {
        i := i - k;
        index := index + 1;
        if 0 == i {
          k := 0;
          break;
        }
      } else {
        k := i;
        break;
      }
    }
  }

  /** File offset of an etype offset; q is the block the search stopped at. */
  method GetByteOffset(v: View, etypeSize: nat, offset: nat) returns (r: OffsetResult, ghost q: nat)
    ensures ViewSize(v) == 0 ==> r == Ok(0)
    ensures ViewSize(v) > 0 && v.extent * (offset * etypeSize / ViewSize(v)) < 0 ==> r == ErrArg
    ensures ViewSize(v) > 0 && v.extent * (offset * etypeSize / ViewSize(v)) >= 0 ==>
              && StopsAt(v.blocks, offset * etypeSize % ViewSize(v), q)
              && r == Ok(v.disp + v.extent * (offset * etypeSize / ViewSize(v)) + v.blocks[q].base
                         + (offset * etypeSize % ViewSize(v) - Size(v.blocks[..q])))
              && (r == Ok(Addr(v, offset * etypeSize)) <==>
                    EmptyBlocksAgree(v.blocks, offset * etypeSize % ViewSize(v)))
  {
    q := 0;
    if ViewSize(v) == 0 {
      return Ok(0), q;
    }
    var s := offset * etypeSize;
    var tempOffset := v.extent * (s / ViewSize(v));
    if 0 > tempOffset {
      return ErrArg, q;
    }
    var index, k := FindBlock(v.blocks, s % ViewSize(v));
    q := index;
    ClosedFormIsAddr(v, s, index);
    r := Ok(v.disp + tempOffset + v.blocks[index].base + k);
  }

  /** On non-empty blocks the closed form is the address map. */
  lemma ByteOffsetIsAddr(v: View, s: nat, q: nat)
    requires ViewSize(v) > 0 && StopsAt(v.blocks, s % ViewSize(v), q)
    requires forall j :: 0 <= j < |v.blocks| ==> v.blocks[j].len > 0
    ensures ClosedForm(v, s, q) == Addr(v, s)
  {
    ClosedFormIsAddr(v, s, q);
  }

  /** Among non-empty blocks the search stops at the block that holds the byte, and nowhere else. */
  lemma StopsAtItsBlock(vs: seq<IoVec>, i: nat)
    requires i < Size(vs) && forall j :: 0 <= j < |vs| ==> vs[j].len > 0
    ensures StopsAt(vs, i, BlockOf(vs, i))
  {
    var q := BlockOf(vs, i);
    if 1 < q {
      SizeStep(vs, q - 1);
    }
  }

  /** Byte i of a walk is emitted where the closed form, with etypes of one byte, puts stream byte s + i. */
  lemma WalkIsClosedForm(v: View, s: nat, n: nat, i: nat)
    requires ViewSize(v) > 0 && i < n
    requires forall j :: 0 <= j < |v.blocks| ==> v.blocks[j].len > 0
    ensures var q := BlockOf(v.blocks, (s + i) % ViewSize(v));
            StopsAt(v.blocks, (s + i) % ViewSize(v), q) && Addresses(v, s, n)[i] == ClosedForm(v, s + i, q)
  {
    var r := (s + i) % ViewSize(v);
    StopsAtItsBlock(v.blocks, r);
    ByteOffsetIsAddr(v, s + i, BlockOf(v.blocks, r));
  }
}
