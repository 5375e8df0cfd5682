/**
 * The place a seek from the end of a file starts at: the closest offset at or
 * before the end that lies in no gap of the view and breaks no etype, as the
 * comment of the search has it, and what the search answers.
 */
module EndOfFile {
  import opened AddressMap
  import opened Arith
  import opened ViewShape

  // ----- whole etypes, counted step by step as the search does -----

  /** n steps of the given size. */
  function Steps(size: int, n: nat): int {
    if n == 0 then 0 else Steps(size, n - 1) + size
  }

  lemma {:induction false} StepsAre(size: int, n: nat)
    ensures Steps(size, n) == size * n
  {
    if n > 0 {
      StepsAre(size, n - 1);
    }
  }

  lemma {:induction false} StepsRise(size: nat, m: nat, n: nat)
    requires m <= n
    ensures Steps(size, m) <= Steps(size, n) && (m < n ==> Steps(size, m) + size <= Steps(size, n))
    decreases n
  {
    if m < n {
      StepsRise(size, m, n - 1);
    }
  }

  lemma {:induction false} StepsAdd(size: int, m: nat, n: nat)
    ensures Steps(size, m + n) == Steps(size, m) + Steps(size, n)
    decreases n
  {
    if n > 0 {
      StepsAdd(size, m, n - 1);
    }
  }

  /** How many whole etypes n bytes hold. */
  function Etypes(n: nat, size: nat): (k: nat)
    requires size > 0
    ensures Steps(size, k) <= n < Steps(size, k) + size
  {
    if n < size then 0 else Etypes(n - size, size) + 1
  }

  lemma EtypesUnique(n: nat, size: nat, k: nat)
    requires size > 0 && Steps(size, k) <= n < Steps(size, k) + size
    ensures k == Etypes(n, size)
  {
    var e := Etypes(n, size);
    if k < e {
      StepsRise(size, k, e);
    } else if e < k {
      StepsRise(size, e, k);
    }
  }

  /** n bytes are whole etypes. */
  predicate IsWhole(n: nat, size: nat)
    requires size > 0
  {
    Steps(size, Etypes(n, size)) == n
  }

  /** In the usual terms, which a caller can compute. */
  lemma EtypesAre(n: nat, size: nat)
    requires size > 0
    ensures Etypes(n, size) == n / size && (IsWhole(n, size) <==> n % size == 0)
  {
    var q := n / size;
    StepsAre(size, q);
    assert n == q * size + n % size;
    EtypesUnique(n, size, q);
  }

  /** p and the most whole etypes that pass neither the room nor the length. */
  function LastEtype(p: int, size: nat, room: nat, len: nat): int
    requires size > 0
  {
    p + Steps(size, Lesser(Etypes(room, size), Etypes(len, size)))
  }

  lemma LastEtypeFits(p: int, size: nat, room: nat, len: nat)
    requires size > 0
    ensures p <= LastEtype(p, size, room, len) <= p + room && LastEtype(p, size, room, len) <= p + len
    ensures LastEtype(p, size, room, len) == p <==> room < size || len < size
  {
    var r, l := Etypes(room, size), Etypes(len, size);
    StepsRise(size, 0, Lesser(r, l));
    StepsRise(size, Lesser(r, l), r);
    StepsRise(size, Lesser(r, l), l);
    if Lesser(r, l) > 0 {
      StepsRise(size, 0, r);
      StepsRise(size, 0, l);
    }
  }

  /** No number of etypes that passes neither is more. */
  lemma LastEtypeIsLast(p: int, size: nat, room: nat, len: nat, m: nat)
    requires size > 0 && Steps(size, m) <= room && Steps(size, m) <= len
    ensures m <= Lesser(Etypes(room, size), Etypes(len, size)) && p + Steps(size, m) <= LastEtype(p, size, room, len)
  {
    var r, l := Etypes(room, size), Etypes(len, size);
    if r < m {
      StepsRise(size, r, m);
    }
    if l < m {
      StepsRise(size, l, m);
    }
    StepsRise(size, m, Lesser(r, l));
  }

  // ----- mca_io_bbview_file_get_eof_offset -----

  /** The last block of a copy that starts at or before rel. */
  function Located(blocks: seq<IoVec>, rel: int): (j: nat)
    requires blocks != [] && blocks[0].base <= rel
    ensures j < |blocks| && blocks[j].base <= rel && (j + 1 < |blocks| ==> rel < blocks[j + 1].base)
  {
    var n := |blocks| - 1;
    if blocks[n].base <= rel then n else Located(blocks[..n], rel)
  }

  lemma LocatedUnique(blocks: seq<IoVec>, rel: int, j: nat)
    requires Ascending(blocks) && blocks != [] && blocks[0].base <= rel
    requires j < |blocks| && blocks[j].base <= rel && (j + 1 < |blocks| ==> rel < blocks[j + 1].base)
    ensures j == Located(blocks, rel)
  {
    NoneLater(blocks, rel, j, Located(blocks, rel));
    NoneLater(blocks, rel, Located(blocks, rel), j);
  }

  lemma NoneLater(blocks: seq<IoVec>, rel: int, j: nat, j': nat)
    requires Ascending(blocks) && j < |blocks| && (j + 1 < |blocks| ==> rel < blocks[j + 1].base)
    requires j' < |blocks| && blocks[j'].base <= rel
    ensures j' <= j
  {
  }

  /** The length the second loop reads: that of the following block, unless the last block was reached. */
  function LengthRead(blocks: seq<IoVec>, j: nat): nat
    requires j < |blocks|
  {
    if j + 1 < |blocks| then blocks[j + 1].len else blocks[j].len
  }

  /** What the first loop finds: the start of the located block and the length to be read, or 0 and the first length. */
  ghost predicate Finds(blocks: seq<IoVec>, start: int, rel: int, prevOffset: int, len: nat)
    requires blocks != []
  {
    if blocks[0].base <= rel then
      var j := Located(blocks, rel);
      prevOffset == start + blocks[j].base && len == LengthRead(blocks, j)
    else prevOffset == 0 && len == blocks[0].len
  }

  /** The first loop: the last block at or before the input, and one more index unless it was the last. */
  method LocateBlock(blocks: seq<IoVec>, startOffset: int, inOffset: int) returns (prevOffset: int, index: nat)
    requires blocks != [] && Ascending(blocks) && 0 <= startOffset <= inOffset
    ensures 0 < index <= |blocks| && prevOffset <= inOffset
    ensures Finds(blocks, startOffset, inOffset - startOffset, prevOffset, blocks[index - 1].len)
  {
    var offset := 0;
    prevOffset, index := 0, 0;
    ghost var j: nat := 0;
    while offset <= inOffset && index < |blocks|
      invariant index <= |blocks| && prevOffset <= inOffset
      invariant index == 0 ==> offset == 0 && prevOffset == 0
      invariant index > 0 ==> offset == startOffset + blocks[index - 1].base
      invariant index > 0 && offset <= inOffset ==> j == index - 1 && prevOffset == offset
      invariant index > 1 && offset > inOffset ==>
                  j == index - 2 && prevOffset == startOffset + blocks[j].base <= inOffset
      invariant index == 1 && offset > inOffset ==> prevOffset == 0
      invariant index > 1 ==> startOffset + blocks[0].base <= inOffset
      decreases |blocks| - index
    {
      offset := startOffset + blocks[index].base;
      index := index + 1;
      if offset <= inOffset {
        prevOffset := offset;
        j := index - 1;
      }
    }
    if blocks[0].base <= inOffset - startOffset {
      LocatedUnique(blocks, inOffset - startOffset, j);
    }
  }

  /** The second loop: etype by etype, up to the input or past the length. */
  method StepEtypes(p: int, etypeSize: nat, inOffset: int, blocklen: nat) returns (prevOffset: int)
    requires etypeSize > 0 && p <= inOffset
    ensures prevOffset == LastEtype(p, etypeSize, inOffset - p, blocklen)
  {
    var offset, k := p, 0;
    prevOffset := p;
    ghost var m: nat := 0;
    while offset <= inOffset && k <= blocklen
      invariant k == Steps(etypeSize, m) && offset == p + k
      invariant m == 0 ==> prevOffset == p
      invariant m > 0 ==> prevOffset == p + Steps(etypeSize, m - 1)
      invariant m > 0 ==> Steps(etypeSize, m - 1) <= inOffset - p && Steps(etypeSize, m - 1) <= blocklen
      decreases inOffset - offset
    {
      prevOffset := offset;
      offset := offset + etypeSize;
      k := k + etypeSize;
      m := m + 1;
    }
    LastEtypeIsLast(p, etypeSize, inOffset - p, blocklen, m - 1);
    LastEtypeStops(etypeSize, inOffset - p, blocklen, m);
  }

  lemma LastEtypeStops(size: nat, room: nat, len: nat, m: nat)
    requires size > 0 && (room < Steps(size, m) || len < Steps(size, m))
    ensures Lesser(Etypes(room, size), Etypes(len, size)) < m
  {
    var k := Lesser(Etypes(room, size), Etypes(len, size));
    StepsRise(size, k, Etypes(room, size));
    StepsRise(size, k, Etypes(len, size));
    if m <= k {
      StepsRise(size, m, k);
    }
  }

  /** Where the copy of the filetype starts that holds x. */
  function CopyStart(x: nat, extent: nat): (start: nat)
    requires extent > 0
    ensures start <= x < start + extent
  {
    Steps(extent, Etypes(x, extent))
  }

  lemma CopyStartIs(x: nat, extent: nat)
    requires extent > 0
    ensures CopyStart(x, extent) == (x / extent) * extent
  {
    EtypesAre(x, extent);
    StepsAre(extent, x / extent);
  }

  method StartOfCopy(inOffset: nat, extent: nat) returns (startOffset: nat)
    requires extent > 0
    ensures startOffset == CopyStart(inOffset, extent)
  {
    CopyStartIs(inOffset, extent);
    startOffset := (inOffset / extent) * extent;
  }

  /**
   * What a seek from the end of a file answers, x being that end relative to
   * the displacement: from the last block of x's copy at or before x, or from
   * 0 if there is none.
   */
  function Answer(v: View, etypeSize: nat, x: nat): int
    requires etypeSize > 0 && v.extent > 0 && v.blocks != []
  {
    var start := CopyStart(x, v.extent);
    if v.blocks[0].base <= x - start then
      var j := Located(v.blocks, x - start);
      LastEtype(start + v.blocks[j].base, etypeSize, x - start - v.blocks[j].base, LengthRead(v.blocks, j))
    else LastEtype(0, etypeSize, x, v.blocks[0].len)
  }

  /** The bytes of the most whole etypes that pass neither the room nor the length. */
  function MostEtypes(size: nat, room: int, len: int): int
    requires size > 0
  {
    if room / size <= len / size then size * (room / size) else size * (len / size)
  }

  lemma LastEtypeIs(p: int, size: nat, room: nat, len: nat)
    requires size > 0
    ensures LastEtype(p, size, room, len) == p + MostEtypes(size, room, len)
  {
    EtypesAre(room, size);
    EtypesAre(len, size);
    StepsAre(size, Lesser(room / size, len / size));
  }

  /** In closed form: block j is the last of the copy from start that begins at or before x, and the answer goes on from it. */
  ghost predicate AnswersFrom(v: View, etypeSize: nat, x: nat, start: int, j: int, out: int)
    requires etypeSize > 0
  {
    && 0 <= j < |v.blocks| && start + v.blocks[j].base <= x
    && (forall i :: j < i < |v.blocks| ==> x < start + v.blocks[i].base)
    && var p, len := start + v.blocks[j].base, if j + 1 < |v.blocks| then v.blocks[j + 1].len else v.blocks[j].len;
       out == p + MostEtypes(etypeSize, x - p, len)
  }

  lemma LaterStartPast(blocks: seq<IoVec>, rel: int, j: nat, i: nat)
    requires Ascending(blocks) && j < i < |blocks| && rel < blocks[j + 1].base
    ensures rel < blocks[i].base
  {
  }

  /** The two loops together. */
  lemma SearchAnswers(v: View, etypeSize: nat, x: nat, prevOffset: int, len: nat)
    requires etypeSize > 0 && v.extent > 0 && v.blocks != [] && prevOffset <= x
    requires Finds(v.blocks, CopyStart(x, v.extent), x - CopyStart(x, v.extent), prevOffset, len)
    ensures LastEtype(prevOffset, etypeSize, x - prevOffset, len) == Answer(v, etypeSize, x)
  {
    var start := CopyStart(x, v.extent);
    if v.blocks[0].base <= x - start {
      assert x - prevOffset == x - start - v.blocks[Located(v.blocks, x - start)].base;
    }
  }

  /** What is left once the view is known not to be empty. */
  method Search(v: View, etypeSize: nat, inOffset: nat) returns (out: int)
    requires etypeSize > 0 && v.extent > 0 && Ascending(v.blocks) && v.blocks != []
    ensures out == Answer(v, etypeSize, inOffset)
  {
    var startOffset := StartOfCopy(inOffset, v.extent);
    var prevOffset, index := LocateBlock(v.blocks, startOffset, inOffset);
    var blocklen := v.blocks[index - 1].len;
    SearchAnswers(v, etypeSize, inOffset, prevOffset, blocklen);
    out := StepEtypes(prevOffset, etypeSize, inOffset, blocklen);
  }

  /**
   * The offset, relative to the displacement, that a seek from the end of a
   * file of inOffset bytes starts at; nothing is answered for an empty view.
   */
  method GetEofOffset(v: View, etypeSize: nat, inOffset: int) returns (answered: bool, out: int)
    requires etypeSize > 0 && v.extent > 0 && v.disp <= inOffset && Ascending(v.blocks)
    ensures answered <==> ViewSize(v) > 0
    ensures answered ==> out == Answer(v, etypeSize, inOffset - v.disp)
    ensures GoodFiletype(v) ==>
              (RightEof(v, etypeSize, inOffset - v.disp, out) <==> EofMeets(v, etypeSize, inOffset - v.disp))
  {
    out := 0;
    answered := ViewSize(v) > 0;
    if answered {
      var x: nat := inOffset - v.disp;
      out := Search(v, etypeSize, x);
      if GoodFiletype(v) {
        EofIsRight(v, etypeSize, x);
      }
    }
  }

  // ----- the answer the comment promises -----

  /** A filetype as MPI allows it for a view: ascending from an offset of at least 0, one copy within its extent. */
  ghost predicate GoodFiletype(v: View) {
    ViewSize(v) > 0 && v.extent > 0 && Ascending(v.blocks) && FitsExtent(v) && 0 <= v.blocks[0].base
  }

  /** Where block j of copy c starts, relative to the displacement. */
  function BlockStart(v: View, c: nat, j: nat): int
    requires j < |v.blocks|
  {
    Steps(v.extent, c) + v.blocks[j].base
  }

  /** Byte k of block j of copy c is where the address map has it. */
  lemma BlockStartIsAddr(v: View, c: nat, j: nat, k: nat)
    requires j < |v.blocks| && k < v.blocks[j].len
    ensures Size(v.blocks[..j]) + k < ViewSize(v)
    ensures v.disp + BlockStart(v, c, j) + k == AddrIn(v, c, Size(v.blocks[..j]) + k)
  {
    StepsAre(v.extent, c);
    ExpandAt(v.blocks, j, k);
  }

  /** In block j of copy c, which holds bytes, m etypes lie before a: etype m starts there, or the last one ends. */
  ghost predicate BoundaryOf(v: View, etypeSize: nat, a: int, c: nat, j: nat, m: nat) {
    && j < |v.blocks| && v.blocks[j].len > 0
    && Steps(etypeSize, m) <= v.blocks[j].len && a == BlockStart(v, c, j) + Steps(etypeSize, m)
  }

  /** Offset a lies in no gap and breaks no etype. */
  ghost predicate IsBoundary(v: View, etypeSize: nat, a: int) {
    exists c: nat, j: nat, m: nat :: BoundaryOf(v, etypeSize, a, c, j, m)
  }

  /** The closest offset at or before x that lies in no gap and breaks no etype. */
  ghost predicate RightEof(v: View, etypeSize: nat, x: nat, out: int) {
    && IsBoundary(v, etypeSize, out) && out <= x
    && forall a: int :: IsBoundary(v, etypeSize, a) && a <= x ==> a <= out
  }

  lemma RightIsUnique(v: View, etypeSize: nat, x: nat, out: int, out': int)
    requires RightEof(v, etypeSize, x, out) && RightEof(v, etypeSize, x, out')
    ensures out == out'
  {
  }

  lemma OnlyOneRight(v: View, etypeSize: nat, x: nat, out: int, other: int)
    requires RightEof(v, etypeSize, x, out) && other != out
    ensures !RightEof(v, etypeSize, x, other)
  {
    if RightEof(v, etypeSize, x, other) {
      RightIsUnique(v, etypeSize, x, out, other);
    }
  }

  // ----- exactly when the search meets it -----

  /** The following block's length leads to as many etypes as the block's own. */
  predicate NoDifference(blocks: seq<IoVec>, etypeSize: nat, room: nat, j: nat)
    requires etypeSize > 0 && j < |blocks|
  {
    var own, read, most := Etypes(blocks[j].len, etypeSize), Etypes(LengthRead(blocks, j), etypeSize), Etypes(room, etypeSize);
    own == read || (most <= own && most <= read)
  }

  /** Block j stands where a block of whole etypes ends: one of its own copy or, in a later copy, of the copy before. */
  predicate StandsAtEnd(v: View, etypeSize: nat, later: bool, j: nat)
    requires etypeSize > 0 && j < |v.blocks|
  {
    exists q :: 0 <= q < |v.blocks| && v.blocks[q].len > 0 && IsWhole(v.blocks[q].len, etypeSize) &&
      (|| v.blocks[q].base + v.blocks[q].len == v.blocks[j].base
       || (later && v.blocks[q].base + v.blocks[q].len == v.blocks[j].base + v.extent))
  }

  /**
   * The located block leads to the right answer: the following length makes no
   * difference; or the block is empty, nothing is added to its start, and its
   * start is the end of whole etypes.
   */
  predicate LeadsRight(v: View, etypeSize: nat, later: bool, room: nat, j: nat)
    requires etypeSize > 0 && j < |v.blocks|
  {
    if v.blocks[j].len > 0 then NoDifference(v.blocks, etypeSize, room, j)
    else (room < etypeSize || LengthRead(v.blocks, j) < etypeSize) && StandsAtEnd(v, etypeSize, later, j)
  }

  /** The first block, moved by whole etypes to 0, would end in the same etype as x. */
  predicate HitsFromZero(first: IoVec, etypeSize: nat, x: nat)
    requires etypeSize > 0
  {
    0 <= first.base <= x && IsWhole(first.base, etypeSize) && Etypes(x, etypeSize) == Etypes(first.len, etypeSize)
  }

  /**
   * Not in the gap before the first block of x's copy, and the block located
   * in the copy leads to the right answer; or in that gap, where the search
   * starts from 0, and a chance hit.
   */
  predicate EofMeets(v: View, etypeSize: nat, x: nat)
    requires etypeSize > 0 && v.extent > 0 && v.blocks != []
  {
    var rel := x - CopyStart(x, v.extent);
    if v.blocks[0].base <= rel then
      var j := Located(v.blocks, rel);
      LeadsRight(v, etypeSize, v.extent <= x, rel - v.blocks[j].base, j)
    else HitsFromZero(v.blocks[0], etypeSize, x)
  }

  // ----- blocks over all copies -----

  /** Over all copies, block j of copy c is the last one that starts at or before x. */
  ghost predicate LastBlock(v: View, x: nat, c: nat, j: nat) {
    && j < |v.blocks| && BlockStart(v, c, j) <= x
    && forall c': nat, j': nat :: j' < |v.blocks| && (c < c' || (c == c' && j < j')) ==> x < BlockStart(v, c', j')
  }

  lemma BasesRise(blocks: seq<IoVec>, i: nat, j: nat)
    requires Ascending(blocks) && i <= j < |blocks|
    ensures blocks[i].base <= blocks[j].base
    ensures i < j ==> blocks[i].base + blocks[i].len <= blocks[j].base
  {
  }

  /** Copies are at least an extent apart. */
  lemma LaterCopyStarts(v: View, c: nat, c': nat, j: nat)
    requires GoodFiletype(v) && c < c' && j < |v.blocks|
    ensures Steps(v.extent, c) + v.extent + v.blocks[0].base <= BlockStart(v, c', j)
  {
    StepsRise(v.extent, c, c');
    BasesRise(v.blocks, 0, j);
  }

  /** A block ends before any later one starts, in its copy or in another. */
  lemma EndsBefore(v: View, c: nat, j: nat, c': nat, j': nat)
    requires GoodFiletype(v) && j < |v.blocks| && j' < |v.blocks| && (c < c' || (c == c' && j < j'))
    ensures BlockStart(v, c, j) + v.blocks[j].len <= BlockStart(v, c', j')
  {
    if c < c' {
      LaterCopyStarts(v, c, c', j');
      BasesRise(v.blocks, j, |v.blocks| - 1);
    } else {
      BasesRise(v.blocks, j, j');
    }
  }

  /** With a copy between them there is room between two blocks. */
  lemma FarApart(v: View, c: nat, q: nat, c': nat, j: nat)
    requires GoodFiletype(v) && q < |v.blocks| && j < |v.blocks| && c + 1 < c'
    ensures BlockStart(v, c, q) + v.blocks[q].len < BlockStart(v, c', j)
  {
    EndsBefore(v, c, q, c + 1, 0);
    LaterCopyStarts(v, c + 1, c', j);
  }

  /** The last block of x's own copy is the last of all; the copy is a later one exactly for x past the first extent. */
  lemma LocatedIsLast(v: View, x: nat)
    requires GoodFiletype(v) && v.blocks[0].base <= x - CopyStart(x, v.extent)
    ensures LastBlock(v, x, Etypes(x, v.extent), Located(v.blocks, x - CopyStart(x, v.extent)))
    ensures Etypes(x, v.extent) > 0 <==> v.extent <= x
  {
    var c, j := Etypes(x, v.extent), Located(v.blocks, x - CopyStart(x, v.extent));
    forall c': nat, j': nat | j' < |v.blocks| && (c < c' || (c == c' && j < j'))
      ensures x < BlockStart(v, c', j')
    {
      if c < c' {
        LaterCopyStarts(v, c, c', j');
      } else {
        BasesRise(v.blocks, j + 1, j');
      }
    }
  }

  /** A boundary at or before x is in the last block, or at or before the end of one before it. */
  lemma BoundaryPlace(v: View, etypeSize: nat, x: nat, c: nat, j: nat, a: int, c': nat, j': nat, m: nat)
    requires GoodFiletype(v) && LastBlock(v, x, c, j) && BoundaryOf(v, etypeSize, a, c', j', m) && a <= x
    ensures (c' == c && j' == j) || a <= BlockStart(v, c', j') + v.blocks[j'].len <= BlockStart(v, c, j)
  {
    StepsRise(etypeSize, 0, m);
    if c' < c || (c' == c && j' < j) {
      EndsBefore(v, c', j', c, j);
    }
  }

  // ----- a last block with bytes -----

  /** If the last block holds bytes, its last whole etype is the closest boundary. */
  lemma FullBlockIsRight(v: View, etypeSize: nat, x: nat, c: nat, j: nat, p: int)
    requires GoodFiletype(v) && etypeSize > 0 && LastBlock(v, x, c, j) && v.blocks[j].len > 0 && p == BlockStart(v, c, j)
    ensures RightEof(v, etypeSize, x, LastEtype(p, etypeSize, x - p, v.blocks[j].len))
  {
    var best := LastEtype(p, etypeSize, x - p, v.blocks[j].len);
    LastEtypeFits(p, etypeSize, x - p, v.blocks[j].len);
    assert BoundaryOf(v, etypeSize, best, c, j, Lesser(Etypes(x - p, etypeSize), Etypes(v.blocks[j].len, etypeSize)));
    forall a: int | IsBoundary(v, etypeSize, a) && a <= x
      ensures a <= best
    {
      var c': nat, j': nat, m: nat :| BoundaryOf(v, etypeSize, a, c', j', m);
      BoundaryPlace(v, etypeSize, x, c, j, a, c', j', m);
      if c' == c && j' == j {
        LastEtypeIsLast(p, etypeSize, x - p, v.blocks[j].len, m);
      }
    }
  }

  /** One length read for another: the same answer exactly when they make no difference. */
  lemma LengthDecides(blocks: seq<IoVec>, p: int, etypeSize: nat, room: nat, j: nat)
    requires etypeSize > 0 && j < |blocks|
    ensures LastEtype(p, etypeSize, room, LengthRead(blocks, j)) == LastEtype(p, etypeSize, room, blocks[j].len)
            <==> NoDifference(blocks, etypeSize, room, j)
  {
    var r := Etypes(room, etypeSize);
    var a, b := Lesser(r, Etypes(LengthRead(blocks, j), etypeSize)), Lesser(r, Etypes(blocks[j].len, etypeSize));
    if a < b {
      StepsRise(etypeSize, a, b);
    } else if b < a {
      StepsRise(etypeSize, b, a);
    }
  }

  lemma FullBlockDecides(v: View, etypeSize: nat, x: nat, c: nat, j: nat, p: int)
    requires GoodFiletype(v) && etypeSize > 0 && LastBlock(v, x, c, j) && v.blocks[j].len > 0 && p == BlockStart(v, c, j)
    ensures RightEof(v, etypeSize, x, LastEtype(p, etypeSize, x - p, LengthRead(v.blocks, j)))
            <==> NoDifference(v.blocks, etypeSize, x - p, j)
  {
    var out, best := LastEtype(p, etypeSize, x - p, LengthRead(v.blocks, j)), LastEtype(p, etypeSize, x - p, v.blocks[j].len);
    FullBlockIsRight(v, etypeSize, x, c, j, p);
    LengthDecides(v.blocks, p, etypeSize, x - p, j);
    if RightEof(v, etypeSize, x, out) {
      RightIsUnique(v, etypeSize, x, out, best);
    }
  }

  // ----- a last block without -----

  /** A block of whole etypes, of copy c, ends at p. */
  ghost predicate EndsAt(v: View, etypeSize: nat, p: int, c: nat, q: nat)
    requires etypeSize > 0
  {
    && q < |v.blocks| && v.blocks[q].len > 0 && IsWhole(v.blocks[q].len, etypeSize)
    && BlockStart(v, c, q) + v.blocks[q].len == p
  }

  lemma EndIsBoundary(v: View, etypeSize: nat, p: int, c: nat, q: nat)
    requires etypeSize > 0 && EndsAt(v, etypeSize, p, c, q)
    ensures IsBoundary(v, etypeSize, p)
  {
    assert BoundaryOf(v, etypeSize, p, c, q, Etypes(v.blocks[q].len, etypeSize));
  }

  /** If the last block is empty, no boundary lies beyond its start, and one at its start is the end of a block. */
  lemma EmptyBlockBounds(v: View, etypeSize: nat, x: nat, c: nat, j: nat, p: int, a: int)
    requires GoodFiletype(v) && etypeSize > 0 && LastBlock(v, x, c, j) && v.blocks[j].len == 0 && p == BlockStart(v, c, j)
    requires IsBoundary(v, etypeSize, a) && a <= x
    ensures a <= p
    ensures a == p ==> exists c': nat, q: nat :: EndsAt(v, etypeSize, p, c', q)
  {
    var c': nat, q: nat, m: nat :| BoundaryOf(v, etypeSize, a, c', q, m);
    BoundaryPlace(v, etypeSize, x, c, j, a, c', q, m);
    if a == p {
      EtypesUnique(v.blocks[q].len, etypeSize, m);
      assert EndsAt(v, etypeSize, p, c', q);
    }
  }

  /** If the last block is empty, an answer from its start on is right when it is the start, and whole etypes end there. */
  lemma EmptyBlockDecides(v: View, etypeSize: nat, x: nat, c: nat, j: nat, p: int, out: int)
    requires GoodFiletype(v) && etypeSize > 0 && LastBlock(v, x, c, j) && v.blocks[j].len == 0 && p == BlockStart(v, c, j)
    requires p <= out
    ensures RightEof(v, etypeSize, x, out) <==> out == p && exists c': nat, q: nat :: EndsAt(v, etypeSize, p, c', q)
  {
    if RightEof(v, etypeSize, x, out) {
      EmptyBlockBounds(v, etypeSize, x, c, j, p, out);
    }
    if out == p && exists c': nat, q: nat :: EndsAt(v, etypeSize, p, c', q) {
      var c': nat, q: nat :| EndsAt(v, etypeSize, p, c', q);
      EndIsBoundary(v, etypeSize, p, c', q);
      forall a: int | IsBoundary(v, etypeSize, a) && a <= x
        ensures a <= p
      {
        EmptyBlockBounds(v, etypeSize, x, c, j, p, a);
      }
    }
  }

  /** Only a block of the same copy or of the one before can end where a block starts. */
  lemma EndsNearby(v: View, c: nat, j: nat, c': nat, q: nat)
    requires GoodFiletype(v) && j < |v.blocks| && q < |v.blocks| && v.blocks[q].len > 0
    requires BlockStart(v, c', q) + v.blocks[q].len == BlockStart(v, c, j)
    ensures c' == c || c' + 1 == c
  {
    if c < c' {
      EndsBefore(v, c, j, c', q);
    } else if c' + 1 < c {
      FarApart(v, c', q, c, j);
    }
  }

  lemma StandsAtEndIs(v: View, etypeSize: nat, c: nat, j: nat, p: int)
    requires GoodFiletype(v) && etypeSize > 0 && j < |v.blocks| && p == BlockStart(v, c, j)
    ensures StandsAtEnd(v, etypeSize, c > 0, j) <==> exists c': nat, q: nat :: EndsAt(v, etypeSize, p, c', q)
  {
    if exists c': nat, q: nat :: EndsAt(v, etypeSize, p, c', q) {
      var c': nat, q: nat :| EndsAt(v, etypeSize, p, c', q);
      EndsNearby(v, c, j, c', q);
      assert c' + 1 == c ==> Steps(v.extent, c) == Steps(v.extent, c') + v.extent;
    }
    if StandsAtEnd(v, etypeSize, c > 0, j) {
      var q :| 0 <= q < |v.blocks| && v.blocks[q].len > 0 && IsWhole(v.blocks[q].len, etypeSize) &&
        (|| v.blocks[q].base + v.blocks[q].len == v.blocks[j].base
         || (c > 0 && v.blocks[q].base + v.blocks[q].len == v.blocks[j].base + v.extent));
      if v.blocks[q].base + v.blocks[q].len == v.blocks[j].base {
        assert EndsAt(v, etypeSize, p, c, q);
      } else {
        assert EndsAt(v, etypeSize, p, c - 1, q);
      }
    }
  }

  /** With the last block located at p, it decides. */
  lemma LocatedDecides(v: View, etypeSize: nat, x: nat, c: nat, j: nat, p: int)
    requires GoodFiletype(v) && etypeSize > 0 && LastBlock(v, x, c, j) && BlockStart(v, c, j) == p
    ensures RightEof(v, etypeSize, x, LastEtype(p, etypeSize, x - p, LengthRead(v.blocks, j)))
            <==> LeadsRight(v, etypeSize, c > 0, x - p, j)
  {
    if v.blocks[j].len > 0 {
      FullBlockDecides(v, etypeSize, x, c, j, p);
    } else {
      LastEtypeFits(p, etypeSize, x - p, LengthRead(v.blocks, j));
      EmptyBlockDecides(v, etypeSize, x, c, j, p, LastEtype(p, etypeSize, x - p, LengthRead(v.blocks, j)));
      StandsAtEndIs(v, etypeSize, c, j, p);
    }
  }

  lemma InBlock(v: View, etypeSize: nat, x: nat, j: nat, p: int)
    requires v.extent > 0 && etypeSize > 0 && v.blocks != [] && v.blocks[0].base <= x - CopyStart(x, v.extent)
    requires j == Located(v.blocks, x - CopyStart(x, v.extent)) && p == CopyStart(x, v.extent) + v.blocks[j].base
    ensures Answer(v, etypeSize, x) == LastEtype(p, etypeSize, x - p, LengthRead(v.blocks, j))
    ensures EofMeets(v, etypeSize, x) <==> LeadsRight(v, etypeSize, v.extent <= x, x - p, j)
  {
    assert x - p == x - CopyStart(x, v.extent) - v.blocks[j].base;
  }

  /** From the block the search finds. */
  lemma AnswerFromBlock(v: View, etypeSize: nat, x: nat, start: nat, j: nat, p: int)
    requires etypeSize > 0 && v.extent > 0 && v.blocks != [] && start == CopyStart(x, v.extent)
    requires v.blocks[0].base <= x - start && j == Located(v.blocks, x - start) && p == start + v.blocks[j].base
    ensures p <= x && Answer(v, etypeSize, x) <= x
    ensures Answer(v, etypeSize, x) == p + MostEtypes(etypeSize, x - p, LengthRead(v.blocks, j))
  {
    InBlock(v, etypeSize, x, j, p);
    LastEtypeFits(p, etypeSize, x - p, LengthRead(v.blocks, j));
    LastEtypeIs(p, etypeSize, x - p, LengthRead(v.blocks, j));
  }

  lemma AnswerInBlock(v: View, etypeSize: nat, x: nat, start: int, j: nat, p: int, len: nat, out: int)
    requires etypeSize > 0 && v.blocks != [] && Ascending(v.blocks) && v.blocks[0].base <= x - start
    requires j == Located(v.blocks, x - start)
    requires p == start + v.blocks[j].base && len == LengthRead(v.blocks, j) && out == p + MostEtypes(etypeSize, x - p, len)
    ensures AnswersFrom(v, etypeSize, x, start, j, out)
  {
    forall i | j < i < |v.blocks|
      ensures x < start + v.blocks[i].base
    {
      LaterStartPast(v.blocks, x - start, j, i);
    }
  }

  lemma AnswerInGap(v: View, etypeSize: nat, x: nat)
    requires etypeSize > 0 && v.extent > 0 && v.blocks != [] && x - CopyStart(x, v.extent) < v.blocks[0].base
    ensures Answer(v, etypeSize, x) == MostEtypes(etypeSize, x, v.blocks[0].len) && Answer(v, etypeSize, x) <= x
  {
    LastEtypeIs(0, etypeSize, x, v.blocks[0].len);
    LastEtypeFits(0, etypeSize, x, v.blocks[0].len);
  }

  lemma SomeBlockAnswers(v: View, etypeSize: nat, x: nat, start: nat)
    requires etypeSize > 0 && v.extent > 0 && v.blocks != [] && Ascending(v.blocks)
    requires start == CopyStart(x, v.extent) && v.blocks[0].base <= x - start
    ensures exists j :: AnswersFrom(v, etypeSize, x, start, j, Answer(v, etypeSize, x))
  {
    var j := Located(v.blocks, x - start);
    var p, len := start + v.blocks[j].base, LengthRead(v.blocks, j);
    AnswerFromBlock(v, etypeSize, x, start, j, p);
    AnswerInBlock(v, etypeSize, x, start, j, p, len, Answer(v, etypeSize, x));
  }

  lemma AnswerWithin(v: View, etypeSize: nat, x: nat)
    requires etypeSize > 0 && v.extent > 0 && v.blocks != []
    ensures Answer(v, etypeSize, x) <= x
  {
    var start := CopyStart(x, v.extent);
    if v.blocks[0].base <= x - start {
      var j := Located(v.blocks, x - start);
      AnswerFromBlock(v, etypeSize, x, start, j, start + v.blocks[j].base);
    } else {
      AnswerInGap(v, etypeSize, x);
    }
  }

  /**
   * The answer, never past the input: from the last block of the input's copy
   * at or before it, by the length of the block after that, if there is one;
   * in the gap before a copy's first block from 0, by the first length.
   */
  lemma AnswerIs(v: View, etypeSize: nat, x: nat, start: nat)
    requires etypeSize > 0 && v.extent > 0 && v.blocks != [] && Ascending(v.blocks)
    requires start == (x / v.extent) * v.extent
    ensures if start + v.blocks[0].base <= x then exists j :: AnswersFrom(v, etypeSize, x, start, j, Answer(v, etypeSize, x))
            else Answer(v, etypeSize, x) == MostEtypes(etypeSize, x, v.blocks[0].len)
    ensures Answer(v, etypeSize, x) <= x
  {
    CopyStartIs(x, v.extent);
    AnswerWithin(v, etypeSize, x);
    if v.blocks[0].base <= x - start {
      SomeBlockAnswers(v, etypeSize, x, start);
    } else {
      AnswerInGap(v, etypeSize, x);
    }
  }

  lemma InBlockIsRight(v: View, etypeSize: nat, x: nat)
    requires GoodFiletype(v) && etypeSize > 0 && v.blocks[0].base <= x - CopyStart(x, v.extent)
    ensures RightEof(v, etypeSize, x, Answer(v, etypeSize, x)) <==> EofMeets(v, etypeSize, x)
  {
    var c, j := Etypes(x, v.extent), Located(v.blocks, x - CopyStart(x, v.extent));
    var p := CopyStart(x, v.extent) + v.blocks[j].base;
    LocatedIsLast(v, x);
    LocatedDecides(v, etypeSize, x, c, j, p);
    InBlock(v, etypeSize, x, j, p);
  }

  // ----- in the gap before the first block of a copy -----

  /** Any block but the very first starts behind the first one's length, which is no more than the extent. */
  lemma OthersStartLater(v: View, c: nat, j: nat)
    requires GoodFiletype(v) && j < |v.blocks| && (c > 0 || j > 0)
    ensures v.blocks[0].base + v.blocks[0].len <= BlockStart(v, c, j)
  {
    EndsBefore(v, 0, 0, c, j);
  }

  lemma FirstFitsExtent(v: View)
    requires GoodFiletype(v)
    ensures v.blocks[0].len <= v.extent
  {
    BasesRise(v.blocks, 0, |v.blocks| - 1);
  }

  /** From 0 the code comes to the end of the first length, if x is past it. */
  lemma GapAnswer(v: View, etypeSize: nat, x: nat)
    requires GoodFiletype(v) && etypeSize > 0 && v.extent <= x
    ensures LastEtype(0, etypeSize, x, v.blocks[0].len) == Steps(etypeSize, Etypes(v.blocks[0].len, etypeSize))
  {
    FirstFitsExtent(v);
    LastEtypeIsLast(0, etypeSize, x, v.blocks[0].len, Etypes(v.blocks[0].len, etypeSize));
  }

  /** x less whole etypes. */
  lemma EtypesShift(x: nat, b: nat, size: nat)
    requires size > 0 && b <= x && IsWhole(b, size)
    ensures Etypes(x, size) == Etypes(b, size) + Etypes(x - b, size)
  {
    StepsAdd(size, Etypes(b, size), Etypes(x - b, size));
    EtypesUnique(x, size, Etypes(b, size) + Etypes(x - b, size));
  }

  /** A block of len bytes from b, whole etypes from 0, and x in the etype that len ends in. */
  lemma HitFromZero(x: nat, b: nat, len: nat, size: nat)
    requires size > 0 && 0 < b <= x && IsWhole(b, size) && Etypes(x, size) == Etypes(len, size)
    ensures x < b + len && LastEtype(b, size, x - b, len) == Steps(size, Etypes(len, size))
  {
    EtypesShift(x, b, size);
    StepsRise(size, 0, Etypes(b, size));
    StepsAdd(size, Etypes(b, size), Etypes(x - b, size));
  }

  lemma FirstIsLast(v: View, x: nat)
    requires GoodFiletype(v) && v.blocks[0].base <= x < v.blocks[0].base + v.blocks[0].len
    ensures LastBlock(v, x, 0, 0) && BlockStart(v, 0, 0) == v.blocks[0].base
  {
    forall c: nat, j: nat | j < |v.blocks| && (0 < c || (0 == c && 0 < j))
      ensures x < BlockStart(v, c, j)
    {
      OthersStartLater(v, c, j);
    }
  }

  lemma GapMeets(v: View, etypeSize: nat, x: nat)
    requires GoodFiletype(v) && etypeSize > 0 && 0 < v.blocks[0].base && HitsFromZero(v.blocks[0], etypeSize, x)
    ensures RightEof(v, etypeSize, x, Steps(etypeSize, Etypes(v.blocks[0].len, etypeSize)))
  {
    HitFromZero(x, v.blocks[0].base, v.blocks[0].len, etypeSize);
    FirstIsLast(v, x);
    FullBlockIsRight(v, etypeSize, x, 0, 0, v.blocks[0].base);
  }

  lemma OnlyTheFirst(v: View, c: nat, j: nat)
    requires GoodFiletype(v) && 0 < v.blocks[0].base && j < |v.blocks| && BlockStart(v, c, j) <= v.blocks[0].len
    ensures c == 0 && j == 0
  {
    if c > 0 || j > 0 {
      OthersStartLater(v, c, j);
    }
  }

  /** A boundary that is no further than the first length is of the very first block. */
  lemma BoundaryOfFirst(v: View, etypeSize: nat, out: int) returns (m: nat)
    requires GoodFiletype(v) && 0 < v.blocks[0].base && out <= v.blocks[0].len && IsBoundary(v, etypeSize, out)
    ensures v.blocks[0].len > 0 && Steps(etypeSize, m) <= v.blocks[0].len && out == v.blocks[0].base + Steps(etypeSize, m)
  {
    var c: nat, j: nat, k: nat :| BoundaryOf(v, etypeSize, out, c, j, k);
    StepsRise(etypeSize, 0, k);
    OnlyTheFirst(v, c, j);
    m := k;
  }

  /** The next etype of the first block would be a boundary too. */
  lemma NextIsPast(v: View, etypeSize: nat, x: nat, m: nat)
    requires etypeSize > 0 && v.blocks != [] && v.blocks[0].len > 0
    requires RightEof(v, etypeSize, x, v.blocks[0].base + Steps(etypeSize, m))
    requires Steps(etypeSize, m + 1) <= v.blocks[0].len
    ensures x < v.blocks[0].base + Steps(etypeSize, m + 1)
  {
    var next := v.blocks[0].base + Steps(etypeSize, m + 1);
    assert BoundaryOf(v, etypeSize, next, 0, 0, m + 1);
    assert IsBoundary(v, etypeSize, next);
  }

  /** If b and m etypes are the l etypes that fit len, b is whole etypes, and x with no further etype from b ends in etype l. */
  lemma FromZeroHits(x: nat, b: nat, len: nat, size: nat, m: nat)
    requires size > 0 && 0 < b && b + Steps(size, m) == Steps(size, Etypes(len, size)) <= x < b + Steps(size, m + 1)
    ensures b <= x && IsWhole(b, size) && Etypes(x, size) == Etypes(len, size)
  {
    var l := Etypes(len, size);
    StepsRise(size, 0, m);
    if l <= m {
      StepsRise(size, l, m);
    }
    StepsAdd(size, l - m, m);
    EtypesUnique(b, size, l - m);
    EtypesUnique(x, size, l);
  }

  lemma GapIsRightOnly(v: View, etypeSize: nat, x: nat)
    requires GoodFiletype(v) && etypeSize > 0 && 0 < v.blocks[0].base
    requires RightEof(v, etypeSize, x, Steps(etypeSize, Etypes(v.blocks[0].len, etypeSize)))
    ensures HitsFromZero(v.blocks[0], etypeSize, x)
  {
    var b, len := v.blocks[0].base, v.blocks[0].len;
    var l := Etypes(len, etypeSize);
    var m := BoundaryOfFirst(v, etypeSize, Steps(etypeSize, l));
    if l <= m {
      StepsRise(etypeSize, l, m);
    }
    StepsRise(etypeSize, m + 1, l);
    NextIsPast(v, etypeSize, x, m);
    FromZeroHits(x, b, len, etypeSize, m);
  }

  /** In the first copy's gap no place of the view lies at or before x. */
  lemma NoBoundaryBefore(v: View, etypeSize: nat, x: nat, a: int)
    requires GoodFiletype(v) && x < v.blocks[0].base && IsBoundary(v, etypeSize, a)
    ensures x < a
  {
    var c: nat, j: nat, m: nat :| BoundaryOf(v, etypeSize, a, c, j, m);
    StepsRise(etypeSize, 0, m);
    if c > 0 || j > 0 {
      OthersStartLater(v, c, j);
    }
  }

  lemma GapDecides(v: View, etypeSize: nat, x: nat)
    requires GoodFiletype(v) && etypeSize > 0 && x - CopyStart(x, v.extent) < v.blocks[0].base
    ensures RightEof(v, etypeSize, x, LastEtype(0, etypeSize, x, v.blocks[0].len)) <==> HitsFromZero(v.blocks[0], etypeSize, x)
  {
    if v.extent <= x {
      GapAnswer(v, etypeSize, x);
      if HitsFromZero(v.blocks[0], etypeSize, x) {
        GapMeets(v, etypeSize, x);
      }
      if RightEof(v, etypeSize, x, LastEtype(0, etypeSize, x, v.blocks[0].len)) {
        GapIsRightOnly(v, etypeSize, x);
      }
    } else if RightEof(v, etypeSize, x, LastEtype(0, etypeSize, x, v.blocks[0].len)) {
      NoBoundaryBefore(v, etypeSize, x, LastEtype(0, etypeSize, x, v.blocks[0].len));
    }
  }

  /**
   * The comment's promise, over all copies: the answer is right if and only if
   * the input is not in the gap before its copy's first block and the located
   * block leads to it, but for the one chance hit in the gap.
   */
  lemma EofIsRight(v: View, etypeSize: nat, x: nat)
    requires GoodFiletype(v) && etypeSize > 0
    ensures RightEof(v, etypeSize, x, Answer(v, etypeSize, x)) <==> EofMeets(v, etypeSize, x)
  {
    if v.blocks[0].base <= x - CopyStart(x, v.extent) {
      InBlockIsRight(v, etypeSize, x);
    } else {
      GapDecides(v, etypeSize, x);
    }
  }

  /** Blocks of one length, the first of them at 0: the answer is always right. */
  lemma EqualLengthsAreRight(v: View, etypeSize: nat, x: nat)
    requires GoodFiletype(v) && etypeSize > 0
    requires v.blocks[0].base == 0 && forall j :: 0 <= j < |v.blocks| ==> v.blocks[j].len == v.blocks[0].len
    ensures RightEof(v, etypeSize, x, Answer(v, etypeSize, x))
  {
    var q := NonEmptyBlockExists(v.blocks);
    EofIsRight(v, etypeSize, x);
  }

  /** In the first copy's gap nothing is right, as the first place of the view is yet to come, and the answer lies in the gap. */
  lemma FirstGap(v: View, etypeSize: nat, x: nat)
    requires GoodFiletype(v) && etypeSize > 0 && x < v.extent && x < v.blocks[0].base
    ensures 0 <= Answer(v, etypeSize, x) <= x && forall a: int :: IsBoundary(v, etypeSize, a) ==> x < a
  {
    LastEtypeFits(0, etypeSize, x, v.blocks[0].len);
    forall a: int | IsBoundary(v, etypeSize, a)
      ensures x < a
    {
      NoBoundaryBefore(v, etypeSize, x, a);
    }
  }

  // ----- at inputs -----

  lemma {:induction false} BytesAreEtypes(n: nat)
    ensures Etypes(n, 1) == n && Steps(1, n) == n
  {
    StepsAre(1, n);
    EtypesAre(n, 1);
  }

  /** The length of the following block, two bytes, cuts a block of ten short. */
  lemma FollowingLengthMisleads()
    ensures var v := View(0, 100, [IoVec(0, 10), IoVec(20, 2)]);
            Answer(v, 1, 8) == 2 && RightEof(v, 1, 8, 8) && !RightEof(v, 1, 8, 2)
  {
    var v := View(0, 100, [IoVec(0, 10), IoVec(20, 2)]);
    BytesAreEtypes(8);
    BytesAreEtypes(2);
    BytesAreEtypes(10);
    SizeStep(v.blocks, 0);
    SizeStep(v.blocks, 1);
    assert v.blocks[..2] == v.blocks && v.blocks[..1][0] == v.blocks[0];
    LocatedIsLast(v, 8);
    FullBlockIsRight(v, 1, 8, 0, 0, 0);
    OnlyOneRight(v, 1, 8, 8, 2);
  }

  /** Between the copies the answer is no place of the view: 10 where the block before the input ends at 20. */
  lemma LaterGapMisleads()
    ensures var v := View(0, 100, [IoVec(10, 10)]);
            Answer(v, 1, 105) == 10 && RightEof(v, 1, 105, 20) && !RightEof(v, 1, 105, 10)
  {
    var v := View(0, 100, [IoVec(10, 10)]);
    BytesAreEtypes(105);
    BytesAreEtypes(95);
    BytesAreEtypes(10);
    CopyStartIs(105, 100);
    SizeStep(v.blocks, 0);
    assert v.blocks[..1] == v.blocks;
    forall c: nat, j: nat | j < |v.blocks| && (0 < c || (0 == c && 0 < j))
      ensures 105 < BlockStart(v, c, j)
    {
      LaterCopyStarts(v, 0, c, j);
    }
    FullBlockIsRight(v, 1, 105, 0, 0, 10);
    OnlyOneRight(v, 1, 105, 20, 10);
  }

  /** An empty block between the copies is taken for a place of the view: 50 where the bytes end at 10. */
  lemma EmptyLastMisleads()
    ensures var v := View(0, 100, [IoVec(0, 10), IoVec(50, 0)]);
            Answer(v, 1, 60) == 50 && RightEof(v, 1, 60, 10) && !RightEof(v, 1, 60, 50)
  {
    var v := View(0, 100, [IoVec(0, 10), IoVec(50, 0)]);
    BytesAreEtypes(0);
    BytesAreEtypes(10);
    EndIsBoundary(v, 1, 10, 0, 0);
    forall a: int | IsBoundary(v, 1, a) && a <= 60
      ensures a <= 10
    {
      var c: nat, j: nat, m: nat :| BoundaryOf(v, 1, a, c, j, m);
      StepsAre(1, m);
      StepsAre(100, c);
    }
    OnlyOneRight(v, 1, 60, 10, 50);
  }

  /** The chance hit: two etypes from 0 end where two etypes from 4 are cut at the input. */
  lemma LaterGapHits()
    ensures var v := View(0, 8, [IoVec(4, 8)]); Answer(v, 4, 8) == 8 && RightEof(v, 4, 8, 8)
  {
    var v := View(0, 8, [IoVec(4, 8)]);
    EtypesUnique(8, 4, 2);
    EtypesUnique(4, 4, 1);
    EtypesUnique(8, 8, 1);
    SizeStep(v.blocks, 0);
    assert v.blocks[..1] == v.blocks;
    EofIsRight(v, 4, 8);
  }
}
