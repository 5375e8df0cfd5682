/**
 * The decision for direct I/O without its recursion: a type is accepted exactly
 * when every type it is built of, at whatever depth, passes a test of its own
 * arguments.
 */
module DirectIoNodes {
  import opened DirectIo

  /** n is t, or one of the types t is built of. */
  ghost predicate Within(n: Type, t: Type)
    decreases t
  {
    n == t || exists k :: 0 <= k < |GetContents(t).d| && Within(n, GetContents(t).d[k])
  }

  /** Runs of n elements in a row of a base pass: nothing is asked here unless it is predefined. */
  predicate RunPasses(base: Type, n: int, pagesize: nat, threshold: int)
    requires pagesize > 0
  {
    base.Named? ==> base.size > 0 && (Fits(base.size, pagesize, threshold) || Fits(base.size * n, pagesize, threshold))
  }

  /** The whole dimension, or the block of it that is looked at. */
  function RunInDimension(t: Type, dim: nat): int
    requires t.Darray? && GoodArguments(t) && dim < |t.gsizes|
  {
    if t.distribs[dim] == DISTRIBUTE_NONE then t.gsizes[dim]
    else if t.dargs[dim] == DFLT_DARG then t.gsizes[dim] / t.psizes[dim]
    else t.dargs[dim]
  }

  ghost predicate NodePasses(n: Type, pagesize: nat, threshold: int)
    requires pagesize > 0 && GoodArguments(n)
  {
    match n
    case Named(_) => true
    case Other(_) => true
    case F90(_) => false
    case Resized(_) => false
    case Dup(base) => RunPasses(base, 1, pagesize, threshold)
    case Contiguous(count, base) => count > 0 && RunPasses(base, count, pagesize, threshold)
    case Vector(count, blocklength, _, base) => count > 0 && RunPasses(base, blocklength, pagesize, threshold)
    case Hvector(count, blocklength, base) => count > 0 && RunPasses(base, blocklength, pagesize, threshold)
    case IndexedBlock(blocklength, displacements, base) => displacements != [] && RunPasses(base, blocklength, pagesize, threshold)
    case HindexedBlock(count, blocklength, base) => count > 0 && RunPasses(base, blocklength, pagesize, threshold)
    case Indexed(lengths, _, base) => lengths != [] && RunsPass(base, lengths, pagesize, threshold)
    case Hindexed(lengths, base) => lengths != [] && RunsPass(base, lengths, pagesize, threshold)
    case Struct(lengths, types) =>
      lengths != [] && forall k :: 0 <= k < |lengths| ==> RunPasses(types[k], lengths[k], pagesize, threshold)
    case Subarray(_, subsizes, _, order, base) =>
      RunPasses(base, subsizes[if order == ORDER_C then |subsizes| - 1 else 0], pagesize, threshold)
    case Darray(_, _, gsizes, distribs, _, _, order, base) =>
      var dim := if order == ORDER_C then |gsizes| - 1 else 0;
      base.Named? ==>
        && base.size > 0
        && (|| Fits(base.size, pagesize, threshold)
            || (&& (distribs[dim] == DISTRIBUTE_NONE || distribs[dim] == DISTRIBUTE_BLOCK)
                && Fits(base.size * RunInDimension(n, dim), pagesize, threshold)))
  }

  /** A predefined base passes by itself, or all the blocks do. */
  ghost predicate RunsPass(base: Type, lengths: seq<nat>, pagesize: nat, threshold: int)
    requires pagesize > 0
  {
    base.Named? ==>
      && base.size > 0
      && (|| Fits(base.size, pagesize, threshold)
          || forall k :: 0 <= k < |lengths| ==> Fits(base.size * lengths[k], pagesize, threshold))
  }

  /** The type itself is not predefined, or big enough alone. */
  predicate Alone(t: Type, pagesize: nat, threshold: int)
    requires pagesize > 0
  {
    t.Named? ==> t.size > 0 && Fits(t.size, pagesize, threshold)
  }

  /** All that a type is directly built of, unless predefined, is accepted. */
  ghost predicate PartsAccepted(t: Type, pagesize: nat, threshold: int)
    requires pagesize > 0 && WellFormed(t)
  {
    forall k :: 0 <= k < |GetContents(t).d| ==>
      GetContents(t).d[k].Named? || EnableDirectIo(GetContents(t).d[k], pagesize, threshold)
  }

  /** Member k of a structure passes by itself or by its block. */
  predicate MemberPasses(t: Type, k: nat, pagesize: nat, threshold: int)
    requires pagesize > 0 && WellFormed(t) && t.Struct? && k < |t.types|
  {
    assert WellFormed(GetContents(t).d[k]);
    EnableDirectIo(t.types[k], pagesize, threshold) || NamedRunFits(t.types[k], t.lengths[k], pagesize, threshold)
  }

  lemma LastMember(t: Type, n: nat, pagesize: nat, threshold: int)
    requires pagesize > 0 && WellFormed(t) && t.Struct? && 0 < n <= |t.types|
    ensures EnableStruct(t, n, pagesize, threshold) <==>
            EnableStruct(t, n - 1, pagesize, threshold) && MemberPasses(t, n - 1, pagesize, threshold)
  {
    assert GetContents(t).i[n] == t.lengths[n - 1] && GetContents(t).d[n - 1] == t.types[n - 1];
  }

  lemma {:induction false} StructIs(t: Type, n: nat, pagesize: nat, threshold: int)
    requires pagesize > 0 && WellFormed(t) && t.Struct? && n <= |t.types|
    ensures EnableStruct(t, n, pagesize, threshold) <==>
            forall k: nat :: k < n ==> MemberPasses(t, k, pagesize, threshold)
    decreases n
  {
    if n > 0 {
      StructIs(t, n - 1, pagesize, threshold);
      LastMember(t, n, pagesize, threshold);
    }
  }

  lemma MemberStep(t: Type, k: nat, pagesize: nat, threshold: int)
    requires pagesize > 0 && WellFormed(t) && t.Struct? && k < |t.types|
    ensures GetContents(t).d[k] == t.types[k] && WellFormed(t.types[k])
    ensures MemberPasses(t, k, pagesize, threshold) <==>
            && RunPasses(t.types[k], t.lengths[k], pagesize, threshold)
            && (t.types[k].Named? || EnableDirectIo(t.types[k], pagesize, threshold))
  {
    assert WellFormed(GetContents(t).d[k]);
  }

  lemma StructStep(t: Type, pagesize: nat, threshold: int)
    requires pagesize > 0 && WellFormed(t) && t.Struct?
    ensures EnableDirectIo(t, pagesize, threshold) <==>
            NodePasses(t, pagesize, threshold) && PartsAccepted(t, pagesize, threshold)
  {
    StructIs(t, |t.types|, pagesize, threshold);
    forall k: nat | k < |t.types|
      ensures GetContents(t).d[k] == t.types[k] && WellFormed(t.types[k])
      ensures MemberPasses(t, k, pagesize, threshold) <==>
              && RunPasses(t.types[k], t.lengths[k], pagesize, threshold)
              && (t.types[k].Named? || EnableDirectIo(t.types[k], pagesize, threshold))
    {
      MemberStep(t, k, pagesize, threshold);
    }
    assert GetContents(t).i[0] == |t.types| && |GetContents(t).d| == |t.types|;
  }

  lemma IndexedStep(t: Type, pagesize: nat, threshold: int)
    requires pagesize > 0 && WellFormed(t) && (t.Indexed? || t.Hindexed?)
    ensures EnableDirectIo(t, pagesize, threshold) <==>
            NodePasses(t, pagesize, threshold) && PartsAccepted(t, pagesize, threshold)
  {
    var i := GetContents(t).i;
    assert GetContents(t).d == [t.base] && i[0] == |t.lengths|;
    assert forall c :: 1 <= c <= |t.lengths| ==> i[c] == t.lengths[c - 1];
    if t.lengths != [] {
      assert i[1] == t.lengths[0];
      BlocksStep(t, pagesize, threshold);
    }
  }

  /** The blocks as the decision counts them. */
  lemma BlocksStep(t: Type, pagesize: nat, threshold: int)
    requires pagesize > 0 && WellFormed(t) && (t.Indexed? || t.Hindexed?) && t.lengths != []
    requires GetContents(t).i[0] == |t.lengths| < |GetContents(t).i|
    requires forall c :: 1 <= c <= |t.lengths| ==> GetContents(t).i[c] == t.lengths[c - 1]
    ensures (forall c :: 1 <= c <= |t.lengths| ==> NamedRunFits(t.base, GetContents(t).i[c], pagesize, threshold)) <==>
            (forall k :: 0 <= k < |t.lengths| ==> NamedRunFits(t.base, t.lengths[k], pagesize, threshold))
  {
    if forall c :: 1 <= c <= |t.lengths| ==> NamedRunFits(t.base, GetContents(t).i[c], pagesize, threshold) {
      forall k | 0 <= k < |t.lengths|
        ensures NamedRunFits(t.base, t.lengths[k], pagesize, threshold)
      {
        assert NamedRunFits(t.base, GetContents(t).i[k + 1], pagesize, threshold);
      }
    }
  }

  lemma BaseIsPart(t: Type)
    requires WellFormed(t) && (t.Subarray? || t.Darray?)
    ensures GetContents(t).d == [t.base] && WellFormed(t.base)
  {
    assert GetContents(t).d == [t.base] && WellFormed(GetContents(t).d[0]);
  }

  lemma SubarrayStep(t: Type, pagesize: nat, threshold: int)
    requires pagesize > 0 && WellFormed(t) && t.Subarray?
    ensures EnableDirectIo(t, pagesize, threshold) <==>
            NodePasses(t, pagesize, threshold) && PartsAccepted(t, pagesize, threshold)
  {
    BaseIsPart(t);
    if EnableDirectIo(t, pagesize, threshold) {
      SubarrayDecision(t, pagesize, threshold);
    }
    if NodePasses(t, pagesize, threshold) && PartsAccepted(t, pagesize, threshold) {
      assert GetContents(t).d[0] == t.base;
      SubarrayAccepted(t, pagesize, threshold);
    }
  }

  lemma AcceptedForBase(t: Type, pagesize: nat, threshold: int)
    requires pagesize > 0 && WellFormed(t) && t.Darray? && WellFormed(t.base) && EnableDirectIo(t.base, pagesize, threshold)
    ensures EnableDirectIo(t, pagesize, threshold)
  {
    assert GetContents(t).d[0] == t.base;
  }

  lemma DarrayStep(t: Type, pagesize: nat, threshold: int)
    requires pagesize > 0 && WellFormed(t) && t.Darray?
    ensures EnableDirectIo(t, pagesize, threshold) <==>
            NodePasses(t, pagesize, threshold) && PartsAccepted(t, pagesize, threshold)
  {
    BaseIsPart(t);
    if EnableDirectIo(t.base, pagesize, threshold) {
      AcceptedForBase(t, pagesize, threshold);
    } else {
      if EnableDirectIo(t, pagesize, threshold) {
        DarrayDecision(t, pagesize, threshold);
      }
      if NodePasses(t, pagesize, threshold) && PartsAccepted(t, pagesize, threshold) {
        assert GetContents(t).d[0] == t.base;
        DistributedAccepted(t, pagesize, threshold);
      }
    }
  }

  /** One step: a type is accepted if it passes itself and its parts are accepted. */
  lemma Step(t: Type, pagesize: nat, threshold: int)
    requires pagesize > 0 && WellFormed(t)
    ensures EnableDirectIo(t, pagesize, threshold) <==>
            NodePasses(t, pagesize, threshold) && Alone(t, pagesize, threshold) && PartsAccepted(t, pagesize, threshold)
  {
    if t.Struct? {
      StructStep(t, pagesize, threshold);
    } else if t.Indexed? || t.Hindexed? {
      IndexedStep(t, pagesize, threshold);
    } else if t.Subarray? {
      SubarrayStep(t, pagesize, threshold);
    } else if t.Darray? {
      DarrayStep(t, pagesize, threshold);
    } else if GetContents(t).d != [] {
      assert GetContents(t).d == [t.base];
    }
  }

  /** Every type t is built of passes. */
  ghost predicate AllPass(t: Type, pagesize: nat, threshold: int)
    requires pagesize > 0
  {
    forall n :: Within(n, t) ==> GoodArguments(n) && NodePasses(n, pagesize, threshold)
  }

  lemma PartIsWithin(t: Type, k: nat, pagesize: nat, threshold: int)
    requires pagesize > 0 && k < |GetContents(t).d| && AllPass(t, pagesize, threshold)
    ensures AllPass(GetContents(t).d[k], pagesize, threshold)
  {
    assert forall n :: Within(n, GetContents(t).d[k]) ==> Within(n, t);
  }

  lemma PartsMakeAll(t: Type, pagesize: nat, threshold: int)
    requires pagesize > 0 && GoodArguments(t) && NodePasses(t, pagesize, threshold)
    requires forall k :: 0 <= k < |GetContents(t).d| ==> AllPass(GetContents(t).d[k], pagesize, threshold)
    ensures AllPass(t, pagesize, threshold)
  {
    forall n | Within(n, t)
      ensures GoodArguments(n) && NodePasses(n, pagesize, threshold)
    {
      if n != t {
        var k :| 0 <= k < |GetContents(t).d| && Within(n, GetContents(t).d[k]);
        assert AllPass(GetContents(t).d[k], pagesize, threshold);
      }
    }
  }

  /** A type is accepted if and only if every type it is built of passes, and it is big enough if predefined. */
  lemma {:induction false} AcceptedExactly(t: Type, pagesize: nat, threshold: int)
    requires pagesize > 0 && WellFormed(t)
    ensures EnableDirectIo(t, pagesize, threshold) <==>
            AllPass(t, pagesize, threshold) && (t.Named? ==> t.size > 0 && Fits(t.size, pagesize, threshold))
    decreases t
  {
    var d := GetContents(t).d;
    Step(t, pagesize, threshold);
    if AllPass(t, pagesize, threshold) {
      assert Within(t, t);
      forall k | 0 <= k < |d|
        ensures d[k].Named? || EnableDirectIo(d[k], pagesize, threshold)
      {
        PartIsWithin(t, k, pagesize, threshold);
        AcceptedExactly(d[k], pagesize, threshold);
      }
    }
    if EnableDirectIo(t, pagesize, threshold) {
      forall k | 0 <= k < |d|
        ensures AllPass(d[k], pagesize, threshold)
      {
        AcceptedExactly(d[k], pagesize, threshold);
        NamedPasses(d[k], pagesize, threshold);
      }
      PartsMakeAll(t, pagesize, threshold);
    }
  }

  lemma NamedPasses(t: Type, pagesize: nat, threshold: int)
    requires pagesize > 0
    ensures t.Named? ==> AllPass(t, pagesize, threshold)
  {
  }

  /** How many parts or blocks the constructor repeats. */
  function OuterCount(t: Type): nat {
    match t
    case Contiguous(count, _) => count
    case Vector(count, _, _, _) => count
    case Hvector(count, _, _) => count
    case Indexed(lengths, _, _) => |lengths|
    case Hindexed(lengths, _) => |lengths|
    case IndexedBlock(_, displacements, _) => |displacements|
    case HindexedBlock(count, _, _) => count
    case Struct(lengths, _) => |lengths|
    case _ => 1
  }

  lemma {:induction false} WithinIsWellFormed(n: Type, t: Type)
    requires WellFormed(t) && Within(n, t)
    ensures WellFormed(n)
    decreases t
  {
    if n != t {
      var k :| 0 <= k < |GetContents(t).d| && Within(n, GetContents(t).d[k]);
      WithinIsWellFormed(n, GetContents(t).d[k]);
    }
  }

  lemma {:induction false} WithinTransitive(m: Type, n: Type, t: Type)
    requires Within(m, n) && Within(n, t)
    ensures Within(m, t)
    decreases t
  {
    if n != t {
      var k :| 0 <= k < |GetContents(t).d| && Within(n, GetContents(t).d[k]);
      WithinTransitive(m, n, GetContents(t).d[k]);
    }
  }

  /** A part of an accepted type passes at every depth. */
  lemma PartPasses(t: Type, n: Type, pagesize: nat, threshold: int)
    requires pagesize > 0 && AllPass(t, pagesize, threshold) && Within(n, t)
    ensures AllPass(n, pagesize, threshold)
  {
    forall m | Within(m, n)
      ensures GoodArguments(m) && NodePasses(m, pagesize, threshold)
    {
      WithinTransitive(m, n, t);
    }
  }

  lemma DistributionAccepted(n: Type, pagesize: nat, threshold: int)
    requires pagesize > 0 && WellFormed(n) && n.Darray? && EnableDirectIo(n, pagesize, threshold)
    ensures WellFormed(n.base)
    ensures || n.distribs[if n.order == ORDER_C then |n.gsizes| - 1 else 0] in {DISTRIBUTE_NONE, DISTRIBUTE_BLOCK}
            || EnableDirectIo(n.base, pagesize, threshold)
  {
    BaseIsPart(n);
    if !EnableDirectIo(n.base, pagesize, threshold) {
      DarrayDecision(n, pagesize, threshold);
    }
  }

  /**
   * Nowhere in an accepted type is there a resized type, a Fortran 90 type or
   * a count of zero, every part of it is accepted but predefined ones that are
   * decided in a row, and a distribution that is neither by block nor none at
   * all has an accepted base.
   */
  lemma AcceptedThroughout(t: Type, n: Type, pagesize: nat, threshold: int)
    requires pagesize > 0 && WellFormed(t) && EnableDirectIo(t, pagesize, threshold) && Within(n, t)
    ensures WellFormed(n) && (n.Named? || EnableDirectIo(n, pagesize, threshold))
    ensures !n.Resized? && !n.F90? && OuterCount(n) > 0
    ensures n.Darray? ==>
              WellFormed(n.base) &&
              (|| n.distribs[if n.order == ORDER_C then |n.gsizes| - 1 else 0] in {DISTRIBUTE_NONE, DISTRIBUTE_BLOCK}
               || EnableDirectIo(n.base, pagesize, threshold))
  {
    AcceptedExactly(t, pagesize, threshold);
    WithinIsWellFormed(n, t);
    PartPasses(t, n, pagesize, threshold);
    if !n.Named? {
      AcceptedExactly(n, pagesize, threshold);
      assert NodePasses(n, pagesize, threshold);
      if n.Darray? {
        DistributionAccepted(n, pagesize, threshold);
      }
    }
  }
}
