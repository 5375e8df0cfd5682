/**
 * Sections, that is activated views with the writes made under them, and the
 * jobs that replay them: what arrives if each job is run in its turn.
 */
module Sections {
  import opened AddressMap
  import opened ViewShape
  import opened Storage
  import opened Replay
  import opened Disk
  import opened Worker
  import opened Wrappers
  import H = Handle
  import D = Daemon

  function ViewOf(v: H.SavedView): View {
    View(v.disp, v.filetype.extent, v.filetype.blocks)
  }

  /** What the application must respect in a view and its writes. */
  ghost predicate Proper(section: H.Section) {
    var v, etypeSize := ViewOf(section.view), section.view.etype.size;
    && ViewSize(v) > 0 && Injective(v) && etypeSize > 0 && section.view.disp != H.DISPLACEMENT_CURRENT
    && WholeWrites(etypeSize, section.writes)
    && (forall a :: a in Staged(etypeSize, section.writes) ==> a >= 0)
    && HoleFree(Staged(etypeSize, section.writes))
  }

  /** Packing is undone by unpacking, for the section's datatypes. */
  ghost predicate Unpacks(section: H.Section, unpack: Unpack) {
    unpack(section.view.etype.packed) == section.view.etype && unpack(section.view.filetype.packed) == section.view.filetype
  }

  /** A section and the path of the destination it was handed over for. */
  datatype Sent = Sent(dest: seq<byte>, section: H.Section)

  ghost predicate AllProper(sent: seq<Sent>) {
    forall k :: 0 <= k < |sent| ==> Proper(sent[k].section)
  }

  /** The file at path after the writes of all sections sent for it, made in order straight through their views. */
  ghost function WriteThrough(f: File, path: seq<byte>, sent: seq<Sent>): File
    requires AllProper(sent)
  {
    if sent == [] then f
    else
      var n := |sent| - 1;
      var s := sent[n].section;
      assert Proper(s);
      var before := WriteThrough(f, path, sent[..n]);
      var v := View(s.view.disp, s.view.filetype.extent, s.view.filetype.blocks);
      if sent[n].dest == path then Apply(before, v, s.view.etype.size, s.writes) else before
  }

  /** The job that replays a section. */
  ghost function SectionJob(sent: Sent): Job
    requires Proper(sent.section)
  {
    var s := sent.section;
    Job(sent.dest, ViewOf(s.view), s.view.etype.size, ReadAll(Staged(s.view.etype.size, s.writes)))
  }

  ghost predicate JobsOf(sent: seq<Sent>, jobs: seq<Job>) {
    && AllProper(sent) && |jobs| == |sent|
    && forall k :: 0 <= k < |sent| ==> jobs[k] == SectionJob(sent[k])
  }

  lemma SectionJobIsWhole(sent: Sent)
    requires Proper(sent.section)
    ensures GoodJob(SectionJob(sent)) && Limit(SectionJob(sent)) == |SectionJob(sent).bytes|
  {
    var j := SectionJob(sent);
    StagedIsWhole(j.etypeSize, sent.section.writes);
    WholeIsUnique(|j.bytes|, |j.bytes|, j.etypeSize);
  }

  /** Replaying one section's job is making its writes through its view. */
  lemma SectionReplays(d: Disk, f: File, sent: Sent, path: seq<byte>)
    requires Proper(sent.section) && IsFile(d, path, f)
    ensures var j := SectionJob(sent);
            && GoodJob(j)
            && IsFile(ReplayTo(d, j, Limit(j)), path,
                      if path == sent.dest then Apply(f, j.view, j.etypeSize, sent.section.writes) else f)
  {
    var j := SectionJob(sent);
    SectionJobIsWhole(sent);
    ReplayOnFile(d, f, j, |j.bytes|, path);
    assert j.bytes[..|j.bytes|] == j.bytes;
    WriteBehind(f, j.view, j.etypeSize, sent.section.writes);
  }

  /** Running the sections' jobs in order writes their bytes through. */
  lemma {:induction false} JobsReplay(d: Disk, f: File, sent: seq<Sent>, jobs: seq<Job>, path: seq<byte>)
    requires JobsOf(sent, jobs) && GoodJobs(jobs) && IsFile(d, path, f)
    ensures IsFile(RunInOrder(d, jobs), path, WriteThrough(f, path, sent))
    decreases |jobs|
  {
    if jobs != [] {
      var n := |jobs| - 1;
      JobsReplay(d, f, sent[..n], jobs[..n], path);
      assert Limits(jobs)[..n] == Limits(jobs[..n]);
      SectionReplays(RunInOrder(d, jobs[..n]), WriteThrough(f, path, sent[..n]), sent[n], path);
    }
  }

  /** A worker that takes the name of a file a handle has left for a section gets the section's job. */
  lemma HandedJob(c: H.Session, h: H.State, k: nat, unpack: Unpack)
    requires H.Shaped(h) && k < |h.sections| && H.Carries(c, h, k) && H.Holds(c, h, k)
    requires Proper(h.sections[k]) && Unpacks(h.sections[k], unpack)
    ensures D.JobOf(h.files, H.FileName(c, k + 1), unpack) == Some(SectionJob(Sent(c.dest, h.sections[k])))
  {
  }

  lemma {:induction false} OtherPathsKept(f: File, path: seq<byte>, sent: seq<Sent>)
    requires AllProper(sent) && forall k :: 0 <= k < |sent| ==> sent[k].dest != path
    ensures WriteThrough(f, path, sent) == f
  {
    if sent != [] {
      OtherPathsKept(f, path, sent[..|sent| - 1]);
    }
  }
}
