/**
 * One job from the worker's side: reading the view off the staging file,
 * skipping with a log line what cannot be read, replaying the rest.
 */
module Worker {
  import opened AddressMap
  import opened Storage
  import opened ViewShape
  import opened Attributes
  import opened Wrappers
  import opened Paths
  import R = Replay
  import H = Handle

  /** ompi_datatype_create_from_packed_description, as far as it matters here. */
  type Unpack = seq<byte> -> H.DataType

  /** The saved view can be replayed: its datatypes have bytes. */
  ghost predicate Replayable(saved: Saved, unpack: Unpack) {
    unpack(saved.etype).size > 0 && Size(unpack(saved.filetype).blocks) > 0
  }

  function SavedViewOf(saved: Saved, unpack: Unpack): View {
    View(saved.disp, unpack(saved.filetype).extent, unpack(saved.filetype).blocks)
  }

  /**
   * worker_fn's step and execute: f is the file at the destination path, and
   * found whether the path exists. Nothing is written unless all
   * attributes can be read; then the file is what one write through the saved
   * view of all whole etypes leaves.
   */
  method Work(attrs: Attrs, src: seq<byte>, found: bool, unpack: Unpack, f: File, initial: nat)
    returns (done: bool, g: File)
    requires initial > 0
    requires ReadBack(attrs).Some? ==> Replayable(ReadBack(attrs).value.1, unpack)
    ensures done <==> found && ReadBack(attrs).Some?
    ensures !done ==> g == f
    ensures done ==>
              var saved := ReadBack(attrs).value.1;
              var filetype := unpack(saved.filetype);
              var v, size := View(saved.disp, filetype.extent, filetype.blocks), unpack(saved.etype).size;
              g == WriteView(f, v, 0, R.Replayed(src, size)) && (Injective(v) ==> R.Arrived(src, v, size, f, g))
  {
    done, g := false, f;
    var dest := GetXattr(attrs, ATTR_DEST_PATH, PATH_MAX - 1);
    if dest.None? || !found {
      return;
    }
    var etype := GetXattr(attrs, ATTR_ETYPE, MAX_XATTR_VALUE_SIZE);
    if etype.None? {
      return;
    }
    var ok, buf, total := Reassemble(attrs);
    if !ok {
      return;
    }
    var disp := GetXattr(attrs, ATTR_DISP, 8);
    if disp.None? {
      return;
    }
    var saved := Saved(DecodeDisp(disp.value), etype.value, buf[..total]);
    assert ReadBack(attrs) == Some((dest.value, saved));
    g := R.Execute(src, SavedViewOf(saved, unpack), unpack(saved.etype).size, f, initial);
    done := true;
  }
}
