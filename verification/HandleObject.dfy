/**
 * The handle's data as the calls update it in place. Each method leaves the
 * fields as the handle's state machine says, and keeps the handle valid:
 * descriptor and state agree, and every section's bytes are in its own file.
 */
module HandleObject {
  import opened Storage
  import opened Attributes
  import opened Wrappers
  import opened ViewShape
  import S = StagingName
  import H = Handle

  class BBViewHandle {
    const session: H.Session
    var state: H.ViewState
    var viewIndex: nat
    var saved: Option<H.SavedView>
    var fd: H.Descriptor
    var atomicity: bool
    var closed: bool
    var files: map<string, H.Staging>      // the staging directory
    var handed: seq<string>                // the names written to the daemon's socket
    ghost var sections: seq<H.Section>

    ghost function Model(): H.State
      reads this
    {
      H.State(state, viewIndex, saved, fd, atomicity, closed, files, handed, sections)
    }

    /** Every section is in its own staging file, all but an active one handed over in order. */
    ghost predicate Valid()
      reads this
    {
      H.Inv(session, Model())
    }

    constructor (c: H.Session, staged: map<string, H.Staging>)
      ensures session == c && Model() == H.Opened(staged)
      ensures H.GoodSession(c) ==> Valid()
    {
      session := c;
      state, viewIndex, saved, fd := H.DEFAULT, 0, None, H.Destination;
      atomicity, closed := false, false;
      files, handed, sections := staged, [], [];
    }

    method Flush(o: H.Outcome) returns (code: H.Code)
      requires H.Shaped(Model())
      modifies this
      ensures (Model(), code) == H.Flush(session, old(Model()), o)
      ensures old(Valid() && state == H.ACTIVE && !closed) ==>
                && handed == (if code == H.SUCCESS then old(handed) + [H.FileName(session, viewIndex)] else old(handed))
                && H.Sound(session, Model(), |handed|, {})
    {
      ghost var before := Model();
      if H.Inv(session, before) && state == H.ACTIVE && !closed {
        H.FlushKeeps(session, before, o, {});
        H.FlushFrame(session, before, o, {});
      }
      if state != H.ACTIVE {
        return H.SUCCESS;
      }
      var name := S.BuildName(session.tmpDir, session.filename, session.rank, viewIndex);
      if name !in files || saved.None? {
        return H.ERROR;
      }
      var attrs, ok := SetXattrs(files[name].attrs, session.dest, H.Packed(saved.value), o.budget);
      files := files[name := files[name].(attrs := attrs)];
      if !ok || !o.sent {
        return H.ERROR;
      }
      handed := handed + [name];
      code := H.SUCCESS;
    }

    method Activate(v: H.SavedView, o: H.Outcome) returns (code: H.Code)
      modifies this
      ensures (Model(), code) == H.Activate(session, old(Model()), v, o)
    {
      state := H.ACTIVE;
      viewIndex := viewIndex + 1;
      saved := Some(v);
      sections := sections + [H.Section(v, [])];
      if !o.described {
        return H.ERROR;
      }
      var name := S.BuildName(session.tmpDir, session.filename, session.rank, viewIndex);
      if !o.opens {
        fd := H.Broken;
        return H.ERROR;
      }
      files := files[name := H.Staging(if name in files then files[name].attrs else map[], map[])];
      fd := H.StagingFile(name);
      code := if o.viewSet then H.SUCCESS else H.ERROR;
    }

    /** The arguments are checked, and a view that is active is flushed. */
    method BeginSetView(datarep: string, sequential: bool, v: H.SavedView, o: H.Outcome) returns (code: H.Code)
      requires H.Shaped(Model())
      modifies this
      ensures (Model(), code) == H.BeginSetView(session, old(Model()), datarep, sequential, v, o)
    {
      if datarep != "native" && datarep != "NATIVE" {
        return H.ERR_UNSUPPORTED_DATAREP;
      }
      if v.disp == H.DISPLACEMENT_CURRENT && !sequential {
        return H.ERR_DISP;
      }
      code := Flush(o);
    }

    /** Back to the destination for the trivial view, on to a new staging file otherwise. */
    method FinishSetView(v: H.SavedView, o: H.Outcome) returns (code: H.Code)
      modifies this
      ensures (Model(), code) == H.FinishSetView(session, old(Model()), v, o)
    {
      code := if o.viewSet then H.SUCCESS else H.ERROR;
      if H.IsTrivial(v.disp, v.etype, v.filetype) {
        if state == H.ACTIVE {
          fd := if o.opens then H.Destination else H.Broken;
        }
        if state != H.FALLBACK {
          state := H.DEFAULT;
        }
      } else if state != H.FALLBACK {
        code := Activate(v, o);
      }
    }

    method SetView(datarep: string, sequential: bool, v: H.SavedView, o: H.Outcome) returns (code: H.Code)
      requires H.Shaped(Model())
      modifies this
      ensures (Model(), code) == H.SetView(session, old(Model()), datarep, sequential, v, o)
      ensures var call := H.SetViewCall(datarep, sequential, v, o);
              old(Valid() && !closed) && H.GoodView(v) && H.Smooth(session, old(Model()), call) ==> Valid()
      ensures old(Valid() && !closed && state != H.FALLBACK) && o.opens && code == H.SUCCESS ==>
                if v.disp == 0 && v.etype.isByte && v.filetype.isByte then H.Direct(Model()) && viewIndex == old(viewIndex)
                else H.FreshView(session, Model(), v) && viewIndex == old(viewIndex) + 1
    {
      ghost var before := Model();
      code := BeginSetView(datarep, sequential, v, o);
      if code == H.SUCCESS {
        code := FinishSetView(v, o);
      }
      if H.Inv(session, before) && !before.closed {
        if H.GoodView(v) && H.Smooth(session, before, H.SetViewCall(datarep, sequential, v, o)) {
          H.InvStep(session, before, H.SetViewCall(datarep, sequential, v, o));
        }
        if before.state != H.FALLBACK && o.opens && code == H.SUCCESS {
          H.SuccessfulSetView(session, before, datarep, sequential, v, o);
        }
      }
    }

    method SetAtomicity(flag: bool, agreed: bool, supported: bool) returns (code: H.Code)
      modifies `state, `atomicity
      ensures (Model(), code) == H.SetAtomicity(old(Model()), flag, agreed, supported)
      ensures old(Valid() && !closed) ==> Valid()
      ensures old(H.AtomicIsFallback(Model())) ==> H.AtomicIsFallback(Model())
      ensures code == H.SUCCESS <==> old(state) != H.ACTIVE && agreed && (flag ==> supported)
      ensures atomicity == if code == H.SUCCESS then flag else old(atomicity)
      ensures code == H.ERROR ==> Model() == old(Model())
    {
      ghost var before := Model();
      if H.Inv(session, before) && !closed {
        H.AtomicityKeeps(session, before, flag, agreed, supported, {});
      }
      if state == H.ACTIVE {
        return H.ERROR;
      }
      if !agreed {
        return H.ERROR;
      }
      code := H.SUCCESS;
      if flag {
        if supported {
          atomicity := flag;
        } else {
          code := H.ERR_IO;
        }
        state := H.FALLBACK;
      } else {
        atomicity := flag;
      }
    }

    /** The write through the staging view, to the file the descriptor names. */
    method Stage(w: Write)
      requires H.Shaped(Model())
      modifies `files, `sections
      ensures Model() == H.WriteStaged(old(Model()), w)
    {
      if state == H.ACTIVE && saved.Some? && fd.StagingFile? && fd.name in files {
        var size := saved.value.etype.size;
        StagingViewIsLinear(size, 0);
        var f := files[fd.name];
        files := files[fd.name := f.(data := WriteView(f.data, StagingView(size), w.offset * size, w.data))];
        ghost var n := |sections| - 1;
        sections := sections[n := sections[n].(writes := sections[n].writes + [w])];
      }
    }

    method Write(w: Write)
      requires H.Shaped(Model())
      modifies `files, `sections
      ensures Model() == H.WriteStaged(old(Model()), w)
      ensures old(Valid() && state == H.ACTIVE && !closed) ==> H.Recorded(session, old(Model()), w, Model())
      ensures old(state) != H.ACTIVE ==> Model() == old(Model())
    {
      ghost var before := Model();
      Stage(w);
      if H.Inv(session, before) && before.state == H.ACTIVE && !before.closed {
        H.WriteIsRecorded(session, before, w);
      }
    }

    method Close(o: H.Outcome) returns (code: H.Code)
      requires H.Shaped(Model())
      modifies this
      ensures (Model(), code) == H.Close(session, old(Model()), o)
      ensures old(Valid() && !closed) ==> Valid() && (code == H.SUCCESS ==> H.Delivered(session, Model()))
      ensures closed <==> old(closed) || code == H.SUCCESS
      ensures old(Valid() && !closed && state != H.ACTIVE) ==> code == H.SUCCESS && Model() == old(Model()).(closed := true)
    {
      ghost var before := Model();
      if H.Inv(session, before) && !closed {
        H.CloseKeeps(session, before, o, {});
        var after := H.Close(session, before, o).0;
        if after.closed {
          H.ClosedIsDelivered(session, after);
        }
      }
      if viewIndex > 0 {
        code := Flush(o);
        if code != H.SUCCESS {
          return;
        }
      }
      closed := true;
      code := H.SUCCESS;
    }
  }
}
