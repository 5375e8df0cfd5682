/**
 * The name of a staging file: the destination's name, the rank and the view
 * number under the staging directory, with slashes after the first character
 * of the destination's name turned into dashes.
 */
module StagingName {
  import opened Attributes
  import opened Paths

  /** What snprintf is asked to print. */
  function Text(tmpDir: string, filename: string, rank: nat, index: nat): string {
    tmpDir + "/" + filename + "-" + Decimal(rank) + "-" + Decimal(index)
  }

  predicate FitsPath(tmpDir: string, filename: string, rank: nat, index: nat) {
    |Text(tmpDir, filename, rank, index)| < PATH_MAX
  }

  function Dash(c: char): char {
    if c == '/' then '-' else c
  }

  /** s with the slashes from place k on turned into dashes. */
  function Dashed(s: string, k: nat): (r: string)
    ensures |r| == |s|
    ensures forall i :: 0 <= i < |s| ==> r[i] == if k <= i then Dash(s[i]) else s[i]
  {
    seq(|s|, i requires 0 <= i < |s| => if k <= i then Dash(s[i]) else s[i])
  }

  function Name(tmpDir: string, filename: string, rank: nat, index: nat): string {
    Dashed(CutPath(Text(tmpDir, filename, rank, index)), |tmpDir| + 2)
  }

  /** snprintf into the buffer, then the loop that rewrites it in place. */
  method BuildName(tmpDir: string, filename: string, rank: nat, index: nat) returns (name: string)
    ensures name == Name(tmpDir, filename, rank, index)
  {
    var text := CutPath(Text(tmpDir, filename, rank, index));
    var local := new char[|text|](i requires 0 <= i < |text| => text[i]);
    var i := |tmpDir| + 2;
    while i < local.Length
      invariant |tmpDir| + 2 <= i
      invariant forall k :: 0 <= k < local.Length ==>
                  local[k] == if |tmpDir| + 2 <= k < i then Dash(text[k]) else text[k]
    {
      if local[i] == '/' {
        local[i] := '-';
      }
      i := i + 1;
    }
    name := local[..];
    assert name == Dashed(text, |tmpDir| + 2);
  }

  /** Every letter of a name, also of one that is cut: the text's, or a dash for a slash from the file name's second letter on. */
  lemma NameExactly(tmpDir: string, filename: string, rank: nat, index: nat)
    ensures var text, name := tmpDir + "/" + filename + "-" + Decimal(rank) + "-" + Decimal(index),
                              Name(tmpDir, filename, rank, index);
            && |name| == (if |text| < 4096 then |text| else 4095)
            && forall i :: 0 <= i < |name| ==>
                 name[i] == if |tmpDir| + 2 <= i && text[i] == '/' then '-' else text[i]
  {
  }

  /** A name that fits is the dashed file name and the two numbers, dash by dash. */
  lemma NameParts(tmpDir: string, filename: string, rank: nat, index: nat)
    requires FitsPath(tmpDir, filename, rank, index)
    ensures Name(tmpDir, filename, rank, index)
         == tmpDir + "/" + Dashed(filename, 1) + "-" + Decimal(rank) + "-" + Decimal(index)
  {
    var n, t := Name(tmpDir, filename, rank, index), Text(tmpDir, filename, rank, index);
    var u := tmpDir + "/" + Dashed(filename, 1) + "-" + Decimal(rank) + "-" + Decimal(index);
    assert |n| == |u| == |t|;
    forall i | 0 <= i < |t|
      ensures n[i] == u[i]
    {
      var j := |tmpDir| + 1;
      if i < j {
      } else if i < j + |filename| {
        assert t[i] == filename[i - j] && u[i] == Dashed(filename, 1)[i - j];
      } else {
        assert t[i] == u[i];
        TailHasNoSlash(rank, index);
        assert t[i] == ("-" + Decimal(rank) + "-" + Decimal(index))[i - j - |filename|];
      }
    }
  }

  lemma TailHasNoSlash(rank: nat, index: nat)
    ensures forall i :: 0 <= i < |"-" + Decimal(rank) + "-" + Decimal(index)| ==>
              ("-" + Decimal(rank) + "-" + Decimal(index))[i] != '/'
  {
  }

  lemma LastDashAt(s: string, x: string, d: string)
    requires s == x + "-" + d && forall i :: 0 <= i < |d| ==> d[i] != '-'
    ensures |x| < |s| && s[|x|] == '-' && forall i :: |x| < i < |s| ==> s[i] != '-'
    ensures s[..|x|] == x && s[|x| + 1..] == d
  {
    assert forall i :: |x| < i < |s| ==> s[i] == d[i - |x| - 1];
  }

  /** A text can be taken apart at its last dash in one way only. */
  lemma LastDash(x: string, d: string, y: string, e: string)
    requires x + "-" + d == y + "-" + e
    requires forall i :: 0 <= i < |d| ==> d[i] != '-'
    requires forall i :: 0 <= i < |e| ==> e[i] != '-'
    ensures x == y && d == e
  {
    LastDashAt(x + "-" + d, x, d);
    LastDashAt(x + "-" + d, y, e);
  }

  /** Two staging names are the same exactly when dashed file name, rank and view number are. */
  lemma NamesCollideExactly(tmpDir: string, f: string, rank: nat, index: nat, g: string, rank': nat, index': nat)
    requires FitsPath(tmpDir, f, rank, index) && FitsPath(tmpDir, g, rank', index')
    ensures Name(tmpDir, f, rank, index) == Name(tmpDir, g, rank', index') <==>
            Dashed(f, 1) == Dashed(g, 1) && rank == rank' && index == index'
  {
    NameParts(tmpDir, f, rank, index);
    NameParts(tmpDir, g, rank', index');
    if Name(tmpDir, f, rank, index) == Name(tmpDir, g, rank', index') {
      var a, b := tmpDir + "/" + Dashed(f, 1), tmpDir + "/" + Dashed(g, 1);
      LastDash(a + "-" + Decimal(rank), Decimal(index), b + "-" + Decimal(rank'), Decimal(index'));
      LastDash(a, Decimal(rank), b, Decimal(rank'));
      assert a[|tmpDir| + 1..] == Dashed(f, 1) && b[|tmpDir| + 1..] == Dashed(g, 1);
      DecimalRoundTrip(rank);
      DecimalRoundTrip(rank');
      DecimalRoundTrip(index);
      DecimalRoundTrip(index');
    }
  }

  /** Two files whose names differ only in a slash share their staging names. */
  lemma SlashesCollide()
    ensures Dashed("a/b", 1) == Dashed("a-b", 1)
    ensures Name("/tmp", "a/b", 0, 1) == Name("/tmp", "a-b", 0, 1)
  {
    var s, t := Dashed("a/b", 1), Dashed("a-b", 1);
    assert s[0] == t[0] && s[1] == t[1] && s[2] == t[2];
    NamesCollideExactly("/tmp", "a/b", 0, 1, "a-b", 0, 1);
  }

  /** The name is one file right under the staging directory: no slash after the first character of the file name. */
  lemma NameIsOneComponent(tmpDir: string, filename: string, rank: nat, index: nat)
    requires |tmpDir| + 2 <= PATH_MAX - 1
    ensures var n := Name(tmpDir, filename, rank, index);
            && |tmpDir| + 2 <= |n| < PATH_MAX && n[..|tmpDir| + 1] == tmpDir + "/"
            && forall i :: |tmpDir| + 2 <= i < |n| ==> n[i] != '/'
  {
    var text := Text(tmpDir, filename, rank, index);
    assert text[..|tmpDir| + 1] == tmpDir + "/";
    assert CutPath(text)[..|tmpDir| + 1] == tmpDir + "/";
  }
}
