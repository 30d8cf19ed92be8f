/** The loops of both modification scripts over a directory listing: every
    ".TextGrid" name is opened, its tiers rewritten, and the result saved
    under the same name; an exception ends the script, so the first file
    whose calls raise ends the run and no later name is opened. */
module FileLoop {
  import opened TextGridModel

  /** The names of a listing that pass the loop's extension test `keep`, in
      listing order. */
  function Listed(filenames: seq<string>, keep: string -> bool): seq<string>
  {
    if filenames == [] then []
    else
      var f := filenames[|filenames| - 1];
      Listed(filenames[..|filenames| - 1], keep) + (if keep(f) then [f] else [])
  }

  /** The loop visits exactly the listed names that pass the test. */
  lemma {:induction false} ListedMembers(filenames: seq<string>, keep: string -> bool)
    ensures |Listed(filenames, keep)| <= |filenames|
    ensures forall f :: f in Listed(filenames, keep) <==> f in filenames && keep(f)
  {
    if filenames != [] {
      var init := filenames[..|filenames| - 1];
      ListedMembers(init, keep);
      assert filenames == init + [filenames[|filenames| - 1]];
    }
  }

  /** The filter keeps listing order: filtering two listings one after the
      other gives the filtered first followed by the filtered second. */
  lemma {:induction false} ListedAppend(a: seq<string>, b: seq<string>, keep: string -> bool)
    ensures Listed(a + b, keep) == Listed(a, keep) + Listed(b, keep)
    decreases |b|
  {
    if b == [] {
      assert a + b == a;
    } else {
      assert (a + b)[..|a + b| - 1] == a + b[..|b| - 1];
      ListedAppend(a, b[..|b| - 1], keep);
    }
  }

  /** Reference definition of a loop that opens each of `files`, rewrites its
      tiers with `layout` and saves it under the same name. The first file
      whose calls raise ends the run, unsaved. The result is the saves and
      whether the loop ran to its end. */
  function RunFiles(files: seq<string>, open: string -> Opened, layout: Opened -> Result<seq<Tier>>): (seq<SavedGrid>, bool)
  {
    if files == [] then ([], true)
    else
      var before := RunFiles(files[..|files| - 1], open, layout);
      var f := files[|files| - 1];
      if !before.1 then before
      else
        match layout(open(f))
        case Err(_) => (before.0, false)
        case Ok(ts) => (before.0 + [SavedGrid(f, ts)], true)
  }

  /** The run saves the files in order, each under its own name with its
      rewritten tiers, up to the first file whose calls raise; it ends early
      exactly when such a file exists, and then that file is the next one. */
  lemma {:induction false} RunFilesStopsAtFirstError(files: seq<string>, open: string -> Opened, layout: Opened -> Result<seq<Tier>>)
    ensures var r := RunFiles(files, open, layout);
      |r.0| <= |files| &&
      (forall j :: 0 <= j < |r.0| ==>
        layout(open(files[j])).Ok? && r.0[j] == SavedGrid(files[j], layout(open(files[j])).value)) &&
      (r.1 <==> |r.0| == |files|) &&
      (!r.1 ==> layout(open(files[|r.0|])).Err?)
    ensures (forall j :: 0 <= j < |files| ==> layout(open(files[j])).Ok?) <==> RunFiles(files, open, layout).1
  {
    if files != [] {
      var init := files[..|files| - 1];
      RunFilesStopsAtFirstError(init, open, layout);
      assert forall j :: 0 <= j < |init| ==> init[j] == files[j];
    }
  }

  /** What one more file does to the run. */
  lemma RunFilesStep(files: seq<string>, f: string, open: string -> Opened, layout: Opened -> Result<seq<Tier>>)
    ensures var before := RunFiles(files, open, layout);
      RunFiles(files + [f], open, layout) ==
        if !before.1 then before
        else if layout(open(f)).Err? then (before.0, false)
        else (before.0 + [SavedGrid(f, layout(open(f)).value)], true)
  {
    assert (files + [f])[..|files|] == files;
  }

  /** Once a file has raised, no later file is opened. */
  lemma {:induction false} RunFilesFailedStays(a: seq<string>, b: seq<string>, open: string -> Opened, layout: Opened -> Result<seq<Tier>>)
    requires !RunFiles(a, open, layout).1
    ensures RunFiles(a + b, open, layout) == RunFiles(a, open, layout)
    decreases |b|
  {
    if b == [] {
      assert a + b == a;
    } else {
      assert (a + b)[..|a + b| - 1] == a + b[..|b| - 1];
      RunFilesFailedStays(a, b[..|b| - 1], open, layout);
    }
  }

  /** What one more name of the listing does to the run. */
  lemma ListingStep(filenames: seq<string>, i: nat, keep: string -> bool, open: string -> Opened, layout: Opened -> Result<seq<Tier>>)
    requires i < |filenames|
    ensures var before := RunFiles(Listed(filenames[..i], keep), open, layout);
      var f := filenames[i];
      RunFiles(Listed(filenames[..i + 1], keep), open, layout) ==
        if !keep(f) || !before.1 then before
        else if layout(open(f)).Err? then (before.0, false)
        else (before.0 + [SavedGrid(f, layout(open(f)).value)], true)
  {
    var done := Listed(filenames[..i], keep);
    assert filenames[..i + 1][..i] == filenames[..i];
    if keep(filenames[i]) {
      RunFilesStep(done, filenames[i], open, layout);
    } else {
      assert done + [] == done;
    }
  }

  /** Once a file of the listing has raised, the run is over: the names after
      it change nothing. */
  lemma ListingAborts(filenames: seq<string>, i: nat, keep: string -> bool, open: string -> Opened, layout: Opened -> Result<seq<Tier>>)
    requires i < |filenames|
    requires !RunFiles(Listed(filenames[..i + 1], keep), open, layout).1
    ensures RunFiles(Listed(filenames, keep), open, layout) == RunFiles(Listed(filenames[..i + 1], keep), open, layout)
  {
    ListedSplit(filenames, i + 1, keep);
    RunFilesFailedStays(Listed(filenames[..i + 1], keep), Listed(filenames[i + 1..], keep), open, layout);
  }

  lemma ListedSplit(filenames: seq<string>, n: nat, keep: string -> bool)
    requires n <= |filenames|
    ensures Listed(filenames, keep) == Listed(filenames[..n], keep) + Listed(filenames[n..], keep)
  {
    var a, b := filenames[..n], filenames[n..];
    calc {
      Listed(filenames, keep);
      { assert a + b == filenames; }
      Listed(a + b, keep);
      { ListedAppend(a, b, keep); }
      Listed(a, keep) + Listed(b, keep);
    }
  }
}
