/** Phase 1 of TextGrid_script.py: for every ".wav" file, a TextGrid with a
    single "realization" interval tier spanning the audio duration; the CSV
    rows are grouped by (audio_filename, participant), and for each group of
    this audio file every row inserts (0, duration, realization) into the
    tier, after which the TextGrid is saved as "<name>.TextGrid". The tier
    object is shared by all groups of the file, so each save holds the
    entries of all groups handled so far. */
module ScriptGenerate {
  import opened TextGridModel
  import opened Grouping
  import Paths

  /** A row of realization.csv (columns audio_filename, participant,
      duration and realization, as text). */
  datatype RealizationRow = RealizationRow(audioFilename: string, participant: string, duration: string, realization: string)

  function RowKey(row: RealizationRow): (string, string)
  {
    (row.audioFilename, row.participant)
  }

  /** The entry a row inserts; `parse` stands for Python's `float` on the
      duration after its decimal comma is replaced. */
  function InsertedEntry(row: RealizationRow, parse: string -> real): (e: Interval)
    ensures e.start == 0.0 && e.text == row.realization
    ensures e.stop == parse(Paths.ReplaceCommas(row.duration))
  {
    Interval(0.0, parse(Paths.ReplaceCommas(row.duration)), row.realization)
  }

  /** The entries inserted for `rows`, in order. */
  function Inserted(rows: seq<RealizationRow>, parse: string -> real): (r: seq<Interval>)
    ensures |r| == |rows|
    ensures forall i :: 0 <= i < |rows| ==> r[i] == InsertedEntry(rows[i], parse)
  {
    if rows == [] then [] else Inserted(rows[..|rows| - 1], parse) + [InsertedEntry(rows[|rows| - 1], parse)]
  }

  /** The group keys that belong to the audio file `filename`, in order. */
  function ForAudio(ks: seq<(string, string)>, filename: string): seq<(string, string)>
  {
    if ks == [] then []
    else ForAudio(ks[..|ks| - 1], filename) + (if ks[|ks| - 1].0 == filename then [ks[|ks| - 1]] else [])
  }

  /** A group is visited exactly when its audio_filename is the file's name,
      and distinct keys stay distinct. */
  lemma {:induction false} ForAudioMembers(ks: seq<(string, string)>, filename: string)
    ensures forall k :: k in ForAudio(ks, filename) <==> k in ks && k.0 == filename
    ensures Distinct(ks) ==> Distinct(ForAudio(ks, filename))
  {
    if ks != [] {
      var init := ks[..|ks| - 1];
      ForAudioMembers(init, filename);
      assert ks == init + [ks[|ks| - 1]];
      if Distinct(ks) {
        assert Distinct(init) by {
          forall i, j | 0 <= i < j < |init| ensures init[i] != init[j] {
            assert init[i] == ks[i] && init[j] == ks[j];
          }
        }
      }
    }
  }

  /** The TextGrid as saved after inserting the entries of `rows`. */
  function Snapshot(filename: string, duration: real, rows: seq<RealizationRow>, parse: string -> real): SavedGrid
  {
    SavedGrid(Paths.TextGridName(Paths.Stem(filename)), [IntervalTier("realization", 0.0, duration, Inserted(rows, parse))])
  }

  /** The saves made while visiting the group keys `ks` in order. */
  function SavesFor(data: seq<RealizationRow>, filename: string, duration: real, parse: string -> real, ks: seq<(string, string)>): seq<SavedGrid>
  {
    if ks == [] then []
    else
      var init := ks[..|ks| - 1];
      SavesFor(data, filename, duration, parse, init) +
        (if ks[|ks| - 1].0 == filename
         then [Snapshot(filename, duration, Gather(ForAudio(ks, filename), data, RowKey), parse)]
         else [])
  }

  /** Section 1.5 of the script for one audio file of duration `duration`. */
  method GenerateFor(data: seq<RealizationRow>, filename: string, duration: real, parse: string -> real)
    returns (saves: seq<SavedGrid>)
    ensures saves == SavesFor(data, filename, duration, parse, Keys(data, RowKey))
  {
    var name := Paths.Stem(filename);
    var entries: seq<Interval> := [];
    var keys, groups := GroupBy(data, RowKey);
    saves := [];
    for g := 0 to |keys|
      invariant entries == Inserted(Gather(ForAudio(keys[..g], filename), data, RowKey), parse)
      invariant saves == SavesFor(data, filename, duration, parse, keys[..g])
    {
      GroupStep(data, filename, duration, parse, keys, g);
      var (audioFilename, participant) := keys[g];
      if audioFilename != filename {
        continue;
      }
      entries := InsertRows(entries, groups[keys[g]], parse);
      saves := saves + [SavedGrid(Paths.TextGridName(name), [IntervalTier("realization", 0.0, duration, entries)])];
    }
    assert keys[..|keys|] == keys;
  }

  /** `realization_tier.insertEntry(...)` for each row of one group, in order. */
  method InsertRows(entries: seq<Interval>, rows: seq<RealizationRow>, parse: string -> real) returns (r: seq<Interval>)
    ensures r == entries + Inserted(rows, parse)
  {
    r := entries;
    for j := 0 to |rows|
      invariant r == entries + Inserted(rows[..j], parse)
    {
      assert rows[..j + 1][..j] == rows[..j];
      var row := rows[j];
      r := r + [Interval(0.0, parse(Paths.ReplaceCommas(row.duration)), row.realization)];
    }
    assert rows[..|rows|] == rows;
  }

  /** What visiting one more group key does to the entries and the saves. */
  lemma GroupStep(data: seq<RealizationRow>, filename: string, duration: real, parse: string -> real, keys: seq<(string, string)>, g: nat)
    requires g < |keys|
    ensures keys[g].0 != filename ==>
      ForAudio(keys[..g + 1], filename) == ForAudio(keys[..g], filename) &&
      SavesFor(data, filename, duration, parse, keys[..g + 1]) == SavesFor(data, filename, duration, parse, keys[..g])
    ensures keys[g].0 == filename ==>
      var done := Gather(ForAudio(keys[..g + 1], filename), data, RowKey);
      Inserted(done, parse) ==
        Inserted(Gather(ForAudio(keys[..g], filename), data, RowKey), parse) + Inserted(Select(data, RowKey, keys[g]), parse) &&
      SavesFor(data, filename, duration, parse, keys[..g + 1]) ==
        SavesFor(data, filename, duration, parse, keys[..g]) + [Snapshot(filename, duration, done, parse)]
  {
    assert keys[..g + 1][..g] == keys[..g];
    if keys[g].0 == filename {
      var fa := ForAudio(keys[..g], filename);
      assert ForAudio(keys[..g + 1], filename) == fa + [keys[g]];
      assert (fa + [keys[g]])[..|fa|] == fa;
      InsertedAppend(Gather(fa, data, RowKey), Select(data, RowKey, keys[g]), parse);
    }
  }

  lemma {:induction false} InsertedAppend(a: seq<RealizationRow>, b: seq<RealizationRow>, parse: string -> real)
    ensures Inserted(a + b, parse) == Inserted(a, parse) + Inserted(b, parse)
    decreases |b|
  {
    if b == [] {
      assert a + b == a;
    } else {
      assert (a + b)[..|a + b| - 1] == a + b[..|b| - 1];
      InsertedAppend(a, b[..|b| - 1], parse);
    }
  }

  /** The rows of the audio file `filename`, in file order. */
  function AudioRows(data: seq<RealizationRow>, filename: string): (r: seq<RealizationRow>)
    ensures forall row :: row in r <==> row in data && row.audioFilename == filename
  {
    if data == [] then []
    else
      var last := data[|data| - 1];
      AudioRows(data[..|data| - 1], filename) + (if last.audioFilename == filename then [last] else [])
  }

  /** The whole generation phase: every ".wav" name in `filenames`, in order;
      `durationOf` stands for the ffmpeg probe of each file. */
  function AllSaves(data: seq<RealizationRow>, filenames: seq<string>, durationOf: string -> real, parse: string -> real): seq<SavedGrid>
  {
    if filenames == [] then []
    else
      var f := filenames[|filenames| - 1];
      AllSaves(data, filenames[..|filenames| - 1], durationOf, parse) +
        (if Paths.IsWav(f) then SavesFor(data, f, durationOf(f), parse, Keys(data, RowKey)) else [])
  }

  /** Section 1.5 of the script: the loop over the audio directory. */
  method GenerateAll(data: seq<RealizationRow>, filenames: seq<string>, durationOf: string -> real, parse: string -> real)
    returns (saves: seq<SavedGrid>)
    ensures saves == AllSaves(data, filenames, durationOf, parse)
  {
    saves := [];
    for i := 0 to |filenames|
      invariant saves == AllSaves(data, filenames[..i], durationOf, parse)
    {
      assert filenames[..i + 1][..i] == filenames[..i];
      var filename := filenames[i];
      if !Paths.IsWav(filename) {
        continue;
      }
      var fileSaves := GenerateFor(data, filename, durationOf(filename), parse);
      saves := saves + fileSaves;
    }
    assert filenames[..|filenames|] == filenames;
  }

  /** One save per group of the audio file, each under "<name>.TextGrid" and
      holding the single "realization" tier spanning [0, duration]. */
  lemma {:induction false} SavesShape(data: seq<RealizationRow>, filename: string, duration: real, parse: string -> real, ks: seq<(string, string)>)
    ensures var saves := SavesFor(data, filename, duration, parse, ks);
      |saves| == |ForAudio(ks, filename)| &&
      forall s :: s in saves ==>
        s.fileName == Paths.TextGridName(Paths.Stem(filename)) && |s.tiers| == 1 &&
        s.tiers[0].IntervalTier? && s.tiers[0].name == "realization" &&
        s.tiers[0].minT == 0.0 && s.tiers[0].maxT == duration
  {
    if ks != [] {
      SavesShape(data, filename, duration, parse, ks[..|ks| - 1]);
    }
  }

  /** The last save holds one entry per row of the file's groups visited so far. */
  lemma {:induction false} LastSave(data: seq<RealizationRow>, filename: string, duration: real, parse: string -> real, ks: seq<(string, string)>)
    requires SavesFor(data, filename, duration, parse, ks) != []
    ensures var saves := SavesFor(data, filename, duration, parse, ks);
      saves[|saves| - 1] == Snapshot(filename, duration, Gather(ForAudio(ks, filename), data, RowKey), parse)
  {
    var init := ks[..|ks| - 1];
    if ks[|ks| - 1].0 != filename {
      var before := SavesFor(data, filename, duration, parse, init);
      assert SavesFor(data, filename, duration, parse, ks) == before + [] == before;
      assert ForAudio(ks, filename) == ForAudio(init, filename) + [] == ForAudio(init, filename);
      LastSave(data, filename, duration, parse, init);
      assert before[|before| - 1] == Snapshot(filename, duration, Gather(ForAudio(init, filename), data, RowKey), parse);
    } else {
      var after := SavesFor(data, filename, duration, parse, ks);
      var last := Snapshot(filename, duration, Gather(ForAudio(ks, filename), data, RowKey), parse);
      assert after == SavesFor(data, filename, duration, parse, init) + [last];
      assert after[|after| - 1] == last;
    }
  }

  /** The groups of an audio file's keys gather exactly that file's rows. */
  lemma {:induction false} KeysOfAudio(data: seq<RealizationRow>, filename: string, ks: seq<(string, string)>)
    requires forall i :: 0 <= i < |data| ==> RowKey(data[i]) in ks
    ensures WithKeyIn(data, RowKey, ForAudio(ks, filename)) == AudioRows(data, filename)
  {
    if data != [] {
      KeysOfAudio(data[..|data| - 1], filename, ks);
      ForAudioMembers(ks, filename);
    }
  }

  /** A TextGrid is saved for an audio file exactly when some row names that
      file, once per (file, participant) group. */
  lemma SavedIffRows(data: seq<RealizationRow>, filename: string, duration: real, parse: string -> real)
    ensures var saves := SavesFor(data, filename, duration, parse, Keys(data, RowKey));
      |saves| == |ForAudio(Keys(data, RowKey), filename)| &&
      (saves != [] <==> exists i :: 0 <= i < |data| && data[i].audioFilename == filename)
  {
    var ks := Keys(data, RowKey);
    SavesShape(data, filename, duration, parse, ks);
    ForAudioMembers(ks, filename);
    if exists i :: 0 <= i < |data| && data[i].audioFilename == filename {
      var i :| 0 <= i < |data| && data[i].audioFilename == filename;
      assert RowKey(data[i]) in ForAudio(ks, filename);
    }
    if ForAudio(ks, filename) != [] {
      var k := ForAudio(ks, filename)[0];
      assert k in ks;
      var i :| 0 <= i < |data| && RowKey(data[i]) == k;
      assert data[i].audioFilename == filename;
    }
  }

  /** The last save of an audio file holds one entry (0, duration,
      realization) per row of that file, each row exactly once. */
  lemma LastSaveHoldsFileRows(data: seq<RealizationRow>, filename: string, duration: real, parse: string -> real)
    requires SavesFor(data, filename, duration, parse, Keys(data, RowKey)) != []
    ensures var saves := SavesFor(data, filename, duration, parse, Keys(data, RowKey));
      var visited := Gather(ForAudio(Keys(data, RowKey), filename), data, RowKey);
      saves[|saves| - 1] == Snapshot(filename, duration, visited, parse) &&
      multiset(visited) == multiset(AudioRows(data, filename))
  {
    var ks := Keys(data, RowKey);
    var saves := SavesFor(data, filename, duration, parse, ks);
    var fa := ForAudio(ks, filename);
    assert saves[|saves| - 1] == Snapshot(filename, duration, Gather(fa, data, RowKey), parse) by {
      LastSave(data, filename, duration, parse, ks);
    }
    assert multiset(Gather(fa, data, RowKey)) == multiset(AudioRows(data, filename)) by {
      ForAudioMembers(ks, filename);
      GatherIsPermutation(fa, data, RowKey);
      forall i | 0 <= i < |data| ensures RowKey(data[i]) in ks {
      }
      KeysOfAudio(data, filename, ks);
    }
  }

  /** Every file written is "<name>.TextGrid" for a ".wav" file "<name>.wav"
      of the directory, a name the modification phase accepts. */
  lemma {:induction false} SavedNames(data: seq<RealizationRow>, filenames: seq<string>, durationOf: string -> real, parse: string -> real)
    ensures forall s :: s in AllSaves(data, filenames, durationOf, parse) ==>
      Paths.IsTextGrid(s.fileName) &&
      exists f :: f in filenames && Paths.IsWav(f) && s.fileName == Paths.TextGridName(Paths.Stem(f))
  {
    if filenames != [] {
      var init := filenames[..|filenames| - 1];
      var f := filenames[|filenames| - 1];
      SavedNames(data, init, durationOf, parse);
      if Paths.IsWav(f) {
        SavesShape(data, f, durationOf(f), parse, Keys(data, RowKey));
        Paths.GeneratedNameIsTextGrid(f);
      }
      forall s | s in AllSaves(data, filenames, durationOf, parse)
        ensures Paths.IsTextGrid(s.fileName) &&
          exists g :: g in filenames && Paths.IsWav(g) && s.fileName == Paths.TextGridName(Paths.Stem(g))
      {
        if s in AllSaves(data, init, durationOf, parse) {
          var g :| g in init && Paths.IsWav(g) && s.fileName == Paths.TextGridName(Paths.Stem(g));
          assert g in filenames;
        } else {
          assert f in filenames;
        }
      }
    }
  }
}
