/** CSVtoTextGrid.py: one TextGrid per participant, holding a single
    "response" interval tier with one `add(start_time, end_time, response)`
    per row of that participant, written to "<participant>.TextGrid". */
module CsvToTextGrid {
  import opened TextGridModel
  import opened Grouping
  import Paths

  /** A row of the response CSV, its time columns already read as numbers. */
  datatype ResponseRow = ResponseRow(participant: string, startTime: real, endTime: real, response: string)

  /** A tier of the `textgrid` package: its name and the `add` calls it received, in order. */
  datatype AddedTier = AddedTier(name: string, adds: seq<Interval>)

  /** One file the script writes: its name and the tiers appended to its TextGrid. */
  datatype Written = Written(fileName: string, tiers: seq<AddedTier>)

  function Participant(row: ResponseRow): string { row.participant }

  function ResponseInterval(row: ResponseRow): Interval
  {
    Interval(row.startTime, row.endTime, row.response)
  }

  function ResponseIntervals(rows: seq<ResponseRow>): (r: seq<Interval>)
    ensures |r| == |rows|
    ensures forall i :: 0 <= i < |rows| ==> r[i] == ResponseInterval(rows[i])
  {
    if rows == [] then [] else [ResponseInterval(rows[0])] + ResponseIntervals(rows[1..])
  }

  /** The file written for participant `p`. */
  function FileFor(data: seq<ResponseRow>, p: string): Written
  {
    Written(Paths.TextGridName(p), [AddedTier("response", ResponseIntervals(Select(data, Participant, p)))])
  }

  /** The files written for the participants `ps`, in that order. */
  function FilesFor(data: seq<ResponseRow>, ps: seq<string>): (r: seq<Written>)
    ensures |r| == |ps|
    ensures forall i :: 0 <= i < |ps| ==> r[i] == FileFor(data, ps[i])
  {
    if ps == [] then [] else FilesFor(data, ps[..|ps| - 1]) + [FileFor(data, ps[|ps| - 1])]
  }

  /** Every interval added to any tier of any file, file by file. */
  function AllAdds(files: seq<Written>): seq<Interval>
  {
    if files == [] then [] else AllAdds(files[..|files| - 1]) + TierAdds(files[|files| - 1].tiers)
  }

  function TierAdds(tiers: seq<AddedTier>): seq<Interval>
  {
    if tiers == [] then [] else tiers[0].adds + TierAdds(tiers[1..])
  }

  /** The whole script after reading the CSV. */
  method ConvertAll(data: seq<ResponseRow>) returns (files: seq<Written>)
    ensures files == FilesFor(data, Keys(data, Participant))
  {
    var participants, groups := GroupBy(data, Participant);
    files := [];
    for p := 0 to |participants|
      invariant files == FilesFor(data, participants[..p])
    {
      var participant := participants[p];
      assert participant in groups && groups[participant] == Select(data, Participant, participant);
      var responseTier := ResponseTier(groups[participant]);
      var tg := [responseTier];
      files := files + [Written(Paths.TextGridName(participant), tg)];
      FilesForStep(data, participants, p);
    }
    assert participants[..|participants|] == participants;
  }

  lemma FilesForStep(data: seq<ResponseRow>, ps: seq<string>, p: nat)
    requires p < |ps|
    ensures FilesFor(data, ps[..p + 1]) == FilesFor(data, ps[..p]) + [FileFor(data, ps[p])]
  {
    assert ps[..p + 1][..p] == ps[..p];
  }

  /** `respons_tier.add(start_time, end_time, label)` for each row, in order. */
  method ResponseTier(rows: seq<ResponseRow>) returns (responseTier: AddedTier)
    ensures responseTier == AddedTier("response", ResponseIntervals(rows))
  {
    responseTier := AddedTier("response", []);
    for j := 0 to |rows|
      invariant responseTier.name == "response"
      invariant |responseTier.adds| == j
      invariant forall k :: 0 <= k < j ==> responseTier.adds[k] == ResponseInterval(rows[k])
    {
      var row := rows[j];
      responseTier := responseTier.(adds := responseTier.adds + [Interval(row.startTime, row.endTime, row.response)]);
    }
  }

  /** Exactly one file per distinct participant, under pairwise different
      names, each with the single tier "response". */
  lemma OneFilePerParticipant(data: seq<ResponseRow>)
    ensures var files := FilesFor(data, Keys(data, Participant));
      (forall i :: 0 <= i < |data| ==> exists f :: f in files && f.fileName == Paths.TextGridName(data[i].participant)) &&
      (forall i, j :: 0 <= i < j < |files| ==> files[i].fileName != files[j].fileName) &&
      (forall f :: f in files ==> |f.tiers| == 1 && f.tiers[0].name == "response")
  {
    var ks := Keys(data, Participant);
    var files := FilesFor(data, ks);
    forall i | 0 <= i < |data|
      ensures exists f :: f in files && f.fileName == Paths.TextGridName(data[i].participant)
    {
      assert Participant(data[i]) in ks;
      var k :| 0 <= k < |ks| && ks[k] == data[i].participant;
      assert files[k] in files;
    }
    forall i, j | 0 <= i < j < |files| ensures files[i].fileName != files[j].fileName {
      Paths.TextGridNameInjective(ks[i], ks[j]);
    }
  }

  /** The tier of participant `p` gets one add per row of `p`, in row order,
      and nothing from any other participant. */
  lemma ResponsesOfOneParticipant(data: seq<ResponseRow>, p: string)
    ensures var adds := FileFor(data, p).tiers[0].adds;
      (forall a :: a in adds ==> exists r :: r in data && r.participant == p && a == ResponseInterval(r)) &&
      adds == ResponseIntervals(Select(data, Participant, p))
  {
    var g := Select(data, Participant, p);
    forall a | a in ResponseIntervals(g)
      ensures exists r :: r in data && r.participant == p && a == ResponseInterval(r)
    {
      var k :| 0 <= k < |g| && ResponseIntervals(g)[k] == a;
      assert g[k] in g;
    }
  }

  lemma {:induction false} ResponseIntervalsAppend(a: seq<ResponseRow>, b: seq<ResponseRow>)
    ensures ResponseIntervals(a + b) == ResponseIntervals(a) + ResponseIntervals(b)
  {
  }

  lemma {:induction false} AllAddsOfFiles(data: seq<ResponseRow>, ps: seq<string>)
    ensures AllAdds(FilesFor(data, ps)) == ResponseIntervals(Gather(ps, data, Participant))
  {
    if ps != [] {
      var init := ps[..|ps| - 1];
      var p := ps[|ps| - 1];
      AllAddsOfFiles(data, init);
      assert FilesFor(data, ps)[..|ps| - 1] == FilesFor(data, init);
      assert TierAdds(FileFor(data, p).tiers) == ResponseIntervals(Select(data, Participant, p)) by {
        assert FileFor(data, p).tiers[1..] == [];
      }
      ResponseIntervalsAppend(Gather(init, data, Participant), Select(data, Participant, p));
    }
  }

  /** Over all files, the added intervals are those of a reordering of the
      CSV rows: every row is written exactly once. */
  lemma EveryRowWrittenOnce(data: seq<ResponseRow>)
    ensures var ks := Keys(data, Participant);
      AllAdds(FilesFor(data, ks)) == ResponseIntervals(Gather(ks, data, Participant)) &&
      multiset(Gather(ks, data, Participant)) == multiset(data) &&
      |AllAdds(FilesFor(data, ks))| == |data|
  {
    AllAddsOfFiles(data, Keys(data, Participant));
    GroupsPartitionRows(data, Participant);
  }

  /** A CSV of a single row gives the one file "<participant>.TextGrid"
      whose response tier holds that row's interval and nothing else. */
  lemma SingleRow(row: ResponseRow)
    ensures FilesFor([row], Keys([row], Participant)) ==
      [Written(Paths.TextGridName(row.participant), [AddedTier("response", [ResponseInterval(row)])])]
  {
    var data := [row];
    assert data[..0] == [];
    assert Keys(data, Participant) == [row.participant];
    assert FileFor(data, row.participant) ==
      Written(Paths.TextGridName(row.participant), [AddedTier("response", [ResponseInterval(row)])]) by {
      assert Select(data, Participant, row.participant) == data;
      assert ResponseIntervals(data) == [ResponseInterval(row)];
    }
    assert [row.participant][..0] == [];
  }
}
