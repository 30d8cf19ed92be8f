/** TextGrid_Prosodic_Annotation.py: per TextGrid, take out the "word" and
    "phone" tiers, then append a stress tier, a "prosodic unit" copy of the
    words, the word and phone tiers again, and empty emphasis and comment
    tiers. The output keeps the input file name. */
module ProsodicAnnotation {
  import opened TextGridModel
  import opened Labels
  import Paths
  import opened FileLoop

  const StressName := "stress (S|SS|0)"
  const UnitName := "prosodic unit"
  const EmphasisName := "emphasis (E)"
  const CommentName := "comment"

  function StressTier(maxT: real): Tier { PointTier(StressName, 0.0, maxT, []) }
  function EmphasisTier(maxT: real): Tier { PointTier(EmphasisName, 0.0, maxT, []) }
  function CommentTier(maxT: real): Tier { IntervalTier(CommentName, 0.0, maxT, []) }

  /** `word_tier.new(name="prosodic unit", entries=[... prosodic_unit(label) ...])`. */
  function UnitTier(word: Tier, wordEntries: seq<Interval>): Tier
  {
    Derived(word, UnitName, Relabel(wordEntries, ProsodicUnit))
  }

  /** The tiers appended after the stress tier, in call order. */
  function Reinserted(word: Tier, wordEntries: seq<Interval>, phone: Tier, maxT: real): seq<Tier>
  {
    [UnitTier(word, wordEntries), word, phone, EmphasisTier(maxT), CommentTier(maxT)]
  }

  /** The tier layout of one file as the sequence of praatio calls makes it,
      or the error that aborts the run. */
  function ProsodicLayout(ts: seq<Tier>, maxT: real): Result<seq<Tier>>
  {
    var takenWord :- WithoutTier(ts, "word");
    var takenPhone :- WithoutTier(takenWord.1, "phone");
    var s1 :- WithTierAdded(takenPhone.1, StressTier(maxT));
    var wordEntries :- IntervalsOf(takenWord.0);
    AddEach(s1, Reinserted(takenWord.0, wordEntries, takenPhone.0, maxT))
  }

  /** Section 1.2 of the script on one opened TextGrid. */
  method AddProsodicTiers(tg: Document) returns (ok: bool)
    requires tg.Valid()
    modifies tg
    ensures ok == ProsodicLayout(old(tg.tiers), old(tg.maxTimestamp)).Ok?
    ensures ok ==> tg.Valid() && tg.tiers == ProsodicLayout(old(tg.tiers), old(tg.maxTimestamp)).value
  {
    var wordTier := tg.RemoveTier("word");
    if wordTier.Err? { return false; }
    var phoneTier := tg.RemoveTier("phone");
    if phoneTier.Err? { return false; }

    ok := tg.AddTier(PointTier(StressName, 0.0, tg.maxTimestamp, []));
    if !ok { return; }

    var wordEntries := IntervalsOf(wordTier.value);
    if wordEntries.Err? { return false; }
    assert ProsodicLayout(old(tg.tiers), old(tg.maxTimestamp)) ==
      AddEach(tg.tiers, Reinserted(wordTier.value, wordEntries.value, phoneTier.value, tg.maxTimestamp));
    ok := tg.AddTiers(Reinserted(wordTier.value, wordEntries.value, phoneTier.value, tg.maxTimestamp));
  }

  /** The rewrite of one opened file, as a function for `RunFiles`. */
  function FileLayout(): Opened -> Result<seq<Tier>>
  {
    (o: Opened) => ProsodicLayout(o.tiers, o.maxTimestamp)
  }

  /** Section 1.2 of the script: every ".TextGrid" name of the listing, in
      order, is opened, rewritten and saved under its own name; a file whose
      calls raise ends the run. `open` stands for `openTextgrid`, which
      yields tiers with distinct names. */
  method AnnotateAll(filenames: seq<string>, open: string -> Opened) returns (saves: seq<SavedGrid>, finished: bool)
    requires forall f :: UniqueNames(open(f).tiers)
    ensures (saves, finished) == RunFiles(Listed(filenames, Paths.IsTextGrid), open, FileLayout())
  {
    saves := [];
    for i := 0 to |filenames|
      invariant (saves, true) == RunFiles(Listed(filenames[..i], Paths.IsTextGrid), open, FileLayout())
    {
      var filename := filenames[i];
      ListingStep(filenames, i, Paths.IsTextGrid, open, FileLayout());
      if !Paths.IsTextGrid(filename) {
        continue;
      }
      var tg := new Document(open(filename).tiers, open(filename).maxTimestamp);
      var ok := AddProsodicTiers(tg);
      if !ok {
        ListingAborts(filenames, i, Paths.IsTextGrid, open, FileLayout());
        return saves, false;
      }
      saves := saves + [SavedGrid(filename, tg.tiers)];
    }
    assert filenames[..|filenames|] == filenames;
    finished := true;
  }

  /** The six tiers appended after the document's other tiers. */
  function AppendedTiers(word: Tier, phone: Tier, maxT: real): seq<Tier>
    requires Unpacks(word)
  {
    [StressTier(maxT)] + Reinserted(word, Entries(word), phone, maxT)
  }

  lemma AppendedNames(word: Tier, phone: Tier, maxT: real)
    requires Unpacks(word) && word.name == "word" && phone.name == "phone"
    ensures Names(AppendedTiers(word, phone, maxT)) == [StressName, UnitName, "word", "phone", EmphasisName, CommentName]
    ensures UniqueNames(AppendedTiers(word, phone, maxT))
  {
    var six := AppendedTiers(word, phone, maxT);
    var ns := [StressName, UnitName, "word", "phone", EmphasisName, CommentName];
    assert Names(six) == ns;
    assert Distinct(ns);
  }

  /** What the input must offer for the run not to abort on this file. */
  predicate Ready(ts: seq<Tier>)
  {
    "word" in Names(ts) && "phone" in Names(ts) &&
    Unpacks(FindTier(ts, "word").value) &&
    StressName !in Names(ts) && UnitName !in Names(ts) &&
    EmphasisName !in Names(ts) && CommentName !in Names(ts)
  }

  /** The tiers other than "word" and "phone", in their original order. */
  function Others(ts: seq<Tier>): seq<Tier>
  {
    Drop(Drop(ts, "word"), "phone")
  }

  lemma OthersFacts(ts: seq<Tier>)
    requires UniqueNames(ts)
    ensures UniqueNames(Others(ts))
    ensures forall t :: t in Others(ts) <==> t in ts && t.name != "word" && t.name != "phone"
    ensures forall n :: n in Names(Others(ts)) ==> n in Names(ts) && n != "word" && n != "phone"
  {
    DropRemovesName(ts, "word");
    DropRemovesName(Drop(ts, "word"), "phone");
    NamesOfSubset(Others(ts), ts);
    forall n | n in Names(Others(ts)) ensures n != "word" && n != "phone" {
      var i :| 0 <= i < |Others(ts)| && Names(Others(ts))[i] == n;
      assert Others(ts)[i] in Others(ts);
    }
  }

  /** The two removals succeed and hand back the tiers getTier would find. */
  lemma {:induction false} Removals(ts: seq<Tier>)
    requires UniqueNames(ts) && "word" in Names(ts) && "phone" in Names(ts)
    ensures WithoutTier(ts, "word") == Ok((FindTier(ts, "word").value, Drop(ts, "word")))
    ensures WithoutTier(Drop(ts, "word"), "phone") == Ok((FindTier(ts, "phone").value, Others(ts)))
  {
    RemoveTierKeepsOthers(ts, "word");
    var rest := Drop(ts, "word");
    DropRemovesName(ts, "word");
    DropKeepsOtherNames(ts, "word", "phone");
    RemoveTierKeepsOthers(rest, "phone");
    var phone := WithoutTier(rest, "phone").value.0;
    assert phone in ts;
    UniqueNameFind(ts, phone);
  }

  /** A name other than "word" and "phone" that the other tiers lack was not in the input. */
  lemma {:induction false} AbsentFromOthers(ts: seq<Tier>, m: string)
    requires UniqueNames(ts) && m != "word" && m != "phone"
    requires m !in Names(Others(ts))
    ensures m !in Names(ts)
  {
    if m in Names(ts) {
      DropKeepsOtherNames(ts, "word", m);
      DropRemovesName(ts, "word");
      DropKeepsOtherNames(Drop(ts, "word"), "phone", m);
    }
  }

  /** Once both removals succeed, what is left of the run. */
  lemma AfterRemovals(ts: seq<Tier>, maxT: real)
    requires UniqueNames(ts) && "word" in Names(ts) && "phone" in Names(ts)
    ensures var word := FindTier(ts, "word").value;
      ProsodicLayout(ts, maxT) ==
        if StressName in Names(Others(ts)) then Err(Duplicate(StressName))
        else if !Unpacks(word) then Err(NotIntervals("word"))
        else AddEach(Others(ts) + [StressTier(maxT)], Reinserted(word, Entries(word), FindTier(ts, "phone").value, maxT))
  {
    Removals(ts);
    FindTierFinds(ts, "word");
  }

  /** None of the six appended names is among the other tiers of a ready input. */
  lemma NewNamesAbsent(ts: seq<Tier>)
    requires UniqueNames(ts) && Ready(ts)
    ensures var ns := Names(Others(ts));
      StressName !in ns && UnitName !in ns && "word" !in ns &&
      "phone" !in ns && EmphasisName !in ns && CommentName !in ns
  {
    OthersFacts(ts);
  }

  /** The other tiers and the six appended ones have pairwise different names. */
  lemma AppendedUnique(ts: seq<Tier>, maxT: real)
    requires UniqueNames(ts) && Ready(ts)
    ensures UniqueNames(Others(ts) + AppendedTiers(FindTier(ts, "word").value, FindTier(ts, "phone").value, maxT))
  {
    var word := FindTier(ts, "word").value;
    var phone := FindTier(ts, "phone").value;
    var six := AppendedTiers(word, phone, maxT);
    var others := Others(ts);
    assert UniqueNames(six) && Names(six) == [StressName, UnitName, "word", "phone", EmphasisName, CommentName] by {
      FindTierFinds(ts, "word");
      FindTierFinds(ts, "phone");
      AppendedNames(word, phone, maxT);
    }
    assert forall j :: 0 <= j < |six| ==> six[j].name !in Names(others) by {
      NewNamesAbsent(ts);
      forall j | 0 <= j < |six| ensures six[j].name !in Names(others) {
        assert six[j].name == Names(six)[j];
      }
    }
    OthersFacts(ts);
    UniqueConcat(others, six);
  }

  /** The five appends after the stress tier all succeed on a ready input. */
  lemma AppendRun(ts: seq<Tier>, maxT: real)
    requires UniqueNames(ts) && Ready(ts)
    ensures var word := FindTier(ts, "word").value;
      var phone := FindTier(ts, "phone").value;
      AddEach(Others(ts) + [StressTier(maxT)], Reinserted(word, Entries(word), phone, maxT)) ==
        Ok(Others(ts) + AppendedTiers(word, phone, maxT))
  {
    var word := FindTier(ts, "word").value;
    var phone := FindTier(ts, "phone").value;
    var five := Reinserted(word, Entries(word), phone, maxT);
    AppendedUnique(ts, maxT);
    OthersFacts(ts);
    NewNamesAbsent(ts);
    AddTierAppends(Others(ts), StressTier(maxT));
    ConcatAssoc(Others(ts), [StressTier(maxT)], five);
    AddEachFresh(Others(ts) + [StressTier(maxT)], five);
  }

  /** On a ready input the layout is the other tiers followed by the six
      appended ones. */
  lemma {:induction false} ProsodicLayoutComputes(ts: seq<Tier>, maxT: real)
    requires UniqueNames(ts) && Ready(ts)
    ensures ProsodicLayout(ts, maxT) ==
      Ok(Others(ts) + AppendedTiers(FindTier(ts, "word").value, FindTier(ts, "phone").value, maxT))
  {
    AfterRemovals(ts, maxT);
    NewNamesAbsent(ts);
    AppendRun(ts, maxT);
  }

  /** A run that gets past both removals found "word" and "phone". */
  lemma RemovalsNeed(ts: seq<Tier>, maxT: real)
    requires UniqueNames(ts) && ProsodicLayout(ts, maxT).Ok?
    ensures "word" in Names(ts) && "phone" in Names(ts)
  {
    RemoveTierKeepsOthers(ts, "word");
    DropRemovesName(ts, "word");
    RemoveTierKeepsOthers(Drop(ts, "word"), "phone");
    NamesOfSubset(Drop(ts, "word"), ts);
  }

  /** Appends after `others + [first]` that do not raise used names the
      tiers of `others` lack. */
  lemma RunNamesFresh(others: seq<Tier>, first: Tier, run: seq<Tier>)
    requires UniqueNames(others + [first]) && AddEach(others + [first], run).Ok?
    ensures forall j :: 0 <= j < |run| ==> run[j].name !in Names(others)
  {
    AddEachNeedsFresh(others + [first], run);
    NamesAppend(others, [first]);
  }

  /** A run that does not abort had a ready input. */
  lemma {:induction false} ProsodicLayoutNeeds(ts: seq<Tier>, maxT: real)
    requires UniqueNames(ts) && ProsodicLayout(ts, maxT).Ok?
    ensures Ready(ts)
  {
    RemovalsNeed(ts, maxT);
    var others := Others(ts);
    var word := FindTier(ts, "word").value;
    var phone := FindTier(ts, "phone").value;
    var five := Reinserted(word, Entries(word), phone, maxT);
    assert StressName !in Names(others) && Unpacks(word) && AddEach(others + [StressTier(maxT)], five).Ok? by {
      AfterRemovals(ts, maxT);
    }
    assert forall j :: 0 <= j < |five| ==> five[j].name !in Names(others) by {
      OthersFacts(ts);
      AddTierAppends(others, StressTier(maxT));
      RunNamesFresh(others, StressTier(maxT), five);
    }
    assert five[0].name == UnitName && five[3].name == EmphasisName && five[4].name == CommentName;
    AbsentFromOthers(ts, StressName);
    AbsentFromOthers(ts, UnitName);
    AbsentFromOthers(ts, EmphasisName);
    AbsentFromOthers(ts, CommentName);
  }

  /** The layout succeeds exactly when "word" and "phone" exist, "word" is an
      interval tier, and none of the four new names is taken; the result is
      then the other tiers, unchanged and in their order, followed by stress,
      prosodic unit, word, phone, emphasis and comment, with word and phone as
      they were removed. */
  lemma ProsodicLayoutResult(ts: seq<Tier>, maxT: real)
    requires UniqueNames(ts)
    ensures ProsodicLayout(ts, maxT).Ok? <==> Ready(ts)
    ensures ProsodicLayout(ts, maxT).Ok? ==>
      ProsodicLayout(ts, maxT).value ==
        Others(ts) + AppendedTiers(FindTier(ts, "word").value, FindTier(ts, "phone").value, maxT)
  {
    if ProsodicLayout(ts, maxT).Ok? {
      ProsodicLayoutNeeds(ts, maxT);
    }
    if Ready(ts) {
      ProsodicLayoutComputes(ts, maxT);
    }
  }

  /** The final tier names: the other names in order, then the six new ones. */
  lemma ProsodicLayoutNames(ts: seq<Tier>, maxT: real)
    requires UniqueNames(ts) && Ready(ts)
    ensures var result := Others(ts) + AppendedTiers(FindTier(ts, "word").value, FindTier(ts, "phone").value, maxT);
      Names(result) == Names(Others(ts)) + [StressName, UnitName, "word", "phone", EmphasisName, CommentName] &&
      UniqueNames(result)
  {
    var word := FindTier(ts, "word").value;
    var phone := FindTier(ts, "phone").value;
    FindTierFinds(ts, "word");
    FindTierFinds(ts, "phone");
    AppendedNames(word, phone, maxT);
    NamesAppend(Others(ts), AppendedTiers(word, phone, maxT));
    AppendedUnique(ts, maxT);
  }

  /** The prosodic-unit tier is the word tier under a new name: same kind,
      bounds, spans and labels; the stress, emphasis and comment tiers are
      empty and span [0, maxTimestamp]. */
  lemma NewTiersContent(word: Tier, phone: Tier, maxT: real)
    requires Unpacks(word)
    ensures var six := AppendedTiers(word, phone, maxT);
      six[1] == WithName(word, UnitName) &&
      six[2] == word && six[3] == phone &&
      six[0] == PointTier(StressName, 0.0, maxT, []) &&
      six[4] == PointTier(EmphasisName, 0.0, maxT, []) &&
      six[5] == IntervalTier(CommentName, 0.0, maxT, [])
  {
    ProsodicUnitTierCopiesWords(Entries(word));
  }

  /** An empty point "word" tier does not stop the run: the loop over its
      entries runs zero times, and the prosodic unit tier is an empty point
      tier with the word tier's bounds. */
  lemma EmptyPointWord(lo: real, hi: real, phone: Tier, maxT: real)
    requires phone.name == "phone"
    ensures var word := PointTier("word", lo, hi, []);
      ProsodicLayout([word, phone], maxT) ==
        Ok([StressTier(maxT), PointTier(UnitName, lo, hi, []), word, phone, EmphasisTier(maxT), CommentTier(maxT)])
  {
    var word := PointTier("word", lo, hi, []);
    WordPhoneReady(word, phone);
    ProsodicLayoutResult([word, phone], maxT);
    assert AppendedTiers(word, phone, maxT) ==
      [StressTier(maxT), PointTier(UnitName, lo, hi, []), word, phone, EmphasisTier(maxT), CommentTier(maxT)] by {
      assert UnitTier(word, Entries(word)) == PointTier(UnitName, lo, hi, []);
    }
    assert [] + AppendedTiers(word, phone, maxT) == AppendedTiers(word, phone, maxT);
  }

  /** A document of just "word" and "phone" is ready whenever "word" unpacks,
      and nothing else is left after both removals. */
  lemma WordPhoneReady(word: Tier, phone: Tier)
    requires word.name == "word" && phone.name == "phone" && Unpacks(word)
    ensures UniqueNames([word, phone]) && Ready([word, phone]) && Others([word, phone]) == []
    ensures FindTier([word, phone], "word") == Ok(word) && FindTier([word, phone], "phone") == Ok(phone)
  {
    var ts := [word, phone];
    assert Names(ts) == ["word", "phone"];
    UniqueNameFind(ts, word);
    UniqueNameFind(ts, phone);
    assert |StressName| == 15 && |UnitName| == 13 && |EmphasisName| == 12 && |CommentName| == 7;
    assert ts[1..] == [phone] && [phone][1..] == [];
    assert Drop([phone], "word") == [phone] + Drop([], "word");
    assert Drop([phone], "phone") == Drop([], "phone");
  }
}
