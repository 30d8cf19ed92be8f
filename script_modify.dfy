/** Phase 2 of TextGrid_script.py: on each TextGrid written by the forced
    aligner, rename the "realization - phone" and "realization - word" tiers,
    copy "realization - trans" to "realization" and drop the original, add a
    translation tier, a syllable ("σ") tier derived from the words, and empty
    stress, emphasis and comment tiers. The output keeps the input file name. */
module ScriptModify {
  import opened TextGridModel
  import opened Labels
  import Paths
  import opened FileLoop

  const PhoneIn := "realization - phone"
  const WordIn := "realization - word"
  const TransIn := "realization - trans"
  const RealizationName := "realization"
  const TranslationName := "translation (Google)"
  const UnitName := "prosodic unit"
  const StressName := "stress (PS|SS|0)"
  const EmphasisName := "emphasis (E)"
  const CommentName := "comment"

  /** `realization_tier.new(name="translation (Google)", entries=...)`. */
  function TranslationTier(realization: Tier, entries: seq<Interval>, translate: string -> string): Tier
  {
    Derived(realization, TranslationName, Relabel(entries, s => TranslateEntry(s, translate)))
  }

  /** `word_tier.new(name="prosodic unit", entries=[... prosodic_word(label) ...])`. */
  function UnitTier(word: Tier, entries: seq<Interval>): Tier
  {
    Derived(word, UnitName, Relabel(entries, ProsodicWord))
  }

  /** The three empty tiers spanning [0, maxTimestamp], in call order. */
  function EmptyTiers(maxT: real): seq<Tier>
  {
    [PointTier(StressName, 0.0, maxT, []), PointTier(EmphasisName, 0.0, maxT, []), IntervalTier(CommentName, 0.0, maxT, [])]
  }

  /** The tier layout of one file as the sequence of praatio calls makes it,
      or the error that aborts the run. `translate` stands for the Google
      Translate call (source "no", target "en"). */
  function ModifiedLayout(ts: seq<Tier>, maxT: real, translate: string -> string): Result<seq<Tier>>
  {
    var r1 :- WithTierRenamed(ts, PhoneIn, "phone");
    var r2 :- WithTierRenamed(r1, WordIn, "word");
    var word :- FindTier(r2, "word");
    var trans :- FindTier(r2, TransIn);
    Transcribed(r2, word, trans, maxT, translate)
  }

  /** The steps after both getTier calls, from the renamed document `r2`. */
  function Transcribed(r2: seq<Tier>, word: Tier, trans: Tier, maxT: real, translate: string -> string): Result<seq<Tier>>
  {
    var realization := WithName(trans, RealizationName);
    var entries :- IntervalsOf(realization);
    var s1 :- WithTierAdded(r2, realization);
    var removed :- WithoutTier(s1, TransIn);
    var s3 :- WithTierAdded(removed.1, TranslationTier(realization, entries, translate));
    var wordEntries :- IntervalsOf(word);
    AddEach(s3, Tail(word, wordEntries, maxT))
  }

  /** The four tiers added last: prosodic unit, stress, emphasis, comment. */
  function Tail(word: Tier, wordEntries: seq<Interval>, maxT: real): seq<Tier>
  {
    [UnitTier(word, wordEntries)] + EmptyTiers(maxT)
  }

  /** Section 2.2 of the script on one opened TextGrid. */
  method ModifyTextGrid(tg: Document, translate: string -> string) returns (ok: bool)
    requires tg.Valid()
    modifies tg
    ensures ok == ModifiedLayout(old(tg.tiers), old(tg.maxTimestamp), translate).Ok?
    ensures ok ==> tg.Valid() && tg.tiers == ModifiedLayout(old(tg.tiers), old(tg.maxTimestamp), translate).value
  {
    ok := tg.RenameTier(PhoneIn, "phone");
    if !ok { return; }
    ok := tg.RenameTier(WordIn, "word");
    if !ok { return; }
    var wordTier := tg.GetTier("word");
    if wordTier.Err? { return false; }

    var remRealizationTier := tg.GetTier(TransIn);
    if remRealizationTier.Err? { return false; }
    var realizationTier := WithName(remRealizationTier.value, RealizationName);
    var entries := IntervalsOf(realizationTier);
    if entries.Err? { return false; }
    ok := tg.AddTier(realizationTier);
    if !ok { return; }
    var removed := tg.RemoveTier(TransIn);
    if removed.Err? { return false; }

    ok := tg.AddTier(TranslationTier(realizationTier, entries.value, translate));
    if !ok { return; }

    var wordEntries := IntervalsOf(wordTier.value);
    if wordEntries.Err? { return false; }
    ok := tg.AddTiers(Tail(wordTier.value, wordEntries.value, tg.maxTimestamp));
  }

  /** The rewrite of one opened file, as a function for `RunFiles`. */
  function FileLayout(translate: string -> string): Opened -> Result<seq<Tier>>
  {
    (o: Opened) => ModifiedLayout(o.tiers, o.maxTimestamp, translate)
  }

  /** Section 2.2 of the script: every ".TextGrid" name of the listing, in
      order, is opened, rewritten and saved under its own name; a file whose
      calls raise ends the run. `open` stands for `openTextgrid`, which
      yields tiers with distinct names. */
  method ModifyAll(filenames: seq<string>, open: string -> Opened, translate: string -> string)
    returns (saves: seq<SavedGrid>, finished: bool)
    requires forall f :: UniqueNames(open(f).tiers)
    ensures (saves, finished) == RunFiles(Listed(filenames, Paths.IsTextGrid), open, FileLayout(translate))
  {
    saves := [];
    for i := 0 to |filenames|
      invariant (saves, true) == RunFiles(Listed(filenames[..i], Paths.IsTextGrid), open, FileLayout(translate))
    {
      var filename := filenames[i];
      ListingStep(filenames, i, Paths.IsTextGrid, open, FileLayout(translate));
      if !Paths.IsTextGrid(filename) {
        continue;
      }
      var tg := new Document(open(filename).tiers, open(filename).maxTimestamp);
      var ok := ModifyTextGrid(tg, translate);
      if !ok {
        ListingAborts(filenames, i, Paths.IsTextGrid, open, FileLayout(translate));
        return saves, false;
      }
      saves := saves + [SavedGrid(filename, tg.tiers)];
    }
    assert filenames[..|filenames|] == filenames;
    finished := true;
  }

  /** The aligner's tiers after the two renames. */
  function Aligned(ts: seq<Tier>): seq<Tier>
  {
    Renamed(Renamed(ts, PhoneIn, "phone"), WordIn, "word")
  }

  /** The tiers kept in place: all but the removed "realization - trans". */
  function Kept(ts: seq<Tier>): seq<Tier>
  {
    Drop(Aligned(ts), TransIn)
  }

  /** The six tiers appended after the kept ones, from the transcription
      tier `trans` and the (renamed) word tier `word`. */
  function Appended(trans: Tier, word: Tier, maxT: real, translate: string -> string): seq<Tier>
    requires Unpacks(trans) && Unpacks(word)
  {
    var realization := WithName(trans, RealizationName);
    [realization] + ([TranslationTier(realization, Entries(trans), translate)] + Tail(word, Entries(word), maxT))
  }

  /** What the input must offer for the run not to abort on this file. */
  predicate ScriptReady(ts: seq<Tier>)
  {
    PhoneIn in Names(ts) && WordIn in Names(ts) && TransIn in Names(ts) &&
    "phone" !in Names(ts) && "word" !in Names(ts) &&
    Unpacks(FindTier(ts, WordIn).value) && Unpacks(FindTier(ts, TransIn).value) &&
    RealizationName !in Names(ts) && TranslationName !in Names(ts) && UnitName !in Names(ts) &&
    StressName !in Names(ts) && EmphasisName !in Names(ts) && CommentName !in Names(ts)
  }

  /** The renames succeed exactly when both aligner tiers exist and their
      new names are free. */
  lemma RenamesSucceed(ts: seq<Tier>)
    requires UniqueNames(ts)
    ensures WithTierRenamed(ts, PhoneIn, "phone").Ok? && WithTierRenamed(WithTierRenamed(ts, PhoneIn, "phone").value, WordIn, "word").Ok?
      <==> PhoneIn in Names(ts) && WordIn in Names(ts) && "phone" !in Names(ts) && "word" !in Names(ts)
    ensures PhoneIn in Names(ts) && WordIn in Names(ts) && "phone" !in Names(ts) && "word" !in Names(ts) ==>
      WithTierRenamed(ts, PhoneIn, "phone") == Ok(Renamed(ts, PhoneIn, "phone")) &&
      WithTierRenamed(Renamed(ts, PhoneIn, "phone"), WordIn, "word") == Ok(Aligned(ts)) &&
      UniqueNames(Aligned(ts))
  {
    RenameTierKeepsPosition(ts, PhoneIn, "phone");
    if PhoneIn in Names(ts) && "phone" !in Names(ts) {
      var r1 := Renamed(ts, PhoneIn, "phone");
      RenameIsRenamed(ts, PhoneIn, "phone");
      RenamedNames(ts, PhoneIn, "phone", WordIn);
      RenamedNames(ts, PhoneIn, "phone", "word");
      RenameTierKeepsPosition(r1, WordIn, "word");
      if WordIn in Names(r1) && "word" !in Names(r1) {
        RenameIsRenamed(r1, WordIn, "word");
      }
    }
  }

  /** Which names the aligned document holds. */
  lemma AlignedNames(ts: seq<Tier>, m: string)
    requires PhoneIn in Names(ts) && WordIn in Names(ts)
    ensures m in Names(Aligned(ts)) <==>
      m == "word" || m == "phone" || (m != PhoneIn && m != WordIn && m in Names(ts))
  {
    RenamedNames(ts, PhoneIn, "phone", WordIn);
    RenamedNames(ts, PhoneIn, "phone", m);
    RenamedNames(Renamed(ts, PhoneIn, "phone"), WordIn, "word", m);
  }

  /** getTier on the aligned document finds the renamed word tier and the
      untouched transcription tier. */
  lemma AlignedFinds(ts: seq<Tier>)
    requires UniqueNames(ts) && PhoneIn in Names(ts) && WordIn in Names(ts)
    requires "phone" !in Names(ts) && "word" !in Names(ts)
    ensures FindTier(Aligned(ts), "word") == Ok(WithName(FindTier(ts, WordIn).value, "word"))
    ensures TransIn in Names(ts) ==> FindTier(Aligned(ts), TransIn) == FindTier(ts, TransIn)
  {
    RenamesSucceed(ts);
    var r1 := Renamed(ts, PhoneIn, "phone");
    RenameIsRenamed(ts, PhoneIn, "phone");
    FindTierFinds(ts, WordIn);
    var w := FindTier(ts, WordIn).value;
    RenamedKeeps(ts, PhoneIn, "phone", w);
    var i :| 0 <= i < |r1| && r1[i] == w;
    assert Aligned(ts)[i] == WithName(w, "word");
    UniqueNameFind(Aligned(ts), WithName(w, "word"));
    if TransIn in Names(ts) {
      FindTierFinds(ts, TransIn);
      var t := FindTier(ts, TransIn).value;
      RenamedKeeps(ts, PhoneIn, "phone", t);
      RenamedKeeps(r1, WordIn, "word", t);
      UniqueNameFind(Aligned(ts), t);
      UniqueNameFind(ts, t);
    }
  }

  /** The names of the kept tiers. */
  lemma KeptNames(ts: seq<Tier>, m: string)
    requires UniqueNames(ts) && PhoneIn in Names(ts) && WordIn in Names(ts)
    requires "phone" !in Names(ts) && "word" !in Names(ts)
    ensures UniqueNames(Kept(ts))
    ensures m in Names(Kept(ts)) <==>
      m != TransIn && (m == "word" || m == "phone" || (m != PhoneIn && m != WordIn && m in Names(ts)))
  {
    RenamesSucceed(ts);
    AlignedNames(ts, m);
    DropRemovesName(Aligned(ts), TransIn);
    if m in Names(Kept(ts)) {
      NamesOfSubset(Kept(ts), Aligned(ts));
    }
    if m != TransIn && m in Names(Aligned(ts)) {
      DropKeepsOtherNames(Aligned(ts), TransIn, m);
    }
  }

  /** Adding "realization" and removing "realization - trans" leaves the other
      tiers followed by "realization". */
  lemma SwapTranscription(a: seq<Tier>, realization: Tier)
    requires UniqueNames(a) && TransIn in Names(a)
    requires realization.name == RealizationName && RealizationName !in Names(a)
    ensures WithTierAdded(a, realization) == Ok(a + [realization])
    ensures WithoutTier(a + [realization], TransIn).Ok?
    ensures WithoutTier(a + [realization], TransIn).value.1 == Drop(a, TransIn) + [realization]
  {
    AddTierAppends(a, realization);
    NamesAppend(a, [realization]);
    RemoveTierKeepsOthers(a + [realization], TransIn);
    DropAppend(a, [realization], TransIn);
    DropNone([realization], TransIn);
  }

  /** Appending `t` and then each of `rest`, all under fresh names. */
  lemma FreshAdds(base: seq<Tier>, t: Tier, rest: seq<Tier>)
    requires UniqueNames(base + [t] + rest)
    ensures WithTierAdded(base, t) == Ok(base + [t])
    ensures AddEach(base + [t], rest) == Ok(base + [t] + rest)
  {
    ConcatAssoc(base, [t], rest);
    UniqueSplit(base, [t] + rest);
    assert ([t] + rest)[0] == t;
    UniqueSplit(base + [t], rest);
    assert UniqueNames(base + [t]) by {
      forall i, j | 0 <= i < j < |base + [t]| ensures (base + [t])[i].name != (base + [t])[j].name {
        assert (base + [t])[i] == (base + [t] + rest)[i] && (base + [t])[j] == (base + [t] + rest)[j];
      }
    }
    AddEachFresh(base + [t], rest);
  }

  /** After both getTier calls, the remaining steps on a document that
      leaves every new name free. */
  lemma TranscribedComputes(a: seq<Tier>, trans: Tier, word: Tier, maxT: real, translate: string -> string)
    requires UniqueNames(a) && TransIn in Names(a) && RealizationName !in Names(a)
    requires Unpacks(trans) && Unpacks(word)
    requires UniqueNames(Drop(a, TransIn) + Appended(trans, word, maxT, translate))
    ensures Transcribed(a, word, trans, maxT, translate) == Ok(Drop(a, TransIn) + Appended(trans, word, maxT, translate))
  {
    var realization := WithName(trans, RealizationName);
    SwapTranscription(a, realization);
    var tr := TranslationTier(realization, Entries(trans), translate);
    var rest := Tail(word, Entries(word), maxT);
    var base := Drop(a, TransIn) + [realization];
    ConcatAssoc(Drop(a, TransIn), [realization], [tr] + rest);
    ConcatAssoc(base, [tr], rest);
    FreshAdds(base, tr, rest);
  }

  /** The names of the six appended tiers, in order. */
  function NewNames(): seq<string>
  {
    [RealizationName, TranslationName, UnitName, StressName, EmphasisName, CommentName]
  }

  /** The six new names have six different lengths. */
  lemma NewNamesDistinct()
    ensures Distinct(NewNames())
  {
    var ns := NewNames();
    assert |ns[0]| == 11 && |ns[1]| == 20 && |ns[2]| == 13 && |ns[3]| == 16 && |ns[4]| == 12 && |ns[5]| == 7;
    forall i, j | 0 <= i < j < |ns| ensures ns[i] != ns[j] {
      assert |ns[i]| != |ns[j]|;
    }
  }

  /** None of the new names is among the kept tiers of a ready input. */
  lemma KeptLacksNewNames(ts: seq<Tier>)
    requires UniqueNames(ts) && ScriptReady(ts)
    ensures UniqueNames(Kept(ts))
    ensures forall j :: 0 <= j < |NewNames()| ==> NewNames()[j] !in Names(Kept(ts))
  {
    KeptNames(ts, RealizationName);
    KeptNames(ts, TranslationName);
    KeptNames(ts, UnitName);
    KeptNames(ts, StressName);
    KeptNames(ts, EmphasisName);
    KeptNames(ts, CommentName);
  }

  lemma AppendedNames(trans: Tier, word: Tier, maxT: real, translate: string -> string)
    requires Unpacks(trans) && Unpacks(word)
    ensures Names(Appended(trans, word, maxT, translate)) == NewNames()
  {
  }

  /** Tiers under the six new names can follow tiers that use none of them. */
  lemma UniqueWithNew(kept: seq<Tier>, six: seq<Tier>)
    requires UniqueNames(kept) && Names(six) == NewNames()
    requires forall j :: 0 <= j < |NewNames()| ==> NewNames()[j] !in Names(kept)
    ensures UniqueNames(kept + six)
  {
    NewNamesDistinct();
    forall j | 0 <= j < |six| ensures six[j].name !in Names(kept) {
      assert six[j].name == NewNames()[j];
    }
    UniqueConcat(kept, six);
  }

  /** The kept tiers followed by the six new ones have pairwise different names. */
  lemma AppendedUnique(ts: seq<Tier>, maxT: real, translate: string -> string)
    requires UniqueNames(ts) && ScriptReady(ts)
    ensures var word := WithName(FindTier(ts, WordIn).value, "word");
      UniqueNames(Kept(ts) + Appended(FindTier(ts, TransIn).value, word, maxT, translate))
  {
    var word := WithName(FindTier(ts, WordIn).value, "word");
    var six := Appended(FindTier(ts, TransIn).value, word, maxT, translate);
    AppendedNames(FindTier(ts, TransIn).value, word, maxT, translate);
    KeptLacksNewNames(ts);
    UniqueWithNew(Kept(ts), six);
  }

  /** On a ready input the layout is the kept tiers followed by realization,
      translation, prosodic unit, stress, emphasis and comment. */
  lemma ModifiedLayoutComputes(ts: seq<Tier>, maxT: real, translate: string -> string)
    requires UniqueNames(ts) && ScriptReady(ts)
    ensures ModifiedLayout(ts, maxT, translate) ==
      Ok(Kept(ts) + Appended(FindTier(ts, TransIn).value, WithName(FindTier(ts, WordIn).value, "word"), maxT, translate))
  {
    var a := Aligned(ts);
    var trans := FindTier(ts, TransIn).value;
    var word := WithName(FindTier(ts, WordIn).value, "word");
    assert ModifiedLayout(ts, maxT, translate) == Transcribed(a, word, trans, maxT, translate) by {
      RenamesSucceed(ts);
      AlignedFinds(ts);
    }
    assert UniqueNames(a) && TransIn in Names(a) && RealizationName !in Names(a) by {
      RenamesSucceed(ts);
      AlignedNames(ts, TransIn);
      AlignedNames(ts, RealizationName);
    }
    AppendedUnique(ts, maxT, translate);
    TranscribedComputes(a, trans, word, maxT, translate);
  }

  /** The document just before the four last appends: the kept tiers,
      realization and its translation. */
  function BeforeTail(a: seq<Tier>, trans: Tier, translate: string -> string): seq<Tier>
    requires Unpacks(trans)
  {
    var realization := WithName(trans, RealizationName);
    Drop(a, TransIn) + [realization] + [TranslationTier(realization, Entries(trans), translate)]
  }

  /** The steps up to the translation tier did not raise. */
  lemma TranscribedSteps(a: seq<Tier>, trans: Tier, word: Tier, maxT: real, translate: string -> string)
    requires UniqueNames(a) && TransIn in Names(a)
    requires Transcribed(a, word, trans, maxT, translate).Ok?
    ensures Unpacks(trans) && Unpacks(word) && RealizationName !in Names(a)
    ensures TranslationName !in Names(Drop(a, TransIn))
    ensures UniqueNames(BeforeTail(a, trans, translate))
    ensures AddEach(BeforeTail(a, trans, translate), Tail(word, Entries(word), maxT)).Ok?
  {
    var realization := WithName(trans, RealizationName);
    var d := Drop(a, TransIn);
    AddTierAppends(a, realization);
    SwapTranscription(a, realization);
    RemoveTierKeepsOthers(a + [realization], TransIn);
    AddTierAppends(d + [realization], TranslationTier(realization, Entries(trans), translate));
    NamesAppend(d, [realization]);
  }

  /** What the steps after the getTier calls need in order not to raise. */
  lemma TranscribedNeeds(a: seq<Tier>, trans: Tier, word: Tier, maxT: real, translate: string -> string)
    requires UniqueNames(a) && TransIn in Names(a)
    requires Transcribed(a, word, trans, maxT, translate).Ok?
    ensures Unpacks(trans) && Unpacks(word) && RealizationName !in Names(a)
    ensures var ns := Names(Drop(a, TransIn));
      TranslationName !in ns && UnitName !in ns && StressName !in ns && EmphasisName !in ns && CommentName !in ns
  {
    TranscribedSteps(a, trans, word, maxT, translate);
    TailFree(a, trans, word, maxT, translate);
  }

  /** The four last appends only add names the kept tiers lack. */
  lemma TailFree(a: seq<Tier>, trans: Tier, word: Tier, maxT: real, translate: string -> string)
    requires Unpacks(trans) && Unpacks(word)
    requires UniqueNames(BeforeTail(a, trans, translate))
    requires AddEach(BeforeTail(a, trans, translate), Tail(word, Entries(word), maxT)).Ok?
    ensures var ns := Names(Drop(a, TransIn));
      UnitName !in ns && StressName !in ns && EmphasisName !in ns && CommentName !in ns
  {
    var realization := WithName(trans, RealizationName);
    var d := Drop(a, TransIn);
    var tr := TranslationTier(realization, Entries(trans), translate);
    var s3 := BeforeTail(a, trans, translate);
    var rest := Tail(word, Entries(word), maxT);
    AddEachNeedsFresh(s3, rest);
    TailNames(word, Entries(word), maxT);
    NamesAppend(d, [realization]);
    NamesAppend(d + [realization], [tr]);
    assert Names(s3) == Names(d) + [RealizationName, TranslationName];
  }

  lemma TailNames(word: Tier, entries: seq<Interval>, maxT: real)
    ensures var rest := Tail(word, entries, maxT);
      |rest| == 4 && rest[0].name == UnitName && rest[1].name == StressName &&
      rest[2].name == EmphasisName && rest[3].name == CommentName
  {
  }

  /** A run that does not abort had a ready input. */
  lemma ModifiedLayoutNeeds(ts: seq<Tier>, maxT: real, translate: string -> string)
    requires UniqueNames(ts) && ModifiedLayout(ts, maxT, translate).Ok?
    ensures ScriptReady(ts)
  {
    assert PhoneIn in Names(ts) && WordIn in Names(ts) && "phone" !in Names(ts) && "word" !in Names(ts) by {
      RenamesSucceed(ts);
    }
    var a := Aligned(ts);
    assert UniqueNames(a) && FindTier(a, TransIn).Ok? && FindTier(a, "word").Ok? &&
      ModifiedLayout(ts, maxT, translate) == Transcribed(a, FindTier(a, "word").value, FindTier(a, TransIn).value, maxT, translate) by {
      RenamesSucceed(ts);
    }
    assert TransIn in Names(a) && TransIn in Names(ts) by {
      FindTierFinds(a, TransIn);
      AlignedNames(ts, TransIn);
    }
    AlignedFinds(ts);
    var trans := FindTier(ts, TransIn).value;
    var word := WithName(FindTier(ts, WordIn).value, "word");
    TranscribedNeeds(a, trans, word, maxT, translate);
    AlignedNames(ts, RealizationName);
    KeptNames(ts, TranslationName);
    KeptNames(ts, UnitName);
    KeptNames(ts, StressName);
    KeptNames(ts, EmphasisName);
    KeptNames(ts, CommentName);
  }

  /** The run succeeds exactly when the three aligner tiers exist, "phone" and
      "word" are free, the word and transcription tiers are interval tiers,
      and none of the six new names is taken; the result is then the other
      tiers, renamed where the aligner named them, in their order, followed by
      realization (the transcription renamed), its translation, the prosodic
      unit tier and the three empty tiers. */
  lemma ModifiedLayoutResult(ts: seq<Tier>, maxT: real, translate: string -> string)
    requires UniqueNames(ts)
    ensures ModifiedLayout(ts, maxT, translate).Ok? <==> ScriptReady(ts)
    ensures ModifiedLayout(ts, maxT, translate).Ok? ==>
      ModifiedLayout(ts, maxT, translate).value ==
        Kept(ts) + Appended(FindTier(ts, TransIn).value, WithName(FindTier(ts, WordIn).value, "word"), maxT, translate)
  {
    if ModifiedLayout(ts, maxT, translate).Ok? {
      ModifiedLayoutNeeds(ts, maxT, translate);
    }
    if ScriptReady(ts) {
      ModifiedLayoutComputes(ts, maxT, translate);
    }
  }

  /** The final tier names: the kept names in order, then the six new ones. */
  lemma ModifiedLayoutNames(ts: seq<Tier>, maxT: real, translate: string -> string)
    requires UniqueNames(ts) && ModifiedLayout(ts, maxT, translate).Ok?
    ensures Names(ModifiedLayout(ts, maxT, translate).value) == Names(Kept(ts)) + NewNames()
    ensures UniqueNames(ModifiedLayout(ts, maxT, translate).value)
    ensures forall n :: n in Names(Kept(ts)) <==>
      n != TransIn && (n == "word" || n == "phone" || (n != PhoneIn && n != WordIn && n in Names(ts)))
  {
    ModifiedLayoutResult(ts, maxT, translate);
    var word := WithName(FindTier(ts, WordIn).value, "word");
    AppendedNames(FindTier(ts, TransIn).value, word, maxT, translate);
    NamesAppend(Kept(ts), Appended(FindTier(ts, TransIn).value, word, maxT, translate));
    AppendedUnique(ts, maxT, translate);
    forall n ensures n in Names(Kept(ts)) <==>
      n != TransIn && (n == "word" || n == "phone" || (n != PhoneIn && n != WordIn && n in Names(ts)))
    {
      KeptNames(ts, n);
    }
  }

  /** What the new tiers hold: realization is the transcription under a new
      name; the translation keeps its spans and leaves empty labels empty;
      the prosodic unit tier keeps the word spans and holds σ exactly where a
      word is non-empty; each derived tier has the kind of the tier it comes
      from (an empty point tier yields empty point tiers); stress, emphasis
      and comment are empty and span [0, maxTimestamp]. */
  lemma ModifiedTiersContent(trans: Tier, word: Tier, maxT: real, translate: string -> string)
    requires Unpacks(trans) && Unpacks(word)
    ensures var six := Appended(trans, word, maxT, translate);
      Unpacks(six[0]) && Unpacks(six[1]) && Unpacks(six[2]) &&
      six[0].IntervalTier? == trans.IntervalTier? && Entries(six[0]) == Entries(trans) &&
      six[0].minT == trans.minT && six[0].maxT == trans.maxT &&
      six[1].IntervalTier? == trans.IntervalTier? && six[1].minT == trans.minT && six[1].maxT == trans.maxT &&
      Spans(Entries(six[1])) == Spans(Entries(trans)) &&
      (forall i :: 0 <= i < |Entries(trans)| && Entries(trans)[i].text == "" ==> Entries(six[1])[i].text == "") &&
      six[2].IntervalTier? == word.IntervalTier? && six[2].minT == word.minT && six[2].maxT == word.maxT &&
      Spans(Entries(six[2])) == Spans(Entries(word)) &&
      (forall i :: 0 <= i < |Entries(word)| ==>
        (Entries(six[2])[i].text == "σ" <==> Entries(word)[i].text != "") &&
        (Entries(six[2])[i].text == "" <==> Entries(word)[i].text == "")) &&
      six[3] == PointTier(StressName, 0.0, maxT, []) &&
      six[4] == PointTier(EmphasisName, 0.0, maxT, []) &&
      six[5] == IntervalTier(CommentName, 0.0, maxT, [])
  {
    Labels.TranslationTier(Entries(trans), translate, translate);
    ProsodicWordTier(Entries(word));
  }

  lemma AlignerReady(phone: Tier, word: Tier, trans: Tier)
    requires phone.name == PhoneIn && word.name == WordIn && trans.name == TransIn
    requires Unpacks(word) && Unpacks(trans)
    ensures UniqueNames([phone, word, trans]) && ScriptReady([phone, word, trans])
  {
    var ts := [phone, word, trans];
    assert Names(ts) == [PhoneIn, WordIn, TransIn];
    assert UniqueNames(ts);
    UniqueNameFind(ts, word);
    UniqueNameFind(ts, trans);
    AbsentByLength(ts, "phone");
    AbsentByLength(ts, "word");
    AbsentByLength(ts, RealizationName);
    AbsentByLength(ts, TranslationName);
    AbsentByLength(ts, UnitName);
    AbsentByLength(ts, StressName);
    AbsentByLength(ts, EmphasisName);
    AbsentByLength(ts, CommentName);
  }

  /** The aligner's names are 18 or 19 characters long, so no name of
      another length is among them. */
  lemma AbsentByLength(ts: seq<Tier>, n: string)
    requires Names(ts) == [PhoneIn, WordIn, TransIn]
    requires |n| != 18 && |n| != 19
    ensures n !in Names(ts)
  {
    assert |PhoneIn| == 19 && |WordIn| == 18 && |TransIn| == 19;
  }

  lemma AlignerKept(phone: Tier, word: Tier, trans: Tier)
    requires phone.name == PhoneIn && word.name == WordIn && trans.name == TransIn
    ensures Names(Kept([phone, word, trans])) == ["phone", "word"]
  {
    var ts := [phone, word, trans];
    var a := [WithName(phone, "phone"), WithName(word, "word"), trans];
    assert Aligned(ts) == a;
    assert Drop([trans], TransIn) == [] by {
      assert [trans][1..] == [];
    }
    assert a[1..][1..] == [trans];
    assert Drop(a[1..], TransIn) == [WithName(word, "word")];
    assert Kept(ts) == [WithName(phone, "phone"), WithName(word, "word")];
  }

  /** The aligner's three tiers, in its order, become phone, word,
      realization, translation (Google), prosodic unit, stress (PS|SS|0),
      emphasis (E) and comment. */
  lemma AlignerOutput(phone: Tier, word: Tier, trans: Tier, maxT: real, translate: string -> string)
    requires phone.name == PhoneIn && word.name == WordIn && trans.name == TransIn
    requires Unpacks(word) && Unpacks(trans)
    ensures ModifiedLayout([phone, word, trans], maxT, translate).Ok?
    ensures Names(ModifiedLayout([phone, word, trans], maxT, translate).value) == ["phone", "word"] + NewNames()
  {
    var ts := [phone, word, trans];
    assert UniqueNames(ts) && ModifiedLayout(ts, maxT, translate).Ok? by {
      AlignerReady(phone, word, trans);
      ModifiedLayoutResult(ts, maxT, translate);
    }
    AlignerKept(phone, word, trans);
    ModifiedLayoutNames(ts, maxT, translate);
  }
}
