# TextGrid scripts: a verified model

The TextGrid scripts are three batch programs that prepare Praat TextGrid
annotation files for a speech corpus.

- **TextGrid_script.py** has two phases, each switched on by a yes/no prompt.
  - Phase 1 goes through the ".wav" files. It groups the rows of `realization.csv` by (audio file, participant). For each group that names the current file, it inserts the group's rows into that file's "realization" tier and saves "<name>.TextGrid". A ".wav" file that no row names gets no TextGrid; one named by several groups is saved once per group.
  - Phase 2 rewrites the output of a forced aligner into the annotation layout, in this order:
    - it renames the aligner's phone and word tiers;
    - it turns the transcription tier into "realization";
    - it adds a Google translation of that tier;
    - it adds a syllable ("σ") tier derived from the words;
    - it adds empty stress, emphasis and comment tiers.
- **TextGrid_Prosodic_Annotation.py** takes the "word" and "phone" tiers out of each TextGrid. It puts them back below a stress tier and a "prosodic unit" copy of the words, then adds empty emphasis and comment tiers.
- **CSVtoTextGrid.py** writes one TextGrid per participant of a response CSV. Each file has a single "response" tier with one interval per row.

The model is split into modules:

- `TextGridModel` (textgrid.dfy) holds tiers, intervals and points.
  - A document is an ordered sequence of uniquely named tiers.
  - The library calls the scripts make (`addTier`, `removeTier`, `renameTier`, `getTier`, `tier.new`) are stated as pure functions. These are the assumptions the scripts rely on.
  - The `Document` class performs those calls in place on its `tiers` field.
  - Library exceptions are `Result` errors, and an error aborts the run.
- `Labels` (labels.dfy) holds the label mappers and the list comprehensions that derive a tier from another by rewriting labels only.
- `Paths` (paths.dfy) covers:
  - `os.path.splitext` and the exact-match extension filters;
  - the `".TextGrid"` output names;
  - the decimal-comma replacement;
  - the `answer.lower().strip() == "y"` prompt test.
- `FileLoop` (file_loop.dfy) is the loop both modification scripts run over a directory listing. Each ".TextGrid" name is opened, rewritten and saved under the same name. The first file whose calls raise ends the run.
- `Grouping` (grouping.dfy) is the loop that groups CSV rows into an insertion-ordered dictionary. The dictionary is modelled as its key order plus a map.
- `ScriptGenerate` (script_generate.dfy) and `ScriptModify` (script_modify.dfy) are the two phases of TextGrid_script.py.
- `ProsodicAnnotation` (prosodic_annotation.dfy) is TextGrid_Prosodic_Annotation.py.
- `CsvToTextGrid` (csv_to_textgrid.dfy) is CSVtoTextGrid.py.

Each state-changing step is a method. Its contract ties the new state or the result to a specification function, such as `ModifiedLayout`, `ProsodicLayout`, `SavesFor` or `FilesFor`. Lemmas then state what those functions promise.

The scripts make several consecutive `addTier` calls with nothing in between (TextGrid_script.py:296-298, TextGrid_Prosodic_Annotation.py:124-137). They are performed by the `Document.AddTiers` loop: one `addTier` per tier, in the same order, stopping at the first that raises.

## Model

| member | source | states |
|---|---|---|
| TextGridModel.IntervalsOf | TextGrid_script.py:263 | unpacking `tier.entries` as (start, stop, label) succeeds exactly for an interval tier or a tier without entries, and yields the interval entries (none for an empty point tier) |
| TextGridModel.Derived | TextGrid_script.py:273-274 | `tier.new(name=..., entries=...)` keeps the kind and the bounds; an interval tier gets the given entries, and an empty point tier stays empty |
| TextGridModel.WithName | TextGrid_script.py:259 | `tier.new(name=...)` yields the same kind of tier, with the same bounds and entries, under the new name |
| TextGridModel.AddTierAppends | TextGrid_script.py:265 | addTier succeeds exactly when the name is free; it then appends the tier at the end, and names stay unique |
| TextGridModel.RemoveTierKeepsOthers | TextGrid_Prosodic_Annotation.py:111-112 | removeTier succeeds exactly when the name is present; it returns that tier and leaves every other tier, in order (the reference `Drop`) |
| TextGridModel.RenameTierKeepsPosition | TextGrid_script.py:249-254 | renameTier succeeds exactly when the old name exists and the new one is free; the tier keeps its index and entries, and every other tier is unchanged |
| TextGridModel.RenameIsRenamed | TextGrid_script.py:249-254 | on unique names, renameTier agrees with the reference definition `Renamed` and keeps names unique |
| TextGridModel.RenamedNames | TextGrid_script.py:249-254 | after a rename, the names present are the new name and the old names other than the renamed one |
| TextGridModel.FindTierFinds | TextGrid_script.py:255-258 | getTier succeeds exactly when the name is present, and returns a tier of the document with that name |
| TextGridModel.AddEachFresh | TextGrid_script.py:296-298 | a run of addTier calls succeeds exactly when all names stay unique, and it appends the tiers in call order |
| TextGridModel.AddEachNeedsFresh | TextGrid_Prosodic_Annotation.py:124-137 | a run of appends that does not raise only added names that were free |
| TextGridModel.Document.AddTier | TextGrid_script.py:265 | in place: the new tier list is the appended one on success, or unchanged on failure; names stay unique |
| TextGridModel.Document.AddTiers | TextGrid_script.py:296-298 | in place: succeeds exactly when the run of appends does, leaving the appended tier list |
| TextGridModel.Document.RemoveTier | TextGrid_script.py:266 | in place: returns the removed tier, and the other tiers remain in order |
| TextGridModel.Document.RenameTier | TextGrid_script.py:249-250 | in place: the renamed tier list on success, or unchanged on failure |
| Labels.ProsodicWord | TextGrid_script.py:94-97 | the label is empty exactly when the word is empty; otherwise it is "σ" |
| Labels.ProsodicUnit | TextGrid_Prosodic_Annotation.py:76-79 | both branches give back the label, so the mapper is the identity |
| Labels.TranslateEntry | TextGrid_script.py:102-107 | an empty label is returned unchanged whatever the translator does; any other label is the translator's output |
| Labels.Relabel | TextGrid_script.py:269-272 | the derived entries have the same count and the same start and stop at every index; only the label is mapped |
| Labels.RelabelKeepsSpans | TextGrid_script.py:269-282 | a derived tier has exactly the (start, stop) spans of its source |
| Labels.ProsodicWordTier | TextGrid_script.py:279-282 | the prosodic-unit tier keeps the word spans; a label is empty exactly where the word is empty, and is "σ" elsewhere |
| Labels.TranslationTier | TextGrid_script.py:269-274 | the translation tier keeps the spans; empty labels stay empty; translators that agree on the non-empty labels give the same tier |
| Labels.ProsodicUnitTierCopiesWords | TextGrid_Prosodic_Annotation.py:120-123 | the prosodic-unit entries equal the word entries |
| Labels.ProsodicUnitIdempotent | TextGrid_Prosodic_Annotation.py:76-79 | mapping with prosodic_unit twice equals mapping once |
| Paths.SplitExt | TextGrid_script.py:155 | splitext splits the name into stem + extension; the extension is empty, or a dot with no dot or slash after it behind a stem that has a base character |
| Paths.SplitExtOfJoin | TextGrid_script.py:155 | splitext recovers any stem and extension joined together |
| Paths.WavFilterExact | TextGrid_script.py:155-157 | a file is processed exactly when it is a stem with a base character followed by ".wav" (case-sensitive) |
| Paths.TextGridName | TextGrid_script.py:203 | the output name is the name followed by ".TextGrid" |
| Paths.GeneratedNameIsTextGrid | TextGrid_script.py:203 | the file generated for "<name>.wav" splits into ("<name>", ".TextGrid"), so phase 2's filter accepts it |
| Paths.TextGridNameInjective | CSVtoTextGrid.py:78-80 | two participants get the same file name exactly when they are the same |
| Paths.ReplaceCommas | TextGrid_script.py:194-195 | every "," becomes "." and every other character is kept |
| Paths.ReplaceCommasNormalises | TextGrid_script.py:194-195 | no comma is left, the replacement is idempotent, and a comma-free duration is unchanged |
| Paths.PromptEnabledIff | TextGrid_script.py:83-88 | a phase runs exactly when the answer is a single 'y' or 'Y' surrounded only by whitespace |
| Paths.EmptyAnswerDisables | TextGrid_script.py:83-85 | an empty answer disables a phase despite the "[y]" hint |
| Paths.YesDisables | TextGrid_script.py:83-85 | the answer "yes" disables a phase |
| Paths.SpacedYEnables | TextGrid_script.py:83-85 | " Y" followed by a newline enables a phase |
| Grouping.Keys | CSVtoTextGrid.py:55-57 | the dictionary keys are distinct, and they are exactly the key values occurring in the rows (their order is `KeysFirstOccurrence`) |
| Grouping.KeysFirstOccurrence | TextGrid_script.py:177-184 | insertion order: a key placed before another first occurs in a row before any row holding the later key (also CSVtoTextGrid.py:52-57) |
| Grouping.Select | CSVtoTextGrid.py:57 | a group holds only rows of the data that carry its key |
| Grouping.GroupBy | TextGrid_script.py:177-184 | the loop (also CSVtoTextGrid.py:52-57, keyed by participant) builds the keys of `Keys`, in first-occurrence order, and each key's group is its rows in file order |
| Grouping.SelectAppend | CSVtoTextGrid.py:53-57 | rows keep file order: the group of a concatenation is the concatenation of the groups |
| Grouping.RowInOwnGroup | CSVtoTextGrid.py:53-57 | every row is in the group of its own key |
| Grouping.GroupsNonEmpty | CSVtoTextGrid.py:55-57 | no group of a key is empty |
| Grouping.GatherIsPermutation | TextGrid_script.py:187-189 | the groups of distinct keys, taken one after another, are a reordering of the rows with those keys |
| Grouping.GroupsPartitionRows | CSVtoTextGrid.py:52-57 | all groups together are a reordering of the rows: every row is in exactly one group |
| ScriptGenerate.InsertedEntry | TextGrid_script.py:192-197 | each entry is (0, the duration parsed after replacing commas, the realization) |
| ScriptGenerate.Inserted | TextGrid_script.py:192-200 | one entry per row, in row order |
| ScriptGenerate.ForAudioMembers | TextGrid_script.py:187-189 | a group is visited exactly when its audio_filename is the file's name; distinct keys stay distinct |
| ScriptGenerate.InsertRows | TextGrid_script.py:192-200 | the insertEntry loop appends one entry per row of the group to the tier's entries |
| ScriptGenerate.GenerateFor | TextGrid_script.py:167-206 | the saves for one audio file are those of `SavesFor` over the dictionary's key order |
| ScriptGenerate.GenerateAll | TextGrid_script.py:154-206 | the whole phase runs over the ".wav" files in listing order |
| ScriptGenerate.SavesShape | TextGrid_script.py:167-174 | there is one save per group of the file; each save is "<name>.TextGrid" with the single "realization" tier spanning [0, duration] |
| ScriptGenerate.SavedIffRows | TextGrid_script.py:187-206 | a TextGrid is written for an audio file exactly when some row names that file |
| ScriptGenerate.LastSaveHoldsFileRows | TextGrid_script.py:187-206 | the last save holds one entry per row of the audio file, each row exactly once |
| ScriptGenerate.SavedNames | TextGrid_script.py:154-203 | every written file is "<name>.TextGrid" for a listed "<name>.wav", a name phase 2 accepts |
| ScriptModify.ModifyTextGrid | TextGrid_script.py:248-298 | in place: the calls of one file succeed exactly when `ModifiedLayout` does, leaving its tier list |
| ScriptModify.RenamesSucceed | TextGrid_script.py:249-254 | both renames succeed exactly when both aligner tiers exist and "phone" and "word" are free |
| ScriptModify.ModifiedLayoutResult | TextGrid_script.py:248-298 | the run succeeds exactly when the three aligner tiers exist, "phone" and "word" are free, the word and transcription tiers are interval tiers or tiers without entries, and no new name is taken; the result is then the kept tiers (renamed in place, all else unchanged, in order) followed by the six new tiers |
| ScriptModify.ModifiedLayoutNames | TextGrid_script.py:248-298 | final names: the kept names in order, then realization, translation (Google), prosodic unit, stress (PS\|SS\|0), emphasis (E), comment; all distinct; no "realization - trans" remains |
| ScriptModify.ModifiedTiersContent | TextGrid_script.py:257-298 | each derived tier has its source's kind and bounds; realization has the transcription's entries; the translation keeps its spans and empty labels; the prosodic unit keeps the word spans and holds "σ" exactly where a word is non-empty; stress, emphasis and comment are empty over [0, maxTimestamp] |
| ScriptModify.AlignerKept | TextGrid_script.py:249-266 | for the aligner's three tiers, the kept names are phone, word |
| ScriptModify.AlignerOutput | TextGrid_script.py:228-298 | for the aligner's three tiers, the run succeeds with names phone, word, realization, translation (Google), prosodic unit, stress (PS\|SS\|0), emphasis (E), comment |
| ScriptModify.ModifyAll | TextGrid_script.py:234-307 | the loop over the listing does what `RunFiles` states for the ".TextGrid" names with `ModifiedLayout` as the rewrite: saves in listing order up to the first file that raises |
| FileLoop.ListedMembers | TextGrid_script.py:235-238 | the loop visits exactly the listed names whose extension is ".TextGrid" (likewise TextGrid_Prosodic_Annotation.py:97-100) |
| FileLoop.ListedAppend | TextGrid_script.py:235-238 | the extension filter keeps listing order |
| FileLoop.RunFilesStopsAtFirstError | TextGrid_script.py:235-307 | each file is saved under its own name with its rewritten tiers, in order, up to the first file whose calls raise; the run ends early exactly when such a file exists, and then it is the next file (likewise TextGrid_Prosodic_Annotation.py:97-146) |
| FileLoop.RunFilesFailedStays | TextGrid_script.py:235-307 | once a file has raised, the files after it change nothing |
| ProsodicAnnotation.AddProsodicTiers | TextGrid_Prosodic_Annotation.py:110-137 | in place: the calls of one file succeed exactly when `ProsodicLayout` does, leaving its tier list |
| ProsodicAnnotation.OthersFacts | TextGrid_Prosodic_Annotation.py:111-112 | the tiers left after both removals are exactly those not called "word" or "phone", with unique names |
| ProsodicAnnotation.ProsodicLayoutResult | TextGrid_Prosodic_Annotation.py:110-137 | the run succeeds exactly when "word" and "phone" exist, "word" is an interval tier or a tier without entries, and no new name is taken; the result is then the other tiers, unchanged and in order, followed by the six new tiers, with word and phone as removed |
| ProsodicAnnotation.ProsodicLayoutNames | TextGrid_Prosodic_Annotation.py:110-137 | final names: the other names in order, then stress (S\|SS\|0), prosodic unit, word, phone, emphasis (E), comment; all distinct |
| ProsodicAnnotation.AppendedNames | TextGrid_Prosodic_Annotation.py:114-137 | the six appended tiers carry the six names in call order, all distinct |
| ProsodicAnnotation.NewTiersContent | TextGrid_Prosodic_Annotation.py:114-137 | the prosodic unit is the word tier under a new name; word and phone are reinserted as removed; stress, emphasis and comment are empty and span [0, maxTimestamp] |
| ProsodicAnnotation.EmptyPointWord | TextGrid_Prosodic_Annotation.py:110-137 | a "word" point tier without entries does not stop the run: the prosodic unit is an empty point tier with the word's bounds |
| ProsodicAnnotation.AnnotateAll | TextGrid_Prosodic_Annotation.py:97-146 | the loop over the listing does what `RunFiles` states for the ".TextGrid" names with `ProsodicLayout` as the rewrite: saves in listing order up to the first file that raises |
| CsvToTextGrid.ResponseIntervals | CSVtoTextGrid.py:68-72 | one add (start_time, end_time, response) per row, in row order |
| CsvToTextGrid.ResponseTier | CSVtoTextGrid.py:64-72 | the add loop leaves the "response" tier holding one interval per row, in row order |
| CsvToTextGrid.FilesFor | CSVtoTextGrid.py:60-81 | one file per participant, in the given order |
| CsvToTextGrid.ConvertAll | CSVtoTextGrid.py:52-81 | the files written are those of `FilesFor` over the participants in first-appearance order |
| CsvToTextGrid.OneFilePerParticipant | CSVtoTextGrid.py:60-81 | every row's participant gets "<participant>.TextGrid"; the file names are pairwise different; each file has the single tier "response" |
| CsvToTextGrid.ResponsesOfOneParticipant | CSVtoTextGrid.py:68-72 | a participant's tier gets one add per row of theirs, in row order, and nothing from other participants |
| CsvToTextGrid.AllAddsOfFiles | CSVtoTextGrid.py:60-75 | the adds over all files are the intervals of the groups, taken one after another |
| CsvToTextGrid.EveryRowWrittenOnce | CSVtoTextGrid.py:52-81 | across all files, every CSV row is written exactly once |
| CsvToTextGrid.SingleRow | CSVtoTextGrid.py:60-81 | a CSV of a single row gives the one file "<participant>.TextGrid" whose response tier holds exactly that row's (start_time, end_time, response) |

## Left out

- Reading and writing TextGrid files is not part of this model: praatio's `openTextgrid` and `save`, and the `textgrid` package's `write`. A saved file is modelled by its name and its tier list.
- The four praatio calls are assumptions stated as functions, because praatio's source is not part of this model:
  - addTier refuses a name already present;
  - removeTier and getTier fail on a missing name;
  - renameTier fails on a missing old name or a taken new one.
- TextGridModel.Document.AddTier: keeps `maxTimestamp` unchanged. Whether praatio widens it when a longer tier is added is not modelled.
- After a single praatio call that raises, `Document.AddTier`, `Document.RemoveTier` and `Document.RenameTier` leave the tier list unchanged. This is an assumption about praatio.
- TextGridModel.Document.AddTiers: states nothing about the tier list once one of its `addTier` calls raises. The tiers added before that call are not described.
- The layout functions and `RunFiles` record only that a call raised: an `Err`, or `finished` false. The exception ends the script, so nothing reads the document afterwards. `ModifyAll` and `AnnotateAll` stop at that file and save nothing more.
- `openTextgrid` becomes the `open` parameter. It is assumed to yield tiers with distinct names, as `addTier` refuses a name already present.
- ffmpeg's duration probe is not modelled. It becomes the `durationOf` parameter, and the duration is a `real`.
- The googletrans call is not modelled. It becomes the `translate` parameter (source "no", target "en").
- In phase 1, `float(...)` on the duration text (TextGrid_script.py:194-195) is ScriptGenerate's `parse` parameter. A failed parse (ValueError) is not modelled.
- In CSVtoTextGrid.py, the rows arrive with `start_time` and `end_time` already as reals, so `float(...)` (CSVtoTextGrid.py:69-70) and its ValueError are not modelled.
- The `str(float(...))` conversion of the duration is not modelled. Times are `real`, so floating point is absent.
- The collision, sorting and merge rules of `insertEntry` and `IntervalTier.add` belong to the libraries and are not modelled. The model records the sequence of inserted or added entries in call order.
- Filesystem work is not modelled: `os.listdir` (its order is unspecified, so the listing is a parameter), `os.mkdir`, `os.path.exists`, `join`, the hard-coded paths and CSV parsing. Rows arrive already split into columns.
- The interactive `input()` call is not modelled. Only the predicate on the answer string is.
- `str.lower` and `str.strip` are modelled for ASCII only, and `splitext` for the POSIX '/' separator only.
- The first computation of the translation entries (TextGrid_script.py:260-263) is dropped. Its result is recomputed before use, so it has no effect on the output.
- Generation writes one file per group, and the tier object is shared by all groups of an audio file. Each save therefore holds the entries of every group handled so far, and the last save is what remains on disk. ScriptGenerate.SavesFor records every save, not only the last one.
- The printed progress messages are not modelled.
