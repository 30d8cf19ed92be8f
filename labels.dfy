/** Label mappers and the bound-preserving list comprehensions that derive a
    new interval tier from an existing one: every `(start, stop)` is kept and
    only the label is rewritten. */
module Labels {
  import opened TextGridModel

  /** `prosodic_word` (TextGrid_script.py): a syllable mark for any non-empty word. */
  function ProsodicWord(s: string): (r: string)
    ensures r == "" <==> s == ""
    ensures r != "" ==> r == "σ"
  {
    if s == "" then "" else "σ"
  }

  /** `prosodic_unit` (TextGrid_Prosodic_Annotation.py). Both of its branches
      return the label it was given, so the mapper is the identity. */
  function ProsodicUnit(s: string): (r: string)
    ensures r == s
  {
    if s == "" then "" else s
  }

  /** `translate_entry`: an empty label is returned as is, whatever the
      translator; any other label is handed to `translate`, which stands for
      the Google Translate call. */
  function TranslateEntry(s: string, translate: string -> string): (r: string)
    ensures s == "" ==> r == ""
    ensures s != "" ==> r == translate(s)
  {
    if s == "" then s else translate(s)
  }

  /** `[(start, stop, f(label)) for start, stop, label in entries]`. */
  function Relabel(es: seq<Interval>, f: string -> string): (r: seq<Interval>)
    ensures |r| == |es|
    ensures forall i :: 0 <= i < |es| ==>
      r[i].start == es[i].start && r[i].stop == es[i].stop && r[i].text == f(es[i].text)
  {
    if es == [] then [] else [Interval(es[0].start, es[0].stop, f(es[0].text))] + Relabel(es[1..], f)
  }

  /** The `(start, stop)` pairs of a tier's entries, in order. */
  function Spans(es: seq<Interval>): (r: seq<(real, real)>)
    ensures |r| == |es|
    ensures forall i :: 0 <= i < |es| ==> r[i] == (es[i].start, es[i].stop)
  {
    if es == [] then [] else [(es[0].start, es[0].stop)] + Spans(es[1..])
  }

  /** A derived tier has exactly the spans of its source tier. */
  lemma RelabelKeepsSpans(es: seq<Interval>, f: string -> string)
    ensures Spans(Relabel(es, f)) == Spans(es)
  {
  }

  /** The "prosodic unit" tier of TextGrid_script.py: one σ per non-empty word,
      empty where the word tier is empty. */
  lemma ProsodicWordTier(es: seq<Interval>)
    ensures Spans(Relabel(es, ProsodicWord)) == Spans(es)
    ensures forall i :: 0 <= i < |es| ==>
      (Relabel(es, ProsodicWord)[i].text == "" <==> es[i].text == "") &&
      (es[i].text != "" ==> Relabel(es, ProsodicWord)[i].text == "σ")
  {
  }

  /** The "prosodic unit" tier of TextGrid_Prosodic_Annotation.py is an exact
      copy of the word entries. */
  lemma {:induction false} ProsodicUnitTierCopiesWords(es: seq<Interval>)
    ensures Relabel(es, ProsodicUnit) == es
  {
    if es != [] {
      ProsodicUnitTierCopiesWords(es[1..]);
    }
  }

  /** Mapping with prosodic_unit twice is the same as mapping once. */
  lemma ProsodicUnitIdempotent(es: seq<Interval>)
    ensures Relabel(Relabel(es, ProsodicUnit), ProsodicUnit) == Relabel(es, ProsodicUnit)
  {
    ProsodicUnitTierCopiesWords(es);
    ProsodicUnitTierCopiesWords(Relabel(es, ProsodicUnit));
  }

  /** The translation tier: empty labels stay empty whatever the translator
      does, and two translators that agree on the non-empty labels give the
      same tier. */
  lemma TranslationTier(es: seq<Interval>, tr1: string -> string, tr2: string -> string)
    ensures Spans(Relabel(es, s => TranslateEntry(s, tr1))) == Spans(es)
    ensures forall i :: 0 <= i < |es| && es[i].text == "" ==>
      Relabel(es, s => TranslateEntry(s, tr1))[i].text == ""
    ensures (forall i :: 0 <= i < |es| && es[i].text != "" ==> tr1(es[i].text) == tr2(es[i].text)) ==>
      Relabel(es, s => TranslateEntry(s, tr1)) == Relabel(es, s => TranslateEntry(s, tr2))
  {
  }
}
