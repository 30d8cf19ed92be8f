/** The in-memory annotation document the scripts edit through praatio: an
    ordered sequence of uniquely named tiers plus the document's maximum
    timestamp.  praatio itself is not part of this model; the pure functions
    WithTierAdded, WithoutTier, WithTierRenamed and FindTier state what the
    scripts assume of its addTier, removeTier, renameTier and getTier, and the
    Document class performs those steps in place. */
module TextGridModel {

  datatype Option<T> = None | Some(value: T)

  /** One labelled span `(start, stop, label)` of an interval tier. */
  datatype Interval = Interval(start: real, stop: real, text: string)

  /** One labelled instant `(time, label)` of a point tier. */
  datatype Point = Point(time: real, text: string)

  datatype Tier =
    | IntervalTier(name: string, minT: real, maxT: real, intervals: seq<Interval>)
    | PointTier(name: string, minT: real, maxT: real, points: seq<Point>)

  /** The exceptions praatio raises, each of which aborts a script run. */
  datatype TierError =
    | NotFound(missing: string)
    | Duplicate(clash: string)
    | NotIntervals(tierName: string)

  datatype Result<T> = Ok(value: T) | Err(error: TierError) {
    predicate IsFailure() { Err? }

    function PropagateFailure<U>(): Result<U>
      requires Err?
    {
      Err(error)
    }

    function Extract(): T
      requires Ok?
    {
      value
    }
  }

  /** The tier names in document (display) order. */
  function Names(ts: seq<Tier>): (ns: seq<string>)
    ensures |ns| == |ts|
    ensures forall i :: 0 <= i < |ts| ==> ns[i] == ts[i].name
  {
    if ts == [] then [] else Names(ts[..|ts| - 1]) + [ts[|ts| - 1].name]
  }

  predicate UniqueNames(ts: seq<Tier>)
  {
    forall i, j :: 0 <= i < j < |ts| ==> ts[i].name != ts[j].name
  }

  predicate Distinct<T(==)>(s: seq<T>)
  {
    forall i, j :: 0 <= i < j < |s| ==> s[i] != s[j]
  }

  /** Position of the first tier called `name`, if any. */
  function IndexOf(ts: seq<Tier>, name: string): (r: Option<nat>)
    ensures r.Some? ==> r.value < |ts| && ts[r.value].name == name
    ensures r.Some? ==> forall j :: 0 <= j < r.value ==> ts[j].name != name
    ensures r.None? <==> name !in Names(ts)
  {
    var r := IndexFrom(ts, name, 0);
    assert r.None? ==> name !in Names(ts) by {
      if r.None? {
        forall k | 0 <= k < |ts| ensures Names(ts)[k] != name {
        }
      }
    }
    r
  }

  /** The scan of `IndexOf` from position `i` on. */
  function IndexFrom(ts: seq<Tier>, name: string, i: nat): (r: Option<nat>)
    requires i <= |ts|
    ensures r.Some? ==> i <= r.value < |ts| && ts[r.value].name == name
    ensures r.Some? ==> forall j :: i <= j < r.value ==> ts[j].name != name
    ensures r.None? ==> forall j :: i <= j < |ts| ==> ts[j].name != name
    decreases |ts| - i
  {
    if i == |ts| then None
    else if ts[i].name == name then Some(i)
    else IndexFrom(ts, name, i + 1)
  }

  /** Whether `for start, stop, label in tier.entries` gets through the tier:
      an interval tier's entries unpack into three values, a point tier's
      (time, label) entries do not, and a tier without entries runs the loop
      zero times. */
  predicate Unpacks(t: Tier)
  {
    t.IntervalTier? || t.points == []
  }

  /** The (start, stop, label) entries of a tier; a point tier has none of that shape. */
  function Entries(t: Tier): seq<Interval>
  {
    if t.IntervalTier? then t.intervals else []
  }

  /** `for start, stop, label in tier.entries`, or the error the unpacking raises. */
  function IntervalsOf(t: Tier): (r: Result<seq<Interval>>)
    ensures r.Ok? <==> Unpacks(t)
    ensures r.Ok? ==> r.value == Entries(t)
  {
    if t.IntervalTier? then Ok(t.intervals)
    else if t.points == [] then Ok([])
    else Err(NotIntervals(t.name))
  }

  /** praatio's `tier.new(name=n, entries=es)` with entries computed from `t`:
      a tier of the same kind and bounds. A point tier gets here only when it
      has no entries, and then stays empty. */
  function Derived(t: Tier, n: string, es: seq<Interval>): (r: Tier)
    ensures r.name == n && r.minT == t.minT && r.maxT == t.maxT
    ensures r.IntervalTier? == t.IntervalTier?
    ensures r.IntervalTier? ==> r.intervals == es
    ensures r.PointTier? ==> r.points == []
  {
    if t.IntervalTier? then IntervalTier(n, t.minT, t.maxT, es) else PointTier(n, t.minT, t.maxT, [])
  }

  /** Reference definition: the tiers not called `name`, in their order. */
  function Drop(ts: seq<Tier>, name: string): seq<Tier>
  {
    if ts == [] then []
    else if ts[0].name == name then Drop(ts[1..], name)
    else [ts[0]] + Drop(ts[1..], name)
  }

  /** Assumed `Textgrid.addTier(t)`: appends at the end, refusing a name already present. */
  function WithTierAdded(ts: seq<Tier>, t: Tier): Result<seq<Tier>>
  {
    if t.name in Names(ts) then Err(Duplicate(t.name)) else Ok(ts + [t])
  }

  /** Successive `addTier` calls, stopping at the first that fails. */
  function AddEach(ts: seq<Tier>, news: seq<Tier>): Result<seq<Tier>>
    decreases |news|
  {
    if news == [] then Ok(ts)
    else
      var s :- WithTierAdded(ts, news[0]);
      AddEach(s, news[1..])
  }

  /** Assumed `Textgrid.getTier(name)`. */
  function FindTier(ts: seq<Tier>, name: string): Result<Tier>
  {
    match IndexOf(ts, name)
    case None => Err(NotFound(name))
    case Some(i) => Ok(ts[i])
  }

  /** Assumed `Textgrid.removeTier(name)`: the removed tier and the remaining tiers. */
  function WithoutTier(ts: seq<Tier>, name: string): Result<(Tier, seq<Tier>)>
  {
    match IndexOf(ts, name)
    case None => Err(NotFound(name))
    case Some(i) => Ok((ts[i], ts[..i] + ts[i + 1..]))
  }

  /** The same tier under another name (praatio's `tier.new(name=...)`). */
  function WithName(t: Tier, n: string): (r: Tier)
    ensures r.name == n && r.minT == t.minT && r.maxT == t.maxT
    ensures r.IntervalTier? == t.IntervalTier?
    ensures r.IntervalTier? ==> r.intervals == t.intervals
    ensures r.PointTier? ==> r.points == t.points
  {
    t.(name := n)
  }

  /** Assumed `Textgrid.renameTier(oldName, newName)`: the tier keeps its place. */
  function WithTierRenamed(ts: seq<Tier>, oldName: string, newName: string): Result<seq<Tier>>
  {
    match IndexOf(ts, oldName)
    case None => Err(NotFound(oldName))
    case Some(i) =>
      if newName != oldName && newName in Names(ts) then Err(Duplicate(newName))
      else Ok(ts[i := WithName(ts[i], newName)])
  }

  /** Reference definition: every tier called `o` is called `n` instead. */
  function Renamed(ts: seq<Tier>, o: string, n: string): seq<Tier>
  {
    seq(|ts|, i requires 0 <= i < |ts| => if ts[i].name == o then WithName(ts[i], n) else ts[i])
  }

  lemma AddTierAppends(ts: seq<Tier>, t: Tier)
    requires UniqueNames(ts)
    ensures WithTierAdded(ts, t).Ok? <==> t.name !in Names(ts)
    ensures WithTierAdded(ts, t).Ok? ==>
      UniqueNames(WithTierAdded(ts, t).value) &&
      Names(WithTierAdded(ts, t).value) == Names(ts) + [t.name]
  {
    if t.name !in Names(ts) {
      var us := ts + [t];
      forall i | 0 <= i < |ts| ensures Names(us)[i] == Names(ts)[i] {
      }
    }
  }

  lemma FindTierFinds(ts: seq<Tier>, name: string)
    ensures FindTier(ts, name).Ok? <==> name in Names(ts)
    ensures FindTier(ts, name).Ok? ==>
      FindTier(ts, name).value in ts && FindTier(ts, name).value.name == name
  {
  }

  lemma {:induction false} DropMembers(ts: seq<Tier>, name: string)
    ensures forall t :: t in Drop(ts, name) <==> t in ts && t.name != name
  {
    if ts != [] {
      DropMembers(ts[1..], name);
    }
  }

  lemma {:induction false} DropUnique(ts: seq<Tier>, name: string)
    requires UniqueNames(ts)
    ensures UniqueNames(Drop(ts, name))
  {
    if ts != [] {
      var rest := Drop(ts[1..], name);
      DropUnique(ts[1..], name);
      if ts[0].name != name {
        DropMembers(ts[1..], name);
        forall j | 0 <= j < |rest| ensures rest[j].name !in Names([ts[0]]) {
          assert rest[j] in ts[1..];
          var k :| 0 <= k < |ts[1..]| && ts[1..][k] == rest[j];
          assert ts[k + 1] == rest[j];
        }
        UniqueConcat([ts[0]], rest);
      }
    }
  }

  lemma DropRemovesName(ts: seq<Tier>, name: string)
    requires UniqueNames(ts)
    ensures UniqueNames(Drop(ts, name))
    ensures name !in Names(Drop(ts, name))
    ensures forall t :: t in Drop(ts, name) <==> t in ts && t.name != name
  {
    var d := Drop(ts, name);
    DropMembers(ts, name);
    DropUnique(ts, name);
    forall i | 0 <= i < |d| ensures Names(d)[i] != name {
      assert d[i] in d;
    }
  }

  /** removeTier returns the named tier and leaves the others, in order. */
  lemma {:induction false} RemoveTierKeepsOthers(ts: seq<Tier>, name: string)
    requires UniqueNames(ts)
    ensures WithoutTier(ts, name).Ok? <==> name in Names(ts)
    ensures WithoutTier(ts, name).Ok? ==>
      WithoutTier(ts, name).value.0.name == name &&
      WithoutTier(ts, name).value.0 in ts &&
      WithoutTier(ts, name).value.1 == Drop(ts, name) &&
      UniqueNames(WithoutTier(ts, name).value.1) &&
      name !in Names(WithoutTier(ts, name).value.1)
  {
    if name in Names(ts) {
      var i := IndexOf(ts, name).value;
      DropBeforeAndAfter(ts, name, i);
      DropRemovesName(ts, name);
    }
  }

  lemma {:induction false} DropBeforeAndAfter(ts: seq<Tier>, name: string, i: nat)
    requires UniqueNames(ts)
    requires i < |ts| && ts[i].name == name
    ensures Drop(ts, name) == ts[..i] + ts[i + 1..]
    decreases i
  {
    if i == 0 {
      DropNone(ts[1..], name);
      assert ts[..0] + ts[1..] == ts[1..];
    } else {
      DropBeforeAndAfter(ts[1..], name, i - 1);
      assert ts[1..][..i - 1] == ts[1..i];
      assert ts[1..][i..] == ts[i + 1..];
      assert ts[..i] == [ts[0]] + ts[1..i];
    }
  }

  lemma {:induction false} DropNone(ts: seq<Tier>, name: string)
    requires forall j :: 0 <= j < |ts| ==> ts[j].name != name
    ensures Drop(ts, name) == ts
  {
    if ts != [] {
      DropNone(ts[1..], name);
    }
  }

  lemma {:induction false} DropAppend(ts: seq<Tier>, us: seq<Tier>, name: string)
    ensures Drop(ts + us, name) == Drop(ts, name) + Drop(us, name)
  {
    if ts == [] {
      assert ts + us == us;
    } else {
      assert (ts + us)[1..] == ts[1..] + us;
      DropAppend(ts[1..], us, name);
    }
  }

  /** Names distribute over concatenation; called where a proof needs the split. */
  lemma {:induction false} NamesAppend(ts: seq<Tier>, us: seq<Tier>)
    ensures Names(ts + us) == Names(ts) + Names(us)
  {
  }

  /** Two tier lists with unique names and no name in common concatenate to one. */
  lemma UniqueConcat(ts: seq<Tier>, us: seq<Tier>)
    requires UniqueNames(ts) && UniqueNames(us)
    requires forall j :: 0 <= j < |us| ==> us[j].name !in Names(ts)
    ensures UniqueNames(ts + us)
  {
    forall i, j | 0 <= i < j < |ts + us| ensures (ts + us)[i].name != (ts + us)[j].name {
      if i < |ts| <= j {
        assert Names(ts)[i] == ts[i].name;
      }
    }
  }

  lemma UniqueSplit(ts: seq<Tier>, us: seq<Tier>)
    requires UniqueNames(ts + us)
    ensures forall j :: 0 <= j < |us| ==> us[j].name !in Names(ts)
  {
    forall j | 0 <= j < |us| ensures us[j].name !in Names(ts) {
      forall i | 0 <= i < |ts| ensures Names(ts)[i] != us[j].name {
        assert (ts + us)[i] == ts[i] && (ts + us)[|ts| + j] == us[j];
      }
    }
  }

  /** Regrouping a concatenation; called where a proof needs one grouping. */
  lemma ConcatAssoc(a: seq<Tier>, b: seq<Tier>, c: seq<Tier>)
    ensures (a + b) + c == a + (b + c)
  {
  }

  /** Appending, one by one, tiers whose names are all fresh. */
  lemma AddNext(all: seq<Tier>, k: nat)
    requires UniqueNames(all) && k < |all|
    ensures WithTierAdded(all[..k], all[k]) == Ok(all[..k + 1])
  {
    assert all[..k] + [all[k]] == all[..k + 1];
    assert forall j :: 0 <= j < k ==> Names(all[..k])[j] != all[k].name;
  }

  /** A tier of a document with unique names is what getTier returns for its name. */
  lemma UniqueNameFind(ts: seq<Tier>, t: Tier)
    requires UniqueNames(ts) && t in ts
    ensures FindTier(ts, t.name) == Ok(t)
  {
  }

  /** The names of a sub-collection are names of the whole. */
  lemma NamesOfSubset(sub: seq<Tier>, ts: seq<Tier>)
    requires forall t :: t in sub ==> t in ts
    ensures forall n :: n in Names(sub) ==> n in Names(ts)
  {
    forall n | n in Names(sub) ensures n in Names(ts) {
      var i :| 0 <= i < |sub| && Names(sub)[i] == n;
      assert sub[i] in ts;
      var j :| 0 <= j < |ts| && ts[j] == sub[i];
      assert Names(ts)[j] == n;
    }
  }

  /** A name other than `name` survives Drop. */
  lemma DropKeepsOtherNames(ts: seq<Tier>, name: string, n: string)
    requires UniqueNames(ts) && n != name && n in Names(ts)
    ensures n in Names(Drop(ts, name))
  {
    DropRemovesName(ts, name);
    var i :| 0 <= i < |ts| && Names(ts)[i] == n;
    assert ts[i] in Drop(ts, name);
    var j :| 0 <= j < |Drop(ts, name)| && Drop(ts, name)[j] == ts[i];
    assert Names(Drop(ts, name))[j] == n;
  }

  /** The `k`-th call of a run of appends. */
  lemma AddEachStepAt(ts: seq<Tier>, news: seq<Tier>, k: nat)
    requires k < |news|
    ensures WithTierAdded(ts, news[k]).Err? ==> AddEach(ts, news[k..]).Err?
    ensures WithTierAdded(ts, news[k]).Ok? ==> AddEach(ts, news[k..]) == AddEach(ts + [news[k]], news[k + 1..])
  {
    assert news[k..][0] == news[k] && news[k..][1..] == news[k + 1..];
  }

  /** A run of appends succeeds exactly when all names stay unique, and then
      appends the tiers in call order. */
  lemma {:induction false} AddEachFresh(ts: seq<Tier>, news: seq<Tier>)
    requires UniqueNames(ts)
    ensures AddEach(ts, news).Ok? <==> UniqueNames(ts + news)
    ensures AddEach(ts, news).Ok? ==> AddEach(ts, news).value == ts + news
    decreases |news|
  {
    if news == [] {
      assert ts + news == ts;
    } else {
      var t := news[0];
      if t.name in Names(ts) {
        var j :| 0 <= j < |ts| && Names(ts)[j] == t.name;
        assert (ts + news)[j].name == (ts + news)[|ts|].name;
      } else {
        AddTierAppends(ts, t);
        AddEachFresh(ts + [t], news[1..]);
        assert (ts + [t]) + news[1..] == ts + news;
      }
    }
  }

  /** A run of appends that does not raise added only names that were free. */
  lemma AddEachNeedsFresh(ts: seq<Tier>, news: seq<Tier>)
    requires UniqueNames(ts) && AddEach(ts, news).Ok?
    ensures forall j :: 0 <= j < |news| ==> news[j].name !in Names(ts)
  {
    AddEachFresh(ts, news);
    UniqueSplit(ts, news);
  }

  /** renameTier keeps the tier at its place and everything else as it was. */
  lemma RenameTierKeepsPosition(ts: seq<Tier>, oldName: string, newName: string)
    requires UniqueNames(ts)
    ensures WithTierRenamed(ts, oldName, newName).Ok? <==>
      oldName in Names(ts) && (newName == oldName || newName !in Names(ts))
    ensures WithTierRenamed(ts, oldName, newName).Ok? ==>
      var us := WithTierRenamed(ts, oldName, newName).value;
      |us| == |ts| && UniqueNames(us) &&
      (forall i :: 0 <= i < |ts| && ts[i].name == oldName ==> us[i] == WithName(ts[i], newName)) &&
      (forall i :: 0 <= i < |ts| && ts[i].name != oldName ==> us[i] == ts[i])
  {
  }

  /** On a document with unique names, renameTier renames by the reference definition. */
  lemma RenameIsRenamed(ts: seq<Tier>, o: string, n: string)
    requires UniqueNames(ts) && o in Names(ts) && (n == o || n !in Names(ts))
    ensures WithTierRenamed(ts, o, n) == Ok(Renamed(ts, o, n))
    ensures UniqueNames(Renamed(ts, o, n))
  {
    var i := IndexOf(ts, o).value;
    var us := ts[i := WithName(ts[i], n)];
    var rs := Renamed(ts, o, n);
    forall k | 0 <= k < |ts| ensures us[k] == rs[k] {
      if k != i {
        assert ts[k].name != o;
      }
    }
    assert us == rs;
    RenameTierKeepsPosition(ts, o, n);
  }

  /** After renaming `o` to `n`, the names present are `n` and the old ones other than `o`. */
  lemma RenamedNames(ts: seq<Tier>, o: string, n: string, m: string)
    requires o in Names(ts)
    ensures m in Names(Renamed(ts, o, n)) <==> m == n || (m != o && m in Names(ts))
  {
    var us := Renamed(ts, o, n);
    if m == n {
      var i :| 0 <= i < |ts| && Names(ts)[i] == o;
      assert Names(us)[i] == n;
    } else if m != o && m in Names(ts) {
      var j :| 0 <= j < |ts| && Names(ts)[j] == m;
      assert Names(us)[j] == m;
    }
    if m in Names(us) {
      var k :| 0 <= k < |us| && Names(us)[k] == m;
      assert Names(ts)[k] == ts[k].name;
    }
  }

  /** A tier not called `o` stays where it is, unchanged. */
  lemma RenamedKeeps(ts: seq<Tier>, o: string, n: string, t: Tier)
    requires t in ts && t.name != o
    ensures t in Renamed(ts, o, n)
  {
    var i :| 0 <= i < |ts| && ts[i] == t;
    assert Renamed(ts, o, n)[i] == t;
  }

  /** A praatio Textgrid: its tier list is changed in place by the scripts. */
  /** One `tg.save(...)` call: the file name and the tiers at that moment. */
  datatype SavedGrid = SavedGrid(fileName: string, tiers: seq<Tier>)

  /** A TextGrid as `openTextgrid` reads it: its tiers and its maxTimestamp. */
  datatype Opened = Opened(tiers: seq<Tier>, maxTimestamp: real)

  class Document {
    var tiers: seq<Tier>
    var maxTimestamp: real

    ghost predicate Valid()
      reads this
    {
      UniqueNames(tiers)
    }

    constructor (tiers: seq<Tier>, maxTimestamp: real)
      requires UniqueNames(tiers)
      ensures Valid() && this.tiers == tiers && this.maxTimestamp == maxTimestamp
    {
      this.tiers := tiers;
      this.maxTimestamp := maxTimestamp;
    }

    function GetTier(name: string): (r: Result<Tier>)
      reads this
      ensures r == FindTier(tiers, name)
    {
      FindTier(tiers, name)
    }

    method AddTier(t: Tier) returns (ok: bool)
      requires Valid()
      modifies this
      ensures Valid() && maxTimestamp == old(maxTimestamp)
      ensures ok == WithTierAdded(old(tiers), t).Ok?
      ensures tiers == if ok then WithTierAdded(old(tiers), t).value else old(tiers)
    {
      AddTierAppends(tiers, t);
      ok := t.name !in Names(tiers);
      if ok {
        tiers := tiers + [t];
      }
    }

    /** `addTier` for each of `news` in turn, up to the first that raises. */
    method AddTiers(news: seq<Tier>) returns (ok: bool)
      requires Valid()
      modifies this
      ensures Valid() && maxTimestamp == old(maxTimestamp)
      ensures ok == AddEach(old(tiers), news).Ok?
      ensures ok ==> tiers == AddEach(old(tiers), news).value
    {
      ok := true;
      for k := 0 to |news|
        invariant Valid() && maxTimestamp == old(maxTimestamp)
        invariant AddEach(old(tiers), news) == AddEach(tiers, news[k..])
      {
        AddEachStepAt(tiers, news, k);
        ok := AddTier(news[k]);
        if !ok { return; }
      }
      assert news[|news|..] == [];
    }

    method RemoveTier(name: string) returns (r: Result<Tier>)
      requires Valid()
      modifies this
      ensures Valid() && maxTimestamp == old(maxTimestamp)
      ensures r.Ok? == WithoutTier(old(tiers), name).Ok?
      ensures r.Ok? ==> r.value == WithoutTier(old(tiers), name).value.0
      ensures tiers == if r.Ok? then WithoutTier(old(tiers), name).value.1 else old(tiers)
    {
      RemoveTierKeepsOthers(tiers, name);
      match IndexOf(tiers, name)
      case None =>
        r := Err(NotFound(name));
      case Some(i) =>
        r := Ok(tiers[i]);
        tiers := tiers[..i] + tiers[i + 1..];
    }

    method RenameTier(oldName: string, newName: string) returns (ok: bool)
      requires Valid()
      modifies this
      ensures Valid() && maxTimestamp == old(maxTimestamp)
      ensures ok == WithTierRenamed(old(tiers), oldName, newName).Ok?
      ensures tiers == if ok then WithTierRenamed(old(tiers), oldName, newName).value else old(tiers)
    {
      RenameTierKeepsPosition(tiers, oldName, newName);
      match IndexOf(tiers, oldName)
      case None =>
        ok := false;
      case Some(i) =>
        ok := newName == oldName || newName !in Names(tiers);
        if ok {
          tiers := tiers[i := tiers[i].(name := newName)];
        }
    }
  }
}
