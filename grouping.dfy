/** Grouping CSV rows by a key into an insertion-ordered dictionary, the loop
    both generation scripts run (`if key not in groups: groups[key] = []`,
    then `groups[key].append(row)`). A Python dict iterates in insertion
    order, so the dictionary is modelled as its key order plus a map. */
module Grouping {
  import opened TextGridModel

  /** The distinct keys of `rows`, in order of first occurrence. */
  function Keys<R(!new), K(==,!new)>(rows: seq<R>, keyOf: R -> K): (ks: seq<K>)
    ensures Distinct(ks)
    ensures forall k :: k in ks <==> exists i :: 0 <= i < |rows| && keyOf(rows[i]) == k
  {
    if rows == [] then []
    else
      var ks0 := Keys(rows[..|rows| - 1], keyOf);
      var k := keyOf(rows[|rows| - 1]);
      assert forall i :: 0 <= i < |rows| - 1 ==> rows[..|rows| - 1][i] == rows[i];
      if k in ks0 then ks0 else ks0 + [k]
  }

  /** The rows whose key is `k`, in file order. */
  function Select<R(==,!new), K(==,!new)>(rows: seq<R>, keyOf: R -> K, k: K): (g: seq<R>)
    ensures |g| <= |rows|
    ensures forall r :: r in g ==> r in rows && keyOf(r) == k
  {
    if rows == [] then []
    else
      var last := rows[|rows| - 1];
      Select(rows[..|rows| - 1], keyOf, k) + (if keyOf(last) == k then [last] else [])
  }

  /** The rows whose key is one of `ks`, in file order. */
  function WithKeyIn<R(!new), K(==,!new)>(rows: seq<R>, keyOf: R -> K, ks: seq<K>): seq<R>
  {
    if rows == [] then []
    else
      var last := rows[|rows| - 1];
      WithKeyIn(rows[..|rows| - 1], keyOf, ks) + (if keyOf(last) in ks then [last] else [])
  }

  /** The groups of `ks` one after the other, as a loop over `groups.items()`
      restricted to those keys visits them. */
  function Gather<R(==,!new), K(==,!new)>(ks: seq<K>, rows: seq<R>, keyOf: R -> K): seq<R>
  {
    if ks == [] then []
    else Gather(ks[..|ks| - 1], rows, keyOf) + Select(rows, keyOf, ks[|ks| - 1])
  }

  /** `for row in rows: groups.setdefault(keyOf(row), []).append(row)`. */
  method GroupBy<R(==,!new), K(==,!new)>(rows: seq<R>, keyOf: R -> K) returns (keys: seq<K>, groups: map<K, seq<R>>)
    ensures keys == Keys(rows, keyOf)
    ensures forall k :: k in groups <==> k in keys
    ensures forall k :: k in groups ==> groups[k] == Select(rows, keyOf, k)
  {
    keys := [];
    groups := map[];
    for i := 0 to |rows|
      invariant keys == Keys(rows[..i], keyOf)
      invariant forall k :: k in groups <==> k in keys
      invariant forall k :: k in groups ==> groups[k] == Select(rows[..i], keyOf, k)
    {
      KeysStep(rows, keyOf, i);
      var k := keyOf(rows[i]);
      ghost var before := groups;
      if k !in groups {
        groups := groups[k := []];
        keys := keys + [k];
      }
      groups := groups[k := groups[k] + [rows[i]]];
      forall k' | k' in groups ensures groups[k'] == Select(rows[..i + 1], keyOf, k') {
        SelectStep(rows, keyOf, i, k');
        if k' == k && k !in before {
          SelectAbsent(rows[..i], keyOf, k);
        }
      }
    }
    assert rows[..|rows|] == rows;
  }

  /** What one more row does to the keys and to every group. */
  lemma KeysStep<R(!new), K(!new)>(rows: seq<R>, keyOf: R -> K, i: nat)
    requires i < |rows|
    ensures Keys(rows[..i + 1], keyOf) ==
      var ks := Keys(rows[..i], keyOf);
      if keyOf(rows[i]) in ks then ks else ks + [keyOf(rows[i])]
  {
    assert rows[..i + 1][..i] == rows[..i];
  }

  /** Keys come in order of first occurrence: the key at an earlier position
      occurs in some row before any row holding the key at a later position. */
  lemma {:induction false} KeysFirstOccurrence<R(!new), K(!new)>(rows: seq<R>, keyOf: R -> K, p: nat, q: nat)
    requires p < q < |Keys(rows, keyOf)|
    ensures exists i :: (0 <= i < |rows| && keyOf(rows[i]) == Keys(rows, keyOf)[p] &&
                         forall j :: 0 <= j <= i ==> keyOf(rows[j]) != Keys(rows, keyOf)[q])
    decreases |rows|
  {
    var init := rows[..|rows| - 1];
    var ks0 := Keys(init, keyOf);
    var k := keyOf(rows[|rows| - 1]);
    var ks := Keys(rows, keyOf);
    assert forall j :: 0 <= j < |init| ==> init[j] == rows[j];
    if q < |ks0| {
      assert ks[p] == ks0[p] && ks[q] == ks0[q];
      KeysFirstOccurrence(init, keyOf, p, q);
      var i :| (0 <= i < |init| && keyOf(init[i]) == ks0[p] &&
                forall j :: 0 <= j <= i ==> keyOf(init[j]) != ks0[q]);
      assert keyOf(rows[i]) == ks[p];
      assert forall j :: 0 <= j <= i ==> keyOf(rows[j]) != ks[q];
    } else {
      // The later key is the last row's, new to the earlier rows.
      assert k !in ks0 && ks == ks0 + [k] && ks[q] == k;
      assert ks0[p] in ks0;
      var i :| 0 <= i < |init| && keyOf(init[i]) == ks0[p];
      assert forall j :: 0 <= j <= i ==> keyOf(init[j]) in ks0;
      assert keyOf(rows[i]) == ks[p];
      assert forall j :: 0 <= j <= i ==> keyOf(rows[j]) != ks[q];
    }
  }

  lemma SelectStep<R(!new), K(!new)>(rows: seq<R>, keyOf: R -> K, i: nat, k: K)
    requires i < |rows|
    ensures Select(rows[..i + 1], keyOf, k) ==
      Select(rows[..i], keyOf, k) + (if keyOf(rows[i]) == k then [rows[i]] else [])
  {
    assert rows[..i + 1][..i] == rows[..i];
  }

  lemma SelectAbsent<R(!new), K(!new)>(rows: seq<R>, keyOf: R -> K, k: K)
    requires k !in Keys(rows, keyOf)
    ensures Select(rows, keyOf, k) == []
  {
  }

  /** Rows keep file order: the group of a concatenation is the concatenation of the groups. */
  lemma {:induction false} SelectAppend<R(!new), K(!new)>(a: seq<R>, b: seq<R>, keyOf: R -> K, k: K)
    ensures Select(a + b, keyOf, k) == Select(a, keyOf, k) + Select(b, keyOf, k)
    decreases |b|
  {
    if b == [] {
      assert a + b == a;
    } else {
      assert (a + b)[..|a + b| - 1] == a + b[..|b| - 1];
      SelectAppend(a, b[..|b| - 1], keyOf, k);
    }
  }

  /** Every row is in the group of its own key, so no group of a key is empty. */
  lemma {:induction false} RowInOwnGroup<R(!new), K(!new)>(rows: seq<R>, keyOf: R -> K, i: nat)
    requires i < |rows|
    ensures rows[i] in Select(rows, keyOf, keyOf(rows[i]))
    decreases |rows|
  {
    if i < |rows| - 1 {
      RowInOwnGroup(rows[..|rows| - 1], keyOf, i);
    }
  }

  lemma GroupsNonEmpty<R(!new), K(!new)>(rows: seq<R>, keyOf: R -> K, k: K)
    requires k in Keys(rows, keyOf)
    ensures Select(rows, keyOf, k) != []
  {
    var i :| 0 <= i < |rows| && keyOf(rows[i]) == k;
    RowInOwnGroup(rows, keyOf, i);
  }

  lemma {:induction false} SplitKeyIn<R(!new), K(!new)>(rows: seq<R>, keyOf: R -> K, ks: seq<K>, k: K)
    requires k !in ks
    ensures multiset(WithKeyIn(rows, keyOf, ks + [k])) ==
      multiset(WithKeyIn(rows, keyOf, ks)) + multiset(Select(rows, keyOf, k))
  {
    if rows != [] {
      SplitKeyIn(rows[..|rows| - 1], keyOf, ks, k);
    }
  }

  /** Gathering distinct keys' groups picks up exactly the rows with those keys. */
  lemma {:induction false} GatherIsPermutation<R(!new), K(!new)>(ks: seq<K>, rows: seq<R>, keyOf: R -> K)
    requires Distinct(ks)
    ensures multiset(Gather(ks, rows, keyOf)) == multiset(WithKeyIn(rows, keyOf, ks))
  {
    if ks == [] {
      NoKeyNoRows(rows, keyOf, ks);
    } else {
      var ks0 := ks[..|ks| - 1];
      var k := ks[|ks| - 1];
      assert ks == ks0 + [k];
      GatherIsPermutation(ks0, rows, keyOf);
      SplitKeyIn(rows, keyOf, ks0, k);
    }
  }

  lemma {:induction false} NoKeyNoRows<R(!new), K(!new)>(rows: seq<R>, keyOf: R -> K, ks: seq<K>)
    requires ks == []
    ensures WithKeyIn(rows, keyOf, ks) == []
  {
    if rows != [] {
      NoKeyNoRows(rows[..|rows| - 1], keyOf, ks);
    }
  }

  lemma {:induction false} WithAllKeys<R(!new), K(!new)>(rows: seq<R>, keyOf: R -> K, ks: seq<K>)
    requires forall i :: 0 <= i < |rows| ==> keyOf(rows[i]) in ks
    ensures WithKeyIn(rows, keyOf, ks) == rows
  {
    if rows != [] {
      var init := rows[..|rows| - 1];
      assert forall i :: 0 <= i < |init| ==> keyOf(init[i]) in ks by {
        forall i | 0 <= i < |init| ensures keyOf(init[i]) in ks {
          assert init[i] == rows[i];
        }
      }
      WithAllKeys(init, keyOf, ks);
      assert keyOf(rows[|rows| - 1]) in ks;
      assert init + [rows[|rows| - 1]] == rows;
    }
  }

  /** The groups partition the rows: their concatenation in key order is a
      permutation of the rows, so every row lands in exactly one group. */
  lemma GroupsPartitionRows<R(!new), K(!new)>(rows: seq<R>, keyOf: R -> K)
    ensures multiset(Gather(Keys(rows, keyOf), rows, keyOf)) == multiset(rows)
    ensures |Gather(Keys(rows, keyOf), rows, keyOf)| == |rows|
  {
    var ks := Keys(rows, keyOf);
    GatherIsPermutation(ks, rows, keyOf);
    WithAllKeys(rows, keyOf, ks);
    assert |multiset(Gather(ks, rows, keyOf))| == |multiset(rows)|;
  }
}
