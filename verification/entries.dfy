/** Building a key-value map from an ordered list of entries, the way
    `Object.fromEntries` does, or a `reduce` that assigns `acc[key] = value`
    into a plain `{}` — apart from "__proto__", which such an assignment
    never creates and `Validation.ErrorsFromIssues` removes. Entries are
    applied left to right, so a later entry for a key overwrites an earlier
    one. */
module Entries {

  type Key = string

  /** The set of keys that occur in `entries`. */
  ghost function EntryKeys<V>(entries: seq<(Key, V)>): set<Key>
  {
    set i | 0 <= i < |entries| :: entries[i].0
  }

  /** Entry `j` is the last entry of `entries` for its key. */
  ghost predicate IsLastFor<V>(entries: seq<(Key, V)>, j: int)
    requires 0 <= j < |entries|
  {
    forall i :: j < i < |entries| ==> entries[i].0 != entries[j].0
  }

  /** `m` holds exactly the keys of `entries`, each with the value of its
      last entry. */
  ghost predicate LastWins<V>(entries: seq<(Key, V)>, m: map<Key, V>)
  {
    && m.Keys == EntryKeys(entries)
    && forall j :: 0 <= j < |entries| && IsLastFor(entries, j) ==> m[entries[j].0] == entries[j].1
  }

  /** Left fold that assigns every entry in order. Exactly the keys of
      `entries` are present, and each maps to the value of its LAST entry. */
  function FromEntries<V>(entries: seq<(Key, V)>): (m: map<Key, V>)
    ensures m.Keys == EntryKeys(entries)
    ensures forall j :: 0 <= j < |entries| && IsLastFor(entries, j) ==>
              m[entries[j].0] == entries[j].1
    decreases |entries|
  {
    if |entries| == 0 then map[]
    else
      var init := entries[..|entries| - 1];
      var last := entries[|entries| - 1];
      var m0 := FromEntries(init);
      LastWinsStep(entries, m0);
      m0[last.0 := last.1]
  }

  /** One step of the fold keeps `LastWins`. */
  lemma LastWinsStep<V>(entries: seq<(Key, V)>, m0: map<Key, V>)
    requires |entries| > 0
    requires LastWins(entries[..|entries| - 1], m0)
    ensures LastWins(entries, m0[entries[|entries| - 1].0 := entries[|entries| - 1].1])
  {
    var init := entries[..|entries| - 1];
    EntryKeysSnoc(entries);
    forall j | 0 <= j < |init| && IsLastFor(entries, j) ensures IsLastFor(init, j) {
    }
  }

  /** The keys of a non-empty list are those of all but its last entry,
      plus the last entry's key. */
  lemma EntryKeysSnoc<V>(entries: seq<(Key, V)>)
    requires |entries| > 0
    ensures EntryKeys(entries) == EntryKeys(entries[..|entries| - 1]) + {entries[|entries| - 1].0}
  {
    var init := entries[..|entries| - 1];
    forall k | k in EntryKeys(entries) ensures k in EntryKeys(init) + {entries[|entries| - 1].0} {
      var i :| 0 <= i < |entries| && entries[i].0 == k;
      if i < |entries| - 1 { assert init[i] == entries[i]; }
    }
  }

  lemma EntryKeysAppend<V>(a: seq<(Key, V)>, b: seq<(Key, V)>)
    ensures EntryKeys(a + b) == EntryKeys(a) + EntryKeys(b)
  {
    forall k | k in EntryKeys(a + b) ensures k in EntryKeys(a) + EntryKeys(b) {
      var i :| 0 <= i < |a + b| && (a + b)[i].0 == k;
      if i < |a| { assert (a + b)[i] == a[i]; } else { assert (a + b)[i] == b[i - |a|]; }
    }
    forall k | k in EntryKeys(a) + EntryKeys(b) ensures k in EntryKeys(a + b) {
      if k in EntryKeys(a) {
        var i :| 0 <= i < |a| && a[i].0 == k;
        assert (a + b)[i] == a[i];
      } else {
        var i :| 0 <= i < |b| && b[i].0 == k;
        assert (a + b)[|a| + i] == b[i];
      }
    }
  }

  /** The fold of a non-empty list is the fold of all but its last entry,
      with the last entry written on top. */
  lemma FromEntriesSnoc<V>(entries: seq<(Key, V)>)
    requires |entries| > 0
    ensures FromEntries(entries)
         == FromEntries(entries[..|entries| - 1])[entries[|entries| - 1].0 := entries[|entries| - 1].1]
  {
  }

  /** Folding a concatenation is folding the first part, then overwriting
      it with the fold of the second part. */
  lemma {:induction false} FromEntriesAppend<V>(a: seq<(Key, V)>, b: seq<(Key, V)>)
    ensures FromEntries(a + b) == FromEntries(a) + FromEntries(b)
    decreases |b|
  {
    if |b| == 0 {
      assert a + b == a;
    } else {
      var ab := a + b;
      var b0, last := b[..|b| - 1], b[|b| - 1];
      assert ab[..|ab| - 1] == a + b0;
      assert ab[|ab| - 1] == last;
      FromEntriesSnoc(ab);
      FromEntriesSnoc(b);
      FromEntriesAppend(a, b0);
      MergeThenWrite(FromEntries(a), FromEntries(b0), last.0, last.1);
    }
  }

  lemma MergeAssociative<X, Y>(m1: map<X, Y>, m2: map<X, Y>, m3: map<X, Y>)
    ensures (m1 + m2) + m3 == m1 + (m2 + m3)
  {
  }

  /** Writing a key after a merge is merging with the written map. */
  lemma MergeThenWrite<V>(m1: map<Key, V>, m2: map<Key, V>, k: Key, v: V)
    ensures (m1 + m2)[k := v] == m1 + m2[k := v]
  {
  }

  /** When no key repeats (as with the entries of an object), every entry's
      value is the one the map holds for its key. */
  lemma FromEntriesDistinct<V>(entries: seq<(Key, V)>)
    requires forall i, j :: 0 <= i < j < |entries| ==> entries[i].0 != entries[j].0
    ensures forall j :: 0 <= j < |entries| ==> FromEntries(entries)[entries[j].0] == entries[j].1
  {
    assert forall j :: 0 <= j < |entries| ==> IsLastFor(entries, j);
  }
}
