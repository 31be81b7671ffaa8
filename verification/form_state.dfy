/** The two stores a form controller owns — `watch`, the current field
    values, and `errors`, field name to message — and the operations that
    change them directly. Every operation is a pure transition from one
    state to the next. */
module FormState {

  import opened Wrappers
  import opened Entries

  type Msg = string

  datatype State<V> = State(watch: map<Key, V>, errors: map<Key, Msg>)

  /** The state right after the controller is created: both stores empty. */
  function Initial<V>(): (s: State<V>)
    ensures |s.watch| == 0 && |s.errors| == 0
  {
    State(map[], map[])
  }

  /** A field shows an error when it has a non-empty message; an empty
      message counts as no error, just like an absent key. */
  predicate HasError<V>(s: State<V>, k: Key)
  {
    k in s.errors && s.errors[k] != ""
  }

  /** Writes `v` into field `k` and drops the error of `k`. `bound` tells
      whether a matching input element exists. The source has one branch for
      each case; they differ only in also writing the element's displayed
      value, which is outside the stores, so one expression serves both. */
  function UpdateField<V>(s: State<V>, k: Key, v: V, bound: bool): (r: State<V>)
    ensures k in r.watch && r.watch[k] == v
    ensures k !in r.errors
    ensures forall j :: j != k ==> (j in r.watch <==> j in s.watch)
    ensures forall j :: j != k && j in s.watch ==> r.watch[j] == s.watch[j]
    ensures forall j :: j != k ==> (j in r.errors <==> j in s.errors)
    ensures forall j :: j != k && j in s.errors ==> r.errors[j] == s.errors[j]
  {
    State(s.watch[k := v], s.errors - {k})
  }

  /** Applies `UpdateField` to each entry in iteration order. `bound` is the
      set of fields that have an input element. The net effect: the
      entries are merged into `watch` with the last entry per key winning,
      and every entry's key is dropped from `errors`. */
  function UpdateFields<V>(s: State<V>, entries: seq<(Key, V)>, bound: set<Key>): (r: State<V>)
    ensures r.watch == s.watch + FromEntries(entries)
    ensures r.errors == s.errors - EntryKeys(entries)
    decreases |entries|
  {
    if |entries| == 0 then s
    else
      var init := entries[..|entries| - 1];
      var last := entries[|entries| - 1];
      var r0 := UpdateFields(s, init, bound);
      UpdateFieldsStep(s.watch, s.errors, entries);
      UpdateField(r0, last.0, last.1, last.0 in bound)
  }

  /** One more entry: writing it after the first ones is the closed form of
      the longer list. */
  lemma UpdateFieldsStep<V>(w: map<Key, V>, e: map<Key, Msg>, entries: seq<(Key, V)>)
    requires |entries| > 0
    ensures var init, last := entries[..|entries| - 1], entries[|entries| - 1];
            && (w + FromEntries(init))[last.0 := last.1] == w + FromEntries(entries)
            && (e - EntryKeys(init)) - {last.0} == e - EntryKeys(entries)
  {
    var init, last := entries[..|entries| - 1], entries[|entries| - 1];
    EntryKeysSnoc(entries);
    var m0 := FromEntries(init);
    MergeThenWrite(w, m0, last.0, last.1);
  }

  /** Overwrites the message of `k` and nothing else. */
  function SetError<V>(s: State<V>, k: Key, msg: Msg): (r: State<V>)
    ensures r.watch == s.watch
    ensures k in r.errors && r.errors[k] == msg
    ensures forall j :: j != k ==> (j in r.errors <==> j in s.errors)
    ensures forall j :: j != k && j in s.errors ==> r.errors[j] == s.errors[j]
  {
    State(s.watch, s.errors[k := msg])
  }

  /** Merges `incoming` into `errors`: incoming messages win, every other
      error is kept, values are untouched. */
  function SetErrors<V>(s: State<V>, incoming: map<Key, Msg>): (r: State<V>)
    ensures r.watch == s.watch
    ensures r.errors.Keys == s.errors.Keys + incoming.Keys
    ensures forall j :: j in incoming ==> r.errors[j] == incoming[j]
    ensures forall j :: j in s.errors && j !in incoming ==> r.errors[j] == s.errors[j]
  {
    State(s.watch, s.errors + incoming)
  }

  /** Removes the error of `k`; every other error and all values stay. */
  function ResetError<V>(s: State<V>, k: Key): (r: State<V>)
    ensures r.watch == s.watch
    ensures k !in r.errors
    ensures forall j :: j != k ==> (j in r.errors <==> j in s.errors)
    ensures forall j :: j != k && j in s.errors ==> r.errors[j] == s.errors[j]
  {
    State(s.watch, s.errors - {k})
  }

  /** Removes every error; values stay. */
  function ResetErrors<V>(s: State<V>): (r: State<V>)
    ensures r.watch == s.watch
    ensures forall j :: !HasError(r, j) && j !in r.errors
  {
    State(s.watch, map[])
  }

  /** Clears every error and sets the values to a copy of the initial
      values, or to no values when the form has none. */
  function Reset<V>(s: State<V>, initialValues: Option<map<Key, V>>): (r: State<V>)
    ensures forall j :: j !in r.errors
    ensures forall j :: j in r.watch <==> initialValues.Some? && j in initialValues.value
    ensures forall j :: j in r.watch ==> r.watch[j] == initialValues.value[j]
  {
    State(initialValues.GetOr(map[]), map[])
  }

  // ---------------------------------------------------------------------
  // Properties relating several operations
  // ---------------------------------------------------------------------

  /** Updating through `UpdateFields` with one entry is one `UpdateField`. */
  lemma UpdateFieldsSingle<V>(s: State<V>, k: Key, v: V, bound: set<Key>)
    ensures UpdateFields(s, [(k, v)], bound) == UpdateField(s, k, v, k in bound)
  {
    assert [(k, v)][..0] == [];
  }

  /** Applying two batches in turn is applying their concatenation. */
  lemma UpdateFieldsAppend<V>(s: State<V>, a: seq<(Key, V)>, b: seq<(Key, V)>, bound: set<Key>)
    ensures UpdateFields(UpdateFields(s, a, bound), b, bound) == UpdateFields(s, a + b, bound)
  {
    var r1 := UpdateFields(s, a, bound);
    var r2 := UpdateFields(r1, b, bound);
    var r3 := UpdateFields(s, a + b, bound);
    WatchAfterTwoBatches(s.watch, a, b);
    ErrorsAfterTwoBatches(s.errors, a, b);
    assert r2.watch == r3.watch;
    assert r2.errors == r3.errors;
  }

  lemma WatchAfterTwoBatches<V>(w: map<Key, V>, a: seq<(Key, V)>, b: seq<(Key, V)>)
    ensures (w + FromEntries(a)) + FromEntries(b) == w + FromEntries(a + b)
  {
    FromEntriesAppend(a, b);
    MergeAssociative(w, FromEntries(a), FromEntries(b));
  }

  lemma ErrorsAfterTwoBatches<V>(e: map<Key, Msg>, a: seq<(Key, V)>, b: seq<(Key, V)>)
    ensures (e - EntryKeys(a)) - EntryKeys(b) == e - EntryKeys(a + b)
  {
    EntryKeysAppend(a, b);
  }

  /** For the entries of an object (no key repeats): afterwards every entry's
      key holds that entry's value and has no error. */
  lemma UpdateFieldsObject<V>(s: State<V>, entries: seq<(Key, V)>, bound: set<Key>)
    requires forall i, j :: 0 <= i < j < |entries| ==> entries[i].0 != entries[j].0
    ensures forall i :: 0 <= i < |entries| ==>
              var r := UpdateFields(s, entries, bound);
              entries[i].0 in r.watch && r.watch[entries[i].0] == entries[i].1 && !HasError(r, entries[i].0)
  {
    FromEntriesDistinct(entries);
    var r := UpdateFields(s, entries, bound);
    forall i | 0 <= i < |entries|
      ensures entries[i].0 in r.watch && r.watch[entries[i].0] == entries[i].1 && !HasError(r, entries[i].0)
    {
      assert entries[i].0 in EntryKeys(entries);
    }
  }

  /** Edits of two different fields commute. */
  lemma UpdateFieldCommutes<V>(s: State<V>, a: Key, x: V, b: Key, y: V, boundA: bool, boundB: bool)
    requires a != b
    ensures UpdateField(UpdateField(s, a, x, boundA), b, y, boundB)
         == UpdateField(UpdateField(s, b, y, boundB), a, x, boundA)
  {
    assert s.watch[a := x][b := y] == s.watch[b := y][a := x];
    assert s.errors - {a} - {b} == s.errors - {b} - {a};
  }

  /** A second edit of the same field overrides the first. */
  lemma UpdateFieldLastWins<V>(s: State<V>, k: Key, x: V, y: V, b1: bool, b2: bool)
    ensures UpdateField(UpdateField(s, k, x, b1), k, y, b2) == UpdateField(s, k, y, b2)
  {
    assert s.watch[k := x][k := y] == s.watch[k := y];
    assert s.errors - {k} - {k} == s.errors - {k};
  }

  /** Setting one error is merging a one-entry map. */
  lemma SetErrorsSingleton<V>(s: State<V>, k: Key, msg: Msg)
    ensures SetErrors(s, map[k := msg]) == SetError(s, k, msg)
  {
  }

  /** Two merges in turn are one merge of the right-biased union. */
  lemma SetErrorsCompose<V>(s: State<V>, a: map<Key, Msg>, b: map<Key, Msg>)
    ensures SetErrors(SetErrors(s, a), b) == SetErrors(s, a + b)
  {
  }

  /** Merging the same errors twice is merging them once. */
  lemma SetErrorsIdempotent<V>(s: State<V>, m: map<Key, Msg>)
    ensures SetErrors(SetErrors(s, m), m) == SetErrors(s, m)
  {
  }

  /** Removing an error twice is removing it once. */
  lemma ResetErrorIdempotent<V>(s: State<V>, k: Key)
    ensures ResetError(ResetError(s, k), k) == ResetError(s, k)
  {
  }

  /** Setting a field's message to the empty string and removing it are
      indistinguishable to anyone who asks whether a field has an error. */
  lemma EmptyMessageIsNoError<V>(s: State<V>, k: Key)
    ensures forall j :: HasError(SetError(s, k, ""), j) <==> HasError(ResetError(s, k), j)
    ensures !HasError(ResetError(s, k), k)
  {
  }

  /** Clearing all errors forgets any errors merged in before. */
  lemma ResetErrorsForgetsMerged<V>(s: State<V>, m: map<Key, Msg>)
    ensures ResetErrors(SetErrors(s, m)) == ResetErrors(s)
    ensures forall k :: !HasError(ResetErrors(SetErrors(s, m)), k)
  {
  }

  /** The state after a reset does not depend on anything done before. */
  lemma ResetForgetsHistory<V>(s: State<V>, t: State<V>, initialValues: Option<map<Key, V>>)
    ensures Reset(s, initialValues) == Reset(t, initialValues)
  {
  }
}
