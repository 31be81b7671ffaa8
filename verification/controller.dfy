/** What the controller does with the events that reach it: a submit,
    and an `input` event on a field. Both go through `FilterValues`. */
module Controller {

  import opened Wrappers
  import opened Entries
  import opened FormState
  import opened Validation

  /** The outcome of a submit: the new stores, and the values handed to the
      submit callback if it was called (`None` when it was not). */
  datatype Submission<V> = Submission(state: State<V>, delivered: Option<map<Key, V>>)

  /** `handleSubmit` with the form's entries `snapshot`: validate them, and
      call the callback (when one is registered) only if validation
      answered true, passing it the values as they are after validation. */
  function Submit<V>(s: State<V>, schema: Option<Schema<V>>, hasCallback: bool,
                     snapshot: map<Key, V>): (r: Submission<V>)
    ensures r.state == FilterValues(s, schema, snapshot).state
    ensures r.delivered.Some? <==> hasCallback && FilterValues(s, schema, snapshot).ok
    ensures r.delivered.Some? ==> r.delivered.value == r.state.watch
  {
    var v := FilterValues(s, schema, snapshot);
    if v.ok && hasCallback then Submission(v.state, Some(v.state.watch))
    else Submission(v.state, None)
  }

  /** The `input` listener of field `k` with new text `value`: write the
      value, validate the one-entry candidate `{k: value}`, and when
      validation succeeds set the field's message to the empty string. */
  function InputEvent<V>(s: State<V>, schema: Option<Schema<V>>, k: Key, value: V): (r: State<V>)
    // success: the field shows no error, the values are the schema's data,
    // and other messages are kept
    ensures FilterValues(s, schema, map[k := value]).ok ==>
              && k in r.errors && r.errors[k] == "" && !HasError(r, k)
              && r.watch == schema.value(s.watch + map[k := value]).data
              && forall j :: j != k && j in s.errors ==> j in r.errors && r.errors[j] == s.errors[j]
    // failure: the field holds the typed value
    ensures !FilterValues(s, schema, map[k := value]).ok ==>
              k in r.watch && r.watch[k] == value
  {
    var written := State(s.watch[k := value], s.errors);
    assert written.watch + map[k := value] == s.watch + map[k := value];
    var v := FilterValues(written, schema, map[k := value]);
    if v.ok then SetErrors(v.state, map[k := ""]) else v.state
  }

  // ---------------------------------------------------------------------
  // Properties
  // ---------------------------------------------------------------------

  /** The submit callback fires exactly when the schema accepts the merged
      snapshot, and it receives the schema's normalised data. */
  lemma SubmitDeliversNormalised<V>(s: State<V>, parse: Schema<V>, snapshot: map<Key, V>)
    ensures (Submit(s, Some(parse), true, snapshot).delivered.Some?
             <==> parse(s.watch + snapshot).Parsed?)
    ensures parse(s.watch + snapshot).Parsed? ==>
              Submit(s, Some(parse), true, snapshot).delivered == Some(parse(s.watch + snapshot).data)
  {
  }

  /** Without a schema, the submit callback is never called. */
  lemma NoSchemaNeverSubmits<V>(s: State<V>, hasCallback: bool, snapshot: map<Key, V>)
    ensures Submit(s, None, hasCallback, snapshot).delivered == None
  {
  }

  /** A rejected submit keeps the snapshot merged into the values, and when
      the schema reported issues it shows exactly those. */
  lemma RejectedSubmitShowsIssues<V>(s: State<V>, parse: Schema<V>, hasCallback: bool, snapshot: map<Key, V>)
    requires parse(s.watch + snapshot).Rejected? && |parse(s.watch + snapshot).issues| > 0
    ensures Submit(s, Some(parse), hasCallback, snapshot).delivered == None
    ensures Submit(s, Some(parse), hasCallback, snapshot).state
              == State(s.watch + snapshot, ErrorsFromIssues(parse(s.watch + snapshot).issues))
  {
  }

  /** The listener's direct write of the value before validating is absorbed
      by the merge inside validation: the listener behaves as validation of
      `{k: value}` alone, followed by clearing the message on success. */
  lemma InputWriteAbsorbed<V>(s: State<V>, schema: Option<Schema<V>>, k: Key, value: V)
    ensures var v := FilterValues(s, schema, map[k := value]);
            InputEvent(s, schema, k, value) == (if v.ok then SetError(v.state, k, "") else v.state)
  {
    var written := State(s.watch[k := value], s.errors);
    assert written.watch + map[k := value] == s.watch + map[k := value];
    FilterValuesSeesOnlyMerge(written, s, schema, map[k := value]);
    var v := FilterValues(s, schema, map[k := value]);
    SetErrorsSingleton(v.state, k, "");
  }

  /** Without a schema the listener only records the typed value: errors,
      including a stale one on this very field, stay as they were. */
  lemma InputWithoutSchema<V>(s: State<V>, k: Key, value: V)
    ensures InputEvent(s, None, k, value) == State(s.watch[k := value], s.errors)
  {
    assert s.watch[k := value] + map[k := value] == s.watch[k := value];
  }
}
