/** The validation choke point of the controller (`filterValues`): merge
    the candidate values into `watch`, hand the merged values to the schema's
    safe parse, and then either adopt the schema's normalised data or
    replace the error store with the schema's issues. The schema is a
    parameter: the model knows nothing of it except the shape of its
    answer. */
module Validation {

  import opened Wrappers
  import opened Entries
  import opened PropertyKeys
  import opened FormState

  /** One complaint of the schema: where (a path of segments) and what. */
  datatype Issue = Issue(path: seq<Segment>, message: Msg)

  /** The answer of a safe parse: the normalised data, or the issues. */
  datatype ParseResult<V> = Parsed(data: map<Key, V>) | Rejected(issues: seq<Issue>)

  type Schema<!V> = map<Key, V> -> ParseResult<V>

  /** The outcome of `filterValues`: the new stores and its boolean answer. */
  datatype Validated<V> = Validated(state: State<V>, ok: bool)

  /** The key an issue is reported under: its first path segment only. */
  function IssueKey(issue: Issue): Key
  {
    FirstSegmentKey(issue.path)
  }

  /** Each issue turned into a (key, message) entry, in the issues' order. */
  function IssueEntries(issues: seq<Issue>): (entries: seq<(Key, Msg)>)
    ensures |entries| == |issues|
    ensures forall i :: 0 <= i < |issues| ==>
              entries[i].0 == IssueKey(issues[i]) && entries[i].1 == issues[i].message
  {
    seq(|issues|, i requires 0 <= i < |issues| => (IssueKey(issues[i]), issues[i].message))
  }

  /** Issue `j` is the last issue reported under its key. */
  ghost predicate IsLastIssue(issues: seq<Issue>, j: int)
    requires 0 <= j < |issues|
  {
    forall i :: j < i < |issues| ==> IssueKey(issues[i]) != IssueKey(issues[j])
  }

  /** The one key that assigning into a plain `{}` does not create: writing
      `acc["__proto__"] = message` goes to the prototype setter, which
      ignores a string, so no own property appears. */
  const ProtoKey: Key := "__proto__"

  /** The error store built from a list of issues: exactly the issues' keys
      other than `ProtoKey`, each with the message of the LAST issue reported
      under it. */
  function ErrorsFromIssues(issues: seq<Issue>): (errs: map<Key, Msg>)
    ensures forall k :: k in errs <==>
              k != ProtoKey && exists i :: 0 <= i < |issues| && IssueKey(issues[i]) == k
    ensures forall j :: 0 <= j < |issues| && IsLastIssue(issues, j) && IssueKey(issues[j]) != ProtoKey ==>
              errs[IssueKey(issues[j])] == issues[j].message
  {
    var written := FromEntries(IssueEntries(issues));
    AssignedIssues(issues);
    written - {ProtoKey}
  }

  /** Assigning the issues' entries in order, before "__proto__" is
      dropped: exactly the issues' keys, the last issue per key winning. */
  lemma AssignedIssues(issues: seq<Issue>)
    ensures var written := FromEntries(IssueEntries(issues));
            && (forall k :: k in written <==> exists i :: 0 <= i < |issues| && IssueKey(issues[i]) == k)
            && (forall j :: 0 <= j < |issues| && IsLastIssue(issues, j) ==>
                  written[IssueKey(issues[j])] == issues[j].message)
  {
    var entries := IssueEntries(issues);
    var written := FromEntries(entries);
    forall k | k in written ensures exists i :: 0 <= i < |issues| && IssueKey(issues[i]) == k {
      assert k in EntryKeys(entries);
      var i :| 0 <= i < |entries| && entries[i].0 == k;
      assert IssueKey(issues[i]) == k;
    }
    forall i | 0 <= i < |issues| ensures IssueKey(issues[i]) in written {
      assert entries[i].0 in EntryKeys(entries);
    }
    assert forall j :: 0 <= j < |issues| && IsLastIssue(issues, j) ==> IsLastFor(entries, j);
  }

  /** `filterValues(vals)` against an optional schema. */
  function FilterValues<V>(s: State<V>, schema: Option<Schema<V>>, vals: map<Key, V>): (r: Validated<V>)
    // the answer is true exactly when a schema is present and accepts the merged values
    ensures r.ok <==> schema.Some? && schema.value(s.watch + vals).Parsed?
    // accepted: the schema's normalised data replaces the values; errors are left alone
    ensures r.ok ==> r.state.watch == schema.value(s.watch + vals).data && r.state.errors == s.errors
    // not accepted: the values are the merge, incoming values winning
    ensures !r.ok ==> r.state.watch.Keys == s.watch.Keys + vals.Keys
    ensures !r.ok ==> forall k :: k in vals ==> r.state.watch[k] == vals[k]
    ensures !r.ok ==> forall k :: k in s.watch && k !in vals ==> r.state.watch[k] == s.watch[k]
    // rejected with issues: the errors are REPLACED by the issues' errors
    ensures schema.Some? && schema.value(s.watch + vals).Rejected? && |schema.value(s.watch + vals).issues| > 0 ==>
              r.state.errors == ErrorsFromIssues(schema.value(s.watch + vals).issues)
    // no schema, or rejected without issues: errors unchanged
    ensures schema.None? || (schema.value(s.watch + vals).Rejected? && |schema.value(s.watch + vals).issues| == 0) ==>
              r.state.errors == s.errors
  {
    var merged := State(s.watch + vals, s.errors);
    match schema
    case None => Validated(merged, false)
    case Some(parse) =>
      match parse(merged.watch)
      case Parsed(data) => Validated(State(data, merged.errors), true)
      case Rejected(issues) =>
        if |issues| > 0 then Validated(State(merged.watch, ErrorsFromIssues(issues)), false)
        else Validated(merged, false)
  }

  // ---------------------------------------------------------------------
  // Properties
  // ---------------------------------------------------------------------

  /** Later issues win: when two issues share a key, the later message is the
      one reported (and neither is, when the key is `ProtoKey`). */
  lemma LaterIssueWins(a: Issue, b: Issue)
    requires IssueKey(a) == IssueKey(b)
    ensures IssueKey(b) != ProtoKey ==> ErrorsFromIssues([a, b]) == map[IssueKey(b) := b.message]
    ensures IssueKey(b) == ProtoKey ==> ErrorsFromIssues([a, b]) == map[]
  {
    var errs := ErrorsFromIssues([a, b]);
    assert IsLastIssue([a, b], 1);
    assert errs.Keys <= {IssueKey(b)} by {
      forall k | k in errs ensures k == IssueKey(b) {
        var i :| 0 <= i < 2 && IssueKey([a, b][i]) == k;
      }
    }
  }

  /** An issue filed under "__proto__" neither adds an error nor overwrites
      one: appending it to any list of issues leaves the error map as it
      was, and on its own it leaves the map empty. */
  lemma ProtoIssueDropped(issues: seq<Issue>, msg: Msg)
    ensures ErrorsFromIssues(issues + [Issue([Field(ProtoKey)], msg)]) == ErrorsFromIssues(issues)
    ensures ErrorsFromIssues([Issue([Field(ProtoKey)], msg)]) == map[]
  {
    var xs := issues + [Issue([Field(ProtoKey)], msg)];
    var es := IssueEntries(xs);
    assert es == IssueEntries(issues) + [(ProtoKey, msg)];
    assert es[..|es| - 1] == IssueEntries(issues);
    FromEntriesSnoc(es);
    var m := FromEntries(IssueEntries(issues));
    assert m[ProtoKey := msg] - {ProtoKey} == m - {ProtoKey};
    var one := [Issue([Field(ProtoKey)], msg)];
    assert forall i :: 0 <= i < |one| ==> IssueKey(one[i]) == ProtoKey;
  }

  /** An issue with an empty path is reported under the key "undefined". */
  lemma PathlessIssueKey(msg: Msg)
    ensures ErrorsFromIssues([Issue([], msg)]) == map[UndefinedKey := msg]
  {
    var errs := ErrorsFromIssues([Issue([], msg)]);
    assert IsLastIssue([Issue([], msg)], 0);
    assert errs.Keys == {UndefinedKey} by {
      forall k | k in errs ensures k == UndefinedKey {
        var i :| 0 <= i < 1 && IssueKey([Issue([], msg)][i]) == k;
      }
    }
  }

  /** Validation sees the old values only through the merge: two states
      with the same errors and the same merged values validate alike. */
  lemma FilterValuesSeesOnlyMerge<V>(s1: State<V>, s2: State<V>, schema: Option<Schema<V>>, vals: map<Key, V>)
    requires s1.watch + vals == s2.watch + vals && s1.errors == s2.errors
    ensures FilterValues(s1, schema, vals) == FilterValues(s2, schema, vals)
  {
  }

  /** Without a schema validation never succeeds; it only merges. */
  lemma NoSchemaNeverValid<V>(s: State<V>, vals: map<Key, V>)
    ensures !FilterValues(s, None, vals).ok
    ensures FilterValues(s, None, vals).state == State(s.watch + vals, s.errors)
  {
  }

  /** On failure the errors the form had before are discarded when the schema
      reported issues: the result depends on the old errors only when the
      schema said nothing. */
  lemma RejectionReplacesErrors<V>(w: map<Key, V>, e1: map<Key, Msg>, e2: map<Key, Msg>,
                                   parse: Schema<V>, vals: map<Key, V>)
    requires parse(w + vals).Rejected? && |parse(w + vals).issues| > 0
    ensures FilterValues(State(w, e1), Some(parse), vals) == FilterValues(State(w, e2), Some(parse), vals)
  {
  }

  /** A failed validation repeated with the same candidates changes nothing:
      the merge is already in place and the schema sees the same values. */
  lemma {:induction false} FailedValidationIdempotent<V>(s: State<V>, schema: Option<Schema<V>>, vals: map<Key, V>)
    requires !FilterValues(s, schema, vals).ok
    ensures FilterValues(FilterValues(s, schema, vals).state, schema, vals) == FilterValues(s, schema, vals)
  {
    var r := FilterValues(s, schema, vals);
    assert r.state.watch == s.watch + vals;
    assert (s.watch + vals) + vals == s.watch + vals;
  }

  /** Validation is idempotent on normalised data: when the schema's output
      already contains the candidates and the schema maps its own output to
      itself, validating the same candidates again yields the same state and
      the same success, and leaves the errors alone. */
  lemma {:induction false} NormalisedValidationIdempotent<V>(s: State<V>, parse: Schema<V>, vals: map<Key, V>)
    requires parse(s.watch + vals).Parsed?
    requires var d := parse(s.watch + vals).data;
             (forall k :: k in vals ==> k in d && d[k] == vals[k]) && parse(d) == Parsed(d)
    ensures FilterValues(FilterValues(s, Some(parse), vals).state, Some(parse), vals) == FilterValues(s, Some(parse), vals)
  {
    var d := parse(s.watch + vals).data;
    assert d + vals == d;
  }
}
