# svelte-form-zod form-state controller, in Dafny

This project models the state logic of `createForm` in `src/lib/index.ts` of
svelte-form-zod. The controller keeps two stores: `watch`, the current field
values, and `errors`, which maps a field name to a message. Every operation
on them is modelled as a pure transition on an immutable record
`State(watch, errors)`. The zod schema is a function parameter that returns
either `Parsed(data)` or `Rejected(issues)`. Keys are flat strings. There
are no nested paths and no masking in this source.

Modules:

- `Wrappers` (`wrappers.dfy`): the `Option` type. It is used for the optional
  schema, the optional initial values and the optional callback argument.
- `Entries` (`entries.dfy`): folds a list of (key, value) entries into a map
  from left to right, so the last entry for a key wins. This is the
  `reduce((acc, cur) => { acc[cur.path] = …; })` of `filterValues`, apart
  from `"__proto__"`, which `Validation.ErrorsFromIssues` removes. It is also
  the net effect of `updateFields`.
- `PropertyKeys` (`property_keys.dfy`): how the first segment of a zod issue
  path becomes an object key. A name stays as it is. An array index becomes
  its decimal string. A missing segment (an empty path) becomes `"undefined"`.
  When the error map is built, the key `"__proto__"` is dropped: assigning it
  into a plain `{}` calls the prototype setter instead of creating a key.
- `FormState` (`form_state.dfy`): `updateField`, `updateFields`, `setError`,
  `setErrors`, `resetError`, `resetErrors` and `reset`.
- `Validation` (`validation.dfy`): `filterValues`, the one choke point that
  every submit and every input goes through.
- `Controller` (`controller.dfy`): the submit gate of `handleSubmit` and the
  `input` listener that `handleInput` installs on each field.

Without a schema, `filterValues` returns `false` (src/lib/index.ts:57-59).
So the submit callback never fires (`Controller.NoSchemaNeverSubmits`), and
the input listener never clears a message (`Controller.InputWithoutSchema`).

## Model

| member | source | states |
|---|---|---|
| `Entries.FromEntries` | src/lib/index.ts:50-53 | The map built by assigning entries in order has exactly the entries' keys, and each key maps to the value of its last entry. This is the `acc[key] = value` reduce apart from `"__proto__"`, which `Validation.ErrorsFromIssues` removes. |
| `Entries.FromEntriesAppend` | src/lib/index.ts:50-53 | Folding `a + b` equals folding `a` and then overwriting it with the fold of `b` (right-biased union). |
| `Entries.FromEntriesDistinct` | src/lib/index.ts:81 | When no key repeats, as with `Object.entries`, every entry's value is the value stored for its key. |
| `PropertyKeys.Decimal` | src/lib/index.ts:51 | An index used as a property key becomes a non-empty string of digits with no leading zero unless the index is 0. |
| `PropertyKeys.DecimalRoundTrip` | src/lib/index.ts:51 | Reading back the decimal key of an index gives the index again. |
| `PropertyKeys.DecimalInjective` | src/lib/index.ts:51 | Two different indices never share a key. |
| `PropertyKeys.SegmentKey` | src/lib/index.ts:46 | A name segment is its own key. An index segment becomes `String(index)`: a non-empty digit string that denotes the index, with no leading zero, and exactly `"0"` for index 0. |
| `PropertyKeys.FirstSegmentKey` | src/lib/index.ts:46 | The key is `"undefined"` exactly when the path is empty or its first segment is the name `"undefined"`; an index segment never gives it. Otherwise a name is its own key and an index gives its canonical decimal key, which is exactly `"0"` for index 0. |
| `FormState.Initial` | src/lib/index.ts:15-16 | A new controller starts with both stores empty. |
| `FormState.UpdateField` | src/lib/index.ts:62-78 | Afterwards `watch[k]` is the new value and `k` has no error entry. Every other key of both stores keeps its presence and value. This holds whether or not an input element exists. |
| `FormState.UpdateFields` | src/lib/index.ts:80-84 | Applying `updateField` per entry in order merges the entries into `watch`, with the last entry per key winning, and removes exactly the entries' keys from `errors`. |
| `FormState.UpdateFieldsSingle` | src/lib/index.ts:80-84 | A one-entry `updateFields` is a single `updateField`. |
| `FormState.UpdateFieldsAppend` | src/lib/index.ts:80-84 | Two batches applied in turn equal their concatenation applied once. |
| `FormState.UpdateFieldsObject` | src/lib/index.ts:80-84 | For an object's entries, every key ends up holding its new value with no error shown. |
| `FormState.UpdateFieldCommutes` | src/lib/index.ts:62-78 | Updates of two different fields can be applied in either order. |
| `FormState.UpdateFieldLastWins` | src/lib/index.ts:62-78 | A second update of the same field overrides the first. |
| `FormState.SetError` | src/lib/index.ts:86-88 | Only `errors[k]` changes, to the given message. `watch` is untouched. |
| `FormState.SetErrors` | src/lib/index.ts:90-92 | Right-biased merge: the error keys are the union, incoming messages win, other messages are kept, and `watch` is untouched. |
| `FormState.SetErrorsSingleton` | src/lib/index.ts:86-92 | Merging a one-entry map is `setError`. |
| `FormState.SetErrorsCompose` | src/lib/index.ts:90-92 | Two merges in turn equal one merge of the right-biased union of the two maps. |
| `FormState.SetErrorsIdempotent` | src/lib/index.ts:90-92 | Merging the same errors twice is the same as merging them once. |
| `FormState.ResetError` | src/lib/index.ts:94-99 | `k` is absent from `errors`. Every other error and all of `watch` are unchanged. |
| `FormState.ResetErrorIdempotent` | src/lib/index.ts:94-99 | Removing an error twice is the same as removing it once. |
| `FormState.ResetErrors` | src/lib/index.ts:101-103 | No key has an error entry afterwards, and `watch` is unchanged. |
| `FormState.ResetErrorsForgetsMerged` | src/lib/index.ts:90-103 | Clearing all errors after a merge gives the same state as clearing them without it: no merged message survives. |
| `FormState.EmptyMessageIsNoError` | src/lib/index.ts:86-99 | For every field, a message set to `''` and a removed message look the same to an error check, and a removed message reads as no error. |
| `FormState.Reset` | src/lib/index.ts:168-172 | `errors` is empty. `watch` holds exactly the initial values, or nothing when there are none. |
| `FormState.ResetForgetsHistory` | src/lib/index.ts:168-172 | The state after `reset` does not depend on any earlier operation. |
| `Validation.ErrorsFromIssues` | src/lib/index.ts:40-54 | The error map has exactly the keys of the issues except `"__proto__"`, and each key maps to the message of the last issue filed under it. |
| `Validation.FilterValues` | src/lib/index.ts:28-60 | The answer is true iff there is a schema and it accepts `watch ⊕ vals`. On success `watch` becomes the schema's data and `errors` is kept. Otherwise `watch` is the merge with incoming values winning. A rejection with issues replaces `errors` with the issues' map. No schema, or a rejection with no issues, leaves `errors` as it was. |
| `Validation.LaterIssueWins` | src/lib/index.ts:50-53 | Of two issues on the same key, the later message is the one reported; on `"__proto__"` neither is. |
| `Validation.ProtoIssueDropped` | src/lib/index.ts:50-53 | Appending an issue filed under `"__proto__"` to any list of issues leaves the error map unchanged, because the assignment neither adds nor overwrites a key. On its own such an issue leaves the map empty. |
| `Validation.PathlessIssueKey` | src/lib/index.ts:46-51 | An issue with an empty path is reported under the key `"undefined"`. |
| `Validation.NoSchemaNeverValid` | src/lib/index.ts:32-59 | Without a schema, validation answers false and only merges the values. |
| `Validation.RejectionReplacesErrors` | src/lib/index.ts:39-56 | After a rejection with issues, the errors do not depend on the errors held before: they are replaced, not merged. |
| `Validation.FailedValidationIdempotent` | src/lib/index.ts:28-60 | Repeating a failed validation with the same candidates changes nothing. |
| `Validation.NormalisedValidationIdempotent` | src/lib/index.ts:28-38 | If the schema's output contains the candidates and is a fixed point of the schema, validating again gives the same success and state and leaves the errors alone. |
| `Controller.Submit` | src/lib/index.ts:20-26 | The callback, when called, sees the validation's state. The callback is called iff one is registered and validation answered true, and it receives the post-validation `watch`. |
| `Controller.SubmitDeliversNormalised` | src/lib/index.ts:25 | With a schema and a callback, the callback fires iff the schema accepts the merged snapshot, and it receives the schema's data. |
| `Controller.NoSchemaNeverSubmits` | src/lib/index.ts:25 | Without a schema the callback is never called. |
| `Controller.RejectedSubmitShowsIssues` | src/lib/index.ts:25 | A rejected submit does not call the callback, keeps the merged snapshot and shows exactly the issues' errors. |
| `Controller.InputEvent` | src/lib/index.ts:123-127 | On successful validation the field's message becomes `''`, so it shows no error. `watch` is then the schema's data and other messages are kept. On failure the field holds the typed value. |
| `Controller.InputWriteAbsorbed` | src/lib/index.ts:124-126 | The listener's direct write before validating makes no difference: the result is validation of `{k: value}` followed by `setError(k, '')` on success. |
| `Controller.InputWithoutSchema` | src/lib/index.ts:123-127 | Without a schema an input only records the typed value, and every message stays, including a stale one on that field. |

## Left out

- `getValues` and `getValue` (src/lib/index.ts:105-114) read a `FormData` snapshot of the DOM form. This is browser I/O with no store effect.
- The `form` action (src/lib/index.ts:146-166) is not modelled. It attaches and detaches the submit listener and writes `initialValues` into matching input elements. It also has a store effect: for every `initialValues` entry with a matching input it merges that value into `watch` (line 155) and leaves `errors` alone. So the state after mounting is not `FormState.Initial`. The submitted snapshot is a parameter of `Controller.Submit` instead.
- `handleInput` (src/lib/index.ts:116-144) is listener wiring. It attaches one `input` listener per FormData entry and never detaches them: `form` discards the returned `destroy` (line 159), whose `removeEventListener` would have no effect anyway (line 136). Only what one installed listener does is modelled, as `Controller.InputEvent`.
- DOM writes are not modelled: `input.value = value` in `updateField`, `target?.reset()` in `reset`, and `event.preventDefault()` in `handleSubmit`. They do not touch the stores. Whether an element exists is the `bound` parameter.
- Svelte `writable`/`get` stores become plain record fields. Subscriptions and reactivity are not modelled.
- Zod's `safeParse` is a foreign library. It is the uninterpreted `Schema` parameter, and only `success`, `data` and each issue's `path` and `message` are used.
- Property order of JS objects is not modelled, because Dafny maps are unordered. The iteration order `Object.entries` gives `updateFields` is the order of its `entries` argument.
- Messages passed to `setError` and `setErrors` are modelled as strings. The source accepts any value there.
- This source has no masking, no dot-path flattening and no per-field state machine.
- `PropertyKeys.SegmentKey`: converts only non-negative integer indices, which are the indices zod puts in a path. It does not model JavaScript's general number-to-string conversion.
- FormState.UpdateField: does not model the selector lookup on a mounted form (src/lib/index.ts:63). A key that makes the selector invalid, such as one containing `"`, makes `querySelector` throw before either store changes. The model always writes both stores.
- FormState.UpdateFields: does not model a batch stopping part-way, for the same reason. When an entry's key makes `querySelector` throw, the earlier entries stay applied and the later ones are never applied (src/lib/index.ts:81-83).
- Controller.Submit: does not model what the callback itself does to the stores. The callback receives the store's own object from `get(watch)`, not a copy (src/lib/index.ts:25). So a callback that mutates its argument, or calls `reset`, `updateField` or `setErrors`, changes the stores before `handleSubmit` returns. The model's state is the one the callback sees when it is called.
