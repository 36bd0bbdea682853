# urlparse processor — a verified model

This project models the `urlparse` event processor of libbeat. The processor is
configured with an ordered list of `from`/`to` mappings and two flags,
`ignore_missing` (default false) and `fail_on_error` (default true). For each
event, and for each mapping in order, it does the following:

- It looks up the `from` field.
- It checks that the value is a string and parses it as a URL.
- It writes an object with the eight keys `scheme`, `opaque`, `hostname`,
  `port`, `path`, `raw_path`, `raw_query` and `fragment` at `to`. When `to` is
  empty, it writes at `from` instead.

In strict mode (`fail_on_error`), the processor snapshots the fields on entry.
The first failing mapping restores that snapshot, puts the error text at
`error.message`, and returns the error at once. In best-effort mode, failing
mappings are skipped and the run never returns an error.

## Structure

- `wrappers.dfy`: module `Wrappers`, with `Option` and `Result`.
- `events.dfy`: module `Events`.
  - The event's fields are a `map<string, Value>` keyed by dotted path.
  - `GetValue` looks a path up. `Put` writes a path.
  - The dotted-path walk is kept abstract as an `Access`. Its two predicates say
    whether a read meets a non-map segment and whether a write cannot reach
    its target.
  - Class `Event` holds the fields and updates them in place (`PutValue`).
- `urlparse.dfy`: module `UrlParse`.
  - The configuration types and `Configure`, which applies the defaults and
    `New`'s required settings.
  - The component object.
  - The specification functions: `FieldResult` for one mapping, `Applied` for
    the mappings applied in order with failures skipped, and `FirstFailure` for
    the first mapping that fails on what its predecessors left. `RunResult`
    combines them into a whole run.
  - Class `UrlParse`, whose methods `ParseField` and `Run` change an `Event` in
    place. Both are proved equal to those functions.
- `properties.dfy`: module `UrlParseProperties`. It holds the processor's
  promises as lemmas about the specification functions, plus three concrete
  scenarios.

The code the processor calls is not part of this model. It is given as a
parameter `Env`:

- `urlParse` stands for `url.Parse` followed by `Hostname()` and `Port()`. It
  returns `None` when the parser rejects the string.
- `access` stands for the dotted-path traversal of the event's map.
- `format` stands for the formatting of the error message text.

## Model

| member | source | states |
|---|---|---|
| `Events.GetValue` | libbeat/processors/urlparse/urlparse.go:98-104 | A lookup succeeds with the stored value exactly when the walk does not fail and the path is present. It reports key-not-found exactly when the walk does not fail and the path is absent. Every other failure is a not-a-map error. |
| `Events.Put` | libbeat/processors/urlparse/urlparse.go:121-132 | A put fails exactly when the path cannot be written. On success, the path holds the new value and no other path changes. |
| `Events.Event.PutValue` | libbeat/processors/urlparse/urlparse.go:88 | Updates the event in place as `Put` says. When the put fails, the event is unchanged. |
| `UrlParse.Configure` | libbeat/processors/urlparse/urlparse.go:39-66 | Configuration succeeds exactly when there is at least one mapping and no mapping has an empty `from`. On success, `ignore_missing` holds only when it was set to true, and `fail_on_error` holds unless it was set to false. Every resolved target path is non-empty. |
| `UrlParse.Target` | libbeat/processors/urlparse/urlparse.go:116-119 | The target is `to`, or `from` when `to` is empty. It is empty only when both are empty. |
| `UrlParse.ComponentMap` | libbeat/processors/urlparse/urlparse.go:121-130 | The written object has exactly the eight component keys, and every value is a string. |
| `UrlParse.FieldResult` | libbeat/processors/urlparse/urlparse.go:97-135 | A successful mapping changes no path other than its target. When it changes anything, the target afterwards holds an eight-key component object. |
| `UrlParse.Applied` | libbeat/processors/urlparse/urlparse.go:81-92 | Applying the mappings in order, with failed ones skipped, changes no path outside the configured targets. |
| `UrlParse.FirstFailure` | libbeat/processors/urlparse/urlparse.go:81-90 | Returns `None` exactly when every mapping succeeds on the fields its predecessors left. Otherwise it returns a failing mapping, with its error, all of whose predecessors succeeded. |
| `UrlParse.FirstFailureUnique` | libbeat/processors/urlparse/urlparse.go:81-90 | Any failing mapping whose predecessors all succeeded is the one `FirstFailure` finds. |
| `UrlParse.AppliedStep` | libbeat/processors/urlparse/urlparse.go:81-82 | Mapping `i` runs on the fields the first `i` mappings left. Its result is kept on success and dropped on failure. |
| `UrlParse.FirstFailureStep` | libbeat/processors/urlparse/urlparse.go:82-90 | While nothing has failed, mapping `i` becomes the first failure exactly when it fails. |
| `UrlParse.Annotated` | libbeat/processors/urlparse/urlparse.go:87-88 | The restored fields gain `error.message` holding the formatted error. Nothing else changes. When that path cannot be written, the fields stay as they were on entry, because the put's error is ignored. |
| `UrlParse.RunResult` | libbeat/processors/urlparse/urlparse.go:75-95 | The outcome of a whole run, the specification of `Run`. An error is returned only in strict mode, and then only `error.message` differs from the entry fields. Without an error, only configured targets differ. Its remaining promises are the lemmas `StrictRollsBack`, `StrictSuccessAppliesAll`, `StrictStopsAtFirstFailure`, `BestEffortNeverErrs`, `BestEffortSkipsFailure` and the three samples. |
| `UrlParse.UrlParse.constructor` | libbeat/processors/urlparse/urlparse.go:68-71 | The processor keeps the configuration it was built with. |
| `UrlParse.UrlParse.ParseField` | libbeat/processors/urlparse/urlparse.go:97-135 | Looks up, type-checks, parses and writes in place, with results equal to `FieldResult`. On failure it returns the error and leaves the event untouched. |
| `UrlParse.UrlParse.Run` | libbeat/processors/urlparse/urlparse.go:75-95 | Returns the same event. The fields afterwards and the error are those of `RunResult`, with the loop invariant relating the fields to the snapshot. In strict mode exactly the mappings up to and including the first failing one are evaluated; otherwise all of them are. |
| `UrlParse.New` | libbeat/processors/urlparse/urlparse.go:58-73 | Builds a fresh processor exactly when `Configure` succeeds, with the resolved configuration. Otherwise it returns `Configure`'s error. |
| `UrlParseProperties.MissingSource` | libbeat/processors/urlparse/urlparse.go:98-103 | A missing source is a no-op success when `ignore_missing` is set. Otherwise it is a key-not-found failure. |
| `UrlParseProperties.LookupErrorFails` | libbeat/processors/urlparse/urlparse.go:98-103 | A lookup failing for any reason other than a missing key fails the mapping, even with `ignore_missing`. |
| `UrlParseProperties.NonStringSourceFails` | libbeat/processors/urlparse/urlparse.go:106-108 | A present non-string source fails with an invalid-type error, and nothing is written. |
| `UrlParseProperties.UnparsableSourceFails` | libbeat/processors/urlparse/urlparse.go:110-114 | A string the URL parser rejects fails with a parse error, and nothing is written. |
| `UrlParseProperties.ParsedSourceIsWritten` | libbeat/processors/urlparse/urlparse.go:116-132 | A parsed string is written as the component object at `to`, or at `from` when `to` is empty. When that path cannot be written, the mapping fails instead. |
| `UrlParseProperties.ComponentsRoundTrip` | libbeat/processors/urlparse/urlparse.go:121-130 | The components can be read back unchanged from the written object, so the eight keys hold the eight parsed parts. |
| `UrlParseProperties.FieldOutcomeShape` | libbeat/processors/urlparse/urlparse.go:97-135 | A mapping fails exactly in these cases: a lookup error, a missing source not ignored, a non-string value, a parse failure, or an unwritable target. |
| `UrlParseProperties.AppliedConcat` | libbeat/processors/urlparse/urlparse.go:81-82 | Applying `pre + post` is applying `pre`, then `post` to the result. |
| `UrlParseProperties.LastWriterWins` | libbeat/processors/urlparse/urlparse.go:81-82 | When mapping `k` writes components `c` and no later mapping has the same target, the final fields hold `c` at that target. Target equality here is equality of flat keys; see "## Left out" for targets related by a dotted prefix. |
| `UrlParseProperties.StrictRollsBack` | libbeat/processors/urlparse/urlparse.go:76-89 | In strict mode a run errs exactly when some mapping fails. The error is that of a failing mapping all of whose predecessors succeeded. The returned fields are the entry fields plus `error.message`, whatever earlier mappings wrote, when that path can be written; otherwise they are the entry fields unchanged, because the put's error is ignored. |
| `UrlParseProperties.StrictSuccessAppliesAll` | libbeat/processors/urlparse/urlparse.go:81-94 | In strict mode a run without error has every mapping succeed, in order. Only the targets change. |
| `UrlParseProperties.StrictStopsAtFirstFailure` | libbeat/processors/urlparse/urlparse.go:81-90 | In strict mode, mappings appended after a failing list change neither the fields nor the error, so none of them is evaluated or written. |
| `UrlParseProperties.IgnoredMissingNeverRollsBack` | libbeat/processors/urlparse/urlparse.go:98-102 | With `ignore_missing`, a mapping whose source is missing succeeds. It is therefore never the failure that triggers a rollback. |
| `UrlParseProperties.BestEffortNeverErrs` | libbeat/processors/urlparse/urlparse.go:86-94 | In best-effort mode a run never errs and only configured targets change. `error.message` is untouched unless it is a target itself. This is read on flat keys: a target `error` would, in the program, also replace `error.message` (see "## Left out"). |
| `UrlParseProperties.BestEffortSkipsFailure` | libbeat/processors/urlparse/urlparse.go:82-91 | In best-effort mode a failing mapping changes nothing: the run equals the run without it. |
| `UrlParseProperties.ConfigureDefaults` | libbeat/processors/urlparse/urlparse.go:59-62 | With neither flag given, `ignore_missing` is false and `fail_on_error` is true. |
| `UrlParseProperties.ConfigureRejects` | libbeat/processors/urlparse/urlparse.go:40-46 | An empty mapping list, or a mapping without `from`, is a configuration error. |
| `UrlParseProperties.RunTwice` | libbeat/processors/urlparse/urlparse.go:75-95 | Two runs of one processor on events with equal fields give equal fields and equal errors. |
| `UrlParseProperties.SampleRewrite` | libbeat/processors/urlparse/urlparse.go:116-129 | `request = "https://example.com:8443/a/b?x=1#frag"` is rewritten in place into its eight components, with no error. This holds given that parse result. |
| `UrlParseProperties.SampleMissingStrict` | libbeat/processors/urlparse/urlparse.go:86-89 | With an empty event in strict mode, the error is key-not-found and the fields are the empty event annotated as `Annotated` says. When `error.message` can be written, it is the only field afterwards and holds the formatted error. |
| `UrlParseProperties.SampleWrongTypeBestEffort` | libbeat/processors/urlparse/urlparse.go:106-108 | `request = 42` in best-effort mode comes back unchanged, with no error. |

## Left out

- Plugin registration and the `RequireFields`/`AllowedFields` checks (urlparse.go:50-56) are global registry wiring. Rejecting unknown configuration keys is therefore not modelled.
- Decoding the configuration (`c.Unpack`, urlparse.go:64-66) is an external library. The model starts from the decoded `Options`. It models the `validate:"required"` tags as "at least one mapping, and a non-empty `from` in each".
- `url.Parse`, `Hostname()` and `Port()` are foreign library code. They are the parameter `Env.urlParse`, and no URL grammar is modelled.
- The dotted-path walk of the event's map is the parameter `Env.access`. As a result, the model does not see into objects written by earlier mappings: a later mapping whose `from` points inside such an object sees key-not-found, or a stale flat entry stored under that dotted key.
- Paths related by a dotted prefix (`a` and `a.b`) are independent keys in the model. In the program, a put at `a` replaces everything under `a`, and a put at `a.b` changes what `a` reads. So the "no other path changes" clauses of `Events.Put`, `UrlParse.FieldResult`, `UrlParse.Applied`, `UrlParse.RunResult` and `UrlParse.Annotated` hold of flat keys only. So do `UrlParseProperties.LastWriterWins` when a later target is a dotted prefix or extension of the earlier one, and the `error.message` clause of `UrlParseProperties.BestEffortNeverErrs` when a target is `error` or starts with `error.message.`.
- `Events.Access` over-approximates the traversal: a read may fail even for a path present as-is, which the real lookup never does. Lemmas such as `NonStringSourceFails` therefore carry a `!readFails` premise that the program does not need.
- `beat.Event`'s special handling of `@timestamp` and `@metadata` paths is not part of this model. Only the field map is modelled.
- Debug logging (urlparse.go:85), the logger field, and `String()` (urlparse.go:137-139) are diagnostics only.
- The exact error message texts (urlparse.go:84, 103, 108, 113, 131) are the parameter `Env.format`. The error causes themselves are the datatype `FieldError`.
- The snapshot is a value copy of the map. The depth of `Clone()` has no counterpart here, because Dafny maps are values.
- UrlParse.UrlParse.ParseField: on a failed write, the event is left exactly as it was. The real put may already have created intermediate maps on the way, and the model does not capture that.
- UrlParseProperties.RunTwice: it only states that a run is deterministic. Running the processor a second time on its own output is not claimed to be idempotent. That second run can differ: the source field may have been rewritten into an object, which then fails the type check.
