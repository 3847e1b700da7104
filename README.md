# Exercise tracker: the log query and exercise creation, in Dafny

This project models the two pieces of logic of a small exercise-tracking
REST service (an Express application over a MongoDB document store):

* `GET /api/users/:_id/logs`: the user's exercises are projected to
  `{description, duration, date}` entries; the entries are filtered by the
  optional, inclusive `from`/`to` date bounds (four cases, by which bounds
  are present); the result is cut with `slice(0, limit)` when `limit` is
  present; the reply is `{username, count, _id, log}` with `count` the
  length of `log`.
* `POST /api/users/:_id/exercises`: the stored date is the supplied date
  re-rendered by `toDateString` when it is truthy, otherwise the current
  date. The reply echoes the saved duration, description and date, and its
  `_id` is the owner id from the path, not the new exercise's own id.

All of this is pure computation over values, so it is modelled as Dafny
functions over `seq<Exercise>` and `seq<LogEntry>`, with lemmas.

JavaScript details are modelled explicitly:

* **Truthiness.** A query or form field is `Option<string>`. It is present
  (`Truthy`) only when it is given and is not the empty string.
* **Dates.** `new Date(s)` is a parameter `parse: string -> Option<int>`,
  where `None` is an Invalid Date. `toDateString` of a valid time value is a
  parameter `format: int -> string`, and an invalid one renders as
  `"Invalid Date"`. The current time is a parameter `now`. A relational
  comparison with an Invalid Date is false in JavaScript, so `AtOrAfter` and
  `AtOrBefore` are false whenever either side is `None`. A present bound that
  does not parse therefore empties the log.
* **`limit`.** `slice(0, limit)` is modelled with ECMAScript's full rules
  (`SliceFromStart`). The conversion ToIntegerOrInfinity(ToNumber(limit))
  is a parameter `toInteger` that yields a finite integer or an infinity.
  A negative limit drops entries from the end. A non-numeric limit becomes 0
  and yields an empty log. The string `"0"` is truthy, so `limit=0` also
  yields an empty log.

Modules:

* `Options` (options.dfy): the `Option` datatype.
* `Sequences` (sequences.dfy): order-preserving subsequences.
* `JsSemantics` (js_semantics.dfy): truthiness, Date values and `slice`.
* `ExerciseLog` (exercise_log.dfy): the log query.
* `ExerciseCreation` (exercise_creation.dfy): the creation record and reply.

The `_id` of the creation reply is the owner id, because that reply is the
user object with the exercise fields added.

## Model

| member | source | states |
|---|---|---|
| `JsSemantics.SliceFromStart` | index.js:133 | `slice(0, end)` is always a prefix: for `end` ≥ 0 its length is min(end, length); for a negative end it drops that many entries from the back (never below empty); +∞ keeps everything and −∞ keeps nothing |
| `ExerciseLog.Project` | index.js:110-116 | the projected log has one entry per exercise, in the same order, each carrying exactly that exercise's description, duration and date |
| `ExerciseLog.ProjectAppend` | index.js:109-116 | projecting exercises `a + b` gives the projection of `a` followed by that of `b` |
| `ExerciseLog.WindowOf` | index.js:119-130 | the branch taken: both bounds when `from` and `to` are truthy, `from` only, `to` only, or no filter exactly when neither is truthy |
| `ExerciseLog.KeepWithin` | index.js:120-126 | a `filter` with a window callback yields an order-preserving subsequence of the log, and an entry is in it if and only if it is in the log and the window admits its parsed date |
| `ExerciseLog.KeepWithinCount` | index.js:120-126 | each admitted entry is kept as many times as it occurs, and each other entry not at all, so nothing is duplicated or lost |
| `ExerciseLog.KeepWithinAppend` | index.js:120-126 | filtering `a + b` is filtering `a` followed by filtering `b` |
| `ExerciseLog.KeepWithinNothing` | index.js:120-126 | a window that admits no time value keeps no entry |
| `ExerciseLog.BetweenIsSinceThenUntil` | index.js:119-127 | the two-bound filter equals the `to` filter applied to the result of the `from` filter |
| `ExerciseLog.FilterLog` | index.js:118-130 | the filtered log is a subsequence of the projected log. With both bounds, an entry is kept if and only if its date is ≥ `from` and ≤ `to` (inclusive). With `from` only, if and only if ≥ `from`. With `to` only, if and only if ≤ `to`. With neither, the log is unchanged |
| `ExerciseLog.FilterLogCount` | index.js:118-130 | no entry occurs more often after filtering, and an entry the chosen window admits (or every entry, when there is no window) occurs exactly as often |
| `ExerciseLog.InvalidBoundKeepsNothing` | index.js:119-127 | a truthy `from` or `to` that does not parse as a date leaves the filtered log empty |
| `ExerciseLog.FilterLogAppend` | index.js:118-130 | the date filter distributes over concatenation of logs |
| `ExerciseLog.LimitLog` | index.js:132-134 | the limited log is a prefix of the filtered log. With `limit` absent or empty, it is the whole log. With a limit n ≥ 0, it is exactly the first min(n, length) entries, so at most n. With a negative n, it is the log without its last n entries |
| `ExerciseLog.QueryLog` | index.js:107-142 | the reply carries the user's `username` and `_id`, and `count` equals the length of `log`. `log` is a subsequence of the projected exercises and a prefix of the filtered log. It equals the filtered log when `limit` is absent, and for a limit n ≥ 0 `count` is min(n, length of the filtered log), so at most n |
| `ExerciseLog.QueryLogWithinWindow` | index.js:118-140 | every entry of the reply lies inside the date window the query selected |
| `ExerciseLog.FromScenario` | index.js:122-124 | for any time values D1 < D2 < D3 of three exercises and a `from` parsing to D2, the log is exactly the second and third exercises, in that order |
| `ExerciseLog.LimitOneScenario` | index.js:132-138 | with two exercises and `limit=1`, the log is the first exercise alone and `count` is 1 |
| `ExerciseCreation.StoredDate` | index.js:91 | the stored date is the supplied date re-rendered when the field is truthy ("Invalid Date" if it does not parse), and the current date rendered otherwise |
| `ExerciseCreation.CreateExercise` | index.js:88-101 | the saved exercise has the new id, the path's owner id, the form's duration and description and the stored date. The reply echoes those fields with the looked-up username, and its `_id` is the owner id, which differs from the exercise's id whenever the two ids differ |
| `ExerciseCreation.CreatedExerciseEndsLog` | index.js:88-141 | when the store lists the new exercise after the earlier ones, the owner's unfiltered log gains exactly one entry after a creation, at the end, with the description, duration and date of the creation reply; `count` grows by one, and both replies carry the same `_id` and username |
| `ExerciseCreation.DatedExerciseFoundOnItsDay` | index.js:91-120 | an exercise created with a parseable date appears in the log queried with `from` = `to` = that date, provided the stored date string parses back to the same time value |
| `ExerciseCreation.UnparseableDateHiddenFromBoundedLogs` | index.js:91-127 | an exercise created with a truthy date that does not parse is stored as "Invalid Date" and never appears in a log with a `from` or `to` bound |

## Left out

- Express setup, CORS, body parsing, static files and the landing page (index.js:1-14): framework plumbing.
- Database connection and server start-up (index.js:16-25): I/O and process lifecycle.
- Mongoose schemas, the `exercises` virtual and `populate` (index.js:27-62, 109): the model takes the user's exercises, in the order the store returns them, as its input.
- User creation and listing (index.js:64-83): each is a single store call with no logic of its own.
- `findById`, `save` and the `res.send(e)` error paths (index.js:87, 94, 102-104, 108): store I/O and error serialisation. The model does not cover an unknown user id, a malformed id, a missing required field or a failed cast. The username is an input, and the saved record is taken to be the record built.
- Date parsing and `toDateString` rendering (index.js:91, 120-126): library behaviour, including time zones. They are the parameters `parse` and `format`.
- ToNumber/ToIntegerOrInfinity of `limit` (index.js:133): library behaviour. It is the parameter `toInteger`.
- Query values that are arrays or objects (a repeated or bracketed query key): only string fields are modelled.
- `duration` is modelled as a real number. The IEEE double representation is not modelled, because the value is only carried through.
- Concurrent requests: the handlers share no in-process state.
- ExerciseCreation.CreatedExerciseEndsLog: assumes the store lists the new exercise after the earlier ones; `populate` (index.js:109) sorts nothing and the store does not promise insertion order, so where the new entry lands in a real log is not modelled.
