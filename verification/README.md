# Session metrics pipeline — a Dafny model

This project models the session-metrics core of a Flask back end for an
eye-tracking / attention study (`App.py`). Two handlers are covered:

- `/save_session_data` receives one batch of telemetry for a user. It reduces
  the Morphcast attention records and the GazeRecorder gaze records to three
  averages and appends one `session_metrics` row holding the rounded averages
  and the raw request. It then looks up the current baseline, which is the
  `reference_metrics` row with the greatest `computed_date`. Only when a
  baseline exists does it append one `comparative_results` row holding the
  signed, rounded differences session − baseline and a snapshot document.
- `/get_results` returns, for one user, the most recent session, the global
  current baseline, and the most recent comparison tied to that very session.

The database is an in-memory value. `Tables.Store` holds the three tables as
sequences plus the next value of each SERIAL id. `Save.MetricsDb` is the store
as an object: its `SaveSessionData` method appends to its sequence fields step
by step. It is proved to reach the state that the pure function
`Save.SaveSession` gives, and the properties of a save are lemmas about that
function.

Files:

- `wrappers.dfy`: `Option`.
- `rounding.dfy`: `round(x, 2)`.
- `telemetry.dfy`: the averaging.
- `pyint.dfy`: Python's `int(str)` applied to the `user_id` query parameter.
- `tables.dfy`: the rows, the "latest by key" selection and the store invariant `Consistent`.
- `save.dfy`: the save handler.
- `results.dfy`: the read-back handler.

Modelling choices:

- Numbers are exact `real`s. `Round2` rounds to the nearest hundredth with ties
  to the even hundredth. This is Python's rule for `round`, applied to exact
  values rather than to binary floats.
- `ORDER BY key DESC LIMIT 1` is `Tables.Latest`. Its contract promises only
  *some* row whose key sorts first, so ties stay unresolved. PostgreSQL sorts
  NULL keys first in a descending order. `computed_date` is a nullable column,
  so a baseline with a NULL `computed_date` is the current one.
- `datetime.now()` is read twice by a save. The two readings are the parameters
  `sessionDate` and `comparisonDate`.
- `json.dumps(data)` is an opaque string `Submission.raw`. The comparison
  document is the structured `Tables.Snapshot`.
- In a save request, `user_id` is `Option<int>`. It is "falsy" when it is
  missing, null or 0 (`Save.IsFalsy`).

Where the system's design documentation and its code differ, the model follows the code:

- The error messages are the code's Spanish ones.
- The documentation asks for one transaction around both inserts. The code
  commits the session row before the baseline is read (App.py:206). Both
  leave the same tables behind after a successful save, and the model does
  not treat the two inserts as one transaction.
- A non-numeric telemetry value other than a boolean is not replaced by 0.
  `sum` raises and the request fails; this path is left out below.

## Model

| member | source | states |
|---|---|---|
| `Rounding.Round2` | App.py:200-202 | `round(x, 2)`; characterised by `Round2Error`, `Round2OfHundredths`, `Round2Idempotent`, `Round2Monotone` and `Round2Negative` below |
| `Rounding.RoundHalfEven` | App.py:200-202 | the result is an integer within one half of the argument, and an exact tie goes to the even integer |
| `Rounding.Round2Error` | App.py:200-202 | `round(x, 2)` is within half a hundredth of `x` |
| `Rounding.Round2OfHundredths` | App.py:200-202 | a whole number of hundredths is left unchanged by rounding |
| `Rounding.Round2Idempotent` | App.py:200-202 | rounding an already rounded value changes nothing |
| `Rounding.Round2Negative` | App.py:216-218 | a rounded difference is negative if and only if the unrounded one is below −0.005 |
| `Rounding.Round2Monotone` | App.py:200-202 | rounding preserves the order of two values |
| `Telemetry.AvgAttention` | App.py:157-162 | `avg_attention`; characterised by `AvgAttentionEmpty`, `AvgAttentionIsMean`, `MissingAttentionCounts` and `AveragesWithinRange` below |
| `Telemetry.AvgGazeX` | App.py:165-170 | `avg_x`; characterised by `AvgGazeEmpty`, `GazeAxesIndependent`, `MissingGazeCounts` and `AveragesWithinRange` below |
| `Telemetry.AvgGazeY` | App.py:165-172 | `avg_y`; characterised by the same lemmas as `AvgGazeX` |
| `Telemetry.SessionAverages` | App.py:156-172 | the three averages of one batch; `AveragesWithinRange` bounds them and the scenarios in `Save` compute them |
| `Telemetry.SumAppend` | App.py:160 | `sum` of a concatenation is the sum of the two sums |
| `Telemetry.SumBounds` | App.py:160 | n terms in [lo, hi] sum to between n·lo and n·hi |
| `Telemetry.MeanBounds` | App.py:160 | the mean of a non-empty list of values in [lo, hi] lies in [lo, hi] |
| `Telemetry.AvgAttentionEmpty` | App.py:157-162 | an absent or empty `morphcast` list gives `avg_attention` = 0 |
| `Telemetry.AvgAttentionIsMean` | App.py:158-160 | for a non-empty list, the average times the record count is the sum of the scores, a missing score read as 0 |
| `Telemetry.MissingAttentionCounts` | App.py:159-160 | a record with no `attention.avg` adds 0 to the sum and 1 to the denominator |
| `Telemetry.SumPermutation` | App.py:159-170 | `sum` over the values read from the records does not depend on the order of the records |
| `Telemetry.AttentionOrderIrrelevant` | App.py:158-160 | reordering the Morphcast records leaves `avg_attention` unchanged |
| `Telemetry.MissingAttentionInAnyOrder` | App.py:159-160 | in any arrangement of the records plus one without a score, the average times the count is the sum of the other scores |
| `Telemetry.MissingAttentionAnywhere` | App.py:159-160 | a record without a score inserted at any position, between any front and back part of the list, adds 0 to the sum and 1 to the denominator |
| `Telemetry.AvgGazeEmpty` | App.py:165-172 | an absent or empty `gazeRecorder` list gives x = y = 0 |
| `Telemetry.GazeAxesIndependent` | App.py:167-170 | the x average depends only on the x fields and the y average only on the y fields of the same list |
| `Telemetry.GazeOrderIrrelevant` | App.py:166-170 | reordering the GazeRecorder records leaves both gaze averages unchanged |
| `Telemetry.MissingGazeCounts` | App.py:167-170 | a record missing both coordinates adds 0 to each sum and 1 to each denominator |
| `Telemetry.AveragesWithinRange` | App.py:156-172 | when every value the records contribute (0 for a missing field) lies in [lo, hi], and 0 does where a list is absent or empty, all three averages lie in [lo, hi] |
| `PyInt.ParseInt` | App.py:292-296 | `int(user_id)`, None where Python raises `ValueError`; characterised by `ParseAccepts` and `ParseOnlyNumerals` (together an if and only if), `ParseShow` and `ParseBlank` below |
| `PyInt.TrimLeft` | App.py:293 | the result is a suffix of the input that does not start with whitespace, and every character dropped is whitespace |
| `PyInt.TrimRight` | App.py:293 | the result is a prefix of the input that does not end with whitespace, and every character dropped is whitespace |
| `PyInt.TrimAround` | App.py:293 | stripping removes exactly the blanks on either side of a text that neither starts nor ends with one |
| `PyInt.NumeralValue` | App.py:293 | an optional sign followed by a digit group (single underscores between digits allowed) reads as the signed value of the digits |
| `PyInt.ParseAccepts` | App.py:292-296 | `int` accepts any digit group after an optional `+` or `-`, with blanks on either side, and returns its signed value |
| `PyInt.ParseOnlyNumerals` | App.py:292-296 | `int` accepts nothing else: every accepted string is blanks, an optional sign, a digit group and blanks, and its value is the signed value of those digits; any other string is the `ValueError` that becomes "user_id inválido" |
| `PyInt.ParseShow` | App.py:292-296 | `int` reads back the numeral `str(n)` writes for every integer n |
| `PyInt.ParseBlank` | App.py:292-296 | the empty string and strings of blanks are rejected, as `ValueError` |
| `Tables.Latest` | App.py:208-212 | `ORDER BY key DESC LIMIT 1`: None iff no row qualifies; otherwise a qualifying row that sorts first, NULL keys ahead of all others |
| `Tables.LatestReference` | App.py:325-330 | no baseline iff the reference table is empty; otherwise one with maximal `computed_date` |
| `Tables.NullDateIsCurrent` | App.py:325-330 | the current baseline has a NULL `computed_date` if and only if some baseline has one, since NULLs sort first |
| `Tables.LatestSessionOf` | App.py:305-311 | none iff the user has no session; otherwise one of the user's sessions with maximal `session_date` |
| `Tables.LatestComparisonFor` | App.py:344-350 | none iff no comparison matches both user and session id; otherwise a matching one with maximal `comparison_date` |
| `Tables.AtMostOneComparisonPerSession` | App.py:239-253 | in a consistent store no two comparisons share a session, and each names an id already handed out |
| `Save.IsFalsy` | App.py:152 | `not user_id`; `MissingUserIdWritesNothing` states its effect |
| `Save.Differences` | App.py:216-218 | the rounded signed differences; characterised by `ComparisonDifferences` and `Rounding.Round2Negative` |
| `Save.SaveSession` | App.py:149-276 | the handler as a function of the store; characterised by the lemmas below, from `MissingUserIdWritesNothing` to `SavePreservesConsistency` |
| `Save.MissingUserIdWritesNothing` | App.py:151-153 | a missing, null or zero `user_id` fails with "user_id no proporcionado" and leaves every table as it was |
| `Save.SaveAppendsOneSession` | App.py:192-205 | a save appends exactly one session row with the user, clock reading, rounded averages and raw body; its id is fresh and is returned; references and earlier comparisons are unchanged |
| `Save.ComparisonIffReference` | App.py:208-257 | a comparison row is appended iff a reference row exists; it carries the request's user and the new session id, and earlier comparisons stay as they were |
| `Save.ComparisonDifferences` | App.py:214-237 | each difference is Round2(unrounded session average − value of a baseline with maximal `computed_date`); the snapshot holds the rounded averages, that baseline and the differences; a difference is negative iff the baseline exceeds the session value by more than 0.005 |
| `Save.ResponseShape` | App.py:261-274 | success always carries the new session id; `comparison`/`comparison_id` are present iff a baseline was found, and then equal the stored row's snapshot and id; then the message is the "guardados exitosamente" one; otherwise it is the no-reference one |
| `Save.InsertSessionConsistent` | App.py:192-206 | appending a session row under the next SERIAL id keeps the store invariant |
| `Save.InsertComparisonConsistent` | App.py:239-254 | appending, under the next SERIAL id, a comparison linked to the newest session (which has none yet) keeps the store invariant |
| `Save.SavePreservesConsistency` | App.py:192-254 | a save keeps the store invariant: increasing positive ids below the SERIAL counters, each comparison linked to a session of the same user with matching snapshot, at most one comparison per session |
| `Save.ScenarioAverages` | App.py:157-172 | attention 0.8 and 0.6 and gaze (100, 50) average to 0.7, 100 and 50, already whole hundredths |
| `Save.ScenarioWithoutBaseline` | App.py:157-205 | attention 0.8 and 0.6, gaze (100, 50) and no baseline give a row with 0.70, 100 and 50, and no comparison |
| `Save.ScenarioWithBaseline` | App.py:208-218 | the same batch against baseline (0.5, 90, 60) gives differences 0.20, 10 and −10 |
| `Save.MetricsDb.constructor` | App.py:49-71 | the store starts with empty session and comparison tables, SERIAL counters at 1, and is consistent |
| `Save.MetricsDb.SaveSessionData` | App.py:149-276 | the step-by-step inserts keep the store consistent and leave exactly the tables and response of `SaveSession` |
| `Results.GetResultsNullSafe` | App.py:286-369 | an empty or missing `user_id` fails with "user_id no proporcionado"; a non-integer one fails with "user_id inválido"; otherwise succeeds with the user's latest session (none iff the user has none), the global latest baseline (none iff none exists), and — only when there is a session — the latest comparison matching both user and that session's id |
| `Results.GetResults` | App.py:286-369 | as written: a well-formed `user_id` ends in an unhandled exception if and only if some baseline has a NULL `computed_date` (App.py:337); in every other case it answers exactly as `GetResultsNullSafe` |
| `Results.NullDatedBaselineCrashes` | App.py:325-337 | with a single baseline whose `computed_date` is NULL, a request with a valid `user_id` fails unhandled, while the null-safe handler answers it |
| `Results.ResultsForUser` | App.py:292-361 | for the numeral of any user id, the null-safe handler succeeds with exactly the user's latest session, the latest baseline, and the latest comparison of that session (none when there is no session) |
| `Results.NoSessionsStillSucceeds` | App.py:311-323 | a user with no sessions still gets a success, with no session and no comparison, when every baseline has a date |
| `Results.LatestAfterAppend` | App.py:305-311 | a session appended with a date later than all the user's sessions is the one returned |
| `Results.OnlyComparison` | App.py:344-350 | the only comparison of a session is the one returned for it |
| `Results.ResultsAfterSaveNullSafe` | App.py:305-361 | with the null-safe handler, if the clock has moved past the user's earlier sessions, reading back right after a save returns the row just stored, the baseline it was compared against, and a comparison iff the save made one — with the same id and snapshot |
| `Results.ResultsAfterSave` | App.py:305-361 | the same for the handler as written, when every baseline has a date: if the clock has moved past the user's earlier sessions, reading back right after a save returns the row just stored, the baseline it was compared against, and a comparison iff the save made one — with the same id and snapshot |

## Left out

- `register`, `login` and `get_users` (App.py:86-142, 371-388) are not part of this model. They hash and check passwords through bcrypt, a library not modelled, and otherwise do plain inserts and lookups.
- Connection handling, table creation and the startup check (App.py:17-81) are left out. So are Flask routing, CORS, HTTP status codes, `app.run` and the handlers' console logging with `print` (App.py:279, 287, 290, 295, 300). A response is success or failure with its message and fields.
- Database and driver failures are left out. This includes the connection check in each handler (App.py:174-176, 298-301) and the foreign-key check on `user_id`: the model accepts any non-zero integer user. SERIAL ids and `user_id` are 32-bit integers in PostgreSQL, while the model's ids and users are unbounded; storing a value beyond 2147483647 (a save's `user_id` at App.py:198, or a SERIAL id past its maximum) makes the insert fail, which is one of the failures left out here. A larger `user_id` in `/get_results` only appears in the `WHERE` clauses (App.py:308, 347), where PostgreSQL compares it without error and finds no rows, as the model does.
- Exceptions raised while computing are left out (caught at App.py:278-280). A non-numeric telemetry value other than a boolean (a JSON null included) makes `sum` raise. So do a truthy non-list `morphcast` or `gazeRecorder` (a non-empty string or object, a non-zero number, `true`), a record that is not an object, and a null `session_data`. A null or other falsy `morphcast` or `gazeRecorder` (`{}`, `""`, `0`, `false`) fails the `if` at App.py:158 and App.py:166 and behaves like an absent list; the model represents all of these as the `None` of `Telemetry.SessionData`. A NULL average in the chosen baseline row would make the subtraction raise after the session row has been committed. The model has numeric telemetry values and non-NULL baseline averages only. A NULL `computed_date` is modelled (see Findings).
- Boolean telemetry values are left out. JSON `true` and `false` arrive as Python booleans, which `sum` adds as 1 and 0 (App.py:160, 169-170); the model's values are numbers only.
- `Save.IsFalsy`: a string or boolean `user_id` in the save request is not modelled, only absent/null and integers.
- `PyInt.ParseInt`: Python's `int` refuses numerals of more than 4300 digits with `ValueError`, which App.py:294-296 turns into "user_id inválido"; the model accepts numerals of any length.
- `PyInt.ParseInt`: only ASCII whitespace and ASCII digits are modelled; Python's `int` also strips Unicode whitespace and accepts other Unicode decimal digits.
- `json.dumps` of the request and the text `isoformat` produces are left out. The request is an opaque string and dates are integers; only the failure of `isoformat` on a NULL date is modelled, as `Results.Unhandled`.
- Concurrent requests are left out: saves run one at a time. Two saves whose inserts interleave, or a baseline inserted between the session commit (App.py:206) and the baseline query (App.py:208-212), are not represented. The clause of `Tables.Consistent` that comparison session ids increase holds only for one save at a time: if save A inserts session 10, save B inserts session 11 and its comparison, and A then inserts the comparison for 10, the ids are out of order.
- Floating-point behaviour is left out. Averages and differences are exact reals, so a value Python's binary `round` places on the other side of a tie may round differently here.
- Writes to `reference_metrics` come from outside these handlers. The baselines are given to the store when it is created and are never changed by it.
- `Tables.Latest` returns one particular row among rows with tied keys, while the database may return any of them. The contracts of the selection functions and of `Results.GetResults` promise only "some row whose key sorts first". `Results.ResultsAfterSave` relates the baseline read back to the one compared against through this model's choice.

## Findings

| source | as written | input that shows it | evidently intended | confidence | as-written member | corrected member |
|---|---|---|---|---|---|---|
| App.py:337 | `reference_data[4].isoformat()` is applied to the current baseline's `computed_date` outside any `try`; the column is nullable and NULLs sort first under `ORDER BY computed_date DESC` | one `reference_metrics` row with `computed_date` NULL, and `/get_results?user_id=1` | report the baseline with a null `computed_date` | not executed; follows from the nullable column, PostgreSQL's NULLS FIRST for DESC, and `None` having no `isoformat` | `Results.NullDatedBaselineCrashes` | `Results.GetResultsNullSafe` |
