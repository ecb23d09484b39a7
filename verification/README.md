# LendWid transaction engine in Dafny

This project models the transaction engine of the LendWid loan-collection server, found in
`server.py`. Each write route hands the store a pure transform of the user's document.
The four transforms are:

- **add client**: registers the next free `P<n>` identifier as an active loan;
- **post entry**: appends one week's entry to a client, credits it when it is `"paid"`,
  and closes the loan at twenty weeks paid;
- **daily batch sweep**: once per date, marks every active client due on today's weekday
  as paid for the day, and records an undo receipt under the date;
- **undo last batch**: pops the receipt with the greatest date and reverts what it records.

The model also covers the helpers the transforms share. These are the document repair, the
lookup of today's entry, and the identifier allocator. It covers the three read-only folds
too: the `/nextClientId` preview, the `/dashboard` totals and the `/weekly` tally.

Each transform is a total function of the document. A missing document is `None`. The
transforms that raise in the source return a `Result`, and a raise becomes a `Failure` that
writes nothing. Today's date and weekday are parameters, and the store's schemaless keys are
typed:

- the `"<id>Stat"` key of a client node is the `stat` field of a `ClientRecord`;
- the `"week<N>"` keys are natural numbers;
- a `ClientData` key is `P(n)` or, for anything else the store may hold, `Named(key)`.

Modules, one per file:

- `Results`: `Option` and `Result`.
- `Sets`: minima and maxima of finite sets of naturals, and cardinality facts.
- `Text`: the code-point order on strings that Python's `sorted` uses, and ASCII lower-casing.
- `Ledger`: the document, repair, week arithmetic, `FindTodayEntry`, the credit-and-close
  rule, and the invariants:
  - `Balanced`: `AllStats` counts the clients, the active ones and the closed ones, and every
    stat has `WeeksPaid <= 20` and is closed exactly at 20;
  - `Valid`: `Balanced`, and every schedule's week numbers run densely from 1.
- `Registrar`: the identifier allocator, the add-client transform and the preview.
- `Poster`: the post-entry transform.
- `Sweeper`: the batch sweep.
- `Undo`: the undo of the last batch.
- `RoundTrip`: a sweep followed by its undo.
- `Reports`: the dashboard and weekly folds.
- `Traces`: sequences of requests and the invariant they keep.

## Model

| member | source | states |
|---|---|---|
| Ledger.Repair | server.py:46-65 | An absent document becomes zeroed `AllStats`, empty `ClientData` and no receipts; a present one gets only its missing `AllStats`/`ClientData` filled in, with every present field kept. |
| Ledger.RepairIdempotent | server.py:46-65 | Repairing a repaired document changes nothing. |
| Ledger.EmptyLedgerValid | server.py:47-57 | The document created for an absent user satisfies the full invariant. |
| Ledger.MaxWeek | server.py:150-158 | The greatest week number in use bounds every week; it is one of them, or 0 when there is none. |
| Ledger.NextWeek | server.py:158 | The week a new entry goes to is at least 1, lies after every week in use, and is 1 or directly follows a week in use (max+1), never filling a gap. |
| Ledger.FindTodayEntry | server.py:67-71 | `None` exactly when no week is dated today; otherwise a week dated today, the least such week. |
| Ledger.BalancedLoansAddUp | server.py:180-183 | In a balanced ledger `TotalLoans == ActiveLoans + ClosedLoans`, and both parts are non-negative. |
| Ledger.DenseMaxWeek | server.py:150-160 | In a dense schedule the greatest week number is the number of weeks, so the next week is one more. |
| Ledger.DenseAppend | server.py:158-166 | Appending at the next week keeps a schedule of fewer than 20 weeks dense. |
| Ledger.ReplaceActiveKeepsBalanced | server.py:180-183 | Replacing an active client by a consistent record keeps the ledger balanced when a closure moves one loan from active to closed. |
| Ledger.ReplaceActiveKeepsValid | server.py:180-183 | Replacing an active client by a consistent record keeps the ledger valid when a closure moves one loan from active to closed. |
| Registrar.FirstFreeFrom | server.py:73-77 | The upward scan from `P<i>` returns a free `P<m>` with `m >= i`, and every `P<j>` below `m` is taken. |
| Registrar.NextClientId | server.py:73-77 | The allocated `P<i>` has `i >= 1`, is not a key of `ClientData`, and `P1` .. `P<i-1>` all are. |
| Registrar.NextIdOfPrefix | server.py:73-77 | When the keys are exactly `P1` .. `P<k>` the allocator returns `P<k+1>`. |
| Registrar.AddClient | server.py:86-119 | Refuses an absent document (user not found) and one missing `AllStats` or `ClientData` (corrupt), and succeeds otherwise. On success it adds exactly one client under the allocated id: active, zero paid, no weeks. `TotalLoans` and `ActiveLoans` go up by one, and nothing else changes. |
| Registrar.AddClientPreservesValid | server.py:96-119 | Registration of a valid ledger succeeds and keeps it valid. |
| Registrar.AddClientPreservesBalanced | server.py:96-119 | Registration of a balanced ledger succeeds and keeps it balanced, whatever gaps its schedules have. |
| Registrar.AddClientKeepsIdsPrefix | server.py:96-108 | Registration keeps the keys an unbroken run `P1` .. `P<k+1>`. |
| Registrar.RegisterFirstClient | server.py:96-116 | The first client of an empty ledger is `P1`, and the stats become 1 total, 1 active, 0 closed. |
| Registrar.PreviewNextId | server.py:329-350 | The preview is `P1` for an absent document, an absent `ClientData` or an empty one; otherwise it lies above every `P<n>` key and is one past the greatest one. |
| Registrar.PreviewAgreesWithAllocator | server.py:337-350 | With keys exactly `P1` .. `P<k>`, the preview equals the allocator. |
| Registrar.PreviewDisagreesOnGap | server.py:337-350 | With only `P2` present, the allocator gives `P1` and the preview gives `P3`. |
| Poster.PostEntry | server.py:127-190 | Checks in the source's order and fails, writing nothing, on: absent user; corrupt structure; missing or empty client; missing stat; closed client; next week past 20. Succeeds exactly when none applies. Then the entry goes at week max+1 and every other week and client is kept. A `"paid"` status credits one week and the amount, and reaching 20 weeks closes the loan, moving one loan from active to closed. |
| Poster.PostPreservesValid | server.py:170-183 | A successful post keeps a valid ledger valid: counts follow the closure, and the schedule stays dense. |
| Poster.PostPreservesBalanced | server.py:170-183 | A successful post keeps a balanced ledger balanced, whatever gaps its schedules have. |
| Poster.PostTwentiethPaidCloses | server.py:173-183 | A paid post to a client with 19 weeks paid closes it: `WeeksPaid` becomes 20, `ActiveLoans` drops by 1, `ClosedLoans` rises by 1, and `TotalLoans` is unchanged. |
| Poster.PostFailsOnFullSchedule | server.py:145-160 | In a valid ledger, a post to a client holding 20 weeks always fails, as closed or as out of weeks. |
| Sweeper.SweepClient | server.py:514-594 | A client without a stat, not active, or not due today is untouched and gets no receipt item. A due client with a paid entry dated today gets none either. An entry dated today with any other status is set to `"paid"` and recorded as `Updated`. Otherwise a new paid 600 entry dated today goes at the next week, recorded as `Created`, unless that week passes 20, which is skipped. Every recorded client is credited one week and 600, closing at 20. |
| Sweeper.SweepReceipt | server.py:556-597 | The receipt names exactly the clients the sweep changed, and records for each the action (`Updated` or `Created`) and week the sweep of that client produced. |
| Sweeper.Sweep | server.py:496-603 | If today already has a receipt the repaired document is returned unchanged. Otherwise every client is swept, the receipt is written under today (even empty), `TotalLoans` is kept, and the closed loans move from active to closed. |
| Sweeper.SweepIdempotent | server.py:509-597 | Sweeping twice on the same date is sweeping once. |
| Sweeper.SweepClientKeepsClientOk | server.py:540-590 | Sweeping one client keeps its stat consistent and its schedule dense. |
| Sweeper.SweepCounts | server.py:547-587 | The clients the sweep closes were active. They leave the active set and join the closed set. |
| Sweeper.SweepCountCards | server.py:547-587 | After the sweep the number of clients is unchanged, and the active and closed counts move by the number of closures. |
| Sweeper.SweepKeepsClientsOk | server.py:514-594 | Every client stays consistent and dense across the sweep. |
| Sweeper.SweepPreservesValid | server.py:496-603 | The sweep keeps a valid ledger valid. |
| Sweeper.SweepClientKeepsStatOk | server.py:540-590 | Sweeping one client keeps its stat consistent, whatever its schedule. |
| Sweeper.SweepPreservesBalanced | server.py:496-603 | The sweep keeps a balanced ledger balanced, whatever gaps its schedules have. |
| Sweeper.SweepFirstMonday | server.py:561-594 | On Monday, a lone active Monday client with no weeks gets a paid week 1 dated today, 1 week paid, and a receipt `{P1: created 1}`. |
| Undo.RevertClient | server.py:632-680 | A node without its stat or without the recorded week is skipped. Otherwise a created week is deleted, or an updated week is set back to `"pending"`. `WeeksPaid` loses one and `TotalAmountPaid` loses the entry's amount, both clamped at 0. A closed loan is reopened. |
| Undo.UndoLastBatch | server.py:617-690 | With no receipts it is a no-op. Otherwise it removes exactly the receipt with the greatest date and reverts the clients that receipt names, leaving the others alone. `TotalLoans` is kept, and the reopened loans move from closed to active. |
| Undo.UndoPopsGreatestDate | server.py:629-684 | The popped date is the greatest key of `batches` in string order. |
| Undo.RevertClientKeepsStatOk | server.py:651-676 | Reverting keeps a client's stat consistent. |
| Undo.UndoCounts | server.py:660-676 | The reopened clients were closed. They leave the closed set and join the active set. |
| Undo.UndoCountCards | server.py:660-676 | After the undo the number of clients is unchanged, and the counts move by the number reopened. |
| Undo.RevertKeepsStatsOk | server.py:632-680 | Every client stat stays consistent across the undo. |
| Undo.UndoPreservesBalanced | server.py:617-690 | The undo keeps the counting invariant. |
| Undo.UndoCanBreakDensity | server.py:651-657 | A valid ledger exists whose undo is not dense: a week posted after the sweep outlives the deleted swept week. |
| RoundTrip.SweepThenRevertClient | server.py:540-594 | Reverting the item the sweep recorded for a client finds what it needs. It restores the stat except possibly `TotalAmountPaid`, and restores the weeks (the updated one as `"pending"`). `TotalAmountPaid` comes back when it was non-negative and the week's amount was 600. |
| RoundTrip.ReopenedAreClosedBySweep | server.py:547-676 | The clients the undo reopens are exactly the clients the sweep closed. |
| RoundTrip.UndoAfterSweep | server.py:597-690 | An undo right after a sweep dated later than every receipt pops that sweep's receipt and restores `AllStats` and `batches` exactly. |
| RoundTrip.SweepThenUndo | server.py:540-676 | Sweep then undo restores `batches`, `AllStats` and every untouched client, and restores each touched client as described under `SweepThenRevertClient`. |
| RoundTrip.RestoredExactly | server.py:640-676 | A restored client whose credited amount was non-negative, and whose updated week was a pending 600 entry, is the original client. |
| RoundTrip.SweepUndoIdentity | server.py:540-676 | Under those conditions, undo after sweep gives back the original document. |
| RoundTrip.UndoMissesOffInstalment | server.py:545-671 | A pending 500 entry dated today is credited 600 by the sweep and debited 500 by the undo, so the client keeps 100 paid after the round trip. |
| Reports.ComputeDashboard | server.py:224-262 | Counts the clients with a stat and the active and closed ones. The weekly collection is 600 per active loan. The upcoming collection is the sum over clients of `12000 - TotalAmountPaid`, each term clamped at 0. |
| Reports.DashboardOf | server.py:217-262 | An absent document or missing `ClientData` is an error; otherwise the dashboard of its clients. |
| Reports.DashboardAgreesWithStats | server.py:234-262 | In a balanced ledger the dashboard's three counts equal the stored `AllStats`. |
| Reports.SumOutstandingPick | server.py:234-252 | The sum does not depend on the order the clients are visited. |
| Reports.SumOutstandingBounds | server.py:248-252 | The upcoming total is non-negative, and at most 12000 per client when no total paid is negative. |
| Reports.WeeklyTally | server.py:286-313 | Every weekday has a tally: the number of active clients due that day, with 600 per client. |
| Reports.WeeklyOf | server.py:277-315 | An absent document or missing `ClientData` is an error; otherwise the weekly tally of its clients. |
| Reports.TallyCountsSweepSelection | server.py:299-313 | A weekday's count is the number of clients the sweep on that weekday selects. |
| Reports.DueOnDisjoint | server.py:309-313 | No client is counted on two weekdays. |
| Reports.DaysCoverScheduled | server.py:299-313 | The seven daily sets together are the active clients whose day is a weekday name. |
| Reports.WeeklyCountsAddUp | server.py:299-313 | The seven counts add up to the active clients with a valid day, at most the active loans. |
| Text.LexMax | server.py:629 | The greatest string of a non-empty set, in the order `sorted` uses. |
| Traces.StepPreservesBalanced | server.py:86-690 | Each request (add client, post entry, sweep, undo) keeps the counting invariant; a refused request writes nothing. |
| Traces.RunPreservesBalanced | server.py:86-690 | Any sequence of requests, undos included, keeps a balanced ledger balanced, so `TotalLoans == ActiveLoans + ClosedLoans` holds after each. |
| Traces.ReachableBalanced | server.py:46-690 | Every ledger reachable from a new user's repaired document is balanced. |

## Left out

- The HTTP routes, request validation, CORS and status codes are not modelled; only the
  transforms and folds are.
- The store is not modelled: the Firebase connection, the retry loop of `transaction()`, and
  the reads the routes make. The store's concurrency control is not modelled either.
- The clock is a parameter: `datetime.now(IST)`, `strftime` and `weekday()` become `today`
  and `weekday`. Comparing receipt dates by string order is date order only for ISO dates.
- The `/today` view, `resolve_user`, and the removal of spaces from the user key are I/O and
  auth glue, and are not modelled.
- `_lastBatch` is not modelled. Repair writes it, but nothing reads it.
- A `Named` key that spells a canonical `P<n>` (say `Named("P1")` beside `P(1)`) would be the same store key; the model does not rule such keys out, and on such a map the allocator could hand out an identifier the source sees as taken. Every key the registrar creates is a `P(n)`.
- Key parsing is not modelled. Here week keys are naturals and client keys are typed, so a
  malformed key cannot be written down. Where the source parses keys inside a `try`
  (server.py:150-156, 343-348, 562-568) it skips malformed ones and accepts `week01`.
  The sweep's parse of the key `find_today_entry` returns (server.py:557) has no `try`: if
  a key that is not `week<N>` holds today's date, the source raises and the whole sweep
  aborts with nothing written. The total `Sweeper.Sweep` has no such failure.
- Missing fields inside a stat or an entry are not modelled. The source reads them with
  defaults such as `WeeksPaid` 0 or `Amount` 600. Here every field is present.
- Empty maps stored as absent are not modelled; the store drops them, and a missing
  `batches` reads as no receipts. This hides two effects. First, the empty receipt a sweep
  that changed nothing writes (server.py:597) is dropped by the store. So in the source the
  date gate does not block a second sweep that day, and the next undo pops the previous
  date's receipt; in the model the gate holds and the undo pops the empty receipt. Second,
  the empty `ClientData` that `ensure_user_structure` writes for a new user is dropped too.
  So the source refuses that user's first registration as a corrupt structure
  (server.py:93-94), while `Registrar.AddClient` accepts it.
- `Status` is an enum, so the sweep's and the reports' case-insensitive compare and the
  post's exact compare cannot differ.
- `entryStatus` stays a free string. The post credits only an exact `"paid"`, but the sweep
  skips any case of `"paid"`. `Text.Lower` lower-cases ASCII only, not all of Unicode.
- Ledger.FindTodayEntry: it returns the least week dated today. The source returns the first
  such key in the dict's insertion order. The two differ only when two weeks share a date.
- Reports.SumOutstandingBounds: the upper bound holds only when no `TotalAmountPaid` is
  negative. The post accepts negative amounts, so the source gives no such bound in general.
- The sweep's in-place loop over clients is modelled order-free, as one sweep per client.
  The loop's increments of `ActiveLoans` and `ClosedLoans` commute, so the result is the same.
- Undo keeps only `Balanced`, not `Valid` (every transform keeps `Balanced`, so reachable ledgers are balanced, `Traces.ReachableBalanced`): `Undo.UndoCanBreakDensity` shows that a created
  week deleted under a later one leaves a gap.
- The sweep credits a fixed 600 when it flips a pending entry (server.py:545), while the
  undo debits the entry's `Amount` (server.py:648). So the round trip restores
  `TotalAmountPaid` only when that amount is 600 (`RoundTrip.SweepThenRevertClient`).
