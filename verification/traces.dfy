/** Sequences of transforms as the store applies them: a failed transform writes nothing. */
module Traces {
  import opened Results
  import opened Ledger
  import opened Registrar
  import opened Poster
  import opened Sweeper
  import opened Undo

  /** One write request, with the clock's reading where the transform needs it. */
  datatype Op =
    | AddOp(lendDate: string, collectionDay: string)
    | PostOp(id: ClientId, amount: int, date: string, status: string)
    | SweepOp(today: string, weekday: Weekday)
    | UndoOp

  /** The document after one request; a refused request leaves it as it was. */
  function Step(l: Ledger, op: Op): Ledger
  {
    match op
    case AddOp(lendDate, collectionDay) =>
      var r := AddClient(Some(l), lendDate, collectionDay);
      if r.Success? then r.value else l
    case PostOp(id, amount, date, status) =>
      var r := PostEntry(Some(l), id, amount, date, status);
      if r.Success? then r.value else l
    case SweepOp(today, weekday) => Sweep(Some(l), today, weekday)
    case UndoOp => UndoLastBatch(Some(l))
  }

  /** The document after a sequence of requests, in order. */
  function Run(l: Ledger, ops: seq<Op>): Ledger
    decreases |ops|
  {
    if ops == [] then l else Run(Step(l, ops[0]), ops[1..])
  }

  /** Every request keeps the counting invariant. */
  lemma StepPreservesBalanced(l: Ledger, op: Op)
    requires Balanced(l)
    ensures Balanced(Step(l, op))
  {
    match op
    case AddOp(lendDate, collectionDay) =>
      AddClientPreservesBalanced(l, lendDate, collectionDay);
    case PostOp(id, amount, date, status) =>
      if PostEntry(Some(l), id, amount, date, status).Success? {
        PostPreservesBalanced(l, id, amount, date, status);
      }
    case SweepOp(today, weekday) =>
      SweepPreservesBalanced(l, today, weekday);
    case UndoOp =>
      UndoPreservesBalanced(l);
  }

  /** From the empty ledger, every sequence of requests, undos included, reaches a balanced
      ledger, so `TotalLoans == ActiveLoans + ClosedLoans` holds throughout. */
  lemma {:induction false} RunPreservesBalanced(l: Ledger, ops: seq<Op>)
    requires Balanced(l)
    ensures Balanced(Run(l, ops))
    ensures Run(l, ops).stats.value.totalLoans
      == Run(l, ops).stats.value.activeLoans + Run(l, ops).stats.value.closedLoans
    decreases |ops|
  {
    if ops != [] {
      StepPreservesBalanced(l, ops[0]);
      RunPreservesBalanced(Step(l, ops[0]), ops[1..]);
    }
    BalancedLoansAddUp(Run(l, ops));
  }

  /** The reachable states: whatever the requests, starting from a new user's ledger. */
  lemma ReachableBalanced(ops: seq<Op>)
    ensures Balanced(Run(Repair(None), ops))
  {
    EmptyLedgerValid();
    RunPreservesBalanced(Repair(None), ops);
  }
}
