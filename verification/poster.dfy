/** The payment poster: the transform that appends one week's entry to one client. */
module Poster {
  import opened Results
  import opened Ledger

  /** `after` is `before` with `e` appended to client `id` at the week after its greatest:
      the stat is credited one week and `amount` exactly when `paid`, and closed, with one
      loan moved from active to closed, once the week cap is reached. Nothing else changes. */
  ghost predicate PostedOne(before: Ledger, after: Ledger, id: ClientId, e: Entry, paid: bool)
    requires Repaired(before) && id in before.clients.value && before.clients.value[id].stat.Some?
  {
    var c := before.clients.value[id];
    var st := c.stat.value;
    var next := NextWeek(c.weeks);
    && Repaired(after)
    && after.clients.value.Keys == before.clients.value.Keys
    && (forall other :: other in before.clients.value && other != id ==>
          after.clients.value[other] == before.clients.value[other])
    && var c' := after.clients.value[id];
    && c'.weeks.Keys == c.weeks.Keys + {next}
    && c'.weeks[next] == e
    && (forall k :: k in c.weeks ==> c'.weeks[k] == c.weeks[k])
    && c'.stat.Some?
    && var st' := c'.stat.value;
    && st'.name == st.name && st'.collectionDay == st.collectionDay && st'.lendDate == st.lendDate
    && st'.weeksPaid == (if paid then st.weeksPaid + 1 else st.weeksPaid)
    && st'.totalAmountPaid == (if paid then st.totalAmountPaid + e.amount else st.totalAmountPaid)
    && (st'.weeksPaid >= MaxWeeks ==>
          && st'.status == Closed
          && after.stats.value == before.stats.value.(
               activeLoans := before.stats.value.activeLoans - 1,
               closedLoans := before.stats.value.closedLoans + 1))
    && (st'.weeksPaid < MaxWeeks ==>
          && st'.status == st.status
          && after.stats.value == before.stats.value)
    && after.batches == before.batches
  }

  /** The client a post addresses, when the document and the client are present. */
  predicate HasClient(doc: Document, id: ClientId)
  {
    doc.Some? && Repaired(doc.value) && id in doc.value.clients.value
  }

  /** Everything the post-entry transform demands before it appends. */
  predicate CanPost(doc: Document, id: ClientId)
  {
    && HasClient(doc, id)
    && doc.value.clients.value[id].stat.Some?
    && doc.value.clients.value[id].stat.value.status == Active
    && NextWeek(doc.value.clients.value[id].weeks) <= MaxWeeks
  }

  /** The post-entry transform. In order, it refuses an absent document, a document missing
      `AllStats` or `ClientData`, a missing or empty client, a client without its stat, a
      closed client, and a schedule whose next week would pass the cap. */
  function PostEntry(doc: Document, id: ClientId, amount: int, date: string, status: string): (r: Result<Ledger, Error>)
    ensures doc.None? ==> r == Failure(UserNotFound)
    ensures doc.Some? && !Repaired(doc.value) ==> r == Failure(CorruptStructure)
    ensures doc.Some? && Repaired(doc.value) && id !in doc.value.clients.value ==> r == Failure(ClientNotFound)
    ensures HasClient(doc, id) && EmptyNode(doc.value.clients.value[id]) ==> r == Failure(ClientNotFound)
    ensures HasClient(doc, id) && !EmptyNode(doc.value.clients.value[id]) && doc.value.clients.value[id].stat.None?
      ==> r == Failure(ClientStatMissing)
    ensures HasClient(doc, id) && doc.value.clients.value[id].stat.Some?
      && doc.value.clients.value[id].stat.value.status == Closed
      ==> r == Failure(ClientAlreadyClosed)
    ensures HasClient(doc, id) && doc.value.clients.value[id].stat.Some?
      && doc.value.clients.value[id].stat.value.status == Active
      && NextWeek(doc.value.clients.value[id].weeks) > MaxWeeks
      ==> r == Failure(MaxWeeksReached)
    ensures r.Success? <==> CanPost(doc, id)
    ensures r.Success? ==> PostedOne(doc.value, r.value, id, Entry(amount, date, status), status == PaidLabel)
  {
    if doc.None? then Failure(UserNotFound)
    else
      var l := doc.value;
      if !Repaired(l) then Failure(CorruptStructure)
      else if id !in l.clients.value || EmptyNode(l.clients.value[id]) then Failure(ClientNotFound)
      else
        var c := l.clients.value[id];
        if c.stat.None? then Failure(ClientStatMissing)
        else if c.stat.value.status == Closed then Failure(ClientAlreadyClosed)
        else
          var next := NextWeek(c.weeks);
          if next > MaxWeeks then Failure(MaxWeeksReached)
          else
            var st' := Settle(c.stat.value, status == PaidLabel, amount);
            var st := l.stats.value;
            var stats' := if st'.weeksPaid >= MaxWeeks
              then AllStats(st.totalLoans, st.activeLoans - 1, st.closedLoans + 1)
              else st;
            var c' := ClientRecord(Some(st'), c.weeks[next := Entry(amount, date, status)]);
            Success(l.(clients := Some(l.clients.value[id := c']), stats := Some(stats')))
  }

  /** Posting keeps a valid ledger valid: the counts follow a closure and the schedule
      stays dense. */
  lemma PostPreservesValid(l: Ledger, id: ClientId, amount: int, date: string, status: string)
    requires Valid(l)
    requires PostEntry(Some(l), id, amount, date, status).Success?
    ensures Valid(PostEntry(Some(l), id, amount, date, status).value)
  {
    var c := l.clients.value[id];
    var e := Entry(amount, date, status);
    var c' := ClientRecord(Some(Settle(c.stat.value, status == PaidLabel, amount)), c.weeks[NextWeek(c.weeks) := e]);
    PostUnfold(l, id, amount, date, status);
    assert StatOk(c') && WeeksDense(c'.weeks) by {
      DenseAppend(c.weeks, e);
    }
    ReplaceActiveKeepsValid(l, id, c');
  }

  /** Posting keeps a balanced ledger balanced, whatever gaps its schedules have. */
  lemma PostPreservesBalanced(l: Ledger, id: ClientId, amount: int, date: string, status: string)
    requires Balanced(l)
    requires PostEntry(Some(l), id, amount, date, status).Success?
    ensures Balanced(PostEntry(Some(l), id, amount, date, status).value)
  {
    var c := l.clients.value[id];
    var c' := ClientRecord(Some(Settle(c.stat.value, status == PaidLabel, amount)),
                           c.weeks[NextWeek(c.weeks) := Entry(amount, date, status)]);
    PostUnfold(l, id, amount, date, status);
    ReplaceActiveKeepsBalanced(l, id, c');
  }

  /** A successful post, written out. */
  lemma PostUnfold(l: Ledger, id: ClientId, amount: int, date: string, status: string)
    requires CanPost(Some(l), id)
    ensures var c := l.clients.value[id];
      var c' := ClientRecord(Some(Settle(c.stat.value, status == PaidLabel, amount)),
                             c.weeks[NextWeek(c.weeks) := Entry(amount, date, status)]);
      var st := l.stats.value;
      var stats' := if c'.stat.value.status == Closed
        then AllStats(st.totalLoans, st.activeLoans - 1, st.closedLoans + 1)
        else st;
      PostEntry(Some(l), id, amount, date, status)
        == Success(Ledger(Some(stats'), Some(l.clients.value[id := c']), l.batches))
  {
  }

  /** A paid twentieth week closes the loan and moves it from active to closed. */
  lemma PostTwentiethPaidCloses(l: Ledger, id: ClientId, amount: int, date: string)
    requires Valid(l) && id in l.clients.value
    requires l.clients.value[id].stat.value.weeksPaid == MaxWeeks - 1
    requires |l.clients.value[id].weeks| < MaxWeeks
    ensures var r := PostEntry(Some(l), id, amount, date, PaidLabel);
      && r.Success?
      && r.value.clients.value[id].stat.value.status == Closed
      && r.value.clients.value[id].stat.value.weeksPaid == MaxWeeks
      && r.value.stats.value.activeLoans == l.stats.value.activeLoans - 1
      && r.value.stats.value.closedLoans == l.stats.value.closedLoans + 1
      && r.value.stats.value.totalLoans == l.stats.value.totalLoans
  {
    DenseMaxWeek(l.clients.value[id].weeks);
  }

  /** Once a client's schedule holds twenty weeks, every further post fails (closed, or
      out of weeks); a failed transform writes nothing. */
  lemma PostFailsOnFullSchedule(l: Ledger, id: ClientId, amount: int, date: string, status: string)
    requires Valid(l) && id in l.clients.value
    requires |l.clients.value[id].weeks| == MaxWeeks
    ensures var r := PostEntry(Some(l), id, amount, date, status);
      r == Failure(ClientAlreadyClosed) || r == Failure(MaxWeeksReached)
  {
    DenseMaxWeek(l.clients.value[id].weeks);
  }
}
