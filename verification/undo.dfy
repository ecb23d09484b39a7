/** Undo of the most recent batch sweep: the receipt under the greatest date is popped and
    every action it records is reverted. */
module Undo {
  import opened Results
  import opened Sets
  import opened Text
  import opened Ledger

  /** Whether undo finds what `item` refers to: a stat and the recorded week. */
  predicate Revertible(c: ClientRecord, item: ReceiptItem)
  {
    c.stat.Some? && item.week in c.weeks
  }

  /** Reverting one receipt item. A created week is deleted and an updated week set back to
      pending; either way one week and the entry's amount are taken off the stat, neither
      going below zero, and a closed loan is reopened. A record without its stat or without
      the recorded week is skipped. */
  function RevertClient(c: ClientRecord, item: ReceiptItem): (r: ClientRecord)
    ensures !Revertible(c, item) ==> r == c
    ensures Revertible(c, item) ==>
      var st := c.stat.value;
      var amount := c.weeks[item.week].amount;
      && r.stat.Some?
      && var st' := r.stat.value;
      && st'.name == st.name && st'.collectionDay == st.collectionDay && st'.lendDate == st.lendDate
      && st'.status == Active
      && st'.weeksPaid == (if st.weeksPaid == 0 then 0 else st.weeksPaid - 1)
      && st'.totalAmountPaid >= 0
      && (st.totalAmountPaid - amount >= 0 ==> st'.totalAmountPaid == st.totalAmountPaid - amount)
      && (st.totalAmountPaid - amount < 0 ==> st'.totalAmountPaid == 0)
      && (item.action == Created ==> r.weeks == c.weeks - {item.week})
      && (item.action == Updated ==>
            r.weeks == c.weeks[item.week := c.weeks[item.week].(entryStatus := PendingLabel)])
  {
    if !Revertible(c, item) then c
    else
      var st := c.stat.value;
      var amount := c.weeks[item.week].amount;
      var st' := st.(
        weeksPaid := if st.weeksPaid == 0 then 0 else st.weeksPaid - 1,
        totalAmountPaid := ClampZero(st.totalAmountPaid - amount),
        status := Active);
      var weeks' := match item.action
        case Created => c.weeks - {item.week}
        case Updated => c.weeks[item.week := c.weeks[item.week].(entryStatus := PendingLabel)];
      ClientRecord(Some(st'), weeks')
  }

  /** The client map after reverting `receipt`; clients it does not name are untouched. */
  function RevertClients(cs: Clients, receipt: Receipt): (cs': Clients)
    ensures cs'.Keys == cs.Keys
  {
    map id | id in cs :: if id in receipt then RevertClient(cs[id], receipt[id]) else cs[id]
  }

  /** The clients whose closed loan the undo reopens. */
  function ReopenedByUndo(cs: Clients, receipt: Receipt): set<ClientId>
  {
    set id | id in cs && id in receipt && Revertible(cs[id], receipt[id]) && cs[id].stat.value.status == Closed
  }

  /** The undo transform. Against a repaired document: with no receipts nothing changes;
      otherwise the receipt under the greatest date is reverted and removed, each reopened
      loan moving from closed back to active. */
  function UndoLastBatch(doc: Document): (r: Ledger)
    ensures Repaired(r)
    ensures Repair(doc).batches == map[] ==> r == Repair(doc)
    ensures Repair(doc).batches != map[] ==>
      var l := Repair(doc);
      var cs := l.clients.value;
      exists last ::
        && last in l.batches
        && (forall d :: d in l.batches ==> LexLessEq(d, last))
        && r.batches == l.batches - {last}
        && r.clients.value.Keys == cs.Keys
        && (forall id :: id in cs && id !in l.batches[last] ==> r.clients.value[id] == cs[id])
        && (forall id :: id in cs && id in l.batches[last] ==>
              r.clients.value[id] == RevertClient(cs[id], l.batches[last][id]))
        && r.stats.value.totalLoans == l.stats.value.totalLoans
        && r.stats.value.activeLoans == l.stats.value.activeLoans + |ReopenedByUndo(cs, l.batches[last])|
        && r.stats.value.closedLoans == l.stats.value.closedLoans - |ReopenedByUndo(cs, l.batches[last])|
  {
    var l := Repair(doc);
    if l.batches == map[] then l else UndoReceipt(l, LexMax(l.batches.Keys))
  }

  /** Reverting and removing the receipt stored under `last`. */
  function UndoReceipt(l: Ledger, last: string): Ledger
    requires Repaired(l) && last in l.batches
  {
    var receipt := l.batches[last];
    var cs := l.clients.value;
    var st := l.stats.value;
    var reopened := |ReopenedByUndo(cs, receipt)|;
    Ledger(
      Some(AllStats(st.totalLoans, st.activeLoans + reopened, st.closedLoans - reopened)),
      Some(RevertClients(cs, receipt)),
      l.batches - {last})
  }

  /** The date of the receipt the undo pops: the greatest key of `batches`. */
  lemma UndoPopsGreatestDate(doc: Document)
    requires Repair(doc).batches != map[]
    ensures var l := Repair(doc);
      var last := LexMax(l.batches.Keys);
      && UndoLastBatch(doc).batches == l.batches - {last}
      && forall d :: d in l.batches ==> LexLessEq(d, last)
  {
    var l := Repair(doc);
    var last := LexMax(l.batches.Keys);
    assert UndoLastBatch(doc).batches == l.batches - {last};
  }

  /** Reverting keeps a client's stat consistent. */
  lemma RevertClientKeepsStatOk(c: ClientRecord, item: ReceiptItem)
    requires StatOk(c)
    ensures StatOk(RevertClient(c, item))
  {
  }

  /** The active and closed sets after the undo: the reopened clients move back. */
  lemma UndoCounts(cs: Clients, receipt: Receipt)
    ensures ReopenedByUndo(cs, receipt) <= ClosedIds(cs)
    ensures ReopenedByUndo(cs, receipt) !! ActiveIds(cs)
    ensures ActiveIds(RevertClients(cs, receipt)) == ActiveIds(cs) + ReopenedByUndo(cs, receipt)
    ensures ClosedIds(RevertClients(cs, receipt)) == ClosedIds(cs) - ReopenedByUndo(cs, receipt)
  {
  }

  /** The undo of a repaired document with at least one receipt. */
  lemma UndoUnfold(l: Ledger)
    requires Repaired(l) && l.batches != map[]
    ensures var last := LexMax(l.batches.Keys);
      var receipt := l.batches[last];
      var st := l.stats.value;
      var k := |ReopenedByUndo(l.clients.value, receipt)|;
      UndoLastBatch(Some(l)) == Ledger(
        Some(AllStats(st.totalLoans, st.activeLoans + k, st.closedLoans - k)),
        Some(RevertClients(l.clients.value, receipt)),
        l.batches - {last})
  {
    RepairFixesRepaired(l);
    assert UndoLastBatch(Some(l)) == UndoReceipt(l, LexMax(l.batches.Keys));
  }

  /** An undo with receipts to pop is `UndoReceipt` at the greatest date. */
  lemma UndoIsReceipt(l: Ledger)
    requires Repaired(l) && l.batches != map[]
    ensures UndoLastBatch(Some(l)) == UndoReceipt(l, LexMax(l.batches.Keys))
  {
    RepairFixesRepaired(l);
  }

  /** The counts after the undo: as many clients, the reopened ones moved back. */
  lemma UndoCountCards(cs: Clients, receipt: Receipt)
    ensures var cs' := RevertClients(cs, receipt);
      var k := |ReopenedByUndo(cs, receipt)|;
      && |cs'| == |cs|
      && |ActiveIds(cs')| == |ActiveIds(cs)| + k
      && |ClosedIds(cs')| == |ClosedIds(cs)| - k
  {
    var cs' := RevertClients(cs, receipt);
    UndoCounts(cs, receipt);
    SubsetDiffCard(ClosedIds(cs), ReopenedByUndo(cs, receipt));
    assert cs'.Keys == cs.Keys;
  }

  /** Reverting keeps every client's stat consistent. */
  lemma RevertKeepsStatsOk(cs: Clients, receipt: Receipt)
    requires forall id :: id in cs ==> StatOk(cs[id])
    ensures var cs' := RevertClients(cs, receipt);
      forall id :: id in cs' ==> StatOk(cs'[id])
  {
    var cs' := RevertClients(cs, receipt);
    forall id | id in cs'
      ensures StatOk(cs'[id])
    {
      if id in receipt {
        RevertClientKeepsStatOk(cs[id], receipt[id]);
      }
    }
  }

  /** The undo keeps the counting invariant (but see `UndoCanBreakDensity`). */
  lemma UndoPreservesBalanced(l: Ledger)
    requires Balanced(l)
    ensures Balanced(UndoLastBatch(Some(l)))
  {
    RepairFixesRepaired(l);
    if l.batches != map[] {
      var receipt := l.batches[LexMax(l.batches.Keys)];
      UndoUnfold(l);
      RevertKeepsStatsOk(l.clients.value, receipt);
      UndoCountCards(l.clients.value, receipt);
    }
  }

  /** Undo does not keep schedules dense: a week posted after the sweep survives the
      deletion of the week the sweep created, leaving a gap at week 1. */
  lemma UndoCanBreakDensity(today: string, later: string)
    ensures
      var c := ClientRecord(
        Some(ClientStat(P(1), "MON", "", Active, 600, 1)),
        map[1 := Entry(WeeklyAmount, today, PaidLabel), 2 := Entry(WeeklyAmount, later, PendingLabel)]);
      var l := Ledger(Some(AllStats(1, 1, 0)), Some(map[P(1) := c]), map[today := map[P(1) := ReceiptItem(Created, 1)]]);
      && Valid(l)
      && !Valid(UndoLastBatch(Some(l)))
  {
    var weeks := map[1 := Entry(WeeklyAmount, today, PaidLabel), 2 := Entry(WeeklyAmount, later, PendingLabel)];
    var c := ClientRecord(Some(ClientStat(P(1), "MON", "", Active, 600, 1)), weeks);
    var cs := map[P(1) := c];
    var receipt := map[P(1) := ReceiptItem(Created, 1)];
    var l := Ledger(Some(AllStats(1, 1, 0)), Some(cs), map[today := receipt]);
    assert weeks.Keys == {1, 2};
    assert WeeksDense(weeks);
    assert ActiveIds(cs) == {P(1)};
    assert ClosedIds(cs) == {};
    assert Valid(l);
    assert l.batches.Keys == {today};
    assert LexMax(l.batches.Keys) == today;
    var cs' := RevertClients(cs, receipt);
    assert UndoLastBatch(Some(l)).clients.value == cs';
    assert cs'[P(1)] == RevertClient(c, ReceiptItem(Created, 1));
    var w' := cs'[P(1)].weeks;
    assert w' == weeks - {1};
    assert 1 !in w' && 2 in w';
    assert !WeeksDense(w');
  }
}
