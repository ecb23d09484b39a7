/** The sweep followed by the undo of its receipt: what comes back, and when all of it does. */
module RoundTrip {
  import opened Results
  import opened Text
  import opened Ledger
  import opened Sweeper
  import opened Undo

  /** `r` is client `c` restored after the sweep action `item` was undone: the stat is back
      except possibly for the amount paid, a created week is gone, an updated week is back
      with status pending, and the amount paid is back when it was not negative and the
      week's amount is the instalment the sweep credited. */
  ghost predicate RestoredFrom(c: ClientRecord, r: ClientRecord, item: ReceiptItem)
  {
    && c.stat.Some? && r.stat.Some?
    && r.stat.value == c.stat.value.(totalAmountPaid := r.stat.value.totalAmountPaid)
    && (item.action == Created ==> r.weeks == c.weeks)
    && (item.action == Updated ==>
          && item.week in c.weeks
          && r.weeks == c.weeks[item.week := c.weeks[item.week].(entryStatus := PendingLabel)])
    && (c.stat.value.totalAmountPaid >= 0 ==>
          && (item.action == Created ==> r.stat.value.totalAmountPaid == c.stat.value.totalAmountPaid)
          && (item.action == Updated && c.weeks[item.week].amount == WeeklyAmount ==>
                r.stat.value.totalAmountPaid == c.stat.value.totalAmountPaid))
  }

  /** Reverting the item the sweep recorded for a client restores that client. */
  lemma SweepThenRevertClient(c: ClientRecord, today: string, weekday: Weekday)
    requires SweepClient(c, today, weekday).item.Some?
    ensures var s := SweepClient(c, today, weekday);
      Revertible(s.rec, s.item.value)
    ensures var s := SweepClient(c, today, weekday);
      RestoredFrom(c, RevertClient(s.rec, s.item.value), s.item.value)
  {
    var s := SweepClient(c, today, weekday);
    var item := s.item.value;
    if item.action == Created {
      var next := NextWeek(c.weeks);
      assert s.rec.weeks == c.weeks[next := Entry(WeeklyAmount, today, PaidLabel)];
      assert (c.weeks[next := Entry(WeeklyAmount, today, PaidLabel)]) - {next} == c.weeks;
    } else {
      assert s.rec.weeks[item.week].amount == c.weeks[item.week].amount;
    }
  }

  /** The clients a sweep closes are exactly the clients the undo of its receipt reopens. */
  lemma ReopenedAreClosedBySweep(cs: Clients, today: string, weekday: Weekday)
    ensures ReopenedByUndo(SweepClients(cs, today, weekday), SweepReceipt(cs, today, weekday))
      == ClosedBySweep(cs, today, weekday)
  {
    var cs1 := SweepClients(cs, today, weekday);
    var receipt := SweepReceipt(cs, today, weekday);
    forall id | id in cs && SweepClient(cs[id], today, weekday).item.Some?
      ensures Revertible(cs1[id], receipt[id])
    {
      SweepThenRevertClient(cs[id], today, weekday);
    }
  }

  /** The receipts after a gated-through sweep: today's is the greatest, and removing it
      gives back the receipts before the sweep. */
  lemma SweepTopsReceipts(l: Ledger, today: string, weekday: Weekday)
    requires Repaired(l)
    requires today !in l.batches
    requires forall d :: d in l.batches ==> LexLessEq(d, today)
    ensures var b := SweepDue(l, today, weekday).batches;
      && today in b
      && LexMax(b.Keys) == today
      && b - {today} == l.batches
  {
    var b := SweepDue(l, today, weekday).batches;
    assert b == l.batches[today := SweepReceipt(l.clients.value, today, weekday)];
    LexReflexive(today);
    LexMaxUnique(b.Keys, today);
    assert b - {today} == l.batches;
  }

  /** Undoing the receipt a sweep just stored puts the stats back as they were. */
  lemma UndoReceiptOfSweep(l: Ledger, today: string, weekday: Weekday)
    requires Repaired(l)
    requires today !in l.batches
    ensures var cs := l.clients.value;
      UndoReceipt(SweepDue(l, today, weekday), today) == Ledger(
        l.stats,
        Some(RevertClients(SweepClients(cs, today, weekday), SweepReceipt(cs, today, weekday))),
        SweepDue(l, today, weekday).batches - {today})
  {
    var cs := l.clients.value;
    var cs1 := SweepClients(cs, today, weekday);
    var receipt := SweepReceipt(cs, today, weekday);
    var k := |ClosedBySweep(cs, today, weekday)|;
    var st := l.stats.value;
    var l1 := SweepDue(l, today, weekday);
    assert l1.clients == Some(cs1);
    assert l1.batches[today] == receipt;
    assert l1.stats.value.activeLoans == st.activeLoans - k;
    assert l1.stats.value.closedLoans == st.closedLoans + k;
    ReopenedAreClosedBySweep(cs, today, weekday);
    var u := UndoReceipt(l1, today);
    assert u.stats.value.totalLoans == st.totalLoans;
    assert u.stats.value.activeLoans == st.activeLoans;
    assert u.stats.value.closedLoans == st.closedLoans;
    assert u.stats == l.stats;
    assert u.clients == Some(RevertClients(cs1, receipt));
    assert u.batches == l1.batches - {today};
  }

  /** The undo right after such a sweep pops today's receipt and reverts it, and the
      stats it puts back are the stats before the sweep. */
  lemma UndoAfterSweep(l: Ledger, today: string, weekday: Weekday)
    requires Repaired(l)
    requires today !in l.batches
    requires forall d :: d in l.batches ==> LexLessEq(d, today)
    ensures var cs := l.clients.value;
      UndoLastBatch(Some(Sweep(Some(l), today, weekday))) == Ledger(
        l.stats,
        Some(RevertClients(SweepClients(cs, today, weekday), SweepReceipt(cs, today, weekday))),
        l.batches)
  {
    var l1 := SweepDue(l, today, weekday);
    SweepIsDue(l, today, weekday);
    SweepTopsReceipts(l, today, weekday);
    UndoIsReceipt(l1);
    UndoReceiptOfSweep(l, today, weekday);
  }

  /** Sweeping on a date later than every receipt and then undoing restores the receipts,
      `AllStats`, every client the sweep did not touch, and every touched client as far as
      `RestoredFrom` says. */
  lemma SweepThenUndo(l: Ledger, today: string, weekday: Weekday)
    requires Repaired(l)
    requires today !in l.batches
    requires forall d :: d in l.batches ==> LexLessEq(d, today)
    ensures var r := UndoLastBatch(Some(Sweep(Some(l), today, weekday)));
      var cs := l.clients.value;
      var receipt := SweepReceipt(cs, today, weekday);
      && r.batches == l.batches
      && r.stats == l.stats
      && r.clients.value.Keys == cs.Keys
      && (forall id :: id in cs && id !in receipt ==> r.clients.value[id] == cs[id])
      && (forall id :: id in receipt ==> RestoredFrom(cs[id], r.clients.value[id], receipt[id]))
  {
    var cs := l.clients.value;
    var receipt := SweepReceipt(cs, today, weekday);
    var cs1 := SweepClients(cs, today, weekday);
    UndoAfterSweep(l, today, weekday);
    var r := UndoLastBatch(Some(Sweep(Some(l), today, weekday)));
    assert r.clients.value == RevertClients(cs1, receipt);
    forall id | id in receipt
      ensures RestoredFrom(cs[id], r.clients.value[id], receipt[id])
    {
      SweepThenRevertClient(cs[id], today, weekday);
    }
  }

  /** What a client must look like for its sweep to be undone exactly: no negative amount
      paid, and an entry the sweep marks paid must be a pending entry of the instalment. */
  ghost predicate ExactlyUndoable(c: ClientRecord, today: string, weekday: Weekday)
  {
    var s := SweepClient(c, today, weekday);
    s.item.Some? ==>
      && c.stat.value.totalAmountPaid >= 0
      && (s.item.value.action == Updated ==>
            && c.weeks[s.item.value.week].amount == WeeklyAmount
            && c.weeks[s.item.value.week].entryStatus == PendingLabel)
  }

  /** A restored client whose undo needed no correction is the original client. */
  lemma RestoredExactly(c: ClientRecord, r: ClientRecord, item: ReceiptItem)
    requires RestoredFrom(c, r, item)
    requires c.stat.value.totalAmountPaid >= 0
    requires item.action == Updated ==>
      c.weeks[item.week].amount == WeeklyAmount && c.weeks[item.week].entryStatus == PendingLabel
    ensures r == c
  {
    if item.action == Updated {
      assert c.weeks[item.week := c.weeks[item.week].(entryStatus := PendingLabel)] == c.weeks;
    }
  }

  /** Under those conditions undo is an exact inverse of the sweep. */
  lemma SweepUndoIdentity(l: Ledger, today: string, weekday: Weekday)
    requires Repaired(l)
    requires today !in l.batches
    requires forall d :: d in l.batches ==> LexLessEq(d, today)
    requires forall id :: id in l.clients.value ==> ExactlyUndoable(l.clients.value[id], today, weekday)
    ensures UndoLastBatch(Some(Sweep(Some(l), today, weekday))) == l
  {
    var cs := l.clients.value;
    var receipt := SweepReceipt(cs, today, weekday);
    var r := UndoLastBatch(Some(Sweep(Some(l), today, weekday)));
    SweepThenUndo(l, today, weekday);
    forall id | id in cs
      ensures r.clients.value[id] == cs[id]
    {
      if id in receipt {
        assert ExactlyUndoable(cs[id], today, weekday);
        RestoredExactly(cs[id], r.clients.value[id], receipt[id]);
      }
    }
    assert r.clients.value == cs;
  }

  /** The amount condition cannot be dropped: a pending entry of 500 dated today is credited
      600 by the sweep and debited 500 by the undo, leaving 100 paid where there was 0. */
  lemma UndoMissesOffInstalment(today: string)
    ensures
      var c := ClientRecord(Some(ClientStat(P(1), "MON", "", Active, 0, 0)),
                            map[1 := Entry(500, today, PendingLabel)]);
      var s := SweepClient(c, today, MON);
      && s.item == Some(ReceiptItem(Updated, 1))
      && RevertClient(s.rec, s.item.value).stat.value.totalAmountPaid == 100
  {
    var weeks := map[1 := Entry(500, today, PendingLabel)];
    assert FindTodayEntry(weeks, today) == Some(1) by {
      assert weeks.Keys == {1};
    }
    assert !IsPaidLabel(PendingLabel) by {
      assert Lower(PendingLabel)[0] == 'p' && Lower(PendingLabel)[1] == 'e';
    }
  }
}
