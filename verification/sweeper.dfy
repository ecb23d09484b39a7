/** The daily batch sweep: once per date, every active client due on today's weekday
    is marked paid for the day, and an undo receipt is recorded under the date. */
module Sweeper {
  import opened Results
  import opened Sets
  import opened Text
  import opened Ledger

  /** One client after the sweep, with the receipt item recorded for it, if any. */
  datatype Swept = Swept(rec: ClientRecord, item: Option<ReceiptItem>)

  /** The sweep selects a client with a stat, active, whose collection day is today's. */
  predicate Due(c: ClientRecord, weekday: Weekday)
  {
    c.stat.Some? && c.stat.value.status == Active && c.stat.value.collectionDay == DayName(weekday)
  }

  /** `st'` is `st` credited with one week of the fixed instalment, closed at the cap. */
  ghost predicate CreditedOneWeek(st: ClientStat, st': ClientStat)
  {
    && st'.name == st.name && st'.collectionDay == st.collectionDay && st'.lendDate == st.lendDate
    && st'.weeksPaid == st.weeksPaid + 1
    && st'.totalAmountPaid == st.totalAmountPaid + WeeklyAmount
    && st'.status == (if st.weeksPaid + 1 >= MaxWeeks then Closed else st.status)
  }

  /** The sweep of one client. A due client with an unpaid entry dated today has it marked
      paid (`Updated`); a due client without one gets a new paid week dated today
      (`Created`), unless its schedule is full; anyone else is left alone. */
  function SweepClient(c: ClientRecord, today: string, weekday: Weekday): (s: Swept)
    ensures s.item.None? ==> s.rec == c
    ensures !Due(c, weekday) ==> s.item.None?
    ensures Due(c, weekday) && FindTodayEntry(c.weeks, today).Some? ==>
      var k := FindTodayEntry(c.weeks, today).value;
      && (IsPaidLabel(c.weeks[k].entryStatus) ==> s.item.None?)
      && (!IsPaidLabel(c.weeks[k].entryStatus) ==>
            && s.item == Some(ReceiptItem(Updated, k))
            && s.rec.weeks == c.weeks[k := c.weeks[k].(entryStatus := PaidLabel)])
    ensures Due(c, weekday) && FindTodayEntry(c.weeks, today).None? ==>
      var next := NextWeek(c.weeks);
      && (next > MaxWeeks ==> s.item.None?)
      && (next <= MaxWeeks ==>
            && s.item == Some(ReceiptItem(Created, next))
            && s.rec.weeks.Keys == c.weeks.Keys + {next}
            && s.rec.weeks[next] == Entry(WeeklyAmount, today, PaidLabel)
            && forall k :: k in c.weeks ==> s.rec.weeks[k] == c.weeks[k])
    ensures s.item.Some? ==> Due(c, weekday) && s.rec.stat.Some? && CreditedOneWeek(c.stat.value, s.rec.stat.value)
  {
    if !Due(c, weekday) then Swept(c, None)
    else
      var st' := Settle(c.stat.value, true, WeeklyAmount);
      match FindTodayEntry(c.weeks, today)
      case Some(k) =>
        if IsPaidLabel(c.weeks[k].entryStatus) then Swept(c, None)
        else
          Swept(ClientRecord(Some(st'), c.weeks[k := c.weeks[k].(entryStatus := PaidLabel)]),
                Some(ReceiptItem(Updated, k)))
      case None =>
        var next := NextWeek(c.weeks);
        if next > MaxWeeks then Swept(c, None)
        else
          Swept(ClientRecord(Some(st'), c.weeks[next := Entry(WeeklyAmount, today, PaidLabel)]),
                Some(ReceiptItem(Created, next)))
  }

  /** The client map after the sweep. */
  function SweepClients(cs: Clients, today: string, weekday: Weekday): (cs': Clients)
    ensures cs'.Keys == cs.Keys
  {
    map id | id in cs :: SweepClient(cs[id], today, weekday).rec
  }

  /** The receipt: one item for every client the sweep changed. */
  function SweepReceipt(cs: Clients, today: string, weekday: Weekday): (r: Receipt)
    ensures forall id :: id in r <==> id in cs && SweepClient(cs[id], today, weekday).item.Some?
    ensures forall id :: id in r ==> r[id] == SweepClient(cs[id], today, weekday).item.value
  {
    map id | id in cs && SweepClient(cs[id], today, weekday).item.Some? :: SweepClient(cs[id], today, weekday).item.value
  }

  /** The clients whose loan this sweep closes. */
  function ClosedBySweep(cs: Clients, today: string, weekday: Weekday): set<ClientId>
  {
    set id | id in cs && SweepClient(cs[id], today, weekday).item.Some?
      && SweepClient(cs[id], today, weekday).rec.stat.value.status == Closed
  }

  /** The sweep transform. Against a repaired document: if today's date already has a
      receipt nothing changes; otherwise every client is swept, each closure moves one loan
      from active to closed, and the receipt is stored under today's date, even if empty. */
  function Sweep(doc: Document, today: string, weekday: Weekday): (r: Ledger)
    ensures Repaired(r)
    ensures today in r.batches
    ensures today in Repair(doc).batches ==> r == Repair(doc)
    ensures today !in Repair(doc).batches ==>
      var l := Repair(doc);
      var cs := l.clients.value;
      var closing := |ClosedBySweep(cs, today, weekday)|;
      && r.batches == l.batches[today := SweepReceipt(cs, today, weekday)]
      && r.clients.value.Keys == cs.Keys
      && (forall id :: id in cs ==> r.clients.value[id] == SweepClient(cs[id], today, weekday).rec)
      && r.stats.value.totalLoans == l.stats.value.totalLoans
      && r.stats.value.activeLoans == l.stats.value.activeLoans - closing
      && r.stats.value.closedLoans == l.stats.value.closedLoans + closing
  {
    var l := Repair(doc);
    if today in l.batches then l else SweepDue(l, today, weekday)
  }

  /** The sweep of a repaired document, once the date gate has let it through. */
  function SweepDue(l: Ledger, today: string, weekday: Weekday): Ledger
    requires Repaired(l)
  {
    var cs := l.clients.value;
    var st := l.stats.value;
    var closing := |ClosedBySweep(cs, today, weekday)|;
    Ledger(
      Some(AllStats(st.totalLoans, st.activeLoans - closing, st.closedLoans + closing)),
      Some(SweepClients(cs, today, weekday)),
      l.batches[today := SweepReceipt(cs, today, weekday)])
  }

  /** Sweeping twice on the same date is sweeping once. */
  lemma SweepIdempotent(doc: Document, today: string, weekday: Weekday)
    ensures Sweep(Some(Sweep(doc, today, weekday)), today, weekday) == Sweep(doc, today, weekday)
  {
    RepairFixesRepaired(Sweep(doc, today, weekday));
  }

  /** The sweep of a repaired document whose receipts lack today's date. */
  lemma SweepUnfold(l: Ledger, today: string, weekday: Weekday)
    requires Repaired(l)
    requires today !in l.batches
    ensures var r := Sweep(Some(l), today, weekday);
      var st := l.stats.value;
      var k := |ClosedBySweep(l.clients.value, today, weekday)|;
      && r.stats.Some?
      && r.stats.value.totalLoans == st.totalLoans
      && r.stats.value.activeLoans == st.activeLoans - k
      && r.stats.value.closedLoans == st.closedLoans + k
      && r.clients == Some(SweepClients(l.clients.value, today, weekday))
      && r.batches == l.batches[today := SweepReceipt(l.clients.value, today, weekday)]
  {
    SweepIsDue(l, today, weekday);
  }

  /** A sweep the date gate lets through is `SweepDue`. */
  lemma SweepIsDue(l: Ledger, today: string, weekday: Weekday)
    requires Repaired(l)
    requires today !in l.batches
    ensures Sweep(Some(l), today, weekday) == SweepDue(l, today, weekday)
  {
    RepairFixesRepaired(l);
  }

  /** The sweep keeps each client's stat consistent and its schedule dense. */
  lemma SweepClientKeepsClientOk(c: ClientRecord, today: string, weekday: Weekday)
    requires StatOk(c) && WeeksDense(c.weeks)
    ensures var s := SweepClient(c, today, weekday);
      StatOk(s.rec) && WeeksDense(s.rec.weeks)
  {
    var s := SweepClient(c, today, weekday);
    if s.item.Some? {
      if s.item.value.action == Created {
        DenseAppend(c.weeks, Entry(WeeklyAmount, today, PaidLabel));
        assert s.rec.weeks == c.weeks[NextWeek(c.weeks) := Entry(WeeklyAmount, today, PaidLabel)];
      } else {
        assert s.rec.weeks.Keys == c.weeks.Keys;
      }
    }
  }

  /** The sweep keeps each client's stat consistent, whatever its schedule. */
  lemma SweepClientKeepsStatOk(c: ClientRecord, today: string, weekday: Weekday)
    requires StatOk(c)
    ensures StatOk(SweepClient(c, today, weekday).rec)
  {
  }

  /** The active and closed sets after the sweep: the closed-by-sweep clients move over. */
  lemma SweepCounts(cs: Clients, today: string, weekday: Weekday)
    ensures ClosedBySweep(cs, today, weekday) <= ActiveIds(cs)
    ensures ActiveIds(SweepClients(cs, today, weekday)) == ActiveIds(cs) - ClosedBySweep(cs, today, weekday)
    ensures ClosedIds(SweepClients(cs, today, weekday)) == ClosedIds(cs) + ClosedBySweep(cs, today, weekday)
    ensures ClosedBySweep(cs, today, weekday) !! ClosedIds(cs)
  {
    var cs' := SweepClients(cs, today, weekday);
    var closing := ClosedBySweep(cs, today, weekday);
    forall id | id in cs
      ensures (id in ActiveIds(cs') <==> id in ActiveIds(cs) && id !in closing)
      ensures (id in ClosedIds(cs') <==> id in ClosedIds(cs) || id in closing)
    {
      var s := SweepClient(cs[id], today, weekday);
      assert cs'[id] == s.rec;
    }
  }

  /** The counts after the sweep: as many clients, the closed-by-sweep ones moved over. */
  lemma SweepCountCards(cs: Clients, today: string, weekday: Weekday)
    ensures var cs' := SweepClients(cs, today, weekday);
      var k := |ClosedBySweep(cs, today, weekday)|;
      && |cs'| == |cs|
      && |ActiveIds(cs')| == |ActiveIds(cs)| - k
      && |ClosedIds(cs')| == |ClosedIds(cs)| + k
  {
    var cs' := SweepClients(cs, today, weekday);
    SweepCounts(cs, today, weekday);
    SubsetDiffCard(ActiveIds(cs), ClosedBySweep(cs, today, weekday));
    assert cs'.Keys == cs.Keys;
  }

  /** The sweep keeps every client consistent and dense. */
  lemma SweepKeepsClientsOk(cs: Clients, today: string, weekday: Weekday)
    requires forall id :: id in cs ==> StatOk(cs[id]) && WeeksDense(cs[id].weeks)
    ensures var cs' := SweepClients(cs, today, weekday);
      forall id :: id in cs' ==> StatOk(cs'[id]) && WeeksDense(cs'[id].weeks)
  {
    var cs' := SweepClients(cs, today, weekday);
    forall id | id in cs'
      ensures StatOk(cs'[id]) && WeeksDense(cs'[id].weeks)
    {
      SweepClientKeepsClientOk(cs[id], today, weekday);
    }
  }

  /** The sweep keeps a valid ledger valid. */
  lemma SweepPreservesValid(l: Ledger, today: string, weekday: Weekday)
    requires Valid(l)
    ensures Valid(Sweep(Some(l), today, weekday))
  {
    RepairFixesRepaired(l);
    if today !in l.batches {
      SweepUnfold(l, today, weekday);
      SweepKeepsClientsOk(l.clients.value, today, weekday);
      SweepCountCards(l.clients.value, today, weekday);
    }
  }

  /** The sweep keeps a balanced ledger balanced, whatever gaps its schedules have. */
  lemma SweepPreservesBalanced(l: Ledger, today: string, weekday: Weekday)
    requires Balanced(l)
    ensures Balanced(Sweep(Some(l), today, weekday))
  {
    RepairFixesRepaired(l);
    if today !in l.batches {
      var cs := l.clients.value;
      var cs' := SweepClients(cs, today, weekday);
      SweepUnfold(l, today, weekday);
      forall id | id in cs'
        ensures StatOk(cs'[id])
      {
        SweepClientKeepsStatOk(cs[id], today, weekday);
      }
      SweepCountCards(cs, today, weekday);
    }
  }

  /** A Monday sweep of a lone active Monday client with no weeks creates a paid week 1
      dated today and records it in the receipt. */
  lemma SweepFirstMonday(lendDate: string, today: string)
    ensures
      var c := ClientRecord(Some(ClientStat(P(1), "MON", lendDate, Active, 0, 0)), map[]);
      var l := Ledger(Some(AllStats(1, 1, 0)), Some(map[P(1) := c]), map[]);
      var r := Sweep(Some(l), today, MON);
      && r.clients.value[P(1)].weeks == map[1 := Entry(WeeklyAmount, today, PaidLabel)]
      && r.clients.value[P(1)].stat.value.weeksPaid == 1
      && r.batches == map[today := map[P(1) := ReceiptItem(Created, 1)]]
  {
    var c := ClientRecord(Some(ClientStat(P(1), "MON", lendDate, Active, 0, 0)), map[]);
    var s := SweepClient(c, today, MON);
    assert NextWeek(c.weeks) == 1;
    assert s.rec.weeks == map[1 := Entry(WeeklyAmount, today, PaidLabel)];
    assert SweepReceipt(map[P(1) := c], today, MON) == map[P(1) := ReceiptItem(Created, 1)];
  }
}
