/** The read-only reports over `ClientData`: the dashboard totals and the weekly tally. */
module Reports {
  import opened Results
  import opened Ledger
  import Sweeper

  /** What a client is expected to pay in all: twenty weeks of the instalment. */
  const TotalPerClient: int := WeeklyAmount * MaxWeeks

  datatype Dashboard = Dashboard(
    totalLoans: nat,
    activeLoans: nat,
    closedLoans: nat,
    weeklyCollection: int,
    upcomingCollection: int)

  /** The clients with a stat; the dashboard skips the others. */
  function WithStat(cs: Clients): set<ClientId>
  {
    set id | id in cs && cs[id].stat.Some?
  }

  /** What a client still owes toward the full amount, never negative; 0 without a stat. */
  function Outstanding(cs: Clients, id: ClientId): int
  {
    if id in cs && cs[id].stat.Some? then ClampZero(TotalPerClient - cs[id].stat.value.totalAmountPaid) else 0
  }

  /** The sum of `Outstanding` over `ids`. */
  ghost function SumOutstanding(cs: Clients, ids: set<ClientId>): int
    decreases ids
  {
    if ids == {} then 0
    else
      var x :| x in ids;
      Outstanding(cs, x) + SumOutstanding(cs, ids - {x})
  }

  /** The sum does not depend on which element is taken first. */
  lemma {:induction false} SumOutstandingPick(cs: Clients, ids: set<ClientId>, y: ClientId)
    requires y in ids
    ensures SumOutstanding(cs, ids) == Outstanding(cs, y) + SumOutstanding(cs, ids - {y})
    decreases ids
  {
    var x :| x in ids && SumOutstanding(cs, ids) == Outstanding(cs, x) + SumOutstanding(cs, ids - {x});
    if x != y {
      SumOutstandingPick(cs, ids - {x}, y);
      SumOutstandingPick(cs, ids - {y}, x);
      assert ids - {x} - {y} == ids - {y} - {x};
    }
  }

  /** A sum of non-negative terms, each at most `TotalPerClient` when no client has paid a
      negative total. */
  lemma {:induction false} SumOutstandingBounds(cs: Clients, ids: set<ClientId>)
    ensures 0 <= SumOutstanding(cs, ids)
    ensures (forall id :: id in cs && cs[id].stat.Some? ==> cs[id].stat.value.totalAmountPaid >= 0)
      ==> SumOutstanding(cs, ids) <= TotalPerClient * |ids|
    decreases ids
  {
    if ids != {} {
      var x :| x in ids;
      SumOutstandingPick(cs, ids, x);
      SumOutstandingBounds(cs, ids - {x});
    }
  }

  /** The `/dashboard` fold: counts of clients with a stat, active and closed, the weekly
      collection of the active ones, and the total still outstanding. */
  method ComputeDashboard(cs: Clients) returns (d: Dashboard)
    ensures d.totalLoans == |WithStat(cs)|
    ensures d.activeLoans == |ActiveIds(cs)|
    ensures d.closedLoans == |ClosedIds(cs)|
    ensures d.weeklyCollection == WeeklyAmount * |ActiveIds(cs)|
    ensures d.upcomingCollection == SumOutstanding(cs, cs.Keys)
  {
    var todo := cs.Keys;
    var total, active, closed: nat := 0, 0, 0;
    var upcoming := 0;
    while todo != {}
      invariant todo <= cs.Keys
      invariant total == |WithStat(cs) - todo|
      invariant active == |ActiveIds(cs) - todo|
      invariant closed == |ClosedIds(cs) - todo|
      invariant upcoming + SumOutstanding(cs, todo) == SumOutstanding(cs, cs.Keys)
      decreases todo
    {
      var id :| id in todo;
      SumOutstandingPick(cs, todo, id);
      Sets.DoneStep(WithStat(cs), todo, id);
      Sets.DoneStep(ActiveIds(cs), todo, id);
      Sets.DoneStep(ClosedIds(cs), todo, id);
      // A record without a stat is skipped; one with a stat counts once, and once more
      // as active or as closed.
      total := total + if id in WithStat(cs) then 1 else 0;
      active := active + if id in ActiveIds(cs) then 1 else 0;
      closed := closed + if id in ClosedIds(cs) then 1 else 0;
      upcoming := upcoming + Outstanding(cs, id);
      todo := todo - {id};
    }
    d := Dashboard(total, active, closed, WeeklyAmount * active, upcoming);
  }

  /** The `/dashboard` read: an absent document or a missing `ClientData` is an error,
      otherwise the fold over the clients. `AllStats` is not consulted. */
  method DashboardOf(doc: Document) returns (r: Result<Dashboard, Error>)
    ensures doc.None? ==> r == Failure(UserNotFound)
    ensures doc.Some? && doc.value.clients.None? ==> r == Failure(ClientDataMissing)
    ensures r.Success? <==> doc.Some? && doc.value.clients.Some?
    ensures r.Success? ==>
      var cs := doc.value.clients.value;
      && r.value.totalLoans == |WithStat(cs)|
      && r.value.activeLoans == |ActiveIds(cs)|
      && r.value.closedLoans == |ClosedIds(cs)|
      && r.value.weeklyCollection == WeeklyAmount * |ActiveIds(cs)|
      && r.value.upcomingCollection == SumOutstanding(cs, cs.Keys)
  {
    if doc.None? {
      return Failure(UserNotFound);
    }
    if doc.value.clients.None? {
      return Failure(ClientDataMissing);
    }
    var d := ComputeDashboard(doc.value.clients.value);
    return Success(d);
  }

  /** In a balanced ledger the dashboard's counts equal the stored `AllStats`. */
  lemma DashboardAgreesWithStats(l: Ledger)
    requires Balanced(l)
    ensures |WithStat(l.clients.value)| == l.stats.value.totalLoans
    ensures |ActiveIds(l.clients.value)| == l.stats.value.activeLoans
    ensures |ClosedIds(l.clients.value)| == l.stats.value.closedLoans
  {
    assert WithStat(l.clients.value) == l.clients.value.Keys;
  }

  /** The active clients with a stat whose collection day is `d`'s name. */
  function DueOn(cs: Clients, d: Weekday): set<ClientId>
  {
    set id | id in cs && cs[id].stat.Some? && cs[id].stat.value.status == Active
      && cs[id].stat.value.collectionDay == DayName(d)
  }

  datatype DayTally = DayTally(count: nat, amount: int)

  /** The `/weekly` tally: per weekday, the active clients collected that day and the
      instalments they owe. Clients with an unknown day name are not counted. */
  function WeeklyTally(cs: Clients): (t: map<Weekday, DayTally>)
    ensures forall d: Weekday :: d in t
    ensures forall d: Weekday :: t[d].amount == WeeklyAmount * t[d].count
    ensures forall d: Weekday :: t[d].count == |DueOn(cs, d)|
  {
    map d: Weekday | true :: DayTally(|DueOn(cs, d)|, WeeklyAmount * |DueOn(cs, d)|)
  }

  /** The `/weekly` read: an absent document or a missing `ClientData` is an error,
      otherwise the tally over the clients. */
  function WeeklyOf(doc: Document): (r: Result<map<Weekday, DayTally>, Error>)
    ensures doc.None? ==> r == Failure(UserNotFound)
    ensures doc.Some? && doc.value.clients.None? ==> r == Failure(ClientDataMissing)
    ensures r.Success? <==> doc.Some? && doc.value.clients.Some?
    ensures r.Success? ==> forall d: Weekday ::
      && d in r.value
      && r.value[d].count == |DueOn(doc.value.clients.value, d)|
      && r.value[d].amount == WeeklyAmount * r.value[d].count
  {
    if doc.None? then Failure(UserNotFound)
    else if doc.value.clients.None? then Failure(ClientDataMissing)
    else Success(WeeklyTally(doc.value.clients.value))
  }

  /** A weekday's tally counts exactly the clients the sweep on that weekday selects. */
  lemma TallyCountsSweepSelection(cs: Clients, d: Weekday)
    ensures WeeklyTally(cs)[d].count == |set id | id in cs && Sweeper.Due(cs[id], d)|
  {
    assert DueOn(cs, d) == set id | id in cs && Sweeper.Due(cs[id], d);
  }

  /** The active clients whose collection day is one of the seven day names. */
  ghost function ScheduledActive(cs: Clients): set<ClientId>
  {
    set id | id in cs && cs[id].stat.Some? && cs[id].stat.value.status == Active
      && exists d: Weekday :: cs[id].stat.value.collectionDay == DayName(d)
  }

  /** Clients due on two different days are different clients. */
  lemma DueOnDisjoint(cs: Clients, d1: Weekday, d2: Weekday)
    requires d1 != d2
    ensures DueOn(cs, d1) !! DueOn(cs, d2)
  {
    assert DayName(d1) != DayName(d2);
  }

  /** The scheduled active clients are the clients due on some day. */
  lemma DaysCoverScheduled(cs: Clients)
    ensures ScheduledActive(cs) ==
      DueOn(cs, MON) + DueOn(cs, TUE) + DueOn(cs, WED) + DueOn(cs, THU)
      + DueOn(cs, FRI) + DueOn(cs, SAT) + DueOn(cs, SUN)
  {
    var u := DueOn(cs, MON) + DueOn(cs, TUE) + DueOn(cs, WED) + DueOn(cs, THU)
      + DueOn(cs, FRI) + DueOn(cs, SAT) + DueOn(cs, SUN);
    forall id | id in ScheduledActive(cs)
      ensures id in u
    {
      var d: Weekday :| cs[id].stat.value.collectionDay == DayName(d);
      assert id in DueOn(cs, d);
      match d {
        case MON => case TUE => case WED => case THU => case FRI => case SAT => case SUN =>
      }
    }
    forall d: Weekday
      ensures DueOn(cs, d) <= ScheduledActive(cs)
    {
      forall id | id in DueOn(cs, d)
        ensures id in ScheduledActive(cs)
      {
        assert cs[id].stat.value.collectionDay == DayName(d);
      }
    }
    assert u <= ScheduledActive(cs);
  }

  /** The seven daily counts add up to the scheduled active clients, at most the active loans. */
  lemma WeeklyCountsAddUp(cs: Clients)
    ensures var t := WeeklyTally(cs);
      t[MON].count + t[TUE].count + t[WED].count + t[THU].count + t[FRI].count + t[SAT].count + t[SUN].count
        == |ScheduledActive(cs)|
    ensures |ScheduledActive(cs)| <= |ActiveIds(cs)|
  {
    var u1 := DueOn(cs, MON);
    var u2 := u1 + DueOn(cs, TUE);
    var u3 := u2 + DueOn(cs, WED);
    var u4 := u3 + DueOn(cs, THU);
    var u5 := u4 + DueOn(cs, FRI);
    var u6 := u5 + DueOn(cs, SAT);
    var u7 := u6 + DueOn(cs, SUN);
    assert |u2| == |u1| + |DueOn(cs, TUE)| by {
      DueOnDisjoint(cs, MON, TUE);
    }
    assert |u3| == |u2| + |DueOn(cs, WED)| by {
      DueOnDisjoint(cs, MON, WED);
      DueOnDisjoint(cs, TUE, WED);
    }
    assert |u4| == |u3| + |DueOn(cs, THU)| by {
      DueOnDisjoint(cs, MON, THU);
      DueOnDisjoint(cs, TUE, THU);
      DueOnDisjoint(cs, WED, THU);
    }
    assert |u5| == |u4| + |DueOn(cs, FRI)| by {
      DueOnDisjoint(cs, MON, FRI);
      DueOnDisjoint(cs, TUE, FRI);
      DueOnDisjoint(cs, WED, FRI);
      DueOnDisjoint(cs, THU, FRI);
    }
    assert |u6| == |u5| + |DueOn(cs, SAT)| by {
      DueOnDisjoint(cs, MON, SAT);
      DueOnDisjoint(cs, TUE, SAT);
      DueOnDisjoint(cs, WED, SAT);
      DueOnDisjoint(cs, THU, SAT);
      DueOnDisjoint(cs, FRI, SAT);
    }
    assert |u7| == |u6| + |DueOn(cs, SUN)| by {
      DueOnDisjoint(cs, MON, SUN);
      DueOnDisjoint(cs, TUE, SUN);
      DueOnDisjoint(cs, WED, SUN);
      DueOnDisjoint(cs, THU, SUN);
      DueOnDisjoint(cs, FRI, SUN);
      DueOnDisjoint(cs, SAT, SUN);
    }
    DaysCoverScheduled(cs);
    Sets.SubsetCard(ScheduledActive(cs), ActiveIds(cs));
  }
}
