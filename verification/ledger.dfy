/**
  The per-user ledger document of the loan-collection engine and the helpers every
  transform shares: repair of a sparse document, the week arithmetic, the lookup of
  today's entry, the credit-and-close rule, and the invariants the transforms keep.
  The schemaless keys of the store are typed here: the `"<id>Stat"` key becomes the
  `stat` field of a client record and the `"week<N>"` keys become natural numbers.
*/
module Ledger {
  import opened Results
  import opened Sets
  import opened Text

  /** A client's schedule holds at most this many weeks. */
  const MaxWeeks: nat := 20
  /** The fixed weekly instalment the sweep posts and the reports assume. */
  const WeeklyAmount: int := 600
  const PaidLabel: string := "paid"
  const PendingLabel: string := "pending"

  datatype Weekday = MON | TUE | WED | THU | FRI | SAT | SUN

  /** The name the sweep compares a client's `CollectionDay` with. */
  function DayName(d: Weekday): string
  {
    match d
    case MON => "MON"
    case TUE => "TUE"
    case WED => "WED"
    case THU => "THU"
    case FRI => "FRI"
    case SAT => "SAT"
    case SUN => "SUN"
  }

  /** A key of `ClientData`: `P<n>` as the registrar allocates it, or any other key. */
  datatype ClientId = P(n: nat) | Named(key: string)

  datatype LoanStatus = Active | Closed

  /** One week of a client's schedule; `entryStatus` is the caller's free-form label. */
  datatype Entry = Entry(amount: int, date: string, entryStatus: string)

  datatype ClientStat = ClientStat(
    name: ClientId,
    collectionDay: string,
    lendDate: string,
    status: LoanStatus,
    totalAmountPaid: int,
    weeksPaid: nat)

  /** A `ClientData` node: its stat (absent in a broken record) and its weeks by number. */
  datatype ClientRecord = ClientRecord(stat: Option<ClientStat>, weeks: map<nat, Entry>)

  datatype AllStats = AllStats(totalLoans: int, activeLoans: int, closedLoans: int)

  datatype Action = Created | Updated

  /** What the sweep did to one client, enough to invert it. */
  datatype ReceiptItem = ReceiptItem(action: Action, week: nat)

  type Receipt = map<ClientId, ReceiptItem>

  type Clients = map<ClientId, ClientRecord>

  /** The user's document; `stats` and `clients` may be missing in a sparse document,
      a missing `batches` reads as no batches. */
  datatype Ledger = Ledger(stats: Option<AllStats>, clients: Option<Clients>, batches: map<string, Receipt>)

  /** What the store hands a transform: the document, or nothing at that path. */
  type Document = Option<Ledger>

  datatype Error =
    | UserNotFound
    | CorruptStructure
    | ClientNotFound
    | ClientStatMissing
    | ClientAlreadyClosed
    | MaxWeeksReached
    | ClientDataMissing

  const ZeroStats := AllStats(0, 0, 0)

  /** A document holding both `AllStats` and `ClientData`. */
  predicate Repaired(l: Ledger)
  {
    l.stats.Some? && l.clients.Some?
  }

  /** Ledger repair: an absent document becomes an empty ledger, and a present one gets
      zeroed stats and an empty client map where those are missing. */
  function Repair(doc: Document): (r: Ledger)
    ensures Repaired(r)
    ensures doc.None? ==> r.stats == Some(ZeroStats) && r.clients == Some(map[]) && r.batches == map[]
    ensures doc.Some? ==> r.batches == doc.value.batches
    ensures doc.Some? && doc.value.stats.Some? ==> r.stats == doc.value.stats
    ensures doc.Some? && doc.value.stats.None? ==> r.stats == Some(ZeroStats)
    ensures doc.Some? && doc.value.clients.Some? ==> r.clients == doc.value.clients
    ensures doc.Some? && doc.value.clients.None? ==> r.clients == Some(map[])
  {
    match doc
    case None => Ledger(Some(ZeroStats), Some(map[]), map[])
    case Some(l) =>
      Ledger(
        if l.stats.Some? then l.stats else Some(ZeroStats),
        if l.clients.Some? then l.clients else Some(map[]),
        l.batches)
  }

  /** Repair leaves an already repaired document as it is, so it is idempotent. */
  lemma RepairFixesRepaired(l: Ledger)
    requires Repaired(l)
    ensures Repair(Some(l)) == l
  {
  }

  lemma RepairIdempotent(doc: Document)
    ensures Repair(Some(Repair(doc))) == Repair(doc)
  {
    RepairFixesRepaired(Repair(doc));
  }

  /** The greatest week number in use, 0 when there is none. */
  function MaxWeek(weeks: map<nat, Entry>): (m: nat)
    ensures forall k :: k in weeks ==> k <= m
    ensures weeks == map[] ==> m == 0
    ensures weeks != map[] ==> m in weeks
  {
    MaxOrZero(weeks.Keys)
  }

  /** The week number a new entry goes to: one past the greatest in use. */
  function NextWeek(weeks: map<nat, Entry>): (w: nat)
    ensures w !in weeks && w >= 1
    ensures forall k :: k in weeks ==> k < w
    ensures w == 1 || w - 1 in weeks
  {
    MaxWeek(weeks) + 1
  }

  /** The week holding an entry dated `today`, if any. Several such weeks are not
      expected; the least one is chosen. */
  function FindTodayEntry(weeks: map<nat, Entry>, today: string): (k: Option<nat>)
    ensures k.None? <==> forall w :: w in weeks ==> weeks[w].date != today
    ensures k.Some? ==> k.value in weeks && weeks[k.value].date == today
    ensures k.Some? ==> forall w :: w in weeks && weeks[w].date == today ==> k.value <= w
  {
    var dated := set w | w in weeks && weeks[w].date == today;
    assert forall w :: w in weeks && weeks[w].date == today ==> w in dated;
    if dated == {} then None else Some(Min(dated))
  }

  /** Python's `max(0, x)`. */
  function ClampZero(x: int): int
  {
    if x < 0 then 0 else x
  }

  /** The sweep's case-insensitive test of an entry status. */
  predicate IsPaidLabel(s: string)
  {
    Lower(s) == PaidLabel
  }

  /** The credit-and-close rule: a paid week adds one week and `amount`, and a stat that
      has reached the week cap is closed. */
  function Settle(st: ClientStat, paid: bool, amount: int): ClientStat
  {
    var weeksPaid := if paid then st.weeksPaid + 1 else st.weeksPaid;
    st.(weeksPaid := weeksPaid,
        totalAmountPaid := if paid then st.totalAmountPaid + amount else st.totalAmountPaid,
        status := if weeksPaid >= MaxWeeks then Closed else st.status)
  }

  /** A record is empty when it has neither a stat nor any week (a falsy node). */
  predicate EmptyNode(c: ClientRecord)
  {
    c.stat.None? && c.weeks == map[]
  }

  function ActiveIds(cs: Clients): set<ClientId>
  {
    set id | id in cs && cs[id].stat.Some? && cs[id].stat.value.status == Active
  }

  function ClosedIds(cs: Clients): set<ClientId>
  {
    set id | id in cs && cs[id].stat.Some? && cs[id].stat.value.status == Closed
  }

  /** Replacing one existing client moves it between the active and closed sets
      according to its new status, and keeps the number of clients. */
  lemma ReplaceCounts(cs: Clients, id: ClientId, rec: ClientRecord)
    requires id in cs
    ensures ActiveIds(cs[id := rec]) ==
      (ActiveIds(cs) - {id}) + (if rec.stat.Some? && rec.stat.value.status == Active then {id} else {})
    ensures ClosedIds(cs[id := rec]) ==
      (ClosedIds(cs) - {id}) + (if rec.stat.Some? && rec.stat.value.status == Closed then {id} else {})
    ensures |cs[id := rec]| == |cs|
  {
    assert (cs[id := rec]).Keys == cs.Keys;
  }

  /** Replacing an active client by one still active keeps both counts; by a closed
      one moves it from the active set to the closed set. */
  lemma ReplaceActiveCards(cs: Clients, id: ClientId, rec: ClientRecord)
    requires id in cs && cs[id].stat.Some? && cs[id].stat.value.status == Active
    requires rec.stat.Some?
    ensures rec.stat.value.status == Closed ==>
      && |ActiveIds(cs[id := rec])| == |ActiveIds(cs)| - 1
      && |ClosedIds(cs[id := rec])| == |ClosedIds(cs)| + 1
    ensures rec.stat.value.status == Active ==>
      && |ActiveIds(cs[id := rec])| == |ActiveIds(cs)|
      && |ClosedIds(cs[id := rec])| == |ClosedIds(cs)|
  {
    ReplaceCounts(cs, id, rec);
    if rec.stat.value.status == Closed {
      ReplaceActiveByClosed(cs, id, rec);
    } else {
      ReplaceActiveByActive(cs, id, rec);
    }
  }

  /** The closing replacement: the client leaves the active set and joins the closed one. */
  lemma ReplaceActiveByClosed(cs: Clients, id: ClientId, rec: ClientRecord)
    requires id in cs && cs[id].stat.Some? && cs[id].stat.value.status == Active
    requires rec.stat.Some? && rec.stat.value.status == Closed
    ensures ActiveIds(cs[id := rec]) == ActiveIds(cs) - {id}
    ensures ClosedIds(cs[id := rec]) == ClosedIds(cs) + {id}
    ensures id in ActiveIds(cs) && id !in ClosedIds(cs)
  {
    ReplaceCounts(cs, id, rec);
    var c := ClosedIds(cs);
    assert id !in c;
    assert c - {id} == c;
  }

  /** The replacement that stays active: both sets are unchanged. */
  lemma ReplaceActiveByActive(cs: Clients, id: ClientId, rec: ClientRecord)
    requires id in cs && cs[id].stat.Some? && cs[id].stat.value.status == Active
    requires rec.stat.Some? && rec.stat.value.status == Active
    ensures ActiveIds(cs[id := rec]) == ActiveIds(cs)
    ensures ClosedIds(cs[id := rec]) == ClosedIds(cs)
  {
    ReplaceCounts(cs, id, rec);
    var a := ActiveIds(cs);
    var c := ClosedIds(cs);
    assert id in a && id !in c;
    assert (a - {id}) + {id} == a;
    assert c - {id} == c;
  }

  /** Replacing an active client's record by a consistent one keeps the ledger balanced,
      provided a closure moves one loan from active to closed. */
  lemma ReplaceActiveKeepsBalanced(l: Ledger, id: ClientId, rec: ClientRecord)
    requires Balanced(l) && id in l.clients.value
    requires l.clients.value[id].stat.value.status == Active
    requires StatOk(rec)
    ensures var st := l.stats.value;
      var stats' := if rec.stat.value.status == Closed
        then AllStats(st.totalLoans, st.activeLoans - 1, st.closedLoans + 1)
        else st;
      Balanced(Ledger(Some(stats'), Some(l.clients.value[id := rec]), l.batches))
  {
    var cs := l.clients.value;
    var cs' := cs[id := rec];
    assert forall k :: k in cs' ==> StatOk(cs'[k]);
    assert |cs'| == |cs| by {
      assert cs'.Keys == cs.Keys;
    }
    ReplaceActiveCards(cs, id, rec);
  }

  /** Replacing an active client's record by a consistent, dense one keeps the ledger
      valid, provided a closure moves one loan from active to closed. */
  lemma ReplaceActiveKeepsValid(l: Ledger, id: ClientId, rec: ClientRecord)
    requires Valid(l) && id in l.clients.value
    requires l.clients.value[id].stat.value.status == Active
    requires StatOk(rec) && WeeksDense(rec.weeks)
    ensures var st := l.stats.value;
      var stats' := if rec.stat.value.status == Closed
        then AllStats(st.totalLoans, st.activeLoans - 1, st.closedLoans + 1)
        else st;
      Valid(Ledger(Some(stats'), Some(l.clients.value[id := rec]), l.batches))
  {
    ReplaceActiveKeepsBalanced(l, id, rec);
    var cs' := l.clients.value[id := rec];
    assert forall k :: k in cs' ==> WeeksDense(cs'[k].weeks);
  }

  /** A stat is present, within the cap, and closed exactly when the cap is reached. */
  ghost predicate StatOk(c: ClientRecord)
  {
    && c.stat.Some?
    && c.stat.value.weeksPaid <= MaxWeeks
    && (c.stat.value.status == Closed <==> c.stat.value.weeksPaid == MaxWeeks)
  }

  /** Week numbers run densely from 1 to the number of weeks, at most the cap. */
  ghost predicate WeeksDense(weeks: map<nat, Entry>)
  {
    && |weeks| <= MaxWeeks
    && forall k :: k in weeks <==> 1 <= k <= |weeks|
  }

  /** The counting invariant: `AllStats` counts the clients, the active ones and the
      closed ones, and every client stat is consistent. */
  ghost predicate Balanced(l: Ledger)
  {
    && Repaired(l)
    && (forall id :: id in l.clients.value ==> StatOk(l.clients.value[id]))
    && l.stats.value.totalLoans == |l.clients.value|
    && l.stats.value.activeLoans == |ActiveIds(l.clients.value)|
    && l.stats.value.closedLoans == |ClosedIds(l.clients.value)|
  }

  /** The full invariant: balanced, and every schedule dense. */
  ghost predicate Valid(l: Ledger)
  {
    && Balanced(l)
    && forall id :: id in l.clients.value ==> WeeksDense(l.clients.value[id].weeks)
  }

  /** `TotalLoans == ActiveLoans + ClosedLoans` in a balanced ledger. */
  lemma BalancedLoansAddUp(l: Ledger)
    requires Balanced(l)
    ensures l.stats.value.totalLoans == l.stats.value.activeLoans + l.stats.value.closedLoans
    ensures l.stats.value.activeLoans >= 0 && l.stats.value.closedLoans >= 0
  {
    var cs := l.clients.value;
    assert cs.Keys == ActiveIds(cs) + ClosedIds(cs);
    assert ActiveIds(cs) !! ClosedIds(cs);
  }

  /** In a dense schedule the greatest week is the number of weeks. */
  lemma DenseMaxWeek(weeks: map<nat, Entry>)
    requires WeeksDense(weeks)
    ensures MaxWeek(weeks) == |weeks|
  {
    if |weeks| > 0 {
      assert |weeks| in weeks;
    }
  }

  /** Appending at the next week keeps a schedule dense while under the cap. */
  lemma DenseAppend(weeks: map<nat, Entry>, e: Entry)
    requires WeeksDense(weeks)
    requires NextWeek(weeks) <= MaxWeeks
    ensures WeeksDense(weeks[NextWeek(weeks) := e])
    ensures |weeks[NextWeek(weeks) := e]| == |weeks| + 1
  {
    DenseMaxWeek(weeks);
  }

  /** The empty ledger is valid. */
  lemma EmptyLedgerValid()
    ensures Valid(Repair(None))
  {
    assert ActiveIds(map[]) == {};
    assert ClosedIds(map[]) == {};
  }
}
