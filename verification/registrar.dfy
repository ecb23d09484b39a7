/** The client registrar: allocation of `P<n>` identifiers and the add-client transform. */
module Registrar {
  import opened Results
  import opened Sets
  import opened Ledger

  /** The identifiers `P1` .. `P<i>`. */
  function PrefixIds(i: nat): set<ClientId>
  {
    set j: nat | 1 <= j <= i :: P(j)
  }

  lemma {:induction false} PrefixIdsCard(i: nat)
    ensures |PrefixIds(i)| == i
  {
    if i > 0 {
      PrefixIdsCard(i - 1);
      assert PrefixIds(i) == PrefixIds(i - 1) + {P(i)};
    }
  }

  /** A map holding `P1` .. `P<i>` has at least `i` keys. */
  lemma PrefixBound(keys: set<ClientId>, i: nat)
    requires forall j: nat :: 1 <= j <= i ==> P(j) in keys
    ensures i <= |keys|
  {
    PrefixIdsCard(i);
    SubsetCard(PrefixIds(i), keys);
  }

  /** The scan of `get_next_client_id` from `P<i>` upwards, knowing `P1` .. `P<i-1>` are taken. */
  function FirstFreeFrom(cs: Clients, i: nat): (id: ClientId)
    requires 1 <= i
    requires forall j: nat :: 1 <= j < i ==> P(j) in cs
    ensures id.P? && i <= id.n && id !in cs
    ensures forall j: nat :: 1 <= j < id.n ==> P(j) in cs
    decreases |cs| + 1 - i
  {
    if P(i) !in cs then P(i)
    else
      PrefixBound(cs.Keys, i);
      FirstFreeFrom(cs, i + 1)
  }

  /** The smallest `P<i>` (i >= 1) that is not a key of `ClientData`. */
  function NextClientId(cs: Clients): (id: ClientId)
    ensures id.P? && 1 <= id.n
    ensures id !in cs
    ensures forall j: nat :: 1 <= j < id.n ==> P(j) in cs
  {
    FirstFreeFrom(cs, 1)
  }

  /** The record of a freshly registered client. */
  function NewClient(id: ClientId, lendDate: string, collectionDay: string): ClientRecord
  {
    ClientRecord(Some(ClientStat(id, collectionDay, lendDate, Active, 0, 0)), map[])
  }

  /** `after` is `before` with exactly one client added under `id`: active, nothing paid,
      no weeks; one more loan, and one more active loan. */
  ghost predicate RegisteredOne(before: Ledger, after: Ledger, id: ClientId, lendDate: string, collectionDay: string)
  {
    && Repaired(before) && Repaired(after)
    && id !in before.clients.value
    && after.clients.value.Keys == before.clients.value.Keys + {id}
    && (forall other :: other in before.clients.value ==> after.clients.value[other] == before.clients.value[other])
    && after.clients.value[id].stat == Some(ClientStat(id, collectionDay, lendDate, Active, 0, 0))
    && after.clients.value[id].weeks == map[]
    && after.stats.value.totalLoans == before.stats.value.totalLoans + 1
    && after.stats.value.activeLoans == before.stats.value.activeLoans + 1
    && after.stats.value.closedLoans == before.stats.value.closedLoans
    && after.batches == before.batches
  }

  /** The add-client transform. It refuses an absent document and one missing `AllStats`
      or `ClientData`; otherwise it registers the next free identifier. */
  function AddClient(doc: Document, lendDate: string, collectionDay: string): (r: Result<Ledger, Error>)
    ensures doc.None? ==> r == Failure(UserNotFound)
    ensures doc.Some? && !Repaired(doc.value) ==> r == Failure(CorruptStructure)
    ensures r.Success? <==> doc.Some? && Repaired(doc.value)
    ensures r.Success? ==> RegisteredOne(doc.value, r.value, NextClientId(doc.value.clients.value), lendDate, collectionDay)
  {
    match doc
    case None => Failure(UserNotFound)
    case Some(l) =>
      if l.stats.None? || l.clients.None? then Failure(CorruptStructure)
      else
        var cs := l.clients.value;
        var st := l.stats.value;
        var id := NextClientId(cs);
        Success(l.(
          clients := Some(cs[id := NewClient(id, lendDate, collectionDay)]),
          stats := Some(AllStats(st.totalLoans + 1, st.activeLoans + 1, st.closedLoans))))
  }

  /** Registering a client keeps a valid ledger valid. */
  lemma AddClientPreservesValid(l: Ledger, lendDate: string, collectionDay: string)
    requires Valid(l)
    ensures AddClient(Some(l), lendDate, collectionDay).Success?
    ensures Valid(AddClient(Some(l), lendDate, collectionDay).value)
  {
    var cs := l.clients.value;
    var id := NextClientId(cs);
    var rec := NewClient(id, lendDate, collectionDay);
    var l' := AddClient(Some(l), lendDate, collectionDay).value;
    var cs' := l'.clients.value;
    assert cs' == cs[id := rec];
    forall k | k in cs'
      ensures StatOk(cs'[k]) && WeeksDense(cs'[k].weeks)
    {
      if k != id {
        assert cs'[k] == cs[k];
      }
    }
    InsertActiveCounts(cs, id, rec);
  }

  /** Registering a client keeps a balanced ledger balanced, whatever gaps its schedules have. */
  lemma AddClientPreservesBalanced(l: Ledger, lendDate: string, collectionDay: string)
    requires Balanced(l)
    ensures AddClient(Some(l), lendDate, collectionDay).Success?
    ensures Balanced(AddClient(Some(l), lendDate, collectionDay).value)
  {
    var cs := l.clients.value;
    var id := NextClientId(cs);
    var rec := NewClient(id, lendDate, collectionDay);
    var cs' := AddClient(Some(l), lendDate, collectionDay).value.clients.value;
    assert cs' == cs[id := rec];
    assert forall k :: k in cs' ==> StatOk(cs'[k]);
    InsertActiveCounts(cs, id, rec);
  }

  /** Inserting a new active client adds it to the active set and leaves the closed set. */
  lemma InsertActiveCounts(cs: Clients, id: ClientId, rec: ClientRecord)
    requires id !in cs
    requires rec.stat.Some? && rec.stat.value.status == Active
    ensures ActiveIds(cs[id := rec]) == ActiveIds(cs) + {id}
    ensures ClosedIds(cs[id := rec]) == ClosedIds(cs)
    ensures |cs[id := rec]| == |cs| + 1
  {
    var cs' := cs[id := rec];
    assert |cs'| == |cs| + 1 by {
      assert cs'.Keys == cs.Keys + {id};
    }
    assert ActiveIds(cs') == ActiveIds(cs) + {id};
    assert ClosedIds(cs') == ClosedIds(cs);
  }

  /** Client keys are exactly `P1` .. `P<k>`, as the registrar produces them. */
  ghost predicate IdsArePrefix(cs: Clients)
  {
    cs.Keys == PrefixIds(|cs|)
  }

  lemma NextIdOfPrefix(cs: Clients)
    requires IdsArePrefix(cs)
    ensures NextClientId(cs) == P(|cs| + 1)
  {
    var id := NextClientId(cs);
    assert P(|cs| + 1) !in cs;
  }

  /** Registration keeps the keys a prefix `P1` .. `P<k+1>`. */
  lemma AddClientKeepsIdsPrefix(l: Ledger, lendDate: string, collectionDay: string)
    requires Repaired(l) && IdsArePrefix(l.clients.value)
    ensures AddClient(Some(l), lendDate, collectionDay).Success?
    ensures IdsArePrefix(AddClient(Some(l), lendDate, collectionDay).value.clients.value)
  {
    var cs := l.clients.value;
    NextIdOfPrefix(cs);
    var cs' := AddClient(Some(l), lendDate, collectionDay).value.clients.value;
    assert cs'.Keys == cs.Keys + {P(|cs| + 1)};
    PrefixIdsCard(|cs|);
    assert PrefixIds(|cs| + 1) == PrefixIds(|cs|) + {P(|cs| + 1)};
  }

  /** The numbers of the `P<n>` keys. */
  function PNumbers(cs: Clients): set<nat>
  {
    set id | id in cs && id.P? :: id.n
  }

  /** The advisory `/nextClientId` preview: one past the greatest `P<n>` key, `P1` when the
      document, its `ClientData` or its clients are missing. */
  function PreviewNextId(doc: Document): (id: ClientId)
    ensures id.P? && 1 <= id.n
    ensures doc.None? || doc.value.clients.None? || doc.value.clients.value == map[] ==> id == P(1)
    ensures doc.Some? && doc.value.clients.Some? ==>
      forall k :: k in doc.value.clients.value && k.P? ==> k.n < id.n
    ensures doc.Some? && doc.value.clients.Some? && id.n > 1 ==> P(id.n - 1) in doc.value.clients.value
  {
    if doc.None? || doc.value.clients.None? || doc.value.clients.value == map[] then P(1)
    else
      var cs := doc.value.clients.value;
      assert forall k :: k in cs && k.P? ==> k.n in PNumbers(cs);
      P(MaxOrZero(PNumbers(cs)) + 1)
  }

  /** When the keys are exactly `P1` .. `P<k>`, the preview and the allocator agree. */
  lemma PreviewAgreesWithAllocator(l: Ledger)
    requires Repaired(l) && IdsArePrefix(l.clients.value)
    ensures PreviewNextId(Some(l)) == NextClientId(l.clients.value)
  {
    var cs := l.clients.value;
    NextIdOfPrefix(cs);
    var id := PreviewNextId(Some(l));
    if |cs| > 0 {
      assert P(|cs|) in PrefixIds(|cs|);
    }
  }

  /** With a gap in the keys the two disagree: only `P2` present gives `P1` from the
      allocator and `P3` from the preview. */
  lemma PreviewDisagreesOnGap(r: ClientRecord)
    ensures NextClientId(map[P(2) := r]) == P(1)
    ensures PreviewNextId(Some(Ledger(Some(ZeroStats), Some(map[P(2) := r]), map[]))) == P(3)
  {
    assert PNumbers(map[P(2) := r]) == {2};
  }

  /** Registering the first client of an empty ledger gives `P1` and stats {1, 1, 0}. */
  lemma RegisterFirstClient(lendDate: string, collectionDay: string)
    ensures var r := AddClient(Some(Repair(None)), lendDate, collectionDay);
      && r.Success?
      && r.value.clients.value == map[P(1) := NewClient(P(1), lendDate, collectionDay)]
      && r.value.stats == Some(AllStats(1, 1, 0))
  {
    assert NextClientId(map[]) == P(1);
  }
}
