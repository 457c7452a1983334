/** The retirement service over tables that it updates in place. */
module RetirementService {
  import opened Wrappers
  import opened TargetRef
  import opened IndexRetirement
  import opened RetirementSafety
  import opened RetirementConvergence

  class IndexGenerationRetirement {
    var grace: int
    var now: Time
    var pointers: map<Alias, Pointer>
    var records: map<Id, Record>
    var intents: map<Id, Intent>
    var proofs: map<Id, CleanupProof>
    var next: Id

    ghost function Index(): Index
      reads this
    {
      IndexRetirement.Index(grace, now, pointers, records, intents, proofs, next)
    }

    constructor (grace: int, now: Time, pointers: map<Alias, Pointer>)
      requires grace > 0
      ensures Index() == Start(grace, now, pointers) && RetirementInv(Index())
    {
      this.grace, this.now, this.pointers := grace, now, pointers;
      records, intents, proofs, next := map[], map[], map[], 0;
    }

    /** schedule_retirement_tx. */
    method ScheduleRetirement(a: Alias, retired: int, successor: int, revision: int, cutover: Option<Time>)
      returns (r: Result<Scheduled, RetireError>)
      modifies this`intents, this`next
      ensures (Index(), r) == ScheduleTx(old(Index()), a, retired, successor, revision, cutover)
      ensures RetirementInv(old(Index())) ==> RetirementInv(Index())
      ensures r.Success? ==> r.value.intent in intents && intents[r.value.intent].status == Open
                             && GroupNamed(intents[r.value.intent].team, intents[r.value.intent].target) == Some(Group(a, retired))
    {
      hide RetirementInv;
      ScheduleGuarantee(Index(), a, retired, successor, revision, cutover);
      if !Printable(a.item, a.namespace) || retired < 0 || a.team == "" || successor <= retired || revision < 0 {
        return Failure(InvalidCoordinates);
      }
      if !Serving(pointers, a) || pointers[a].generation != successor || pointers[a].revision != revision {
        return Failure(PointerFence);
      }
      var effective := cutover;
      if effective.None? {
        effective := pointers[a].updatedAt.parsed;
      }
      if effective.None? {
        return Failure(CutoverInvalid);
      }
      var target := TargetOf(Group(a, retired));
      var existing := OpenFor(intents, a.team, target);
      if existing != {} {
        NamesItsGroup(Group(a, retired));
        return Success(Scheduled(MinOf(existing), false));
      }
      intents := intents[next := Intent(a.team, target, effective.value + grace, effective.value, Open, None)];
      next := next + 1;
      return Success(Scheduled(next - 1, true));
    }

    /** discover_retirements over the rows its query returned; an error undoes the transaction. */
    method DiscoverRetirements(page: seq<Group>) returns (r: Result<nat, RetireError>)
      modifies this`intents, this`next
      ensures (Index(), r) == DiscoverTx(old(Index()), page)
      ensures RetirementInv(old(Index())) ==> RetirementInv(Index())
    {
      hide RetirementInv, Backfill, ScheduleTx, GroupNamed;
      DiscoverGuarantee(Index(), page);
      var savedIntents, savedNext := intents, next;
      var created := 0;
      var k := 0;
      BackfillNothing(Index());
      assert page[..0] == [];
      while k < |page|
        invariant 0 <= k <= |page|
        invariant Backfill(old(Index()), page[..k]) == Success((Index(), created))
        invariant savedIntents == old(intents) && savedNext == old(next)
      {
        var g := page[k];
        BackfillNext(old(Index()), page, k);
        if g.alias in pointers && pointers[g.alias].updatedAt.parsed.Some? {
          var p := pointers[g.alias];
          var scheduled := ScheduleRetirement(g.alias, g.generation, p.generation, p.revision, p.updatedAt.parsed);
          if scheduled.Failure? {
            FailureSpreads(old(Index()), page, k + 1);
            intents, next := savedIntents, savedNext;
            return Failure(scheduled.error);
          }
          created := created + (if scheduled.value.inserted then 1 else 0);
        }
        k := k + 1;
      }
      assert page[..k] == page;
      return Success(created);
    }

    /** soft_purge. */
    method SoftPurge(c: Candidate) returns (outcome: IndexRetirement.Purge)
      modifies this`records, this`intents, this`proofs, this`next
      ensures (Index(), outcome) == SoftPurgeTx(old(Index()), c)
      ensures RetirementInv(old(Index())) ==> RetirementInv(Index())
      ensures outcome.SoftPurged? || outcome.AbandonedIntent? <==> c.intent in old(intents) && intents != old(intents)
    {
      hide RetirementInv;
      PurgeGuarantee(Index(), c);
      if c.intent !in intents {
        return Stale;
      }
      var row := intents[c.intent];
      if row.status != Open || row.team != c.team || row.target != c.target
         || row.eligibleAt != c.eligibleAt || row.requestedAt != c.requestedAt {
        return Stale;
      }
      if now < row.eligibleAt {
        return NotDue;
      }
      var target := ParseTarget(row.target);
      if target.None? {
        return BadTarget;
      }
      var g := Group(Alias(c.team, target.value.item, target.value.namespace), target.value.generation);
      if !Serving(pointers, g.alias) {
        records := SoftDelete(records, g, now);
        intents := intents[c.intent := row.(status := Abandoned, closedAt := Some(now))];
        return AbandonedIntent;
      }
      if pointers[g.alias].generation <= g.generation {
        return ActiveGeneration;
      }
      var count := |LiveIn(records, g)|;
      records := SoftDelete(records, g, now);
      proofs := proofs[next := CleanupProof(c.intent, c.team, c.target, now, count)];
      next := next + 1;
      intents := intents[c.intent := row.(status := Completed, closedAt := Some(now))];
      return SoftPurged(count);
    }

    /** The rows collect_due's query returned, as candidates. */
    method CollectDue(due: seq<Id>) returns (candidates: seq<Candidate>)
      requires forall i | i in due :: i in intents
      ensures candidates == CandidatesOf(Index(), due)
    {
      var rows := intents;
      candidates := seq(|due|, k requires 0 <= k < |due| && due[k] in rows =>
        Candidate(due[k], rows[due[k]].team, rows[due[k]].target, rows[due[k]].eligibleAt, rows[due[k]].requestedAt));
    }

    method PurgeCandidates(candidates: seq<Candidate>) returns (outcomes: seq<IndexRetirement.Purge>)
      modifies this`records, this`intents, this`proofs, this`next
      ensures Index() == PurgeAll(old(Index()), candidates)
      ensures RetirementInv(old(Index())) ==> RetirementInv(Index())
      ensures outcomes == Outcomes(old(Index()), candidates)
    {
      hide SoftPurgeTx, RetirementInv;
      outcomes := [];
      for k := 0 to |candidates|
        invariant Index() == PurgeAll(old(Index()), candidates[..k])
        invariant outcomes == Outcomes(old(Index()), candidates[..k])
        invariant RetirementInv(old(Index())) ==> RetirementInv(Index())
      {
        assert candidates[..k + 1][..k] == candidates[..k];
        var outcome := SoftPurge(candidates[k]);
        outcomes := outcomes + [outcome];
      }
      assert candidates[..|candidates|] == candidates;
    }

    /** scan_once over what its two queries returned: the rows of the first, and of the second once the
        first transaction has committed. The outcomes come back in the order of the candidates. */
    method ScanOnce(page: seq<Group>, due: seq<Id>) returns (found: Result<nat, RetireError>, outcomes: seq<IndexRetirement.Purge>)
      requires forall i | i in due :: i in DiscoverTx(Index(), page).0.intents
      modifies this`records, this`intents, this`proofs, this`next
      ensures Index() == Scan(old(Index()), page, due)
      ensures RetirementInv(old(Index())) ==> RetirementInv(Index())
      ensures found == DiscoverTx(old(Index()), page).1
      ensures outcomes == if found.Failure? then [] else
                var after := DiscoverTx(old(Index()), page).0; Outcomes(after, CandidatesOf(after, due))
    {
      hide Backfill, PurgeAll, Outcomes, SoftPurgeTx, RetirementInv;
      outcomes := [];
      found := DiscoverRetirements(page);
      if found.Success? {
        var candidates := CollectDue(due);
        outcomes := PurgeCandidates(candidates);
      }
    }
  }

  lemma ScheduleGuarantee(ix: Index, a: Alias, retired: int, successor: int, revision: int, cutover: Option<Time>)
    ensures var (ix', r) := ScheduleTx(ix, a, retired, successor, revision, cutover);
      && (RetirementInv(ix) ==> RetirementInv(ix'))
      && (r.Success? ==> r.value.intent in ix'.intents && ix'.intents[r.value.intent].status == Open
                         && GroupNamed(ix'.intents[r.value.intent].team, ix'.intents[r.value.intent].target) == Some(Group(a, retired)))
  {
    hide RetirementInv, ScheduleTx, GroupNamed;
    ScheduleExactly(ix, a, retired, successor, revision, cutover);
    if RetirementInv(ix) {
      ScheduleKeepsInv(ix, a, retired, successor, revision, cutover);
    }
  }

  lemma DiscoverGuarantee(ix: Index, page: seq<Group>)
    ensures RetirementInv(ix) ==> RetirementInv(DiscoverTx(ix, page).0)
  {
    hide RetirementInv, Backfill;
    if RetirementInv(ix) && Backfill(ix, page).Success? {
      BackfillKeepsInv(ix, page);
    }
  }

  lemma PurgeGuarantee(ix: Index, c: Candidate)
    ensures RetirementInv(ix) ==> RetirementInv(SoftPurgeTx(ix, c).0)
    ensures SoftPurgeTx(ix, c).1.SoftPurged? || SoftPurgeTx(ix, c).1.AbandonedIntent?
            <==> c.intent in ix.intents && SoftPurgeTx(ix, c).0.intents != ix.intents
  {
    if RetirementInv(ix) {
      PurgeKeepsInv(ix, c);
    }
    hide RetirementInv, GroupNamed, SoftDelete, LiveIn;
    assert SameCandidate(ix, c) ==> ix.intents[c.intent].status == Open;
  }

  /** What each candidate of a scan came to. */
  function Outcomes(ix: Index, candidates: seq<Candidate>): seq<IndexRetirement.Purge> {
    if candidates == [] then []
    else
      var n := |candidates| - 1;
      Outcomes(ix, candidates[..n]) + [SoftPurgeTx(PurgeAll(ix, candidates[..n]), candidates[n]).1]
  }

  lemma BackfillNothing(ix: Index)
    ensures Backfill(ix, []) == Success((ix, 0))
  {
  }

  /** One more row of the page. */
  lemma BackfillNext(ix: Index, page: seq<Group>, k: nat)
    requires k < |page| && Backfill(ix, page[..k]).Success?
    ensures var (ix1, created) := Backfill(ix, page[..k]).value;
      Backfill(ix, page[..k + 1]) ==
        match BackfillOne(ix1, page[k])
        case Failure(e) => Failure(e)
        case Success((ix2, more)) => Success((ix2, created + more))
  {
    assert page[..k + 1][..k] == page[..k];
    hide BackfillOne;
  }

  lemma {:induction false} FailureSpreads(ix: Index, page: seq<Group>, k: nat)
    requires k <= |page| && Backfill(ix, page[..k]).Failure?
    ensures Backfill(ix, page) == Backfill(ix, page[..k])
    decreases |page|
  {
    if k < |page| {
      var rest := page[..|page| - 1];
      assert rest[..k] == page[..k];
      FailureSpreads(ix, rest, k);
    } else {
      assert page[..k] == page;
    }
  }
}
