/** What scheduling, cutover and a purge answer, each in both directions (src/services/index_retirement.py:157-539). */
module RetirementAnswers {
  import opened Wrappers
  import opened TargetRef
  import opened IndexRetirement
  import opened RetirementSafety

  /** The refusals of scheduling, in the order they are checked. */
  lemma ScheduleRefusesExactly(ix: Index, a: Alias, retired: int, successor: int, revision: int, cutover: Option<Time>)
    ensures var r := ScheduleTx(ix, a, retired, successor, revision, cutover).1;
      var valid := Printable(a.item, a.namespace) && a.team != "" && 0 <= retired < successor && revision >= 0;
      var fenced := Serving(ix.pointers, a) && ix.pointers[a].generation == successor && ix.pointers[a].revision == revision;
      && (r == Failure(InvalidCoordinates) <==> !valid)
      && (r == Failure(PointerFence) <==> valid && !fenced)
      && (r == Failure(CutoverInvalid) <==> valid && fenced && cutover.None? && ix.pointers[a].updatedAt.parsed.None?)
      && (r.Failure? ==> r.error in {InvalidCoordinates, PointerFence, CutoverInvalid})
  {
    if Printable(a.item, a.namespace) && retired >= 0 {
      NamesItsGroup(Group(a, retired));
    }
    hide PrintTarget, ParseTarget, OpenFor;
  }

  /** A cutover moves the pointer forward and leaves an open intent for the generation it superseded, or it
      does nothing at all: the latter exactly if it would not move forward, the alias would not be serving
      afterwards, its coordinates cannot be printed, or the new timestamp cannot be read. */
  lemma {:induction false} CutoverExactly(ix: Index, a: Alias, generation: nat, served: bool, at: Stamp)
    ensures var ix' := CutoverTx(ix, a, generation, served, at);
      var moves := a in ix.pointers && ix.pointers[a].generation < generation && served
                   && Printable(a.item, a.namespace) && a.team != "" && at.parsed.Some?;
      && (!moves ==> ix' == ix)
      && (moves ==>
            && ix'.pointers == ix.pointers[a := Pointer(generation, ix.pointers[a].revision + 1, true, true, at)]
            && ix'.records == ix.records && ix'.proofs == ix.proofs
            && HasOpen(ix'.intents, Group(a, ix.pointers[a].generation)))
  {
    if a in ix.pointers && ix.pointers[a].generation < generation {
      var was := ix.pointers[a];
      var moved := ix.(pointers := ix.pointers[a := Advanced(was, generation, served, at)]);
      CutoverSchedules(moved, a, was.generation, generation, was.revision + 1);
    }
    hide ScheduleTx, HasOpen;
  }

  lemma CutoverSchedules(ix: Index, a: Alias, retired: nat, successor: nat, revision: nat)
    requires a in ix.pointers && ix.pointers[a].generation == successor && ix.pointers[a].revision == revision && retired < successor
    ensures var (ix', r) := ScheduleTx(ix, a, retired, successor, revision, None);
      && (r.Success? <==> Schedulable(a) && Serving(ix.pointers, a) && ix.pointers[a].updatedAt.parsed.Some?)
      && (r.Success? ==>
            ix'.pointers == ix.pointers && ix'.records == ix.records && ix'.proofs == ix.proofs && HasOpen(ix'.intents, Group(a, retired)))
  {
    ScheduleExactly(ix, a, retired, successor, revision, None);
    if Printable(a.item, a.namespace) {
      NamesItsGroup(Group(a, retired));
      var ix' := ScheduleTx(ix, a, retired, successor, revision, None).0;
      assert ix' != ix ==> ix.next in OpenFor(ix'.intents, a.team, TargetOf(Group(a, retired))) by { hide PrintTarget, ParseTarget; }
    }
    hide PrintTarget, ParseTarget;
  }

  // ---------- purges ----------

  /** The row of the candidate is still the open one that was read. */
  predicate Unchanged(ix: Index, c: Candidate) {
    && c.intent in ix.intents
    && ix.intents[c.intent] == Intent(c.team, c.target, c.eligibleAt, c.requestedAt, Open, ix.intents[c.intent].closedAt)
  }

  /** Each disposition of a purge, exactly. */
  lemma DispositionsExactly(ix: Index, c: Candidate)
    requires RetirementInv(ix)
    ensures var outcome := SoftPurgeTx(ix, c).1;
      && (outcome == Stale <==> !Unchanged(ix, c))
      && (outcome == NotDue <==> Unchanged(ix, c) && ix.now < c.eligibleAt)
      && outcome != BadTarget
      && (Unchanged(ix, c) && c.eligibleAt <= ix.now ==>
            && GroupNamed(c.team, c.target).Some?
            && var g := GroupNamed(c.team, c.target).value;
            && (outcome == AbandonedIntent <==> !Serving(ix.pointers, g.alias))
            && (outcome == ActiveGeneration <==> Serving(ix.pointers, g.alias) && ix.pointers[g.alias].generation <= g.generation)
            && (outcome.SoftPurged? <==> Serving(ix.pointers, g.alias) && g.generation < ix.pointers[g.alias].generation))
  {
    hide GroupNamed;
    if c.intent in ix.intents {
      assert IntentSound(ix.intents[c.intent], ix.now);
    }
  }

  /** The records a purge changed. */
  function Changed(ix: Index, ix': Index): set<Id> {
    set r | r in ix.records && r in ix'.records && ix'.records[r] != ix.records[r]
  }

  /** A purge or an abandonment soft-deletes exactly the live records of the generation its target names, now;
      the count it reports and the count in its one proof are the number of them. Any other disposition
      changes nothing. */
  lemma {:induction false} PurgeChangesExactly(ix: Index, c: Candidate)
    ensures var (ix', outcome) := SoftPurgeTx(ix, c);
      && ix'.records.Keys == ix.records.Keys
      && (!outcome.SoftPurged? && !outcome.AbandonedIntent? ==> ix' == ix)
      && (outcome.SoftPurged? || outcome.AbandonedIntent? ==>
            && (forall r | r in ix.records ::
                  r in Changed(ix, ix') <==> ix.records[r].deletedAt.None? && GroupNamed(c.team, c.target) == Some(ix.records[r].group))
            && (forall r | r in Changed(ix, ix') :: ix'.records[r] == Record(ix.records[r].group, Some(ix.now)))
            && c.intent in ix'.intents && ix'.intents[c.intent].closedAt == Some(ix.now)
            && ix'.intents[c.intent].status == if outcome.SoftPurged? then Completed else Abandoned)
      && (outcome.SoftPurged? ==>
            && outcome.count == |Changed(ix, ix')|
            && ix'.proofs == ix.proofs[ix.next := CleanupProof(c.intent, c.team, c.target, ix.now, |Changed(ix, ix')|)])
      && (outcome.AbandonedIntent? ==> ix'.proofs == ix.proofs)
  {
    hide GroupNamed;
    var (ix', outcome) := SoftPurgeTx(ix, c);
    if outcome.SoftPurged? || outcome.AbandonedIntent? {
      var g := GroupNamed(c.team, c.target).value;
      SoftDeleteChanges(ix, ix', g);
    }
    hide SoftDelete;
  }

  lemma SoftDeleteChanges(ix: Index, ix': Index, g: Group)
    requires ix'.records == SoftDelete(ix.records, g, ix.now)
    ensures ix'.records.Keys == ix.records.Keys && Changed(ix, ix') == LiveIn(ix.records, g)
    ensures forall r | r in Changed(ix, ix') :: ix'.records[r] == Record(ix.records[r].group, Some(ix.now))
  {
  }
}
