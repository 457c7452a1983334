/** What every step of index retirement keeps, and what a run of it can and cannot delete. */
module RetirementSafety {
  import opened Wrappers
  import opened TargetRef
  import opened IndexRetirement

  // ---------- the invariant ----------

  ghost predicate IntentSound(i: Intent, now: Time) {
    && GroupNamed(i.team, i.target).Some? && i.team != ""
    && i.requestedAt < i.eligibleAt
    && (i.status == Open <==> i.closedAt.None?)
    && (i.closedAt.Some? ==> i.eligibleAt <= i.closedAt.value <= now)
  }

  ghost predicate IntentsSound(intents: map<Id, Intent>, now: Time) {
    forall i | i in intents :: IntentSound(intents[i], now)
  }

  /** At most one open intent per Team and target. */
  ghost predicate OneOpen(intents: map<Id, Intent>) {
    forall i, j | i in intents && j in intents && intents[i].status == Open && intents[j].status == Open
                  && intents[i].team == intents[j].team && intents[i].target == intents[j].target :: i == j
  }

  ghost predicate Proves(proofs: map<Id, CleanupProof>, intents: map<Id, Intent>, p: Id, i: Id) {
    && p in proofs && i in intents && proofs[p].intent == i
    && intents[i].status == Completed && intents[i].closedAt == Some(proofs[p].verifiedAt)
    && intents[i].team == proofs[p].team && intents[i].target == proofs[p].target
  }

  /** Completed intents and proofs correspond one to one. */
  ghost predicate ProofsMatch(proofs: map<Id, CleanupProof>, intents: map<Id, Intent>) {
    && (forall p | p in proofs :: Proves(proofs, intents, p, proofs[p].intent))
    && (forall p, q | p in proofs && q in proofs && proofs[p].intent == proofs[q].intent :: p == q)
    && (forall i | i in intents && intents[i].status == Completed :: exists p :: Proves(proofs, intents, p, i))
  }

  /** The closed intent that answers for a deleted record. */
  ghost predicate Explains(intents: map<Id, Intent>, i: Id, r: Record) {
    && i in intents && intents[i].status != Open
    && r.deletedAt.Some? && intents[i].closedAt == r.deletedAt
    && GroupNamed(intents[i].team, intents[i].target) == Some(r.group)
  }

  ghost predicate DeletionsExplained(records: map<Id, Record>, intents: map<Id, Intent>) {
    forall r | r in records && records[r].deletedAt.Some? :: exists i :: Explains(intents, i, records[r])
  }

  ghost predicate IdsUsed(ix: Index) {
    && (forall i | i in ix.intents :: i < ix.next)
    && (forall p | p in ix.proofs :: p < ix.next)
    && (forall r | r in ix.records :: r < ix.next)
  }

  ghost predicate RetirementInv(ix: Index) {
    && ix.grace > 0 && IdsUsed(ix)
    && IntentsSound(ix.intents, ix.now) && OneOpen(ix.intents)
    && ProofsMatch(ix.proofs, ix.intents) && DeletionsExplained(ix.records, ix.intents)
  }

  function Start(grace: int, now: Time, pointers: map<Alias, Pointer>): Index {
    Index(grace, now, pointers, map[], map[], map[], 0)
  }

  // ---------- the coordinate names its group ----------

  lemma NamesItsGroup(g: Group)
    requires Printable(g.alias.item, g.alias.namespace)
    ensures GroupNamed(g.alias.team, TargetOf(g)) == Some(g)
  {
    ParsePrinted(Target(g.alias.item, g.alias.namespace, g.generation));
  }

  lemma TargetsAreDistinct(g: Group, h: Group)
    requires Printable(g.alias.item, g.alias.namespace) && Printable(h.alias.item, h.alias.namespace)
    requires g.alias.team == h.alias.team && TargetOf(g) == TargetOf(h)
    ensures g == h
  {
    NamesItsGroup(g);
    NamesItsGroup(h);
  }

  // ---------- every step keeps the invariant ----------

  /** Scheduling either leaves everything as it is or adds one open intent for a target that had none. */
  lemma ScheduleShape(ix: Index, a: Alias, retired: int, successor: int, revision: int, cutover: Option<Time>)
    ensures var (ix', r) := ScheduleTx(ix, a, retired, successor, revision, cutover);
      && (r != Failure(TargetInvalid))
      && (ix' == ix || (
            && Schedulable(a) && 0 <= retired < successor && a in ix.pointers && ix.pointers[a].generation == successor
            && OpenFor(ix.intents, a.team, TargetOf(Group(a, retired))) == {}
            && GroupNamed(a.team, TargetOf(Group(a, retired))) == Some(Group(a, retired))
            && exists at: Time :: ix' == WithIntent(ix, Group(a, retired), at)))
  {
    if Printable(a.item, a.namespace) && retired >= 0 {
      NamesItsGroup(Group(a, retired));
      hide PrintTarget, ParseTarget, OpenFor;
    }
  }

  /** Exactly when scheduling succeeds, and with what deadline: the caller's fence must name the pointer as
      it stands, an open intent answers with its own deadline, and a new one with cutover plus grace. */
  lemma ScheduleExactly(ix: Index, a: Alias, retired: int, successor: int, revision: int, cutover: Option<Time>)
    ensures var (ix', r) := ScheduleTx(ix, a, retired, successor, revision, cutover);
      && (r.Success? <==>
            && Schedulable(a) && 0 <= retired < successor && Serving(ix.pointers, a)
            && ix.pointers[a].generation == successor && ix.pointers[a].revision == revision
            && (cutover.Some? || ix.pointers[a].updatedAt.parsed.Some?))
      && (r.Success? ==>
            && r.value.intent in ix'.intents
            && var intent := ix'.intents[r.value.intent];
            && intent.status == Open && GroupNamed(intent.team, intent.target) == Some(Group(a, retired))
            && (!r.value.inserted ==> r.value.intent in ix.intents && intent == ix.intents[r.value.intent])
            && (r.value.inserted ==>
                  && intent.requestedAt == (if cutover.Some? then cutover else ix.pointers[a].updatedAt.parsed).value
                  && intent.eligibleAt == intent.requestedAt + ix.grace))
  {
    if Printable(a.item, a.namespace) && retired >= 0 {
      NamesItsGroup(Group(a, retired));
    }
    hide PrintTarget, ParseTarget;
  }

  lemma AddIntentKeepsInv(ix: Index, intent: Intent)
    requires RetirementInv(ix)
    requires IntentSound(intent, ix.now) && intent.status == Open && OpenFor(ix.intents, intent.team, intent.target) == {}
    ensures RetirementInv(ix.(intents := ix.intents[ix.next := intent], next := ix.next + 1))
  {
    hide GroupNamed, IntentSound;
    var intents := ix.intents[ix.next := intent];
    forall i | i in ix.intents && ix.intents[i].status == Open && ix.intents[i].team == intent.team
      ensures ix.intents[i].target != intent.target
    {
      assert i !in OpenFor(ix.intents, intent.team, intent.target);
    }
    forall i | i in intents && intents[i].status == Completed
      ensures exists p :: Proves(ix.proofs, intents, p, i)
    {
      var p :| Proves(ix.proofs, ix.intents, p, i);
      assert Proves(ix.proofs, intents, p, i);
    }
    forall r | r in ix.records && ix.records[r].deletedAt.Some?
      ensures exists i :: Explains(intents, i, ix.records[r])
    {
      var i :| Explains(ix.intents, i, ix.records[r]);
      assert Explains(intents, i, ix.records[r]);
    }
  }

  lemma ScheduleKeepsInv(ix: Index, a: Alias, retired: int, successor: int, revision: int, cutover: Option<Time>)
    requires RetirementInv(ix)
    ensures RetirementInv(ScheduleTx(ix, a, retired, successor, revision, cutover).0)
  {
    hide RetirementInv, IntentSound, OpenFor;
    var ix' := ScheduleTx(ix, a, retired, successor, revision, cutover).0;
    ScheduleShape(ix, a, retired, successor, revision, cutover);
    hide ScheduleTx;
    if ix' != ix {
      var at: Time :| ix' == WithIntent(ix, Group(a, retired), at);
      NewIntentSound(ix, a, retired, at);
      AddIntentKeepsInv(ix, ix'.intents[ix.next]);
    }
  }

  lemma NewIntentSound(ix: Index, a: Alias, retired: nat, at: Time)
    requires RetirementInv(ix) && GroupNamed(a.team, TargetOf(Group(a, retired))).Some? && a.team != ""
    ensures IntentSound(Intent(a.team, TargetOf(Group(a, retired)), at + ix.grace, at, Open, None), ix.now)
  {
  }

  lemma {:induction false} BackfillKeepsInv(ix: Index, page: seq<Group>)
    requires RetirementInv(ix) && Backfill(ix, page).Success?
    ensures RetirementInv(Backfill(ix, page).value.0)
    decreases |page|
  {
    hide RetirementInv, ScheduleTx;
    if page != [] {
      BackfillKeepsInv(ix, page[..|page| - 1]);
      var ix1 := Backfill(ix, page[..|page| - 1]).value.0;
      var g := page[|page| - 1];
      if g.alias in ix1.pointers {
        var p := ix1.pointers[g.alias];
        ScheduleKeepsInv(ix1, g.alias, g.generation, p.generation, p.revision, p.updatedAt.parsed);
      }
    }
  }

  /** The tables after a purge that deleted something: one intent closed now, one group soft-deleted now. */
  lemma CloseKeepsIntents(ix: Index, i: Id, status: Status)
    requires RetirementInv(ix) && IsDue(ix, i) && status != Open
    ensures IntentsSound(Close(ix, i, status).intents, ix.now) && OneOpen(Close(ix, i, status).intents)
  {
    hide GroupNamed;
    assert IntentSound(ix.intents[i], ix.now);
  }

  lemma CloseKeepsDeletions(ix: Index, i: Id, status: Status, g: Group)
    requires RetirementInv(ix) && IsDue(ix, i) && status != Open
    requires GroupNamed(ix.intents[i].team, ix.intents[i].target) == Some(g)
    ensures DeletionsExplained(SoftDelete(ix.records, g, ix.now), Close(ix, i, status).intents)
  {
    hide GroupNamed;
    var records := SoftDelete(ix.records, g, ix.now);
    var intents := Close(ix, i, status).intents;
    forall r | r in records && records[r].deletedAt.Some?
      ensures exists j :: Explains(intents, j, records[r])
    {
      if records[r] == ix.records[r] {
        var j :| Explains(ix.intents, j, ix.records[r]);
        assert Explains(intents, j, records[r]);
      } else {
        assert Explains(intents, i, records[r]);
      }
    }
  }

  lemma OldProofsStand(ix: Index, i: Id, status: Status, p: Id)
    requires RetirementInv(ix) && IsDue(ix, i) && p in ix.proofs
    ensures ix.proofs[p].intent != i && p != ix.next
    ensures Proves(ix.proofs, Close(ix, i, status).intents, p, ix.proofs[p].intent)
  {
    hide IntentsSound, OneOpen, DeletionsExplained;
    assert Proves(ix.proofs, ix.intents, p, ix.proofs[p].intent);
  }

  lemma OldCompletionsStand(ix: Index, i: Id, status: Status, j: Id) returns (p: Id)
    requires RetirementInv(ix) && IsDue(ix, i)
    requires j != i && j in ix.intents && ix.intents[j].status == Completed
    ensures p in ix.proofs && p != ix.next && Proves(ix.proofs, Close(ix, i, status).intents, p, j)
  {
    hide IntentsSound, OneOpen, DeletionsExplained;
    p :| Proves(ix.proofs, ix.intents, p, j);
  }

  lemma AddProof(proofs: map<Id, CleanupProof>, intents: map<Id, Intent>, id: Id, proof: CleanupProof)
    requires id !in proofs && Proves(proofs[id := proof], intents, id, proof.intent)
    requires forall p | p in proofs :: proofs[p].intent != proof.intent && Proves(proofs, intents, p, proofs[p].intent)
    requires forall p, q | p in proofs && q in proofs && proofs[p].intent == proofs[q].intent :: p == q
    requires forall j | j in intents && intents[j].status == Completed && j != proof.intent :: exists p :: Proves(proofs, intents, p, j)
    ensures ProofsMatch(proofs[id := proof], intents)
  {
    var all := proofs[id := proof];
    forall j | j in intents && intents[j].status == Completed && j != proof.intent
      ensures exists p :: Proves(all, intents, p, j)
    {
      var p :| Proves(proofs, intents, p, j);
      assert Proves(all, intents, p, j);
    }
  }

  lemma CompleteKeepsProofs(ix: Index, i: Id, proof: CleanupProof)
    requires RetirementInv(ix) && IsDue(ix, i)
    requires proof == CleanupProof(i, ix.intents[i].team, ix.intents[i].target, ix.now, proof.count)
    ensures ProofsMatch(ix.proofs[ix.next := proof], Close(ix, i, Completed).intents)
  {
    hide IntentsSound, OneOpen, DeletionsExplained, Close;
    var intents := Close(ix, i, Completed).intents;
    forall p | p in ix.proofs
      ensures ix.proofs[p].intent != i && Proves(ix.proofs, intents, p, ix.proofs[p].intent)
    {
      OldProofsStand(ix, i, Completed, p);
    }
    forall j | j in intents && intents[j].status == Completed && j != i
      ensures exists p :: Proves(ix.proofs, intents, p, j)
    {
      CloseTouchesOne(ix, i, Completed, j);
      var p := OldCompletionsStand(ix, i, Completed, j);
    }
    assert Proves(ix.proofs[ix.next := proof], intents, ix.next, i) by { CloseCloses(ix, i, Completed); }
    AddProof(ix.proofs, intents, ix.next, proof);
  }

  lemma CloseCloses(ix: Index, i: Id, status: Status)
    requires i in ix.intents
    ensures var intents := Close(ix, i, status).intents;
      i in intents && intents[i] == ix.intents[i].(status := status, closedAt := Some(ix.now))
  {
  }

  lemma CloseTouchesOne(ix: Index, i: Id, status: Status, j: Id)
    requires i in ix.intents && j != i
    ensures var intents := Close(ix, i, status).intents;
      (j in intents <==> j in ix.intents) && (j in intents ==> intents[j] == ix.intents[j])
  {
  }

  lemma AbandonKeepsProofs(ix: Index, i: Id)
    requires RetirementInv(ix) && IsDue(ix, i)
    ensures ProofsMatch(ix.proofs, Close(ix, i, Abandoned).intents)
  {
    var intents := Close(ix, i, Abandoned).intents;
    forall p | p in ix.proofs
      ensures Proves(ix.proofs, intents, p, ix.proofs[p].intent)
    {
      OldProofsStand(ix, i, Abandoned, p);
    }
    forall j | j in intents && intents[j].status == Completed
      ensures exists p :: Proves(ix.proofs, intents, p, j)
    {
      var p := OldCompletionsStand(ix, i, Abandoned, j);
    }
  }

  lemma PurgeKeepsInv(ix: Index, c: Candidate)
    requires RetirementInv(ix)
    ensures RetirementInv(SoftPurgeTx(ix, c).0)
  {
    hide GroupNamed, IntentsSound, OneOpen, ProofsMatch, DeletionsExplained, SoftDelete;
    var ix' := SoftPurgeTx(ix, c).0;
    if ix' != ix {
      var g := GroupNamed(c.team, c.target).value;
      var status := ix'.intents[c.intent].status;
      CloseKeepsIntents(ix, c.intent, status);
      CloseKeepsDeletions(ix, c.intent, status, g);
      assert SoftDelete(ix.records, g, ix.now).Keys == ix.records.Keys by { SoftDeleteKeepsKeys(ix.records, g, ix.now); }
      if status == Abandoned {
        AbandonKeepsProofs(ix, c.intent);
      } else {
        CompleteKeepsProofs(ix, c.intent, ix'.proofs[ix.next]);
      }
    }
  }

  lemma SoftDeleteKeepsKeys(records: map<Id, Record>, g: Group, now: Time)
    ensures SoftDelete(records, g, now).Keys == records.Keys
  {
  }

  lemma TickKeepsInv(ix: Index, to: Time)
    requires RetirementInv(ix) && ix.now <= to
    ensures RetirementInv(ix.(now := to))
  {
    hide OneOpen, ProofsMatch, DeletionsExplained, GroupNamed;
  }

  lemma AddRecordKeepsInv(ix: Index, g: Group)
    requires RetirementInv(ix)
    ensures RetirementInv(ix.(records := ix.records[ix.next := Record(g, None)], next := ix.next + 1))
  {
    hide OneOpen, ProofsMatch, GroupNamed, IntentsSound, Explains;
  }

  lemma StepKeepsInv(ix: Index, step: Step)
    requires RetirementInv(ix)
    ensures RetirementInv(Next(ix, step))
  {
    match step
    case Tick(to) => if ix.now <= to { TickKeepsInv(ix, to); }
    case SetGrace(grace) =>
    case MovePointer(alias, pointer) =>
    case Cutover(a, generation, served, at) =>
      if a in ix.pointers && ix.pointers[a].generation < generation {
        var was := ix.pointers[a];
        var moved := ix.(pointers := ix.pointers[a := Advanced(was, generation, served, at)]);
        ScheduleKeepsInv(moved, a, was.generation, generation, was.revision + 1, None);
      }
      hide RetirementInv, ScheduleTx;
    case AddRecord(group) => AddRecordKeepsInv(ix, group);
    case Schedule(a, retired, successor, revision, cutover) => ScheduleKeepsInv(ix, a, retired, successor, revision, cutover);
    case Discover(page) => if Backfill(ix, page).Success? { BackfillKeepsInv(ix, page); }
    case Purge(c) => PurgeKeepsInv(ix, c);
  }

  /** Retirement intents, over every run from empty tables: one open intent per Team and target, each
      completed intent with exactly one proof, and every deletion answered for by an intent of that very
      generation whose frozen deadline had passed. */
  lemma {:induction false} RunKeepsInv(ix: Index, steps: seq<Step>)
    requires RetirementInv(ix)
    ensures RetirementInv(Run(ix, steps))
    decreases |steps|
  {
    hide RetirementInv, Next;
    if steps != [] {
      StepKeepsInv(ix, steps[0]);
      RunKeepsInv(Next(ix, steps[0]), steps[1..]);
    }
  }

  /** The ledger of a run that began with empty tables, spelled out. */
  lemma EveryDeletionIsDueAndProven(grace: int, now: Time, pointers: map<Alias, Pointer>, steps: seq<Step>)
    requires grace > 0
    ensures var ix := Run(Start(grace, now, pointers), steps);
      && (forall r | r in ix.records && ix.records[r].deletedAt.Some? ::
            exists i :: Explains(ix.intents, i, ix.records[r]) && ix.intents[i].eligibleAt <= ix.records[r].deletedAt.value)
      && (forall i | i in ix.intents && ix.intents[i].status == Completed ::
            exists p :: Proves(ix.proofs, ix.intents, p, i) && forall q | q in ix.proofs && ix.proofs[q].intent == i :: q == p)
      && (forall i | i in ix.intents && ix.intents[i].status != Completed :: forall q | q in ix.proofs :: ix.proofs[q].intent != i)
      && OneOpen(ix.intents)
  {
    var ix0 := Start(grace, now, pointers);
    RunKeepsInv(ix0, steps);
    var ix := Run(ix0, steps);
    InvariantSpelledOut(ix);
  }

  lemma InvariantSpelledOut(ix: Index)
    requires RetirementInv(ix)
    ensures forall r | r in ix.records && ix.records[r].deletedAt.Some? ::
              exists i :: Explains(ix.intents, i, ix.records[r]) && ix.intents[i].eligibleAt <= ix.records[r].deletedAt.value
    ensures forall i | i in ix.intents && ix.intents[i].status == Completed ::
              exists p :: Proves(ix.proofs, ix.intents, p, i) && forall q | q in ix.proofs && ix.proofs[q].intent == i :: q == p
    ensures forall i | i in ix.intents && ix.intents[i].status != Completed :: forall q | q in ix.proofs :: ix.proofs[q].intent != i
    ensures OneOpen(ix.intents)
  {
    hide GroupNamed;
    forall r | r in ix.records && ix.records[r].deletedAt.Some?
      ensures exists i :: Explains(ix.intents, i, ix.records[r]) && ix.intents[i].eligibleAt <= ix.records[r].deletedAt.value
    {
      var i :| Explains(ix.intents, i, ix.records[r]);
      assert IntentSound(ix.intents[i], ix.now);
    }
    forall i | i in ix.intents && ix.intents[i].status == Completed
      ensures exists p :: Proves(ix.proofs, ix.intents, p, i) && forall q | q in ix.proofs && ix.proofs[q].intent == i :: q == p
    {
      var p :| Proves(ix.proofs, ix.intents, p, i);
    }
    forall q | q in ix.proofs
      ensures ix.proofs[q].intent in ix.intents && ix.intents[ix.proofs[q].intent].status == Completed
    {
      assert Proves(ix.proofs, ix.intents, q, ix.proofs[q].intent);
    }
  }

  // ---------- frozen deadlines ----------

  /** What never changes about an intent, and that closing it is final. */
  ghost predicate IntentKept(before: Intent, after: Intent) {
    && after.team == before.team && after.target == before.target
    && after.eligibleAt == before.eligibleAt && after.requestedAt == before.requestedAt
    && (before.status != Open ==> after == before)
  }

  ghost predicate IntentsKept(ix: Index, ix': Index) {
    forall i | i in ix.intents :: i in ix'.intents && IntentKept(ix.intents[i], ix'.intents[i])
  }

  lemma ScheduleKeepsIntents(ix: Index, a: Alias, retired: int, successor: int, revision: int, cutover: Option<Time>)
    requires IdsUsed(ix)
    ensures var ix' := ScheduleTx(ix, a, retired, successor, revision, cutover).0;
      IntentsKept(ix, ix') && IdsUsed(ix') && ix'.pointers == ix.pointers && ix'.records == ix.records
  {
    hide OpenFor, GroupNamed;
  }

  lemma {:induction false} BackfillKeepsIntents(ix: Index, page: seq<Group>)
    requires IdsUsed(ix) && Backfill(ix, page).Success?
    ensures var ix' := Backfill(ix, page).value.0;
      IntentsKept(ix, ix') && IdsUsed(ix') && ix'.pointers == ix.pointers && ix'.records == ix.records
    decreases |page|
  {
    hide ScheduleTx, IdsUsed;
    if page != [] {
      BackfillKeepsIntents(ix, page[..|page| - 1]);
      var ix1 := Backfill(ix, page[..|page| - 1]).value.0;
      var g := page[|page| - 1];
      if g.alias in ix1.pointers {
        var p := ix1.pointers[g.alias];
        ScheduleKeepsIntents(ix1, g.alias, g.generation, p.generation, p.revision, p.updatedAt.parsed);
      }
    }
  }

  lemma CutoverKeepsIntents(ix: Index, a: Alias, generation: nat, served: bool, at: Stamp)
    requires IdsUsed(ix)
    ensures IntentsKept(ix, CutoverTx(ix, a, generation, served, at)) && IdsUsed(CutoverTx(ix, a, generation, served, at))
  {
    hide ScheduleTx;
    if a in ix.pointers {
      var was := ix.pointers[a];
      ScheduleKeepsIntents(ix.(pointers := ix.pointers[a := Advanced(was, generation, served, at)]), a, was.generation, generation, was.revision + 1, None);
    }
  }

  lemma PurgeKeepsIntents(ix: Index, c: Candidate)
    requires IdsUsed(ix)
    ensures IntentsKept(ix, SoftPurgeTx(ix, c).0) && IdsUsed(SoftPurgeTx(ix, c).0)
  {
    hide GroupNamed, SoftDelete, LiveIn;
    if GroupNamed(c.team, c.target).Some? {
      SoftDeleteKeepsKeys(ix.records, GroupNamed(c.team, c.target).value, ix.now);
    }
  }

  lemma StepKeepsIntents(ix: Index, step: Step)
    requires IdsUsed(ix)
    ensures IntentsKept(ix, Next(ix, step)) && IdsUsed(Next(ix, step))
  {
    hide ScheduleTx, Backfill, CutoverTx, SoftPurgeTx;
    match step
    case Cutover(a, generation, served, at) => CutoverKeepsIntents(ix, a, generation, served, at);
    case Purge(c) => PurgeKeepsIntents(ix, c);
    case Schedule(a, retired, successor, revision, cutover) => ScheduleKeepsIntents(ix, a, retired, successor, revision, cutover);
    case Discover(page) => if Backfill(ix, page).Success? { BackfillKeepsIntents(ix, page); }
    case _ =>
  }

  /** Over any run, whatever happens to the configured grace: an intent keeps its coordinates and its
      deadline, and once closed it never changes again. */
  lemma {:induction false} DeadlinesAreFrozen(ix: Index, steps: seq<Step>)
    requires IdsUsed(ix)
    ensures IntentsKept(ix, Run(ix, steps))
    decreases |steps|
  {
    hide Next, IdsUsed;
    if steps != [] {
      StepKeepsIntents(ix, steps[0]);
      DeadlinesAreFrozen(Next(ix, steps[0]), steps[1..]);
    }
  }

  // ---------- serving generations ----------

  /** No step of the retirement service soft-deletes a record at or above the generation of a pointer that
      serves at that moment, however the pointers moved before it, and no such step moves a pointer. */
  lemma RetirementSparesServing(ix: Index, step: Step)
    requires Retires(step) && IdsUsed(ix)
    ensures Next(ix, step).pointers == ix.pointers && Next(ix, step).records.Keys == ix.records.Keys
    ensures forall r | r in ix.records && Serving(ix.pointers, ix.records[r].group.alias)
                       && ix.records[r].group.generation >= ix.pointers[ix.records[r].group.alias].generation ::
              Next(ix, step).records[r] == ix.records[r]
  {
    hide ScheduleTx, Backfill, GroupNamed;
    match step
    case Schedule(a, retired, successor, revision, cutover) => ScheduleKeepsIntents(ix, a, retired, successor, revision, cutover);
    case Discover(page) => if Backfill(ix, page).Success? { BackfillKeepsIntents(ix, page); }
    case Purge(_) =>
  }

  /** The one way a purge reaches the generation a pointer names: the intent for that very generation is
      still open and due, and the pointer is not serving. */
  lemma PurgeReachesTheNamedGenerationExactly(ix: Index, c: Candidate, a: Alias)
    requires a in ix.pointers
    ensures var g := Group(a, ix.pointers[a].generation);
      (exists r :: r in LiveIn(ix.records, g) && r !in LiveIn(SoftPurgeTx(ix, c).0.records, g))
      <==> (&& SameCandidate(ix, c) && ix.intents[c.intent].eligibleAt <= ix.now
            && GroupNamed(c.team, c.target) == Some(g) && !Serving(ix.pointers, a) && LiveIn(ix.records, g) != {})
  {
    hide GroupNamed;
  }

  // ---------- pointers that only increase ----------

  /** Every intent is for a generation below its pointer. */
  ghost predicate BelowPointers(ix: Index) {
    forall i | i in ix.intents ::
      match GroupNamed(ix.intents[i].team, ix.intents[i].target)
      case None => true
      case Some(g) => g.alias in ix.pointers && g.generation < ix.pointers[g.alias].generation
  }

  predicate Monotone(ix: Index, step: Step) {
    step.MovePointer? && step.alias in ix.pointers ==> ix.pointers[step.alias].generation <= step.pointer.generation
  }

  predicate MonotoneRun(ix: Index, steps: seq<Step>)
    decreases |steps|
  {
    steps == [] || (Monotone(ix, steps[0]) && MonotoneRun(Next(ix, steps[0]), steps[1..]))
  }

  ghost predicate PointersGrow(ix: Index, ix': Index) {
    forall a | a in ix.pointers :: a in ix'.pointers && ix.pointers[a].generation <= ix'.pointers[a].generation
  }

  lemma ScheduleStaysBelow(ix: Index, a: Alias, retired: int, successor: int, revision: int, cutover: Option<Time>)
    requires BelowPointers(ix)
    ensures BelowPointers(ScheduleTx(ix, a, retired, successor, revision, cutover).0)
  {
    ScheduleShape(ix, a, retired, successor, revision, cutover);
    hide ScheduleTx, GroupNamed, OpenFor, PrintTarget;
  }

  lemma {:induction false} BackfillStaysBelow(ix: Index, page: seq<Group>)
    requires BelowPointers(ix) && Backfill(ix, page).Success?
    ensures BelowPointers(Backfill(ix, page).value.0)
    decreases |page|
  {
    hide ScheduleTx, BelowPointers;
    if page != [] {
      BackfillStaysBelow(ix, page[..|page| - 1]);
      var ix1 := Backfill(ix, page[..|page| - 1]).value.0;
      var g := page[|page| - 1];
      if g.alias in ix1.pointers {
        var p := ix1.pointers[g.alias];
        ScheduleStaysBelow(ix1, g.alias, g.generation, p.generation, p.revision, p.updatedAt.parsed);
      }
    }
  }

  lemma MoveStaysBelow(ix: Index, a: Alias, p: Pointer)
    requires BelowPointers(ix) && (a in ix.pointers ==> ix.pointers[a].generation <= p.generation)
    ensures BelowPointers(ix.(pointers := ix.pointers[a := p])) && PointersGrow(ix, ix.(pointers := ix.pointers[a := p]))
  {
    hide GroupNamed;
  }

  lemma MonotoneStep(ix: Index, step: Step)
    requires IdsUsed(ix) && BelowPointers(ix) && Monotone(ix, step)
    ensures BelowPointers(Next(ix, step)) && PointersGrow(ix, Next(ix, step))
    ensures forall r | r in ix.records :: r in Next(ix, step).records && Next(ix, step).records[r].group == ix.records[r].group
    ensures forall r | r in ix.records && Next(ix, step).records[r] != ix.records[r] ::
              var g := ix.records[r].group; g.alias in ix.pointers && g.generation < ix.pointers[g.alias].generation
  {
    hide ScheduleTx, Backfill, GroupNamed, CutoverTx, SoftPurgeTx, BelowPointers;
    match step
    case MovePointer(a, pointer) => MoveStaysBelow(ix, a, pointer);
    case Cutover(a, generation, served, at) => CutoverStaysBelow(ix, a, generation, served, at);
    case Purge(c) => PurgeStaysBelow(ix, c);
    case Schedule(a, retired, successor, revision, cutover) =>
      ScheduleStaysBelow(ix, a, retired, successor, revision, cutover);
      ScheduleKeepsIntents(ix, a, retired, successor, revision, cutover);
    case Discover(page) =>
      if Backfill(ix, page).Success? {
        BackfillStaysBelow(ix, page);
        BackfillKeepsIntents(ix, page);
      }
    case _ => SameTablesStayBelow(ix, Next(ix, step));
  }

  lemma SameTablesStayBelow(ix: Index, ix': Index)
    requires BelowPointers(ix) && ix'.intents == ix.intents && ix'.pointers == ix.pointers
    ensures BelowPointers(ix')
  {
    hide GroupNamed;
  }

  lemma CutoverStaysBelow(ix: Index, a: Alias, generation: nat, served: bool, at: Stamp)
    requires IdsUsed(ix) && BelowPointers(ix)
    ensures var ix' := CutoverTx(ix, a, generation, served, at);
      BelowPointers(ix') && PointersGrow(ix, ix') && ix'.records == ix.records
  {
    hide ScheduleTx, GroupNamed, BelowPointers;
    if a in ix.pointers && ix.pointers[a].generation < generation {
      var was := ix.pointers[a];
      var moved := ix.(pointers := ix.pointers[a := Advanced(was, generation, served, at)]);
      MoveStaysBelow(ix, a, moved.pointers[a]);
      ScheduleStaysBelow(moved, a, was.generation, generation, was.revision + 1, None);
      ScheduleKeepsIntents(moved, a, was.generation, generation, was.revision + 1, None);
    }
  }

  lemma PurgeStaysBelow(ix: Index, c: Candidate)
    requires BelowPointers(ix)
    ensures var ix' := SoftPurgeTx(ix, c).0;
      && BelowPointers(ix') && ix'.pointers == ix.pointers && ix'.records.Keys == ix.records.Keys
      && (forall r | r in ix.records :: ix'.records[r].group == ix.records[r].group)
      && (forall r | r in ix.records && ix'.records[r] != ix.records[r] ::
            var g := ix.records[r].group; g.alias in ix.pointers && g.generation < ix.pointers[g.alias].generation)
  {
    hide GroupNamed, SoftDelete, LiveIn;
    var ix' := SoftPurgeTx(ix, c).0;
    if ix' != ix {
      var g := GroupNamed(c.team, c.target).value;
      SoftDeleteTouches(ix.records, g, ix.now);
      ClosingStaysBelow(ix, ix', c.intent);
    }
  }

  lemma SoftDeleteTouches(records: map<Id, Record>, g: Group, now: Time)
    ensures var after := SoftDelete(records, g, now);
      && after.Keys == records.Keys
      && (forall r | r in records :: after[r].group == records[r].group && (after[r] != records[r] ==> records[r].group == g))
  {
  }

  lemma ClosingStaysBelow(ix: Index, ix': Index, i: Id)
    requires BelowPointers(ix) && ix'.pointers == ix.pointers && ix'.intents.Keys == ix.intents.Keys
    requires forall j | j in ix.intents :: ix'.intents[j].team == ix.intents[j].team && ix'.intents[j].target == ix.intents[j].target
    ensures BelowPointers(ix')
  {
    hide GroupNamed;
  }

  /** With pointer generations that only increase, no record at or above the pointer is ever retired in a
      whole run, abandoned intents included: only a record strictly below where the pointer ends up changes. */
  lemma {:induction false} NothingAtOrAboveThePointerIsRetired(ix: Index, steps: seq<Step>)
    requires IdsUsed(ix) && BelowPointers(ix) && MonotoneRun(ix, steps)
    ensures PointersGrow(ix, Run(ix, steps))
    ensures forall r | r in ix.records ::
              && r in Run(ix, steps).records
              && (Run(ix, steps).records[r] == ix.records[r]
                  || var g := ix.records[r].group;
                     g.alias in Run(ix, steps).pointers && g.generation < Run(ix, steps).pointers[g.alias].generation)
    ensures forall r | r in ix.records :: Run(ix, steps).records[r].group == ix.records[r].group
    decreases |steps|
  {
    hide Next, IdsUsed, BelowPointers;
    if steps != [] {
      var ix1 := Next(ix, steps[0]);
      MonotoneStep(ix, steps[0]);
      StepKeepsIntents(ix, steps[0]);
      NothingAtOrAboveThePointerIsRetired(ix1, steps[1..]);
    }
  }

  // ---------- what a rollback can cost ----------

  const ALIAS := Alias("team", "item", "namespace")

  function PointerAt(generation: nat, revision: nat, served: bool): Pointer {
    Pointer(generation, revision, true, served, Stamp(0, Some(0)))
  }

  /** Generation 0 is superseded, rolled back to while its item has no serving revision, purged in that
      moment through the abandoned branch, and served again. */
  function RollbackSchedule(): seq<Step> {
    [AddRecord(Group(ALIAS, 0)),
     Cutover(ALIAS, 1, true, Stamp(0, Some(0))),
     Tick(1),
     MovePointer(ALIAS, PointerAt(0, 2, false)),
     Purge(Candidate(1, "team", TargetOf(Group(ALIAS, 0)), 1, 0)),
     MovePointer(ALIAS, PointerAt(0, 3, true))]
  }

  lemma RunStep(ix: Index, step: Step, rest: seq<Step>)
    ensures Run(ix, [step] + rest) == Run(Next(ix, step), rest)
  {
    assert ([step] + rest)[1..] == rest;
  }

  /** Without monotone pointers the safety of whole runs fails: here a pointer ends up serving a generation
      whose every record the service itself retired. */
  lemma RollbackThenAbandonEmptiesAServingGeneration()
    ensures var ix := Run(Start(1, 0, map[ALIAS := PointerAt(0, 0, true)]), RollbackSchedule());
      Serving(ix.pointers, ALIAS) && ix.pointers[ALIAS].generation == 0
      && ix.records == map[0 := Record(Group(ALIAS, 0), Some(1))]
  {
    hide Next, Run, TargetOf;
    SupersededThenDue();
    RolledBackThenPurged();
    RunSix(Before(), RollbackSchedule());
  }

  function Before(): Index {
    Start(1, 0, map[ALIAS := PointerAt(0, 0, true)])
  }

  /** Generation 0 superseded by generation 1, and its intent due. */
  function Halfway(): Index {
    Index(1, 1, map[ALIAS := PointerAt(1, 1, true)], map[0 := Record(Group(ALIAS, 0), None)],
          map[1 := Intent("team", TargetOf(Group(ALIAS, 0)), 1, 0, Open, None)], map[], 2)
  }

  lemma SupersededThenDue()
    ensures var s := RollbackSchedule();
      Next(Next(Next(Before(), s[0]), s[1]), s[2]) == Halfway()
  {
    hide TargetOf, ParseTarget, PrintTarget;
    var g := Group(ALIAS, 0);
    var s := RollbackSchedule();
    var i1 := Next(Before(), s[0]);
    assert i1 == Before().(records := map[0 := Record(g, None)], next := 1);
    assert OpenFor(map[], "team", TargetOf(g)) == {};
    assert Next(i1, s[1]) == Halfway().(now := 0);
  }

  lemma RolledBackThenPurged()
    ensures var s := RollbackSchedule();
      var ix := Next(Next(Next(Halfway(), s[3]), s[4]), s[5]);
      Serving(ix.pointers, ALIAS) && ix.pointers[ALIAS].generation == 0
      && ix.records == map[0 := Record(Group(ALIAS, 0), Some(1))]
  {
    hide TargetOf, SoftPurgeTx;
    var s := RollbackSchedule();
    assert Next(Halfway(), s[3]) == RolledBack();
    PurgedWhileUnserved();
  }

  /** The pointer is back at generation 0 while its item has no serving revision. */
  function RolledBack(): Index {
    Halfway().(pointers := map[ALIAS := PointerAt(0, 2, false)])
  }

  lemma PurgedWhileUnserved()
    ensures var ix := SoftPurgeTx(RolledBack(), Candidate(1, "team", TargetOf(Group(ALIAS, 0)), 1, 0)).0;
      ix.pointers == RolledBack().pointers && ix.records == map[0 := Record(Group(ALIAS, 0), Some(1))]
  {
    var g := Group(ALIAS, 0);
    NamesItsGroup(g);
    hide TargetOf, GroupNamed;
    assert 0 in LiveIn(RolledBack().records, g);
    assert SoftDelete(RolledBack().records, g, 1) == map[0 := Record(g, Some(1))];
    hide SoftDelete, LiveIn;
  }

  lemma RunSix(ix: Index, s: seq<Step>)
    requires |s| == 6
    ensures Run(ix, s) == Next(Next(Next(Next(Next(Next(ix, s[0]), s[1]), s[2]), s[3]), s[4]), s[5])
  {
    hide Next;
    assert s == [s[0]] + s[1..] && s[1..] == [s[1]] + s[2..] && s[2..] == [s[2]] + s[3..] && s[3..] == [s[3]] + s[4..]
           && s[4..] == [s[4]] + s[5..] && s[5..] == [s[5]] + [];
    RunStep(ix, s[0], s[1..]);
    RunStep(Next(ix, s[0]), s[1], s[2..]);
    RunStep(Next(Next(ix, s[0]), s[1]), s[2], s[3..]);
    RunStep(Next(Next(Next(ix, s[0]), s[1]), s[2]), s[3], s[4..]);
    RunStep(Next(Next(Next(Next(ix, s[0]), s[1]), s[2]), s[3]), s[4], s[5..]);
    RunStep(Next(Next(Next(Next(Next(ix, s[0]), s[1]), s[2]), s[3]), s[4]), s[5], []);
  }
}
