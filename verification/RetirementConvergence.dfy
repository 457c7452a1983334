/** With settled pointers, repeated scans finish the backlog whatever the batch limit; what stalls them is
    characterised exactly (src/services/index_retirement.py:267-367). */
module RetirementConvergence {
  import opened Wrappers
  import opened TargetRef
  import opened IndexRetirement
  import opened RetirementSafety

  function OpenIntents(intents: map<Id, Intent>): set<Id> {
    set i | i in intents && intents[i].status == Open
  }

  /** Live superseded generations without an open intent. */
  function Backlog(ix: Index): set<Group> {
    set g | g in Superseded(ix) && !HasOpen(ix.intents, g)
  }

  function Measure(ix: Index): nat {
    2 * |Backlog(ix)| + |OpenIntents(ix.intents)|
  }

  predicate Readable(ix: Index, g: Group) {
    Schedulable(g.alias) && StampOf(ix, g).parsed.Some?
  }

  /** An open intent names this group. */
  predicate Named(intents: map<Id, Intent>, g: Group) {
    exists i :: i in intents && intents[i].status == Open && GroupNamed(intents[i].team, intents[i].target) == Some(g)
  }

  /** The clock is past every deadline that exists or that discovery would set. */
  ghost predicate DeadlinesPast(ix: Index) {
    && (forall i | i in OpenIntents(ix.intents) :: ix.intents[i].eligibleAt <= ix.now)
    && (forall g | g in Superseded(ix) && StampOf(ix, g).parsed.Some? :: StampOf(ix, g).parsed.value + ix.grace <= ix.now)
  }

  /** No superseded generation is out of reach of both discovery and the due queue. */
  ghost predicate Finishable(ix: Index) {
    forall g | g in Superseded(ix) :: Readable(ix, g) || Named(ix.intents, g)
  }

  /** Pointer generations have only increased, deadlines are past and nothing is out of reach. */
  ghost predicate Settled(ix: Index) {
    RetirementInv(ix) && BelowPointers(ix) && DeadlinesPast(ix) && Finishable(ix)
  }

  // ---------- named and open are the same ----------

  lemma NamesWhatItPrints(i: Intent, g: Group)
    requires GroupNamed(i.team, i.target) == Some(g)
    ensures Printable(g.alias.item, g.alias.namespace) && i.team == g.alias.team && i.target == TargetOf(g)
  {
    PrintParsed(i.target);
    hide ParseTarget, PrintTarget;
  }

  lemma NamedIsOpen(intents: map<Id, Intent>, g: Group)
    ensures Named(intents, g) ==> HasOpen(intents, g)
    ensures HasOpen(intents, g) && Printable(g.alias.item, g.alias.namespace) ==> Named(intents, g)
  {
    hide GroupNamed, TargetOf;
    if Named(intents, g) {
      var i :| i in intents && intents[i].status == Open && GroupNamed(intents[i].team, intents[i].target) == Some(g);
      NamesWhatItPrints(intents[i], g);
      assert i in OpenFor(intents, g.alias.team, TargetOf(g));
    }
    if HasOpen(intents, g) && Printable(g.alias.item, g.alias.namespace) {
      var i := Pick(OpenFor(intents, g.alias.team, TargetOf(g)));
      NamesItsGroup(g);
    }
  }

  /** What the premise gives of one superseded generation, in terms of the open intents discovery looks up. */
  predicate Served(ix: Index, g: Group) {
    Schedulable(g.alias) && (StampOf(ix, g).parsed.Some? || HasOpen(ix.intents, g))
  }

  lemma ServedExactly(ix: Index, g: Group)
    requires IntentsSound(ix.intents, ix.now)
    ensures Served(ix, g) <==> Readable(ix, g) || Named(ix.intents, g)
  {
    NamedIsOpen(ix.intents, g);
    hide GroupNamed, HasOpen, TargetOf;
    if Named(ix.intents, g) {
      var i :| i in ix.intents && ix.intents[i].status == Open && GroupNamed(ix.intents[i].team, ix.intents[i].target) == Some(g);
      assert IntentSound(ix.intents[i], ix.now);
      NamesWhatItPrints(ix.intents[i], g);
    }
  }

  lemma SettledServed(ix: Index)
    requires RetirementInv(ix)
    ensures Finishable(ix) <==> forall g | g in Superseded(ix) :: Served(ix, g)
  {
    hide Superseded, Served, Readable, Named;
    forall g: Group
      ensures Served(ix, g) <==> Readable(ix, g) || Named(ix.intents, g)
    {
      ServedExactly(ix, g);
    }
  }

  // ---------- cardinalities ----------

  lemma SmallerSet<T>(a: set<T>, b: set<T>)
    requires a <= b
    ensures |a| <= |b|
  {
    assert b == a + (b - a);
  }

  lemma OneFewer<T>(a: set<T>, x: T)
    requires x in a
    ensures |a - {x}| == |a| - 1
  {
  }

  // ---------- discovery ----------

  lemma SupersededIsSchedulable(ix: Index, g: Group)
    requires g in Superseded(ix)
    ensures Serving(ix.pointers, g.alias) && g.generation < ix.pointers[g.alias].generation
  {
  }

  lemma BackfillOneOutcome(ix: Index, g: Group)
    requires g in Superseded(ix) && Readable(ix, g)
    ensures BackfillOne(ix, g) ==
            Success(if HasOpen(ix.intents, g) then (ix, 0) else (WithIntent(ix, g, StampOf(ix, g).parsed.value), 1))
  {
    SupersededIsSchedulable(ix, g);
    NamesItsGroup(g);
    hide PrintTarget, ParseTarget, OpenFor, Superseded;
  }

  lemma HasOpenGains(ix: Index, g: Group, at: Time, h: Group)
    requires IdsUsed(ix) && Printable(g.alias.item, g.alias.namespace) && Printable(h.alias.item, h.alias.namespace)
    ensures HasOpen(WithIntent(ix, g, at).intents, h) <==> HasOpen(ix.intents, h) || h == g
  {
    var intents := WithIntent(ix, g, at).intents;
    forall i | i in OpenFor(ix.intents, h.alias.team, TargetOf(h))
      ensures i in OpenFor(intents, h.alias.team, TargetOf(h))
    {
    }
    forall i | i in OpenFor(intents, h.alias.team, TargetOf(h)) && i != ix.next
      ensures i in OpenFor(ix.intents, h.alias.team, TargetOf(h))
    {
    }
    if ix.next in OpenFor(intents, h.alias.team, TargetOf(h)) {
      TargetsAreDistinct(g, h);
    }
    assert h == g ==> ix.next in OpenFor(intents, h.alias.team, TargetOf(h));
  }

  /** What a row does that an open intent or its own timestamp serves. */
  lemma BackfillOneServed(ix: Index, g: Group)
    requires g in Superseded(ix) && Served(ix, g)
    ensures HasOpen(ix.intents, g) ==> BackfillOne(ix, g) == Success((ix, 0))
    ensures !HasOpen(ix.intents, g) ==>
              StampOf(ix, g).parsed.Some? && BackfillOne(ix, g) == Success((WithIntent(ix, g, StampOf(ix, g).parsed.value), 1))
  {
    BackfillOneFails(ix, g);
    if StampOf(ix, g).parsed.Some? {
      BackfillOneOutcome(ix, g);
    }
    hide Superseded, HasOpen, BackfillOne;
  }

  lemma WithIntentMeasure(ix: Index, g: Group)
    requires Settled(ix) && g in Backlog(ix)
    ensures StampOf(ix, g).parsed.Some?
    ensures var ix' := WithIntent(ix, g, StampOf(ix, g).parsed.value);
      Settled(ix') && Superseded(ix') == Superseded(ix) && Measure(ix') + 1 == Measure(ix)
      && (forall h | h in Superseded(ix) :: HasOpen(ix'.intents, h) <==> HasOpen(ix.intents, h) || h == g)
  {
    hide HasOpen, Superseded, Settled, WithIntent;
    BacklogReadable(ix, g);
    var at := StampOf(ix, g).parsed.value;
    var ix' := WithIntent(ix, g, at);
    WithIntentSettled(ix, g);
    forall h | h in Superseded(ix)
      ensures HasOpen(ix'.intents, h) <==> HasOpen(ix.intents, h) || h == g
    {
      SettledMember(ix, h);
      HasOpenGains(ix, g, at, h);
    }
    assert Backlog(ix') == Backlog(ix) - {g};
    OneFewer(Backlog(ix), g);
    OneMoreOpen(ix, g, at);
  }

  lemma OneMoreOpen(ix: Index, g: Group, at: Time)
    requires ix.next !in ix.intents
    ensures |OpenIntents(WithIntent(ix, g, at).intents)| == |OpenIntents(ix.intents)| + 1
  {
    hide TargetOf;
    assert OpenIntents(WithIntent(ix, g, at).intents) == OpenIntents(ix.intents) + {ix.next};
  }

  lemma WithIntentSettled(ix: Index, g: Group)
    requires Settled(ix) && g in Backlog(ix)
    ensures Readable(ix, g) && IdsUsed(ix)
    ensures var ix' := WithIntent(ix, g, StampOf(ix, g).parsed.value);
      Settled(ix') && Superseded(ix') == Superseded(ix)
  {
    hide RetirementInv, BelowPointers, HasOpen, Superseded, Finishable;
    BacklogReadable(ix, g);
    WithIntentSound(ix, g);
    var ix' := WithIntent(ix, g, StampOf(ix, g).parsed.value);
    SameSuperseded(ix, ix');
    SettledServed(ix);
    SettledServed(ix');
    forall h | h in Superseded(ix)
      ensures Served(ix', h)
    {
      HasOpenGains(ix, g, StampOf(ix, g).parsed.value, h);
    }
  }

  lemma SameSuperseded(ix: Index, ix': Index)
    requires ix'.pointers == ix.pointers && ix'.records == ix.records
    ensures Superseded(ix') == Superseded(ix)
    ensures forall g | g in Superseded(ix) :: Readable(ix', g) == Readable(ix, g) && StampOf(ix', g) == StampOf(ix, g)
  {
    assert forall r | r in ix.records :: OldAndLive(ix, r) == OldAndLive(ix', r);
  }

  lemma WithIntentSound(ix: Index, g: Group)
    requires Settled(ix) && g in Backlog(ix) && Readable(ix, g)
    ensures var ix' := WithIntent(ix, g, StampOf(ix, g).parsed.value);
      IdsUsed(ix) && RetirementInv(ix') && BelowPointers(ix')
  {
    hide RetirementInv, BelowPointers, OpenFor;
    SupersededIsSchedulable(ix, g);
    BackfillOneOutcome(ix, g);
    var p := ix.pointers[g.alias];
    ScheduleKeepsInv(ix, g.alias, g.generation, p.generation, p.revision, p.updatedAt.parsed);
    ScheduleStaysBelow(ix, g.alias, g.generation, p.generation, p.revision, p.updatedAt.parsed);
    InvHasIds(ix);
  }

  lemma InvHasIds(ix: Index)
    requires RetirementInv(ix)
    ensures IdsUsed(ix)
  {
  }

  lemma {:induction false} BackfillMeasure(ix: Index, page: seq<Group>)
    requires Settled(ix) && forall g | g in page :: g in Superseded(ix)
    ensures Backfill(ix, page).Success?
    ensures var (ix', created) := Backfill(ix, page).value;
      Settled(ix') && Superseded(ix') == Superseded(ix) && Measure(ix') + created == Measure(ix) && ix'.now == ix.now
      && (forall h | h in Superseded(ix) :: HasOpen(ix'.intents, h) <==> HasOpen(ix.intents, h) || h in page)
    decreases |page|
  {
    hide Settled, Superseded, HasOpen, BackfillOne, Measure, Served;
    if page != [] {
      var rest := page[..|page| - 1];
      var g := page[|page| - 1];
      assert page == rest + [g];
      BackfillMeasure(ix, rest);
      var ix1 := Backfill(ix, rest).value.0;
      SettledMember(ix1, g);
      BackfillOneServed(ix1, g);
      if !HasOpen(ix1.intents, g) {
        WithIntentMeasure(ix1, g);
      }
    }
  }

  lemma SettledMember(ix: Index, g: Group)
    requires Settled(ix) && g in Superseded(ix)
    ensures Served(ix, g) && Printable(g.alias.item, g.alias.namespace)
  {
    SettledServed(ix);
  }

  lemma BacklogReadable(ix: Index, g: Group)
    requires Settled(ix) && g in Backlog(ix)
    ensures Readable(ix, g)
  {
    SettledMember(ix, g);
  }

  // ---------- purging ----------

  /** A due intent of a settled index is always closed: purged, or abandoned with its pointer gone. */
  lemma PurgeCloses(ix: Index, c: Candidate)
    requires Settled(ix) && SameCandidate(ix, c)
    ensures SoftPurgeTx(ix, c).1.SoftPurged? || SoftPurgeTx(ix, c).1.AbandonedIntent?
    ensures OpenIntents(SoftPurgeTx(ix, c).0.intents) == OpenIntents(ix.intents) - {c.intent}
    ensures forall i | i in ix.intents && i != c.intent ::
              i in SoftPurgeTx(ix, c).0.intents && SoftPurgeTx(ix, c).0.intents[i] == ix.intents[i]
  {
    hide GroupNamed, SoftDelete, LiveIn, Superseded;
    assert IntentSound(ix.intents[c.intent], ix.now);
    assert c.intent in OpenIntents(ix.intents);
  }

  lemma PurgedRecords(ix: Index, c: Candidate, g: Group)
    requires Settled(ix) && SameCandidate(ix, c) && GroupNamed(c.team, c.target) == Some(g)
    ensures SoftPurgeTx(ix, c).0.pointers == ix.pointers
    ensures var records := SoftPurgeTx(ix, c).0.records;
      forall r | r in records && records[r].deletedAt.None? :: r in ix.records && ix.records[r] == records[r] && ix.records[r].group != g
  {
    PurgeCloses(ix, c);
    hide GroupNamed, Settled;
  }

  lemma PurgeShrinksBacklog(ix: Index, c: Candidate)
    requires Settled(ix) && SameCandidate(ix, c)
    ensures Superseded(SoftPurgeTx(ix, c).0) <= Superseded(ix)
    ensures Backlog(SoftPurgeTx(ix, c).0) <= Backlog(ix)
  {
    hide Settled, SoftPurgeTx, GroupNamed, RetirementInv, BelowPointers;
    var ix' := SoftPurgeTx(ix, c).0;
    PurgeCloses(ix, c);
    NamedBySound(ix, c);
    var g := GroupNamed(c.team, c.target).value;
    PurgedRecords(ix, c, g);
    forall h | h in Superseded(ix')
      ensures h in Superseded(ix) && h != g
    {
      var r :| r in ix'.records && OldAndLive(ix', r) && ix'.records[r].group == h;
      assert OldAndLive(ix, r);
    }
    forall h | h in Backlog(ix')
      ensures h in Backlog(ix)
    {
      SettledMember(ix, h);
      NamesItsGroup(h);
      assert c.intent !in OpenFor(ix.intents, h.alias.team, TargetOf(h));
      assert OpenFor(ix.intents, h.alias.team, TargetOf(h)) <= OpenFor(ix'.intents, h.alias.team, TargetOf(h));
    }
  }

  lemma NamedBySound(ix: Index, c: Candidate)
    requires Settled(ix) && SameCandidate(ix, c)
    ensures GroupNamed(c.team, c.target).Some?
  {
    hide GroupNamed;
    assert IntentSound(ix.intents[c.intent], ix.now);
  }

  lemma PurgeMeasure(ix: Index, c: Candidate)
    requires Settled(ix) && SameCandidate(ix, c)
    ensures var ix' := SoftPurgeTx(ix, c).0;
      Settled(ix') && Measure(ix') < Measure(ix) && ix'.now == ix.now
  {
    PurgeCloses(ix, c);
    PurgeShrinksBacklog(ix, c);
    PurgeStaysSettled(ix, c);
    hide Settled, SoftPurgeTx, Superseded, HasOpen;
    SmallerSet(Backlog(SoftPurgeTx(ix, c).0), Backlog(ix));
    OneFewer(OpenIntents(ix.intents), c.intent);
  }

  lemma PurgeStaysSettled(ix: Index, c: Candidate)
    requires Settled(ix) && SameCandidate(ix, c)
    ensures Settled(SoftPurgeTx(ix, c).0) && SoftPurgeTx(ix, c).0.now == ix.now
  {
    hide RetirementInv, SoftPurgeTx, Superseded, HasOpen, Finishable, BelowPointers;
    var ix' := SoftPurgeTx(ix, c).0;
    InvHasIds(ix);
    PurgeKeepsInv(ix, c);
    PurgeCloses(ix, c);
    PurgeShrinksBacklog(ix, c);
    PurgeKeepsFrame(ix, c);
    MonotoneStep(ix, Purge(c));
    SettledServed(ix);
    SettledServed(ix');
    forall h | h in Superseded(ix')
      ensures Served(ix', h)
    {
      assert h !in Backlog(ix) ==> h !in Backlog(ix');
    }
  }

  lemma PurgeKeepsFrame(ix: Index, c: Candidate)
    ensures SoftPurgeTx(ix, c).0.now == ix.now && SoftPurgeTx(ix, c).0.grace == ix.grace
    ensures SoftPurgeTx(ix, c).0.pointers == ix.pointers && SoftPurgeTx(ix, c).0 == Next(ix, Purge(c))
  {
    hide GroupNamed, SoftDelete, LiveIn;
  }

  /** Every candidate of a due page is still the same open row when its turn comes. */
  lemma {:induction false} PurgeAllMeasure(ix: Index, due: seq<Id>)
    requires Settled(ix)
    requires forall i | i in due :: i in OpenIntents(ix.intents)
    requires forall i, j | 0 <= i < j < |due| :: due[i] != due[j]
    ensures var ix' := PurgeAll(ix, CandidatesOf(ix, due));
      && Settled(ix') && Measure(ix') + |due| <= Measure(ix)
      && OpenIntents(ix'.intents) == OpenIntents(ix.intents) - (set i | i in due)
      && forall i | i in ix.intents && i !in due :: i in ix'.intents && ix'.intents[i] == ix.intents[i]
    decreases |due|
  {
    hide Settled, Measure, SoftPurgeTx;
    var candidates := CandidatesOf(ix, due);
    if due != [] {
      var n := |due| - 1;
      assert candidates[..n] == CandidatesOf(ix, due[..n]);
      PurgeAllMeasure(ix, due[..n]);
      var ix1 := PurgeAll(ix, candidates[..n]);
      assert due[n] in due && due[n] !in due[..n] && forall i | i in due :: i in due[..n] || i == due[n];
      assert SameCandidate(ix1, candidates[n]);
      PurgeCloses(ix1, candidates[n]);
      PurgeMeasure(ix1, candidates[n]);
    }
  }

  // ---------- whole scans ----------

  /** One scan at any batch limit strictly lowers the measure, until there is nothing left to do. */
  lemma {:induction false} ScanDecreases(ix: Index, page: seq<Group>, due: seq<Id>, limit: nat)
    requires Settled(ix) && limit >= 1
    requires DiscoveryPage(ix, page, limit) && DuePage(DiscoverTx(ix, page).0, due, limit)
    ensures Settled(Scan(ix, page, due))
    ensures Measure(Scan(ix, page, due)) < Measure(ix) || (Measure(ix) == 0 && Scan(ix, page, due) == ix)
  {
    hide Settled, Superseded, HasOpen, Backfill, SoftPurgeTx, StampOf, RetirementInv;
    BackfillMeasure(ix, page);
    var ix1 := DiscoverTx(ix, page).0;
    assert forall i | i in due :: IsDue(ix1, i);
    PurgeAllMeasure(ix1, due);
    if due == [] {
      assert OpenIntents(ix1.intents) == {} by { SettledOpenIsDue(ix1); }
      assert forall g | g in Superseded(ix) :: !HasOpen(ix1.intents, g) by { NoOpenIntents(ix1); }
      HasMember(page);
      NothingToDiscover(ix);
    }
  }

  lemma SettledOpenIsDue(ix: Index)
    requires Settled(ix)
    ensures forall i | i in OpenIntents(ix.intents) :: IsDue(ix, i)
  {
  }

  lemma NoOpenIntents(ix: Index)
    requires OpenIntents(ix.intents) == {}
    ensures forall g: Group :: !HasOpen(ix.intents, g)
  {
    forall g: Group
      ensures OpenFor(ix.intents, g.alias.team, TargetOf(g)) == {}
    {
      assert forall i | i in OpenFor(ix.intents, g.alias.team, TargetOf(g)) :: i in OpenIntents(ix.intents);
    }
  }

  lemma HasMember<T>(s: seq<T>)
    ensures s != [] ==> exists x :: x in s
  {
    if s != [] {
      assert s[0] in s;
    }
  }

  lemma NothingToDiscover(ix: Index)
    ensures Backfill(ix, []) == Success((ix, 0))
  {
  }

  /** What the database returned for one scan, and the batch limit it was asked for. */
  datatype Round = Round(page: seq<Group>, due: seq<Id>, limit: nat)

  ghost predicate Legal(ix: Index, round: Round) {
    round.limit >= 1 && DiscoveryPage(ix, round.page, round.limit) && DuePage(DiscoverTx(ix, round.page).0, round.due, round.limit)
  }

  ghost predicate LegalRounds(ix: Index, rounds: seq<Round>)
    decreases |rounds|
  {
    rounds == [] || (Legal(ix, rounds[0]) && LegalRounds(Scan(ix, rounds[0].page, rounds[0].due), rounds[1..]))
  }

  ghost function AfterRounds(ix: Index, rounds: seq<Round>): Index
    requires LegalRounds(ix, rounds)
    decreases |rounds|
  {
    if rounds == [] then ix else AfterRounds(Scan(ix, rounds[0].page, rounds[0].due), rounds[1..])
  }

  /** As many scans as the measure says, at any limits and whatever order ties come in, leave no open intent
      and no live generation below a serving pointer. */
  lemma {:induction false} ScansFinish(ix: Index, rounds: seq<Round>)
    requires Settled(ix) && LegalRounds(ix, rounds) && |rounds| >= Measure(ix)
    ensures var end := AfterRounds(ix, rounds);
      OpenIntents(end.intents) == {} && Superseded(end) == {}
    decreases |rounds|
  {
    hide Settled, Scan, DiscoveryPage, DuePage, Superseded, HasOpen, OpenIntents;
    if rounds == [] {
      AtRest(ix);
    } else {
      var round := rounds[0];
      DueIsListed(DiscoverTx(ix, round.page).0, round.due, round.limit);
      ScanDecreases(ix, round.page, round.due, round.limit);
      ScansFinish(Scan(ix, round.page, round.due), rounds[1..]);
    }
  }

  // ---------- exactly when repeated scans finish ----------

  /** A superseded generation that neither discovery nor the due queue can reach. */
  predicate Stuck(ix: Index, g: Group) {
    g in Superseded(ix) && !Readable(ix, g) && !Named(ix.intents, g)
  }

  lemma BackfillOneKeepsStuck(ix: Index, h: Group, g: Group)
    requires Stuck(ix, g) && BackfillOne(ix, h).Success?
    ensures Stuck(BackfillOne(ix, h).value.0, g)
  {
    hide GroupNamed, Superseded, OpenFor, TargetOf;
    var ix' := BackfillOne(ix, h).value.0;
    if ix' != ix {
      var p := ix.pointers[h.alias];
      ScheduleShape(ix, h.alias, h.generation, p.generation, p.revision, p.updatedAt.parsed);
      hide ScheduleTx;
      var at: Time :| ix' == WithIntent(ix, h, at);
      assert Group(h.alias, h.generation) == h;
      SameSuperseded(ix, ix');
      assert forall i | i in ix'.intents && i != ix.next :: i in ix.intents && ix'.intents[i] == ix.intents[i];
    }
  }

  lemma {:induction false} BackfillKeepsStuck(ix: Index, page: seq<Group>, g: Group)
    requires Stuck(ix, g) && Backfill(ix, page).Success?
    ensures Stuck(Backfill(ix, page).value.0, g)
    decreases |page|
  {
    hide Stuck, BackfillOne;
    if page != [] {
      BackfillKeepsStuck(ix, page[..|page| - 1], g);
      BackfillOneKeepsStuck(Backfill(ix, page[..|page| - 1]).value.0, page[|page| - 1], g);
    }
  }

  lemma PurgeKeepsStuck(ix: Index, c: Candidate, g: Group)
    requires Stuck(ix, g)
    ensures Stuck(SoftPurgeTx(ix, c).0, g)
  {
    hide GroupNamed;
    var ix' := SoftPurgeTx(ix, c).0;
    if ix' != ix {
      assert GroupNamed(c.team, c.target) != Some(g);
      var r :| r in ix.records && OldAndLive(ix, r) && ix.records[r].group == g;
      assert OldAndLive(ix', r) && ix'.records[r].group == g;
      assert forall i | i in ix'.intents && ix'.intents[i].status == Open :: i in ix.intents && ix'.intents[i] == ix.intents[i];
    }
  }

  lemma {:induction false} PurgeAllKeepsStuck(ix: Index, candidates: seq<Candidate>, g: Group)
    requires Stuck(ix, g)
    ensures Stuck(PurgeAll(ix, candidates), g)
    decreases |candidates|
  {
    hide Stuck, SoftPurgeTx;
    if candidates != [] {
      var n := |candidates| - 1;
      PurgeAllKeepsStuck(ix, candidates[..n], g);
      PurgeKeepsStuck(PurgeAll(ix, candidates[..n]), candidates[n], g);
    }
  }

  lemma ScanKeepsStuck(ix: Index, page: seq<Group>, due: seq<Id>, g: Group)
    requires Stuck(ix, g) && forall i | i in due :: i in DiscoverTx(ix, page).0.intents
    ensures Stuck(Scan(ix, page, due), g)
  {
    hide Stuck, Backfill, PurgeAll;
    if Backfill(ix, page).Success? {
      BackfillKeepsStuck(ix, page, g);
      var ix1 := DiscoverTx(ix, page).0;
      PurgeAllKeepsStuck(ix1, CandidatesOf(ix1, due), g);
    }
  }

  /** What is out of reach stays superseded through any number of scans. */
  lemma {:induction false} StuckForEver(ix: Index, rounds: seq<Round>, g: Group)
    requires Stuck(ix, g) && LegalRounds(ix, rounds)
    ensures Stuck(AfterRounds(ix, rounds), g)
    decreases |rounds|
  {
    hide Stuck, Scan, DiscoveryPage, DuePage;
    if rounds != [] {
      var round := rounds[0];
      DueIsListed(DiscoverTx(ix, round.page).0, round.due, round.limit);
      ScanKeepsStuck(ix, round.page, round.due, g);
      StuckForEver(Scan(ix, round.page, round.due), rounds[1..], g);
    }
  }

  /** Main result. With the clock past every deadline and generations having only increased, as many scans
      as the measure says, in any legal order and at any limits, leave nothing open and nothing superseded if
      and only if every superseded generation had a readable, printable row or an open intent naming it. */
  lemma {:induction false} ScansFinishExactly(ix: Index, rounds: seq<Round>)
    requires RetirementInv(ix) && BelowPointers(ix) && DeadlinesPast(ix)
    requires LegalRounds(ix, rounds) && |rounds| >= Measure(ix)
    ensures var end := AfterRounds(ix, rounds);
      OpenIntents(end.intents) == {} && Superseded(end) == {} <==> Finishable(ix)
  {
    if Finishable(ix) {
      ScansFinish(ix, rounds);
    } else {
      var g :| g in Superseded(ix) && !Readable(ix, g) && !Named(ix.intents, g);
      StuckForEver(ix, rounds, g);
    }
    hide RetirementInv, BelowPointers, DeadlinesPast, AfterRounds, LegalRounds, Superseded;
  }

  lemma DueIsListed(ix: Index, due: seq<Id>, limit: nat)
    requires DuePage(ix, due, limit)
    ensures forall i | i in due :: i in ix.intents
  {
    assert forall i | i in due :: IsDue(ix, i);
  }

  lemma AtRest(ix: Index)
    requires Measure(ix) == 0
    ensures OpenIntents(ix.intents) == {} && Superseded(ix) == {}
  {
    NoOpenIntents(ix);
    hide Superseded, HasOpen;
    assert Backlog(ix) == {};
    assert forall g | g in Superseded(ix) :: g in Backlog(ix);
  }

  // ---------- what stalls discovery ----------

  /** The rows of a page that get a new intent. */
  function Fresh(ix: Index, page: seq<Group>): set<Group> {
    set g | g in page && StampOf(ix, g).parsed.Some? && !HasOpen(ix.intents, g)
  }

  /** Exactly what one discovery transaction does with any page: it fails, changing nothing, when a readable
      row has coordinates that cannot be printed; otherwise it opens one intent for each readable row that
      had none. */
  lemma DiscoveryCreatesExactly(ix: Index, page: seq<Group>)
    requires IdsUsed(ix) && (forall g | g in page :: g in Superseded(ix))
    ensures var (ix', found) := DiscoverTx(ix, page);
      var poisoned := exists g :: g in page && StampOf(ix, g).parsed.Some? && !Schedulable(g.alias);
      if poisoned then ix' == ix && found == Failure(InvalidCoordinates)
      else
        && found == Success(|Fresh(ix, page)|) && (found == Success(0) ==> ix' == ix)
        && (forall h: Group | Printable(h.alias.item, h.alias.namespace) ::
              HasOpen(ix'.intents, h) <==> HasOpen(ix.intents, h) || (h in page && StampOf(ix, h).parsed.Some?))
  {
    if exists g :: g in page && StampOf(ix, g).parsed.Some? && !Schedulable(g.alias) {
      var g :| g in page && StampOf(ix, g).parsed.Some? && !Schedulable(g.alias);
      PoisonedPage(ix, page, g);
    } else {
      CleanPage(ix, page);
    }
  }

  lemma BackfillOneFails(ix: Index, g: Group)
    requires g in Superseded(ix)
    ensures StampOf(ix, g).parsed.None? ==> BackfillOne(ix, g) == Success((ix, 0))
    ensures StampOf(ix, g).parsed.Some? && !Schedulable(g.alias) ==> BackfillOne(ix, g) == Failure(InvalidCoordinates)
  {
    SupersededIsSchedulable(ix, g);
    hide Superseded, OpenFor, PrintTarget, ParseTarget;
  }

  /** Where one row leaves the tables. */
  lemma BackfillOneShape(ix: Index, g: Group)
    requires IdsUsed(ix) && g in Superseded(ix) && BackfillOne(ix, g).Success?
    ensures var (ix', created) := BackfillOne(ix, g).value;
      && IdsUsed(ix') && ix'.pointers == ix.pointers && ix'.records == ix.records
      && (if StampOf(ix, g).parsed.Some? && !HasOpen(ix.intents, g) then created == 1 else created == 0 && ix' == ix)
      && (forall h: Group | Printable(h.alias.item, h.alias.namespace) ::
            HasOpen(ix'.intents, h) <==> HasOpen(ix.intents, h) || (h == g && StampOf(ix, g).parsed.Some?))
  {
    BackfillOneFails(ix, g);
    hide Superseded, HasOpen, BackfillOne, TargetOf;
    if StampOf(ix, g).parsed.Some? {
      BackfillOneOutcome(ix, g);
      if !HasOpen(ix.intents, g) {
        forall h: Group | Printable(h.alias.item, h.alias.namespace)
          ensures HasOpen(WithIntent(ix, g, StampOf(ix, g).parsed.value).intents, h) <==> HasOpen(ix.intents, h) || h == g
        {
          HasOpenGains(ix, g, StampOf(ix, g).parsed.value, h);
        }
      }
    }
  }

  lemma {:induction false} CleanPage(ix: Index, page: seq<Group>)
    requires IdsUsed(ix) && (forall g | g in page :: g in Superseded(ix))
    requires forall g | g in page && StampOf(ix, g).parsed.Some? :: Schedulable(g.alias)
    ensures Backfill(ix, page).Success?
    ensures var (ix', created) := Backfill(ix, page).value;
      && IdsUsed(ix') && ix'.pointers == ix.pointers && ix'.records == ix.records
      && created == |Fresh(ix, page)| && (created == 0 ==> ix' == ix)
      && (forall h: Group | Printable(h.alias.item, h.alias.namespace) ::
            HasOpen(ix'.intents, h) <==> HasOpen(ix.intents, h) || (h in page && StampOf(ix, h).parsed.Some?))
    decreases |page|
  {
    hide IdsUsed, Superseded, HasOpen, BackfillOne, Schedulable;
    if page != [] {
      var rest := page[..|page| - 1];
      var g := page[|page| - 1];
      assert page == rest + [g];
      CleanPage(ix, rest);
      var ix1 := Backfill(ix, rest).value.0;
      SameSuperseded(ix, ix1);
      CleanRow(ix1, g);
      BackfillOneShape(ix1, g);
      SchedulablePrints(g.alias);
      if StampOf(ix1, g).parsed.Some? && !HasOpen(ix1.intents, g) {
        assert Fresh(ix, page) == Fresh(ix, rest) + {g};
      } else {
        assert Fresh(ix, page) == Fresh(ix, rest);
      }
    }
  }

  lemma SchedulablePrints(a: Alias)
    ensures Schedulable(a) ==> Printable(a.item, a.namespace)
  {
  }

  lemma CleanRow(ix: Index, g: Group)
    requires g in Superseded(ix) && (StampOf(ix, g).parsed.Some? ==> Schedulable(g.alias))
    ensures BackfillOne(ix, g).Success?
  {
    BackfillOneFails(ix, g);
    if StampOf(ix, g).parsed.Some? {
      BackfillOneOutcome(ix, g);
    }
  }

  lemma {:induction false} PoisonedPage(ix: Index, page: seq<Group>, bad: Group)
    requires IdsUsed(ix) && (forall g | g in page :: g in Superseded(ix))
    requires bad in page && StampOf(ix, bad).parsed.Some? && !Schedulable(bad.alias)
    ensures Backfill(ix, page) == Failure(InvalidCoordinates)
    decreases |page|
  {
    hide IdsUsed, Superseded, HasOpen, BackfillOne, Schedulable;
    var rest := page[..|page| - 1];
    var g := page[|page| - 1];
    assert page == rest + [g];
    if exists b :: b in rest && StampOf(ix, b).parsed.Some? && !Schedulable(b.alias) {
      var b :| b in rest && StampOf(ix, b).parsed.Some? && !Schedulable(b.alias);
      PoisonedPage(ix, rest, b);
    } else {
      CleanPage(ix, rest);
      var ix1 := Backfill(ix, rest).value.0;
      SameSuperseded(ix, ix1);
      BackfillOneFails(ix1, g);
    }
  }

  /** A batch of unreadable timestamps that sorts first starves everything behind it: whatever else waits,
      discovery changes nothing, so the same page comes back for ever. */
  lemma UnreadableHeadStarvesDiscovery(ix: Index, page: seq<Group>, limit: nat, head: set<Group>)
    requires IdsUsed(ix) && DiscoveryPage(ix, page, limit)
    requires head <= Superseded(ix) && |head| >= limit
    requires forall g | g in head :: StampOf(ix, g).parsed.None?
    requires forall g, h | g in head && h in Superseded(ix) - head :: StampOf(ix, g).rank < StampOf(ix, h).rank
    ensures DiscoverTx(ix, page) == (ix, Success(0))
  {
    hide IdsUsed, Superseded, HasOpen, DiscoverTx;
    var listed := set g | g in page;
    DistinctLength(page);
    forall h | h in page
      ensures h in head
    {
      if h !in head {
        assert forall g | g in head :: g in listed;
        SmallerSet(head + {h}, listed);
      }
    }
    DiscoveryCreatesExactly(ix, page);
    assert Fresh(ix, page) == {};
  }

  lemma {:induction false} DistinctLength<T>(s: seq<T>)
    requires forall i, j | 0 <= i < j < |s| :: s[i] != s[j]
    ensures |set x | x in s| == |s|
  {
    if s != [] {
      var rest := s[..|s| - 1];
      var last := s[|s| - 1];
      DistinctLength(rest);
      assert last !in rest;
      assert (set x | x in s) == (set x | x in rest) + {last};
    }
  }
}
