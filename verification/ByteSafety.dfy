/** Byte safety over every run: what the collector may take, what it must leave, and exactly which rows
    are safe (src/services/object_gc.py, src/storage/local_store.py). */
module ByteSafety {
  import opened Wrappers
  import opened LocalStore
  import opened ObjectLedger
  import opened ObjectProtocol

  // ---------- the invariant of the whole machine ----------

  /** Only catalogued bytes are ever moved aside. */
  ghost predicate QuarantineCatalogued(db: Db, quarantine: map<Coord, Blob>) {
    forall c | c in quarantine :: exists u :: u in db.rows && db.rows[u].At() == c
  }

  ghost predicate CandidateSound(w: World, c: Candidate) {
    && c.obj in w.db.rows && w.db.rows[c.obj].At() == c.At()
    && c.unownedAt <= w.now - w.cfg.grace
  }

  function Items(todo: seq<Coord>): set<Coord> {
    set c | c in todo
  }

  /** While reconciling, quarantine holds exactly what is still to visit and what was passed over. */
  ghost predicate ListingSound(db: Db, quarantine: set<Coord>, todo: seq<Coord>, skipped: set<Coord>) {
    && (forall i, j | 0 <= i < j < |todo| :: todo[i] != todo[j])
    && Items(todo) !! skipped
    && (forall c | c in skipped :: exists u :: Live(db, u) && db.rows[u].At() == c)
    && quarantine == Items(todo) + skipped
  }

  ghost predicate ScannerSound(w: World) {
    match w.scanner
    case Idle => true
    case Deleting(c, phase) =>
      CandidateSound(w, c) && (phase == MustDestroy ==> w.db.rows[c.obj].tombstonedAt.Some?)
    case Reconciling(todo, skipped, at) =>
      ListingSound(w.db, w.store.quarantine.Keys, todo, skipped) && (at != NextItem ==> todo != [])
  }

  ghost predicate Inv(w: World) {
    && w.cfg.grace > 0
    && LedgerInv(w.db, w.now, w.cfg.grace)
    && BytesMatch(w.store)
    && PromotedSound(w.promoted)
    && QuarantineCatalogued(w.db, w.store.quarantine)
    && ScannerSound(w)
  }

  lemma StartSound(cfg: Config, now: Time, teams: map<Team, bool>)
    requires cfg.grace > 0
    ensures Inv(Start(cfg, now, teams))
  {
  }

  /** A release is never later than UnownedAt, and without releases UnownedAt is the creation time. */
  lemma UnownedBounds(db: Db, u: Uuid, now: Time)
    requires RefsSound(db, now) && u in db.rows
    ensures forall r | r in db.refs && db.refs[r].obj == u && db.refs[r].releasedAt.Some? :: db.refs[r].releasedAt.value <= UnownedAt(db, u)
    ensures (forall r | r in db.refs :: db.refs[r].obj != u) ==> UnownedAt(db, u) == db.rows[u].createdAt
  {
    forall r | r in db.refs && db.refs[r].obj == u && db.refs[r].releasedAt.Some?
      ensures db.refs[r].releasedAt.value <= UnownedAt(db, u)
    {
      assert db.refs[r].releasedAt.value in Releases(db, db.rows[u].team, u);
    }
    if forall r | r in db.refs :: db.refs[r].obj != u {
      assert Releases(db, db.rows[u].team, u) == {};
    }
  }

  /** The only write of the collector keeps the ledger invariant. */
  lemma TombstoneKeepsLedger(db: Db, c: Candidate, now: Time, proof: Uuid, grace: int)
    requires LedgerInv(db, now, grace) && GraceExpired(c, now, grace)
    ensures LedgerInv(FinishTx(db, c, now, proof).0, now, grace)
  {
    if FinishTx(db, c, now, proof).1 == Tombstoned {
      TombstoneKeepsProofs(db, c, now, proof);
      TombstoneKeepsGrace(db, c, now, proof, grace);
      TombstoneKeepsRest(db, c, now, proof);
      hide OneLiveRow, RowsSound, RefsSound, ProofsMatchTombstones, GraceHonoured;
    }
  }

  /** Passing the collector's second check means that nothing names the row any more but old releases. */
  lemma TombstonedWasUnowned(db: Db, c: Candidate, now: Time, proof: Uuid)
    requires RefsSound(db, now) && FinishTx(db, c, now, proof).1 == Tombstoned
    ensures Live(db, c.obj) && db.rows[c.obj].At() == c.At()
    ensures forall r | r in db.refs && db.refs[r].obj == c.obj :: db.refs[r].releasedAt.Some? && db.refs[r].releasedAt.value <= c.unownedAt
    ensures (forall r | r in db.refs :: db.refs[r].obj != c.obj) ==> db.rows[c.obj].createdAt == c.unownedAt
  {
    UnownedBounds(db, c.obj, now);
    forall r | r in db.refs && db.refs[r].obj == c.obj
      ensures db.refs[r].releasedAt.Some?
    {
      assert db.refs[r].releasedAt.None? ==> r in HoldingRefs(db, c.team, c.obj);
    }
  }

  lemma TombstoneKeepsGrace(db: Db, c: Candidate, now: Time, proof: Uuid, grace: int)
    requires RefsSound(db, now) && GraceHonoured(db, grace) && GraceExpired(c, now, grace)
    requires FinishTx(db, c, now, proof).1 == Tombstoned
    ensures GraceHonoured(FinishTx(db, c, now, proof).0, grace)
  {
    TombstonedWasUnowned(db, c, now, proof);
    var db' := FinishTx(db, c, now, proof).0;
    hide RefsSound, SameCatalogueRow, Blocker;
    assert forall u | u in db'.rows && u != c.obj :: db'.rows[u] == db.rows[u];
  }

  lemma TombstoneKeepsRest(db: Db, c: Candidate, now: Time, proof: Uuid)
    requires OneLiveRow(db) && RowsSound(db, now) && RefsSound(db, now) && FinishTx(db, c, now, proof).1 == Tombstoned
    ensures var db' := FinishTx(db, c, now, proof).0; OneLiveRow(db') && RowsSound(db', now) && RefsSound(db', now)
  {
    hide OneLiveRow, RowsSound, RefsSound;
    TombstonedWasUnowned(db, c, now, proof);
    FinishShape(db, c, now, proof);
    hide FinishTx;
    var db' := FinishTx(db, c, now, proof).0;
    TombstonedOneLiveRow(db, db', c.obj);
    TombstonedRowsSound(db, db', c.obj, now);
    TombstonedRefsSound(db, db', c.obj, now);
  }

  lemma FinishShape(db: Db, c: Candidate, now: Time, proof: Uuid)
    requires FinishTx(db, c, now, proof).1 == Tombstoned
    ensures var db' := FinishTx(db, c, now, proof).0;
      && c.obj in db.rows && db'.refs == db.refs
      && db'.rows == db.rows[c.obj := db.rows[c.obj].(tombstonedAt := Some(now))]
  {
    hide Blocker;
  }

  lemma TombstonedOneLiveRow(db: Db, db': Db, u: Uuid)
    requires OneLiveRow(db) && u in db.rows && db'.rows.Keys == db.rows.Keys && db'.rows[u].tombstonedAt.Some?
    requires forall v | v in db.rows && v != u :: db'.rows[v] == db.rows[v]
    ensures OneLiveRow(db')
  {
    assert forall v | Live(db', v) :: Live(db, v);
  }

  lemma TombstonedRowsSound(db: Db, db': Db, u: Uuid, now: Time)
    requires RowsSound(db, now) && u in db.rows && db'.rows == db.rows[u := db.rows[u].(tombstonedAt := Some(now))]
    ensures RowsSound(db', now)
  {
  }

  lemma TombstonedRefsSound(db: Db, db': Db, u: Uuid, now: Time)
    requires RefsSound(db, now) && db'.refs == db.refs && u in db.rows
    requires db'.rows == db.rows[u := db.rows[u].(tombstonedAt := Some(now))]
    requires forall r | r in db.refs && db.refs[r].obj == u :: db.refs[r].releasedAt.Some?
    ensures RefsSound(db', now)
  {
  }

  lemma TombstoneKeepsProofs(db: Db, c: Candidate, now: Time, proof: Uuid)
    requires ProofsMatchTombstones(db) && FinishTx(db, c, now, proof).1 == Tombstoned
    ensures ProofsMatchTombstones(FinishTx(db, c, now, proof).0)
  {
    var db' := FinishTx(db, c, now, proof).0;
    assert Proves(db', proof, c.obj);
    forall p | p in db.proofs
      ensures Proves(db', p, db.proofs[p].obj) && db.proofs[p].obj != c.obj
    {
      assert Proves(db, p, db.proofs[p].obj);
    }
    forall u | u in db'.rows && db'.rows[u].tombstonedAt.Some?
      ensures exists p :: Proves(db', p, u)
    {
      if u != c.obj {
        var p :| Proves(db, p, u);
        assert Proves(db', p, u);
      }
    }
  }

  lemma OthersKeepInv(w: World, step: Step)
    requires Inv(w) && !IsCollector(step)
    ensures Inv(Next(w, step))
  {
    hide Next, LedgerInv, Grows, BytesMatch, PromotedSound, QuarantineCatalogued, ScannerSound;
    OthersGrow(w, step);
    var w' := Next(w, step);
    GrowthKeepsLedger(w.db, w'.db, w.now, w.cfg.grace);
    LedgerAges(w'.db, w.now, w'.now, w.cfg.grace);
    OthersKeepBytes(w, step);
    RowsPersist(w.db, w'.db, w.now, w.cfg.grace);
    GrowthKeepsCatalogued(w.db, w'.db, w.store.quarantine);
    GrowthKeepsScanner(w, w');
  }

  lemma RowsPersist(db: Db, db': Db, now: Time, grace: int)
    requires Grows(db, db', now, grace)
    ensures forall u | u in db.rows :: u in db'.rows && db'.rows[u] == db.rows[u]
  {
  }

  lemma GrowthKeepsCatalogued(db: Db, db': Db, quarantine: map<Coord, Blob>)
    requires QuarantineCatalogued(db, quarantine) && forall u | u in db.rows :: u in db'.rows && db'.rows[u] == db.rows[u]
    ensures QuarantineCatalogued(db', quarantine)
  {
    forall c | c in quarantine
      ensures exists u :: u in db'.rows && db'.rows[u].At() == c
    {
      var u :| u in db.rows && db.rows[u].At() == c;
      assert u in db'.rows && db'.rows[u].At() == c;
    }
  }

  lemma GrowthKeepsScanner(w: World, w': World)
    requires ScannerSound(w) && w'.scanner == w.scanner && w'.cfg == w.cfg && w.now <= w'.now
    requires w'.store.quarantine == w.store.quarantine
    requires forall u | u in w.db.rows :: u in w'.db.rows && w'.db.rows[u] == w.db.rows[u]
    ensures ScannerSound(w')
  {
    if w.scanner.Reconciling? {
      forall c | c in w.scanner.skipped
        ensures exists u :: Live(w'.db, u) && w'.db.rows[u].At() == c
      {
        var u :| Live(w.db, u) && w.db.rows[u].At() == c;
        assert Live(w'.db, u);
      }
    }
  }

  lemma LedgerAges(db: Db, now: Time, later: Time, grace: int)
    requires LedgerInv(db, now, grace) && now <= later
    ensures LedgerInv(db, later, grace)
  {
  }

  lemma OthersKeepBytes(w: World, step: Step)
    requires BytesMatch(w.store) && !IsCollector(step)
    ensures BytesMatch(Next(w, step).store)
  {
  }

  lemma CollectorKeepsInv(w: World, step: Step)
    requires Inv(w) && IsCollector(step)
    ensures Inv(NextCollector(w, step))
  {
    var w' := NextCollector(w, step);
    match step
    case BeginDelete(c) => BeginDeleteSound(w, c);
    case FinishDelete(proof) =>
      if w.scanner.Deleting? {
        TombstoneKeepsLedger(w.db, w.scanner.candidate, w.now, proof, w.cfg.grace);
        FinishDeleteSound(w, proof);
      }
    case MoveAside => MoveAsideSound(w);
    case PutBack =>
    case Discard =>
    case BeginReconcile(listing) =>
    case LookForLiveRow =>
    case LookForTombstone(latest) => ListedItemChecked(w, latest);
    case Crash =>
    case _ => ListedItemHandled(w, step);
  }

  lemma BeginDeleteSound(w: World, c: Candidate)
    requires Inv(w)
    ensures Inv(NextCollector(w, BeginDelete(c)))
  {
  }

  lemma MoveAsideSound(w: World)
    requires Inv(w)
    ensures Inv(NextCollector(w, MoveAside))
  {
    hide LedgerInv;
  }

  lemma FinishDeleteSound(w: World, proof: Uuid)
    requires Inv(w) && w.scanner.Deleting?
    requires LedgerInv(FinishTx(w.db, w.scanner.candidate, w.now, proof).0, w.now, w.cfg.grace)
    ensures Inv(NextCollector(w, FinishDelete(proof)))
  {
    hide LedgerInv;
    var w' := NextCollector(w, FinishDelete(proof));
    forall c | c in w'.store.quarantine
      ensures exists u :: u in w'.db.rows && w'.db.rows[u].At() == c
    {
      var u :| u in w.db.rows && w.db.rows[u].At() == c;
      assert u in w'.db.rows && w'.db.rows[u].At() == c;
    }
  }

  lemma AdvanceListing(db: Db, quarantine: set<Coord>, todo: seq<Coord>, skipped: set<Coord>)
    requires ListingSound(db, quarantine, todo, skipped) && todo != []
    ensures ListingSound(db, quarantine - {todo[0]}, todo[1..], skipped)
    ensures (exists u :: Live(db, u) && db.rows[u].At() == todo[0]) ==> ListingSound(db, quarantine, todo[1..], skipped + {todo[0]})
  {
    assert todo == [todo[0]] + todo[1..];
    assert Items(todo) == {todo[0]} + Items(todo[1..]);
    assert todo[0] !in Items(todo[1..]);
  }

  lemma StoreStepsMatch(s: Store, c: Coord)
    requires BytesMatch(s)
    ensures BytesMatch(Quarantine(s, c)) && BytesMatch(Restore(s, c)) && BytesMatch(Destroy(s, c))
  {
  }

  lemma ListedItemHandled(w: World, step: Step)
    requires Inv(w) && (step.RestoreListed? || step.DestroyListed?)
    ensures Inv(NextCollector(w, step))
  {
    hide LedgerInv, BytesMatch, PromotedSound, ListingSound;
    var w' := NextCollector(w, step);
    if w' != w {
      AdvanceListing(w.db, w.store.quarantine.Keys, w.scanner.todo, w.scanner.skipped);
      assert w'.store.quarantine.Keys == w.store.quarantine.Keys - {w.scanner.todo[0]};
      StoreStepsMatch(w.store, w.scanner.todo[0]);
    }
  }

  lemma ListedItemChecked(w: World, latest: Uuid)
    requires Inv(w)
    ensures Inv(NextCollector(w, LookForTombstone(latest)))
  {
    hide LedgerInv, BytesMatch, PromotedSound;
    if At(w, NoLiveRow) && NextCollector(w, LookForTombstone(latest)).scanner.at == NextItem {
      var c := w.scanner.todo[0];
      assert c in w.store.quarantine;
      var u :| u in w.db.rows && w.db.rows[u].At() == c;
      assert Live(w.db, latest);
      AdvanceListing(w.db, w.store.quarantine.Keys, w.scanner.todo, w.scanner.skipped);
    }
  }

  /** Everything that holds at the start holds in every reachable world. */
  lemma {:induction false} RunKeepsInv(w: World, steps: seq<Step>)
    requires Inv(w)
    ensures Inv(Run(w, steps))
    decreases |steps|
  {
    if steps != [] {
      if IsCollector(steps[0]) {
        CollectorKeepsInv(w, steps[0]);
        assert Next(w, steps[0]) == NextCollector(w, steps[0]);
      } else {
        OthersKeepInv(w, steps[0]);
      }
      RunKeepsInv(Next(w, steps[0]), steps[1..]);
    }
  }

  // ---------- which rows are safe ----------

  /** The collector may be about to unlink the quarantined copy at c. */
  ghost predicate Condemned(w: World, c: Coord) {
    match w.scanner
    case Idle => false
    case Deleting(candidate, phase) => phase == MustDestroy && candidate.At() == c
    case Reconciling(todo, _, at) =>
      && todo != [] && todo[0] == c
      && (at == DestroyItem || (at == NoLiveRow && exists v :: NewestRow(w.db, c, v) && w.db.rows[v].tombstonedAt.Some?))
  }

  /** Bytes at the live path, or in quarantine and not about to be unlinked. */
  ghost predicate Backed(w: World, c: Coord) {
    c in w.store.live || (c in w.store.quarantine && !Condemned(w, c))
  }

  ghost predicate KeepsBytes(w: World, u: Uuid) {
    u in w.db.rows && (Live(w.db, u) ==> Holds(w.store, w.db.rows[u].At()))
  }

  /** Rows are never removed, moved or revived. */
  ghost predicate Ages(before: Db, after: Db, u: Uuid)
    requires u in before.rows
  {
    u in after.rows && after.rows[u].At() == before.rows[u].At() && (Live(after, u) ==> Live(before, u))
  }

  lemma RowsAge(w: World, step: Step, u: Uuid)
    requires Inv(w) && u in w.db.rows
    ensures Ages(w.db, Next(w, step).db, u)
  {
    if IsCollector(step) {
      CollectorWrites(w, step);
    } else {
      OthersGrow(w, step);
    }
    hide Next, Inv;
  }

  /** The collector writes the ledger in one place only. */
  lemma CollectorWrites(w: World, step: Step)
    requires IsCollector(step)
    ensures Next(w, step) == NextCollector(w, step)
    ensures Next(w, step).db != w.db ==>
      step.FinishDelete? && w.scanner.Deleting? && FinishTx(w.db, w.scanner.candidate, w.now, step.proof).1 == Tombstoned
    ensures forall u | u in w.db.rows :: Ages(w.db, Next(w, step).db, u)
  {
    hide SameCatalogueRow, Blocker;
  }

  lemma OthersKeepBacked(w: World, step: Step, u: Uuid)
    requires Inv(w) && !IsCollector(step) && Live(w.db, u) && Backed(w, w.db.rows[u].At())
    ensures Backed(Next(w, step), w.db.rows[u].At())
  {
    OthersGrow(w, step);
    var w' := Next(w, step);
    var c := w.db.rows[u].At();
    hide Next, LedgerInv;
    forall v | NewestRow(w'.db, c, v) && w'.db.rows[v].tombstonedAt.Some?
      ensures NewestRow(w.db, c, v)
    {
      assert v in w.db.rows;
    }
  }

  lemma CollectorKeepsBacked(w: World, step: Step, u: Uuid)
    requires Inv(w) && IsCollector(step) && Live(w.db, u) && Backed(w, w.db.rows[u].At())
    ensures var w' := NextCollector(w, step); Live(w'.db, u) ==> Backed(w', w.db.rows[u].At())
  {
    if step.FinishDelete? {
      FinishKeepsBacked(w, step.proof, u);
    } else {
      var c := w.db.rows[u].At();
      assert u in LiveRows(w.db, c.team, c.digest);
      MovesKeepBacked(w, step, c);
    }
    hide Inv, NextCollector;
  }

  lemma MovesKeepBacked(w: World, step: Step, c: Coord)
    requires IsCollector(step) && !step.FinishDelete? && Backed(w, c) && LiveRows(w.db, c.team, c.digest) != {}
    ensures Backed(NextCollector(w, step), c)
  {
    hide RecheckTx;
    match step
    case LookForTombstone(v) => hide LiveRows;
    case _ =>
  }

  /** A tombstone for another row never condemns the bytes of this one: the duplicate fence. */
  lemma FinishKeepsBacked(w: World, proof: Uuid, u: Uuid)
    requires Inv(w) && Live(w.db, u) && Backed(w, w.db.rows[u].At())
    ensures var w' := NextCollector(w, FinishDelete(proof)); Live(w'.db, u) ==> Backed(w', w.db.rows[u].At())
  {
    hide LedgerInv;
    if w.scanner.Deleting? && FinishTx(w.db, w.scanner.candidate, w.now, proof).1 == Tombstoned {
      LedgerHasRefs(w);
      TombstonedWasUnowned(w.db, w.scanner.candidate, w.now, proof);
      assert w.db.rows[u].At() == w.scanner.candidate.At() ==> u == w.scanner.candidate.obj;
    }
  }

  lemma LedgerHasRefs(w: World)
    requires LedgerInv(w.db, w.now, w.cfg.grace)
    ensures RefsSound(w.db, w.now) && OneLiveRow(w.db)
  {
  }

  lemma {:induction false} BackedRowsKeepBytes(w: World, steps: seq<Step>, u: Uuid)
    requires Inv(w) && u in w.db.rows && (Live(w.db, u) ==> Backed(w, w.db.rows[u].At()))
    ensures KeepsBytes(Run(w, steps), u)
    ensures Ages(w.db, Run(w, steps).db, u)
    ensures Live(Run(w, steps).db, u) ==> Backed(Run(w, steps), w.db.rows[u].At())
    decreases |steps|
  {
    hide Next, Inv, Backed;
    if steps == [] {
      BackedHolds(w, u);
    } else {
      BackedStep(w, steps[0], u);
      BackedRowsKeepBytes(Next(w, steps[0]), steps[1..], u);
    }
  }

  lemma BackedHolds(w: World, u: Uuid)
    requires u in w.db.rows && (Live(w.db, u) ==> Backed(w, w.db.rows[u].At()))
    ensures KeepsBytes(w, u)
  {
  }

  lemma BackedStep(w: World, step: Step, u: Uuid)
    requires Inv(w) && u in w.db.rows && (Live(w.db, u) ==> Backed(w, w.db.rows[u].At()))
    ensures var w' := Next(w, step);
      Inv(w') && Ages(w.db, w'.db, u) && (Live(w'.db, u) ==> Backed(w', w.db.rows[u].At()))
  {
    hide Inv, Backed;
    RowsAge(w, step, u);
    RunKeepsInv(w, [step]);
    RunOne(w, step);
    if Live(w.db, u) {
      if IsCollector(step) {
        CollectorKeepsBacked(w, step, u);
        CollectorTakesIts(w, step);
      } else {
        OthersKeepBacked(w, step, u);
      }
    }
    hide Next, NextCollector;
  }

  lemma CollectorTakesIts(w: World, step: Step)
    requires IsCollector(step)
    ensures Next(w, step) == NextCollector(w, step)
  {
    hide NextCollector;
  }

  /** Main result. From any reachable world on, a live row keeps its bytes in every continuation, crashes
      included, exactly when it is backed now. */
  lemma ByteSafetyExactly(w: World, u: Uuid)
    requires Inv(w) && Live(w.db, u)
    ensures Backed(w, w.db.rows[u].At()) <==> forall steps: seq<Step> :: KeepsBytes(Run(w, steps), u)
  {
    if Backed(w, w.db.rows[u].At()) {
      forall steps: seq<Step>
        ensures KeepsBytes(Run(w, steps), u)
      {
        BackedRowsKeepBytes(w, steps, u);
      }
    } else {
      UnbackedRowsCanLoseBytes(w, u);
    }
  }

  lemma UnbackedRowsCanLoseBytes(w: World, u: Uuid)
    requires Live(w.db, u) && !Backed(w, w.db.rows[u].At())
    ensures exists steps: seq<Step> :: !KeepsBytes(Run(w, steps), u)
  {
    var c := w.db.rows[u].At();
    if c !in w.store.quarantine {
      assert !KeepsBytes(Run(w, []), u);
    } else if w.scanner.Deleting? {
      RunOne(w, Discard);
      assert !KeepsBytes(Run(w, [Discard]), u);
    } else if w.scanner.at == DestroyItem {
      RunOne(w, DestroyListed);
      assert !KeepsBytes(Run(w, [DestroyListed]), u);
    } else {
      var v :| NewestRow(w.db, c, v) && w.db.rows[v].tombstonedAt.Some?;
      CondemnedInTwoSteps(w, u, v);
      assert !KeepsBytes(Run(w, [LookForTombstone(v)] + [DestroyListed]), u);
    }
  }

  lemma CondemnedInTwoSteps(w: World, u: Uuid, v: Uuid)
    requires Live(w.db, u) && w.db.rows[u].At() !in w.store.live
    requires At(w, NoLiveRow) && w.scanner.todo[0] == w.db.rows[u].At()
    requires NewestRow(w.db, w.db.rows[u].At(), v) && w.db.rows[v].tombstonedAt.Some?
    ensures !KeepsBytes(Run(w, [LookForTombstone(v)] + [DestroyListed]), u)
  {
    var w1 := Next(w, LookForTombstone(v));
    RunAppend(w, [LookForTombstone(v)], [DestroyListed]);
    RunOne(w, LookForTombstone(v));
    RunOne(w1, DestroyListed);
    hide Run;
  }

  /** The promise of the protocol: a row whose bytes were at the live path when it committed keeps them,
      intact and named by its digest, at the live path or in quarantine, for as long as it is live. */
  lemma {:induction false} CommittedBytesSurvive(committed: World, u: Uuid, steps: seq<Step>)
    requires Inv(committed) && Live(committed.db, u) && committed.db.rows[u].At() in committed.store.live
    ensures var w := Run(committed, steps);
      && u in w.db.rows
      && var c := w.db.rows[u].At();
      && c == committed.db.rows[u].At()
      && (Live(w.db, u) ==>
            || (c in w.store.live && DigestOf(w.store.live[c]) == w.db.rows[u].digest)
            || (c in w.store.quarantine && DigestOf(w.store.quarantine[c]) == w.db.rows[u].digest))
  {
    BackedRowsKeepBytes(committed, steps, u);
    RunKeepsInv(committed, steps);
    hide Run, LedgerInv, PromotedSound, QuarantineCatalogued, ScannerSound;
  }
}
