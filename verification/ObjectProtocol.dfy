/** The object lifecycle as a state machine. Every transaction and every locked store operation is one
    step; uploaders, session commands, the hold scan, other owners and one collector interleave freely, and
    the collector may lose its memory between any two of its steps. */
module ObjectProtocol {
  import opened Wrappers
  import opened LocalStore
  import opened ObjectLedger

  datatype Phase = Rechecked | Quarantined | MustRestore | MustDestroy
  datatype ListPhase = NextItem | NoLiveRow | RestoreItem | DestroyItem

  /** Where the one collector stands: inside delete_candidate, or inside reconcile_quarantine with the
      listing still to visit and the items it has passed over. */
  datatype Scanner =
    | Idle
    | Deleting(candidate: Candidate, phase: Phase)
    | Reconciling(todo: seq<Coord>, skipped: set<Coord>, at: ListPhase)

  /** `promoted` is every stat a promotion ever acknowledged: a catalogue transaction can only follow one. */
  datatype World = World(cfg: Config, now: Time, db: Db, store: Store, promoted: set<Stat>, scanner: Scanner)

  datatype Step =
    // everyone but the collector
    | Tick(to: Time)
    | PromoteBytes(team: Team, staged: Blob)
    | Upload(stat: Stat, requested: Option<Key>, ids: Ids)
    | Catalogue(stat: Stat, owner: Option<Owner>, row: Uuid, ref: Uuid)
    | Refer(obj: Uuid, purpose: Purpose, holder: Owner, ref: Uuid)
    | ReleaseOther(ref: Uuid, stamp: Time)
    | Reserve(team: Team, token: Token, task: Uuid, generation: int)
    | Consume(team: Team, token: Token, stamp: Time)
    | CancelHandle(team: Team, digest: Digest, stamp: Time)
    | CancelSession(team: Team, token: Token, stamp: Time)
    | ExpireHolds(picked: set<Uuid>, stamp: Time)
    | SetIntents(intents: map<Uuid, CleanupIntent>)
    // the collector
    | BeginDelete(candidate: Candidate)
    | MoveAside
    | FinishDelete(proof: Uuid)
    | PutBack
    | Discard
    | BeginReconcile(listing: seq<Coord>)
    | LookForLiveRow
    | LookForTombstone(latest: Uuid)
    | RestoreListed
    | DestroyListed
    | Crash

  predicate IsCollector(step: Step) {
    || step.BeginDelete? || step.MoveAside? || step.FinishDelete? || step.PutBack? || step.Discard?
    || step.BeginReconcile? || step.LookForLiveRow? || step.LookForTombstone? || step.RestoreListed?
    || step.DestroyListed? || step.Crash?
  }

  /** A release stamp is read before the write lock is granted: it may lag, but by less than the grace. */
  predicate Timely(w: World, stamp: Time) {
    w.now - w.cfg.grace < stamp <= w.now
  }

  /** The newest catalogue row of a location, ties broken by the database as it likes. */
  predicate NewestRow(db: Db, c: Coord, u: Uuid) {
    u in db.rows && db.rows[u].At() == c && forall v | v in db.rows && db.rows[v].At() == c :: db.rows[v].createdAt <= db.rows[u].createdAt
  }

  predicate Lists(listing: seq<Coord>, quarantine: map<Coord, Blob>) {
    && (forall i, j | 0 <= i < j < |listing| :: listing[i] != listing[j])
    && (set c | c in listing) == quarantine.Keys
  }

  /** A step that is not enabled leaves the world as it is. */
  function Next(w: World, step: Step): World {
    match step
    case Tick(to) => if w.now <= to then w.(now := to) else w
    case PromoteBytes(team, staged) =>
      var stat := Stat(team, DigestOf(staged), |staged|);
      (match Promote(w.store, stat.At(), staged)
       case Failure(_) => w
       case Success(store) => w.(store := store, promoted := w.promoted + {stat}))
    case Upload(stat, requested, ids) =>
      if stat in w.promoted then w.(db := UploadTx(w.db, w.now, stat, requested, ids).0) else w
    case Catalogue(stat, owner, row, ref) =>
      if stat in w.promoted && (owner.Some? ==> owner.value.OtherOwner?) then w.(db := CatalogTx(w.db, w.now, stat, owner, row, ref)) else w
    case Refer(obj, purpose, holder, ref) =>
      if Live(w.db, obj) && ref !in w.db.refs && purpose != UploadPending && holder.OtherOwner?
      then w.(db := AddRef(w.db, ref, Ref(w.db.rows[obj].team, obj, purpose, holder, w.now, None, None))) else w
    case ReleaseOther(ref, stamp) =>
      if Held(w.db, ref) && !w.db.refs[ref].owner.UploadSession? && Timely(w, stamp)
      then w.(db := ReleaseRefs(w.db, {ref}, stamp)) else w
    case Reserve(team, token, task, generation) => w.(db := ReserveTx(w.db, team, token, task, generation).0)
    case Consume(team, token, stamp) => if Timely(w, stamp) then w.(db := ConsumeTx(w.db, team, token, stamp).0) else w
    case CancelHandle(team, digest, stamp) =>
      if Timely(w, stamp) then w.(db := CancelHandleTx(w.db, team, digest, stamp).0) else w
    case CancelSession(team, token, stamp) =>
      if Timely(w, stamp) then w.(db := CancelSessionTx(w.db, team, token, stamp).0) else w
    case ExpireHolds(picked, stamp) =>
      if Timely(w, stamp) && (forall r | r in picked :: Abandoned(w.db, r, stamp - w.cfg.ttl))
      then w.(db := ExpireTx(w.db, picked, stamp)) else w
    case SetIntents(intents) => w.(db := w.db.(intents := intents))
    case _ => NextCollector(w, step)
  }

  function NextCollector(w: World, step: Step): World {
    match step
    case BeginDelete(c) =>
      if w.scanner.Idle? && RecheckTx(w.db, c, w.now, w.cfg.grace).None? then w.(scanner := Deleting(c, Rechecked)) else w
    case MoveAside =>
      if w.scanner.Deleting? && w.scanner.phase == Rechecked then
        if w.scanner.candidate.At() in w.store.live
        then w.(store := Quarantine(w.store, w.scanner.candidate.At()), scanner := w.scanner.(phase := Quarantined))
        else w.(scanner := Idle)
      else w
    case FinishDelete(proof) =>
      if w.scanner.Deleting? && w.scanner.phase == Quarantined then
        var (db, finish) := FinishTx(w.db, w.scanner.candidate, w.now, proof);
        w.(db := db,
           scanner := match finish
                      case Tombstoned => w.scanner.(phase := MustDestroy)
                      case Faulted => Idle
                      case _ => w.scanner.(phase := MustRestore))
      else w
    case PutBack =>
      if w.scanner.Deleting? && w.scanner.phase == MustRestore
      then w.(store := Restore(w.store, w.scanner.candidate.At()), scanner := Idle) else w
    case Discard =>
      if w.scanner.Deleting? && w.scanner.phase == MustDestroy
      then w.(store := Destroy(w.store, w.scanner.candidate.At()), scanner := Idle) else w
    case BeginReconcile(listing) =>
      if w.scanner.Idle? && Lists(listing, w.store.quarantine) then w.(scanner := Reconciling(listing, {}, NextItem)) else w
    case LookForLiveRow =>
      if At(w, NextItem) then
        var c := w.scanner.todo[0];
        w.(scanner := w.scanner.(at := if LiveRows(w.db, c.team, c.digest) == {} then NoLiveRow else RestoreItem))
      else w
    case LookForTombstone(latest) =>
      if At(w, NoLiveRow) then
        var c := w.scanner.todo[0];
        if NewestRow(w.db, c, latest) && w.db.rows[latest].tombstonedAt.Some? then w.(scanner := w.scanner.(at := DestroyItem))
        else if NewestRow(w.db, c, latest) || forall u | u in w.db.rows :: w.db.rows[u].At() != c
        then w.(scanner := Reconciling(w.scanner.todo[1..], w.scanner.skipped + {c}, NextItem))
        else w
      else w
    case RestoreListed =>
      if At(w, RestoreItem)
      then w.(store := Restore(w.store, w.scanner.todo[0]), scanner := Reconciling(w.scanner.todo[1..], w.scanner.skipped, NextItem)) else w
    case DestroyListed =>
      if At(w, DestroyItem)
      then w.(store := Destroy(w.store, w.scanner.todo[0]), scanner := Reconciling(w.scanner.todo[1..], w.scanner.skipped, NextItem)) else w
    case Crash => w.(scanner := Idle)
    case _ => w
  }

  predicate At(w: World, p: ListPhase) {
    w.scanner.Reconciling? && w.scanner.at == p && w.scanner.todo != []
  }

  predicate ReconcileComplete(w: World) {
    w.scanner.Reconciling? && w.scanner.at == NextItem && w.scanner.todo == []
  }

  function Run(w: World, steps: seq<Step>): World
    decreases |steps|
  {
    if steps == [] then w else Run(Next(w, steps[0]), steps[1..])
  }

  lemma {:induction false} RunAppend(w: World, a: seq<Step>, b: seq<Step>)
    ensures Run(w, a + b) == Run(Run(w, a), b)
    decreases |a|
  {
    if a == [] {
      assert a + b == b;
    } else {
      assert (a + b)[1..] == a[1..] + b;
      RunAppend(Next(w, a[0]), a[1..], b);
    }
  }

  lemma RunOne(w: World, step: Step)
    ensures Run(w, [step]) == Next(w, step)
  {
    assert Run(Next(w, step), [step][1..]) == Next(w, step);
  }

  function Start(cfg: Config, now: Time, teams: map<Team, bool>): World {
    World(cfg, now, Db(map[], map[], map[], map[], map[], teams), Store(map[], map[]), {}, Idle)
  }

  // ---------- the ledger invariant ----------

  /** At most one live row per Team and digest. */
  ghost predicate OneLiveRow(db: Db) {
    forall u, v | Live(db, u) && Live(db, v) && db.rows[u].At() == db.rows[v].At() :: u == v
  }

  ghost predicate RowsSound(db: Db, now: Time) {
    forall u | u in db.rows ::
      && db.rows[u].size == |db.rows[u].digest.preimage|
      && db.rows[u].createdAt <= now
      && (db.rows[u].tombstonedAt.Some? ==> db.rows[u].tombstonedAt.value <= now)
  }

  /** References name rows of their own Team; an unreleased one names a live row. */
  ghost predicate RefsSound(db: Db, now: Time) {
    forall r | r in db.refs ::
      && db.refs[r].obj in db.rows
      && db.refs[r].team == db.rows[db.refs[r].obj].team
      && db.refs[r].createdAt <= now
      && (db.refs[r].releasedAt.Some? ==> db.refs[r].releasedAt.value <= now)
      && (db.refs[r].releasedAt.None? ==> Live(db, db.refs[r].obj))
  }

  ghost predicate Proves(db: Db, p: Uuid, u: Uuid) {
    && p in db.proofs && u in db.rows && db.proofs[p].obj == u
    && db.rows[u].tombstonedAt == Some(db.proofs[p].unlinkedAt)
    && db.proofs[p].team == db.rows[u].team && db.proofs[p].digest == db.rows[u].digest && db.proofs[p].size == db.rows[u].size
  }

  /** Tombstoned rows and delete proofs correspond one to one. */
  ghost predicate ProofsMatchTombstones(db: Db) {
    && (forall p | p in db.proofs :: Proves(db, p, db.proofs[p].obj))
    && (forall p, q | p in db.proofs && q in db.proofs && db.proofs[p].obj == db.proofs[q].obj :: p == q)
    && (forall u | u in db.rows && db.rows[u].tombstonedAt.Some? :: exists p :: Proves(db, p, u))
  }

  /** When a row was tombstoned, the last release of it, or its creation if nobody ever held it, lay a
      whole grace period back. */
  ghost predicate GraceHonoured(db: Db, grace: int) {
    forall u | u in db.rows && db.rows[u].tombstonedAt.Some? ::
      && (forall r | r in db.refs && db.refs[r].obj == u ::
            db.refs[r].releasedAt.Some? && db.refs[r].releasedAt.value <= db.rows[u].tombstonedAt.value - grace)
      && ((forall r | r in db.refs :: db.refs[r].obj != u) ==> db.rows[u].createdAt <= db.rows[u].tombstonedAt.value - grace)
  }

  ghost predicate LedgerInv(db: Db, now: Time, grace: int) {
    OneLiveRow(db) && RowsSound(db, now) && RefsSound(db, now) && ProofsMatchTombstones(db) && GraceHonoured(db, grace)
  }

  // ---------- what anyone but the collector can do to the ledger ----------

  ghost predicate Kept(before: Ref, after: Ref, now: Time, grace: int) {
    || after == before
    || (before.releasedAt.None? && after.releasedAt.Some? && now - grace < after.releasedAt.value <= now
        && after == before.(releasedAt := after.releasedAt))
  }

  /** Rows and references are only added, new references are unreleased and name live rows, and the only
      change to an old reference is a timely release. */
  ghost predicate Grows(db: Db, db': Db, now: Time, grace: int) {
    && (forall u | u in db.rows :: u in db'.rows && db'.rows[u] == db.rows[u])
    && (forall u | u in db'.rows && u !in db.rows ::
          && db'.rows[u].createdAt == now && db'.rows[u].tombstonedAt.None? && db'.rows[u].size == |db'.rows[u].digest.preimage|
          && (forall v | Live(db', v) && db'.rows[v].At() == db'.rows[u].At() :: v == u))
    && (forall r | r in db.refs :: r in db'.refs && Kept(db.refs[r], db'.refs[r], now, grace))
    && (forall r | r in db'.refs && r !in db.refs ::
          && db'.refs[r].createdAt == now && db'.refs[r].releasedAt.None? && Live(db', db'.refs[r].obj)
          && db'.refs[r].team == db'.rows[db'.refs[r].obj].team)
    && db'.proofs == db.proofs
  }

  lemma GrowthKeepsLedger(db: Db, db': Db, now: Time, grace: int)
    requires LedgerInv(db, now, grace) && Grows(db, db', now, grace)
    ensures LedgerInv(db', now, grace)
  {
    GrowthKeepsOneLiveRow(db, db', now, grace);
    GrowthKeepsRefs(db, db', now, grace);
    GrowthKeepsProofs(db, db', now, grace);
    GrowthKeepsGrace(db, db', now, grace);
    hide OneLiveRow, RefsSound, ProofsMatchTombstones, GraceHonoured;
  }

  lemma GrowthKeepsOneLiveRow(db: Db, db': Db, now: Time, grace: int)
    requires OneLiveRow(db) && Grows(db, db', now, grace)
    ensures OneLiveRow(db')
  {
    forall u, v | Live(db', u) && Live(db', v) && db'.rows[u].At() == db'.rows[v].At()
      ensures u == v
    {
      if u in db.rows && v in db.rows {
        assert Live(db, u) && Live(db, v);
      }
    }
  }

  lemma GrowthKeepsRefs(db: Db, db': Db, now: Time, grace: int)
    requires RefsSound(db, now) && Grows(db, db', now, grace)
    ensures RefsSound(db', now)
  {
    forall r | r in db'.refs && r in db.refs
      ensures db'.refs[r].obj in db.rows && Kept(db.refs[r], db'.refs[r], now, grace)
    {
      assert db.refs[r].obj in db.rows;
    }
  }

  lemma GrowthKeepsProofs(db: Db, db': Db, now: Time, grace: int)
    requires ProofsMatchTombstones(db) && Grows(db, db', now, grace)
    ensures ProofsMatchTombstones(db')
  {
    forall p | p in db'.proofs
      ensures Proves(db', p, db'.proofs[p].obj)
    {
      assert Proves(db, p, db.proofs[p].obj);
    }
    forall u | u in db'.rows && db'.rows[u].tombstonedAt.Some?
      ensures exists p :: Proves(db', p, u)
    {
      assert u in db.rows;
      var p :| Proves(db, p, u);
      assert Proves(db', p, u);
    }
  }

  lemma GrowthKeepsGrace(db: Db, db': Db, now: Time, grace: int)
    requires GraceHonoured(db, grace) && Grows(db, db', now, grace)
    ensures GraceHonoured(db', grace)
  {
    forall u | u in db'.rows && db'.rows[u].tombstonedAt.Some?
      ensures forall r | r in db'.refs && db'.refs[r].obj == u :: r in db.refs && db'.refs[r] == db.refs[r]
      ensures (forall r | r in db'.refs :: db'.refs[r].obj != u) ==> forall r | r in db.refs :: db.refs[r].obj != u
    {
      assert u in db.rows;
      forall r | r in db.refs
        ensures db'.refs[r].obj == db.refs[r].obj
      {
        assert Kept(db.refs[r], db'.refs[r], now, grace);
      }
    }
  }

  /** FindLive finds the only live row of its Team and digest, whatever the size asked for. */
  lemma LiveRowUnique(db: Db, now: Time, team: Team, digest: Digest, size: nat)
    requires OneLiveRow(db) && RowsSound(db, now) && size == |digest.preimage|
    ensures FindLive(db, team, digest, size).None? <==> LiveRows(db, team, digest) == {}
    ensures FindLive(db, team, digest, size).Some? ==> LiveRows(db, team, digest) == {FindLive(db, team, digest, size).value}
  {
    var found := FindLive(db, team, digest, size);
    if found.Some? {
      forall u | u in LiveRows(db, team, digest)
        ensures u == found.value
      {
        assert Live(db, u) && Live(db, found.value);
      }
    }
  }

  ghost predicate PromotedSound(promoted: set<Stat>) {
    forall s | s in promoted :: s.size == |s.digest.preimage|
  }

  lemma ReleaseGrows(db: Db, db0: Db, picked: set<Uuid>, stamp: Time, now: Time, grace: int)
    requires now - grace < stamp <= now
    requires db0.rows == db.rows && db0.refs == db.refs && db0.proofs == db.proofs
    ensures Grows(db, ReleaseRefs(db0, picked, stamp), now, grace)
  {
  }

  lemma WithRowGrows(db: Db, now: Time, grace: int, stat: Stat, u: Uuid)
    requires OneLiveRow(db) && RowsSound(db, now) && stat.size == |stat.digest.preimage| && u !in db.rows
    ensures var db' := WithRow(db, now, stat, u);
      Grows(db, db', now, grace) && Live(db', RowFor(db, stat, u)) && db'.rows[RowFor(db, stat, u)].At() == stat.At() && db'.refs == db.refs
  {
    LiveRowUnique(db, now, stat.team, stat.digest, stat.size);
    var db' := WithRow(db, now, stat, u);
    if FindLive(db, stat.team, stat.digest, stat.size).None? {
      forall v | Live(db', v) && db'.rows[v].At() == stat.At()
        ensures v == u
      {
        assert v != u ==> v in LiveRows(db, stat.team, stat.digest);
      }
    }
  }

  lemma AddRefGrows(db: Db, db1: Db, r: Uuid, ref: Ref, now: Time, grace: int)
    requires Grows(db, db1, now, grace) && db1.refs == db.refs && r !in db.refs
    requires ref.createdAt == now && ref.releasedAt.None? && Live(db1, ref.obj) && ref.team == db1.rows[ref.obj].team
    ensures Grows(db, AddRef(db1, r, ref), now, grace)
  {
  }

  lemma OpenSessionGrows(db: Db, now: Time, grace: int, stat: Stat, keyed: bool, key: Key, ids: Ids)
    requires OneLiveRow(db) && RowsSound(db, now) && stat.size == |stat.digest.preimage| && Unused(db, ids)
    ensures Grows(db, OpenSession(db, now, stat, keyed, key, ids).0, now, grace)
  {
    WithRowGrows(db, now, grace, stat, ids.row);
    var db1 := WithRow(db, now, stat, ids.row);
    var db' := OpenSession(db, now, stat, keyed, key, ids).0;
    AddRefGrows(db, db1, ids.ref, db'.refs[ids.ref], now, grace);
  }

  lemma UploadGrows(db: Db, now: Time, grace: int, stat: Stat, requested: Option<Key>, ids: Ids)
    requires OneLiveRow(db) && RowsSound(db, now) && stat.size == |stat.digest.preimage|
    ensures Grows(db, UploadTx(db, now, stat, requested, ids).0, now, grace)
  {
    var db' := UploadTx(db, now, stat, requested, ids).0;
    var key := EffectiveKey(requested, stat);
    if db' == db {
    } else if FindSession(db, stat.team, key).None? {
      OpenSessionGrows(db, now, grace, stat, requested.Some?, key, ids);
    } else {
      var session := db.sessions[FindSession(db, stat.team, key).value];
      if !Live(db, session.obj) || db.rows[session.obj].team != stat.team {
        OpenSessionGrows(db, now, grace, stat, false, LegacyAgain(stat.digest, stat.size, ids.salt), ids);
      } else {
        hide OpenSession;
        AddRefGrows(db, db, ids.ref, Ref(stat.team, session.obj, UploadPending, PublicUpload(ids.owner), now, None, None), now, grace);
      }
    }
  }

  lemma CatalogGrows(db: Db, now: Time, grace: int, stat: Stat, owner: Option<Owner>, u: Uuid, r: Uuid)
    requires LedgerInv(db, now, grace) && stat.size == |stat.digest.preimage|
    ensures Grows(db, CatalogTx(db, now, stat, owner, u, r), now, grace)
  {
    if u !in db.rows && r !in db.refs {
      WithRowGrows(db, now, grace, stat, u);
      if owner.Some? {
        var db1 := WithRow(db, now, stat, u);
        AddRefGrows(db, db1, r, Ref(stat.team, RowFor(db, stat, u), ProcessIo, owner.value, now, None, None), now, grace);
      }
    }
  }

  lemma SessionCommandsGrow(db: Db, now: Time, grace: int, team: Team, token: Token, stamp: Time)
    requires now - grace < stamp <= now
    ensures Grows(db, ConsumeTx(db, team, token, stamp).0, now, grace)
    ensures Grows(db, CancelSessionTx(db, team, token, stamp).0, now, grace)
  {
    var s := SessionOf(db, team, token);
    if s.Some? {
      ReleaseGrows(db, SetState(db, s.value, Consumed), HoldsOf(db, s.value), stamp, now, grace);
      ReleaseGrows(db, SetState(db, s.value, Cancelled), HoldsOf(db, s.value), stamp, now, grace);
      ReleaseGrows(db, db, HoldsOf(db, s.value), stamp, now, grace);
    }
  }

  lemma CancelHandleGrows(db: Db, now: Time, grace: int, team: Team, digest: Digest, stamp: Time)
    requires now - grace < stamp <= now
    ensures Grows(db, CancelHandleTx(db, team, digest, stamp).0, now, grace)
  {
    if LiveRows(db, team, digest) != {} {
      var holds := PublicHolds(db, team, MinOf(LiveRows(db, team, digest)));
      if holds != {} {
        ReleaseGrows(db, db, {Latest(db, holds)}, stamp, now, grace);
      }
    }
  }

  lemma ExpireGrows(db: Db, now: Time, grace: int, picked: set<Uuid>, stamp: Time)
    requires now - grace < stamp <= now
    ensures Grows(db, ExpireTx(db, picked, stamp), now, grace)
  {
    ReleaseGrows(db, db, picked, stamp, now, grace);
  }

  lemma SameTablesGrow(db: Db, db': Db, now: Time, grace: int)
    requires db'.rows == db.rows && db'.refs == db.refs && db'.proofs == db.proofs
    ensures Grows(db, db', now, grace)
  {
  }

  /** Every step of everyone but the collector only lets the ledger grow, and touches neither the
      collector's memory nor any byte at rest. */
  lemma OthersGrow(w: World, step: Step)
    requires !IsCollector(step)
    requires LedgerInv(w.db, w.now, w.cfg.grace) && PromotedSound(w.promoted)
    ensures var w' := Next(w, step);
      && Grows(w.db, w'.db, w.now, w.cfg.grace) && PromotedSound(w'.promoted)
      && w'.scanner == w.scanner && w'.cfg == w.cfg && w.now <= w'.now
      && w'.store.quarantine == w.store.quarantine
      && (forall c | c in w.store.live :: c in w'.store.live && w'.store.live[c] == w.store.live[c])
  {
    hide Grows, OneLiveRow, RowsSound, RefsSound, ProofsMatchTombstones, GraceHonoured;
    hide UploadTx, CatalogTx, ConsumeTx, CancelSessionTx, CancelHandleTx, ExpireTx;
    var g := w.cfg.grace;
    SameTablesGrow(w.db, w.db, w.now, g);
    match step
    case Upload(stat, requested, ids) => if stat in w.promoted { UploadGrows(w.db, w.now, g, stat, requested, ids); }
    case Catalogue(stat, owner, row, ref) => if stat in w.promoted { CatalogGrows(w.db, w.now, g, stat, owner, row, ref); }
    case Refer(obj, purpose, holder, ref) =>
      if Live(w.db, obj) && ref !in w.db.refs {
        AddRefGrows(w.db, w.db, ref, Ref(w.db.rows[obj].team, obj, purpose, holder, w.now, None, None), w.now, g);
      }
    case ReleaseOther(ref, stamp) => if Timely(w, stamp) { ReleaseGrows(w.db, w.db, {ref}, stamp, w.now, g); }
    case Consume(team, token, stamp) => if Timely(w, stamp) { SessionCommandsGrow(w.db, w.now, g, team, token, stamp); }
    case CancelSession(team, token, stamp) => if Timely(w, stamp) { SessionCommandsGrow(w.db, w.now, g, team, token, stamp); }
    case CancelHandle(team, digest, stamp) => if Timely(w, stamp) { CancelHandleGrows(w.db, w.now, g, team, digest, stamp); }
    case ExpireHolds(picked, stamp) => if Timely(w, stamp) { ExpireGrows(w.db, w.now, g, picked, stamp); }
    case Reserve(team, token, task, generation) => SameTablesGrow(w.db, Next(w, step).db, w.now, g);
    case SetIntents(_) => SameTablesGrow(w.db, Next(w, step).db, w.now, g);
    case _ =>
  }
}
