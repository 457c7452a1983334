/** The upload session machine and the holds it owns (src/services/object_upload.py:79-361,
    src/services/object_upload_ttl.py:40-122). */
module UploadSessions {
  import opened Wrappers
  import opened LocalStore
  import opened ObjectLedger
  import opened ObjectProtocol
  import opened ByteSafety

  const TERMINAL: set<SessionState> := {Consumed, Cancelled, Expired}

  /** The session was opened by a call that sent its own key, so its hold is owned by the session. */
  predicate Keyed(db: Db, s: Uuid) {
    s in db.sessions && db.sessions[s].pendingRef.Some? && db.sessions[s].pendingRef.value in db.refs
    && db.refs[db.sessions[s].pendingRef.value].owner.UploadSession?
  }

  ghost predicate SessionSound(db: Db, s: Uuid)
    requires s in db.sessions
  {
    var session := db.sessions[s];
    && session.state in {Committed, Reserved} + TERMINAL
    && session.obj in db.rows && db.rows[session.obj].At() == Coord(session.team, session.digest)
    && session.pendingRef.Some? && session.pendingRef.value in db.refs
    && var hold := db.refs[session.pendingRef.value];
    && hold.session == Some(s) && hold.purpose == UploadPending && hold.obj == session.obj
    && (session.state in TERMINAL ==> hold.releasedAt.Some?)
    && (session.state == Committed && hold.owner.UploadSession? ==> hold.releasedAt.None?)
  }

  ghost predicate HoldSound(db: Db, r: Uuid)
    requires r in db.refs
  {
    var hold := db.refs[r];
    && (hold.session.Some? ==>
          hold.purpose == UploadPending && hold.session.value in db.sessions && db.sessions[hold.session.value].pendingRef == Some(r))
    && (hold.owner.UploadSession? ==> hold.session.Some?)
  }

  ghost predicate SessionInv(db: Db) {
    && (forall s | s in db.sessions :: SessionSound(db, s))
    && (forall r | r in db.refs :: HoldSound(db, r))
    && (forall s, t | s in db.sessions && t in db.sessions && db.sessions[s].team == db.sessions[t].team
                      && db.sessions[s].key == db.sessions[t].key :: s == t)
  }

  // ---------- every step keeps it ----------

  /** Old rows stay where they are, old references change only by release, sessions are untouched, and no
      new reference claims a session. */
  lemma QuietTablesKeepSessions(db: Db, db': Db, now: Time, grace: int)
    requires SessionInv(db) && db'.sessions == db.sessions
    requires forall u | u in db.rows :: u in db'.rows && db'.rows[u].At() == db.rows[u].At()
    requires forall r | r in db.refs :: r in db'.refs && Kept(db.refs[r], db'.refs[r], now, grace)
    requires forall r | r in db'.refs && r !in db.refs :: db'.refs[r].session.None? && !db'.refs[r].owner.UploadSession?
    requires forall s | s in db.sessions && Keyed(db, s) && db.sessions[s].state == Committed ::
               db'.refs[db.sessions[s].pendingRef.value].releasedAt.None?
    ensures SessionInv(db')
  {
    forall s | s in db'.sessions
      ensures SessionSound(db', s)
    {
      assert SessionSound(db, s);
    }
    forall r | r in db'.refs
      ensures HoldSound(db', r)
    {
      if r in db.refs {
        assert HoldSound(db, r);
      }
    }
  }

  lemma OpenSessionSound(db: Db, now: Time, grace: int, stat: Stat, keyed: bool, key: Key, ids: Ids)
    requires SessionInv(db) && OneLiveRow(db) && RowsSound(db, now) && stat.size == |stat.digest.preimage| && Unused(db, ids)
    requires SessionsFor(db, stat.team, key) == {}
    ensures SessionInv(OpenSession(db, now, stat, keyed, key, ids).0)
  {
    WithRowGrows(db, now, grace, stat, ids.row);
    AddSessionSound(db, WithRow(db, now, stat, ids.row), now, stat, keyed, key, ids);
    hide SessionInv, WithRow, RowFor, OneLiveRow, RowsSound, Grows;
  }

  lemma AddSessionSound(db: Db, db1: Db, now: Time, stat: Stat, keyed: bool, key: Key, ids: Ids)
    requires SessionInv(db) && Unused(db, ids) && SessionsFor(db, stat.team, key) == {}
    requires db1 == WithRow(db, now, stat, ids.row)
    requires Live(db1, RowFor(db, stat, ids.row)) && db1.rows[RowFor(db, stat, ids.row)].At() == stat.At()
    requires forall u | u in db.rows :: u in db1.rows && db1.rows[u] == db.rows[u]
    ensures SessionInv(OpenSession(db, now, stat, keyed, key, ids).0)
  {
    hide WithRow, RowFor;
    var db' := OpenSession(db, now, stat, keyed, key, ids).0;
    assert db1.refs == db.refs && db1.sessions == db.sessions by { WithRowIsCatalogueOnly(db); }
    AddedSessionSound(db', ids.session, ids.ref);
    hide OpenSession;
    forall s | s in db.sessions
      ensures SessionSound(db', s) && (db.sessions[s].team != stat.team || db.sessions[s].key != key)
    {
      assert SessionSound(db, s) && s !in SessionsFor(db, stat.team, key);
    }
    forall r | r in db.refs
      ensures HoldSound(db', r)
    {
      assert HoldSound(db, r);
    }
  }

  /** A committed session and its hold, as they are inserted. */
  lemma AddedSessionSound(db: Db, s: Uuid, r: Uuid)
    requires s in db.sessions && r in db.refs && db.sessions[s].state == Committed && db.sessions[s].pendingRef == Some(r)
    requires db.sessions[s].obj in db.rows && db.rows[db.sessions[s].obj].At() == Coord(db.sessions[s].team, db.sessions[s].digest)
    requires db.refs[r].session == Some(s) && db.refs[r].purpose == UploadPending && db.refs[r].obj == db.sessions[s].obj
    requires db.refs[r].releasedAt.None?
    ensures SessionSound(db, s) && HoldSound(db, r)
  {
  }

  lemma UploadKeepsSessions(db: Db, now: Time, grace: int, stat: Stat, requested: Option<Key>, ids: Ids)
    requires SessionInv(db) && OneLiveRow(db) && RowsSound(db, now) && stat.size == |stat.digest.preimage|
    ensures SessionInv(UploadTx(db, now, stat, requested, ids).0)
  {
    hide SessionInv, OneLiveRow, RowsSound, OpenSession;
    var db' := UploadTx(db, now, stat, requested, ids).0;
    var key := EffectiveKey(requested, stat);
    if db' == db {
    } else if FindSession(db, stat.team, key).None? {
      OpenSessionSound(db, now, grace, stat, requested.Some?, key, ids);
    } else {
      var session := db.sessions[FindSession(db, stat.team, key).value];
      var again := LegacyAgain(stat.digest, stat.size, ids.salt);
      if !Live(db, session.obj) || db.rows[session.obj].team != stat.team {
        assert SessionsFor(db, stat.team, again) == {};
        OpenSessionSound(db, now, grace, stat, false, again, ids);
      } else {
        AddHoldSound(db, ids.ref, Ref(stat.team, session.obj, UploadPending, PublicUpload(ids.owner), now, None, None), now, grace);
      }
    }
  }

  lemma AddHoldSound(db: Db, r: Uuid, ref: Ref, now: Time, grace: int)
    requires SessionInv(db) && r !in db.refs && ref.session.None? && !ref.owner.UploadSession?
    ensures SessionInv(AddRef(db, r, ref))
  {
    var db' := AddRef(db, r, ref);
    forall s | s in db.sessions && Keyed(db, s) && db.sessions[s].state == Committed
      ensures db'.refs[db.sessions[s].pendingRef.value].releasedAt.None?
    {
      assert SessionSound(db, s);
    }
    hide SessionInv;
    QuietTablesKeepSessions(db, db', now, grace);
  }

  /** Moving one session to a new state, releasing its holds with it. */
  lemma MoveSessionSound(db: Db, s: Uuid, session: Session, stamp: Time)
    requires SessionInv(db) && s in db.sessions
    requires session == db.sessions[s].(state := session.state, reservedFor := session.reservedFor)
    requires session.state in TERMINAL + {Reserved}
    ensures SessionInv(ReleaseRefs(db.(sessions := db.sessions[s := session]), HoldsOf(db, s), stamp))
  {
    var db' := ReleaseRefs(db.(sessions := db.sessions[s := session]), HoldsOf(db, s), stamp);
    MovedShape(db, s, session, stamp);
    hide SessionSound, HoldSound, ReleaseRefs, HoldsOf;
    forall t | t in db'.sessions
      ensures SessionSound(db', t)
    {
      assert SessionSound(db, t);
      MovedSessionSound(db, s, session, stamp, t);
    }
    forall r | r in db'.refs
      ensures HoldSound(db', r)
    {
      assert HoldSound(db, r);
      MovedHoldSound(db, s, session, stamp, r);
    }
  }

  lemma MovedShape(db: Db, s: Uuid, session: Session, stamp: Time)
    requires s in db.sessions
    ensures var db' := ReleaseRefs(db.(sessions := db.sessions[s := session]), HoldsOf(db, s), stamp);
      db'.sessions == db.sessions[s := session] && db'.refs.Keys == db.refs.Keys
  {
  }

  lemma MovedSessionSound(db: Db, s: Uuid, session: Session, stamp: Time, t: Uuid)
    requires s in db.sessions && t in db.sessions && SessionSound(db, t) && session.state in TERMINAL + {Reserved}
    requires session == db.sessions[s].(state := session.state, reservedFor := session.reservedFor)
    ensures SessionSound(ReleaseRefs(db.(sessions := db.sessions[s := session]), HoldsOf(db, s), stamp), t)
  {
  }

  lemma MovedHoldSound(db: Db, s: Uuid, session: Session, stamp: Time, r: Uuid)
    requires s in db.sessions && r in db.refs && HoldSound(db, r)
    requires session == db.sessions[s].(state := session.state, reservedFor := session.reservedFor)
    ensures HoldSound(ReleaseRefs(db.(sessions := db.sessions[s := session]), HoldsOf(db, s), stamp), r)
  {
    hide HoldsOf;
  }

  lemma ReserveKeepsSessions(db: Db, team: Team, token: Token, task: Uuid, generation: int)
    requires SessionInv(db)
    ensures SessionInv(ReserveTx(db, team, token, task, generation).0)
  {
    hide SessionInv, SessionOf;
    var s := SessionOf(db, team, token);
    if generation >= 1 && s.Some? && db.sessions[s.value].state == Committed {
      ReservedSound(db, s.value, db.sessions[s.value].(state := Reserved, reservedFor := Some((task, generation))));
    }
  }

  lemma ReservedSound(db: Db, s: Uuid, session: Session)
    requires SessionInv(db) && s in db.sessions
    requires session == db.sessions[s].(state := Reserved, reservedFor := session.reservedFor)
    requires db.sessions[s].state == Committed
    ensures SessionInv(db.(sessions := db.sessions[s := session]))
  {
    var db' := db.(sessions := db.sessions[s := session]);
    forall t | t in db'.sessions
      ensures SessionSound(db', t)
    {
      assert SessionSound(db, t);
    }
    forall r | r in db'.refs
      ensures HoldSound(db', r)
    {
      assert HoldSound(db, r);
    }
  }

  lemma SessionCommandsKeepSessions(db: Db, team: Team, token: Token, stamp: Time)
    requires SessionInv(db)
    ensures SessionInv(ConsumeTx(db, team, token, stamp).0)
    ensures SessionInv(CancelSessionTx(db, team, token, stamp).0)
  {
    hide SessionInv, ReleaseRefs, HoldsOf, SessionOf;
    var found := SessionOf(db, team, token);
    if found.Some? {
      var s := found.value;
      var session := db.sessions[s];
      StatesAreKnown(db, s);
      MoveSessionSound(db, s, session.(state := Consumed), stamp);
      MoveSessionSound(db, s, session.(state := Cancelled), stamp);
      if session.state !in CANCELLABLE {
        MoveSessionSound(db, s, session, stamp);
        assert db.(sessions := db.sessions[s := session]) == db;
      }
    }
  }

  lemma StatesAreKnown(db: Db, s: Uuid)
    requires SessionInv(db) && s in db.sessions
    ensures db.sessions[s].state in {Committed, Reserved} + TERMINAL
  {
    assert SessionSound(db, s);
  }

  lemma ExpireKeepsSessions(db: Db, picked: set<Uuid>, stamp: Time, cutoff: Time)
    requires SessionInv(db) && forall r | r in picked :: Abandoned(db, r, cutoff)
    ensures SessionInv(ExpireTx(db, picked, stamp))
  {
    var db' := ExpireTx(db, picked, stamp);
    forall t | t in db'.sessions
      ensures SessionSound(db', t)
    {
      assert SessionSound(db, t);
      var p := db.sessions[t].pendingRef.value;
      if t in SessionsBehind(db, picked) {
        var r :| r in picked && r in db.refs && db.refs[r].session == Some(t);
        assert HoldSound(db, r) && r == p;
      } else {
        assert p !in picked;
      }
    }
    forall r | r in db'.refs
      ensures HoldSound(db', r)
    {
      assert HoldSound(db, r);
    }
  }

  lemma StepKeepsSessions(w: World, step: Step)
    requires Inv(w) && SessionInv(w.db)
    ensures SessionInv(Next(w, step).db)
  {
    hide BytesMatch, ScannerSound, QuarantineCatalogued, OneLiveRow, RowsSound, RefsSound, ProofsMatchTombstones, GraceHonoured;
    hide SessionInv, UploadTx, ReserveTx, ConsumeTx, CancelSessionTx, ExpireTx;
    var db, db', g := w.db, Next(w, step).db, w.cfg.grace;
    match step
    case Upload(stat, requested, ids) => if stat in w.promoted { UploadKeepsSessions(db, w.now, g, stat, requested, ids); }
    case Reserve(team, token, task, generation) => ReserveKeepsSessions(db, team, token, task, generation);
    case Consume(team, token, stamp) => SessionCommandsKeepSessions(db, team, token, stamp);
    case CancelSession(team, token, stamp) => SessionCommandsKeepSessions(db, team, token, stamp);
    case ExpireHolds(picked, stamp) =>
      if Timely(w, stamp) && forall r | r in picked :: Abandoned(db, r, stamp - w.cfg.ttl) {
        ExpireKeepsSessions(db, picked, stamp, stamp - w.cfg.ttl);
      }
    case _ => OtherStepKeepsSessions(w, step);
  }

  predicate MovesSessions(step: Step) {
    step.Upload? || step.Reserve? || step.Consume? || step.CancelSession? || step.ExpireHolds?
  }

  lemma OtherStepKeepsSessions(w: World, step: Step)
    requires Inv(w) && SessionInv(w.db) && !MovesSessions(step)
    ensures SessionInv(Next(w, step).db)
  {
    var db, db' := w.db, Next(w, step).db;
    if IsCollector(step) {
      CollectorWrites(w, step);
      CollectorLeavesSessions(w, step);
    } else {
      OthersGrow(w, step);
      OthersLeaveKeyedHolds(w, step);
    }
    hide Next, Inv;
    QuietTablesKeepSessions(db, db', w.now, w.cfg.grace);
  }

  lemma CollectorLeavesSessions(w: World, step: Step)
    requires IsCollector(step)
    ensures Next(w, step).db.sessions == w.db.sessions && Next(w, step).db.refs == w.db.refs
  {
    hide SameCatalogueRow, Blocker, RecheckTx;
  }

  lemma OthersLeaveKeyedHolds(w: World, step: Step)
    requires !IsCollector(step) && !MovesSessions(step)
    ensures Next(w, step).db.sessions == w.db.sessions
    ensures forall r | r in Next(w, step).db.refs && r !in w.db.refs ::
              Next(w, step).db.refs[r].session.None? && !Next(w, step).db.refs[r].owner.UploadSession?
    ensures forall r | r in w.db.refs && w.db.refs[r].owner.UploadSession? :: r in Next(w, step).db.refs && Next(w, step).db.refs[r] == w.db.refs[r]
  {
    match step
    case CancelHandle(team, digest, stamp) =>
      hide CancelHandleTx;
      CancelHandleLeavesKeyed(w.db, team, digest, stamp);
    case Catalogue(stat, owner, row, ref) =>
      hide CatalogTx;
      if owner.Some? ==> owner.value.OtherOwner? { CatalogLeavesKeyed(w.db, w.now, stat, owner, row, ref); }
    case _ => hide CancelHandleTx, CatalogTx;
  }

  lemma CatalogLeavesKeyed(db: Db, now: Time, stat: Stat, owner: Option<Owner>, u: Uuid, r: Uuid)
    requires owner.Some? ==> owner.value.OtherOwner?
    ensures var db' := CatalogTx(db, now, stat, owner, u, r);
      && db'.sessions == db.sessions
      && (forall q | q in db.refs :: q in db'.refs && db'.refs[q] == db.refs[q])
      && (forall q | q in db'.refs && q !in db.refs :: db'.refs[q].session.None? && !db'.refs[q].owner.UploadSession?)
  {
    hide FindLive;
  }

  lemma CancelHandleLeavesKeyed(db: Db, team: Team, digest: Digest, stamp: Time)
    ensures var db' := CancelHandleTx(db, team, digest, stamp).0;
      && db'.sessions == db.sessions && db'.refs.Keys == db.refs.Keys
      && forall r | r in db.refs && db.refs[r].owner.UploadSession? :: db'.refs[r] == db.refs[r]
  {
  }

  lemma {:induction false} RunKeepsSessions(w: World, steps: seq<Step>)
    requires Inv(w) && SessionInv(w.db)
    ensures SessionInv(Run(w, steps).db)
    decreases |steps|
  {
    hide Next, Inv, SessionInv;
    if steps != [] {
      StepKeepsSessions(w, steps[0]);
      RunKeepsInv(w, [steps[0]]);
      RunOne(w, steps[0]);
      RunKeepsSessions(Next(w, steps[0]), steps[1..]);
    }
  }

  lemma LedgerSpelledOut(w: World)
    requires Inv(w)
    ensures forall c: Coord :: |LiveRows(w.db, c.team, c.digest)| <= 1
    ensures forall r | Held(w.db, r) :: Live(w.db, w.db.refs[r].obj)
    ensures forall u | u in w.db.rows ::
              w.db.rows[u].tombstonedAt.Some? <==> exists p :: Proves(w.db, p, u) && forall q | q in w.db.proofs && w.db.proofs[q].obj == u :: q == p
    ensures forall p | p in w.db.proofs :: Proves(w.db, p, w.db.proofs[p].obj)
  {
    forall c: Coord
      ensures |LiveRows(w.db, c.team, c.digest)| <= 1
    {
      var live := LiveRows(w.db, c.team, c.digest);
      if live != {} {
        var u := Pick(live);
        assert forall v | v in live :: Live(w.db, v) && v == u;
        assert live == {u};
      }
    }
    forall u | u in w.db.rows && w.db.rows[u].tombstonedAt.Some?
      ensures exists p :: Proves(w.db, p, u) && forall q | q in w.db.proofs && w.db.proofs[q].obj == u :: q == p
    {
      var p :| Proves(w.db, p, u);
    }
    hide Inv, LedgerInv;
  }

  /** The ledger invariant over every run from empty tables, all writers included: at most one live row per
      Team and digest, unreleased references on live rows only, tombstones and proofs one to one, and every
      session in agreement with its hold. */
  lemma ReachableLedgersAreSound(cfg: Config, now: Time, teams: map<Team, bool>, steps: seq<Step>)
    requires cfg.grace > 0
    ensures var w := Run(Start(cfg, now, teams), steps);
      && SessionInv(w.db)
      && (forall c: Coord :: |LiveRows(w.db, c.team, c.digest)| <= 1)
      && (forall r | Held(w.db, r) :: Live(w.db, w.db.refs[r].obj))
      && (forall u | u in w.db.rows ::
            w.db.rows[u].tombstonedAt.Some? <==> exists p :: Proves(w.db, p, u) && forall q | q in w.db.proofs && w.db.proofs[q].obj == u :: q == p)
      && (forall p | p in w.db.proofs :: Proves(w.db, p, w.db.proofs[p].obj))
  {
    hide Inv, Run, SessionInv, LiveRows, Proves, Live, Held;
    var w0 := Start(cfg, now, teams);
    StartSound(cfg, now, teams);
    assert SessionInv(w0.db) by { EmptySessions(w0.db); }
    RunKeepsInv(w0, steps);
    RunKeepsSessions(w0, steps);
    LedgerSpelledOut(Run(w0, steps));
  }

  lemma EmptySessions(db: Db)
    requires db.sessions == map[] && db.refs == map[]
    ensures SessionInv(db)
  {
  }

  // ---------- what the machine promises ----------

  /** A committed session owns exactly one unreleased pending hold, on a live row; a cancelled, expired or
      consumed one owns none; and no two sessions share a Team and key. */
  lemma SessionsOwnTheirHolds(w: World, s: Uuid)
    requires Inv(w) && SessionInv(w.db) && s in w.db.sessions
    ensures w.db.sessions[s].state == Committed && Keyed(w.db, s) ==>
      HoldsOf(w.db, s) == {w.db.sessions[s].pendingRef.value} && Live(w.db, w.db.sessions[s].obj)
    ensures w.db.sessions[s].state in TERMINAL ==> HoldsOf(w.db, s) == {}
    ensures SessionsFor(w.db, w.db.sessions[s].team, w.db.sessions[s].key) == {s}
  {
    assert SessionSound(w.db, s);
    assert forall r | r in HoldsOf(w.db, s) :: HoldSound(w.db, r);
  }

  /** What status tells the owner of a session token is the state of that session's own hold: pending
      exactly while the hold is unreleased, gone exactly when no row of its bytes is live. */
  lemma {:induction false} StatusFollowsTheHold(w: World, s: Uuid)
    requires Inv(w) && SessionInv(w.db) && s in w.db.sessions
    ensures var session := w.db.sessions[s];
      var r := StatTx(w.db, session.team, session.digest, Some(TokenFor(session.team, session.key, s)));
      && r.Success?
      && (r.value == Pending <==> HoldsOf(w.db, s) != {})
      && (r.value == Gone <==> LiveRows(w.db, session.team, session.digest) == {})
  {
    hide Inv, SessionInv, LiveRows, HoldsOf;
    assert SessionKnown(w.db, s) by { SessionIsKnown(w, s); }
    if HoldsOf(w.db, s) != {} {
      var r := Pick(HoldsOf(w.db, s));
      HoldIsOnTheLiveRow(w, s, r);
    } else {
      NothingPending(w.db, s);
    }
  }

  predicate SessionKnown(db: Db, s: Uuid) {
    s in db.sessions && db.sessions[s].obj in db.rows
    && db.rows[db.sessions[s].obj].At() == Coord(db.sessions[s].team, db.sessions[s].digest)
  }

  lemma SessionIsKnown(w: World, s: Uuid)
    requires SessionInv(w.db) && s in w.db.sessions
    ensures SessionKnown(w.db, s)
  {
    assert SessionSound(w.db, s);
  }

  lemma NothingPending(db: Db, s: Uuid)
    requires s in db.sessions && HoldsOf(db, s) == {}
    ensures forall u :: !PendingOn(db, db.sessions[s].team, u, Some(s))
  {
    assert forall r | r in db.refs && db.refs[r].purpose == UploadPending && db.refs[r].releasedAt.None? && db.refs[r].session == Some(s) ::
        r in HoldsOf(db, s);
  }

  lemma HoldIsOnTheLiveRow(w: World, s: Uuid, r: Uuid)
    requires Inv(w) && SessionInv(w.db) && s in w.db.sessions && r in HoldsOf(w.db, s)
    ensures var session := w.db.sessions[s];
      && LiveRows(w.db, session.team, session.digest) == {w.db.refs[r].obj}
      && PendingOn(w.db, session.team, w.db.refs[r].obj, Some(s))
  {
    var db, session := w.db, w.db.sessions[s];
    assert SessionSound(db, s) && HoldSound(db, r);
    var u := db.refs[r].obj;
    assert Live(db, u) && u in LiveRows(db, session.team, session.digest);
    assert forall v | v in LiveRows(db, session.team, session.digest) :: Live(db, v) && v == u;
    hide SessionInv;
  }

  /** The session's identity is untouched, and a terminal state is not left. */
  ghost predicate SameSession(db: Db, db': Db, s: Uuid)
    requires s in db.sessions
  {
    && s in db'.sessions
    && db'.sessions[s] == db.sessions[s].(state := db'.sessions[s].state, reservedFor := db'.sessions[s].reservedFor)
    && (db.sessions[s].state in TERMINAL ==> db'.sessions[s] == db.sessions[s])
  }

  lemma TerminalIsAbsorbing(w: World, step: Step, s: Uuid)
    requires s in w.db.sessions
    ensures SameSession(w.db, Next(w, step).db, s)
  {
    if !MovesSessions(step) {
      if IsCollector(step) { CollectorLeavesSessions(w, step); } else { OthersLeaveKeyedHolds(w, step); }
      hide Next;
    } else {
      hide ReserveTx, ConsumeTx, CancelSessionTx, ExpireTx, UploadTx;
      match step
      case Upload(stat, requested, ids) => UploadLeavesSessions(w.db, w.now, stat, requested, ids);
      case ExpireHolds(picked, stamp) => ExpireKeepsIdentity(w.db, picked, stamp, s);
      case Reserve(team, token, task, generation) => ReserveKeepsIdentity(w.db, team, token, task, generation, s);
      case Consume(team, token, stamp) => CommandsKeepIdentity(w.db, team, token, stamp, s);
      case CancelSession(team, token, stamp) => CommandsKeepIdentity(w.db, team, token, stamp, s);
    }
  }

  lemma ReserveKeepsIdentity(db: Db, team: Team, token: Token, task: Uuid, generation: int, s: Uuid)
    requires s in db.sessions
    ensures SameSession(db, ReserveTx(db, team, token, task, generation).0, s)
  {
    hide SessionOf;
  }

  lemma CommandsKeepIdentity(db: Db, team: Team, token: Token, stamp: Time, s: Uuid)
    requires s in db.sessions
    ensures SameSession(db, ConsumeTx(db, team, token, stamp).0, s)
    ensures SameSession(db, CancelSessionTx(db, team, token, stamp).0, s)
  {
    hide SessionOf, HoldsOf, ReleaseRefs;
    ReleaseKeepsSessionRows(stamp);
  }

  lemma ReleaseKeepsSessionRows(stamp: Time)
    ensures forall db, picked: set<Uuid> :: ReleaseRefs(db, picked, stamp).sessions == db.sessions && ReleaseRefs(db, picked, stamp).teams == db.teams
  {
  }

  lemma ExpireKeepsIdentity(db: Db, picked: set<Uuid>, stamp: Time, s: Uuid)
    requires s in db.sessions
    ensures SameSession(db, ExpireTx(db, picked, stamp), s)
  {
  }

  /** An upload changes no session, reference or hold that was there before. */
  lemma UploadLeavesSessions(db: Db, now: Time, stat: Stat, requested: Option<Key>, ids: Ids)
    ensures var db' := UploadTx(db, now, stat, requested, ids).0;
      && (forall s | s in db.sessions :: s in db'.sessions && db'.sessions[s] == db.sessions[s])
      && (forall r | r in db.refs :: r in db'.refs && db'.refs[r] == db.refs[r])
  {
    hide OpenSession, FindSession;
    if Unused(db, ids) {
      OpeningOnlyAdds(db, now, stat, ids);
    }
  }

  lemma OpeningOnlyAdds(db: Db, now: Time, stat: Stat, ids: Ids)
    requires Unused(db, ids)
    ensures forall keyed, key :: var db' := OpenSession(db, now, stat, keyed, key, ids).0;
      && (forall s | s in db.sessions :: s in db'.sessions && db'.sessions[s] == db.sessions[s])
      && (forall r | r in db.refs :: r in db'.refs && db'.refs[r] == db.refs[r])
  {
    hide WithRow, RowFor;
    WithRowIsCatalogueOnly(db);
  }

  lemma WithRowIsCatalogueOnly(db: Db)
    ensures forall u, stat, n :: WithRow(db, n, stat, u).sessions == db.sessions && WithRow(db, n, stat, u).refs == db.refs
  {
  }

  /** Over every run: sessions keep their Team, key, object and hold, and terminal states are absorbing. */
  lemma {:induction false} SessionsPersist(w: World, steps: seq<Step>, s: Uuid)
    requires s in w.db.sessions
    ensures SameSession(w.db, Run(w, steps).db, s)
    decreases |steps|
  {
    hide Next;
    if steps != [] {
      TerminalIsAbsorbing(w, steps[0], s);
      SessionsPersist(Next(w, steps[0]), steps[1..], s);
    }
  }

  /** Replaying a key with the same bytes, however much later: while the object is live nothing is written
      and the caller gets the token of the first call; once it is tombstoned the replay is refused. */
  lemma ReplayReturnsTheSameToken(w: World, stat: Stat, key: Key, ids: Ids, steps: seq<Step>, w1: World, ids1: Ids)
    requires Inv(w) && SessionInv(w.db) && stat in w.promoted && key != Named("")
    requires UploadTx(w.db, w.now, stat, Some(key), ids).1.Success?
    requires w1 == Run(Next(w, Upload(stat, Some(key), ids)), steps)
    requires Unused(w1.db, ids1)
    ensures var first := UploadTx(w.db, w.now, stat, Some(key), ids).1.value;
      var (db', again) := UploadTx(w1.db, w1.now, stat, Some(key), ids1);
      && db' == w1.db
      && first.token.Some?
      && (if Live(w1.db, first.obj) then again == Success(UploadRecord(first.obj, true, first.token))
          else again == Failure(SessionCatalogUnavailable))
  {
    hide Run, Next, Inv, SessionInv, UploadTx, SessionSound;
    var first := UploadTx(w.db, w.now, stat, Some(key), ids).1.value;
    var w0 := Next(w, Upload(stat, Some(key), ids));
    FirstUploadOpens(w, stat, key, ids);
    var s := first.token.value.session;
    RunKeepsInv(w, [Upload(stat, Some(key), ids)]);
    RunOne(w, Upload(stat, Some(key), ids));
    StepKeepsSessions(w, Upload(stat, Some(key), ids));
    SessionsPersist(w0, steps, s);
    RunKeepsSessions(w0, steps);
    RunKeepsInv(w0, steps);
    StepKeepsTeams(w, Upload(stat, Some(key), ids));
    RunKeepsTeams(w0, steps);
    SessionsOwnTheirHolds(w1, s);
    IsSound(w1.db, s);
    ReplayTx(w1.db, w1.now, stat, key, s, ids1);
  }

  lemma IsSound(db: Db, s: Uuid)
    requires SessionInv(db) && s in db.sessions
    ensures SessionSound(db, s)
  {
  }

  /** Nothing in this machine writes the teams. */
  lemma StepKeepsTeams(w: World, step: Step)
    ensures Next(w, step).db.teams == w.db.teams
  {
    hide Next;
    if IsCollector(step) {
      CollectorTakesIts(w, step);
      CollectorKeepsTeams(w, step);
    } else if MovesSessions(step) || step.CancelHandle? {
      CommandKeepsTeams(w, step);
    } else {
      OtherKeepsTeams(w, step);
    }
  }

  lemma CommandKeepsTeams(w: World, step: Step)
    requires MovesSessions(step) || step.CancelHandle?
    ensures Next(w, step).db.teams == w.db.teams
  {
    hide UploadTx, ReserveTx, ConsumeTx, CancelSessionTx, CancelHandleTx, ExpireTx, Abandoned;
    match step
    case Upload(stat, requested, ids) => UploadKeepsTeams(w.db, w.now, stat, requested, ids);
    case Reserve(team, token, task, generation) => SessionTxsKeepTeams(w.db, team, token, task, generation, 0);
    case Consume(team, token, stamp) => SessionTxsKeepTeams(w.db, team, token, 0, 0, stamp);
    case CancelSession(team, token, stamp) => SessionTxsKeepTeams(w.db, team, token, 0, 0, stamp);
    case CancelHandle(team, digest, stamp) => CancelHandleKeepsTeams(w.db, team, digest, stamp);
    case ExpireHolds(picked, stamp) => ExpireKeepsTeams(w.db, picked, stamp);
  }

  lemma OtherKeepsTeams(w: World, step: Step)
    requires !IsCollector(step) && !MovesSessions(step) && !step.CancelHandle?
    ensures Next(w, step).db.teams == w.db.teams
  {
    hide CatalogTx, ReleaseRefs;
    match step
    case Catalogue(stat, owner, row, ref) => CatalogKeepsTeams(w.db, w.now, stat, owner, row, ref);
    case ReleaseOther(ref, stamp) => ReleaseKeepsSessionRows(stamp);
    case _ =>
  }

  lemma CollectorKeepsTeams(w: World, step: Step)
    ensures NextCollector(w, step).db.teams == w.db.teams
  {
    hide FinishTx, RecheckTx, LiveRows, NewestRow, Lists;
    match step
    case FinishDelete(proof) => if w.scanner.Deleting? { FinishKeepsTeams(w.db, w.scanner.candidate, w.now, proof); }
    case _ =>
  }

  lemma UploadKeepsTeams(db: Db, now: Time, stat: Stat, requested: Option<Key>, ids: Ids)
    ensures UploadTx(db, now, stat, requested, ids).0.teams == db.teams
    ensures UploadTx(db, now, stat, requested, ids).0.proofs == db.proofs
  {
    hide FindSession, OpenSession;
    OpeningKeepsTeams(db, now, stat, ids);
  }

  lemma OpeningKeepsTeams(db: Db, now: Time, stat: Stat, ids: Ids)
    ensures forall keyed, key :: OpenSession(db, now, stat, keyed, key, ids).0.teams == db.teams
                                 && OpenSession(db, now, stat, keyed, key, ids).0.proofs == db.proofs
  {
    hide FindLive, TokenFor;
  }

  lemma CatalogKeepsTeams(db: Db, now: Time, stat: Stat, owner: Option<Owner>, u: Uuid, r: Uuid)
    ensures CatalogTx(db, now, stat, owner, u, r).teams == db.teams
  {
    hide FindLive;
  }

  lemma SessionTxsKeepTeams(db: Db, team: Team, token: Token, task: Uuid, generation: int, stamp: Time)
    ensures ReserveTx(db, team, token, task, generation).0.teams == db.teams
    ensures ConsumeTx(db, team, token, stamp).0.teams == db.teams
    ensures CancelSessionTx(db, team, token, stamp).0.teams == db.teams
  {
    hide HoldsOf, SessionOf, ReleaseRefs;
    ReleaseKeepsSessionRows(stamp);
  }

  lemma CancelHandleKeepsTeams(db: Db, team: Team, digest: Digest, stamp: Time)
    ensures CancelHandleTx(db, team, digest, stamp).0.teams == db.teams
  {
    hide LiveRows, PublicHolds;
  }

  lemma ExpireKeepsTeams(db: Db, picked: set<Uuid>, stamp: Time)
    ensures ExpireTx(db, picked, stamp).teams == db.teams
  {
    hide SessionsBehind;
  }

  lemma FinishKeepsTeams(db: Db, c: Candidate, now: Time, proof: Uuid)
    ensures FinishTx(db, c, now, proof).0.teams == db.teams
  {
    hide SameCatalogueRow, Blocker;
  }

  lemma {:induction false} RunKeepsTeams(w: World, steps: seq<Step>)
    ensures Run(w, steps).db.teams == w.db.teams
    decreases |steps|
  {
    hide Next;
    if steps != [] {
      StepKeepsTeams(w, steps[0]);
      RunKeepsTeams(Next(w, steps[0]), steps[1..]);
    }
  }

  lemma FirstUploadOpens(w: World, stat: Stat, key: Key, ids: Ids)
    requires Inv(w) && SessionInv(w.db) && stat in w.promoted
    requires UploadTx(w.db, w.now, stat, Some(key), ids).1.Success?
    ensures var first := UploadTx(w.db, w.now, stat, Some(key), ids).1.value;
      var db' := Next(w, Upload(stat, Some(key), ids)).db;
      && first.token.Some? && first.token.value.Token?
      && var s := first.token.value.session;
      && s in db'.sessions && first.token.value == TokenFor(stat.team, key, s)
      && db'.sessions[s].team == stat.team && db'.sessions[s].key == key && db'.sessions[s].obj == first.obj
      && db'.sessions[s].digest == stat.digest && db'.sessions[s].size == stat.size
      && stat.team in w.db.teams && w.db.teams[stat.team]
  {
    hide Inv, SessionInv, UploadTx;
    KeyedUploadOpens(w.db, w.now, stat, key, ids);
  }

  lemma KeyedUploadOpens(db: Db, now: Time, stat: Stat, key: Key, ids: Ids)
    requires UploadTx(db, now, stat, Some(key), ids).1.Success?
    ensures var (db', r) := UploadTx(db, now, stat, Some(key), ids);
      var first := r.value;
      && stat.team in db.teams && db.teams[stat.team]
      && first.token.Some? && first.token.value.Token?
      && var s := first.token.value.session;
      && s in db'.sessions && first.token.value == TokenFor(stat.team, key, s)
      && db'.sessions[s].team == stat.team && db'.sessions[s].key == key && db'.sessions[s].obj == first.obj
      && db'.sessions[s].digest == stat.digest && db'.sessions[s].size == stat.size
  {
    hide WithRow, RowFor, Unused;
  }

  lemma ReplayTx(db: Db, now: Time, stat: Stat, key: Key, s: Uuid, ids: Ids)
    requires s in db.sessions && SessionsFor(db, stat.team, key) == {s} && SessionSound(db, s) && key != Named("")
    requires db.sessions[s].digest == stat.digest && db.sessions[s].size == stat.size
    requires stat.team in db.teams && db.teams[stat.team] && Unused(db, ids)
    ensures UploadTx(db, now, stat, Some(key), ids) ==
      if Live(db, db.sessions[s].obj) then (db, Success(UploadRecord(db.sessions[s].obj, true, Some(TokenFor(stat.team, key, s)))))
      else (db, Failure(SessionCatalogUnavailable))
  {
    assert FindSession(db, stat.team, key) == Some(s);
    hide OpenSession;
  }

  // ---------- reserved uploads ----------

  /** A reserved session that still has its hold. */
  ghost predicate Guarded(db: Db, s: Uuid) {
    s in db.sessions && db.sessions[s].state == Reserved && Keyed(db, s) && Held(db, db.sessions[s].pendingRef.value)
  }

  /** The step is this session's own consume, or a cancel_session for it. */
  ghost predicate EndsReservation(w: World, step: Step, s: Uuid) {
    || (step.Consume? && Timely(w, step.stamp) && SessionOf(w.db, step.team, step.token) == Some(s))
    || (step.CancelSession? && Timely(w, step.stamp) && SessionOf(w.db, step.team, step.token) == Some(s))
  }

  /** One step takes the hold away exactly when it is one of those two; no scan, sibling command, handle
      cancel, other owner or collector step can. */
  lemma OnlyItsOwnCommandsEndAReservation(w: World, step: Step, s: Uuid)
    requires Inv(w) && SessionInv(w.db) && Guarded(w.db, s)
    ensures Guarded(Next(w, step).db, s) <==> !EndsReservation(w, step, s)
  {
    hide Inv, SessionInv, Next, Guarded;
    if !MovesSessions(step) {
      GuardUntouched(w, step, s);
    } else if step.ExpireHolds? {
      GuardOutlivesScan(w, step, s);
    } else if step.Upload? {
      GuardOutlivesUpload(w, step, s);
    } else {
      CommandsOnSiblings(w, step, s);
    }
  }

  lemma GuardUntouched(w: World, step: Step, s: Uuid)
    requires Guarded(w.db, s) && !MovesSessions(step)
    ensures Guarded(Next(w, step).db, s) && !EndsReservation(w, step, s)
  {
    hide Next;
    if IsCollector(step) { CollectorLeavesSessions(w, step); } else { OthersLeaveKeyedHolds(w, step); }
  }

  lemma GuardOutlivesUpload(w: World, step: Step, s: Uuid)
    requires Guarded(w.db, s) && step.Upload?
    ensures Guarded(Next(w, step).db, s) && !EndsReservation(w, step, s)
  {
    hide UploadTx;
    UploadLeavesSessions(w.db, w.now, step.stat, step.requested, step.ids);
  }

  lemma GuardOutlivesScan(w: World, step: Step, s: Uuid)
    requires SessionInv(w.db) && Guarded(w.db, s) && step.ExpireHolds?
    ensures Guarded(Next(w, step).db, s) && !EndsReservation(w, step, s)
  {
    HoldIsNotAbandoned(w.db, s, step.stamp - w.cfg.ttl);
    hide ExpireTx, Abandoned, SessionInv, Guarded;
    if w.db.sessions[s].pendingRef.value !in step.picked {
      ExpireLeavesReserved(w.db, step.picked, step.stamp, s);
    }
  }

  lemma HoldIsNotAbandoned(db: Db, s: Uuid, cutoff: Time)
    requires SessionInv(db) && Guarded(db, s)
    ensures s in db.sessions && db.sessions[s].pendingRef.Some? && !Abandoned(db, db.sessions[s].pendingRef.value, cutoff)
  {
    assert SessionSound(db, s);
  }

  lemma ExpireLeavesReserved(db: Db, picked: set<Uuid>, stamp: Time, s: Uuid)
    requires Guarded(db, s) && db.sessions[s].pendingRef.value !in picked
    ensures Guarded(ExpireTx(db, picked, stamp), s)
  {
  }

  lemma CommandsOnSiblings(w: World, step: Step, s: Uuid)
    requires SessionInv(w.db) && Guarded(w.db, s) && (step.Reserve? || step.Consume? || step.CancelSession?)
    ensures Guarded(Next(w, step).db, s) <==> !EndsReservation(w, step, s)
  {
    hide SessionInv;
    HoldIsItsOwn(w.db, s);
    match step
    case Reserve(team, token, task, generation) => ReserveOnSibling(w.db, team, token, task, generation, s);
    case Consume(team, token, stamp) => CommandsOnSibling(w.db, team, token, stamp, s);
    case CancelSession(team, token, stamp) => CommandsOnSibling(w.db, team, token, stamp, s);
  }

  lemma HoldIsItsOwn(db: Db, s: Uuid)
    requires SessionInv(db) && Guarded(db, s)
    ensures forall t :: db.sessions[s].pendingRef.value in HoldsOf(db, t) <==> t == s
  {
    var p := db.sessions[s].pendingRef.value;
    assert SessionSound(db, s) && HoldSound(db, p);
  }

  lemma ReserveOnSibling(db: Db, team: Team, token: Token, task: Uuid, generation: int, s: Uuid)
    requires Guarded(db, s)
    ensures Guarded(ReserveTx(db, team, token, task, generation).0, s)
  {
    hide SessionOf;
  }

  lemma CommandsOnSibling(db: Db, team: Team, token: Token, stamp: Time, s: Uuid)
    requires Guarded(db, s) && forall t :: db.sessions[s].pendingRef.value in HoldsOf(db, t) <==> t == s
    ensures Guarded(ConsumeTx(db, team, token, stamp).0, s) <==> SessionOf(db, team, token) != Some(s)
    ensures Guarded(CancelSessionTx(db, team, token, stamp).0, s) <==> SessionOf(db, team, token) != Some(s)
  {
    hide SessionOf, HoldsOf, Guarded;
    var found := SessionOf(db, team, token);
    if found.Some? {
      var t := found.value;
      GuardedFields(db, s);
      MovedGuard(db, t, db.sessions[t].(state := Consumed), HoldsOf(db, t), stamp, s);
      MovedGuard(db, t, db.sessions[t].(state := Cancelled), HoldsOf(db, t), stamp, s);
      MovedGuard(db, t, db.sessions[t], HoldsOf(db, t), stamp, s);
      assert db.(sessions := db.sessions[t := db.sessions[t]]) == db;
    }
  }

  lemma GuardedFields(db: Db, s: Uuid)
    requires Guarded(db, s)
    ensures s in db.sessions && db.sessions[s].state == Reserved && db.sessions[s].pendingRef.Some?
  {
  }

  /** A session t is moved and a set of holds released: s stays guarded exactly when it is neither. */
  lemma MovedGuard(db: Db, t: Uuid, session: Session, picked: set<Uuid>, stamp: Time, s: Uuid)
    requires Guarded(db, s) && t in db.sessions
    requires session == db.sessions[t].(state := session.state)
    requires db.sessions[s].pendingRef.value in picked <==> t == s
    ensures Guarded(ReleaseRefs(db.(sessions := db.sessions[t := session]), picked, stamp), s) <==> t != s
  {
  }

  /** A run contains no command that ends the reservation of s. */
  ghost predicate LeavesReservation(w: World, steps: seq<Step>, s: Uuid)
    decreases |steps|
  {
    steps == [] || (!EndsReservation(w, steps[0], s) && LeavesReservation(Next(w, steps[0]), steps[1..], s))
  }

  /** Reserved uploads survive: until the session is consumed or itself cancelled, whatever else runs, the
      hold stays, the row is never tombstoned, and bytes that were live at the upload's commit are still there. */
  lemma {:induction false} ReservedUploadsSurvive(w: World, s: Uuid, steps: seq<Step>)
    requires Inv(w) && SessionInv(w.db) && Guarded(w.db, s) && LeavesReservation(w, steps, s)
    ensures var w' := Run(w, steps);
      && Guarded(w'.db, s)
      && w'.db.sessions[s].obj == w.db.sessions[s].obj
      && Live(w'.db, w.db.sessions[s].obj)
      && (w.db.sessions[s].obj in w.db.rows && Backed(w, w.db.rows[w.db.sessions[s].obj].At()) ==>
            Holds(w'.store, Coord(w.db.sessions[s].team, w.db.sessions[s].digest)))
    decreases |steps|
  {
    GuardedRowIsLive(w, s);
    GuardStays(w, s, steps);
    SessionsPersist(w, steps, s);
    RunKeepsInv(w, steps);
    RunKeepsSessions(w, steps);
    GuardedRowIsLive(Run(w, steps), s);
    var u := w.db.sessions[s].obj;
    if Backed(w, w.db.rows[u].At()) {
      BackedRowsKeepBytes(w, steps, u);
    }
    hide Run, Inv, SessionInv;
  }

  lemma GuardedRowIsLive(w: World, s: Uuid)
    requires Inv(w) && SessionInv(w.db) && Guarded(w.db, s)
    ensures Live(w.db, w.db.sessions[s].obj)
    ensures w.db.rows[w.db.sessions[s].obj].At() == Coord(w.db.sessions[s].team, w.db.sessions[s].digest)
  {
    assert SessionSound(w.db, s);
  }

  lemma {:induction false} GuardStays(w: World, s: Uuid, steps: seq<Step>)
    requires Inv(w) && SessionInv(w.db) && Guarded(w.db, s) && LeavesReservation(w, steps, s)
    ensures Guarded(Run(w, steps).db, s)
    decreases |steps|
  {
    hide Next, Inv, SessionInv, Guarded;
    if steps != [] {
      OnlyItsOwnCommandsEndAReservation(w, steps[0], s);
      StepKeepsSessions(w, steps[0]);
      RunKeepsInv(w, [steps[0]]);
      RunOne(w, steps[0]);
      GuardStays(Next(w, steps[0]), s, steps[1..]);
    }
  }

  /** reserve_session of a keyed committed session succeeds and establishes the guard. */
  lemma ReservingGuards(w: World, s: Uuid, task: Uuid, generation: int)
    requires Inv(w) && SessionInv(w.db) && Keyed(w.db, s) && w.db.sessions[s].state == Committed && generation >= 1
    ensures var session := w.db.sessions[s];
      var step := Reserve(session.team, TokenFor(session.team, session.key, s), task, generation);
      && ReserveTx(w.db, session.team, TokenFor(session.team, session.key, s), task, generation).1 == Success(true)
      && Guarded(Next(w, step).db, s)
  {
    hide Inv, SessionInv, SessionOf, Keyed;
    KeyedExists(w.db, s);
    HoldIsHeld(w.db, s);
    TokenFindsItsSession(w.db, s);
    ReservedIsGuarded(w.db, s, Some((task, generation)));
  }

  lemma KeyedExists(db: Db, s: Uuid)
    requires Keyed(db, s)
    ensures s in db.sessions && db.sessions[s].pendingRef.Some?
  {
  }

  lemma HoldIsHeld(db: Db, s: Uuid)
    requires SessionInv(db) && Keyed(db, s) && db.sessions[s].state == Committed
    ensures Held(db, db.sessions[s].pendingRef.value)
  {
    assert SessionSound(db, s);
  }

  lemma TokenFindsItsSession(db: Db, s: Uuid)
    requires s in db.sessions
    ensures SessionOf(db, db.sessions[s].team, TokenFor(db.sessions[s].team, db.sessions[s].key, s)) == Some(s)
  {
  }

  lemma ReservedIsGuarded(db: Db, s: Uuid, owner: Option<(Uuid, nat)>)
    requires Keyed(db, s) && Held(db, db.sessions[s].pendingRef.value)
    ensures Guarded(db.(sessions := db.sessions[s := db.sessions[s].(state := Reserved, reservedFor := owner)]), s)
  {
  }

  lemma KeyedStays(w: World, step: Step, s: Uuid)
    requires Inv(w) && Keyed(w.db, s)
    ensures Keyed(Next(w, step).db, s)
  {
    TerminalIsAbsorbing(w, step, s);
    var p := w.db.sessions[s].pendingRef.value;
    if IsCollector(step) {
      CollectorLeavesSessions(w, step);
    } else {
      OthersGrow(w, step);
      assert p in Next(w, step).db.refs && Kept(w.db.refs[p], Next(w, step).db.refs[p], w.now, w.cfg.grace) by { hide Next, Inv, Kept; }
    }
    hide Next, Inv, Grows;
  }

  lemma {:induction false} KeyedPersists(w: World, steps: seq<Step>, s: Uuid)
    requires Inv(w) && Keyed(w.db, s)
    ensures Keyed(Run(w, steps).db, s)
    decreases |steps|
  {
    hide Next, Inv, Keyed;
    if steps != [] {
      KeyedStays(w, steps[0], s);
      RunKeepsInv(w, [steps[0]]);
      RunOne(w, steps[0]);
      KeyedPersists(Next(w, steps[0]), steps[1..], s);
    }
  }

  lemma NewUploadIsKeyed(w: World, stat: Stat, key: Key, ids: Ids)
    requires Inv(w) && stat in w.promoted
    requires UploadTx(w.db, w.now, stat, Some(key), ids).1.Success? && !UploadTx(w.db, w.now, stat, Some(key), ids).1.value.replay
    ensures var first := UploadTx(w.db, w.now, stat, Some(key), ids).1.value;
      && first.token == Some(TokenFor(stat.team, key, ids.session))
      && Keyed(Next(w, Upload(stat, Some(key), ids)).db, ids.session)
  {
    hide Inv, WithRow, RowFor, FindSession;
    WithRowIsCatalogueOnly(w.db);
  }

  /** From the upload to the end of the reservation: bytes that were live when the upload committed survive
      whatever runs before reserve_session, and after it hold, row and bytes all survive whatever runs until
      the session is consumed or itself cancelled. */
  lemma {:induction false} UploadsSurviveTheirReservation(w: World, stat: Stat, key: Key, ids: Ids, between: seq<Step>, w1: World,
                                                          task: Uuid, generation: int, w2: World, after: seq<Step>)
    requires Inv(w) && SessionInv(w.db) && stat in w.promoted && key != Named("") && stat.At() in w.store.live
    requires UploadTx(w.db, w.now, stat, Some(key), ids).1.Success? && !UploadTx(w.db, w.now, stat, Some(key), ids).1.value.replay
    requires w1 == Run(Next(w, Upload(stat, Some(key), ids)), between)
    requires ids.session in w1.db.sessions && w1.db.sessions[ids.session].state == Committed && generation >= 1
    requires w2 == Next(w1, Reserve(stat.team, TokenFor(stat.team, key, ids.session), task, generation))
    requires LeavesReservation(w2, after, ids.session)
    ensures var obj := UploadTx(w.db, w.now, stat, Some(key), ids).1.value.obj;
      var w' := Run(w2, after);
      && Guarded(w2.db, ids.session) && Guarded(w'.db, ids.session)
      && Live(w'.db, obj) && w'.db.rows[obj].At() == stat.At() && Holds(w'.store, stat.At())
  {
    hide Run, Next, Inv, SessionInv, UploadTx, Guarded, Keyed, Backed, LeavesReservation;
    var upload := Upload(stat, Some(key), ids);
    var reserve := Reserve(stat.team, TokenFor(stat.team, key, ids.session), task, generation);
    var s := ids.session;
    var w0 := Next(w, upload);
    UploadCommits(w, stat, key, ids);
    KeyedPersists(w0, between, s);
    SessionsPersist(w0, between, s);
    RunKeepsInv(w0, between);
    RunKeepsSessions(w0, between);
    ReservingGuards(w1, s, task, generation);
    RunOne(w1, reserve);
    RunKeepsInv(w1, [reserve]);
    StepKeepsSessions(w1, reserve);
    SessionsPersist(w1, [reserve], s);
    GuardStays(w2, s, after);
    SessionsPersist(w2, after, s);
    RunKeepsInv(w2, after);
    RunKeepsSessions(w2, after);
    GuardedRowIsLive(Run(w2, after), s);
    RunAppend(w1, [reserve], after);
    RunAppend(w0, between, [reserve] + after);
    BackedRowsKeepBytes(w0, between + ([reserve] + after), w0.db.sessions[s].obj);
  }

  /** What the commit of a new keyed upload leaves. */
  lemma UploadCommits(w: World, stat: Stat, key: Key, ids: Ids)
    requires Inv(w) && SessionInv(w.db) && stat in w.promoted && stat.At() in w.store.live
    requires UploadTx(w.db, w.now, stat, Some(key), ids).1.Success? && !UploadTx(w.db, w.now, stat, Some(key), ids).1.value.replay
    ensures var w0 := Next(w, Upload(stat, Some(key), ids));
      var s := ids.session;
      && Inv(w0) && SessionInv(w0.db) && Keyed(w0.db, s) && s in w0.db.sessions
      && w0.db.sessions[s].team == stat.team && w0.db.sessions[s].key == key && w0.db.sessions[s].digest == stat.digest
      && w0.db.sessions[s].obj == UploadTx(w.db, w.now, stat, Some(key), ids).1.value.obj
      && w0.db.sessions[s].obj in w0.db.rows && w0.db.rows[w0.db.sessions[s].obj].At() == stat.At() && Backed(w0, stat.At())
  {
    hide Run, Inv, SessionInv, UploadTx, Keyed;
    var upload := Upload(stat, Some(key), ids);
    var w0 := Next(w, upload);
    FirstUploadOpens(w, stat, key, ids);
    NewUploadIsKeyed(w, stat, key, ids);
    RunOne(w, upload);
    RunKeepsInv(w, [upload]);
    StepKeepsSessions(w, upload);
    SessionIsKnown(w0, ids.session);
    assert w0.store == w.store;
  }

  /** cancel_session returns false for a reserved session, and it stays reserved; yet its hold is released. */
  lemma CancellingAReservationDropsItsHold(w: World, s: Uuid, stamp: Time)
    requires Inv(w) && SessionInv(w.db) && Guarded(w.db, s)
    ensures var session := w.db.sessions[s];
      var (db', r) := CancelSessionTx(w.db, session.team, TokenFor(session.team, session.key, s), stamp);
      && r == Success(false)
      && s in db'.sessions && db'.sessions[s] == session && session.state == Reserved
      && HoldsOf(db', s) == {}
      && (|HoldsOf(w.db, s)| == 1)
  {
    hide Inv;
    assert SessionSound(w.db, s);
    assert forall r | r in HoldsOf(w.db, s) :: HoldSound(w.db, r);
    assert HoldsOf(w.db, s) == {w.db.sessions[s].pendingRef.value};
    hide SessionInv;
  }

  /** A session, keyed or not, never has another unreleased hold than the one it names. */
  lemma OnlyItsPendingHold(db: Db, s: Uuid)
    requires SessionInv(db) && s in db.sessions
    ensures db.sessions[s].pendingRef.Some? && db.sessions[s].pendingRef.value in db.refs
    ensures var p := db.sessions[s].pendingRef.value;
      HoldsOf(db, s) == if db.refs[p].releasedAt.None? then {p} else {}
    ensures db.sessions[s].state in {Committed, Reserved} + TERMINAL
    ensures db.sessions[s].state in TERMINAL ==> HoldsOf(db, s) == {}
  {
    assert SessionSound(db, s);
    forall r | r in HoldsOf(db, s)
      ensures r == db.sessions[s].pendingRef.value
    {
      assert HoldSound(db, r);
    }
    hide SessionInv;
  }

  lemma ReleasingNothing(db: Db, stamp: Time)
    ensures ReleaseRefs(db, {}, stamp) == db
  {
  }

  lemma ReleasingOne(db: Db, p: Uuid, stamp: Time)
    requires Held(db, p)
    ensures ReleaseRefs(db, {p}, stamp) == db.(refs := db.refs[p := db.refs[p].(releasedAt := Some(stamp))])
    ensures ReleaseRefs(db, {p}, stamp) != db
  {
    var db' := ReleaseRefs(db, {p}, stamp);
    assert db'.refs == db.refs[p := db.refs[p].(releasedAt := Some(stamp))];
    assert db'.refs[p] != db.refs[p];
  }

  /** Exactly when a cancel that returns false is not harmless, for every token and keyed or keyless session:
      it changes the tables if and only if the session is reserved and its own hold is unreleased, and then
      the release of that hold is the whole change. In particular every refusal of a terminal session
      changes nothing. */
  lemma {:induction false} RefusedCancelsExactly(db: Db, team: Team, token: Token, stamp: Time)
    requires SessionInv(db) && CancelSessionTx(db, team, token, stamp).1 == Success(false)
    ensures SessionOf(db, team, token).Some?
    ensures var db' := CancelSessionTx(db, team, token, stamp).0;
      var session := db.sessions[SessionOf(db, team, token).value];
      && session.pendingRef.Some? && session.pendingRef.value in db.refs
      && (db' != db <==> session.state == Reserved && db.refs[session.pendingRef.value].releasedAt.None?)
      && (db' != db ==>
            var p := session.pendingRef.value; db' == db.(refs := db.refs[p := db.refs[p].(releasedAt := Some(stamp))]))
  {
    hide SessionInv, SessionOf, HoldsOf, ReleaseRefs;
    var s := SessionOf(db, team, token).value;
    OnlyItsPendingHold(db, s);
    var p := db.sessions[s].pendingRef.value;
    if db.refs[p].releasedAt.None? {
      ReleasingOne(db, p, stamp);
    } else {
      ReleasingNothing(db, stamp);
    }
  }
}
