/** The services themselves: transactions written statement by statement against mutable tables, and the
    collector's two procedures with everyone else running in between. Each is proved to do what the state
    machine says, so everything proved of its runs holds of these. */
module ObjectServices {
  import opened Wrappers
  import opened LocalStore
  import opened ObjectLedger
  import opened ObjectProtocol
  import opened ByteSafety
  import opened CrashHealing
  import opened UploadSessions
  import opened GraceAndAba
  import opened PassAccounts

  /** What the hold scan's query returns: abandoned holds, oldest first, at most `limit`, none overlooked. */
  ghost predicate HoldPage(db: Db, cutoff: Time, limit: nat, page: seq<Uuid>) {
    && |page| <= limit
    && (forall i, j | 0 <= i < j < |page| :: page[i] != page[j])
    && (forall i | 0 <= i < |page| :: Abandoned(db, page[i], cutoff))
    && (forall i, r | 0 <= i < |page| && Abandoned(db, r, cutoff) && r !in page :: db.refs[page[i]].createdAt <= db.refs[r].createdAt)
    && (|page| < limit ==> forall r | Abandoned(db, r, cutoff) :: r in page)
  }

  function Members(page: seq<Uuid>): set<Uuid> {
    set r: Uuid | r in page
  }

  class Ledger {
    var rows: map<Uuid, Row>
    var refs: map<Uuid, Ref>
    var sessions: map<Uuid, Session>
    var proofs: map<Uuid, Proof>
    var intents: map<Uuid, CleanupIntent>
    var teams: map<Team, bool>

    constructor (teams: map<Team, bool>)
      ensures View() == Db(map[], map[], map[], map[], map[], teams)
    {
      rows, refs, sessions, proofs, intents := map[], map[], map[], map[], map[];
      this.teams := teams;
    }

    function View(): Db
      reads this
    {
      Db(rows, refs, sessions, proofs, intents, teams)
    }

    method Upload(now: Time, stat: Stat, requested: Option<Key>, ids: Ids) returns (r: Result<UploadRecord, LedgerError>)
      modifies this
      ensures (View(), r) == UploadTx(old(View()), now, stat, requested, ids)
    {
      if requested == Some(Named("")) {
        return Failure(IdempotencyInvalid);
      }
      if stat.team !in teams {
        return Failure(TeamNotFound);
      }
      if !teams[stat.team] {
        return Failure(TeamNotActive);
      }
      if !Unused(View(), ids) {
        return Failure(NameTaken);
      }
      var key := EffectiveKey(requested, stat);
      var existing := FindSession(View(), stat.team, key);
      if existing.Some? {
        var session := sessions[existing.value];
        if session.digest != stat.digest || session.size != stat.size {
          return Failure(SessionConflict);
        }
        if session.obj !in rows || rows[session.obj].tombstonedAt.Some? || rows[session.obj].team != stat.team {
          if requested.Some? {
            return Failure(SessionCatalogUnavailable);
          }
          key := LegacyAgain(stat.digest, stat.size, ids.salt);
        } else {
          if requested.None? {
            refs := refs[ids.ref := Ref(stat.team, session.obj, UploadPending, PublicUpload(ids.owner), now, None, None)];
            return Success(UploadRecord(session.obj, true, None));
          }
          return Success(UploadRecord(session.obj, true, Some(TokenFor(stat.team, key, existing.value))));
        }
      }
      r := Open(now, stat, requested.Some?, key, ids);
    }

    /** The live row of a stat, inserted under the name u if there is none. */
    method Catalogued(now: Time, stat: Stat, u: Uuid) returns (obj: Uuid)
      modifies this`rows
      ensures View() == WithRow(old(View()), now, stat, u) && obj == RowFor(old(View()), stat, u)
    {
      var live := FindLive(View(), stat.team, stat.digest, stat.size);
      if live.None? {
        rows := rows[u := Row(stat.team, stat.digest, stat.size, now, None)];
        return u;
      }
      return live.value;
    }

    /** Catalogue row, session in state promoted, pending hold, then the session committed to its hold. */
    method Open(now: Time, stat: Stat, keyed: bool, key: Key, ids: Ids) returns (r: Result<UploadRecord, LedgerError>)
      requires ids.session !in sessions
      modifies this
      ensures (View(), r) == OpenSession(old(View()), now, stat, keyed, key, ids)
    {
      hide WithRow, RowFor;
      var obj := Catalogued(now, stat, ids.row);
      sessions := sessions[ids.session := Session(stat.team, key, Promoted, obj, stat.digest, stat.size, None, None)];
      var owner := if keyed then UploadSession(ids.session) else PublicUpload(ids.owner);
      refs := refs[ids.ref := Ref(stat.team, obj, UploadPending, owner, now, None, Some(ids.session))];
      sessions := sessions[ids.session := sessions[ids.session].(state := Committed, pendingRef := Some(ids.ref))];
      assert sessions == old(sessions)[ids.session := Session(stat.team, key, Committed, obj, stat.digest, stat.size, Some(ids.ref), None)];
      r := Success(UploadRecord(obj, false, if keyed then Some(TokenFor(stat.team, key, ids.session)) else None));
    }

    method ReserveSession(team: Team, token: Token, task: Uuid, generation: int) returns (r: Result<bool, LedgerError>)
      modifies this`sessions
      ensures (View(), r) == ReserveTx(old(View()), team, token, task, generation)
    {
      if generation < 1 {
        return Failure(CommandInvalid);
      }
      var found := SessionOf(View(), team, token);
      if found.None? {
        return Failure(SessionNotFound);
      }
      var s := found.value;
      if sessions[s].state == Committed {
        sessions := sessions[s := sessions[s].(state := Reserved, reservedFor := Some((task, generation)))];
        return Success(true);
      }
      r := Success(false);
    }

    /** UPDATE mkb_object_references SET released_at=? over a set of live references. */
    method Release(picked: set<Uuid>, stamp: Time)
      modifies this`refs
      ensures View() == ReleaseRefs(old(View()), picked, stamp)
    {
      refs := map r | r in refs :: if r in picked && refs[r].releasedAt.None? then refs[r].(releasedAt := Some(stamp)) else refs[r];
    }

    method ConsumeSession(team: Team, token: Token, stamp: Time) returns (r: Result<bool, LedgerError>)
      modifies this`sessions, this`refs
      ensures (View(), r) == ConsumeTx(old(View()), team, token, stamp)
    {
      var found := SessionOf(View(), team, token);
      if found.None? {
        return Failure(SessionNotFound);
      }
      var s := found.value;
      if sessions[s].state != Reserved {
        return Success(false);
      }
      sessions := sessions[s := sessions[s].(state := Consumed)];
      Release(HoldsOf(View(), s), stamp);
      r := Success(true);
    }

    method CancelSession(team: Team, token: Token, stamp: Time) returns (r: Result<bool, LedgerError>)
      modifies this`sessions, this`refs
      ensures (View(), r) == CancelSessionTx(old(View()), team, token, stamp)
    {
      var found := SessionOf(View(), team, token);
      if found.None? {
        return Failure(SessionNotFound);
      }
      var s := found.value;
      var moved := sessions[s].state in CANCELLABLE;
      if moved {
        sessions := sessions[s := sessions[s].(state := Cancelled)];
      }
      Release(HoldsOf(View(), s), stamp);
      r := Success(moved);
    }

    method Stat(team: Team, digest: Digest, token: Option<Token>) returns (r: Result<Status, LedgerError>)
      ensures r == StatTx(View(), team, digest, token)
    {
      var session := None;
      if token.Some? {
        session := SessionOf(View(), team, token.value);
        if session.None? {
          return Failure(SessionNotFound);
        }
        if sessions[session.value].digest != digest {
          return Failure(SessionConflict);
        }
      }
      var stored := set u | u in rows && rows[u].At() == Coord(team, digest);
      if stored == {} {
        assert forall u | u in rows && rows[u].At() == Coord(team, digest) :: u in stored;
        assert LiveRows(View(), team, digest) <= stored;
        return Failure(ObjectNotFound);
      }
      assert exists u :: u in rows && rows[u].At() == Coord(team, digest) by { var u := Pick(stored); }
      var live := LiveRows(View(), team, digest);
      if live == {} {
        return Success(Gone);
      }
      if PendingOn(View(), team, MinOf(live), session) {
        return Success(Pending);
      }
      return Success(if IngestedFrom(View(), team, MinOf(live)) then Ingested else Unheld);
    }

    /** cancel(handle): the newest public-upload hold on the live object. */
    method CancelHandle(team: Team, digest: Digest, stamp: Time) returns (r: Result<bool, LedgerError>)
      modifies this`refs
      ensures (View(), r) == CancelHandleTx(old(View()), team, digest, stamp)
    {
      var stored := LiveRows(View(), team, digest);
      if stored == {} {
        return Failure(ObjectNotFound);
      }
      var holds := PublicHolds(View(), team, MinOf(stored));
      if holds == {} {
        return Success(false);
      }
      var newest := Latest(View(), holds);
      refs := refs[newest := refs[newest].(releasedAt := Some(stamp))];
      assert refs == ReleaseRefs(old(View()), {newest}, stamp).refs;
      return Success(true);
    }

    /** _catalog_stat, with uniqueness enforced by the database. */
    method CatalogStat(now: Time, stat: Stat, owner: Owner, u: Uuid, r: Uuid)
      modifies this`rows, this`refs
      ensures View() == CatalogTx(old(View()), now, stat, Some(owner), u, r)
    {
      if u in rows || r in refs {
        return;
      }
      hide WithRow, RowFor;
      var stored := Catalogued(now, stat, u);
      refs := refs[r := Ref(stat.team, stored, ProcessIo, owner, now, None, None)];
    }

    /** scan_once of the upload lifecycle: release each hold of the page and expire the session behind it. */
    method ExpireHolds(page: seq<Uuid>, stamp: Time, cutoff: Time, ghost limit: nat) returns (released: nat)
      requires HoldPage(View(), cutoff, limit, page)
      modifies this`sessions, this`refs
      ensures View() == ExpireTx(old(View()), Members(page), stamp)
      ensures released == |page|
      ensures |page| < limit ==> forall r :: !Abandoned(View(), r, cutoff)
    {
      released := 0;
      var i := 0;
      ghost var before := View();
      NoneExpired(before, page, stamp);
      hide ExpireTx, Members;
      while i < |page|
        invariant 0 <= i <= |page| && released == i
        invariant View() == ExpireTx(before, Members(page[..i]), stamp)
        invariant forall k | i <= k < |page| :: page[k] in refs && refs[page[k]] == before.refs[page[k]] && Held(before, page[k])
      {
        var r := page[i];
        assert r !in page[..i];
        OneMoreExpired(before, page, i, stamp);
        refs := refs[r := refs[r].(releasedAt := Some(stamp))];
        released := released + 1;
        if refs[r].session.Some? && refs[r].session.value in sessions && sessions[refs[r].session.value].state in CANCELLABLE {
          var s := refs[r].session.value;
          sessions := sessions[s := sessions[s].(state := Expired)];
        }
        i := i + 1;
      }
      assert page[..i] == page;
      if |page| < limit {
        ExpiredAreGone(before, Members(page), stamp, cutoff);
      }
    }

    /** TX1 of delete_candidate. */
    method Recheck(c: Candidate, now: Time, grace: int) returns (why: Option<Disposition>)
      ensures why == RecheckTx(View(), c, now, grace)
    {
      if !SameCatalogueRow(View(), c) {
        return Some(Stale);
      }
      if !GraceExpired(c, now, grace) {
        return Some(Stale);
      }
      why := Blocker(View(), c);
    }

    /** TX2 of delete_candidate: an exception rolls everything back. */
    method Finish(c: Candidate, now: Time, proof: Uuid) returns (finish: Finish)
      modifies this`rows, this`proofs
      ensures (View(), finish) == FinishTx(old(View()), c, now, proof)
    {
      if !SameCatalogueRow(View(), c) {
        return Conflict;
      }
      var blocker := Blocker(View(), c);
      if blocker.Some? {
        return Blocked(blocker.value);
      }
      if proof in proofs {
        return Faulted;
      }
      proofs := proofs[proof := Proof(c.team, c.obj, c.digest, c.size, now)];
      rows := rows[c.obj := rows[c.obj].(tombstonedAt := Some(now))];
      finish := Tombstoned;
    }
  }

  lemma NoneExpired(before: Db, page: seq<Uuid>, stamp: Time)
    ensures ExpireTx(before, Members(page[..0]), stamp) == before
  {
    assert SessionsBehind(before, {}) == {};
  }

  lemma ExpiredAreGone(before: Db, picked: set<Uuid>, stamp: Time, cutoff: Time)
    requires forall r | Abandoned(before, r, cutoff) :: r in picked
    ensures forall r :: !Abandoned(ExpireTx(before, picked, stamp), r, cutoff)
  {
    var after := ExpireTx(before, picked, stamp);
    forall r
      ensures !Abandoned(after, r, cutoff)
    {
      assert Abandoned(after, r, cutoff) ==> Abandoned(before, r, cutoff);
    }
  }

  /** One turn of the scan loop extends the expired set by one hold and the session behind it. */
  lemma OneMoreExpired(before: Db, page: seq<Uuid>, i: nat, stamp: Time)
    requires i < |page| && page[i] !in page[..i] && Held(before, page[i])
    ensures var now := ExpireTx(before, Members(page[..i]), stamp);
      var next := ExpireTx(before, Members(page[..i + 1]), stamp);
      var r := page[i];
      var s := before.refs[r].session;
      && r in now.refs
      && next.refs == now.refs[r := now.refs[r].(releasedAt := Some(stamp))]
      && next.sessions == (if s.Some? && s.value in now.sessions && now.sessions[s.value].state in CANCELLABLE
                           then now.sessions[s.value := now.sessions[s.value].(state := Expired)] else now.sessions)
  {
    assert page[..i + 1] == page[..i] + [page[i]];
    assert Members(page[..i + 1]) == Members(page[..i]) + {page[i]};
    OneMore(before, Members(page[..i]), page[i], stamp);
    hide ExpireTx, Members;
  }

  lemma OneMore(before: Db, picked: set<Uuid>, r: Uuid, stamp: Time)
    requires r !in picked && Held(before, r)
    ensures var now := ExpireTx(before, picked, stamp);
      var next := ExpireTx(before, picked + {r}, stamp);
      var s := before.refs[r].session;
      && r in now.refs
      && next.refs == now.refs[r := now.refs[r].(releasedAt := Some(stamp))]
      && next.sessions == (if s.Some? && s.value in now.sessions && now.sessions[s.value].state in CANCELLABLE
                           then now.sessions[s.value := now.sessions[s.value].(state := Expired)] else now.sessions)
  {
    hide SessionsBehind, ReleaseRefs;
    var s := before.refs[r].session;
    OneMoreRelease(before, picked, r, stamp);
    OneMoreBehind(before, picked, r);
    OneMoreSession(before.sessions, SessionsBehind(before, picked), s);
    ReleaseLeavesSessions(before, stamp);
  }

  lemma ReleaseLeavesSessions(db: Db, stamp: Time)
    ensures forall picked: set<Uuid> :: ReleaseRefs(db, picked, stamp).sessions == db.sessions
  {
  }

  lemma OneMoreRelease(db: Db, picked: set<Uuid>, r: Uuid, stamp: Time)
    requires r !in picked && Held(db, r)
    ensures var now := ReleaseRefs(db, picked, stamp);
      r in now.refs && ReleaseRefs(db, picked + {r}, stamp).refs == now.refs[r := now.refs[r].(releasedAt := Some(stamp))]
  {
  }

  lemma OneMoreBehind(db: Db, picked: set<Uuid>, r: Uuid)
    requires r in db.refs
    ensures SessionsBehind(db, picked + {r})
            == SessionsBehind(db, picked) + (if db.refs[r].session.Some? then {db.refs[r].session.value} else {})
  {
    if db.refs[r].session.Some? {
      assert r in picked + {r};
    }
  }

  function ExpireAll(sessions: map<Uuid, Session>, behind: set<Uuid>): map<Uuid, Session> {
    map s | s in sessions :: if s in behind && sessions[s].state in CANCELLABLE then sessions[s].(state := Expired) else sessions[s]
  }

  lemma OneMoreSession(sessions: map<Uuid, Session>, behind: set<Uuid>, s: Option<Uuid>)
    ensures var now := ExpireAll(sessions, behind);
      ExpireAll(sessions, behind + (if s.Some? then {s.value} else {})) ==
      if s.Some? && s.value in now && now[s.value].state in CANCELLABLE then now[s.value := now[s.value].(state := Expired)] else now
  {
  }

  /** The whole system in one process: tables, files, clock and the collector's memory. */
  class ObjectSystem {
    const cfg: Config
    const ledger: Ledger
    const store: LocalObjectStore
    var now: Time
    var promoted: set<Stat>
    ghost var scanner: Scanner

    constructor (cfg: Config, now: Time, teams: map<Team, bool>, maxObjectBytes: nat)
      ensures World() == Start(cfg, now, teams)
      ensures fresh(ledger) && fresh(store)
    {
      this.cfg, this.now, promoted, scanner := cfg, now, {}, Idle;
      ledger := new Ledger(teams);
      store := new LocalObjectStore(maxObjectBytes);
    }

    ghost function World(): World
      reads this, ledger, store
    {
      ObjectProtocol.World.World(cfg, now, ledger.View(), store.View(), promoted, scanner)
    }

    /** Everyone else takes any number of steps. */
    method Others(steps: seq<Step>)
      requires NoCollector(steps)
      modifies this, ledger, store
      ensures World() == Run(old(World()), steps)
      ensures scanner == old(scanner) && ledger.proofs == old(ledger.proofs) && store.quarantine == old(store.quarantine)
    {
      ghost var start := World();
      assert steps[..0] == [];
      for i := 0 to |steps|
        invariant World() == Run(start, steps[..i]) && scanner == start.scanner
      {
        ghost var before := World();
        OthersKeepScanner(before, steps[i]);
        RunAppend(start, steps[..i], [steps[i]]);
        RunOne(before, steps[i]);
        assert steps[..i + 1] == steps[..i] + [steps[i]];
        var here := ObjectProtocol.World.World(cfg, now, ledger.View(), store.View(), promoted, Idle);
        var there := Next(here, steps[i]);
        OthersIgnoreScanner(here, before, steps[i]);
        now, promoted := there.now, there.promoted;
        ledger.rows, ledger.refs, ledger.sessions := there.db.rows, there.db.refs, there.db.sessions;
        ledger.proofs, ledger.intents, ledger.teams := there.db.proofs, there.db.intents, there.db.teams;
        store.live, store.quarantine := there.store.live, there.store.quarantine;
      }
      assert steps[..|steps|] == steps;
      OthersLeaveProofs(start, steps);
    }

    /** delete_candidate; gaps[n] is what others do before its n-th step. A database failure of the second
        transaction is the one way out that leaves the bytes in quarantine. */
    method DeleteCandidate(c: Candidate, proof: Uuid, gaps: seq<seq<Step>>) returns (r: Result<Disposition, GcError>, ghost trace: seq<Step>)
      requires |gaps| == 4 && forall i | 0 <= i < 4 :: NoCollector(gaps[i])
      requires scanner.Idle?
      modifies this, ledger, store
      ensures World() == Run(old(World()), trace) && scanner.Idle?
      ensures (trace, r) == Deletion(old(World()), c, proof, gaps)
      ensures r == Success(Deleted) ==>
        && proof !in old(ledger.proofs) && proof in ledger.proofs
        && ledger.proofs == old(ledger.proofs)[proof := Proof(c.team, c.obj, c.digest, c.size, ledger.proofs[proof].unlinkedAt)]
      ensures r != Success(Deleted) ==> ledger.proofs == old(ledger.proofs)
      ensures r != Failure(Database) ==> store.quarantine.Keys <= old(store.quarantine.Keys)
      ensures r == Failure(Database) ==> store.quarantine.Keys == old(store.quarantine.Keys) + {c.At()}
      ensures r == Success(Deleted) ==> c.At() !in store.quarantine
    {
      ghost var start := World();
      hide Run, Next, FinishTx, RecheckTx, NoCollector, Finishing;
      Others(gaps[0]);
      trace := gaps[0];
      var why := ledger.Recheck(c, now, cfg.grace);
      RefusalsAreNotDeletions(ledger.View(), c, now, cfg.grace);
      if why.Some? {
        return Success(why.value), trace;
      }
      DeletionSteps(World(), c, proof);
      scanner := Deleting(c, Rechecked);
      trace := Grown(start, trace, BeginDelete(c), World());

      Others(gaps[1]);
      trace := Extended(start, trace, gaps[1], World());
      DeletionSteps(World(), c, proof);
      var moved := store.QuarantineObject(c.At());
      scanner := if moved then Deleting(c, Quarantined) else Idle;
      trace := Grown(start, trace, MoveAside, World());
      if !moved {
        return Success(MissingBytes), trace;
      }
      r, trace := FinishDeletion(start, trace, c, proof, gaps[2], gaps[3]);
    }

    /** The second half of delete_candidate, once the bytes are in quarantine. */
    method FinishDeletion(ghost start: ObjectProtocol.World, ghost trace: seq<Step>, c: Candidate, proof: Uuid, third: seq<Step>, fourth: seq<Step>)
      returns (r: Result<Disposition, GcError>, ghost trace': seq<Step>)
      requires NoCollector(third) && NoCollector(fourth)
      requires World() == Run(start, trace) && scanner == Deleting(c, Quarantined)
      modifies this, ledger, store
      ensures World() == Run(start, trace') && scanner.Idle?
      ensures (trace', r) == Finishing(start, trace, c, proof, third, fourth)
      ensures r == Success(Deleted) ==>
        && proof !in old(ledger.proofs) && proof in ledger.proofs
        && ledger.proofs == old(ledger.proofs)[proof := Proof(c.team, c.obj, c.digest, c.size, ledger.proofs[proof].unlinkedAt)]
      ensures r != Success(Deleted) ==> ledger.proofs == old(ledger.proofs)
      ensures r == Failure(Database) ==> store.quarantine == old(store.quarantine)
      ensures r != Failure(Database) ==> store.quarantine.Keys == old(store.quarantine.Keys) - {c.At()}
    {
      hide Run, Next, FinishTx, NoCollector;
      Others(third);
      trace' := Extended(start, trace, third, World());
      DeletionSteps(World(), c, proof);
      FinishProves(ledger.View(), c, now, proof);
      var finish := ledger.Finish(c, now, proof);
      scanner := AfterFinish(c, finish);
      trace' := Grown(start, trace', FinishDelete(proof), World());
      if finish == Faulted {
        return Failure(Database), trace';
      }
      Others(fourth);
      trace' := Extended(start, trace', fourth, World());
      DeletionSteps(World(), c, proof);
      if finish == Tombstoned {
        store.DestroyQuarantined(c.At());
        scanner := Idle;
        trace' := Grown(start, trace', Discard, World());
        return Success(Deleted), trace';
      }
      var present := store.RestoreQuarantined(c.At());
      scanner := Idle;
      trace' := Grown(start, trace', PutBack, World());
      r := if finish.Blocked? then Success(finish.why) else Failure(DeleteFence);
    }

    /** reconcile_quarantine over a listing; gaps[n] is what others do before its n-th step, and latest[k] the
        newest row the database chose for the k-th item. */
    method ReconcileQuarantine(listing: seq<Coord>, gaps: seq<seq<Step>>)
      returns (restored: nat, ghost trace: seq<Step>, ghost latest: seq<Uuid>)
      requires Lists(listing, store.quarantine) && scanner.Idle?
      requires forall i | 0 <= i < |gaps| :: NoCollector(gaps[i])
      modifies this, ledger, store
      ensures World() == Run(old(World()), trace) && ReconcileComplete(World())
      ensures |latest| == |listing|
      ensures Pass(trace, restored) == Passing(old(World()), [BeginReconcile(listing)], listing, gaps, latest).0
      ensures Inv(old(World())) ==>
        restored == PutBackBy(old(World()), trace) && restored + TakenBy(old(World()), trace) + |scanner.skipped| == |listing|
      ensures ledger.proofs == old(ledger.proofs)
    {
      hide Run, LiveRows, NewestRow, Visiting, Passing, Next, NoCollector, Lists, Inv, PutBackBy, TakenBy, NoCrash;
      ghost var start := World();
      ghost var begun := [BeginReconcile(listing)];
      restored, latest := 0, [];
      var n := 0;
      PassBegins(start, listing, gaps);
      scanner := Reconciling(listing, {}, NextItem);
      trace := begun;
      assert listing[0..] == listing && listing[..0] == [];
      for i := 0 to |listing|
        invariant World() == Run(start, trace)
        invariant scanner.Reconciling? && scanner.at == NextItem && scanner.todo == listing[i..]
        invariant |latest| == i && (Pass(trace, restored), n) == Passing(start, begun, listing[..i], gaps, latest)
        invariant (Inv(start) ==> restored == PutBackBy(start, trace)) && UninterruptedPass(begun, trace)
        invariant ledger.proofs == old(ledger.proofs)
      {
        assert listing[i..][0] == listing[i] && listing[i..][1..] == listing[i + 1..];
        var back;
        ghost var newest;
        PassingStep(start, begun, listing[..i + 1], gaps, latest);
        assert listing[..i + 1][..i] == listing[..i];
        ghost var sofar, m := trace, n;
        back, n, trace, newest := VisitListed(start, trace, listing[i], gaps, n);
        VisitCounts(start, sofar, listing[i], gaps, m, newest);
        VisitUninterrupted(start, begun, sofar, listing[i], gaps, m, newest);
        restored := restored + back;
        latest := latest + [newest];
      }
      assert listing[..|listing|] == listing;
      PassTotals(start, listing, trace);
    }

    /** One item of the listing: bytes with a live row go back, and the others are looked at again. */
    method VisitListed(ghost start: ObjectProtocol.World, ghost trace: seq<Step>, c: Coord, gaps: seq<seq<Step>>, n: nat)
      returns (restored: nat, n': nat, ghost trace': seq<Step>, ghost latest: Uuid)
      requires forall i | 0 <= i < |gaps| :: NoCollector(gaps[i])
      requires World() == Run(start, trace) && At(World(), NextItem) && scanner.todo[0] == c
      modifies this, ledger, store
      ensures World() == Run(start, trace') && ledger.proofs == old(ledger.proofs)
      ensures scanner.Reconciling? && scanner.at == NextItem && scanner.todo == old(scanner.todo)[1..]
      ensures Visit(trace', restored, n') == Visiting(start, trace, c, gaps, n, latest)
    {
      hide Run, LiveRows, Next, NoCollector, LookingAgain;
      ghost var todo, skipped := scanner.todo, scanner.skipped;
      restored, latest := 0, 0;
      trace', n' := Wait(start, trace, gaps, n);
      ListingSteps(World(), todo, skipped, 0);
      var live := LiveRows(ledger.View(), c.team, c.digest) != {};
      scanner := Reconciling(todo, skipped, if live then RestoreItem else NoLiveRow);
      trace' := Grown(start, trace', LookForLiveRow, World());
      trace', n' := Wait(start, trace', gaps, n');
      if !live {
        n', trace', latest := LookAgain(start, trace', c, gaps, n');
        return;
      }
      ListingSteps(World(), todo, skipped, 0);
      var present := store.RestoreQuarantined(c);
      restored := if present then 1 else 0;
      scanner := Reconciling(todo[1..], skipped, NextItem);
      trace' := Grown(start, trace', RestoreListed, World());
    }

    /** _persistence_row_tombstoned, and the destruction of bytes whose newest row is tombstoned. */
    method LookAgain(ghost start: ObjectProtocol.World, ghost trace: seq<Step>, c: Coord, gaps: seq<seq<Step>>, n: nat)
      returns (n': nat, ghost trace': seq<Step>, latest: Uuid)
      requires forall i | 0 <= i < |gaps| :: NoCollector(gaps[i])
      requires World() == Run(start, trace) && At(World(), NoLiveRow) && scanner.todo[0] == c
      modifies this, ledger, store
      ensures World() == Run(start, trace') && ledger.proofs == old(ledger.proofs)
      ensures scanner.Reconciling? && scanner.at == NextItem && scanner.todo == old(scanner.todo)[1..]
      ensures Visit(trace', 0, n') == LookingAgain(start, trace, c, gaps, n, latest)
    {
      hide Run, NewestRow, Next, NoCollector;
      ghost var todo, skipped := scanner.todo, scanner.skipped;
      n' := n;
      latest := 0;
      var tombstoned := false;
      SomeRowIsNewest(ledger.View(), c);
      if exists u | u in ledger.rows :: NewestRow(ledger.View(), c, u) {
        latest :| latest in ledger.rows && NewestRow(ledger.View(), c, latest);
        tombstoned := ledger.rows[latest].tombstonedAt.Some?;
      }
      ListingSteps(World(), todo, skipped, latest);
      scanner := if tombstoned then Reconciling(todo, skipped, DestroyItem)
                 else Reconciling(todo[1..], skipped + {c}, NextItem);
      trace' := Grown(start, trace, LookForTombstone(latest), World());
      if tombstoned {
        trace', n' := Wait(start, trace', gaps, n');
        ListingSteps(World(), todo, skipped, latest);
        store.DestroyQuarantined(c);
        scanner := Reconciling(todo[1..], skipped, NextItem);
        trace' := Grown(start, trace', DestroyListed, World());
      }
    }

    /** collect_candidates: the page of the query, each row as a candidate. */
    method CollectCandidates(limit: nat) returns (candidates: seq<Candidate>)
      ensures candidates == Candidates(World(), limit)
    {
      var db := ledger.View();
      var page := CandidatePage(db, now, cfg.grace, limit);
      CandidatePageExactly(db, now, cfg.grace, limit);
      candidates := seq(|page|, k requires 0 <= k < |page| => CandidateFor(db, page[k]));
    }

    /** scan_once: reconcile, collect, then delete every candidate, each failure caught; others act in every
        gap, and in the lull before the query. As many proofs are added as deletions are reported. */
    method ScanOnce(listing: seq<Coord>, pauses: seq<seq<Step>>, lull: seq<Step>, limit: nat, proofs: seq<Uuid>, gaps: seq<seq<seq<Step>>>)
      returns (results: seq<Result<Disposition, GcError>>, ghost trace: seq<Step>, ghost scanned: ObjectProtocol.World)
      requires Lists(listing, store.quarantine) && scanner.Idle?
      requires |proofs| == limit && |gaps| == limit && NoCollector(lull)
      requires forall i | 0 <= i < |pauses| :: NoCollector(pauses[i])
      requires forall k | 0 <= k < |gaps| :: |gaps[k]| == 4 && forall i | 0 <= i < 4 :: NoCollector(gaps[k][i])
      modifies this, ledger, store
      ensures World() == Run(old(World()), trace) && scanner.Idle?
      ensures |Candidates(scanned, limit)| <= limit
      ensures (World(), results) == Scanning(scanned, Candidates(scanned, limit), proofs, gaps)
      ensures exists pass: seq<Step> ::
                ReconcileComplete(Run(old(World()), pass)) && scanned == Run(Run(old(World()), pass), [Crash] + lull)
      ensures |ledger.proofs| == |old(ledger.proofs)| + Deletions(results)
    {
      hide Run, Next, NoCollector, Lists, ReconcileComplete, Scanning, Candidates, Passing;
      ghost var start := World();
      var restored;
      ghost var latest, pass, steps;
      restored, pass, latest := ReconcileQuarantine(listing, pauses);
      CrashForgets(World());
      scanner := Idle;
      trace := Grown(start, pass, Crash, World());
      Others(lull);
      trace := Extended(start, trace, lull, World());
      scanned := World();
      ScannedAfter(start, pass, lull);
      PageFits(scanned, limit);
      var candidates := CollectCandidates(limit);
      results, steps := DeleteEach(candidates, proofs, gaps);
      trace := Extended(start, trace, steps, World());
    }

    /** The loop of scan_once. */
    method DeleteEach(candidates: seq<Candidate>, proofs: seq<Uuid>, gaps: seq<seq<seq<Step>>>)
      returns (results: seq<Result<Disposition, GcError>>, ghost trace: seq<Step>)
      requires scanner.Idle? && |candidates| <= |proofs| && |candidates| <= |gaps|
      requires forall k | 0 <= k < |gaps| :: |gaps[k]| == 4 && forall i | 0 <= i < 4 :: NoCollector(gaps[k][i])
      modifies this, ledger, store
      ensures World() == Run(old(World()), trace) && scanner.Idle?
      ensures (World(), results) == Scanning(old(World()), candidates, proofs, gaps)
      ensures |ledger.proofs| == |old(ledger.proofs)| + Deletions(results)
    {
      hide Run, Next, NoCollector, Deletion;
      ghost var start := World();
      results, trace := [], [];
      RunNone(start);
      for k := 0 to |candidates|
        invariant World() == Run(start, trace) && scanner.Idle? && |results| == k
        invariant (World(), results) == Scanning(start, candidates[..k], proofs, gaps)
        invariant |ledger.proofs| == |old(ledger.proofs)| + Deletions(results)
      {
        var r;
        ghost var steps;
        assert candidates[..k + 1][..k] == candidates[..k];
        r, steps := DeleteCandidate(candidates[k], proofs[k], gaps[k]);
        trace := Extended(start, trace, steps, World());
        assert (results + [r])[..|results|] == results;
        results := results + [r];
      }
      assert candidates[..|candidates|] == candidates;
    }

    /** Let the others have the next gap. */
    method Wait(ghost start: ObjectProtocol.World, ghost trace: seq<Step>, gaps: seq<seq<Step>>, n: nat)
      returns (ghost trace': seq<Step>, n': nat)
      requires forall i | 0 <= i < |gaps| :: NoCollector(gaps[i])
      requires World() == Run(start, trace)
      modifies this, ledger, store
      ensures World() == Run(start, trace') && scanner == old(scanner) && ledger.proofs == old(ledger.proofs)
      ensures trace' == trace + GapAt(gaps, n) && n' == n + 1
    {
      trace', n' := trace, n + 1;
      assert trace + [] == trace;
      if n < |gaps| {
        Others(gaps[n]);
        trace' := Extended(start, trace, gaps[n], World());
      }
    }
  }

  /** The collector's steps inside delete_candidate, each where it is enabled. */
  lemma DeletionSteps(w: World, c: Candidate, proof: Uuid)
    ensures w.scanner.Idle? && RecheckTx(w.db, c, w.now, w.cfg.grace).None? ==>
      Next(w, BeginDelete(c)) == w.(scanner := Deleting(c, Rechecked))
    ensures w.scanner == Deleting(c, Rechecked) ==>
      Next(w, MoveAside) == w.(store := Quarantine(w.store, c.At()),
                               scanner := if c.At() in w.store.live then Deleting(c, Quarantined) else Idle)
    ensures w.scanner == Deleting(c, Quarantined) ==>
      var (db, finish) := FinishTx(w.db, c, w.now, proof);
      Next(w, FinishDelete(proof)) == w.(db := db, scanner := AfterFinish(c, finish))
    ensures w.scanner == Deleting(c, MustDestroy) ==> Next(w, Discard) == w.(store := Destroy(w.store, c.At()), scanner := Idle)
    ensures w.scanner == Deleting(c, MustRestore) ==> Next(w, PutBack) == w.(store := Restore(w.store, c.At()), scanner := Idle)
  {
    hide RecheckTx, FinishTx;
  }

  lemma FinishProves(db: Db, c: Candidate, now: Time, proof: Uuid)
    ensures var (db', finish) := FinishTx(db, c, now, proof);
      if finish == Tombstoned then proof !in db.proofs && db'.proofs == db.proofs[proof := Proof(c.team, c.obj, c.digest, c.size, now)]
      else db' == db && finish != Blocked(Deleted)
  {
    hide SameCatalogueRow;
  }

  lemma RefusalsAreNotDeletions(db: Db, c: Candidate, now: Time, grace: int)
    ensures RecheckTx(db, c, now, grace) != Some(Deleted)
  {
    hide SameCatalogueRow;
  }

  function AfterFinish(c: Candidate, finish: Finish): Scanner {
    match finish
    case Tombstoned => Deleting(c, MustDestroy)
    case Faulted => Idle
    case _ => Deleting(c, MustRestore)
  }

  /** The collector's steps over one listed item. */
  lemma ListingSteps(w: World, todo: seq<Coord>, skipped: set<Coord>, latest: Uuid)
    requires todo != []
    ensures w.scanner == Reconciling(todo, skipped, NextItem) ==>
      Next(w, LookForLiveRow) == w.(scanner := Reconciling(todo, skipped,
        if LiveRows(w.db, todo[0].team, todo[0].digest) == {} then NoLiveRow else RestoreItem))
    ensures w.scanner == Reconciling(todo, skipped, RestoreItem) ==>
      Next(w, RestoreListed) == w.(store := Restore(w.store, todo[0]), scanner := Reconciling(todo[1..], skipped, NextItem))
    ensures w.scanner == Reconciling(todo, skipped, DestroyItem) ==>
      Next(w, DestroyListed) == w.(store := Destroy(w.store, todo[0]), scanner := Reconciling(todo[1..], skipped, NextItem))
    ensures w.scanner == Reconciling(todo, skipped, NoLiveRow)
            && (NewestRow(w.db, todo[0], latest) || forall u | u in w.db.rows :: w.db.rows[u].At() != todo[0]) ==>
      Next(w, LookForTombstone(latest)) == w.(scanner :=
        if NewestRow(w.db, todo[0], latest) && w.db.rows[latest].tombstonedAt.Some? then Reconciling(todo, skipped, DestroyItem)
        else Reconciling(todo[1..], skipped + {todo[0]}, NextItem))
  {
    hide LiveRows, NewestRow;
  }

  lemma RunNone(w: World)
    ensures Run(w, []) == w
  {
  }

  lemma CrashForgets(w: World)
    ensures Next(w, Crash) == w.(scanner := Idle)
  {
  }

  datatype GcError = DeleteFence | Database

  /** The very run that deleting c is, from the world it starts in and what others do in its four gaps, and
      what it reports: here the part after the bytes are in quarantine. */
  function Finishing(w: World, trace: seq<Step>, c: Candidate, proof: Uuid, third: seq<Step>, fourth: seq<Step>):
    (seq<Step>, Result<Disposition, GcError>)
  {
    var here := Run(w, trace + third);
    var finished := trace + third + [FinishDelete(proof)];
    match FinishTx(here.db, c, here.now, proof).1
    case Faulted => (finished, Failure(Database))
    case Tombstoned => (finished + fourth + [Discard], Success(Deleted))
    case Blocked(why) => (finished + fourth + [PutBack], Success(why))
    case Conflict => (finished + fourth + [PutBack], Failure(DeleteFence))
  }

  function Deletion(w: World, c: Candidate, proof: Uuid, gaps: seq<seq<Step>>): (seq<Step>, Result<Disposition, GcError>)
    requires |gaps| == 4
  {
    var here := Run(w, gaps[0]);
    match RecheckTx(here.db, c, here.now, here.cfg.grace)
    case Some(why) => (gaps[0], Success(why))
    case None =>
      var begun := gaps[0] + [BeginDelete(c)] + gaps[1];
      if c.At() !in Run(w, begun).store.live then (begun + [MoveAside], Success(MissingBytes))
      else Finishing(w, begun + [MoveAside], c, proof, gaps[2], gaps[3])
  }

  function GapAt(gaps: seq<seq<Step>>, n: nat): seq<Step> {
    if n < |gaps| then gaps[n] else []
  }

  /** A pass so far, and a visit of one item: the run it is, what it put back, and the gaps it has used. */
  datatype Pass = Pass(trace: seq<Step>, restored: nat)
  datatype Visit = Visit(trace: seq<Step>, restored: nat, next: nat)

  function LookingAgain(w: World, trace: seq<Step>, c: Coord, gaps: seq<seq<Step>>, n: nat, latest: Uuid): Visit {
    var seen := Run(w, trace);
    var again := trace + [LookForTombstone(latest)];
    if NewestRow(seen.db, c, latest) && seen.db.rows[latest].tombstonedAt.Some?
    then Visit(again + GapAt(gaps, n) + [DestroyListed], 0, n + 1)
    else Visit(again, 0, n)
  }

  function Visiting(w: World, trace: seq<Step>, c: Coord, gaps: seq<seq<Step>>, n: nat, latest: Uuid): Visit {
    var here := Run(w, trace + GapAt(gaps, n));
    var looked := trace + GapAt(gaps, n) + [LookForLiveRow] + GapAt(gaps, n + 1);
    if LiveRows(here.db, c.team, c.digest) == {} then LookingAgain(w, looked, c, gaps, n + 2, latest)
    else Visit(looked + [RestoreListed], if Holds(Run(w, looked).store, c) then 1 else 0, n + 2)
  }

  /** The very run that a pass over the listing is, with how many items it put back. */
  function Passing(w: World, begun: seq<Step>, listing: seq<Coord>, gaps: seq<seq<Step>>, latest: seq<Uuid>): (Pass, nat)
    requires |latest| == |listing|
  {
    if listing == [] then (Pass(begun, 0), 0)
    else
      var k := |listing| - 1;
      var (pass, n) := Passing(w, begun, listing[..k], gaps, latest[..k]);
      var visit := Visiting(w, pass.trace, listing[k], gaps, n, latest[k]);
      (Pass(visit.trace, pass.restored + visit.restored), visit.next)
  }

  /** The rest of a pass after its first step, without loss of the collector's memory. */
  ghost predicate UninterruptedPass(begun: seq<Step>, trace: seq<Step>) {
    |begun| == 1 && |trace| >= 1 && trace[0] == begun[0] && NoCrash(trace[1..])
  }

  lemma VisitUninterrupted(w: World, begun: seq<Step>, trace: seq<Step>, c: Coord, gaps: seq<seq<Step>>, n: nat, latest: Uuid)
    requires UninterruptedPass(begun, trace) && forall i | 0 <= i < |gaps| :: NoCollector(gaps[i])
    ensures UninterruptedPass(begun, Visiting(w, trace, c, gaps, n, latest).trace)
  {
    hide Run, LiveRows, NewestRow, Holds;
    GapsDoNotCrash(gaps);
    hide NoCollector;
    var visit := Visiting(w, trace, c, gaps, n, latest);
    assert trace <= visit.trace;
    forall i | 1 <= i < |visit.trace|
      ensures !visit.trace[i].Crash?
    {
      if i < |trace| {
        assert visit.trace[i] == trace[1..][i - 1];
      }
    }
  }

  lemma GapsDoNotCrash(gaps: seq<seq<Step>>)
    requires forall i | 0 <= i < |gaps| :: NoCollector(gaps[i])
    ensures forall n: nat, i | 0 <= i < |GapAt(gaps, n)| :: !GapAt(gaps, n)[i].Crash?
    ensures forall n: nat :: NoCollector(GapAt(gaps, n))
  {
  }

  /** A visit reports an item put back exactly when its run puts one back. */
  lemma VisitCounts(w: World, trace: seq<Step>, c: Coord, gaps: seq<seq<Step>>, n: nat, latest: Uuid)
    requires forall i | 0 <= i < |gaps| :: NoCollector(gaps[i])
    requires At(Run(w, trace), NextItem) && Run(w, trace).scanner.todo[0] == c
    ensures Inv(w) ==> PutBackBy(w, Visiting(w, trace, c, gaps, n, latest).trace)
                       == PutBackBy(w, trace) + Visiting(w, trace, c, gaps, n, latest).restored
  {
    hide Run, LiveRows, NewestRow, Next, Inv, NoCollector, PutBackBy, Holds;
    GapsDoNotCrash(gaps);
    var t1 := trace + GapAt(gaps, n);
    GapPutsNothingBack(w, trace, GapAt(gaps, n));
    var t2 := t1 + [LookForLiveRow];
    LookPutsNothingBack(w, t1);
    var t3 := t2 + GapAt(gaps, n + 1);
    GapPutsNothingBack(w, t2, GapAt(gaps, n + 1));
    var here := Run(w, t1);
    if LiveRows(here.db, c.team, c.digest) == {} {
      var t4 := t3 + [LookForTombstone(latest)];
      AskPutsNothingBack(w, t3, LookForTombstone(latest));
      GapPutsNothingBack(w, t4, GapAt(gaps, n + 2));
      AskPutsNothingBack(w, t4 + GapAt(gaps, n + 2), DestroyListed);
    } else if Inv(w) {
      RunKeepsInv(w, t3);
      ListedIsHeld(Run(w, t3));
      PutBackAppend(w, t3, [RestoreListed]);
      PutBackOne(Run(w, t3), RestoreListed);
    }
  }

  lemma GapPutsNothingBack(w: World, trace: seq<Step>, gap: seq<Step>)
    requires NoCollector(gap)
    ensures PutBackBy(w, trace + gap) == PutBackBy(w, trace) && Run(w, trace + gap).scanner == Run(w, trace).scanner
  {
    hide Run, PutBackBy, NoCollector;
    PutBackAppend(w, trace, gap);
    RunAppend(w, trace, gap);
    OthersPutNothingBack(Run(w, trace), gap);
  }

  lemma AskPutsNothingBack(w: World, trace: seq<Step>, step: Step)
    requires !step.RestoreListed?
    ensures PutBackBy(w, trace + [step]) == PutBackBy(w, trace)
  {
    hide Run, PutBackBy;
    PutBackAppend(w, trace, [step]);
    PutBackOne(Run(w, trace), step);
  }

  lemma LookPutsNothingBack(w: World, trace: seq<Step>)
    requires At(Run(w, trace), NextItem)
    ensures PutBackBy(w, trace + [LookForLiveRow]) == PutBackBy(w, trace)
    ensures var here := Run(w, trace);
      var there := Run(w, trace + [LookForLiveRow]);
      var c := here.scanner.todo[0];
      At(there, if LiveRows(here.db, c.team, c.digest) == {} then NoLiveRow else RestoreItem) && there.scanner.todo == here.scanner.todo
  {
    hide Run, PutBackBy, Next, LiveRows;
    AskPutsNothingBack(w, trace, LookForLiveRow);
    RunAppend(w, trace, [LookForLiveRow]);
    RunOne(Run(w, trace), LookForLiveRow);
    LookKeepsTodo(Run(w, trace));
  }

  /** The whole pass, added up. */
  lemma PassTotals(w: World, listing: seq<Coord>, trace: seq<Step>)
    requires w.scanner.Idle? && Lists(listing, w.store.quarantine) && UninterruptedPass([BeginReconcile(listing)], trace)
    requires ReconcileComplete(Run(w, trace))
    ensures Inv(w) ==> PutBackBy(w, trace) + TakenBy(w, trace) + |Run(w, trace).scanner.skipped| == |listing|
  {
    if Inv(w) {
      hide Inv, Lists, NoCrash;
      BeginShape(w, listing);
      ReconcileBegins(w, listing);
      hide Next;
      PassAccountsForEveryItem(Next(w, BeginReconcile(listing)), trace[1..]);
    }
  }

  lemma PassBegins(w: World, listing: seq<Coord>, gaps: seq<seq<Step>>)
    requires w.scanner.Idle? && Lists(listing, w.store.quarantine)
    ensures Run(w, [BeginReconcile(listing)]) == w.(scanner := Reconciling(listing, {}, NextItem))
    ensures Passing(w, [BeginReconcile(listing)], [], gaps, []) == (Pass([BeginReconcile(listing)], 0), 0)
    ensures PutBackBy(w, [BeginReconcile(listing)]) == 0 && UninterruptedPass([BeginReconcile(listing)], [BeginReconcile(listing)])
  {
    PutBackOne(w, BeginReconcile(listing));
    hide Run, Next, PutBackBy;
    BeginShape(w, listing);
    RunOne(w, BeginReconcile(listing));
  }

  lemma PassingStep(w: World, begun: seq<Step>, listing: seq<Coord>, gaps: seq<seq<Step>>, latest: seq<Uuid>)
    requires |listing| == |latest| + 1
    ensures var (pass, n) := Passing(w, begun, listing[..|latest|], gaps, latest);
      forall newest: Uuid {:trigger latest + [newest]} ::
        var visit := Visiting(w, pass.trace, listing[|latest|], gaps, n, newest);
        Passing(w, begun, listing, gaps, latest + [newest]) == (Pass(visit.trace, pass.restored + visit.restored), visit.next)
  {
    hide Visiting;
    forall newest: Uuid {:trigger latest + [newest]}
      ensures var (pass, n) := Passing(w, begun, listing[..|latest|], gaps, latest);
        var visit := Visiting(w, pass.trace, listing[|latest|], gaps, n, newest);
        Passing(w, begun, listing, gaps, latest + [newest]) == (Pass(visit.trace, pass.restored + visit.restored), visit.next)
    {
      assert (latest + [newest])[..|latest|] == latest;
    }
  }

  /** What the candidate query returns in a world. */
  function Candidates(w: World, limit: nat): seq<Candidate> {
    CandidatePageExactly(w.db, w.now, w.cfg.grace, limit);
    var page := CandidatePage(w.db, w.now, w.cfg.grace, limit);
    seq(|page|, k requires 0 <= k < |page| => CandidateFor(w.db, page[k]))
  }

  lemma ScannedAfter(start: World, pass: seq<Step>, lull: seq<Step>)
    ensures Run(start, pass + [Crash] + lull) == Run(Run(start, pass), [Crash] + lull)
  {
    RunAppend(start, pass, [Crash] + lull);
    assert pass + [Crash] + lull == pass + ([Crash] + lull);
  }

  lemma PageFits(w: World, limit: nat)
    ensures |Candidates(w, limit)| <= limit
  {
    CandidatePageExactly(w.db, w.now, w.cfg.grace, limit);
  }

  /** One deletion after the other, each starting in the world the one before it left. */
  function Scanning(w: World, candidates: seq<Candidate>, proofs: seq<Uuid>, gaps: seq<seq<seq<Step>>>):
    (World, seq<Result<Disposition, GcError>>)
    requires |candidates| <= |proofs| && |candidates| <= |gaps| && forall k | 0 <= k < |gaps| :: |gaps[k]| == 4
  {
    if candidates == [] then (w, [])
    else
      var k := |candidates| - 1;
      var (here, results) := Scanning(w, candidates[..k], proofs, gaps);
      var (steps, r) := Deletion(here, candidates[k], proofs[k], gaps[k]);
      (Run(here, steps), results + [r])
  }

  /** deleted_count of a scan. */
  function Deletions(results: seq<Result<Disposition, GcError>>): nat {
    if results == [] then 0
    else Deletions(results[..|results| - 1]) + if results[|results| - 1] == Success(Deleted) then 1 else 0
  }

  /** The trace grown by what took the system from the end of it to `here`. */
  ghost function Extended(start: World, trace: seq<Step>, more: seq<Step>, here: World): (longer: seq<Step>)
    requires here == Run(Run(start, trace), more)
    ensures here == Run(start, longer) && longer == trace + more
  {
    RunAppend(start, trace, more);
    trace + more
  }

  ghost function Grown(start: World, trace: seq<Step>, step: Step, here: World): (longer: seq<Step>)
    requires here == Next(Run(start, trace), step)
    ensures here == Run(start, longer) && longer == trace + [step]
  {
    RunOne(Run(start, trace), step);
    Extended(start, trace, [step], here)
  }

  lemma {:induction false} OthersLeaveProofs(w: World, steps: seq<Step>)
    requires NoCollector(steps)
    ensures Run(w, steps).db.proofs == w.db.proofs && Run(w, steps).store.quarantine == w.store.quarantine
    decreases |steps|
  {
    if steps != [] {
      OtherLeavesProofs(w, steps[0]);
      OthersLeaveProofs(Next(w, steps[0]), steps[1..]);
    }
  }

  lemma OtherLeavesProofs(w: World, step: Step)
    requires !IsCollector(step)
    ensures Next(w, step).db.proofs == w.db.proofs && Next(w, step).store.quarantine == w.store.quarantine
  {
    hide UploadTx, ReserveTx, ConsumeTx, CancelSessionTx, ExpireTx, CancelHandleTx, CatalogTx, NextCollector;
    match step
    case CancelHandle(team, digest, stamp) => OthersLeaveRest(w.db, w.now, step);
    case ExpireHolds(picked, stamp) => OthersLeaveRest(w.db, w.now, step);
    case Catalogue(stat, owner, row, ref) => OthersLeaveRest(w.db, w.now, step);
    case Upload(stat, requested, ids) => UploadKeepsTeams(w.db, w.now, stat, requested, ids);
    case Reserve(team, token, task, generation) => CommandsLeaveProofs(w.db, team, token, task, generation, 0);
    case Consume(team, token, stamp) => CommandsLeaveProofs(w.db, team, token, 0, 0, stamp);
    case CancelSession(team, token, stamp) => CommandsLeaveProofs(w.db, team, token, 0, 0, stamp);
    case _ =>
  }

  lemma OthersLeaveRest(db: Db, now: Time, step: Step)
    ensures step.CancelHandle? ==> CancelHandleTx(db, step.team, step.digest, step.stamp).0.proofs == db.proofs
    ensures step.ExpireHolds? ==> ExpireTx(db, step.picked, step.stamp).proofs == db.proofs
    ensures step.Catalogue? ==> CatalogTx(db, now, step.stat, step.owner, step.row, step.ref).proofs == db.proofs
  {
    hide LiveRows, PublicHolds, SessionsBehind, FindLive;
  }

  lemma CommandsLeaveProofs(db: Db, team: Team, token: Token, task: Uuid, generation: int, stamp: Time)
    ensures ReserveTx(db, team, token, task, generation).0.proofs == db.proofs
    ensures ConsumeTx(db, team, token, stamp).0.proofs == db.proofs
    ensures CancelSessionTx(db, team, token, stamp).0.proofs == db.proofs
  {
    hide HoldsOf, SessionOf, ReleaseRefs;
    ReleaseLeavesRest(stamp);
  }

  lemma ReleaseLeavesRest(stamp: Time)
    ensures forall db, picked: set<Uuid> :: ReleaseRefs(db, picked, stamp).proofs == db.proofs
  {
  }

  /** A location with any row at all has a newest one. */
  lemma SomeRowIsNewest(db: Db, c: Coord)
    ensures forall u | NewestRow(db, c, u) :: u in db.rows
    ensures (exists u | u in db.rows :: NewestRow(db, c, u)) || forall u | u in db.rows :: db.rows[u].At() != c
  {
    var times := set u | u in db.rows && db.rows[u].At() == c :: db.rows[u].createdAt;
    if u :| u in db.rows && db.rows[u].At() == c {
      assert db.rows[u].createdAt in times;
      var newest := MaxOf(times);
      assert forall x | x in db.rows && db.rows[x].At() == c :: db.rows[x].createdAt in times;
      var v :| v in db.rows && db.rows[v].At() == c && db.rows[v].createdAt == newest;
      assert NewestRow(db, c, v);
    }
  }

  lemma OthersKeepScanner(w: World, step: Step)
    requires !IsCollector(step)
    ensures Next(w, step).scanner == w.scanner && Next(w, step).cfg == w.cfg
  {
  }

  lemma OthersIgnoreScanner(a: World, b: World, step: Step)
    requires !IsCollector(step) && a == b.(scanner := a.scanner)
    ensures Next(a, step) == Next(b, step).(scanner := a.scanner)
  {
  }

  /** What a deletion reports, read off the last step of its run and the tables before it. */
  lemma DeletionReportsExactly(w: World, c: Candidate, proof: Uuid, gaps: seq<seq<Step>>)
    requires |gaps| == 4 && forall i | 0 <= i < 4 :: NoCollector(gaps[i])
    ensures var (trace, r) := Deletion(w, c, proof, gaps);
      var last := if trace == [] then Tick(0) else trace[|trace| - 1];
      && (r == Success(Deleted) <==> last.Discard?)
      && (r == Success(MissingBytes) <==> last.MoveAside?)
      && (r == Failure(Database) <==> last.FinishDelete?)
      && (last.PutBack? ==>
            var n := |trace| - 2 - |gaps[3]|;
            && 0 <= n < |trace|
            && var here := Run(w, trace[..n]);
            if SameCatalogueRow(here.db, c) then Blocker(here.db, c).Some? && r == Success(Blocker(here.db, c).value)
            else r == Failure(DeleteFence))
      && (!IsCollector(last) ==> trace == gaps[0] && var here := Run(w, gaps[0]);
            RecheckTx(here.db, c, here.now, here.cfg.grace).Some? && r == Success(RecheckTx(here.db, c, here.now, here.cfg.grace).value))
  {
    hide Run, RecheckTx, SameCatalogueRow, Blocker;
    var here := Run(w, gaps[0]);
    ChecksNeverDelete(here.db, c, here.now, here.cfg.grace);
    if RecheckTx(here.db, c, here.now, here.cfg.grace).Some? {
      assert gaps[0] != [] ==> !IsCollector(gaps[0][|gaps[0]| - 1]);
    } else {
      var begun := gaps[0] + [BeginDelete(c)] + gaps[1];
      if c.At() in Run(w, begun).store.live {
        FinishingReports(w, begun + [MoveAside], c, proof, gaps[2], gaps[3]);
      }
      hide Finishing;
    }
  }

  lemma ChecksNeverDelete(db: Db, c: Candidate, now: Time, grace: int)
    ensures RecheckTx(db, c, now, grace) !in {Some(Deleted), Some(MissingBytes)}
    ensures Blocker(db, c) !in {Some(Deleted), Some(MissingBytes)}
  {
    hide SameCatalogueRow, Fences, LiveRows, HoldingRefs;
  }

  lemma FinishingReports(w: World, trace: seq<Step>, c: Candidate, proof: Uuid, third: seq<Step>, fourth: seq<Step>)
    ensures var (whole, r) := Finishing(w, trace, c, proof, third, fourth);
      && whole != []
      && var last := whole[|whole| - 1];
      && (last.Discard? || last.FinishDelete? || last.PutBack?)
      && (r == Success(Deleted) <==> last.Discard?)
      && r != Success(MissingBytes)
      && (r == Failure(Database) <==> last.FinishDelete?)
      && (last.PutBack? ==>
            && |whole| == |trace + third| + 2 + |fourth| && whole[..|trace + third|] == trace + third
            && var here := Run(w, trace + third);
            if SameCatalogueRow(here.db, c) then Blocker(here.db, c).Some? && r == Success(Blocker(here.db, c).value)
            else r == Failure(DeleteFence))
  {
    hide Run, SameCatalogueRow, Blocker;
    var here := Run(w, trace + third);
    ChecksNeverDelete(here.db, c, 0, 0);
  }
}
