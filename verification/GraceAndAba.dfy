/** The grace period and the reference that comes and goes between the collector's two checks
    (src/services/object_gc.py:240-289, 463-491). */
module GraceAndAba {
  import opened Wrappers
  import opened LocalStore
  import opened ObjectLedger
  import opened ObjectProtocol
  import opened ByteSafety

  /** By the ledger's own stamps, some reference held the row at time t. */
  ghost predicate OwnedAt(db: Db, u: Uuid, t: Time) {
    exists r :: r in db.refs && db.refs[r].obj == u && db.refs[r].createdAt <= t
                && (db.refs[r].releasedAt.None? || t < db.refs[r].releasedAt.value)
  }

  /** In every reachable world, by the ledger's stamps, a tombstoned row was owned by nobody at any moment of
      the grace period before its tombstone nor ever since, was at least that old if nobody ever owned it, and
      exactly one proof records it. */
  lemma {:induction false} TombstonedOnlyAfterGrace(w: World, steps: seq<Step>, u: Uuid)
    requires Inv(w) && u in Run(w, steps).db.rows && Run(w, steps).db.rows[u].tombstonedAt.Some?
    ensures var db := Run(w, steps).db;
      && (forall t | db.rows[u].tombstonedAt.value - w.cfg.grace <= t :: !OwnedAt(db, u, t))
      && ((forall r | r in db.refs :: db.refs[r].obj != u) ==> db.rows[u].createdAt <= db.rows[u].tombstonedAt.value - w.cfg.grace)
      && (exists p :: Proves(db, p, u) && forall q | q in db.proofs && db.proofs[q].obj == u :: q == p)
  {
    hide Run, Inv;
    RunKeepsInv(w, steps);
    RunKeepsConfig(w, steps);
    TombstoneWasDue(Run(w, steps), u);
  }

  lemma TombstoneWasDue(w: World, u: Uuid)
    requires Inv(w) && u in w.db.rows && w.db.rows[u].tombstonedAt.Some?
    ensures forall t | w.db.rows[u].tombstonedAt.value - w.cfg.grace <= t :: !OwnedAt(w.db, u, t)
    ensures (forall r | r in w.db.refs :: w.db.refs[r].obj != u) ==> w.db.rows[u].createdAt <= w.db.rows[u].tombstonedAt.value - w.cfg.grace
    ensures exists p :: Proves(w.db, p, u) && forall q | q in w.db.proofs && w.db.proofs[q].obj == u :: q == p
  {
    hide BytesMatch, PromotedSound, QuarantineCatalogued, ScannerSound, OneLiveRow, RowsSound, RefsSound;
    var p :| Proves(w.db, p, u);
    assert Proves(w.db, p, u) && forall q | q in w.db.proofs && w.db.proofs[q].obj == u :: q == p;
  }

  lemma {:induction false} RunKeepsConfig(w: World, steps: seq<Step>)
    ensures Run(w, steps).cfg == w.cfg
    decreases |steps|
  {
    if steps != [] {
      RunKeepsConfig(Next(w, steps[0]), steps[1..]);
    }
  }

  /** References that appeared since `before` are unreleased or were released after `bar`. */
  ghost predicate NewAreLate(before: Db, db: Db, bar: Time) {
    forall r | r in db.refs && r !in before.refs :: db.refs[r].releasedAt.None? || db.refs[r].releasedAt.value > bar
  }

  lemma {:induction false} NewReleasesAreLate(before: Db, w: World, steps: seq<Step>, bar: Time)
    requires Inv(w) && NewAreLate(before, w.db, bar) && bar <= w.now - w.cfg.grace
    requires forall i | 0 <= i < |steps| :: !IsCollector(steps[i]) || steps[i].MoveAside?
    ensures Inv(Run(w, steps)) && NewAreLate(before, Run(w, steps).db, bar)
    decreases |steps|
  {
    if steps != [] {
      RunKeepsInv(w, [steps[0]]);
      RunOne(w, steps[0]);
      LateStep(before, w, steps[0], bar);
      hide Next, Inv, NewAreLate;
      NewReleasesAreLate(before, Next(w, steps[0]), steps[1..], bar);
    }
  }

  lemma LateStep(before: Db, w: World, step: Step, bar: Time)
    requires Inv(w) && NewAreLate(before, w.db, bar) && bar <= w.now - w.cfg.grace
    requires !IsCollector(step) || step.MoveAside?
    ensures NewAreLate(before, Next(w, step).db, bar) && bar <= Next(w, step).now - Next(w, step).cfg.grace
  {
    if step.MoveAside? {
      CollectorWrites(w, step);
    } else {
      OthersGrow(w, step);
      hide Next, Inv;
      var db := Next(w, step).db;
      forall r | r in db.refs && r !in before.refs
        ensures db.refs[r].releasedAt.None? || db.refs[r].releasedAt.value > bar
      {
        assert r in w.db.refs ==> Kept(w.db.refs[r], db.refs[r], w.now, w.cfg.grace);
      }
    }
  }

  /** Between the first check of a candidate and the second, a reference that was taken makes the second
      check refuse, also when it has been released again: the release moves unowned_at. */
  lemma TakenReferenceAbortsTombstone(w: World, c: Candidate, between: seq<Step>, w1: World, r: Uuid, proof: Uuid)
    requires Inv(w) && w.scanner.Idle? && RecheckTx(w.db, c, w.now, w.cfg.grace).None?
    requires forall i | 0 <= i < |between| :: !IsCollector(between[i]) || between[i].MoveAside?
    requires w1 == Run(Next(w, BeginDelete(c)), between)
    requires r in w1.db.refs && r !in w.db.refs && w1.db.refs[r].obj == c.obj
    ensures c.obj in w1.db.rows
    ensures w1.db.refs[r].releasedAt.Some? ==> UnownedAt(w1.db, c.obj) > c.unownedAt
    ensures FinishTx(w1.db, c, w1.now, proof).1 != Tombstoned
  {
    hide Run, Next, Inv, RecheckTx, FinishTx;
    FirstCheckPasses(w, c);
    NewReleasesAreLate(w.db, Next(w, BeginDelete(c)), between, w.now - w.cfg.grace);
    LateReleaseRefuses(w1, c, r, w.now - w.cfg.grace, proof);
  }

  lemma FirstCheckPasses(w: World, c: Candidate)
    requires Inv(w) && w.scanner.Idle? && RecheckTx(w.db, c, w.now, w.cfg.grace).None?
    ensures var w0 := Next(w, BeginDelete(c));
      Inv(w0) && w0.db == w.db && w0.now == w.now && w0.cfg == w.cfg && c.unownedAt <= w.now - w.cfg.grace
  {
    BeginDeleteSound(w, c);
    hide Inv, SameCatalogueRow, Blocker;
  }

  lemma LateReleaseRefuses(w: World, c: Candidate, r: Uuid, bar: Time, proof: Uuid)
    requires Inv(w) && r in w.db.refs && w.db.refs[r].obj == c.obj && c.unownedAt <= bar
    requires w.db.refs[r].releasedAt.None? || w.db.refs[r].releasedAt.value > bar
    ensures c.obj in w.db.rows
    ensures w.db.refs[r].releasedAt.Some? ==> UnownedAt(w.db, c.obj) > c.unownedAt
    ensures FinishTx(w.db, c, w.now, proof).1 != Tombstoned
  {
    UnownedBounds(w.db, c.obj, w.now);
    if FinishTx(w.db, c, w.now, proof).1 == Tombstoned {
      TombstonedWasUnowned(w.db, c, w.now, proof);
    }
    hide FinishTx;
  }

  // ---------- the candidate query ----------

  /** The row satisfies the query of collect_candidates. */
  predicate Collectable(db: Db, u: Uuid, now: Time, grace: int) {
    Live(db, u) && UnownedAt(db, u) <= now - grace && HoldingRefs(db, db.rows[u].team, u) == {}
  }

  function CandidateFor(db: Db, u: Uuid): Candidate
    requires u in db.rows
  {
    var row := db.rows[u];
    Candidate(row.team, u, row.digest, row.size, row.createdAt, UnownedAt(db, u))
  }

  /** The query and the first check agree: of the rows of a sound ledger it returns exactly those that the
      check would pass at once, or stop only for a cleanup fence. */
  lemma CollectableExactly(db: Db, u: Uuid, now: Time, grace: int)
    requires LedgerInv(db, now, grace) && Live(db, u)
    ensures Collectable(db, u, now, grace) <==>
            RecheckTx(db, CandidateFor(db, u), now, grace) in {None, Some(CleanupFence)}
  {
    var row := db.rows[u];
    assert LiveRows(db, row.team, row.digest) == {u} by {
      assert forall v | v in LiveRows(db, row.team, row.digest) :: Live(db, v) && v == u;
      assert u in LiveRows(db, row.team, row.digest);
    }
    hide UnownedAt, Fences;
  }

  function CollectableRows(db: Db, now: Time, grace: int): set<Uuid> {
    set u | u in db.rows && Collectable(db, u, now, grace)
  }

  /** ORDER BY created_at, stored_object_uuid. */
  predicate Before(db: Db, u: Uuid, v: Uuid) {
    u in db.rows && v in db.rows
    && (db.rows[u].createdAt < db.rows[v].createdAt || (db.rows[u].createdAt == db.rows[v].createdAt && u < v))
  }

  predicate IsFirst(db: Db, s: set<Uuid>, u: Uuid) {
    u in s && forall v | v in s :: v == u || Before(db, u, v)
  }

  lemma {:induction false} SomeRowIsFirst(db: Db, s: set<Uuid>) returns (u: Uuid)
    requires s != {} && s <= db.rows.Keys
    ensures IsFirst(db, s, u)
  {
    var y := Pick(s);
    var rest := s - {y};
    u := y;
    if rest != {} {
      var first := SomeRowIsFirst(db, rest);
      u := if Before(db, y, first) then y else first;
    }
    forall v | v in s
      ensures v == u || Before(db, u, v)
    {
      assert v == y || v in rest;
    }
  }

  lemma HasFirst(db: Db, s: set<Uuid>)
    requires s != {} && s <= db.rows.Keys
    ensures exists u :: IsFirst(db, s, u)
  {
    var u := SomeRowIsFirst(db, s);
  }

  function OldestFirst(db: Db, s: set<Uuid>): (ids: seq<Uuid>)
    requires s <= db.rows.Keys
    ensures |ids| == |s| && (forall u :: u in ids <==> u in s)
    ensures forall i, j | 0 <= i < j < |ids| :: Before(db, ids[i], ids[j])
  {
    if s == {} then []
    else
      HasFirst(db, s);
      var u :| IsFirst(db, s, u);
      var rest := OldestFirst(db, s - {u});
      assert forall v | v in rest :: Before(db, u, v);
      [u] + rest
  }

  /** collect_candidates: the rows one query returns. */
  function CandidatePage(db: Db, now: Time, grace: int, limit: nat): seq<Uuid> {
    var ids := OldestFirst(db, CollectableRows(db, now, grace));
    if |ids| <= limit then ids else ids[..limit]
  }

  /** The page holds collectable rows only, oldest first, none twice, and leaves one out only when it is full
      of older ones. */
  lemma CandidatePageExactly(db: Db, now: Time, grace: int, limit: nat)
    ensures var page := CandidatePage(db, now, grace, limit);
      && |page| <= limit
      && (forall u | u in page :: u in db.rows && Collectable(db, u, now, grace))
      && (forall i, j | 0 <= i < j < |page| :: Before(db, page[i], page[j]))
      && (forall v | v in db.rows && Collectable(db, v, now, grace) && v !in page ::
            |page| == limit && forall u | u in page :: Before(db, u, v))
  {
    hide Collectable, OldestFirst;
    var rows := CollectableRows(db, now, grace);
    var ids := OldestFirst(db, rows);
    var page := CandidatePage(db, now, grace, limit);
    assert forall u | u in page :: u in ids;
    forall v | v in rows && v !in page
      ensures |page| == limit && forall u | u in page :: Before(db, u, v)
    {
      assert v in ids;
    }
  }
}
