/** The one way a live row comes to have no bytes: a promotion that found its target present and commits its
    row after the collector has tombstoned that digest (src/storage/local_store.py:137-141,
    src/services/object_upload.py:136-165). */
module LateCommit {
  import opened Wrappers
  import opened LocalStore
  import opened ObjectLedger
  import opened ObjectProtocol
  import opened ByteSafety

  const BYTES: Blob := [7]
  const STAT := Stat(1, DigestOf(BYTES), 1)
  const ORPHAN := Candidate(1, 0, DigestOf(BYTES), 1, 0, 0)
  const KEY := Named("k")
  const IDS := Ids(1, 1, 1, 1, 1)

  /** The first uploader never references its row; the second promotes just before the collector moves the
      bytes aside, and commits just after they are gone. */
  const SCHEDULE: seq<Step> := [
    PromoteBytes(1, BYTES), Catalogue(STAT, None, 0, 0), Tick(20), BeginDelete(ORPHAN),
    PromoteBytes(1, BYTES),
    MoveAside, FinishDelete(0), Discard,
    Upload(STAT, Some(KEY), IDS)]

  function Begin(): World {
    Start(Config(10, 5), 0, map[1 := true])
  }

  const ROW := Row(1, DigestOf(BYTES), 1, 0, None)

  function Catalogued(): World {
    World(Config(10, 5), 20, Db(map[0 := ROW], map[], map[], map[], map[], map[1 := true]), Store(map[STAT.At() := BYTES], map[]), {STAT}, Idle)
  }

  function Emptied(): World {
    Catalogued().(db := Catalogued().db.(rows := map[0 := ROW.(tombstonedAt := Some(20))],
                                         proofs := map[0 := Proof(1, 0, DigestOf(BYTES), 1, 20)]),
                  store := Store(map[], map[]))
  }

  lemma OrphanIsCollectable(db: Db)
    requires db.rows == map[0 := ROW] && db.refs == map[] && db.intents == map[]
    ensures SameCatalogueRow(db, ORPHAN) && Blocker(db, ORPHAN).None?
  {
    assert Releases(db, 1, 0) == {};
    assert LiveRows(db, 1, DigestOf(BYTES)) == {0};
    assert HoldingRefs(db, 1, 0) == {};
  }

  lemma FirstHalf()
    ensures Run(Begin(), SCHEDULE[..3]) == Catalogued()
  {
    var w1 := Next(Begin(), SCHEDULE[0]);
    assert w1 == Begin().(store := Store(map[STAT.At() := BYTES], map[]), promoted := {STAT});
    assert FindLive(w1.db, 1, DigestOf(BYTES), 1).None?;
    var w2 := Next(w1, SCHEDULE[1]);
    assert w2.db == Catalogued().db;
    assert Next(w2, SCHEDULE[2]) == Catalogued();
    Three(Begin(), SCHEDULE[0], SCHEDULE[1], SCHEDULE[2]);
    assert SCHEDULE[..3] == [SCHEDULE[0], SCHEDULE[1], SCHEDULE[2]];
  }

  lemma Three(w: World, a: Step, b: Step, c: Step)
    ensures Run(w, [a, b, c]) == Next(Next(Next(w, a), b), c)
  {
    RunOne(Next(Next(w, a), b), c);
    RunAppend(Next(w, a), [b], [c]);
    RunOne(Next(w, a), b);
    RunAppend(w, [a], [b, c]);
    RunOne(w, a);
    assert [a, b, c] == [a] + [b, c] && [b, c] == [b] + [c];
    hide Run, Next;
  }

  function Moved(): World {
    Catalogued().(store := Store(map[], map[STAT.At() := BYTES]), scanner := Deleting(ORPHAN, Quarantined))
  }

  lemma MovedAside()
    ensures Run(Catalogued(), SCHEDULE[3..6]) == Moved()
  {
    var w := Catalogued();
    OrphanIsCollectable(w.db);
    var w1 := Next(w, BeginDelete(ORPHAN));
    assert w1 == w.(scanner := Deleting(ORPHAN, Rechecked)) by { hide SameCatalogueRow, Blocker; }
    assert Next(w1, PromoteBytes(1, BYTES)) == w1;
    assert Next(w1, MoveAside) == Moved();
    Three(w, SCHEDULE[3], SCHEDULE[4], SCHEDULE[5]);
    assert SCHEDULE[3..6] == [SCHEDULE[3], SCHEDULE[4], SCHEDULE[5]];
    hide Run, Next;
  }

  lemma Tombstoning()
    ensures Run(Moved(), [FinishDelete(0), Discard]) == Emptied()
  {
    OrphanIsCollectable(Moved().db);
    var w1 := Next(Moved(), FinishDelete(0));
    assert w1 == Emptied().(store := Store(map[], map[STAT.At() := BYTES]), scanner := Deleting(ORPHAN, MustDestroy)) by {
      hide SameCatalogueRow, Blocker;
    }
    assert Next(w1, Discard) == Emptied();
    RunOne(w1, Discard);
    RunOne(Moved(), FinishDelete(0));
    RunAppend(Moved(), [FinishDelete(0)], [Discard]);
    assert [FinishDelete(0)] + [Discard] == [FinishDelete(0), Discard];
    hide Run, Next;
  }

  lemma LateUpload()
    ensures var w := Next(Emptied(), SCHEDULE[8]);
      Live(w.db, 1) && w.db.rows[1].At() == STAT.At() && w.store == Store(map[], map[])
  {
    var db := Emptied().db;
    assert LiveRows(db, 1, DigestOf(BYTES)) == {};
    assert FindLive(db, 1, DigestOf(BYTES), 1).None?;
    assert SessionsFor(db, 1, KEY) == {};
  }

  /** Byte safety does not hold of every live row: this run of nine steps from the empty system ends with a
      live, freshly uploaded row whose bytes are in neither place. ByteSafetyExactly says which rows are safe. */
  lemma LateCommitLosesBytes()
    ensures var w := Run(Begin(), SCHEDULE);
      Inv(w) && Live(w.db, 1) && !Holds(w.store, w.db.rows[1].At()) && !Backed(w, w.db.rows[1].At())
  {
    hide Run, Next, Inv;
    FirstHalf();
    MovedAside();
    Tombstoning();
    LateUpload();
    RunOne(Emptied(), SCHEDULE[8]);
    RunAppend(Begin(), SCHEDULE[..3], SCHEDULE[3..6]);
    RunAppend(Begin(), SCHEDULE[..3] + SCHEDULE[3..6], [FinishDelete(0), Discard]);
    RunAppend(Begin(), SCHEDULE[..3] + SCHEDULE[3..6] + [FinishDelete(0), Discard], [SCHEDULE[8]]);
    assert SCHEDULE == SCHEDULE[..3] + SCHEDULE[3..6] + [FinishDelete(0), Discard] + [SCHEDULE[8]];
    StartSound(Config(10, 5), 0, map[1 := true]);
    RunKeepsInv(Begin(), SCHEDULE);
  }
}
