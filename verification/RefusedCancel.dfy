/** What a refused cancel can cost (src/services/object_upload_ttl.py:93-122, src/services/object_upload.py:341-361):
    a run in which a reserved session is "not cancelled", loses its object to the collector, and is then consumed. */
module RefusedCancel {
  import opened Wrappers
  import opened LocalStore
  import opened ObjectLedger
  import opened ObjectProtocol
  import opened ByteSafety
  import opened UploadSessions
  import opened LateCommit

  const AT: Coord := STAT.At()
  const TOKEN: Token := TokenFor(1, KEY, 1)
  const UPLOADED: Candidate := Candidate(1, 1, DigestOf(BYTES), 1, 0, 0)

  /** The session, its hold and its row, in the state they have reached. */
  function Tables(state: SessionState, owner: Option<(Uuid, nat)>, released: Option<Time>, tombstoned: Option<Time>): Db {
    Db(map[1 := Row(1, DigestOf(BYTES), 1, 0, tombstoned)],
       map[1 := Ref(1, 1, UploadPending, UploadSession(1), 0, released, Some(1))],
       map[1 := Session(1, KEY, state, 1, DigestOf(BYTES), 1, Some(1), owner)],
       if tombstoned.Some? then map[0 := Proof(1, 1, DigestOf(BYTES), 1, tombstoned.value)] else map[],
       map[], map[1 := true])
  }

  function Worlds(now: Time, db: Db, store: Store, scanner: Scanner): World {
    World(Config(10, 5), now, db, store, {STAT}, scanner)
  }

  function Present(): Store { Store(map[AT := BYTES], map[]) }
  function Aside(): Store { Store(map[], map[AT := BYTES]) }

  function Committing(): World { Worlds(0, Tables(Committed, None, None, None), Present(), Idle) }
  function Reserving(): World { Worlds(0, Tables(Reserved, Some((7, 1)), None, None), Present(), Idle) }
  function Unheld(): World { Worlds(0, Tables(Reserved, Some((7, 1)), Some(0), None), Present(), Idle) }
  function Old(): World { Unheld().(now := 20) }
  function Collected(): World { Worlds(20, Tables(Reserved, Some((7, 1)), Some(0), Some(20)), Store(map[], map[]), Idle) }

  const UPLOADING: seq<Step> := [PromoteBytes(1, BYTES), Upload(STAT, Some(KEY), IDS), Reserve(1, TOKEN, 7, 1)]
  const REFUSAL: seq<Step> := [CancelSession(1, TOKEN, 0), Tick(20), BeginDelete(UPLOADED)]
  const DELETION: seq<Step> := [MoveAside, FinishDelete(0), Discard]

  lemma Uploads()
    ensures Run(Begin(), UPLOADING) == Reserving()
  {
    var w1 := Next(Begin(), PromoteBytes(1, BYTES));
    assert w1 == Begin().(store := Present(), promoted := {STAT});
    UploadsFirst(w1);
    assert Next(Committing(), Reserve(1, TOKEN, 7, 1)) == Reserving();
    Three(Begin(), UPLOADING[0], UPLOADING[1], UPLOADING[2]);
    hide Run, Next;
  }

  lemma UploadsFirst(w: World)
    requires w == Begin().(store := Present(), promoted := {STAT})
    ensures Next(w, Upload(STAT, Some(KEY), IDS)) == Committing()
  {
    assert FindLive(w.db, 1, DigestOf(BYTES), 1).None?;
    assert SessionsFor(w.db, 1, KEY) == {};
  }

  lemma IsRefused()
    ensures CancelSessionTx(Reserving().db, 1, TOKEN, 0) == (Unheld().db, Success(false))
  {
    assert HoldsOf(Reserving().db, 1) == {1};
    assert ReleaseRefs(Reserving().db, {1}, 0) == Unheld().db;
    hide HoldsOf, ReleaseRefs;
  }

  lemma UploadIsCollectable(db: Db)
    requires db == Unheld().db
    ensures SameCatalogueRow(db, UPLOADED) && Blocker(db, UPLOADED).None?
  {
    assert db.refs[1].releasedAt.value in Releases(db, 1, 1);
    assert Releases(db, 1, 1) == {0};
    assert LiveRows(db, 1, DigestOf(BYTES)) == {1};
    assert HoldingRefs(db, 1, 1) == {};
  }

  lemma RefusedThenChecked()
    ensures Run(Reserving(), REFUSAL) == Old().(scanner := Deleting(UPLOADED, Rechecked))
  {
    hide Run, CancelSessionTx, SameCatalogueRow, Blocker;
    IsRefused();
    assert Next(Reserving(), CancelSession(1, TOKEN, 0)) == Unheld();
    assert Next(Unheld(), Tick(20)) == Old();
    UploadIsCollectable(Old().db);
    assert Next(Old(), BeginDelete(UPLOADED)) == Old().(scanner := Deleting(UPLOADED, Rechecked));
    Three(Reserving(), REFUSAL[0], REFUSAL[1], REFUSAL[2]);
  }

  lemma IsDeleted()
    ensures Run(Old().(scanner := Deleting(UPLOADED, Rechecked)), DELETION) == Collected()
  {
    hide Run, SameCatalogueRow, Blocker;
    var w := Old().(scanner := Deleting(UPLOADED, Rechecked));
    var w1 := Next(w, MoveAside);
    assert w1 == w.(store := Aside(), scanner := Deleting(UPLOADED, Quarantined));
    UploadIsCollectable(w1.db);
    var w2 := Next(w1, FinishDelete(0));
    assert w2 == Collected().(store := Aside(), scanner := Deleting(UPLOADED, MustDestroy));
    assert Next(w2, Discard) == Collected();
    Three(w, MoveAside, FinishDelete(0), Discard);
  }

  /** From the empty system: the cancel of a reserved session returns false, the collector then tombstones its
      row and destroys its bytes, and consume_session still succeeds. */
  lemma RefusedCancelLosesAReservation()
    ensures Run(Begin(), UPLOADING) == Reserving() && Guarded(Reserving().db, 1)
    ensures CancelSessionTx(Reserving().db, 1, TOKEN, 0).1 == Success(false)
    ensures var w := Run(Begin(), UPLOADING + REFUSAL + DELETION);
      && 1 in w.db.sessions && w.db.sessions[1].state == Reserved && 1 in w.db.rows && w.db.rows[1].tombstonedAt.Some? && !Holds(w.store, AT)
      && ConsumeTx(w.db, 1, TOKEN, w.now).1 == Success(true)
  {
    hide Run, Next;
    Uploads();
    IsRefused();
    RefusedThenChecked();
    IsDeleted();
    RunAppend(Begin(), UPLOADING, REFUSAL);
    RunAppend(Begin(), UPLOADING + REFUSAL, DELETION);
  }
}
