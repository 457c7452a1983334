/** A completed reconciliation that leaves the only copy of a live row's bytes in quarantine
    (src/services/object_gc.py:169-203): the collector dies between tombstone and destruction, and an upload
    that had promoted before the bytes were moved aside commits between the two reads of the next pass. */
module SteppedOver {
  import opened Wrappers
  import opened LocalStore
  import opened ObjectLedger
  import opened ObjectProtocol
  import opened ByteSafety
  import opened LateCommit

  const AT: Coord := STAT.At()

  /** The collector is gone, the row is tombstoned and its bytes are still in quarantine. */
  function Crashed(): World {
    Emptied().(store := Store(map[], map[AT := BYTES]))
  }

  /** A pass has found no live row for the quarantined bytes. */
  function LookedOnce(): World {
    Crashed().(scanner := Reconciling([AT], {}, NoLiveRow))
  }

  const DEATH: seq<Step> := [FinishDelete(0), Crash]
  const PASS: seq<Step> := [BeginReconcile([AT]), LookForLiveRow]
  const RACE: seq<Step> := [Upload(STAT, Some(KEY), IDS), LookForTombstone(1)]

  function Two(w: World, a: Step, b: Step): World {
    Next(Next(w, a), b)
  }

  lemma RunTwo(w: World, a: Step, b: Step)
    ensures Run(w, [a, b]) == Two(w, a, b)
  {
    hide Next, Run;
    RunOne(w, a);
    RunOne(Next(w, a), b);
    RunAppend(w, [a], [b]);
    assert [a] + [b] == [a, b];
  }

  lemma Dies()
    ensures Run(Moved(), DEATH) == Crashed()
  {
    OrphanIsCollectable(Moved().db);
    var w := Next(Moved(), FinishDelete(0));
    assert w == Crashed().(scanner := Deleting(ORPHAN, MustDestroy)) by {
      hide SameCatalogueRow, Blocker;
    }
    assert Next(w, Crash) == Crashed();
    RunTwo(Moved(), FinishDelete(0), Crash);
    hide Run, Next;
  }

  lemma LooksOnce()
    ensures Run(Crashed(), PASS) == LookedOnce()
  {
    var w := Crashed();
    assert (set c | c in [AT]) == {AT} && Lists([AT], w.store.quarantine);
    var w1 := Next(w, BeginReconcile([AT]));
    assert w1 == w.(scanner := Reconciling([AT], {}, NextItem));
    assert LiveRows(w1.db, 1, DigestOf(BYTES)) == {};
    assert Next(w1, LookForLiveRow) == LookedOnce();
    RunTwo(w, BeginReconcile([AT]), LookForLiveRow);
    hide Run, Next;
  }

  lemma Races()
    ensures var w := Run(LookedOnce(), RACE);
      Live(w.db, 1) && w.db.rows[1].At() == AT && w.scanner == Reconciling([], {AT}, NextItem)
      && w.store == LookedOnce().store
  {
    hide Run, Next;
    var w := LookedOnce();
    var w1 := Next(w, Upload(STAT, Some(KEY), IDS));
    UploadsAgain(w);
    StepsOver(w1);
    RunTwo(w, Upload(STAT, Some(KEY), IDS), LookForTombstone(1));
  }

  lemma StepsOver(w: World)
    requires w.scanner == LookedOnce().scanner
    requires w.db.rows == Emptied().db.rows[1 := Row(1, DigestOf(BYTES), 1, 20, None)]
    ensures Next(w, LookForTombstone(1)) == w.(scanner := Reconciling([], {AT}, NextItem))
  {
    assert NewestRow(w.db, AT, 1);
    var none: set<Coord> := {};
    assert [AT][1..] == [] && none + {AT} == {AT};
  }

  lemma UploadsAgain(w: World)
    requires w.db == Emptied().db && w.now == 20 && STAT in w.promoted
    ensures var w' := Next(w, Upload(STAT, Some(KEY), IDS));
      w'.db.rows == w.db.rows[1 := Row(1, DigestOf(BYTES), 1, 20, None)] && w' == w.(db := w'.db)
  {
    assert LiveRows(w.db, 1, DigestOf(BYTES)) == {};
    assert FindLive(w.db, 1, DigestOf(BYTES), 1).None?;
    assert SessionsFor(w.db, 1, KEY) == {};
  }

  /** From the empty system, a pass completes while a live row's bytes are in quarantine and nowhere else, so
      a verified read of it fails until the next pass. */
  lemma PassLeavesQuarantineNonEmpty()
    ensures var w := Run(Begin(), SCHEDULE[..6] + DEATH + PASS + RACE);
      Inv(w) && ReconcileComplete(w) && w.store == Store(map[], map[AT := BYTES]) && Live(w.db, 1) && w.db.rows[1].At() == AT
  {
    hide Run, Next, Inv;
    FirstHalf();
    MovedAside();
    Dies();
    LooksOnce();
    Races();
    RunAppend(Begin(), SCHEDULE[..3], SCHEDULE[3..6]);
    assert SCHEDULE[..6] == SCHEDULE[..3] + SCHEDULE[3..6];
    RunAppend(Begin(), SCHEDULE[..6], DEATH);
    RunAppend(Begin(), SCHEDULE[..6] + DEATH, PASS);
    RunAppend(Begin(), SCHEDULE[..6] + DEATH + PASS, RACE);
    StartSound(Config(10, 5), 0, map[1 := true]);
    RunKeepsInv(Begin(), SCHEDULE[..6] + DEATH + PASS + RACE);
  }
}
