/** What admission and the three reports answer, each in both directions
    (src/services/observation_reservations.py:81-428). */
module ObservationAnswers {
  import opened Wrappers
  import opened Observations
  import opened ObservationAgreement

  // ---------- reports ----------

  /** Some observation of the Team is linked to the snapshot already. */
  predicate SnapshotTaken(db: Db, team: string, snapshot: string) {
    exists p :: p in db.links && p in db.observations && db.observations[p].place.source.team == team && db.links[p] == snapshot
  }

  /** An acceptance succeeds, moving everything together, if and only if the observation is acquired and no
      observation of its Team is linked to that snapshot; the other answers have their exact conditions. */
  lemma {:induction false} AcceptanceExactly(db: Db, e: Execution, snapshot: string)
    requires ObservationInv(db) && Identity(db, e).Some?
    ensures var (db', r) := AcceptTx(db, e, snapshot);
      var o := Identity(db, e).value;
      var state := db.observations[o].state;
      && (r == Success(true) <==> state == Acquired && !SnapshotTaken(db, e.team, snapshot))
      && (r == Success(true) ==> (o, db.observations[o].generation) in db.attempts && db' == Moved(db, o, Accepted, Some(snapshot)))
      && (r == Failure(LinkTaken) <==> state == Accepted || SnapshotTaken(db, e.team, snapshot))
      && (r == Failure(StateConflict) <==> state in {Reserved, Failed} && !SnapshotTaken(db, e.team, snapshot))
      && (r != Success(true) ==> r.Failure? && db' == db)
  {
    hide ObservationInv;
    CurrentIsThere(db, Identity(db, e).value);
  }

  /** An acquisition moves a reserved observation, is silent about an acquired one and refuses the others. */
  lemma AcquisitionExactly(db: Db, e: Execution)
    requires ObservationInv(db) && Identity(db, e).Some?
    ensures var (db', r) := AcquireTx(db, e);
      var o := Identity(db, e).value;
      var state := db.observations[o].state;
      && (r == Success(true) <==> state == Reserved)
      && (r == Success(true) ==> (o, db.observations[o].generation) in db.attempts && db' == Moved(db, o, Acquired, None))
      && (r == Success(false) <==> state == Acquired)
      && (r == Failure(AttemptConflict) <==> state in {Accepted, Failed})
      && (r != Success(true) ==> db' == db)
  {
    hide ObservationInv;
    CurrentIsThere(db, Identity(db, e).value);
  }

  /** A failure report moves a running observation and is silent about a closed one. */
  lemma FailureExactly(db: Db, e: Execution)
    requires ObservationInv(db) && Identity(db, e).Some?
    ensures var (db', moved) := FailTx(db, e);
      var o := Identity(db, e).value;
      && (moved <==> db.observations[o].state in {Reserved, Acquired})
      && (moved ==> (o, db.observations[o].generation) in db.attempts && db' == Moved(db, o, Failed, None))
      && (!moved ==> db' == db)
  {
    hide ObservationInv;
    CurrentIsThere(db, Identity(db, e).value);
  }

  /** An execution without an observation reports to nobody. */
  lemma StrangersChangeNothing(db: Db, e: Execution, snapshot: string)
    ensures Identity(db, e).None? ==>
      AcquireTx(db, e) == (db, Success(false)) && AcceptTx(db, e, snapshot) == (db, Success(false)) && FailTx(db, e) == (db, false)
    ensures Identity(db, e).Some? <==> e in db.bound && db.bound[e].0 in db.observations && db.observations[db.bound[e].0].place.source.team == e.team
  {
  }

  // ---------- admission ----------

  /** Each refusal of an admission, exactly, for a place that has an observation and for one that has not. */
  lemma {:induction false} RefusalsExactly(db: Db, req: Request, definitionActive: bool, item: Item, unused: Uuid)
    requires ObservationInv(db) && unused !in db.observations
    ensures var r := AdmitTx(db, req, definitionActive, item, unused).1;
      var considered := definitionActive && (item.NoItem? || item.ActiveItem?);
      && (r == Failure(RegistryNotFound) <==> !definitionActive)
      && (r == Failure(ItemDeleted) <==> definitionActive && item.DeletedItem?)
      && (r == Failure(ItemNotActive) <==> definitionActive && item.InactiveItem?)
      && (r == Failure(RetryTargetMissing) <==>
            considered && req.retryFailed && forall o | o in db.observations :: db.observations[o].place != req.At())
      && (forall o | o in db.observations && db.observations[o].place == req.At() && considered ::
            var obs := db.observations[o];
            && (r == Failure(ObservationConflict) <==> obs.fingerprint != req.fingerprint)
            && (r == Failure(RetryRequired) <==> obs.fingerprint == req.fingerprint && obs.state == Failed && !req.retryFailed)
            && (r == Failure(AttemptConflict) <==>
                  obs.fingerprint == req.fingerprint && obs.state == Failed && req.retryFailed
                  && req.expectedAttempt != Some(obs.generation as int))
            && (r == Failure(RetryStateConflict) <==> obs.fingerprint == req.fingerprint && obs.state != Failed && req.retryFailed))
  {
    hide ObservationInv, ReserveNew, ReserveRetry, FindObservation;
    var found := FindObservation(db, req.At());
    UnusedHasNoAttempts(db, unused);
    if found.Some? {
      assert db.observations[found.value].place == req.At();
      CurrentIsThere(db, found.value);
    }
    forall o | o in db.observations && db.observations[o].place == req.At()
      ensures found == Some(o)
    {
      OnlyOneAtPlace(db, o);
    }
  }

  /** What a successful admission leaves: the observation of its place, in whose name the execution now
      reports, or for a replay no change but the source's own row. */
  lemma {:induction false} AdmissionRecords(db: Db, req: Request, definitionActive: bool, item: Item, unused: Uuid)
    requires ObservationInv(db) && unused !in db.observations && AdmitTx(db, req, definitionActive, item, unused).1.Success?
    ensures var (db', r) := AdmitTx(db, req, definitionActive, item, unused);
      var o := r.value.obs;
      && req.source in db'.sources && db'.sources == db.sources + {req.source}
      && o in db'.observations && db'.observations[o].place == req.At() && db'.observations[o].fingerprint == req.fingerprint
      && db'.observations[o].generation == r.value.generation
      && (r.value.outcome.Replay? ==>
            db' == db.(sources := db'.sources) && r.value.outcome.task == db.observations[o].task)
      && (!r.value.outcome.Replay? ==>
            && db'.observations[o].state == Reserved && db'.observations[o].task == req.task && db'.observations[o].execution == req.execution
            && db'.bound == db.bound[Execution(req.source.team, req.execution) := (o, r.value.generation)]
            && Identity(db', Execution(req.source.team, req.execution)) == Some(o)
            && (o, r.value.generation) in db'.attempts
            && db'.attempts[(o, r.value.generation)] == Attempt(req.task, req.execution, Reserved, if r.value.outcome.Retry? then 1 else 0, 0))
      && (r.value.outcome.New? <==> forall p | p in db.observations :: db.observations[p].place != req.At())
      && (r.value.outcome.New? ==> r.value.generation == 1)
      && (r.value.outcome.Retry? ==> r.value.generation == db.observations[o].generation + 1)
  {
    hide ObservationInv;
    var found := FindObservation(db, req.At());
    assert forall p | p in db.observations && db.observations[p].place == req.At() :: p in ObservationsAt(db, req.At());
    hide FindObservation, ObservationsAt;
  }

  /** Two requests to one source meet at the same observation exactly if the keys they are given agree: their
      own, or else the external key of a registered interface, or else their task. */
  lemma PlacesMeetExactly(a: Request, b: Request)
    requires a.source == b.source
    ensures var api := a.source.kind == "registered_api";
      var ka := if a.explicit.Some? && a.explicit.value != "" then a.explicit.value else if api then a.source.externalKey else a.task;
      var kb := if b.explicit.Some? && b.explicit.value != "" then b.explicit.value else if api then b.source.externalKey else b.task;
      a.At() == b.At() <==> ka == kb
  {
  }
}
