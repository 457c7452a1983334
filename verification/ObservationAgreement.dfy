/** Observation rows, attempt rows and the transition ledger agree after every run. */
module ObservationAgreement {
  import opened Wrappers
  import opened Observations

  // ---------- the invariant ----------

  ghost predicate AttemptsNumbered(attempts: map<(Uuid, nat), Attempt>, o: Uuid, generation: nat) {
    forall g: nat :: (o, g) in attempts <==> 1 <= g <= generation
  }

  ghost predicate AttemptsSettled(attempts: map<(Uuid, nat), Attempt>, ledger: seq<Transition>, o: Uuid, generation: nat) {
    forall g: nat | (o, g) in attempts ::
      && (g < generation ==> attempts[(o, g)].state == Failed)
      && Fold(ledger, o, g) == Arrived(attempts[(o, g)].state, attempts[(o, g)].revision)
  }

  ghost predicate Unwritten(ledger: seq<Transition>, o: Uuid, generation: nat) {
    forall g: nat | g > generation :: Fold(ledger, o, g) == Nothing
  }

  /** Attempts are numbered exactly 1..generation, all but the last have failed, the last one is in the
      observation's state, each folds from its own ledger entries, accepted means linked, and the
      observation's revision counts its entries. */
  ghost predicate Agrees(obs: Observation, o: Uuid, attempts: map<(Uuid, nat), Attempt>, ledger: seq<Transition>, links: map<Uuid, string>) {
    && obs.generation >= 1 && obs.state in {Reserved, Acquired, Accepted, Failed}
    && AttemptsNumbered(attempts, o, obs.generation)
    && AttemptsSettled(attempts, ledger, o, obs.generation)
    && Unwritten(ledger, o, obs.generation)
    && attempts[(o, obs.generation)].state == obs.state
    && attempts[(o, obs.generation)].task == obs.task && attempts[(o, obs.generation)].execution == obs.execution
    && (obs.state == Accepted <==> o in links)
    && obs.snapshot == (if o in links then Some(links[o]) else None)
    && Entries(ledger, o) == obs.revision + 1
  }

  /** Names that no observation carries appear nowhere. */
  ghost predicate Absent(o: Uuid, attempts: map<(Uuid, nat), Attempt>, ledger: seq<Transition>, links: map<Uuid, string>) {
    && (forall g: nat :: (o, g) !in attempts && Fold(ledger, o, g) == Nothing)
    && o !in links && Entries(ledger, o) == 0
  }

  ghost predicate DistinctPlaces(observations: map<Uuid, Observation>) {
    forall o, p | o in observations && p in observations && observations[o].place == observations[p].place :: o == p
  }

  ghost predicate ObservationInv(db: Db) {
    && DistinctPlaces(db.observations)
    && (forall o | o in db.observations :: Agrees(db.observations[o], o, db.attempts, db.ledger, db.links))
    && (forall o | o !in db.observations :: Absent(o, db.attempts, db.ledger, db.links))
  }

  // ---------- one more ledger entry ----------

  lemma FoldAppend(ledger: seq<Transition>, t: Transition, o: Uuid, g: nat)
    ensures Fold(ledger + [t], o, g) == if t.obs == o && t.generation == g then Follow(Fold(ledger, o, g), t) else Fold(ledger, o, g)
  {
    assert (ledger + [t])[..|ledger|] == ledger;
  }

  lemma EntriesAppend(ledger: seq<Transition>, t: Transition, o: Uuid)
    ensures Entries(ledger + [t], o) == Entries(ledger, o) + if t.obs == o then 1 else 0
  {
    assert (ledger + [t])[..|ledger|] == ledger;
  }

  /** What happens to one observation leaves every other as it was. */
  ghost predicate Elsewhere(db: Db, db': Db, t: Transition) {
    && db'.ledger == db.ledger + [t]
    && (forall p | p != t.obs :: p in db'.observations <==> p in db.observations)
    && (forall p | p != t.obs && p in db.observations :: db'.observations[p] == db.observations[p])
    && (forall p, g: nat | p != t.obs :: (p, g) in db'.attempts <==> (p, g) in db.attempts)
    && (forall p, g: nat | p != t.obs && (p, g) in db.attempts :: db'.attempts[(p, g)] == db.attempts[(p, g)])
    && (forall p | p != t.obs :: p in db'.links <==> p in db.links)
    && (forall p | p != t.obs && p in db.links :: db'.links[p] == db.links[p])
  }

  lemma OthersAgree(db: Db, db': Db, t: Transition, p: Uuid)
    requires Elsewhere(db, db', t) && p != t.obs && p in db.observations
    requires Agrees(db.observations[p], p, db.attempts, db.ledger, db.links)
    ensures Agrees(db'.observations[p], p, db'.attempts, db'.ledger, db'.links)
  {
    hide Fold, Entries;
    forall g: nat
      ensures Fold(db'.ledger, p, g) == Fold(db.ledger, p, g)
    {
      FoldAppend(db.ledger, t, p, g);
    }
    EntriesAppend(db.ledger, t, p);
  }

  lemma OthersAbsent(db: Db, db': Db, t: Transition, p: Uuid)
    requires Elsewhere(db, db', t) && p != t.obs
    requires Absent(p, db.attempts, db.ledger, db.links)
    ensures Absent(p, db'.attempts, db'.ledger, db'.links)
  {
    hide Fold, Entries;
    forall g: nat
      ensures Fold(db'.ledger, p, g) == Nothing
    {
      FoldAppend(db.ledger, t, p, g);
      assert (p, g) !in db.attempts && Fold(db.ledger, p, g) == Nothing;
    }
    EntriesAppend(db.ledger, t, p);
  }

  lemma AroundOneObservation(db: Db, db': Db, t: Transition)
    requires ObservationInv(db) && Elsewhere(db, db', t) && t.obs in db'.observations
    requires Agrees(db'.observations[t.obs], t.obs, db'.attempts, db'.ledger, db'.links)
    requires DistinctPlaces(db'.observations)
    ensures ObservationInv(db')
  {
    hide Elsewhere, Agrees, Absent, DistinctPlaces;
    forall p | p in db'.observations
      ensures Agrees(db'.observations[p], p, db'.attempts, db'.ledger, db'.links)
    {
      if p != t.obs {
        ElsewhereAt(db, db', t, p);
        OthersAgree(db, db', t, p);
      }
    }
    forall p | p !in db'.observations
      ensures Absent(p, db'.attempts, db'.ledger, db'.links)
    {
      ElsewhereAt(db, db', t, p);
      OthersAbsent(db, db', t, p);
    }
  }

  lemma ElsewhereAt(db: Db, db': Db, t: Transition, p: Uuid)
    requires Elsewhere(db, db', t) && p != t.obs
    ensures p in db'.observations <==> p in db.observations
  {
  }

  // ---------- moving the current attempt ----------

  /** The common shape of an acquire, an acceptance and a failure. */
  function Moved(db: Db, o: Uuid, after: State, snapshot: Option<string>): Db
    requires o in db.observations && (o, db.observations[o].generation) in db.attempts
  {
    var obs := db.observations[o];
    var was := db.attempts[(o, obs.generation)];
    db.(attempts := MoveAttempt(db, o, was, after), ledger := Log(db, o, was, after),
        links := if snapshot.Some? then db.links[o := snapshot.value] else db.links,
        observations := db.observations[o := obs.(state := after, revision := obs.revision + 1,
                                                  snapshot := if snapshot.Some? then snapshot else obs.snapshot)])
  }

  lemma MovedAgrees(db: Db, o: Uuid, after: State, snapshot: Option<string>)
    requires o in db.observations && Agrees(db.observations[o], o, db.attempts, db.ledger, db.links)
    requires Lawful(db.observations[o].state, after)
    requires after == Accepted <==> snapshot.Some?
    ensures var db' := Moved(db, o, after, snapshot);
      Agrees(db'.observations[o], o, db'.attempts, db'.ledger, db'.links)
  {
    hide Fold, Entries;
    var db' := Moved(db, o, after, snapshot);
    var obs := db.observations[o];
    var t := db'.ledger[|db.ledger|];
    forall g: nat
      ensures Fold(db'.ledger, o, g) == if g == obs.generation then Follow(Fold(db.ledger, o, g), t) else Fold(db.ledger, o, g)
    {
      FoldAppend(db.ledger, t, o, g);
    }
    EntriesAppend(db.ledger, t, o);
  }

  lemma MovedKeepsInv(db: Db, o: Uuid, after: State, snapshot: Option<string>)
    requires ObservationInv(db) && o in db.observations
    requires (o, db.observations[o].generation) in db.attempts
    requires Lawful(db.observations[o].state, after)
    requires after == Accepted <==> snapshot.Some?
    ensures ObservationInv(Moved(db, o, after, snapshot))
  {
    MovedAgrees(db, o, after, snapshot);
    hide Agrees, Absent;
    var db' := Moved(db, o, after, snapshot);
    AroundOneObservation(db, db', db'.ledger[|db.ledger|]);
  }

  lemma CurrentIsThere(db: Db, o: Uuid)
    requires ObservationInv(db) && o in db.observations
    ensures CurrentAttempt(db, o).Some? && CurrentAttempt(db, o).value.state == db.observations[o].state
    ensures CurrentAttempt(db, o).value.state in {Reserved, Acquired, Accepted, Failed}
    ensures o in db.links <==> db.observations[o].state == Accepted
    ensures (o, db.observations[o].generation + 1) !in db.attempts
  {
    hide Absent, DistinctPlaces, Fold, Entries;
    assert Agrees(db.observations[o], o, db.attempts, db.ledger, db.links);
  }

  /** With the rows in agreement, the three reports move all of them together or none of them: no update
      whose row count goes unchecked can miss. */
  lemma ReportsMoveTogether(db: Db, e: Execution, snapshot: string)
    requires ObservationInv(db)
    ensures AcquireTx(db, e).0 == (if Identity(db, e).Some? && db.observations[Identity(db, e).value].state == Reserved
                                   then Moved(db, Identity(db, e).value, Acquired, None) else db)
    ensures FailTx(db, e).0 == (if Identity(db, e).Some? && db.observations[Identity(db, e).value].state in {Reserved, Acquired}
                                then Moved(db, Identity(db, e).value, Failed, None) else db)
    ensures AcceptTx(db, e, snapshot).0 == db
         || (Identity(db, e).Some? && db.observations[Identity(db, e).value].state == Acquired
             && AcceptTx(db, e, snapshot).0 == Moved(db, Identity(db, e).value, Accepted, Some(snapshot)))
  {
    hide ObservationInv, AcquireTx, FailTx, AcceptTx, Identity;
    AcquireMoves(db, e);
    FailMoves(db, e);
    AcceptMoves(db, e, snapshot);
  }

  lemma AcquireMoves(db: Db, e: Execution)
    requires ObservationInv(db)
    ensures AcquireTx(db, e).0 == (if Identity(db, e).Some? && db.observations[Identity(db, e).value].state == Reserved
                                   then Moved(db, Identity(db, e).value, Acquired, None) else db)
  {
    hide ObservationInv;
    if Identity(db, e).Some? {
      CurrentIsThere(db, Identity(db, e).value);
    }
  }

  lemma FailMoves(db: Db, e: Execution)
    requires ObservationInv(db)
    ensures FailTx(db, e).0 == (if Identity(db, e).Some? && db.observations[Identity(db, e).value].state in {Reserved, Acquired}
                                then Moved(db, Identity(db, e).value, Failed, None) else db)
  {
    hide ObservationInv;
    if Identity(db, e).Some? {
      CurrentIsThere(db, Identity(db, e).value);
    }
  }

  lemma AcceptMoves(db: Db, e: Execution, snapshot: string)
    requires ObservationInv(db)
    ensures AcceptTx(db, e, snapshot).0 == db
         || (Identity(db, e).Some? && db.observations[Identity(db, e).value].state == Acquired
             && AcceptTx(db, e, snapshot).0 == Moved(db, Identity(db, e).value, Accepted, Some(snapshot)))
  {
    hide ObservationInv;
    if Identity(db, e).Some? {
      CurrentIsThere(db, Identity(db, e).value);
    }
  }

  // ---------- reserving ----------

  lemma ReserveNewAgrees(db: Db, req: Request, o: Uuid)
    requires Absent(o, db.attempts, db.ledger, db.links)
    ensures var db' := ReserveNew(db, req, o);
      Agrees(db'.observations[o], o, db'.attempts, db'.ledger, db'.links)
  {
    hide Fold, Entries;
    var db' := ReserveNew(db, req, o);
    var t := db'.ledger[|db.ledger|];
    forall g: nat
      ensures Fold(db'.ledger, o, g) == if g == 1 then Arrived(Reserved, 0) else Nothing
    {
      FoldAppend(db.ledger, t, o, g);
      assert (o, g) !in db.attempts && Fold(db.ledger, o, g) == Nothing;
    }
    EntriesAppend(db.ledger, t, o);
  }

  lemma ReserveRetryAgrees(db: Db, req: Request, o: Uuid)
    requires o in db.observations && Agrees(db.observations[o], o, db.attempts, db.ledger, db.links)
    requires db.observations[o].state == Failed
    ensures var db' := ReserveRetry(db, req, o);
      Agrees(db'.observations[o], o, db'.attempts, db'.ledger, db'.links)
  {
    hide Fold, Entries;
    var db' := ReserveRetry(db, req, o);
    var t := db'.ledger[|db.ledger|];
    var next := db.observations[o].generation + 1;
    forall g: nat
      ensures Fold(db'.ledger, o, g) == if g == next then Arrived(Reserved, 0) else Fold(db.ledger, o, g)
    {
      FoldAppend(db.ledger, t, o, g);
    }
    EntriesAppend(db.ledger, t, o);
  }

  lemma ReserveNewKeepsInv(db: Db, req: Request, o: Uuid)
    requires ObservationInv(db) && o !in db.observations
    requires forall p | p in db.observations :: db.observations[p].place != req.At()
    ensures ObservationInv(ReserveNew(db, req, o))
  {
    ReserveNewAgrees(db, req, o);
    hide Agrees, Absent;
    var db' := ReserveNew(db, req, o);
    AroundOneObservation(db, db', db'.ledger[|db.ledger|]);
  }

  lemma ReserveRetryKeepsInv(db: Db, req: Request, o: Uuid)
    requires ObservationInv(db) && o in db.observations && db.observations[o].state == Failed
    ensures ObservationInv(ReserveRetry(db, req, o))
  {
    ReserveRetryAgrees(db, req, o);
    hide Agrees, Absent;
    var db' := ReserveRetry(db, req, o);
    AroundOneObservation(db, db', db'.ledger[|db.ledger|]);
  }

  lemma AdmitKeepsInv(db: Db, req: Request, definitionActive: bool, item: Item, unused: Uuid)
    requires ObservationInv(db)
    ensures ObservationInv(AdmitTx(db, req, definitionActive, item, unused).0)
  {
    hide ReserveNew, ReserveRetry, Agrees, Absent;
    var r := AdmitTx(db, req, definitionActive, item, unused).1;
    var sourced := db.(sources := db.sources + {req.source});
    if r.Success? && r.value.outcome == New {
      NewPlace(db, req);
      ReserveNewKeepsInv(sourced, req, r.value.obs);
    } else if r.Success? && r.value.outcome == Retry {
      ReserveRetryKeepsInv(sourced, req, r.value.obs);
    }
  }

  lemma NewPlace(db: Db, req: Request)
    requires FindObservation(db, req.At()).None?
    ensures forall p | p in db.observations :: db.observations[p].place != req.At()
  {
    assert forall p | p in db.observations && db.observations[p].place == req.At() :: p in ObservationsAt(db, req.At());
  }

  lemma StepKeepsInv(db: Db, step: Step)
    requires ObservationInv(db)
    ensures ObservationInv(Next(db, step))
  {
    hide AdmitTx, AcquireTx, AcceptTx, FailTx, Moved, ObservationInv;
    match step
    case Admit(req, definitionActive, item, unused) => AdmitKeepsInv(db, req, definitionActive, item, unused);
    case Acquire(e) =>
      ReportsMoveTogether(db, e, "");
      if AcquireTx(db, e).0 != db {
        CurrentIsThere(db, Identity(db, e).value);
        MovedKeepsInv(db, Identity(db, e).value, Acquired, None);
      }
    case Accept(e, snapshot) =>
      ReportsMoveTogether(db, e, snapshot);
      if AcceptTx(db, e, snapshot).0 != db {
        CurrentIsThere(db, Identity(db, e).value);
        MovedKeepsInv(db, Identity(db, e).value, Accepted, Some(snapshot));
      }
    case Fail(e) =>
      ReportsMoveTogether(db, e, "");
      if FailTx(db, e).0 != db {
        CurrentIsThere(db, Identity(db, e).value);
        MovedKeepsInv(db, Identity(db, e).value, Failed, None);
      }
  }

  lemma {:induction false} RunKeepsInv(db: Db, steps: seq<Step>)
    requires ObservationInv(db)
    ensures ObservationInv(Run(db, steps))
    decreases |steps|
  {
    hide Next, ObservationInv;
    if steps != [] {
      StepKeepsInv(db, steps[0]);
      RunKeepsInv(Next(db, steps[0]), steps[1..]);
    }
  }

  /** Every observation agrees with its attempts, its ledger entries and its link after any run. */
  lemma ObservationsAgree(steps: seq<Step>)
    ensures ObservationInv(Run(EMPTY, steps))
  {
    assert forall o :: Absent(o, EMPTY.attempts, EMPTY.ledger, EMPTY.links);
    RunKeepsInv(EMPTY, steps);
  }

  // ---------- what is final ----------

  /** The ledger is append-only, attempts keep their owners, and accepted and failed attempts, accepted
      observations and links never change again. */
  ghost predicate HistoryKept(db: Db, db': Db) {
    && |db.ledger| <= |db'.ledger| && db'.ledger[..|db.ledger|] == db.ledger
    && (forall o | o in db.observations :: o in db'.observations && ObservationKept(db.observations[o], db'.observations[o]))
    && (forall k | k in db.attempts :: k in db'.attempts && AttemptKept(db.attempts[k], db'.attempts[k]))
    && (forall o | o in db.links :: o in db'.links && db'.links[o] == db.links[o])
  }

  ghost predicate ObservationKept(before: Observation, after: Observation) {
    && after.place == before.place && after.fingerprint == before.fingerprint && before.generation <= after.generation
    && (before.state == Accepted ==> after == before)
    && (after.generation == before.generation ==> after.task == before.task && after.execution == before.execution)
  }

  ghost predicate AttemptKept(before: Attempt, after: Attempt) {
    && after.task == before.task && after.execution == before.execution
    && (before.state in {Accepted, Failed} ==> after == before)
  }

  lemma HistoryTransitive(a: Db, b: Db, c: Db)
    requires HistoryKept(a, b) && HistoryKept(b, c)
    ensures HistoryKept(a, c)
  {
    assert c.ledger[..|a.ledger|] == c.ledger[..|b.ledger|][..|a.ledger|];
  }

  lemma MovedKeepsHistory(db: Db, o: Uuid, after: State, snapshot: Option<string>)
    requires ObservationInv(db) && o in db.observations && (o, db.observations[o].generation) in db.attempts
    requires Lawful(db.observations[o].state, after)
    ensures HistoryKept(db, Moved(db, o, after, snapshot))
  {
    hide ObservationInv, ObservationKept, AttemptKept;
    CurrentIsThere(db, o);
    var db' := Moved(db, o, after, snapshot);
    assert db'.ledger[..|db.ledger|] == db.ledger;
    forall p | p in db.observations
      ensures ObservationKept(db.observations[p], db'.observations[p])
    {
      MovedObservationKept(db.observations[p], db'.observations[p]);
    }
    forall k | k in db.attempts
      ensures AttemptKept(db.attempts[k], db'.attempts[k])
    {
      MovedAttemptKept(db.attempts[k], db'.attempts[k]);
    }
  }

  lemma MovedObservationKept(before: Observation, after: Observation)
    requires after == before || (before.state != Accepted && after == before.(state := after.state, revision := after.revision, snapshot := after.snapshot))
    ensures ObservationKept(before, after)
  {
  }

  lemma MovedAttemptKept(before: Attempt, after: Attempt)
    requires after == before || (before.state !in {Accepted, Failed} && after == before.(state := after.state, revision := after.revision))
    ensures AttemptKept(before, after)
  {
  }

  lemma ReserveKeepsHistory(db: Db, req: Request, o: Uuid)
    ensures o !in db.observations && (o, 1) !in db.attempts ==> HistoryKept(db, ReserveNew(db, req, o))
    ensures o in db.observations && db.observations[o].state != Accepted && (o, db.observations[o].generation + 1) !in db.attempts ==>
              HistoryKept(db, ReserveRetry(db, req, o))
  {
    assert forall t: Transition :: (db.ledger + [t])[..|db.ledger|] == db.ledger;
  }

  lemma AdmitKeepsHistory(db: Db, req: Request, definitionActive: bool, item: Item, unused: Uuid)
    requires ObservationInv(db)
    ensures HistoryKept(db, AdmitTx(db, req, definitionActive, item, unused).0)
  {
    hide ObservationInv, ReserveNew, ReserveRetry, ObservationKept, AttemptKept;
    var r := AdmitTx(db, req, definitionActive, item, unused).1;
    var sourced := db.(sources := db.sources + {req.source});
    SameHistory(sourced);
    SameHistory(db);
    if r.Success? {
      ReserveKeepsHistory(sourced, req, r.value.obs);
      HistoryIgnoresSources(db, req.source, AdmitTx(db, req, definitionActive, item, unused).0);
    }
  }

  lemma HistoryIgnoresSources(db: Db, source: Source, db': Db)
    ensures HistoryKept(db.(sources := db.sources + {source}), db') <==> HistoryKept(db, db')
  {
  }

  lemma StepKeepsHistory(db: Db, step: Step)
    requires ObservationInv(db)
    ensures HistoryKept(db, Next(db, step))
  {
    hide AdmitTx, AcquireTx, AcceptTx, FailTx, Moved, ObservationInv;
    if Next(db, step) == db {
      hide ObservationKept, AttemptKept;
      SameHistory(db);
    } else {
      match step
      case Admit(req, definitionActive, item, unused) => AdmitKeepsHistory(db, req, definitionActive, item, unused);
      case Acquire(e) =>
        ReportsMoveTogether(db, e, "");
        CurrentIsThere(db, Identity(db, e).value);
        MovedKeepsHistory(db, Identity(db, e).value, Acquired, None);
      case Accept(e, snapshot) =>
        ReportsMoveTogether(db, e, snapshot);
        CurrentIsThere(db, Identity(db, e).value);
        MovedKeepsHistory(db, Identity(db, e).value, Accepted, Some(snapshot));
      case Fail(e) =>
        ReportsMoveTogether(db, e, "");
        CurrentIsThere(db, Identity(db, e).value);
        MovedKeepsHistory(db, Identity(db, e).value, Failed, None);
    }
  }

  lemma SameHistory(db: Db)
    ensures HistoryKept(db, db)
  {
    assert db.ledger[..|db.ledger|] == db.ledger;
  }

  /** Accepted is absorbing and history is append-only over every run. */
  lemma {:induction false} HistoryIsFinal(db: Db, steps: seq<Step>)
    requires ObservationInv(db)
    ensures HistoryKept(db, Run(db, steps))
    decreases |steps|
  {
    hide Next, ObservationInv, HistoryKept;
    if steps == [] {
      SameHistory(db);
    } else {
      var db1 := Next(db, steps[0]);
      StepKeepsInv(db, steps[0]);
      StepKeepsHistory(db, steps[0]);
      HistoryIsFinal(db1, steps[1..]);
      HistoryTransitive(db, db1, Run(db, steps));
    }
  }

  /** Linearisable admission: once a task has reserved an observation, every later admission of the same
      key and fingerprint is answered with that task for as long as its attempt is the current one and has
      not failed, and no admission in between can have reserved the place for anybody else. */
  lemma {:induction false} OneOwnerUntilFailure(db: Db, o: Uuid, steps: seq<Step>, req: Request, item: Item, unused: Uuid)
    requires ObservationInv(db) && o in db.observations
    requires req.At() == db.observations[o].place && req.fingerprint == db.observations[o].fingerprint
    requires item.NoItem? || item.ActiveItem?
    ensures var db' := Run(db, steps);
      && o in db'.observations
      && (db'.observations[o].generation == db.observations[o].generation && db'.observations[o].state != Failed && !req.retryFailed ==>
            AdmitTx(db', req, true, item, unused).1
            == Success(Admission(o, db.observations[o].generation, Replay(db.observations[o].task))))
      && (db'.observations[o].state == Failed && req.retryFailed && req.expectedAttempt == Some(db'.observations[o].generation as int) ==>
            AdmitTx(db', req, true, item, unused).1 == Success(Admission(o, db'.observations[o].generation + 1, Retry)))
  {
    hide ObservationInv, AdmitTx, Run, AttemptKept;
    var db' := Run(db, steps);
    RunKeepsInv(db, steps);
    HistoryIsFinal(db, steps);
    assert ObservationKept(db.observations[o], db'.observations[o]);
    AnswersAtPlace(db', o, req, item, unused);
  }

  lemma AnswersAtPlace(db: Db, o: Uuid, req: Request, item: Item, unused: Uuid)
    requires ObservationInv(db) && o in db.observations
    requires req.At() == db.observations[o].place && req.fingerprint == db.observations[o].fingerprint
    requires item.NoItem? || item.ActiveItem?
    ensures db.observations[o].state != Failed && !req.retryFailed ==>
              AdmitTx(db, req, true, item, unused).1
              == Success(Admission(o, db.observations[o].generation, Replay(db.observations[o].task)))
    ensures db.observations[o].state == Failed && req.retryFailed && req.expectedAttempt == Some(db.observations[o].generation as int) ==>
              AdmitTx(db, req, true, item, unused).1 == Success(Admission(o, db.observations[o].generation + 1, Retry))
  {
    hide ObservationInv, ReserveNew, ReserveRetry, FindObservation;
    CurrentIsThere(db, o);
    OnlyOneAtPlace(db, o);
  }

  /** Admission in both directions: an existing observation admits exactly a repeat of its own fingerprint
      while it has not failed, or a typed retry of its current generation once it has; a place without one
      admits exactly a first attempt. */
  lemma AdmissionExactly(db: Db, req: Request, definitionActive: bool, item: Item, unused: Uuid)
    requires ObservationInv(db) && unused !in db.observations
    ensures var r := AdmitTx(db, req, definitionActive, item, unused).1;
      && (forall o | o in db.observations && db.observations[o].place == req.At() ::
            var obs := db.observations[o];
            r.Success? <==>
              && definitionActive && (item.NoItem? || item.ActiveItem?) && obs.fingerprint == req.fingerprint
              && (if obs.state == Failed then req.retryFailed && req.expectedAttempt == Some(obs.generation as int) else !req.retryFailed))
      && ((forall o | o in db.observations :: db.observations[o].place != req.At()) ==>
            (r.Success? <==> definitionActive && (item.NoItem? || item.ActiveItem?) && !req.retryFailed))
  {
    hide ObservationInv, ReserveNew, ReserveRetry, FindObservation;
    var found := FindObservation(db, req.At());
    UnusedHasNoAttempts(db, unused);
    if found.Some? {
      assert db.observations[found.value].place == req.At();
      CurrentIsThere(db, found.value);
    }
    forall o | o in db.observations && db.observations[o].place == req.At()
      ensures found == Some(o)
    {
      OnlyOneAtPlace(db, o);
    }
  }

  lemma UnusedHasNoAttempts(db: Db, unused: Uuid)
    requires ObservationInv(db) && unused !in db.observations
    ensures (unused, 1) !in db.attempts
  {
    assert Absent(unused, db.attempts, db.ledger, db.links);
  }

  lemma OnlyOneAtPlace(db: Db, o: Uuid)
    requires ObservationInv(db) && o in db.observations
    ensures FindObservation(db, db.observations[o].place) == Some(o)
  {
    assert o in ObservationsAt(db, db.observations[o].place);
    hide Agrees, Absent;
  }

  /** No two observations of a Team share a snapshot. */
  ghost predicate LinksExclusive(db: Db) {
    forall o, p | o in db.links && p in db.links && o in db.observations && p in db.observations && db.links[o] == db.links[p]
                  && db.observations[o].place.source.team == db.observations[p].place.source.team :: o == p
  }

  lemma StepKeepsLinksExclusive(db: Db, step: Step)
    requires ObservationInv(db) && LinksExclusive(db)
    ensures LinksExclusive(Next(db, step))
  {
    StepKeepsHistory(db, step);
    LinksAreKnown(db);
    NewLinks(db, step);
    hide ObservationInv, Next, AttemptKept;
  }

  lemma LinksAreKnown(db: Db)
    requires ObservationInv(db)
    ensures forall o | o in db.links :: o in db.observations
  {
    assert forall o | o !in db.observations :: Absent(o, db.attempts, db.ledger, db.links);
  }

  /** The only new link a step can make is an acceptance of a snapshot its Team has not linked. */
  lemma NewLinks(db: Db, step: Step)
    ensures forall o | o in Next(db, step).links && o !in db.links ::
              && o in db.observations && step.Accept? && Next(db, step).links == db.links[o := step.snapshot]
              && db.observations[o].place.source.team == step.e.team
              && forall p | p in db.links && p in db.observations && db.observations[p].place.source.team == step.e.team :: db.links[p] != step.snapshot
  {
    match step
    case Accept(e, snapshot) =>
    case Admit(req, definitionActive, item, unused) => hide Resolve, AcquireTx, AcceptTx, FailTx;
    case _ => hide AdmitTx, AcceptTx;
  }

  lemma {:induction false} SnapshotsAreExclusive(db: Db, steps: seq<Step>)
    requires ObservationInv(db) && LinksExclusive(db)
    ensures LinksExclusive(Run(db, steps))
    decreases |steps|
  {
    hide Next, ObservationInv, LinksExclusive;
    if steps != [] {
      StepKeepsInv(db, steps[0]);
      StepKeepsLinksExclusive(db, steps[0]);
      SnapshotsAreExclusive(Next(db, steps[0]), steps[1..]);
    }
  }

  // ---------- what is not fenced ----------

  /** A failure report always lands on the current attempt of its execution's observation, whichever
      attempt the execution was admitted for: it changes attempt k exactly when k is that one and is still
      running. */
  lemma FailureLandsOnTheCurrentAttempt(db: Db, e: Execution, k: (Uuid, nat))
    requires ObservationInv(db) && k in db.attempts
    ensures var db' := FailTx(db, e).0;
      k in db'.attempts
      && (db'.attempts[k] != db.attempts[k] <==>
            && Identity(db, e) == Some(k.0) && k.0 in db.observations && k.1 == db.observations[k.0].generation
            && db.attempts[k].state in {Reserved, Acquired})
  {
    ReportsMoveTogether(db, e, "");
    if Identity(db, e).Some? {
      CurrentIsThere(db, Identity(db, e).value);
    }
    hide ObservationInv, FailTx;
  }

  const EARLY := Execution("team", "first")
  const LATE := Execution("team", "second")

  function Ask(execution: string, retry: bool): Step {
    Admit(Request(Source("team", "web", "page"), Some("key"), "print", retry, if retry then Some(1) else None, execution, execution),
          true, NoItem, 0)
  }

  /** The first execution fails, a second is admitted for attempt 2, and a late report of the first fails it. */
  lemma StaleReportFailsTheNewerAttempt()
    ensures var before := Run(EMPTY, [Ask("first", false), Fail(EARLY), Ask("second", true)]);
      && before.bound == map[EARLY := (0, 1), LATE := (0, 2)]
      && (0, 2) in before.attempts && before.attempts[(0, 2)].state == Reserved
      && FailTx(before, EARLY).0.attempts[(0, 2)].state == Failed
  {
    var s := [Ask("first", false), Fail(EARLY), Ask("second", true)];
    var d1 := Next(EMPTY, s[0]);
    var place := Place(Source("team", "web", "page"), "key");
    assert ObservationsAt(EMPTY, place) == {};
    assert d1.observations == map[0 := Observation(place, "print", Reserved, 1, "first", "first", None, 0)];
    assert d1.attempts == map[(0, 1) := Attempt("first", "first", Reserved, 0, 0)];
    var d2 := Next(d1, s[1]);
    assert d2.observations == map[0 := Observation(place, "print", Failed, 1, "first", "first", None, 1)];
    assert 0 in ObservationsAt(d2, place);
    var d3 := Next(d2, s[2]);
    assert d3.bound == map[EARLY := (0, 1), LATE := (0, 2)];
    RunThree(EMPTY, s);
  }

  lemma RunStep(db: Db, step: Step, rest: seq<Step>)
    ensures Run(db, [step] + rest) == Run(Next(db, step), rest)
  {
    assert ([step] + rest)[1..] == rest;
  }

  lemma RunThree(db: Db, s: seq<Step>)
    requires |s| == 3
    ensures Run(db, s) == Next(Next(Next(db, s[0]), s[1]), s[2])
  {
    hide Next;
    assert s == [s[0]] + s[1..] && s[1..] == [s[1]] + s[2..] && s[2..] == [s[2]] + [];
    RunStep(db, s[0], s[1..]);
    RunStep(Next(db, s[0]), s[1], s[2..]);
    RunStep(Next(Next(db, s[0]), s[1]), s[2], []);
  }
}
