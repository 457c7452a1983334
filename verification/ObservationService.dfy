/** The reservation service over tables it updates in place; every method is one transaction, so an error
    leaves every table as it was. */
module ObservationService {
  import opened Wrappers
  import opened Observations
  import opened ObservationAgreement

  class ObservationReservations {
    var sources: set<Source>
    var observations: map<Uuid, Observation>
    var attempts: map<(Uuid, nat), Attempt>
    var ledger: seq<Transition>
    var links: map<Uuid, string>
    var bound: map<Execution, (Uuid, nat)>

    ghost function Db(): Db
      reads this
    {
      Observations.Db(sources, observations, attempts, ledger, links, bound)
    }

    constructor ()
      ensures Db() == EMPTY && ObservationInv(Db())
    {
      sources, observations, attempts, ledger, links, bound := {}, map[], map[], [], map[], map[];
      new;
      ObservationsAgree([]);
    }

    /** resolve_tx. */
    method ResolveObservation(req: Request, definitionActive: bool, item: Item, unused: Uuid)
      returns (r: Result<Admission, AdmitError>)
      ensures r == Resolve(Db(), req, definitionActive, item, unused)
    {
      if !definitionActive {
        return Failure(RegistryNotFound);
      }
      match item {
        case DeletedItem => return Failure(ItemDeleted);
        case InactiveItem => return Failure(ItemNotActive);
        case _ =>
      }
      var found := FindObservation(Observations.Db(sources, observations, attempts, ledger, links, bound), req.At());
      if found.None? {
        return if req.retryFailed then Failure(RetryTargetMissing) else Success(Admission(unused, 1, New));
      }
      var existing := observations[found.value];
      if existing.fingerprint != req.fingerprint {
        return Failure(ObservationConflict);
      }
      if existing.state == Failed {
        if !req.retryFailed {
          return Failure(RetryRequired);
        }
        if req.expectedAttempt != Some(existing.generation as int) {
          return Failure(AttemptConflict);
        }
        return Success(Admission(found.value, existing.generation + 1, Retry));
      }
      if req.retryFailed {
        return Failure(RetryStateConflict);
      }
      if existing.state in {Reserved, Acquired, Accepted} {
        return Success(Admission(found.value, existing.generation, Replay(existing.task)));
      }
      return Failure(StateConflict);
    }

    /** The attempt, its first ledger entry and the execution's binding. */
    method OpenAttempt(req: Request, o: Uuid, generation: nat, expected: nat)
      modifies this`attempts, this`ledger, this`bound
      ensures Db() == Bind(old(Db()), req, o, generation, expected)
    {
      attempts := attempts[(o, generation) := Attempt(req.task, req.execution, Reserved, expected, 0)];
      ledger := ledger + [Transition(o, generation, None, Reserved, 0, 0)];
      bound := bound[Execution(req.source.team, req.execution) := (o, generation)];
    }

    /** reserve_tx for an admission just resolved; the schema's uniqueness may still refuse it. */
    method Reserve(req: Request, o: Uuid, generation: nat, retry: bool) returns (taken: bool)
      requires if retry then o in observations && generation == observations[o].generation + 1 else generation == 1
      modifies this
      ensures taken <==> (o, generation) in old(attempts) || (!retry && o in old(observations))
      ensures Db() == if taken then old(Db()) else if retry then ReserveRetry(old(Db()), req, o) else ReserveNew(old(Db()), req, o)
    {
      if (o, generation) in attempts || (!retry && o in observations) {
        return true;
      }
      var obs := Observation(req.At(), req.fingerprint, Reserved, 1, req.task, req.execution, None, 0);
      if retry {
        obs := observations[o].(state := Reserved, generation := generation, task := req.task, execution := req.execution,
                                snapshot := None, revision := observations[o].revision + 1);
      }
      observations := observations[o := obs];
      OpenAttempt(req, o, generation, if retry then 1 else 0);
      return false;
    }

    /** resolve_tx and reserve_tx in one transaction. */
    method Admit(req: Request, definitionActive: bool, item: Item, unused: Uuid) returns (r: Result<Admission, AdmitError>)
      requires ObservationInv(Db())
      modifies this
      ensures (Db(), r) == AdmitTx(old(Db()), req, definitionActive, item, unused) && ObservationInv(Db())
    {
      AdmitKeepsInv(Db(), req, definitionActive, item, unused);
      ResolvedGeneration(Db(), req, definitionActive, item, unused);
      hide ObservationInv, Resolve, ReserveNew, ReserveRetry;
      r := ResolveObservation(req, definitionActive, item, unused);
      if r.Failure? {
        return;
      }
      var before := sources;
      sources := sources + {req.source};
      if r.value.outcome.Replay? {
        return;
      }
      var taken := Reserve(req, r.value.obs, r.value.generation, r.value.outcome.Retry?);
      if taken {
        sources := before;
        r := Failure(NameTaken);
      }
    }

    /** The observation an execution row names. */
    method IdentityOf(e: Execution) returns (o: Option<Uuid>)
      ensures o == Identity(Db(), e)
    {
      if e in bound && bound[e].0 in observations && observations[bound[e].0].place.source.team == e.team {
        return Some(bound[e].0);
      }
      return None;
    }

    /** UPDATE mkb_observation_attempts and its ledger entry, for the current attempt. */
    method MoveCurrent(o: Uuid, was: Attempt, after: State)
      requires o in observations
      modifies this`attempts, this`ledger
      ensures attempts == MoveAttempt(old(Db()), o, was, after) && ledger == Log(old(Db()), o, was, after)
    {
      var generation := observations[o].generation;
      attempts := attempts[(o, generation) := was.(state := after, revision := was.revision + 1)];
      ledger := ledger + [Transition(o, generation, Some(was.state), after, was.revision, was.revision + 1)];
    }

    method MarkAcquired(e: Execution) returns (r: Result<bool, AdmitError>)
      requires ObservationInv(Db())
      modifies this`attempts, this`ledger, this`observations
      ensures (Db(), r) == AcquireTx(old(Db()), e) && ObservationInv(Db())
    {
      hide ObservationInv, MoveAttempt, Log, AcceptTx, FailTx;
      ReportsKeepInv(Db(), e, "");
      var o := IdentityOf(e);
      if o.None? || (o.value, observations[o.value].generation) !in attempts {
        return Success(false);
      }
      var attempt := attempts[(o.value, observations[o.value].generation)];
      if attempt.state == Acquired {
        return Success(false);
      }
      if attempt.state !in {Reserved, Acquiring} {
        return Failure(AttemptConflict);
      }
      MoveCurrent(o.value, attempt, Acquired);
      var obs := observations[o.value];
      if obs.state == Reserved {
        obs := obs.(state := Acquired, revision := obs.revision + 1);
      }
      observations := observations[o.value := obs];
      return Success(true);
    }

    method MarkAccepted(e: Execution, snapshot: string) returns (r: Result<bool, AdmitError>)
      requires ObservationInv(Db())
      modifies this`attempts, this`ledger, this`observations, this`links
      ensures (Db(), r) == AcceptTx(old(Db()), e, snapshot) && ObservationInv(Db())
    {
      hide ObservationInv, AcquireTx, FailTx;
      ReportsKeepInv(Db(), e, snapshot);
      var o := IdentityOf(e);
      if o.None? {
        return Success(false);
      }
      if o.value in links || exists p :: p in links && p in observations
                                         && observations[p].place.source.team == e.team && links[p] == snapshot {
        return Failure(LinkTaken);
      }
      var obs := observations[o.value];
      if (o.value, obs.generation) !in attempts {
        return Failure(AttemptMissing);
      }
      if obs.state != Acquired {
        return Failure(StateConflict);
      }
      var attempt := attempts[(o.value, obs.generation)];
      var moved := attempt.(state := Accepted, revision := attempt.revision + 1);
      attempts := if attempt.state == Acquired then attempts[(o.value, obs.generation) := moved] else attempts;
      ledger := ledger + [Transition(o.value, obs.generation, Some(attempt.state), Accepted, attempt.revision, attempt.revision + 1)];
      links := links[o.value := snapshot];
      observations := observations[o.value := obs.(state := Accepted, snapshot := Some(snapshot), revision := obs.revision + 1)];
      return Success(true);
    }

    method MarkFailed(e: Execution) returns (moved: bool)
      requires ObservationInv(Db())
      modifies this`attempts, this`ledger, this`observations
      ensures (Db(), moved) == FailTx(old(Db()), e) && ObservationInv(Db())
    {
      hide ObservationInv, MoveAttempt, Log, AcceptTx, AcquireTx;
      ReportsKeepInv(Db(), e, "");
      var o := IdentityOf(e);
      if o.None? || (o.value, observations[o.value].generation) !in attempts {
        return false;
      }
      var attempt := attempts[(o.value, observations[o.value].generation)];
      if attempt.state in {Accepted, Failed, Abandoned} {
        return false;
      }
      MoveCurrent(o.value, attempt, Failed);
      var obs := observations[o.value];
      if obs.state in {Reserved, Acquired} {
        obs := obs.(state := Failed, revision := obs.revision + 1);
      }
      observations := observations[o.value := obs];
      return true;
    }
  }

  lemma ReportsKeepInv(db: Db, e: Execution, snapshot: string)
    requires ObservationInv(db)
    ensures ObservationInv(AcquireTx(db, e).0) && ObservationInv(AcceptTx(db, e, snapshot).0) && ObservationInv(FailTx(db, e).0)
  {
    hide AcquireTx, AcceptTx, FailTx, AdmitTx, ObservationInv;
    StepKeepsInv(db, Acquire(e));
    StepKeepsInv(db, Accept(e, snapshot));
    StepKeepsInv(db, Fail(e));
  }

  lemma ResolvedGeneration(db: Db, req: Request, definitionActive: bool, item: Item, unused: Uuid)
    ensures var r := Resolve(db, req, definitionActive, item, unused);
      r.Success? ==>
        && (r.value.outcome == New ==> r.value.generation == 1)
        && (r.value.outcome == Retry ==> r.value.obs in db.observations && r.value.generation == db.observations[r.value.obs].generation + 1)
  {
  }
}
