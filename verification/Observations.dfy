/** Observation admission and its attempts (src/services/observation_reservations.py): the tables, the
    transactions, and the transition ledger read back as a machine. */
module Observations {
  import opened Wrappers

  type Uuid = nat

  datatype State = Reserved | Acquiring | Acquired | Accepted | Failed | Abandoned

  datatype Source = Source(team: string, kind: string, externalKey: string)
  datatype Place = Place(source: Source, key: string)
  datatype Execution = Execution(team: string, id: string)

  datatype Observation = Observation(place: Place, fingerprint: string, state: State, generation: nat, task: string,
                                     execution: string, snapshot: Option<string>, revision: nat)

  datatype Attempt = Attempt(task: string, execution: string, state: State, expectedRevision: nat, revision: nat)

  datatype Transition = Transition(obs: Uuid, generation: nat, before: Option<State>, after: State, expected: nat, actual: nat)

  /** Attempts are named by their observation and generation, which the schema makes unique; `bound` is the
      observation and generation recorded on each execution row. */
  datatype Db = Db(sources: set<Source>, observations: map<Uuid, Observation>, attempts: map<(Uuid, nat), Attempt>,
                   ledger: seq<Transition>, links: map<Uuid, string>, bound: map<Execution, (Uuid, nat)>)

  datatype AdmitError =
    | RegistryNotFound | ItemDeleted | ItemNotActive | RetryTargetMissing | ObservationConflict
    | RetryRequired | AttemptConflict | RetryStateConflict | StateConflict | AttemptMissing | LinkTaken | NameTaken

  // ---------- coordinates ----------

  /** An explicit key wins, a registered API is keyed by its own external key, anything else by its task.
      Trimming and case folding have been applied to the strings already. */
  function ObservationKey(kind: string, explicit: Option<string>, externalKey: string, task: string): string {
    if explicit.Some? && explicit.value != "" then explicit.value
    else if kind == "registered_api" then externalKey
    else task
  }

  datatype Request = Request(source: Source, explicit: Option<string>, fingerprint: string, retryFailed: bool,
                             expectedAttempt: Option<int>, task: string, execution: string)
  {
    function At(): Place {
      Place(source, ObservationKey(source.kind, explicit, source.externalKey, task))
    }
  }

  datatype Item = NoItem | ActiveItem(epoch: int) | DeletedItem | InactiveItem

  datatype Outcome = New | Retry | Replay(task: string)
  datatype Admission = Admission(obs: Uuid, generation: nat, outcome: Outcome)

  function ObservationsAt(db: Db, p: Place): set<Uuid> {
    set o | o in db.observations && db.observations[o].place == p
  }

  function FindObservation(db: Db, p: Place): (r: Option<Uuid>)
    ensures r.Some? ==> r.value in ObservationsAt(db, p)
    ensures r.None? ==> ObservationsAt(db, p) == {}
  {
    if ObservationsAt(db, p) == {} then None else Some(MinOf(ObservationsAt(db, p)))
  }

  // ---------- admission: resolve_tx, then reserve_tx in the same transaction ----------

  function Resolve(db: Db, req: Request, definitionActive: bool, item: Item, unused: Uuid): Result<Admission, AdmitError> {
    if !definitionActive then Failure(RegistryNotFound)
    else if item.DeletedItem? then Failure(ItemDeleted)
    else if item.InactiveItem? then Failure(ItemNotActive)
    else
      match FindObservation(db, req.At())
      case None => if req.retryFailed then Failure(RetryTargetMissing) else Success(Admission(unused, 1, New))
      case Some(o) =>
        var obs := db.observations[o];
        if obs.fingerprint != req.fingerprint then Failure(ObservationConflict)
        else if obs.state == Failed then
          if !req.retryFailed then Failure(RetryRequired)
          else if req.expectedAttempt != Some(obs.generation as int) then Failure(AttemptConflict)
          else Success(Admission(o, obs.generation + 1, Retry))
        else if req.retryFailed then Failure(RetryStateConflict)
        else if obs.state in {Reserved, Acquired, Accepted} then Success(Admission(o, obs.generation, Replay(obs.task)))
        else Failure(StateConflict)
  }

  function Bind(db: Db, req: Request, o: Uuid, generation: nat, expected: nat): Db {
    db.(attempts := db.attempts[(o, generation) := Attempt(req.task, req.execution, Reserved, expected, 0)],
        ledger := db.ledger + [Transition(o, generation, None, Reserved, 0, 0)],
        bound := db.bound[Execution(req.source.team, req.execution) := (o, generation)])
  }

  function ReserveNew(db: Db, req: Request, o: Uuid): Db {
    var obs := Observation(req.At(), req.fingerprint, Reserved, 1, req.task, req.execution, None, 0);
    Bind(db.(observations := db.observations[o := obs]), req, o, 1, 0)
  }

  function ReserveRetry(db: Db, req: Request, o: Uuid): Db
    requires o in db.observations
  {
    var was := db.observations[o];
    var obs := was.(state := Reserved, generation := was.generation + 1, task := req.task, execution := req.execution,
                    snapshot := None, revision := was.revision + 1);
    Bind(db.(observations := db.observations[o := obs]), req, o, was.generation + 1, 1)
  }

  function AdmitTx(db: Db, req: Request, definitionActive: bool, item: Item, unused: Uuid): (Db, Result<Admission, AdmitError>) {
    var r := Resolve(db, req, definitionActive, item, unused);
    if r.Failure? then (db, r)
    else
      var sourced := db.(sources := db.sources + {req.source});
      var o, generation := r.value.obs, r.value.generation;
      match r.value.outcome
      case Replay(_) => (sourced, r)
      case New =>
        if o in db.observations || (o, generation) in db.attempts then (db, Failure(NameTaken))
        else (ReserveNew(sourced, req, o), r)
      case Retry =>
        if (o, generation) in db.attempts || o !in db.observations then (db, Failure(NameTaken))
        else (ReserveRetry(sourced, req, o), r)
  }

  // ---------- what executions report ----------

  /** identity_for_execution_tx: the observation of an execution row; its own generation is not read. */
  function Identity(db: Db, e: Execution): Option<Uuid> {
    if e in db.bound && db.bound[e].0 in db.observations && db.observations[db.bound[e].0].place.source.team == e.team
    then Some(db.bound[e].0)
    else None
  }

  function CurrentAttempt(db: Db, o: Uuid): Option<Attempt>
    requires o in db.observations
  {
    if (o, db.observations[o].generation) in db.attempts then Some(db.attempts[(o, db.observations[o].generation)]) else None
  }

  /** Appends the ledger entry of the current attempt's move to `after`. */
  function Log(db: Db, o: Uuid, was: Attempt, after: State): seq<Transition>
    requires o in db.observations
  {
    db.ledger + [Transition(o, db.observations[o].generation, Some(was.state), after, was.revision, was.revision + 1)]
  }

  function MoveAttempt(db: Db, o: Uuid, was: Attempt, after: State): map<(Uuid, nat), Attempt>
    requires o in db.observations
  {
    db.attempts[(o, db.observations[o].generation) := was.(state := after, revision := was.revision + 1)]
  }

  function AcquireTx(db: Db, e: Execution): (Db, Result<bool, AdmitError>) {
    match Identity(db, e)
    case None => (db, Success(false))
    case Some(o) =>
      var obs := db.observations[o];
      match CurrentAttempt(db, o)
      case None => (db, Success(false))
      case Some(attempt) =>
        if attempt.state == Acquired then (db, Success(false))
        else if attempt.state !in {Reserved, Acquiring} then (db, Failure(AttemptConflict))
        else
          var moved := if obs.state == Reserved then obs.(state := Acquired, revision := obs.revision + 1) else obs;
          (db.(attempts := MoveAttempt(db, o, attempt, Acquired), ledger := Log(db, o, attempt, Acquired),
               observations := db.observations[o := moved]),
           Success(true))
  }

  function AcceptTx(db: Db, e: Execution, snapshot: string): (Db, Result<bool, AdmitError>) {
    match Identity(db, e)
    case None => (db, Success(false))
    case Some(o) =>
      if o in db.links || exists p :: p in db.links && p in db.observations
                                      && db.observations[p].place.source.team == e.team && db.links[p] == snapshot
      then (db, Failure(LinkTaken))
      else
        var obs := db.observations[o];
        match CurrentAttempt(db, o)
        case None => (db, Failure(AttemptMissing))
        case Some(attempt) =>
          if obs.state != Acquired then (db, Failure(StateConflict))
          else
            var attempts := if attempt.state == Acquired then MoveAttempt(db, o, attempt, Accepted) else db.attempts;
            (db.(links := db.links[o := snapshot], attempts := attempts, ledger := Log(db, o, attempt, Accepted),
                 observations := db.observations[o := obs.(state := Accepted, snapshot := Some(snapshot), revision := obs.revision + 1)]),
             Success(true))
  }

  function FailTx(db: Db, e: Execution): (Db, bool) {
    match Identity(db, e)
    case None => (db, false)
    case Some(o) =>
      var obs := db.observations[o];
      match CurrentAttempt(db, o)
      case None => (db, false)
      case Some(attempt) =>
        if attempt.state in {Accepted, Failed, Abandoned} then (db, false)
        else
          var moved := if obs.state in {Reserved, Acquired} then obs.(state := Failed, revision := obs.revision + 1) else obs;
          (db.(attempts := MoveAttempt(db, o, attempt, Failed), ledger := Log(db, o, attempt, Failed),
               observations := db.observations[o := moved]),
           true)
  }

  // ---------- the machine ----------

  datatype Step =
    | Admit(req: Request, definitionActive: bool, item: Item, unused: Uuid)
    | Acquire(e: Execution)
    | Accept(e: Execution, snapshot: string)
    | Fail(e: Execution)

  function Next(db: Db, step: Step): Db {
    match step
    case Admit(req, definitionActive, item, unused) => AdmitTx(db, req, definitionActive, item, unused).0
    case Acquire(e) => AcquireTx(db, e).0
    case Accept(e, snapshot) => AcceptTx(db, e, snapshot).0
    case Fail(e) => FailTx(db, e).0
  }

  function Run(db: Db, steps: seq<Step>): Db
    decreases |steps|
  {
    if steps == [] then db else Run(Next(db, steps[0]), steps[1..])
  }

  const EMPTY := Db({}, map[], map[], [], map[], map[])

  // ---------- the ledger, read back ----------

  /** The state and row revision a chain of entries arrives at. */
  datatype Chain = Nothing | Broken | Arrived(state: State, revision: nat)

  predicate Lawful(before: State, after: State) {
    || (before == Reserved && after in {Acquired, Failed})
    || (before == Acquired && after in {Accepted, Failed})
  }

  function Follow(c: Chain, t: Transition): Chain {
    match c
    case Nothing => if t.before.None? && t.after == Reserved && t.actual == 0 then Arrived(Reserved, 0) else Broken
    case Broken => Broken
    case Arrived(state, revision) =>
      if t.before == Some(state) && Lawful(state, t.after) && t.expected == revision && t.actual == revision + 1
      then Arrived(t.after, t.actual) else Broken
  }

  /** The entries of one attempt, folded in the order they were appended. */
  function Fold(ledger: seq<Transition>, o: Uuid, generation: nat): Chain {
    if ledger == [] then Nothing
    else
      var t := ledger[|ledger| - 1];
      var before := Fold(ledger[..|ledger| - 1], o, generation);
      if t.obs == o && t.generation == generation then Follow(before, t) else before
  }

  function Entries(ledger: seq<Transition>, o: Uuid): nat {
    if ledger == [] then 0
    else Entries(ledger[..|ledger| - 1], o) + if ledger[|ledger| - 1].obs == o then 1 else 0
  }
}
