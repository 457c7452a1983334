/** Retirement of superseded index generations: the tables and the transactions
    (src/services/index_retirement.py), with the pointer writers they interleave with. */
module IndexRetirement {
  import opened Wrappers
  import opened TargetRef

  type Id = nat
  type Time = int

  datatype Alias = Alias(team: string, item: string, namespace: string)

  /** A stored timestamp: its place in the text order the database sorts by, and the instant it parses to. */
  datatype Stamp = Stamp(rank: int, parsed: Option<Time>)

  /** `active` is the pointer's own lifecycle state; `served` says that its namespace and item rows are
      active, not deleted, and the item has a serving revision. */
  datatype Pointer = Pointer(generation: nat, revision: nat, active: bool, served: bool, updatedAt: Stamp)

  datatype Group = Group(alias: Alias, generation: nat)

  datatype Record = Record(group: Group, deletedAt: Option<Time>)

  datatype Status = Open | Completed | Abandoned

  datatype Intent = Intent(team: string, target: string, eligibleAt: Time, requestedAt: Time, status: Status, closedAt: Option<Time>)

  datatype CleanupProof = CleanupProof(intent: Id, team: string, target: string, verifiedAt: Time, count: nat)

  /** The five tables, the clock, the configured grace and the next unused identifier. */
  datatype Index = Index(grace: int, now: Time, pointers: map<Alias, Pointer>, records: map<Id, Record>,
                         intents: map<Id, Intent>, proofs: map<Id, CleanupProof>, next: Id)

  datatype RetireError = InvalidCoordinates | PointerFence | CutoverInvalid | TargetInvalid

  // ---------- reads ----------

  predicate Serving(pointers: map<Alias, Pointer>, a: Alias) {
    a in pointers && pointers[a].active && pointers[a].served
  }

  predicate Schedulable(a: Alias) {
    Printable(a.item, a.namespace) && a.team != ""
  }

  function TargetOf(g: Group): string {
    PrintTarget(Target(g.alias.item, g.alias.namespace, g.generation))
  }

  /** The group a stored intent names. */
  function GroupNamed(team: string, target: string): Option<Group> {
    match ParseTarget(target)
    case None => None
    case Some(t) => Some(Group(Alias(team, t.item, t.namespace), t.generation))
  }

  function OpenFor(intents: map<Id, Intent>, team: string, target: string): set<Id> {
    set i | i in intents && intents[i].team == team && intents[i].target == target && intents[i].status == Open
  }

  predicate HasOpen(intents: map<Id, Intent>, g: Group) {
    OpenFor(intents, g.alias.team, TargetOf(g)) != {}
  }

  predicate OldAndLive(ix: Index, r: Id) {
    && r in ix.records && ix.records[r].deletedAt.None?
    && Serving(ix.pointers, ix.records[r].group.alias)
    && ix.records[r].group.generation < ix.pointers[ix.records[r].group.alias].generation
  }

  /** The generations discovery selects: live records below a serving pointer. */
  function Superseded(ix: Index): set<Group> {
    set r | r in ix.records && OldAndLive(ix, r) :: ix.records[r].group
  }

  // ---------- schedule_retirement_tx ----------

  datatype Scheduled = Scheduled(intent: Id, inserted: bool)

  /** The deadline is frozen from the grace configured when the intent is inserted. */
  function WithIntent(ix: Index, g: Group, cutover: Time): Index {
    var intent := Intent(g.alias.team, TargetOf(g), cutover + ix.grace, cutover, Open, None);
    ix.(intents := ix.intents[ix.next := intent], next := ix.next + 1)
  }

  function ScheduleTx(ix: Index, a: Alias, retired: int, successor: int, revision: int, cutover: Option<Time>):
    (Index, Result<Scheduled, RetireError>)
  {
    if !Printable(a.item, a.namespace) || retired < 0 || a.team == "" || successor <= retired || revision < 0 then
      (ix, Failure(InvalidCoordinates))
    else if !Serving(ix.pointers, a) || ix.pointers[a].generation != successor || ix.pointers[a].revision != revision then
      (ix, Failure(PointerFence))
    else
      var effective := if cutover.Some? then cutover else ix.pointers[a].updatedAt.parsed;
      if effective.None? then (ix, Failure(CutoverInvalid))
      else
        var target := TargetOf(Group(a, retired));
        var existing := OpenFor(ix.intents, a.team, target);
        if existing != {} then
          if ParseTarget(target).None? then (ix, Failure(TargetInvalid))
          else (ix, Success(Scheduled(MinOf(existing), false)))
        else
          (WithIntent(ix, Group(a, retired), effective.value), Success(Scheduled(ix.next, true)))
  }

  // ---------- discover_retirements ----------

  /** The rows one discovery query returns: the first `limit` superseded generations in the order of their
      pointers' timestamps, ties broken by the database as it likes. */
  predicate DiscoveryPage(ix: Index, page: seq<Group>, limit: nat) {
    && (forall i, j | 0 <= i < j < |page| :: page[i] != page[j])
    && (forall g | g in page :: g in Superseded(ix))
    && (|page| <= limit)
    && (forall g | g in Superseded(ix) && g !in page ::
          |page| == limit && forall h | h in page :: StampOf(ix, h).rank <= StampOf(ix, g).rank)
  }

  function StampOf(ix: Index, g: Group): Stamp {
    if g.alias in ix.pointers then ix.pointers[g.alias].updatedAt else Stamp(0, None)
  }

  /** What one row of the page does. */
  function BackfillOne(ix: Index, g: Group): Result<(Index, nat), RetireError> {
    if g.alias !in ix.pointers || ix.pointers[g.alias].updatedAt.parsed.None? then Success((ix, 0))
    else
      var p := ix.pointers[g.alias];
      match ScheduleTx(ix, g.alias, g.generation, p.generation, p.revision, p.updatedAt.parsed)
      case (_, Failure(e)) => Failure(e)
      case (ix', Success(s)) => Success((ix', if s.inserted then 1 else 0))
  }

  function Backfill(ix: Index, page: seq<Group>): Result<(Index, nat), RetireError> {
    if page == [] then Success((ix, 0))
    else
      match Backfill(ix, page[..|page| - 1])
      case Failure(e) => Failure(e)
      case Success((ix1, created)) =>
        match BackfillOne(ix1, page[|page| - 1])
        case Failure(e) => Failure(e)
        case Success((ix2, more)) => Success((ix2, created + more))
  }

  /** One transaction: an error on any row undoes the whole page. */
  function DiscoverTx(ix: Index, page: seq<Group>): (Index, Result<nat, RetireError>) {
    match Backfill(ix, page)
    case Failure(e) => (ix, Failure(e))
    case Success((ix', created)) => (ix', Success(created))
  }

  // ---------- collect_due ----------

  datatype Candidate = Candidate(intent: Id, team: string, target: string, eligibleAt: Time, requestedAt: Time)

  function CandidateOf(ix: Index, i: Id): Candidate
    requires i in ix.intents
  {
    var row := ix.intents[i];
    Candidate(i, row.team, row.target, row.eligibleAt, row.requestedAt)
  }

  predicate IsDue(ix: Index, i: Id) {
    i in ix.intents && ix.intents[i].status == Open && ix.intents[i].eligibleAt <= ix.now
  }

  predicate NoLater(x: Intent, y: Intent) {
    x.eligibleAt < y.eligibleAt || (x.eligibleAt == y.eligibleAt && x.requestedAt <= y.requestedAt)
  }

  /** The due intents one query returns, earliest deadline first. */
  predicate DuePage(ix: Index, due: seq<Id>, limit: nat) {
    && (forall i, j | 0 <= i < j < |due| :: due[i] != due[j])
    && (forall i | i in due :: IsDue(ix, i))
    && |due| <= limit
    && (forall i | i in ix.intents && IsDue(ix, i) && i !in due ::
          |due| == limit && forall j | j in due && j in ix.intents :: NoLater(ix.intents[j], ix.intents[i]))
    && (forall i, j | 0 <= i < j < |due| && due[i] in ix.intents && due[j] in ix.intents :: NoLater(ix.intents[due[i]], ix.intents[due[j]]))
  }

  // ---------- soft_purge ----------

  datatype Purge = SoftPurged(count: nat) | NotDue | Stale | ActiveGeneration | BadTarget | AbandonedIntent

  predicate SameCandidate(ix: Index, c: Candidate) {
    && c.intent in ix.intents && ix.intents[c.intent].status == Open
    && CandidateOf(ix, c.intent) == c
  }

  function LiveIn(records: map<Id, Record>, g: Group): set<Id> {
    set r | r in records && records[r].group == g && records[r].deletedAt.None?
  }

  /** UPDATE ... SET deleted_at=? WHERE index_generation=? AND deleted_at IS NULL. */
  function SoftDelete(records: map<Id, Record>, g: Group, now: Time): map<Id, Record> {
    map r | r in records :: if r in LiveIn(records, g) then records[r].(deletedAt := Some(now)) else records[r]
  }

  function Close(ix: Index, i: Id, status: Status): Index
    requires i in ix.intents
  {
    ix.(intents := ix.intents[i := ix.intents[i].(status := status, closedAt := Some(ix.now))])
  }

  function SoftPurgeTx(ix: Index, c: Candidate): (Index, Purge) {
    if !SameCandidate(ix, c) then (ix, Stale)
    else if ix.now < ix.intents[c.intent].eligibleAt then (ix, NotDue)
    else
      match GroupNamed(c.team, c.target)
      case None => (ix, BadTarget)
      case Some(g) =>
        var purged := ix.(records := SoftDelete(ix.records, g, ix.now));
        if !Serving(ix.pointers, g.alias) then (Close(purged, c.intent, Abandoned), AbandonedIntent)
        else if ix.pointers[g.alias].generation <= g.generation then (ix, ActiveGeneration)
        else
          var count := |LiveIn(ix.records, g)|;
          var proof := CleanupProof(c.intent, c.team, c.target, ix.now, count);
          (Close(purged.(proofs := ix.proofs[ix.next := proof], next := ix.next + 1), c.intent, Completed), SoftPurged(count))
  }

  // ---------- scan_once ----------

  function CandidatesOf(ix: Index, due: seq<Id>): (s: seq<Candidate>)
    requires forall i | i in due :: i in ix.intents
  {
    seq(|due|, k requires 0 <= k < |due| => CandidateOf(ix, due[k]))
  }

  function PurgeAll(ix: Index, candidates: seq<Candidate>): Index {
    if candidates == [] then ix
    else
      var n := |candidates| - 1;
      SoftPurgeTx(PurgeAll(ix, candidates[..n]), candidates[n]).0
  }

  /** A whole scan with nobody in between; a failing discovery ends it. */
  function Scan(ix: Index, page: seq<Group>, due: seq<Id>): Index
    requires forall i | i in due :: i in DiscoverTx(ix, page).0.intents
  {
    var (ix1, found) := DiscoverTx(ix, page);
    if found.Failure? then ix else PurgeAll(ix1, CandidatesOf(ix1, due))
  }

  // ---------- the machine ----------

  datatype Step =
    | Tick(to: Time)
    | SetGrace(grace: int)
    | MovePointer(alias: Alias, pointer: Pointer)
    | Cutover(alias: Alias, generation: nat, served: bool, at: Stamp)
    | AddRecord(group: Group)
    | Schedule(alias: Alias, retired: int, successor: int, revision: int, cutover: Option<Time>)
    | Discover(page: seq<Group>)
    | Purge(candidate: Candidate)

  function Advanced(p: Pointer, generation: nat, served: bool, at: Stamp): Pointer {
    p.(generation := generation, revision := p.revision + 1, active := true, served := served, updatedAt := at)
  }

  /** A publication or a rebuild moves the pointer forward and schedules the old generation in the same
      transaction; if scheduling fails the pointer does not move either. */
  function CutoverTx(ix: Index, a: Alias, generation: nat, served: bool, at: Stamp): Index {
    if a !in ix.pointers || generation <= ix.pointers[a].generation then ix
    else
      var was := ix.pointers[a];
      var moved := ix.(pointers := ix.pointers[a := Advanced(was, generation, served, at)]);
      match ScheduleTx(moved, a, was.generation, generation, was.revision + 1, None)
      case (_, Failure(_)) => ix
      case (ix', Success(_)) => ix'
  }

  function Next(ix: Index, step: Step): Index {
    match step
    case Tick(to) => if ix.now <= to then ix.(now := to) else ix
    case SetGrace(grace) => if grace > 0 then ix.(grace := grace) else ix
    case MovePointer(alias, pointer) => ix.(pointers := ix.pointers[alias := pointer])
    case Cutover(alias, generation, served, at) => CutoverTx(ix, alias, generation, served, at)
    case AddRecord(group) => ix.(records := ix.records[ix.next := Record(group, None)], next := ix.next + 1)
    case Schedule(alias, retired, successor, revision, cutover) => ScheduleTx(ix, alias, retired, successor, revision, cutover).0
    case Discover(page) => DiscoverTx(ix, page).0
    case Purge(candidate) => SoftPurgeTx(ix, candidate).0
  }

  predicate Retires(step: Step) {
    step.Schedule? || step.Discover? || step.Purge?
  }

  function Run(ix: Index, steps: seq<Step>): Index
    decreases |steps|
  {
    if steps == [] then ix else Run(Next(ix, steps[0]), steps[1..])
  }
}
