/** The durable tables of the object lifecycle and the transactions that write them: uploads and their
    sessions (src/services/object_upload.py), abandoned-hold release (src/services/object_upload_ttl.py),
    staged outcomes (src/services/artifacts.py) and the two collector transactions (src/services/object_gc.py). */
module ObjectLedger {
  import opened Wrappers
  import opened LocalStore

  type Uuid = nat
  type Time = int

  datatype Config = Config(grace: int, ttl: int)

  // ---------- rows ----------

  datatype Row = Row(team: Team, digest: Digest, size: nat, createdAt: Time, tombstonedAt: Option<Time>) {
    function At(): Coord { Coord(team, digest) }
  }

  datatype Purpose = UploadPending | ProcessIo | OperatorHold | BackupHold | OtherPurpose(name: string)

  /** owner_kind and owner_uuid. */
  datatype Owner = PublicUpload(id: Uuid) | UploadSession(id: Uuid) | OtherOwner(kind: string, id: Uuid)

  datatype Ref = Ref(team: Team, obj: Uuid, purpose: Purpose, owner: Owner, createdAt: Time,
                     releasedAt: Option<Time>, session: Option<Uuid>)

  datatype SessionState =
    | Receiving | Prepared | Promoted | Committed | Reserved | Consumed | Cancelled | Expired | Failed

  /** Idempotency keys; the legacy shapes are what a call without a key is given, and a client is free
      to send a key of such a shape itself. */
  datatype Key = Named(text: string) | Legacy(digest: Digest, size: nat) | LegacyAgain(digest: Digest, size: nat, salt: Uuid)

  datatype Session = Session(team: Team, key: Key, state: SessionState, obj: Uuid, digest: Digest, size: nat,
                             pendingRef: Option<Uuid>, reservedFor: Option<(Uuid, nat)>)

  datatype Proof = Proof(team: Team, obj: Uuid, digest: Digest, size: nat, unlinkedAt: Time)

  /** A cleanup intent's frozen coordinates, as JSON values whose strings are already classified. */
  datatype Text =
    | ObjectText(id: Uuid)          // the object's own name
    | StoredObjectText(id: Uuid)    // stored_object:<name>
    | ObjectRefText(id: Uuid)       // object:<name>
    | DigestText(d: Digest)         // the digest
    | Sha256Text(d: Digest)         // sha256:<digest>
    | HandleText(at: Coord)         // the logical handle
    | OtherText(s: string)

  datatype Json = Str(text: Text) | Arr(items: seq<Json>) | Obj(fields: seq<(string, Json)>) | Scalar
  datatype CleanupIntent = CleanupIntent(team: Team, open: bool, holdRefs: Option<Json>, target: Json, snapshot: Json)

  /** mkb_stored_objects, mkb_object_references, mkb_object_upload_sessions, mkb_object_delete_proofs,
      mkb_intake_cleanup_intents and mkb_teams. */
  datatype Db = Db(rows: map<Uuid, Row>, refs: map<Uuid, Ref>, sessions: map<Uuid, Session>,
                   proofs: map<Uuid, Proof>, intents: map<Uuid, CleanupIntent>, teams: map<Team, bool>)

  datatype LedgerError =
    | IdempotencyInvalid | TeamNotFound | TeamNotActive | SessionConflict | SessionCatalogUnavailable
    | SessionNotFound | CommandInvalid | ObjectNotFound | NameTaken

  predicate Live(db: Db, u: Uuid) {
    u in db.rows && db.rows[u].tombstonedAt.None?
  }

  predicate Held(db: Db, r: Uuid) {
    r in db.refs && db.refs[r].releasedAt.None?
  }

  // ---------- lookups ----------

  function LiveRows(db: Db, team: Team, digest: Digest): set<Uuid> {
    set u | u in db.rows && db.rows[u].At() == Coord(team, digest) && db.rows[u].tombstonedAt.None?
  }

  /** live_stored_object_uuid. */
  function FindLive(db: Db, team: Team, digest: Digest, size: nat): (r: Option<Uuid>)
    ensures r.Some? ==> r.value in LiveRows(db, team, digest) && db.rows[r.value].size == size
    ensures r.None? ==> forall u | u in LiveRows(db, team, digest) :: db.rows[u].size != size
  {
    var hits := set u: Uuid | u in LiveRows(db, team, digest) && db.rows[u].size == size;
    assert forall u | u in LiveRows(db, team, digest) && db.rows[u].size == size :: u in hits;
    if hits == {} then None else Some(MinOf(hits))
  }

  predicate Names(db: Db, r: Uuid, team: Team, u: Uuid) {
    r in db.refs && db.refs[r].team == team && db.refs[r].obj == u
  }

  function Releases(db: Db, team: Team, u: Uuid): set<Time> {
    set r | r in db.refs && Names(db, r, team, u) && db.refs[r].releasedAt.Some? :: db.refs[r].releasedAt.value
  }

  /** COALESCE(MAX(released_at), created_at): since when nobody has owned the row, if nobody does now. */
  function UnownedAt(db: Db, u: Uuid): Time
    requires u in db.rows
  {
    var released := Releases(db, db.rows[u].team, u);
    if released == {} then db.rows[u].createdAt else MaxOf(released)
  }

  function SessionsFor(db: Db, team: Team, key: Key): set<Uuid> {
    set s | s in db.sessions && db.sessions[s].team == team && db.sessions[s].key == key
  }

  function FindSession(db: Db, team: Team, key: Key): (r: Option<Uuid>)
    ensures r.Some? ==> r.value in SessionsFor(db, team, key)
    ensures r.None? ==> SessionsFor(db, team, key) == {}
  {
    if SessionsFor(db, team, key) == {} then None else Some(MinOf(SessionsFor(db, team, key)))
  }

  /** A session token carries a keyed hash of (team, key, session), taken here as injective. */
  datatype Token = Token(session: Uuid, team: Team, key: Key, hashed: Uuid) | MalformedToken(text: string)

  function TokenFor(team: Team, key: Key, s: Uuid): Token {
    Token(s, team, key, s)
  }

  /** _session_tx. */
  function SessionOf(db: Db, team: Team, token: Token): (r: Option<Uuid>)
    ensures r.Some? ==> r.value in db.sessions && db.sessions[r.value].team == team
  {
    if token.MalformedToken? || token.session !in db.sessions || db.sessions[token.session].team != team
       || token != TokenFor(team, db.sessions[token.session].key, token.session)
    then None
    else Some(token.session)
  }

  // ---------- elementary edits ----------

  function AddRow(db: Db, u: Uuid, row: Row): Db {
    db.(rows := db.rows[u := row])
  }

  function AddRef(db: Db, r: Uuid, ref: Ref): Db {
    db.(refs := db.refs[r := ref])
  }

  /** UPDATE ... SET released_at=? WHERE released_at IS NULL AND reference_uuid IN picked. */
  function ReleaseRefs(db: Db, picked: set<Uuid>, stamp: Time): Db {
    db.(refs := map r | r in db.refs ::
          if r in picked && db.refs[r].releasedAt.None? then db.refs[r].(releasedAt := Some(stamp)) else db.refs[r])
  }

  /** The live upload_pending references that carry this session. */
  function HoldsOf(db: Db, s: Uuid): set<Uuid> {
    set r | r in db.refs && db.refs[r].purpose == UploadPending && db.refs[r].releasedAt.None? && db.refs[r].session == Some(s)
  }

  function SetState(db: Db, s: Uuid, state: SessionState): Db
    requires s in db.sessions
  {
    db.(sessions := db.sessions[s := db.sessions[s].(state := state)])
  }

  const CANCELLABLE: set<SessionState> := {Receiving, Prepared, Promoted, Committed}

  // ---------- upload ----------

  /** The identifiers one upload transaction draws from uuid7. */
  datatype Ids = Ids(row: Uuid, session: Uuid, ref: Uuid, owner: Uuid, salt: Uuid)

  predicate Unused(db: Db, ids: Ids) {
    ids.row !in db.rows && ids.session !in db.sessions && ids.ref !in db.refs
    && forall s | s in db.sessions && db.sessions[s].key.LegacyAgain? :: db.sessions[s].key.salt != ids.salt
  }

  datatype UploadRecord = UploadRecord(obj: Uuid, replay: bool, token: Option<Token>)

  function EffectiveKey(requested: Option<Key>, stat: Stat): Key {
    if requested.Some? then requested.value else Legacy(stat.digest, stat.size)
  }

  /** The row a promoted object is catalogued under: the live one, or else a new one named u. */
  function RowFor(db: Db, stat: Stat, u: Uuid): Uuid {
    var existing := FindLive(db, stat.team, stat.digest, stat.size);
    if existing.Some? then existing.value else u
  }

  function WithRow(db: Db, now: Time, stat: Stat, u: Uuid): Db {
    if FindLive(db, stat.team, stat.digest, stat.size).Some? then db
    else AddRow(db, u, Row(stat.team, stat.digest, stat.size, now, None))
  }

  /** A new command: catalogue row if none is live, then session, hold and commit. */
  function OpenSession(db: Db, now: Time, stat: Stat, keyed: bool, key: Key, ids: Ids): (Db, Result<UploadRecord, LedgerError>) {
    var obj := RowFor(db, stat, ids.row);
    var db1 := WithRow(db, now, stat, ids.row);
    var owner := if keyed then UploadSession(ids.session) else PublicUpload(ids.owner);
    var db2 := AddRef(db1, ids.ref, Ref(stat.team, obj, UploadPending, owner, now, None, Some(ids.session)));
    var session := Session(stat.team, key, Committed, obj, stat.digest, stat.size, Some(ids.ref), None);
    var db3 := db2.(sessions := db2.sessions[ids.session := session]);
    (db3, Success(UploadRecord(obj, false, if keyed then Some(TokenFor(stat.team, key, ids.session)) else None)))
  }

  /** The catalogue transaction of one upload whose bytes were promoted as `stat`. */
  function UploadTx(db: Db, now: Time, stat: Stat, requested: Option<Key>, ids: Ids): (Db, Result<UploadRecord, LedgerError>) {
    if requested == Some(Named("")) then (db, Failure(IdempotencyInvalid))
    else if stat.team !in db.teams then (db, Failure(TeamNotFound))
    else if !db.teams[stat.team] then (db, Failure(TeamNotActive))
    else if !Unused(db, ids) then (db, Failure(NameTaken))
    else
      var key := EffectiveKey(requested, stat);
      match FindSession(db, stat.team, key)
      case None => OpenSession(db, now, stat, requested.Some?, key, ids)
      case Some(s) =>
        var session := db.sessions[s];
        if session.digest != stat.digest || session.size != stat.size then (db, Failure(SessionConflict))
        else if !Live(db, session.obj) || db.rows[session.obj].team != stat.team then
          if requested.Some? then (db, Failure(SessionCatalogUnavailable))
          else OpenSession(db, now, stat, false, LegacyAgain(stat.digest, stat.size, ids.salt), ids)
        else if requested.Some? then (db, Success(UploadRecord(session.obj, true, Some(TokenFor(stat.team, key, s)))))
        else
          var hold := Ref(stat.team, session.obj, UploadPending, PublicUpload(ids.owner), now, None, None);
          (AddRef(db, ids.ref, hold), Success(UploadRecord(session.obj, true, None)))
  }

  // ---------- other owners ----------

  /** _catalog_stat; without an owner it is the catalogue half alone. */
  function CatalogTx(db: Db, now: Time, stat: Stat, owner: Option<Owner>, u: Uuid, r: Uuid): Db {
    if u in db.rows || r in db.refs then db
    else
      var db1 := WithRow(db, now, stat, u);
      if owner.None? then db1 else AddRef(db1, r, Ref(stat.team, RowFor(db, stat, u), ProcessIo, owner.value, now, None, None))
  }

  // ---------- sessions ----------

  function ReserveTx(db: Db, team: Team, token: Token, task: Uuid, generation: int): (Db, Result<bool, LedgerError>) {
    if generation < 1 then (db, Failure(CommandInvalid))
    else
      match SessionOf(db, team, token)
      case None => (db, Failure(SessionNotFound))
      case Some(s) =>
        if db.sessions[s].state != Committed then (db, Success(false))
        else
          (db.(sessions := db.sessions[s := db.sessions[s].(state := Reserved, reservedFor := Some((task, generation)))]), Success(true))
  }

  function ConsumeTx(db: Db, team: Team, token: Token, stamp: Time): (Db, Result<bool, LedgerError>) {
    match SessionOf(db, team, token)
    case None => (db, Failure(SessionNotFound))
    case Some(s) =>
      if db.sessions[s].state != Reserved then (db, Success(false))
      else (ReleaseRefs(SetState(db, s, Consumed), HoldsOf(db, s), stamp), Success(true))
  }

  /** The release half is unconditional: only the state change looks at the state. */
  function CancelSessionTx(db: Db, team: Team, token: Token, stamp: Time): (Db, Result<bool, LedgerError>) {
    match SessionOf(db, team, token)
    case None => (db, Failure(SessionNotFound))
    case Some(s) =>
      var moved := db.sessions[s].state in CANCELLABLE;
      var db1 := if moved then SetState(db, s, Cancelled) else db;
      (ReleaseRefs(db1, HoldsOf(db, s), stamp), Success(moved))
  }

  /** The live public-upload holds on an object. */
  function PublicHolds(db: Db, team: Team, u: Uuid): set<Uuid> {
    set r | r in db.refs && Names(db, r, team, u) && db.refs[r].purpose == UploadPending
            && db.refs[r].owner.PublicUpload? && db.refs[r].releasedAt.None?
  }

  /** ORDER BY created_at DESC, reference_uuid DESC LIMIT 1. */
  function Latest(db: Db, picked: set<Uuid>): (r: Uuid)
    requires picked != {} && picked <= db.refs.Keys
    ensures r in picked
    ensures forall q | q in picked :: db.refs[q].createdAt < db.refs[r].createdAt
                                     || (db.refs[q].createdAt == db.refs[r].createdAt && q <= r)
  {
    var times := set q | q in picked :: db.refs[q].createdAt;
    assert times != {} by { var q := Pick(picked); assert db.refs[q].createdAt in times; }
    var newest := MaxOf(times);
    var tied := set q: Uuid | q in picked && db.refs[q].createdAt == newest;
    assert tied != {} by { var q :| q in picked && db.refs[q].createdAt == newest; assert q in tied; }
    assert forall q | q in picked :: db.refs[q].createdAt in times && (db.refs[q].createdAt == newest ==> q in tied);
    MaxOf(tied)
  }

  function CancelHandleTx(db: Db, team: Team, digest: Digest, stamp: Time): (Db, Result<bool, LedgerError>) {
    if LiveRows(db, team, digest) == {} then (db, Failure(ObjectNotFound))
    else
      var holds := PublicHolds(db, team, MinOf(LiveRows(db, team, digest)));
      if holds == {} then (db, Success(false))
      else (ReleaseRefs(db, {Latest(db, holds)}, stamp), Success(true))
  }

  // ---------- status ----------

  datatype Status = Pending | Ingested | Unheld | Gone

  predicate PendingOn(db: Db, team: Team, u: Uuid, session: Option<Uuid>) {
    exists r :: r in db.refs && Names(db, r, team, u) && db.refs[r].purpose == UploadPending && db.refs[r].releasedAt.None?
                && (session.Some? ==> db.refs[r].session == session)
  }

  predicate IngestedFrom(db: Db, team: Team, u: Uuid) {
    exists r :: r in db.refs && Names(db, r, team, u) && db.refs[r].purpose == OtherPurpose("intake_snapshot_artifact")
                && db.refs[r].owner.OtherOwner? && db.refs[r].owner.kind == "intake_snapshot_source_object" && db.refs[r].releasedAt.None?
  }

  /** stat: a live row is preferred to any tombstoned one. */
  function StatTx(db: Db, team: Team, digest: Digest, token: Option<Token>): Result<Status, LedgerError> {
    var session := if token.Some? then SessionOf(db, team, token.value) else None;
    if token.Some? && session.None? then Failure(SessionNotFound)
    else if session.Some? && db.sessions[session.value].digest != digest then Failure(SessionConflict)
    else if LiveRows(db, team, digest) != {} then
      var u := MinOf(LiveRows(db, team, digest));
      Success(if PendingOn(db, team, u, session) then Pending else if IngestedFrom(db, team, u) then Ingested else Unheld)
    else if exists u :: u in db.rows && db.rows[u].At() == Coord(team, digest) then Success(Gone)
    else Failure(ObjectNotFound)
  }

  // ---------- abandoned holds ----------

  /** A hold the lifecycle scan may expire: old, and not guarded by a reserved or consumed session. */
  predicate Abandoned(db: Db, r: Uuid, cutoff: Time) {
    && Held(db, r)
    && db.refs[r].purpose == UploadPending
    && db.refs[r].createdAt <= cutoff
    && (db.refs[r].session.None? || db.refs[r].session.value !in db.sessions
        || db.sessions[db.refs[r].session.value].state !in {Reserved, Consumed})
  }

  function SessionsBehind(db: Db, picked: set<Uuid>): set<Uuid> {
    set r | r in picked && r in db.refs && db.refs[r].session.Some? :: db.refs[r].session.value
  }

  /** The whole scan transaction over the references the query returned. */
  function ExpireTx(db: Db, picked: set<Uuid>, stamp: Time): Db {
    var behind := SessionsBehind(db, picked);
    ReleaseRefs(db, picked, stamp).(
      sessions := map s | s in db.sessions ::
        if s in behind && db.sessions[s].state in CANCELLABLE then db.sessions[s].(state := Expired) else db.sessions[s])
  }

  // ---------- the collector's transactions ----------

  datatype Candidate = Candidate(team: Team, obj: Uuid, digest: Digest, size: nat, createdAt: Time, unownedAt: Time) {
    function At(): Coord { Coord(team, digest) }
  }

  datatype Disposition = Deleted | Stale | LiveReference | Hold | CleanupFence | DuplicateCatalog | MissingBytes | Error

  predicate SameCatalogueRow(db: Db, c: Candidate) {
    && Live(db, c.obj)
    && db.rows[c.obj].At() == c.At()
    && db.rows[c.obj].size == c.size
    && db.rows[c.obj].createdAt == c.createdAt
    && UnownedAt(db, c.obj) == c.unownedAt
  }

  predicate GraceExpired(c: Candidate, now: Time, grace: int) {
    c.unownedAt <= now - grace
  }

  predicate Coordinate(t: Text, c: Candidate) {
    t in {ObjectText(c.obj), StoredObjectText(c.obj), ObjectRefText(c.obj), DigestText(c.digest), Sha256Text(c.digest), HandleText(c.At())}
  }

  /** Depth-first search through lists and mapping values, never mapping keys. */
  predicate Mentions(value: Json, c: Candidate) {
    match value
    case Str(t) => Coordinate(t, c)
    case Arr(items) => exists i | 0 <= i < |items| :: Mentions(items[i], c)
    case Obj(fields) => exists i | 0 <= i < |fields| :: Mentions(fields[i].1, c)
    case Scalar => false
  }

  /** Undecodable or non-list hold references count as an unknown fence. */
  predicate Fences(i: CleanupIntent, c: Candidate) {
    && i.team == c.team && i.open
    && (i.holdRefs.None? || !i.holdRefs.value.Arr? || Mentions(i.holdRefs.value, c) || Mentions(i.target, c) || Mentions(i.snapshot, c))
  }

  function HoldingRefs(db: Db, team: Team, u: Uuid): set<Uuid> {
    set r | r in db.refs && Names(db, r, team, u) && db.refs[r].releasedAt.None?
  }

  /** ORDER BY created_at, reference_uuid LIMIT 1. */
  function Earliest(db: Db, picked: set<Uuid>): (r: Uuid)
    requires picked != {} && picked <= db.refs.Keys
    ensures r in picked
    ensures forall q | q in picked :: db.refs[r].createdAt < db.refs[q].createdAt
                                     || (db.refs[q].createdAt == db.refs[r].createdAt && r <= q)
  {
    var times := set q | q in picked :: db.refs[q].createdAt;
    assert times != {} by { var q := Pick(picked); assert db.refs[q].createdAt in times; }
    var oldest := MinOf(times);
    var tied := set q: Uuid | q in picked && db.refs[q].createdAt == oldest;
    assert tied != {} by { var q :| q in picked && db.refs[q].createdAt == oldest; assert q in tied; }
    assert forall q | q in picked :: db.refs[q].createdAt in times && (db.refs[q].createdAt == oldest ==> q in tied);
    MinOf(tied)
  }

  /** _delete_blocker_tx. */
  function Blocker(db: Db, c: Candidate): Option<Disposition> {
    if |LiveRows(db, c.team, c.digest)| != 1 then Some(DuplicateCatalog)
    else
      var holding := HoldingRefs(db, c.team, c.obj);
      if holding != {} then
        if db.refs[Earliest(db, holding)].purpose in {OperatorHold, BackupHold} then Some(Hold) else Some(LiveReference)
      else if exists i | i in db.intents :: Fences(db.intents[i], c) then Some(CleanupFence)
      else None
  }

  /** TX1: nothing is written; None means the bytes may be moved aside. */
  function RecheckTx(db: Db, c: Candidate, now: Time, grace: int): Option<Disposition> {
    if !SameCatalogueRow(db, c) || !GraceExpired(c, now, grace) then Some(Stale) else Blocker(db, c)
  }

  datatype Finish = Conflict | Blocked(why: Disposition) | Tombstoned | Faulted

  /** TX2: proof and tombstone in one transaction, or nothing. Conflict is raised by the service itself,
      Faulted by the database. */
  function FinishTx(db: Db, c: Candidate, now: Time, proof: Uuid): (Db, Finish) {
    if !SameCatalogueRow(db, c) then (db, Conflict)
    else if Blocker(db, c).Some? then (db, Blocked(Blocker(db, c).value))
    else if proof in db.proofs then (db, Faulted)
    else
      (db.(proofs := db.proofs[proof := Proof(c.team, c.obj, c.digest, c.size, now)],
           rows := db.rows[c.obj := db.rows[c.obj].(tombstonedAt := Some(now))]), Tombstoned)
  }
}
