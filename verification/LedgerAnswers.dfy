/** What the ledger's transactions answer, each in both directions and in terms of the rows alone
    (src/services/object_gc.py:353-432, src/services/object_upload.py:74-361, src/services/object_upload_ttl.py:71-122). */
module LedgerAnswers {
  import opened Wrappers
  import opened LocalStore
  import opened ObjectLedger
  import opened ObjectProtocol
  import opened ByteSafety
  import opened GraceAndAba
  import opened UploadSessions

  // ---------- cleanup fences ----------

  /** Every string of a JSON value, at any depth under lists and mapping values; mapping keys do not count. */
  function Strings(value: Json): set<Text> {
    match value
    case Str(t) => {t}
    case Arr(items) => set i, t | 0 <= i < |items| && t in Strings(items[i]) :: t
    case Obj(fields) => set i, t | 0 <= i < |fields| && t in Strings(fields[i].1) :: t
    case Scalar => {}
  }

  lemma {:induction false} MentionedString(value: Json, c: Candidate)
    ensures Mentions(value, c) <==> exists t :: t in Strings(value) && Coordinate(t, c)
    decreases value
  {
    hide Coordinate;
    match value
    case Str(t) => assert t in Strings(value);
    case Arr(items) =>
      forall i | 0 <= i < |items|
        ensures Mentions(items[i], c) <==> exists t :: t in Strings(items[i]) && Coordinate(t, c)
      {
        MentionedString(items[i], c);
      }
    case Obj(fields) =>
      forall i | 0 <= i < |fields|
        ensures Mentions(fields[i].1, c) <==> exists t :: t in Strings(fields[i].1) && Coordinate(t, c)
      {
        MentionedString(fields[i].1, c);
      }
    case Scalar =>
  }

  /** The texts that name the candidate's object. */
  function Spellings(c: Candidate): set<Text> {
    {ObjectText(c.obj), StoredObjectText(c.obj), ObjectRefText(c.obj), DigestText(c.digest), Sha256Text(c.digest),
     HandleText(Coord(c.team, c.digest))}
  }

  /** An open intent of the candidate's Team whose holds cannot be read, or one of whose fields names it. */
  predicate Protects(i: CleanupIntent, c: Candidate) {
    && i.open && i.team == c.team
    && (i.holdRefs.None? || !i.holdRefs.value.Arr?
        || (Strings(i.holdRefs.value) + Strings(i.target) + Strings(i.snapshot)) * Spellings(c) != {})
  }

  lemma ProtectsIsFences(i: CleanupIntent, c: Candidate)
    ensures Fences(i, c) <==> Protects(i, c)
  {
    if i.holdRefs.Some? {
      MentionedString(i.holdRefs.value, c);
      MentionedInSet(i.holdRefs.value, c);
    }
    MentionedString(i.target, c);
    MentionedString(i.snapshot, c);
    MentionedInSet(i.target, c);
    MentionedInSet(i.snapshot, c);
    hide Mentions, Strings, Coordinate, Spellings;
    if i.holdRefs.Some? {
      var a, b, d, s := Strings(i.holdRefs.value), Strings(i.target), Strings(i.snapshot), Spellings(c);
      assert (a + b + d) * s == a * s + b * s + d * s;
    }
  }

  lemma MentionedInSet(value: Json, c: Candidate)
    ensures (exists t :: t in Strings(value) && Coordinate(t, c)) <==> Strings(value) * Spellings(c) != {}
  {
    hide Strings;
    assert forall t :: Coordinate(t, c) <==> t in Spellings(c);
    if Strings(value) * Spellings(c) != {} {
      var t := Pick(Strings(value) * Spellings(c));
      assert t in Strings(value) && Coordinate(t, c);
    }
    if exists t :: t in Strings(value) && Coordinate(t, c) {
      var t :| t in Strings(value) && Coordinate(t, c);
      assert t in Strings(value) * Spellings(c);
    }
  }

  // ---------- what the two checks of a deletion answer ----------

  /** An unreleased reference on the row with no older one. */
  predicate FirstHolder(db: Db, c: Candidate, r: Uuid) {
    && r in db.refs && db.refs[r].team == c.team && db.refs[r].obj == c.obj && db.refs[r].releasedAt.None?
    && forall q | q in db.refs && db.refs[q].team == c.team && db.refs[q].obj == c.obj && db.refs[q].releasedAt.None? ::
         db.refs[r].createdAt < db.refs[q].createdAt || (db.refs[r].createdAt == db.refs[q].createdAt && r <= q)
  }

  /** The fences in order: a second live row of the bytes, the oldest unreleased reference, then cleanup. */
  lemma BlockersExactly(db: Db, c: Candidate)
    ensures Blocker(db, c) == Some(DuplicateCatalog) <==> |LiveRows(db, c.team, c.digest)| != 1
    ensures |LiveRows(db, c.team, c.digest)| == 1 ==>
      && (Blocker(db, c) == Some(Hold) <==> exists r :: FirstHolder(db, c, r) && db.refs[r].purpose in {OperatorHold, BackupHold})
      && (Blocker(db, c) == Some(LiveReference) <==> exists r :: FirstHolder(db, c, r) && db.refs[r].purpose !in {OperatorHold, BackupHold})
      && (Blocker(db, c) == Some(CleanupFence) <==>
            (forall r :: !FirstHolder(db, c, r)) && exists i :: i in db.intents && Protects(db.intents[i], c))
      && (Blocker(db, c) == None <==>
            (forall r :: !FirstHolder(db, c, r)) && forall i | i in db.intents :: !Protects(db.intents[i], c))
  {
    hide Fences, Protects, LiveRows;
    forall i: CleanupIntent
      ensures Fences(i, c) <==> Protects(i, c)
    {
      ProtectsIsFences(i, c);
    }
    var holding := HoldingRefs(db, c.team, c.obj);
    if holding != {} {
      assert FirstHolder(db, c, Earliest(db, holding));
      assert forall r | FirstHolder(db, c, r) :: r in holding && r == Earliest(db, holding);
    } else {
      assert forall r | FirstHolder(db, c, r) :: r in holding;
    }
  }

  /** The candidate is still what was read: its row, field by field, and the time since when nobody owned it. */
  predicate AsRead(db: Db, c: Candidate) {
    && c.obj in db.rows && db.rows[c.obj] == Row(c.team, c.digest, c.size, c.createdAt, None)
    && UnownedAt(db, c.obj) == c.unownedAt
  }

  /** The answers of both checks, exactly. */
  lemma ChecksExactly(db: Db, c: Candidate, now: Time, grace: int, proof: Uuid)
    ensures var first := RecheckTx(db, c, now, grace);
      var second := FinishTx(db, c, now, proof).1;
      && (first == Some(Stale) <==> !AsRead(db, c) || now - grace < c.unownedAt)
      && (first != Some(Stale) ==> first == Blocker(db, c))
      && (second == Conflict <==> !AsRead(db, c))
      && (second != Conflict ==> (forall why :: second == Blocked(why) <==> Blocker(db, c) == Some(why)))
      && (second == Faulted <==> AsRead(db, c) && Blocker(db, c).None? && proof in db.proofs)
      && (second == Tombstoned <==> AsRead(db, c) && Blocker(db, c).None? && proof !in db.proofs)
  {
    hide UnownedAt;
    NeverStale(db, c);
    hide Blocker;
  }

  lemma NeverStale(db: Db, c: Candidate)
    ensures Blocker(db, c) in {None, Some(DuplicateCatalog), Some(Hold), Some(LiveReference), Some(CleanupFence)}
  {
    hide Fences, LiveRows, HoldingRefs;
  }

  /** The first check passes a candidate, and the second tombstones it, only if no open intent of its Team
      protects it; an otherwise collectable one is answered CleanupFence exactly when one does. */
  lemma CleanupFencesExactly(db: Db, c: Candidate, now: Time, grace: int, proof: Uuid)
    ensures SameCatalogueRow(db, c) && |LiveRows(db, c.team, c.digest)| == 1 && HoldingRefs(db, c.team, c.obj) == {} ==>
      var protected := exists i :: i in db.intents && Protects(db.intents[i], c);
      && (GraceExpired(c, now, grace) ==> (RecheckTx(db, c, now, grace) == Some(CleanupFence) <==> protected))
      && (FinishTx(db, c, now, proof).1 == Blocked(CleanupFence) <==> protected)
    ensures RecheckTx(db, c, now, grace).None? ==> forall i | i in db.intents :: !Protects(db.intents[i], c)
    ensures FinishTx(db, c, now, proof).1 == Tombstoned ==> forall i | i in db.intents :: !Protects(db.intents[i], c)
  {
    BlockersExactly(db, c);
    hide Protects, SameCatalogueRow, LiveRows, Blocker;
    assert HoldingRefs(db, c.team, c.obj) == {} ==> forall r :: !FirstHolder(db, c, r) by {
      assert forall r | FirstHolder(db, c, r) :: r in HoldingRefs(db, c.team, c.obj);
    }
  }

  // ---------- collectable rows, by their references ----------

  /** Whether a row can be collected, read off its references: every one was released a grace period ago, and
      a row nobody ever referenced is itself that old. */
  lemma CollectableMeans(db: Db, u: Uuid, now: Time, grace: int)
    requires RefsSound(db, now) && Live(db, u)
    ensures Collectable(db, u, now, grace) <==>
      && (forall r | r in db.refs && db.refs[r].obj == u :: db.refs[r].releasedAt.Some? && db.refs[r].releasedAt.value <= now - grace)
      && ((forall r | r in db.refs :: db.refs[r].obj != u) ==> db.rows[u].createdAt <= now - grace)
  {
    UnownedBounds(db, u, now);
    var team := db.rows[u].team;
    assert forall r | r in db.refs && db.refs[r].obj == u && db.refs[r].releasedAt.None? :: r in HoldingRefs(db, team, u);
    var released := Releases(db, team, u);
    if released == {} {
      assert forall r | r in db.refs && db.refs[r].obj == u && db.refs[r].releasedAt.Some? :: db.refs[r].releasedAt.value in released;
    } else {
      var r :| r in db.refs && Names(db, r, team, u) && db.refs[r].releasedAt.Some? && db.refs[r].releasedAt.value == MaxOf(released);
    }
    hide RefsSound;
  }

  // ---------- uploads ----------

  /** What a reference of an upload must be. */
  predicate IsHold(ref: Ref, team: Team, obj: Uuid, owner: Owner, session: Option<Uuid>, now: Time) {
    ref == Ref(team, obj, UploadPending, owner, now, None, session)
  }

  lemma OpeningHolds(db: Db, now: Time, stat: Stat, keyed: bool, key: Key, ids: Ids)
    requires OneLiveRow(db) && RowsSound(db, now) && stat.size == |stat.digest.preimage| && Unused(db, ids)
    ensures var (db', r) := OpenSession(db, now, stat, keyed, key, ids);
      && r.Success? && !r.value.replay && (r.value.token.Some? <==> keyed)
      && db'.refs.Keys == db.refs.Keys + {ids.ref} && (forall q | q in db.refs :: db'.refs[q] == db.refs[q])
      && IsHold(db'.refs[ids.ref], stat.team, r.value.obj, if keyed then UploadSession(ids.session) else PublicUpload(ids.owner), Some(ids.session), now)
      && db'.sessions == db.sessions[ids.session := Session(stat.team, key, Committed, r.value.obj, stat.digest, stat.size, Some(ids.ref), None)]
      && r.value.token == (if keyed then Some(Token(ids.session, stat.team, key, ids.session)) else None)
      && Live(db', r.value.obj) && db'.rows[r.value.obj].At() == stat.At()
  {
    WithRowGrows(db, now, 1, stat, ids.row);
    hide WithRow, RowFor, Grows;
  }

  /** The key a new session is opened under: the caller's own, or one derived from the bytes. */
  predicate NewCommand(requested: Option<Key>, stat: Stat, ids: Ids, key: Key) {
    if requested.Some? then key == requested.value
    else key == Legacy(stat.digest, stat.size) || key == LegacyAgain(stat.digest, stat.size, ids.salt)
  }

  /** Every successful upload, keyed or not, that is not a keyed replay adds exactly one reference: an
      unreleased pending hold on the row it names, which is live and of the promoted bytes. A keyed call's
      hold belongs to its session and a keyless one's to the public upload; a keyed replay adds nothing. */
  lemma {:induction false} UploadsAddTheirHold(w: World, stat: Stat, requested: Option<Key>, ids: Ids)
    requires Inv(w) && SessionInv(w.db) && stat in w.promoted && UploadTx(w.db, w.now, stat, requested, ids).1.Success?
    ensures var db := w.db;
      var (db', r) := UploadTx(db, w.now, stat, requested, ids);
      && Live(db', r.value.obj) && db'.rows[r.value.obj].At() == stat.At()
      && (if requested.Some? && r.value.replay then db' == db
          else
            && ids.ref !in db.refs && db'.refs.Keys == db.refs.Keys + {ids.ref} && (forall q | q in db.refs :: db'.refs[q] == db.refs[q])
            && IsHold(db'.refs[ids.ref], stat.team, r.value.obj,
                      if requested.Some? then UploadSession(ids.session) else PublicUpload(ids.owner),
                      if r.value.replay then None else Some(ids.session), w.now)
            && (r.value.replay ==> db'.sessions == db.sessions && r.value.token.None?)
            && (!r.value.replay ==>
                  exists key :: NewCommand(requested, stat, ids, key)
                    && db'.sessions == db.sessions[ids.session := Session(stat.team, key, Committed, r.value.obj, stat.digest, stat.size, Some(ids.ref), None)]
                    && r.value.token == (if requested.Some? then Some(Token(ids.session, stat.team, key, ids.session)) else None)))
  {
    hide Inv, OneLiveRow, RowsSound, OpenSession, SessionInv;
    InvGivesRows(w, stat);
    var db := w.db;
    var key := EffectiveKey(requested, stat);
    var found := FindSession(db, stat.team, key);
    if found.None? {
      assert NewCommand(requested, stat, ids, key);
      OpeningHolds(db, w.now, stat, requested.Some?, key, ids);
    } else {
      SessionIsKnown(w, found.value);
      if !Live(db, db.sessions[found.value].obj) || db.rows[db.sessions[found.value].obj].team != stat.team {
        assert requested.None? ==> NewCommand(requested, stat, ids, LegacyAgain(stat.digest, stat.size, ids.salt));
        OpeningHolds(db, w.now, stat, false, LegacyAgain(stat.digest, stat.size, ids.salt), ids);
      }
    }
  }

  lemma InvGivesRows(w: World, stat: Stat)
    requires Inv(w) && stat in w.promoted
    ensures OneLiveRow(w.db) && RowsSound(w.db, w.now) && stat.size == |stat.digest.preimage|
  {
  }

  /** The session, if any, that answers a call with this effective key. */
  predicate Answers(db: Db, s: Uuid, team: Team, key: Key) {
    s in db.sessions && db.sessions[s].team == team && db.sessions[s].key == key
  }

  /** Which uploads succeed, which are replays, and what each refusal means. */
  lemma UploadAnswersExactly(w: World, stat: Stat, requested: Option<Key>, ids: Ids)
    requires Inv(w) && SessionInv(w.db) && stat in w.promoted && Unused(w.db, ids)
    ensures var db := w.db;
      var r := UploadTx(db, w.now, stat, requested, ids).1;
      var key := if requested.Some? then requested.value else Legacy(stat.digest, stat.size);
      var admitted := requested != Some(Named("")) && stat.team in db.teams && db.teams[stat.team];
      && (r == Failure(IdempotencyInvalid) <==> requested == Some(Named("")))
      && (requested != Some(Named("")) ==>
            && (r == Failure(TeamNotFound) <==> stat.team !in db.teams)
            && (r == Failure(TeamNotActive) <==> stat.team in db.teams && !db.teams[stat.team]))
      && (admitted ==>
            && (r == Failure(SessionConflict) <==> exists s: Uuid :: Answers(db, s, stat.team, key)
                                                              && (db.sessions[s].digest != stat.digest || db.sessions[s].size != stat.size))
            && (r == Failure(SessionCatalogUnavailable) <==>
                  requested.Some? && exists s: Uuid :: Answers(db, s, stat.team, key) && db.sessions[s].digest == stat.digest
                                                 && db.sessions[s].size == stat.size && !Live(db, db.sessions[s].obj))
            && (r.Success? && r.value.replay <==>
                  exists s: Uuid :: Answers(db, s, stat.team, key) && db.sessions[s].digest == stat.digest
                              && db.sessions[s].size == stat.size && Live(db, db.sessions[s].obj))
            && (r.Success? && !r.value.replay <==>
                  (forall s: Uuid :: !Answers(db, s, stat.team, key))
                  || (requested.None? && exists s: Uuid :: Answers(db, s, stat.team, key) && db.sessions[s].digest == stat.digest
                                                     && db.sessions[s].size == stat.size && !Live(db, db.sessions[s].obj))))
  {
    hide Inv;
    var db := w.db;
    var key := EffectiveKey(requested, stat);
    AnsweringSession(db, stat.team, key);
    hide SessionInv, FindSession, WithRow, RowFor;
    var found := FindSession(db, stat.team, key);
    if found.Some? {
      SessionIsKnown(w, found.value);
    }
  }

  lemma AnsweringSession(db: Db, team: Team, key: Key)
    requires SessionInv(db)
    ensures forall s: Uuid :: Answers(db, s, team, key) <==> FindSession(db, team, key) == Some(s)
  {
    assert forall s: Uuid | Answers(db, s, team, key) :: s in SessionsFor(db, team, key);
    hide SessionSound, HoldSound;
  }

  // ---------- session commands ----------

  /** A token is accepted exactly if it is the one issued for a session of this Team. */
  lemma TokensExactly(db: Db, team: Team, token: Token, s: Uuid)
    ensures SessionOf(db, team, token) == Some(s) <==>
            s in db.sessions && db.sessions[s].team == team && token == Token(s, team, db.sessions[s].key, s)
  {
  }

  /** What reserve, consume and cancel answer and write, each exactly: the state they need, the one session
      they move, and the one hold they release. */
  lemma {:induction false} SessionCommandsExactly(db: Db, team: Team, token: Token, task: Uuid, generation: int, stamp: Time)
    requires SessionInv(db)
    ensures generation < 1 <==> ReserveTx(db, team, token, task, generation) == (db, Failure(CommandInvalid))
    ensures SessionOf(db, team, token).None? ==>
      && (generation >= 1 ==> ReserveTx(db, team, token, task, generation) == (db, Failure(SessionNotFound)))
      && ConsumeTx(db, team, token, stamp) == (db, Failure(SessionNotFound))
      && CancelSessionTx(db, team, token, stamp) == (db, Failure(SessionNotFound))
    ensures SessionOf(db, team, token).Some? ==>
      var s := SessionOf(db, team, token).value;
      var session := db.sessions[s];
      && (generation >= 1 ==>
            (ReserveTx(db, team, token, task, generation) ==
             (if session.state == Committed then Moved(db, s, Reserved, Some((task, generation))) else db, Success(session.state == Committed))))
      && ConsumeTx(db, team, token, stamp) ==
           (if session.state == Reserved then Released(Moved(db, s, Consumed, session.reservedFor), session.pendingRef, stamp) else db,
            Success(session.state == Reserved))
      && CancelSessionTx(db, team, token, stamp) ==
           (Released(if session.state == Committed then Moved(db, s, Cancelled, session.reservedFor) else db, session.pendingRef, stamp),
            Success(session.state == Committed))
  {
    hide SessionInv, SessionOf, HoldsOf, ReleaseRefs;
    var found := SessionOf(db, team, token);
    if found.Some? {
      var s := found.value;
      OnlyItsPendingHold(db, s);
      SameHolds(db, s, Moved(db, s, Consumed, db.sessions[s].reservedFor));
      SameHolds(db, s, Moved(db, s, Cancelled, db.sessions[s].reservedFor));
      ReleasedHolds(db, s, stamp);
      ReleasedHolds(Moved(db, s, Consumed, db.sessions[s].reservedFor), s, stamp);
      ReleasedHolds(Moved(db, s, Cancelled, db.sessions[s].reservedFor), s, stamp);
    }
  }

  function Moved(db: Db, s: Uuid, state: SessionState, owner: Option<(Uuid, nat)>): Db
    requires s in db.sessions
  {
    db.(sessions := db.sessions[s := db.sessions[s].(state := state, reservedFor := owner)])
  }

  /** One reference is released, if it was not already. */
  function Released(db: Db, r: Option<Uuid>, stamp: Time): Db {
    if r.Some? && r.value in db.refs && db.refs[r.value].releasedAt.None?
    then db.(refs := db.refs[r.value := db.refs[r.value].(releasedAt := Some(stamp))])
    else db
  }

  lemma SameHolds(db: Db, s: Uuid, db': Db)
    requires db'.refs == db.refs
    ensures HoldsOf(db', s) == HoldsOf(db, s)
  {
  }

  lemma ReleasedHolds(db: Db, s: Uuid, stamp: Time)
    requires s in db.sessions && db.sessions[s].pendingRef.Some? && db.sessions[s].pendingRef.value in db.refs
    requires var p := db.sessions[s].pendingRef.value; HoldsOf(db, s) == if db.refs[p].releasedAt.None? then {p} else {}
    ensures ReleaseRefs(db, HoldsOf(db, s), stamp) == Released(db, db.sessions[s].pendingRef, stamp)
  {
    hide HoldsOf, ReleaseRefs;
    var p := db.sessions[s].pendingRef.value;
    if db.refs[p].releasedAt.None? {
      ReleasingOne(db, p, stamp);
    } else {
      ReleasingNothing(db, stamp);
    }
  }

  // ---------- the hold scan ----------

  /** An unreleased pending hold as old as the cutoff, not kept by a reserved or consumed session. */
  predicate Expirable(db: Db, r: Uuid, cutoff: Time) {
    && r in db.refs && db.refs[r].purpose == UploadPending && db.refs[r].releasedAt.None? && db.refs[r].createdAt <= cutoff
    && forall s | db.refs[r].session == Some(s) && s in db.sessions :: db.sessions[s].state != Reserved && db.sessions[s].state != Consumed
  }

  /** One of the picked references is the session's. */
  predicate OwnsOneOf(db: Db, picked: set<Uuid>, s: Uuid) {
    exists r :: r in picked && r in db.refs && db.refs[r].session == Some(s)
  }

  lemma AbandonedExactly(db: Db, r: Uuid, cutoff: Time)
    ensures Abandoned(db, r, cutoff) <==> Expirable(db, r, cutoff)
  {
  }

  /** A scan over a page of expirable holds releases them, moves the committed sessions that own one of them
      to expired, and changes nothing else. */
  lemma {:induction false} ScanExactly(db: Db, picked: set<Uuid>, stamp: Time, cutoff: Time)
    requires SessionInv(db) && forall r | r in picked :: Expirable(db, r, cutoff)
    ensures var db' := ExpireTx(db, picked, stamp);
      && db' == db.(refs := db'.refs, sessions := db'.sessions)
      && db'.refs.Keys == db.refs.Keys && db'.sessions.Keys == db.sessions.Keys
      && (forall r | r in db.refs :: db'.refs[r] == if r in picked then db.refs[r].(releasedAt := Some(stamp)) else db.refs[r])
      && (forall s | s in db.sessions :: db'.sessions[s] ==
            if db.sessions[s].state == Committed && OwnsOneOf(db, picked, s)
            then db.sessions[s].(state := Expired) else db.sessions[s])
  {
    hide SessionInv, SessionsBehind, ReleaseRefs, ExpireTx, Expirable, OwnsOneOf;
    PickedAreHeld(db, picked, cutoff);
    ScanReleases(db, picked, stamp);
    ScanBehind(db, picked);
    ScanShape(db, picked, stamp);
    forall s | s in db.sessions
      ensures db.sessions[s].state in CANCELLABLE <==> db.sessions[s].state == Committed
    {
      StatesAreKnown(db, s);
    }
  }

  lemma PickedAreHeld(db: Db, picked: set<Uuid>, cutoff: Time)
    requires forall r | r in picked :: Expirable(db, r, cutoff)
    ensures forall r | r in picked :: r in db.refs && db.refs[r].releasedAt.None?
  {
  }

  lemma ScanShape(db: Db, picked: set<Uuid>, stamp: Time)
    requires ReleaseRefs(db, picked, stamp) == db.(refs := ReleaseRefs(db, picked, stamp).refs)
    ensures var db' := ExpireTx(db, picked, stamp);
      && db' == db.(refs := ReleaseRefs(db, picked, stamp).refs, sessions := db'.sessions) && db'.sessions.Keys == db.sessions.Keys
      && (forall s | s in db.sessions :: db'.sessions[s] ==
            if s in SessionsBehind(db, picked) && db.sessions[s].state in CANCELLABLE then db.sessions[s].(state := Expired) else db.sessions[s])
  {
    hide SessionsBehind, ReleaseRefs;
  }

  lemma ScanReleases(db: Db, picked: set<Uuid>, stamp: Time)
    requires forall r | r in picked :: r in db.refs && db.refs[r].releasedAt.None?
    ensures var db' := ReleaseRefs(db, picked, stamp);
      && db' == db.(refs := db'.refs) && db'.refs.Keys == db.refs.Keys
      && (forall r | r in db.refs :: db'.refs[r] == if r in picked then db.refs[r].(releasedAt := Some(stamp)) else db.refs[r])
  {
  }

  lemma ScanBehind(db: Db, picked: set<Uuid>)
    requires forall r | r in picked :: r in db.refs
    ensures forall s: Uuid :: s in SessionsBehind(db, picked) <==> OwnsOneOf(db, picked, s)
  {
    forall s: Uuid | OwnsOneOf(db, picked, s)
      ensures s in SessionsBehind(db, picked)
    {
      var r :| r in picked && r in db.refs && db.refs[r].session == Some(s);
      assert db.refs[r].session.value in SessionsBehind(db, picked);
    }
  }

  // ---------- cancel(handle) ----------

  /** An unreleased public-upload hold on the row with no newer one. */
  predicate NewestPublicHold(db: Db, team: Team, u: Uuid, r: Uuid) {
    && PublicHold(db, team, u, r)
    && forall q | q in db.refs && PublicHold(db, team, u, q) ::
         db.refs[q].createdAt < db.refs[r].createdAt || (db.refs[q].createdAt == db.refs[r].createdAt && q <= r)
  }

  predicate PublicHold(db: Db, team: Team, u: Uuid, r: Uuid) {
    && r in db.refs && db.refs[r].team == team && db.refs[r].obj == u && db.refs[r].purpose == UploadPending
    && db.refs[r].owner.PublicUpload? && db.refs[r].releasedAt.None?
  }

  /** cancel(handle) is refused exactly without a live row; otherwise it releases the newest public-upload
      hold on that row and nothing else, and says whether there was one. */
  lemma {:induction false} CancelHandleExactly(db: Db, team: Team, digest: Digest, stamp: Time)
    requires OneLiveRow(db)
    ensures var (db', r) := CancelHandleTx(db, team, digest, stamp);
      && (r == Failure(ObjectNotFound) <==> forall u | Live(db, u) :: db.rows[u].At() != Coord(team, digest))
      && (r.Failure? ==> r == Failure(ObjectNotFound) && db' == db)
      && forall u | Live(db, u) && db.rows[u].At() == Coord(team, digest) ::
           && (r == Success(true) <==> exists h :: NewestPublicHold(db, team, u, h))
           && (r == Success(false) ==> db' == db)
           && forall h | NewestPublicHold(db, team, u, h) :: db' == Released(db, Some(h), stamp)
  {
    hide ReleaseRefs;
    var stored := LiveRows(db, team, digest);
    assert forall u | Live(db, u) && db.rows[u].At() == Coord(team, digest) :: u in stored;
    forall u | Live(db, u) && db.rows[u].At() == Coord(team, digest)
      ensures MinOf(stored) == u
    {
      assert Live(db, MinOf(stored));
    }
    if stored != {} {
      var u := MinOf(stored);
      HoldsOnHandle(db, team, u, stamp);
    }
    hide OneLiveRow, LiveRows, PublicHolds, Latest;
  }

  lemma HoldsOnHandle(db: Db, team: Team, u: Uuid, stamp: Time)
    ensures var holds := PublicHolds(db, team, u);
      && (holds == {} ==> forall h :: !NewestPublicHold(db, team, u, h))
      && (holds != {} ==>
            && NewestPublicHold(db, team, u, Latest(db, holds))
            && (forall h | NewestPublicHold(db, team, u, h) :: h == Latest(db, holds))
            && ReleaseRefs(db, {Latest(db, holds)}, stamp) == Released(db, Some(Latest(db, holds)), stamp))
  {
    var holds := PublicHolds(db, team, u);
    assert forall h :: PublicHold(db, team, u, h) <==> h in holds;
    if holds != {} {
      ReleasingOne(db, Latest(db, holds), stamp);
    }
    hide ReleaseRefs;
  }

  // ---------- status ----------

  /** An unreleased reference on the row that makes it pending: for a token, the session's own. */
  predicate PendingBy(db: Db, u: Uuid, session: Option<Uuid>, r: Uuid) {
    && r in db.refs && db.refs[r].obj == u && db.refs[r].purpose == UploadPending && db.refs[r].releasedAt.None?
    && (session.Some? ==> db.refs[r].session == session)
  }

  predicate IngestedBy(db: Db, u: Uuid, r: Uuid) {
    && r in db.refs && db.refs[r].obj == u && db.refs[r].purpose == OtherPurpose("intake_snapshot_artifact")
    && db.refs[r].owner.OtherOwner? && db.refs[r].owner.kind == "intake_snapshot_source_object" && db.refs[r].releasedAt.None?
  }

  /** Every disposition and refusal of stat, with or without a token. */
  lemma {:induction false} StatusExactly(db: Db, now: Time, team: Team, digest: Digest, token: Option<Token>)
    requires OneLiveRow(db) && RefsSound(db, now)
    ensures var r := StatTx(db, team, digest, token);
      var session := if token.Some? then SessionOf(db, team, token.value) else None;
      var accepted := (token.Some? ==> session.Some? && db.sessions[session.value].digest == digest);
      && (r == Failure(SessionNotFound) <==> token.Some? && session.None?)
      && (r == Failure(SessionConflict) <==> session.Some? && db.sessions[session.value].digest != digest)
      && (accepted ==>
            && (r == Failure(ObjectNotFound) <==> forall u | u in db.rows :: db.rows[u].At() != Coord(team, digest))
            && (r == Success(Gone) <==> (exists u :: u in db.rows && db.rows[u].At() == Coord(team, digest))
                                        && forall u | Live(db, u) :: db.rows[u].At() != Coord(team, digest))
            && forall u | Live(db, u) && db.rows[u].At() == Coord(team, digest) ::
                 && (r == Success(Pending) <==> exists h :: PendingBy(db, u, session, h))
                 && (r == Success(Ingested) <==> (forall h :: !PendingBy(db, u, session, h)) && exists h :: IngestedBy(db, u, h))
                 && (r == Success(Unheld) <==> (forall h :: !PendingBy(db, u, session, h)) && forall h :: !IngestedBy(db, u, h)))
  {
    hide SessionOf;
    var stored := LiveRows(db, team, digest);
    assert forall u | Live(db, u) && db.rows[u].At() == Coord(team, digest) :: u in stored;
    forall u | Live(db, u) && db.rows[u].At() == Coord(team, digest)
      ensures MinOf(stored) == u
      ensures forall session :: PendingOn(db, team, u, session) <==> exists h :: PendingBy(db, u, session, h)
      ensures IngestedFrom(db, team, u) <==> exists h :: IngestedBy(db, u, h)
    {
      assert Live(db, MinOf(stored));
      StatusOfRow(db, now, team, u);
    }
    if stored != {} {
      assert Live(db, MinOf(stored)) && db.rows[MinOf(stored)].At() == Coord(team, digest);
    }
    hide OneLiveRow, RefsSound, PendingOn, IngestedFrom, PendingBy, IngestedBy, LiveRows;
  }

  lemma StatusOfRow(db: Db, now: Time, team: Team, u: Uuid)
    requires RefsSound(db, now) && u in db.rows && db.rows[u].team == team
    ensures forall session :: PendingOn(db, team, u, session) <==> exists h :: PendingBy(db, u, session, h)
    ensures IngestedFrom(db, team, u) <==> exists h :: IngestedBy(db, u, h)
  {
    assert forall h | h in db.refs && db.refs[h].obj == u :: Names(db, h, team, u);
    hide RefsSound;
    forall session
      ensures PendingOn(db, team, u, session) <==> exists h :: PendingBy(db, u, session, h)
    {
      if PendingOn(db, team, u, session) {
        var r :| r in db.refs && Names(db, r, team, u) && db.refs[r].purpose == UploadPending && db.refs[r].releasedAt.None?
                 && (session.Some? ==> db.refs[r].session == session);
        assert PendingBy(db, u, session, r);
      }
    }
    if IngestedFrom(db, team, u) {
      var r :| r in db.refs && Names(db, r, team, u) && db.refs[r].purpose == OtherPurpose("intake_snapshot_artifact")
               && db.refs[r].owner.OtherOwner? && db.refs[r].owner.kind == "intake_snapshot_source_object" && db.refs[r].releasedAt.None?;
      assert IngestedBy(db, u, r);
    }
  }
}
