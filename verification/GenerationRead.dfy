/** The artifact listing of one task (src/services/generation_read.py:260-330), followed by its cursors. */
module GenerationRead {
  import opened Wrappers
  import opened Pagination

  type Uuid = int

  datatype Artifact = Artifact(team: string, task: string, artifactType: string, disposition: string, generation: int, created: int)

  datatype Filter = Filter(team: string, task: string, artifactType: Option<string>, disposition: Option<string>, generation: Option<int>)

  datatype Kind = TaskArtifacts | TaskArtifactPointers

  /** What decoding makes of a token; the filter digest is taken as injective. */
  datatype Cursor = Cursor(kind: Kind, filter: Filter, created: int, id: Uuid) | Malformed

  /** `tasks` maps a task to whether it has been soft-deleted. */
  datatype Db = Db(tasks: map<(string, string), bool>, artifacts: map<Uuid, Artifact>)

  datatype ReadError = TypeInvalid | DispositionInvalid | GenerationInvalid | CursorInvalid | TaskNotFound | TaskDeleted

  const ARTIFACT_TYPES: set<string> := {
    "structure_document", "retrieval_block_projection", "structure_validation_report",
    "construction_document", "dual_channel_projection", "construction_validation_report"}

  const DISPOSITIONS: set<string> := {"full_valid", "invalid", "partial_rejected"}

  function Clamp(limit: int): (n: nat)
    ensures 1 <= n <= 100
    ensures 1 <= limit <= 100 ==> n == limit
    ensures limit < 1 ==> n == 1
    ensures limit > 100 ==> n == 100
  {
    if limit < 1 then 1 else if limit > 100 then 100 else limit
  }

  function FilterError(f: Filter): Option<ReadError> {
    if f.artifactType.Some? && f.artifactType.value !in ARTIFACT_TYPES then Some(TypeInvalid)
    else if f.disposition.Some? && f.disposition.value !in DISPOSITIONS then Some(DispositionInvalid)
    else if f.generation.Some? && f.generation.value < 1 then Some(GenerationInvalid)
    else None
  }

  predicate Matches(a: Artifact, f: Filter) {
    && a.team == f.team && a.task == f.task
    && (f.artifactType.Some? ==> a.artifactType == f.artifactType.value)
    && (f.disposition.Some? ==> a.disposition == f.disposition.value)
    && (f.generation.Some? ==> a.generation == f.generation.value)
  }

  function Keys(db: Db, f: Filter): set<Key> {
    set u | u in db.artifacts && Matches(db.artifacts[u], f) :: Key(db.artifacts[u].created, u)
  }

  function Position(f: Filter, cursor: Option<Cursor>): Result<Option<Key>, ReadError> {
    match cursor
    case None => Success(None)
    case Some(Malformed) => Failure(CursorInvalid)
    case Some(Cursor(kind, filter, created, id)) =>
      if kind != TaskArtifacts || filter != f then Failure(CursorInvalid) else Success(Some(Key(created, id)))
  }

  function ListTx(db: Db, f: Filter, limit: int, cursor: Option<Cursor>): Result<(seq<Key>, Option<Cursor>), ReadError> {
    if FilterError(f).Some? then Failure(FilterError(f).value)
    else
      var after := Position(f, cursor);
      if after.Failure? then Failure(after.error)
      else if (f.team, f.task) !in db.tasks then Failure(TaskNotFound)
      else if db.tasks[(f.team, f.task)] then Failure(TaskDeleted)
      else
        var (page, more) := PageOf(Keys(db, f), Clamp(limit), after.value);
        Success((page, if more && page != [] then Some(CursorAt(f, page[|page| - 1])) else None))
  }

  function CursorAt(f: Filter, k: Key): Cursor {
    Cursor(TaskArtifacts, f, k.created, k.id)
  }

  class GenerationArtifacts {
    var tasks: map<(string, string), bool>
    var artifacts: map<Uuid, Artifact>

    ghost function Tables(): Db
      reads this
    {
      Db(tasks, artifacts)
    }

    constructor (tasks: map<(string, string), bool>)
      ensures Tables() == Db(tasks, map[])
    {
      this.tasks := tasks;
      artifacts := map[];
    }

    /** The conditions accumulate on the selection as they do on the statement's WHERE clause. */
    method Select(f: Filter) returns (matching: set<Key>)
      ensures matching == Keys(Tables(), f)
    {
      var selected := set u | u in artifacts && artifacts[u].team == f.team && artifacts[u].task == f.task;
      if f.artifactType.Some? {
        selected := set u | u in selected && artifacts[u].artifactType == f.artifactType.value;
      }
      if f.disposition.Some? {
        selected := set u | u in selected && artifacts[u].disposition == f.disposition.value;
      }
      if f.generation.Some? {
        selected := set u | u in selected && artifacts[u].generation == f.generation.value;
      }
      assert forall u :: u in selected <==> u in artifacts && Matches(artifacts[u], f);
      matching := set u | u in selected :: Key(artifacts[u].created, u);
    }

    method ListArtifacts(f: Filter, limit: int, cursor: Option<Cursor>) returns (r: Result<(seq<Key>, Option<Cursor>), ReadError>)
      ensures r == ListTx(Tables(), f, limit, cursor)
    {
      hide Keys, FilterError, PageOf;
      var invalid := FilterError(f);
      if invalid.Some? {
        return Failure(invalid.value);
      }
      var eligible := Select(f);
      var after := None;
      if cursor.Some? {
        if cursor.value.Malformed? || cursor.value.kind != TaskArtifacts || cursor.value.filter != f {
          return Failure(CursorInvalid);
        }
        after := Some(Key(cursor.value.created, cursor.value.id));
        eligible := set k | k in eligible && Below(k, after.value);
      }
      assert eligible == Eligible(Keys(Tables(), f), after);
      if (f.team, f.task) !in tasks {
        return Failure(TaskNotFound);
      }
      if tasks[(f.team, f.task)] {
        return Failure(TaskDeleted);
      }
      var page, more := Fetch(eligible, Clamp(limit), Keys(Tables(), f), after);
      return Success((page, if more && page != [] then Some(CursorAt(f, page[|page| - 1])) else None));
    }

    /** LIMIT limit + 1, and the page cut from it. */
    method Fetch(eligible: set<Key>, n: nat, ghost all: set<Key>, ghost after: Option<Key>) returns (page: seq<Key>, more: bool)
      requires eligible == Eligible(all, after)
      ensures (page, more) == PageOf(all, n, after)
    {
      var rows := Take(Sorted(eligible), n + 1);
      page, more := Take(rows, n), |rows| > n;
    }
  }

  // ---------- following cursors ----------

  datatype Listing = Listing(keys: seq<Key>, finished: bool)

  /** What a client collects by sending each next cursor back, one request per state of the tables. */
  function Follow(dbs: seq<Db>, f: Filter, limit: int, cursor: Option<Cursor>): Listing
    decreases |dbs|
  {
    if dbs == [] then Listing([], false)
    else
      match ListTx(dbs[0], f, limit, cursor)
      case Failure(_) => Listing([], false)
      case Success((page, next)) =>
        if next.None? then Listing(page, true)
        else var rest := Follow(dbs[1..], f, limit, next); Listing(page + rest.keys, rest.finished)
  }

  predicate Visible(db: Db, f: Filter) {
    (f.team, f.task) in db.tasks && !db.tasks[(f.team, f.task)]
  }

  /** Artifact rows are immutable and only added. */
  ghost predicate Accrues(dbs: seq<Db>) {
    forall i, j | 0 <= i <= j < |dbs| ::
      forall u | u in dbs[i].artifacts :: u in dbs[j].artifacts && dbs[j].artifacts[u] == dbs[i].artifacts[u]
  }

  function KeySets(dbs: seq<Db>, f: Filter): (sets: seq<set<Key>>)
    ensures |sets| == |dbs| && forall i | 0 <= i < |dbs| :: sets[i] == Keys(dbs[i], f)
  {
    seq(|dbs|, i requires 0 <= i < |dbs| => Keys(dbs[i], f))
  }

  lemma {:induction false} FollowIsPages(dbs: seq<Db>, f: Filter, limit: int, cursor: Option<Cursor>)
    requires FilterError(f).None? && (forall i | 0 <= i < |dbs| :: Visible(dbs[i], f)) && Position(f, cursor).Success?
    ensures var (keys, finished) := Pages(KeySets(dbs, f), Clamp(limit), Position(f, cursor).value);
      Follow(dbs, f, limit, cursor) == Listing(keys, finished)
    decreases |dbs|
  {
    hide Keys, PageOf, FilterError;
    if dbs != [] {
      assert Visible(dbs[0], f);
      var after := Position(f, cursor).value;
      var (page, more) := PageOf(Keys(dbs[0], f), Clamp(limit), after);
      if more && page != [] {
        FollowIsPages(dbs[1..], f, limit, Some(CursorAt(f, page[|page| - 1])));
        assert KeySets(dbs, f)[1..] == KeySets(dbs[1..], f);
      }
    }
  }

  lemma KeysGrow(dbs: seq<Db>, f: Filter)
    requires Accrues(dbs)
    ensures Growing(KeySets(dbs, f))
  {
  }

  /** Any listing of a task that stays visible while artifacts are added: strictly descending, so nothing
      twice; nothing that does not match; at its end everything that matched when it began; and it does end
      within as many pages as the matching rows fill. */
  lemma ListingIsComplete(dbs: seq<Db>, f: Filter, limit: int)
    requires FilterError(f).None? && dbs != [] && Accrues(dbs) && (forall i | 0 <= i < |dbs| :: Visible(dbs[i], f))
    ensures var got := Follow(dbs, f, limit, None);
      && Descending(got.keys)
      && (forall k | k in got.keys :: k in Keys(dbs[|dbs| - 1], f))
      && (got.finished ==> forall k | k in Keys(dbs[0], f) :: k in got.keys)
      && (|Keys(dbs[|dbs| - 1], f)| <= |dbs| * Clamp(limit) ==> got.finished)
  {
    hide Keys, Pages, Follow, Growing;
    var sets := KeySets(dbs, f);
    KeysGrow(dbs, f);
    FollowIsPages(dbs, f, limit, None);
    PagesComplete(sets, Clamp(limit), None);
    if |Keys(dbs[|dbs| - 1], f)| <= |dbs| * Clamp(limit) {
      PagesEnd(sets, Clamp(limit));
    }
  }

  /** A cursor carries its filter, so the queries that refuse it are those with another one. */
  lemma CursorsServeTheirOwnQuery(db: Db, f: Filter, limit: int, cursor: Option<Cursor>, db': Db, g: Filter, limit': int)
    requires ListTx(db, f, limit, cursor).Success? && ListTx(db, f, limit, cursor).value.1.Some?
    requires FilterError(g).None?
    ensures ListTx(db', g, limit', ListTx(db, f, limit, cursor).value.1) == Failure(CursorInvalid) <==> f != g
  {
  }

  // ---------- refusals, and what a listed row is ----------

  predicate KnownType(t: string) {
    || t == "structure_document" || t == "retrieval_block_projection" || t == "structure_validation_report"
    || t == "construction_document" || t == "dual_channel_projection" || t == "construction_validation_report"
  }

  predicate KnownDisposition(d: string) {
    d == "full_valid" || d == "invalid" || d == "partial_rejected"
  }

  /** Each refusal of a listing, exactly, in the order they are checked. */
  lemma ListRefusesExactly(db: Db, f: Filter, limit: int, cursor: Option<Cursor>)
    ensures var r := ListTx(db, f, limit, cursor);
      var typed := f.artifactType.Some? ==> KnownType(f.artifactType.value);
      var disposed := f.disposition.Some? ==> KnownDisposition(f.disposition.value);
      var numbered := f.generation.Some? ==> f.generation.value >= 1;
      var ours := cursor.Some? ==> cursor.value.Cursor? && cursor.value.kind == TaskArtifacts && cursor.value.filter == f;
      var known := (f.team, f.task) in db.tasks;
      && (r == Failure(TypeInvalid) <==> !typed)
      && (r == Failure(DispositionInvalid) <==> typed && !disposed)
      && (r == Failure(GenerationInvalid) <==> typed && disposed && !numbered)
      && (r == Failure(CursorInvalid) <==> typed && disposed && numbered && !ours)
      && (r == Failure(TaskNotFound) <==> typed && disposed && numbered && ours && !known)
      && (r == Failure(TaskDeleted) <==> typed && disposed && numbered && ours && known && db.tasks[(f.team, f.task)])
      && (r.Success? <==> typed && disposed && numbered && ours && known && !db.tasks[(f.team, f.task)])
  {
    hide PageOf;
  }

  /** The keys a listing draws from are those of the task's rows with every value the filter asks for. */
  lemma KeysExactly(db: Db, f: Filter, created: int, u: Uuid)
    ensures Key(created, u) in Keys(db, f) <==>
      && u in db.artifacts && db.artifacts[u].created == created
      && db.artifacts[u].team == f.team && db.artifacts[u].task == f.task
      && f.artifactType in {None, Some(db.artifacts[u].artifactType)}
      && f.disposition in {None, Some(db.artifacts[u].disposition)}
      && f.generation in {None, Some(db.artifacts[u].generation)}
  {
    if u in db.artifacts && db.artifacts[u].created == created && Matches(db.artifacts[u], f) {
      assert Key(db.artifacts[u].created, u) in Keys(db, f);
    }
  }
}
