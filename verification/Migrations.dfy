/** The migration chain (src/persistence/migration_runner.py:109-158). A body runs between its own BEGIN and
    the runner's COMMIT together with its ledger row, so one migration is one atomic step; the engine may
    fail at any of them. */
module Migrations {
  import opened Wrappers
  import opened SqlComments

  datatype Migration = Migration(id: string, sql: string, checksum: string)

  /** `executed` is every script the database has committed, in order: the schema is what they amount to. */
  datatype Db = Db(executed: seq<string>, ledger: map<string, string>)

  datatype MigrationError = Unknown | ChecksumDrift | TransactionMissing | EngineFault

  const MARKER := "COMMIT;"

  predicate IsSpace(c: char) {
    c == ' ' || '\t' <= c <= '\r' || '\U{1c}' <= c <= '\U{1f}' || c == '\U{85}' || c == '\U{a0}'
  }

  /** str.rstrip. */
  function RStrip(s: string): (r: string)
    ensures r <= s
  {
    if s != "" && IsSpace(s[|s| - 1]) then RStrip(s[..|s| - 1]) else s
  }

  predicate EndsWithMarker(sql: string) {
    var s := RStrip(sql);
    |s| >= |MARKER| && s[|s| - |MARKER|..] == MARKER
  }

  /** The script handed to the engine: the file without its COMMIT and without line comments. */
  function Body(m: Migration): string
    requires EndsWithMarker(m.sql)
  {
    var s := RStrip(m.sql);
    Strip(s[..|s| - |MARKER|])
  }

  function Applied(db: Db, m: Migration): Db
    requires EndsWithMarker(m.sql)
  {
    Db(db.executed + [Body(m)], db.ledger[m.id := m.checksum])
  }

  function Ids(ms: seq<Migration>): set<string> {
    set m | m in ms :: m.id
  }

  /** The loop over the chain, against the ledger as it was read at the start; the engine survives `budget`
      more bodies. */
  function ApplyFrom(db: Db, applied: map<string, string>, ms: seq<Migration>, budget: nat): (Db, Result<(), MigrationError>)
    decreases |ms|
  {
    if ms == [] then (db, Success(()))
    else
      var m := ms[0];
      if m.id in applied then
        if applied[m.id] != m.checksum then (db, Failure(ChecksumDrift)) else ApplyFrom(db, applied, ms[1..], budget)
      else if !EndsWithMarker(m.sql) then (db, Failure(TransactionMissing))
      else if budget == 0 then (db, Failure(EngineFault))
      else ApplyFrom(Applied(db, m), applied, ms[1..], budget - 1)
  }

  function Apply(db: Db, ms: seq<Migration>, budget: nat): (Db, Result<(), MigrationError>) {
    if db.ledger.Keys <= Ids(ms) then ApplyFrom(db, db.ledger, ms, budget) else (db, Failure(Unknown))
  }

  class MigrationRunner {
    var executed: seq<string>
    var ledger: map<string, string>

    ghost function Contents(): Db
      reads this
    {
      Db(executed, ledger)
    }

    constructor ()
      ensures Contents() == Db([], map[])
    {
      executed, ledger := [], map[];
    }

    /** One body, its ledger row and the runner's COMMIT. */
    method RunOne(m: Migration)
      requires EndsWithMarker(m.sql)
      modifies this
      ensures Contents() == Applied(old(Contents()), m)
    {
      var stripped := RStrip(m.sql);
      var script := StripSqlLineComments(stripped[..|stripped| - |MARKER|]);
      executed := executed + [script];
      ledger := ledger[m.id := m.checksum];
    }

    method ApplyMigrations(ms: seq<Migration>, budget: nat) returns (r: Result<(), MigrationError>)
      modifies this
      ensures (Contents(), r) == Apply(old(Contents()), ms, budget)
    {
      hide EndsWithMarker, Ids, Applied;
      var applied := ledger;
      if !(applied.Keys <= Ids(ms)) {
        return Failure(Unknown);
      }
      var left := budget;
      assert ms[0..] == ms;
      for i := 0 to |ms|
        invariant ApplyFrom(Contents(), applied, ms[i..], left) == Apply(old(Contents()), ms, budget)
      {
        assert ms[i..][0] == ms[i] && ms[i..][1..] == ms[i + 1..];
        var m := ms[i];
        if m.id in applied {
          if applied[m.id] != m.checksum {
            return Failure(ChecksumDrift);
          }
        } else {
          if !EndsWithMarker(m.sql) {
            return Failure(TransactionMissing);
          }
          if left == 0 {
            return Failure(EngineFault);
          }
          RunOne(m);
          left := left - 1;
        }
      }
      return Success(());
    }

    /** verify_migrations, given the names of the tables that exist; False where the source swallows an error. */
    method VerifyMigrations(ms: seq<Migration>, tables: set<string>, core: set<string>, readable: bool) returns (ok: bool)
      ensures ok == Verified(Contents(), ms, tables, core, readable)
    {
      if !readable || |ledger| != |ms| {
        return false;
      }
      for i := 0 to |ms|
        invariant forall j | 0 <= j < i :: ms[j].id in ledger && ledger[ms[j].id] == ms[j].checksum
      {
        if ms[i].id !in ledger || ledger[ms[i].id] != ms[i].checksum {
          return false;
        }
      }
      return core <= tables;
    }
  }

  predicate Verified(db: Db, ms: seq<Migration>, tables: set<string>, core: set<string>, readable: bool) {
    && readable && |db.ledger| == |ms|
    && (forall j | 0 <= j < |ms| :: ms[j].id in db.ledger && db.ledger[ms[j].id] == ms[j].checksum)
    && core <= tables
  }

  // ---------- what a body is ----------

  predicate Blank(s: string) {
    forall i | 0 <= i < |s| :: IsSpace(s[i])
  }

  lemma {:induction false} RStripExactly(text: string, tail: string)
    requires text != "" && !IsSpace(text[|text| - 1]) && Blank(tail)
    ensures RStrip(text + tail) == text
    decreases |tail|
  {
    var s := text + tail;
    if tail == "" {
      assert s == text;
    } else {
      assert s[..|s| - 1] == text + tail[..|tail| - 1];
      assert IsSpace(tail[|tail| - 1]);
      RStripExactly(text, tail[..|tail| - 1]);
    }
  }

  lemma {:induction false} RStripSplits(s: string)
    ensures exists tail :: Blank(tail) && s == RStrip(s) + tail
  {
    if s != "" && IsSpace(s[|s| - 1]) {
      RStripSplits(s[..|s| - 1]);
      var tail :| Blank(tail) && s[..|s| - 1] == RStrip(s[..|s| - 1]) + tail;
      assert Blank(tail + [s[|s| - 1]]) && s == RStrip(s) + (tail + [s[|s| - 1]]);
    } else {
      assert Blank("") && s == RStrip(s) + "";
    }
  }

  /** The file of a migration: its text, the marker, and blanks. */
  predicate Reads(m: Migration, text: string, tail: string) {
    m.sql == text + MARKER + tail && Blank(tail)
  }

  lemma MarkedText(m: Migration, text: string, tail: string)
    requires Reads(m, text, tail)
    ensures RStrip(m.sql) == text + MARKER && EndsWithMarker(m.sql)
    ensures RStrip(m.sql)[..|RStrip(m.sql)| - |MARKER|] == text
  {
    var marked := text + MARKER;
    assert marked[|marked| - 1] == MARKER[|MARKER| - 1] == ';';
    RStripExactly(marked, tail);
    assert marked[|marked| - |MARKER|..] == MARKER && marked[..|marked| - |MARKER|] == text;
  }

  /** A file is accepted exactly if it is some text, the marker and blanks. */
  lemma MarkedExactly(m: Migration)
    ensures EndsWithMarker(m.sql) <==> exists text, tail :: Reads(m, text, tail)
  {
    if exists text, tail :: Reads(m, text, tail) {
      var text, tail :| Reads(m, text, tail);
      MarkedText(m, text, tail);
    }
    if EndsWithMarker(m.sql) {
      var s := RStrip(m.sql);
      RStripSplits(m.sql);
      var tail :| Blank(tail) && m.sql == s + tail;
      assert s == s[..|s| - |MARKER|] + MARKER;
      assert Reads(m, s[..|s| - |MARKER|], tail);
    }
  }

  /** What the engine executes for a migration: a script that lexes to the tokens of its text without the
      comments, and is the text itself if there are none; with it one ledger row, and nothing else changes. */
  lemma AppliedExactly(db: Db, m: Migration, text: string, tail: string)
    requires Reads(m, text, tail)
    ensures EndsWithMarker(m.sql)
    ensures var db' := Applied(db, m);
      && |db'.executed| == |db.executed| + 1 && db'.executed[..|db.executed|] == db.executed
      && Lex(db'.executed[|db.executed|]) == Kept(Lex(text))
      && (CommentFree(Lex(text)) ==> db'.executed[|db.executed|] == text)
      && db'.ledger == db.ledger[m.id := m.checksum]
  {
    hide Lex, Kept, RStrip, EndsWithMarker;
    MarkedText(m, text, tail);
    StrippedLexes(text);
    StrippingIsSafe(text);
    assert Body(m) == Strip(text);
  }

  // ---------- prefixes ----------

  predicate Chain(ms: seq<Migration>) {
    forall i, j | 0 <= i < j < |ms| :: ms[i].id != ms[j].id
  }

  function LedgerOf(ms: seq<Migration>): map<string, string> {
    if ms == [] then map[] else LedgerOf(ms[..|ms| - 1])[ms[|ms| - 1].id := ms[|ms| - 1].checksum]
  }

  predicate Terminated(ms: seq<Migration>) {
    forall m | m in ms :: EndsWithMarker(m.sql)
  }

  function Bodies(ms: seq<Migration>): seq<string>
    requires Terminated(ms)
  {
    if ms == [] then [] else Bodies(ms[..|ms| - 1]) + [Body(ms[|ms| - 1])]
  }

  /** Exactly the first k migrations are in the ledger, with their checksums, and exactly their bodies have
      been executed, each once and in order. */
  ghost predicate IsPrefix(db: Db, ms: seq<Migration>, k: nat) {
    k <= |ms| && Terminated(ms[..k]) && db.ledger == LedgerOf(ms[..k]) && db.executed == Bodies(ms[..k])
  }

  lemma {:induction false} LedgerMembers(ms: seq<Migration>)
    requires Chain(ms)
    ensures LedgerOf(ms).Keys == Ids(ms) && |LedgerOf(ms)| == |ms|
    ensures forall m | m in ms :: m.id in LedgerOf(ms) && LedgerOf(ms)[m.id] == m.checksum
  {
    if ms != [] {
      var rest := ms[..|ms| - 1];
      var last := ms[|ms| - 1];
      LedgerMembers(rest);
      assert ms == rest + [last];
      assert last.id !in Ids(rest);
    }
  }

  lemma OneMore(db: Db, ms: seq<Migration>, k: nat)
    requires IsPrefix(db, ms, k) && k < |ms| && EndsWithMarker(ms[k].sql)
    ensures IsPrefix(Applied(db, ms[k]), ms, k + 1)
  {
    hide EndsWithMarker, Body, LedgerOf, Bodies;
    var rest, next := ms[..k], ms[..k + 1];
    assert next[..k] == rest && next == rest + [ms[k]];
    PrefixStep(next);
  }

  lemma PrefixStep(ms: seq<Migration>)
    requires ms != [] && Terminated(ms)
    ensures var rest, last := ms[..|ms| - 1], ms[|ms| - 1];
      LedgerOf(ms) == LedgerOf(rest)[last.id := last.checksum] && Bodies(ms) == Bodies(rest) + [Body(last)]
  {
    hide EndsWithMarker, Body;
  }

  /** How far a run gets from the k-th migration on. */
  function Reach(ms: seq<Migration>, k: nat, budget: nat): (r: nat)
    requires k <= |ms|
    ensures k <= r <= |ms|
    decreases |ms| - k
  {
    if k == |ms| || budget == 0 || !EndsWithMarker(ms[k].sql) then k else Reach(ms, k + 1, budget - 1)
  }

  lemma {:induction false} ApplyExtendsPrefix(db: Db, applied: map<string, string>, ms: seq<Migration>, k: nat, budget: nat)
    requires Chain(ms) && IsPrefix(db, ms, k) && (forall i | k <= i < |ms| :: ms[i].id !in applied)
    ensures var (db', r) := ApplyFrom(db, applied, ms[k..], budget);
      IsPrefix(db', ms, Reach(ms, k, budget)) && (r.Success? <==> Reach(ms, k, budget) == |ms|)
      && (r.Failure? ==> r.error == if EndsWithMarker(ms[Reach(ms, k, budget)].sql) then EngineFault else TransactionMissing)
    decreases |ms| - k
  {
    hide IsPrefix, EndsWithMarker, Applied;
    if k < |ms| && EndsWithMarker(ms[k].sql) && budget > 0 {
      OneMore(db, ms, k);
      assert ms[k..][1..] == ms[k + 1..];
      ApplyExtendsPrefix(Applied(db, ms[k]), applied, ms, k + 1, budget - 1);
    }
  }

  lemma {:induction false} SkipsApplied(db: Db, applied: map<string, string>, ms: seq<Migration>, k: nat, budget: nat)
    requires k <= |ms| && forall i | 0 <= i < k :: ms[i].id in applied && applied[ms[i].id] == ms[i].checksum
    ensures ApplyFrom(db, applied, ms, budget) == ApplyFrom(db, applied, ms[k..], budget)
  {
    if k > 0 {
      assert ms[1..][k - 1..] == ms[k..];
      SkipsApplied(db, applied, ms[1..], k - 1, budget);
    } else {
      assert ms[0..] == ms && (forall id | id in applied :: id in Ids(ms) || id in applied.Keys - Ids(ms));
    }
  }

  /** A run stopped anywhere leaves exactly a prefix: from k applied migrations it reaches the first body
      the engine fails at or the first file without its COMMIT, and succeeds only at the end of the chain. */
  lemma StoppedRunLeavesAPrefix(db: Db, ms: seq<Migration>, k: nat, budget: nat)
    requires Chain(ms) && IsPrefix(db, ms, k)
    ensures var (db', r) := Apply(db, ms, budget);
      IsPrefix(db', ms, Reach(ms, k, budget)) && (r.Success? <==> Reach(ms, k, budget) == |ms|)
      && (r.Failure? ==> r.error == if EndsWithMarker(ms[Reach(ms, k, budget)].sql) then EngineFault else TransactionMissing)
  {
    hide EndsWithMarker, Applied, Bodies, LedgerOf;
    LedgerMembers(ms[..k]);
    forall i | 0 <= i < k
      ensures ms[i].id in db.ledger && db.ledger[ms[i].id] == ms[i].checksum
    {
      assert ms[i] == ms[..k][i];
    }
    forall i | k <= i < |ms|
      ensures ms[i].id !in db.ledger
    {
      assert forall m | m in ms[..k] :: m.id != ms[i].id;
    }
    SkipsApplied(db, db.ledger, ms, k, budget);
    ApplyExtendsPrefix(db, db.ledger, ms, k, budget);
  }

  lemma PrefixIsTheState(db: Db, db': Db, ms: seq<Migration>, k: nat)
    requires IsPrefix(db, ms, k) && IsPrefix(db', ms, k)
    ensures db == db'
  {
  }

  lemma {:induction false} ReachTwice(ms: seq<Migration>, k: nat, first: nat, second: nat)
    requires k <= |ms|
    ensures Reach(ms, Reach(ms, k, first), second) == Reach(ms, k, first + second)
    decreases |ms| - k
  {
    hide EndsWithMarker;
    if k < |ms| && EndsWithMarker(ms[k].sql) && first > 0 {
      ReachTwice(ms, k + 1, first - 1, second);
    }
  }

  /** Interrupting and rerunning is the same as not having been interrupted: two runs in which the engine
      survives `first` and then `second` bodies leave the schema, the ledger and the verdict of one run in
      which it survives them all. */
  lemma {:induction false} RerunReachesTheSameSchema(db: Db, ms: seq<Migration>, k: nat, first: nat, second: nat)
    requires Chain(ms) && IsPrefix(db, ms, k)
    ensures var stopped := Apply(db, ms, first).0;
      var (again, r) := Apply(stopped, ms, second);
      var (whole, r') := Apply(db, ms, first + second);
      again == whole && (r.Success? <==> r'.Success?)
  {
    hide Apply, IsPrefix, Reach;
    StoppedRunLeavesAPrefix(db, ms, k, first);
    var stopped := Apply(db, ms, first).0;
    var j := Reach(ms, k, first);
    StoppedRunLeavesAPrefix(stopped, ms, j, second);
    StoppedRunLeavesAPrefix(db, ms, k, first + second);
    ReachTwice(ms, k, first, second);
    PrefixIsTheState(Apply(stopped, ms, second).0, Apply(db, ms, first + second).0, ms, Reach(ms, k, first + second));
  }

  lemma {:induction false} BodiesAt(ms: seq<Migration>, i: nat)
    requires Terminated(ms) && i < |ms|
    ensures |Bodies(ms)| == |ms| && EndsWithMarker(ms[i].sql) && Bodies(ms)[i] == Body(ms[i])
  {
    hide EndsWithMarker, Body;
    if i < |ms| - 1 {
      BodiesAt(ms[..|ms| - 1], i);
    } else if |ms| > 1 {
      BodiesAt(ms[..|ms| - 1], 0);
    }
  }

  /** In a database left by any number of stopped runs, the k scripts executed are those of the first k
      files, each with the tokens of its text and no comments. */
  lemma PrefixExecutesItsTexts(db: Db, ms: seq<Migration>, k: nat, i: nat, text: string, tail: string)
    requires IsPrefix(db, ms, k) && i < k && Reads(ms[i], text, tail)
    ensures |db.executed| == k && Lex(db.executed[i]) == Kept(Lex(text))
    ensures CommentFree(Lex(text)) ==> db.executed[i] == text
  {
    BodiesAt(ms[..k], i);
    AppliedExactly(Db([], map[]), ms[i], text, tail);
    hide Lex, Kept, EndsWithMarker, Bodies;
    assert ms[..k][i] == ms[i];
  }

  // ---------- drift and strangers ----------

  predicate Drifted(ledger: map<string, string>, m: Migration) {
    m.id in ledger && ledger[m.id] != m.checksum
  }

  /** The first entry of the chain that is missing from the ledger or differs from it. */
  function FirstOdd(ledger: map<string, string>, ms: seq<Migration>): (n: nat)
    ensures n <= |ms|
    ensures forall i | 0 <= i < n :: ms[i].id in ledger && !Drifted(ledger, ms[i])
    ensures n < |ms| ==> ms[n].id !in ledger || Drifted(ledger, ms[n])
  {
    if ms == [] || ms[0].id !in ledger || Drifted(ledger, ms[0]) then 0 else 1 + FirstOdd(ledger, ms[1..])
  }

  /** A run executes a body before it stops exactly when no ledger row is unknown and the first entry out of
      line is a missing one that can run: so a drifted row stops everything before any body unless a gap in
      the ledger comes before it. */
  lemma {:induction false} BodiesRunExactly(db: Db, ms: seq<Migration>, budget: nat)
    ensures var n := FirstOdd(db.ledger, ms);
      Apply(db, ms, budget).0 != db
      <==> (&& db.ledger.Keys <= Ids(ms) && n < |ms| && ms[n].id !in db.ledger && EndsWithMarker(ms[n].sql) && budget > 0)
  {
    hide EndsWithMarker;
    var n := FirstOdd(db.ledger, ms);
    SkipsApplied(db, db.ledger, ms, n, budget);
    if db.ledger.Keys <= Ids(ms) && n < |ms| && ms[n].id !in db.ledger && EndsWithMarker(ms[n].sql) && budget > 0 {
      ExecutedGrows(Applied(db, ms[n]), db.ledger, ms[n..][1..], budget - 1);
    }
  }

  lemma {:induction false} ExecutedGrows(db: Db, applied: map<string, string>, ms: seq<Migration>, budget: nat)
    ensures |ApplyFrom(db, applied, ms, budget).0.executed| >= |db.executed|
    decreases |ms|
  {
    hide EndsWithMarker;
    if ms != [] {
      ExecutedGrows(db, applied, ms[1..], budget);
      if EndsWithMarker(ms[0].sql) && budget > 0 {
        ExecutedGrows(Applied(db, ms[0]), applied, ms[1..], budget - 1);
      }
    }
  }

  /** When the ledgered ids are those of the first k migrations, any drift stops the run untouched. */
  lemma DriftInAPrefixStopsEverything(db: Db, ms: seq<Migration>, k: nat, budget: nat)
    requires Chain(ms) && k <= |ms| && db.ledger.Keys == Ids(ms[..k])
    requires exists i :: 0 <= i < k && Drifted(db.ledger, ms[i])
    ensures Apply(db, ms, budget) == (db, Failure(ChecksumDrift))
  {
    hide EndsWithMarker, Applied;
    var n := FirstOdd(db.ledger, ms);
    var i :| 0 <= i < k && Drifted(db.ledger, ms[i]);
    assert n <= i && ms[n] == ms[..k][n];
    PrefixIds(ms, k);
    SkipsApplied(db, db.ledger, ms, n, budget);
  }

  lemma PrefixIds(ms: seq<Migration>, k: nat)
    requires k <= |ms|
    ensures Ids(ms[..k]) <= Ids(ms)
    ensures forall i | 0 <= i < k :: ms[i].id in Ids(ms[..k])
  {
    assert forall i | 0 <= i < k :: ms[i] == ms[..k][i] && ms[..k][i] in ms[..k];
  }

  lemma UnknownRowStopsEverything(db: Db, ms: seq<Migration>, budget: nat)
    ensures Apply(db, ms, budget) == (db, Failure(Unknown)) <==> exists id :: id in db.ledger && id !in Ids(ms)
  {
    hide EndsWithMarker;
    if db.ledger.Keys <= Ids(ms) {
      NeverUnknown(db, db.ledger, ms, budget);
    }
  }

  lemma {:induction false} NeverUnknown(db: Db, applied: map<string, string>, ms: seq<Migration>, budget: nat)
    ensures ApplyFrom(db, applied, ms, budget).1 != Failure(Unknown)
    decreases |ms|
  {
    hide EndsWithMarker;
    if ms != [] {
      NeverUnknown(db, applied, ms[1..], budget);
      if EndsWithMarker(ms[0].sql) && budget > 0 {
        NeverUnknown(Applied(db, ms[0]), applied, ms[1..], budget - 1);
      }
    }
  }

  const GAP := [Migration("001", "BEGIN; A; COMMIT;", "one"), Migration("002", "BEGIN; B; COMMIT;", "two")]

  /** A ledger with a gap lets a body run although a later row has drifted. */
  lemma DriftAfterAGapRunsABody()
    ensures var (db', r) := Apply(Db([], map["002" := "other"]), GAP, 1);
      r == Failure(ChecksumDrift) && |db'.executed| == 1 && "001" in db'.ledger
  {
    var db := Db([], map["002" := "other"]);
    assert GAP[0].id == "001" && GAP[1].id == "002";
    assert "002" in Ids(GAP);
    Untrimmed(GAP[0].sql);
    var db1 := Applied(db, GAP[0]);
    assert GAP[1..] == [GAP[1]] && GAP[1..][0] == GAP[1];
    assert ApplyFrom(db1, db.ledger, GAP[1..], 0) == (db1, Failure(ChecksumDrift));
  }

  lemma Untrimmed(sql: string)
    requires |sql| >= 7 && sql[|sql| - 7..] == MARKER
    ensures EndsWithMarker(sql)
  {
    assert sql[|sql| - 1] == sql[|sql| - 7..][6];
    assert RStrip(sql) == sql;
  }

  // ---------- verification ----------

  /** verify_migrations accepts exactly the complete ledger, no row more or less, over the core tables. */
  lemma VerifiedExactly(db: Db, ms: seq<Migration>, tables: set<string>, core: set<string>)
    requires Chain(ms)
    ensures Verified(db, ms, tables, core, true) <==> db.ledger == LedgerOf(ms) && core <= tables
    ensures !Verified(db, ms, tables, core, false)
  {
    LedgerMembers(ms);
    var expected := LedgerOf(ms);
    assert |expected| == |expected.Keys| && |db.ledger| == |db.ledger.Keys|;
    if Verified(db, ms, tables, core, true) {
      forall id | id in Ids(ms)
        ensures id in db.ledger && db.ledger[id] == expected[id]
      {
        var m :| m in ms && m.id == id;
      }
      SameSize(Ids(ms), db.ledger.Keys);
    }
  }

  lemma SameSize<T>(a: set<T>, b: set<T>)
    requires a <= b && |a| == |b|
    ensures a == b
  {
    assert b == a + (b - a);
  }
}
