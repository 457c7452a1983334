/** What reconcile_quarantine repairs after a crash, with everyone else still running
    (src/services/object_gc.py:169-203, src/storage/local_store.py:210-241). */
module CrashHealing {
  import opened Wrappers
  import opened LocalStore
  import opened ObjectLedger
  import opened ObjectProtocol
  import opened ByteSafety

  /** When a pass completes, quarantine holds exactly the coordinates the pass stepped over, each of those
      has a live row, and every other backed live row can be read, intact, at the live path. */
  lemma ReconcileHeals(w: World)
    requires Inv(w) && ReconcileComplete(w)
    ensures w.store.quarantine.Keys == w.scanner.skipped
    ensures forall c | c in w.scanner.skipped :: LiveRows(w.db, c.team, c.digest) != {}
    ensures forall u | Live(w.db, u) && Backed(w, w.db.rows[u].At()) && w.db.rows[u].At() !in w.scanner.skipped ::
      w.db.rows[u].At() in w.store.live && DigestOf(w.store.live[w.db.rows[u].At()]) == w.db.rows[u].digest
  {
    hide LedgerInv;
    assert w.store.quarantine.Keys == Items([]) + w.scanner.skipped;
    forall c | c in w.scanner.skipped
      ensures LiveRows(w.db, c.team, c.digest) != {}
    {
      var u :| Live(w.db, u) && w.db.rows[u].At() == c;
      assert u in LiveRows(w.db, c.team, c.digest);
    }
  }

  ghost predicate NoCrash(steps: seq<Step>) {
    forall i | 0 <= i < |steps| :: !steps[i].Crash?
  }

  lemma LiveByteStays(w: World, step: Step, c: Coord)
    requires Inv(w) && w.scanner.Reconciling? && c in w.store.live && !step.Crash?
    ensures var w' := Next(w, step); w'.scanner.Reconciling? && c in w'.store.live
  {
    if IsCollector(step) {
      CollectorTakesIts(w, step);
      ReconcilingKeepsLive(w, step, c);
    } else {
      OthersGrow(w, step);
    }
    hide Inv, Next, NextCollector;
  }

  lemma ReconcilingKeepsLive(w: World, step: Step, c: Coord)
    requires IsCollector(step) && w.scanner.Reconciling? && c in w.store.live && !step.Crash?
    ensures var w' := NextCollector(w, step); w'.scanner.Reconciling? && c in w'.store.live
  {
    hide RecheckTx, FinishTx, LiveRows, NewestRow, Lists;
  }

  /** While the collector reconciles, nothing leaves the live path. */
  lemma {:induction false} LiveBytesStay(w: World, steps: seq<Step>, c: Coord)
    requires Inv(w) && w.scanner.Reconciling? && c in w.store.live && NoCrash(steps)
    ensures c in Run(w, steps).store.live
    decreases |steps|
  {
    hide Next, Inv;
    if steps != [] {
      LiveByteStays(w, steps[0], c);
      RunKeepsInv(w, [steps[0]]);
      RunOne(w, steps[0]);
      LiveBytesStay(Next(w, steps[0]), steps[1..], c);
    }
  }

  /** What protects a row from being found in quarantine only: it was not stepped over, or its bytes were at
      the live path at a moment of this very pass. */
  ghost predicate Reached(mid: World, after: seq<Step>, w: World, c: Coord) {
    c !in Skipped(w) || (mid.scanner.Reconciling? && NoCrash(after) && c in mid.store.live)
  }

  /** Healing over a whole pass with anyone running meanwhile: take any moment of it, for instance the commit
      of a row whose bytes are then live. A row backed at that moment, if it is still live when the pass
      completes, is intact at the live path, unless it was stepped over with its bytes in quarantine only. */
  lemma PassHeals(w: World, listing: seq<Coord>, before: seq<Step>, after: seq<Step>, u: Uuid)
    requires Inv(w) && w.scanner.Idle? && Lists(listing, w.store.quarantine)
    requires ReconcileComplete(Run(Next(w, BeginReconcile(listing)), before + after))
    requires var mid := Run(Next(w, BeginReconcile(listing)), before);
      u in mid.db.rows && Backed(mid, mid.db.rows[u].At())
    ensures var mid := Run(Next(w, BeginReconcile(listing)), before);
      var w' := Run(Next(w, BeginReconcile(listing)), before + after);
      && u in w'.db.rows && w'.db.rows[u].At() == mid.db.rows[u].At()
      && (Live(w'.db, u) && Reached(mid, after, w', w'.db.rows[u].At()) ==>
            w'.db.rows[u].At() in w'.store.live && DigestOf(w'.store.live[w'.db.rows[u].At()]) == w'.db.rows[u].digest)
  {
    hide Run, Next, Inv, Lists;
    var w0 := Next(w, BeginReconcile(listing));
    ReconcileBegins(w, listing);
    RunKeepsInv(w0, before);
    RunAppend(w0, before, after);
    var mid := Run(w0, before);
    RunKeepsInv(mid, after);
    BackedRowsKeepBytes(mid, after, u);
    ReconcileHeals(Run(mid, after));
    var c := mid.db.rows[u].At();
    if mid.scanner.Reconciling? && NoCrash(after) && c in mid.store.live {
      LiveBytesStay(mid, after, c);
      LiveBytesMatch(Run(mid, after), c);
    }
  }

  lemma LiveBytesMatch(w: World, c: Coord)
    requires Inv(w) && c in w.store.live
    ensures DigestOf(w.store.live[c]) == c.digest
  {
    hide LedgerInv;
  }

  /** The same of every row that was backed when the pass began. */
  lemma PassHealsWhatItFound(w: World, listing: seq<Coord>, steps: seq<Step>, u: Uuid)
    requires Inv(w) && w.scanner.Idle? && Lists(listing, w.store.quarantine)
    requires ReconcileComplete(Run(Next(w, BeginReconcile(listing)), steps))
    requires u in w.db.rows && Backed(w, w.db.rows[u].At())
    ensures var w' := Run(Next(w, BeginReconcile(listing)), steps);
      && u in w'.db.rows && w'.db.rows[u].At() == w.db.rows[u].At()
      && (Live(w'.db, u) && (w'.db.rows[u].At() !in w'.scanner.skipped || (NoCrash(steps) && w.db.rows[u].At() in w.store.live)) ==>
            w'.db.rows[u].At() in w'.store.live && DigestOf(w'.store.live[w'.db.rows[u].At()]) == w'.db.rows[u].digest)
  {
    hide Run, Next, Inv, Lists;
    ReconcileBegins(w, listing);
    RunNothing(Next(w, BeginReconcile(listing)));
    assert [] + steps == steps;
    PassHeals(w, listing, [], steps, u);
  }

  lemma RunNothing(w: World)
    ensures Run(w, []) == w
  {
  }

  ghost predicate NoCollector(steps: seq<Step>) {
    forall i | 0 <= i < |steps| :: !IsCollector(steps[i])
  }

  lemma {:induction false} OthersRunGrow(w: World, steps: seq<Step>)
    requires Inv(w) && NoCollector(steps)
    ensures Inv(Run(w, steps)) && Run(w, steps).scanner == w.scanner && w.now <= Run(w, steps).now && Run(w, steps).cfg == w.cfg
    ensures forall u | u in w.db.rows :: u in Run(w, steps).db.rows && Run(w, steps).db.rows[u] == w.db.rows[u]
    decreases |steps|
  {
    if steps != [] {
      OthersGrow(w, steps[0]);
      OthersKeepInv(w, steps[0]);
      hide Next, Inv;
      OthersRunGrow(Next(w, steps[0]), steps[1..]);
    }
  }

  function Skipped(w: World): set<Coord> {
    if w.scanner.Reconciling? then w.scanner.skipped else {}
  }

  /** A coordinate is stepped over only because its first read saw no live row and a writer catalogued the
      same bytes before the second read: the row that the second read found was not there at the first. */
  lemma {:induction false} SteppedOverMeansRace(w: World, c: Coord, between: seq<Step>, w1: World, latest: Uuid)
    requires Inv(w) && At(w, NextItem) && w.scanner.todo[0] == c && LiveRows(w.db, c.team, c.digest) == {}
    requires NoCollector(between) && w1 == Run(Next(w, LookForLiveRow), between)
    ensures c in Skipped(Next(w1, LookForTombstone(latest)))
       <==> NewestRow(w1.db, c, latest) && Live(w1.db, latest) && latest !in w.db.rows
  {
    hide Run, Next, Inv;
    FirstRead(w, c);
    var w0 := Next(w, LookForLiveRow);
    OthersRunGrow(w0, between);
    SecondRead(w1, c, latest);
    if Live(w1.db, latest) && latest in w.db.rows && w1.db.rows[latest].At() == c {
      assert w1.db.rows[latest] == w.db.rows[latest];
      assert latest in LiveRows(w.db, c.team, c.digest);
    }
  }

  lemma FirstRead(w: World, c: Coord)
    requires Inv(w) && At(w, NextItem) && w.scanner.todo[0] == c && LiveRows(w.db, c.team, c.digest) == {}
    ensures var w0 := Next(w, LookForLiveRow);
      Inv(w0) && w0.db == w.db && At(w0, NoLiveRow) && w0.scanner.todo[0] == c
  {
    hide Inv;
    CollectorKeepsInv(w, LookForLiveRow);
  }

  lemma SecondRead(w: World, c: Coord, latest: Uuid)
    requires Inv(w) && At(w, NoLiveRow) && w.scanner.todo[0] == c
    ensures c in Skipped(Next(w, LookForTombstone(latest))) <==> NewestRow(w.db, c, latest) && Live(w.db, latest)
  {
    hide LedgerInv;
    assert c in Items(w.scanner.todo);
    var u :| u in w.db.rows && w.db.rows[u].At() == c;
  }

  // ---------- a pass nobody catalogues into ----------

  /** No catalogue write and no loss of memory. */
  ghost predicate Quiet(steps: seq<Step>) {
    forall i | 0 <= i < |steps| :: !steps[i].Upload? && !steps[i].Catalogue? && !steps[i].Crash?
  }

  ghost predicate QuietPass(w: World) {
    match w.scanner
    case Idle => w.store.quarantine.Keys == {}
    case Deleting(_, _) => false
    case Reconciling(todo, skipped, at) =>
      && skipped == {}
      && (at == NoLiveRow && todo != [] ==> LiveRows(w.db, todo[0].team, todo[0].digest) == {})
  }

  lemma QuietStep(w: World, step: Step)
    requires Inv(w) && w.scanner.Reconciling? && QuietPass(w)
    requires !step.Upload? && !step.Catalogue? && !step.Crash?
    ensures Next(w, step).scanner.Reconciling? && QuietPass(Next(w, step))
  {
    if IsCollector(step) {
      CollectorWrites(w, step);
      match step
      case LookForTombstone(latest) => QuietLook(w, latest);
      case _ => hide LedgerInv;
    } else {
      OthersGrow(w, step);
      QuietRows(w, step);
      hide Next, Inv;
      var w' := Next(w, step);
      assert forall t, d :: LiveRows(w'.db, t, d) == LiveRows(w.db, t, d);
    }
  }

  lemma QuietRows(w: World, step: Step)
    requires !IsCollector(step) && !step.Upload? && !step.Catalogue?
    ensures Next(w, step).db.rows == w.db.rows
  {
  }

  lemma QuietLook(w: World, latest: Uuid)
    requires Inv(w) && w.scanner.Reconciling? && QuietPass(w)
    ensures Next(w, LookForTombstone(latest)).scanner.Reconciling? && QuietPass(Next(w, LookForTombstone(latest)))
  {
    hide LedgerInv;
    if At(w, NoLiveRow) {
      var c := w.scanner.todo[0];
      assert c in Items(w.scanner.todo);
      var u :| u in w.db.rows && w.db.rows[u].At() == c;
      assert Live(w.db, latest) && w.db.rows[latest].At() == c ==> latest in LiveRows(w.db, c.team, c.digest);
    }
  }

  lemma {:induction false} QuietRun(w: World, steps: seq<Step>)
    requires Inv(w) && w.scanner.Reconciling? && QuietPass(w) && Quiet(steps)
    ensures Run(w, steps).scanner.Reconciling? && QuietPass(Run(w, steps)) && Inv(Run(w, steps))
    decreases |steps|
  {
    hide Next, Inv, QuietPass;
    if steps != [] {
      QuietStep(w, steps[0]);
      RunKeepsInv(w, [steps[0]]);
      RunOne(w, steps[0]);
      QuietRun(Next(w, steps[0]), steps[1..]);
    }
  }

  /** A pass during which nothing is catalogued leaves quarantine empty, and every live row whose bytes can
      still be recovered has them at the live path, whatever crash or failed transaction came before. */
  lemma {:induction false} QuietReconcileEmptiesQuarantine(w: World, listing: seq<Coord>, steps: seq<Step>)
    requires Inv(w) && w.scanner.Idle? && Lists(listing, w.store.quarantine) && Quiet(steps)
    requires ReconcileComplete(Run(Next(w, BeginReconcile(listing)), steps))
    ensures var w' := Run(Next(w, BeginReconcile(listing)), steps);
      && w'.store.quarantine.Keys == {}
      && forall u | Live(w'.db, u) && Backed(w, w'.db.rows[u].At()) && u in w.db.rows ::
           w'.db.rows[u].At() in w'.store.live && DigestOf(w'.store.live[w'.db.rows[u].At()]) == w'.db.rows[u].digest
  {
    hide Run, Inv, Next, QuietPass, Lists;
    var w0 := Next(w, BeginReconcile(listing));
    ReconcileBegins(w, listing);
    QuietRun(w0, steps);
    var w' := Run(w0, steps);
    ReconcileHeals(w');
    NothingSkipped(w');
    forall u | Live(w'.db, u) && Backed(w, w'.db.rows[u].At()) && u in w.db.rows
      ensures Backed(w', w'.db.rows[u].At())
    {
      StillBacked(w, w0, steps, u);
    }
  }

  lemma ReconcileBegins(w: World, listing: seq<Coord>)
    requires Inv(w) && w.scanner.Idle? && Lists(listing, w.store.quarantine)
    ensures var w0 := Next(w, BeginReconcile(listing));
      Inv(w0) && QuietPass(w0) && w0 == w.(scanner := Reconciling(listing, {}, NextItem))
  {
    hide Run, Inv, Next;
    BeginShape(w, listing);
    RunOne(w, BeginReconcile(listing));
    RunKeepsInv(w, [BeginReconcile(listing)]);
  }

  lemma BeginShape(w: World, listing: seq<Coord>)
    requires w.scanner.Idle? && Lists(listing, w.store.quarantine)
    ensures Next(w, BeginReconcile(listing)) == w.(scanner := Reconciling(listing, {}, NextItem))
  {
    hide Lists;
  }

  lemma NothingSkipped(w: World)
    requires QuietPass(w) && w.scanner.Reconciling?
    ensures w.scanner.skipped == {}
  {
  }

  lemma StillBacked(w: World, w0: World, steps: seq<Step>, u: Uuid)
    requires Inv(w0) && w0.scanner.Reconciling? && w0.scanner.at == NextItem && w0.db == w.db && w0.store == w.store
    requires u in w.db.rows && Live(Run(w0, steps).db, u) && Backed(w, Run(w0, steps).db.rows[u].At())
    ensures Backed(Run(w0, steps), Run(w0, steps).db.rows[u].At())
  {
    RowsNeverRevive(w0, steps, u);
    BackedRowsKeepBytes(w0, steps, u);
    hide Run, Inv;
  }

  lemma {:induction false} RowsNeverRevive(w: World, steps: seq<Step>, u: Uuid)
    requires Inv(w) && u in w.db.rows
    ensures Ages(w.db, Run(w, steps).db, u)
    decreases |steps|
  {
    if steps != [] {
      RowsAge(w, steps[0], u);
      RunKeepsInv(w, [steps[0]]);
      RunOne(w, steps[0]);
      hide Next, Inv;
      RowsNeverRevive(Next(w, steps[0]), steps[1..], u);
    }
  }
}
