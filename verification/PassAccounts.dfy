/** Every item of a reconciliation is put back, destroyed or stepped over, exactly once
    (src/services/object_gc.py:169-203). */
module PassAccounts {
  import opened Wrappers
  import opened LocalStore
  import opened ObjectLedger
  import opened ObjectProtocol
  import opened ByteSafety
  import opened CrashHealing

  predicate PutsBack(w: World, step: Step) {
    step.RestoreListed? && At(w, RestoreItem)
  }

  predicate Takes(w: World, step: Step) {
    step.DestroyListed? && At(w, DestroyItem)
  }

  /** How many items a run put back, and how many it destroyed. */
  function PutBackBy(w: World, steps: seq<Step>): nat
    decreases |steps|
  {
    if steps == [] then 0 else (if PutsBack(w, steps[0]) then 1 else 0) + PutBackBy(Next(w, steps[0]), steps[1..])
  }

  function TakenBy(w: World, steps: seq<Step>): nat
    decreases |steps|
  {
    if steps == [] then 0 else (if Takes(w, steps[0]) then 1 else 0) + TakenBy(Next(w, steps[0]), steps[1..])
  }

  /** What is still to visit and what was stepped over. */
  function Outstanding(w: World): nat {
    if w.scanner.Reconciling? then |w.scanner.todo| + |w.scanner.skipped| else 0
  }

  lemma StepAccounts(w: World, step: Step)
    requires Inv(w) && w.scanner.Reconciling? && !step.Crash?
    ensures var w' := Next(w, step);
      && w'.scanner.Reconciling?
      && Outstanding(w') + (if PutsBack(w, step) then 1 else 0) + (if Takes(w, step) then 1 else 0) == Outstanding(w)
  {
    if IsCollector(step) {
      CollectorTakesIts(w, step);
      CollectorAccounts(w, step);
    } else {
      OthersGrow(w, step);
    }
    hide Inv, Next, NextCollector;
  }

  lemma CollectorAccounts(w: World, step: Step)
    requires Inv(w) && w.scanner.Reconciling? && IsCollector(step) && !step.Crash?
    ensures var w' := NextCollector(w, step);
      && w'.scanner.Reconciling?
      && Outstanding(w') + (if PutsBack(w, step) then 1 else 0) + (if Takes(w, step) then 1 else 0) == Outstanding(w)
  {
    hide Inv, RecheckTx, FinishTx, LiveRows, NewestRow, Lists;
    NotYetSkipped(w);
  }

  lemma NotYetSkipped(w: World)
    requires Inv(w) && w.scanner.Reconciling?
    ensures w.scanner.todo != [] ==> w.scanner.todo[0] !in w.scanner.skipped
  {
    hide LedgerInv, BytesMatch, QuarantineCatalogued;
    assert w.scanner.todo != [] ==> w.scanner.todo[0] in Items(w.scanner.todo);
  }

  /** Over any uninterrupted part of a pass, whoever else runs. */
  lemma {:induction false} PassAccountsForEveryItem(w: World, steps: seq<Step>)
    requires Inv(w) && w.scanner.Reconciling? && NoCrash(steps)
    ensures Outstanding(Run(w, steps)) + PutBackBy(w, steps) + TakenBy(w, steps) == Outstanding(w)
    decreases |steps|
  {
    hide Next, Inv, PutsBack, Takes, Outstanding;
    if steps != [] {
      StepAccounts(w, steps[0]);
      RunKeepsInv(w, [steps[0]]);
      RunOne(w, steps[0]);
      PassAccountsForEveryItem(Next(w, steps[0]), steps[1..]);
    }
  }

  lemma {:induction false} PutBackAppend(w: World, a: seq<Step>, b: seq<Step>)
    ensures PutBackBy(w, a + b) == PutBackBy(w, a) + PutBackBy(Run(w, a), b)
    decreases |a|
  {
    hide Next, PutsBack;
    if a == [] {
      assert a + b == b;
    } else {
      assert (a + b)[1..] == a[1..] + b;
      PutBackAppend(Next(w, a[0]), a[1..], b);
    }
  }

  lemma PutBackOne(w: World, step: Step)
    ensures PutBackBy(w, [step]) == if PutsBack(w, step) then 1 else 0
  {
    hide Next, PutsBack;
    assert PutBackBy(Next(w, step), [step][1..]) == 0;
  }

  lemma {:induction false} OthersPutNothingBack(w: World, steps: seq<Step>)
    requires NoCollector(steps)
    ensures PutBackBy(w, steps) == 0 && Run(w, steps).scanner == w.scanner
    decreases |steps|
  {
    if steps != [] {
      OtherKeepsScanner(w, steps[0]);
      hide Next;
      OthersPutNothingBack(Next(w, steps[0]), steps[1..]);
    }
  }

  lemma OtherKeepsScanner(w: World, step: Step)
    requires !IsCollector(step)
    ensures Next(w, step).scanner == w.scanner
  {
    hide UploadTx, CatalogTx, ReserveTx, ConsumeTx, CancelSessionTx, CancelHandleTx, ExpireTx, Abandoned;
  }

  lemma ListedIsHeld(w: World)
    requires Inv(w) && At(w, RestoreItem)
    ensures Holds(w.store, w.scanner.todo[0])
  {
    hide LedgerInv;
    assert w.scanner.todo[0] in Items(w.scanner.todo);
  }

  lemma LookKeepsTodo(w: World)
    requires At(w, NextItem)
    ensures var w' := Next(w, LookForLiveRow);
      var c := w.scanner.todo[0];
      At(w', if LiveRows(w.db, c.team, c.digest) == {} then NoLiveRow else RestoreItem) && w'.scanner.todo == w.scanner.todo
  {
    hide LiveRows;
  }
}
