/** Staged outcomes: bytes promoted first, catalogued in the transaction that accepts the outcome
    (src/services/artifacts.py:62-169). */
module OutcomeArtifacts {
  import opened Wrappers
  import opened LocalStore
  import opened ObjectLedger
  import opened ObjectProtocol
  import opened ByteSafety
  import opened ObjectServices

  datatype Command = Command(team: Team, process: Uuid, fence: nat, execution: Uuid) {
    function Key(): (Uuid, nat) { (process, fence) }
  }

  datatype PendingCommit = PendingCommit(command: Command, output: Stat, proof: Stat)

  /** The references and digests a process outcome carries. */
  datatype Outcome = Outcome(outputRef: Coord, outputDigest: Digest, proofRef: Coord, proofDigest: Digest)

  datatype StageError = OutputConflict | PendingLimit | OutputMissing | CommandConflict | OutputIntegrity | NameTaken | DomainFailed

  const MAX_PENDING := 1024

  datatype CommitIds = CommitIds(outputRow: Uuid, outputRef: Uuid, proofRow: Uuid, proofRef: Uuid)

  predicate FreshIds(db: Db, ids: CommitIds) {
    && ids.outputRow !in db.rows && ids.proofRow !in db.rows && ids.outputRow != ids.proofRow
    && ids.outputRef !in db.refs && ids.proofRef !in db.refs && ids.outputRef != ids.proofRef
  }

  predicate Matches(outcome: Outcome, p: PendingCommit) {
    outcome == Outcome(p.output.At(), p.output.digest, p.proof.At(), p.proof.digest)
  }

  /** The same bytes staged again for the same execution. */
  predicate Restages(p: PendingCommit, command: Command, output: Stat, proof: Stat) {
    p.output.digest == output.digest && p.proof.digest == proof.digest && p.command.execution == command.execution
  }

  /** Both stats, catalogued and referenced in one transaction. */
  function CommitTx(db: Db, now: Time, p: PendingCommit, ids: CommitIds): Db {
    var owner := p.command.process;
    var db1 := CatalogTx(db, now, p.output, Some(OtherOwner("process_output", owner)), ids.outputRow, ids.outputRef);
    CatalogTx(db1, now, p.proof, Some(OtherOwner("process_proof", owner)), ids.proofRow, ids.proofRef)
  }

  class OutcomeArtifactCommitter {
    var pending: map<(Uuid, nat), PendingCommit>
    const ledger: Ledger

    ghost predicate Valid()
      reads this
    {
      |pending| <= MAX_PENDING && forall k | k in pending :: pending[k].command.Key() == k
    }

    constructor (ledger: Ledger)
      ensures Valid() && pending == map[] && this.ledger == ledger
    {
      pending := map[];
      this.ledger := ledger;
    }

    /** Both promotions have succeeded already. */
    method Stage(command: Command, output: Stat, proof: Stat) returns (r: Result<(), StageError>)
      requires Valid()
      modifies this
      ensures Valid()
      ensures r.Success? ==>
        && command.Key() in pending && pending[command.Key()].output.digest == output.digest
        && pending[command.Key()].proof.digest == proof.digest && pending[command.Key()].command.execution == command.execution
      ensures pending == if r.Success? && command.Key() !in old(pending)
                         then old(pending)[command.Key() := PendingCommit(command, output, proof)] else old(pending)
      ensures r == Failure(OutputConflict) <==>
        command.Key() in old(pending) && !Restages(old(pending)[command.Key()], command, output, proof)
      ensures r.Success? <==>
        if command.Key() in old(pending) then Restages(old(pending)[command.Key()], command, output, proof) else |old(pending)| < MAX_PENDING
      ensures r == Failure(PendingLimit) <==> command.Key() !in old(pending) && |old(pending)| == MAX_PENDING
    {
      var key := command.Key();
      if key in pending {
        var existing := pending[key];
        if existing.output.digest != output.digest || existing.proof.digest != proof.digest
           || existing.command.execution != command.execution {
          return Failure(OutputConflict);
        }
      } else {
        if |pending| >= MAX_PENDING {
          return Failure(PendingLimit);
        }
        pending := pending[key := PendingCommit(command, output, proof)];
      }
      return Success(());
    }

    /** validate_and_commit: whatever happens the pending entry is gone, so an outcome commits at most once;
        on any error, the domain's own included, the transaction leaves the ledger as it was. */
    method ValidateAndCommit(command: Command, outcome: Outcome, now: Time, ids: CommitIds, domainFails: bool)
      returns (r: Result<(), StageError>)
      requires Valid()
      modifies this, ledger
      ensures Valid() && pending == old(pending) - {command.Key()}
      ensures r.Success? <==>
        && command.Key() in old(pending) && old(pending)[command.Key()].command == command
        && Matches(outcome, old(pending)[command.Key()]) && FreshIds(old(ledger.View()), ids) && !domainFails
      ensures r == Failure(OutputMissing) <==> command.Key() !in old(pending)
      ensures r == Failure(CommandConflict) <==> command.Key() in old(pending) && old(pending)[command.Key()].command != command
      ensures r == Failure(OutputIntegrity) <==>
        command.Key() in old(pending) && old(pending)[command.Key()].command == command && !Matches(outcome, old(pending)[command.Key()])
      ensures ledger.View() == if r.Success? then CommitTx(old(ledger.View()), now, old(pending)[command.Key()], ids) else old(ledger.View())
    {
      var key := command.Key();
      if key !in pending {
        return Failure(OutputMissing);
      }
      var entry := pending[key];
      pending := pending - {key};
      if entry.command != command {
        return Failure(CommandConflict);
      }
      if outcome.outputRef != entry.output.At() || outcome.outputDigest != entry.output.digest
         || outcome.proofRef != entry.proof.At() || outcome.proofDigest != entry.proof.digest {
        return Failure(OutputIntegrity);
      }
      if !FreshIds(ledger.View(), ids) {
        return Failure(StageError.NameTaken);
      }
      if domainFails {
        return Failure(DomainFailed);
      }
      ledger.CatalogStat(now, entry.output, OtherOwner("process_output", command.process), ids.outputRow, ids.outputRef);
      ledger.CatalogStat(now, entry.proof, OtherOwner("process_proof", command.process), ids.proofRow, ids.proofRef);
      return Success(());
    }

    method Discard(command: Command)
      requires Valid()
      modifies this
      ensures Valid() && pending == old(pending) - {command.Key()}
    {
      pending := pending - {command.Key()};
    }
  }

  /** The reference r holds a live row of the stat's own bytes. */
  ghost predicate Owns(db: Db, r: Uuid, stat: Stat, owner: Owner) {
    && Held(db, r) && db.refs[r].owner == owner && db.refs[r].purpose == ProcessIo
    && Live(db, db.refs[r].obj) && db.rows[db.refs[r].obj].At() == stat.At() && db.rows[db.refs[r].obj].size == stat.size
  }

  lemma CataloguedIsOwned(db: Db, now: Time, grace: int, stat: Stat, owner: Owner, u: Uuid, r: Uuid)
    requires LedgerInv(db, now, grace) && stat.size == |stat.digest.preimage| && u !in db.rows && r !in db.refs
    ensures var db' := CatalogTx(db, now, stat, Some(owner), u, r);
      LedgerInv(db', now, grace) && Owns(db', r, stat, owner) && OnlyAdds(db, db', u, r)
  {
    hide OneLiveRow, RowsSound, RefsSound, ProofsMatchTombstones, GraceHonoured, Grows, CatalogTx, Owns, OnlyAdds;
    CatalogGrows(db, now, grace, stat, Some(owner), u, r);
    GrowthKeepsLedger(db, CatalogTx(db, now, stat, Some(owner), u, r), now, grace);
    WithRowGrows(db, now, grace, stat, u);
    WithRowAdds(db, now, grace, stat, u);
    CatalogShape(db, now, stat, owner, u, r);
  }

  /** Nothing that was there changes. */
  ghost predicate OnlyAdds(db: Db, db': Db, u: Uuid, r: Uuid) {
    && db'.rows.Keys <= db.rows.Keys + {u} && db'.refs.Keys == db.refs.Keys + {r}
    && (forall q | q in db.refs :: q in db'.refs && db'.refs[q] == db.refs[q])
    && (forall v | v in db.rows :: v in db'.rows && db'.rows[v] == db.rows[v])
  }

  lemma WithRowAdds(db: Db, now: Time, grace: int, stat: Stat, u: Uuid)
    requires OneLiveRow(db) && RowsSound(db, now) && stat.size == |stat.digest.preimage| && u !in db.rows
    ensures var db' := WithRow(db, now, stat, u);
      && db'.rows.Keys <= db.rows.Keys + {u} && db'.refs == db.refs
      && (forall v | v in db.rows :: v in db'.rows && db'.rows[v] == db.rows[v])
      && RowFor(db, stat, u) in db'.rows && db'.rows[RowFor(db, stat, u)].size == stat.size
  {
  }

  lemma CatalogShape(db: Db, now: Time, stat: Stat, owner: Owner, u: Uuid, r: Uuid)
    requires u !in db.rows && r !in db.refs
    requires var db1 := WithRow(db, now, stat, u);
      && Live(db1, RowFor(db, stat, u)) && db1.rows[RowFor(db, stat, u)].At() == stat.At() && db1.rows[RowFor(db, stat, u)].size == stat.size
      && db1.rows.Keys <= db.rows.Keys + {u} && db1.refs == db.refs
      && (forall v | v in db.rows :: v in db1.rows && db1.rows[v] == db.rows[v])
    ensures var db' := CatalogTx(db, now, stat, Some(owner), u, r);
      Owns(db', r, stat, owner) && OnlyAdds(db, db', u, r)
  {
    hide WithRow, RowFor;
  }

  /** A committed outcome leaves both its manifests referenced by the process on live rows, one row when
      they are the same bytes, and the ledger as sound as it was. */
  lemma CommitReferencesBoth(db: Db, now: Time, grace: int, p: PendingCommit, ids: CommitIds)
    requires LedgerInv(db, now, grace) && FreshIds(db, ids)
    requires p.output.size == |p.output.digest.preimage| && p.proof.size == |p.proof.digest.preimage|
    ensures var db' := CommitTx(db, now, p, ids);
      && LedgerInv(db', now, grace)
      && Owns(db', ids.outputRef, p.output, OtherOwner("process_output", p.command.process))
      && Owns(db', ids.proofRef, p.proof, OtherOwner("process_proof", p.command.process))
      && (p.output.At() == p.proof.At() ==> db'.refs[ids.outputRef].obj == db'.refs[ids.proofRef].obj)
  {
    var output := OtherOwner("process_output", p.command.process);
    var proof := OtherOwner("process_proof", p.command.process);
    CataloguedIsOwned(db, now, grace, p.output, output, ids.outputRow, ids.outputRef);
    var db1 := CatalogTx(db, now, p.output, Some(output), ids.outputRow, ids.outputRef);
    CataloguedIsOwned(db1, now, grace, p.proof, proof, ids.proofRow, ids.proofRef);
    LiveRowsAgree(CommitTx(db, now, p, ids), now, grace);
    hide LedgerInv, CatalogTx;
  }

  lemma LiveRowsAgree(db: Db, now: Time, grace: int)
    requires LedgerInv(db, now, grace)
    ensures forall u, v | Live(db, u) && Live(db, v) && db.rows[u].At() == db.rows[v].At() :: u == v
  {
  }
}
