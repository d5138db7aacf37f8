// The checkpoint task (issue_checkpoint in src/services/audit_integrity.rs) as it runs: it
// reads the head of its own chain, compares it with its last checkpoint, and signs it.
// Each call, taken by itself, is a run of the machine in AuditLog.
module CheckpointTask {
  import opened Base
  import opened AuditIntegrity
  import opened AuditVerify
  import opened AuditLog
  import opened Text
  import AuditWriter

  // The table audit_checkpoint with its unique index on (chain_id, seq_to).
  class CheckpointTable {
    var rows: map<Position, Checkpoint>

    method Create(cp: Checkpoint, fate: Fate) returns (ok: bool)
      modifies this
      ensures rows == if fate.NotExecuted? then old(rows) else AddCheckpoint(old(rows), cp)
      ensures ok <==> fate.Answered? && (cp.chainId, cp.seqTo) !in old(rows)
    {
      ok := false;
      if !fate.NotExecuted? && (cp.chainId, cp.seqTo) !in rows {
        rows := rows[(cp.chainId, cp.seqTo) := cp];
        ok := fate.Answered?;
      }
    }
  }

  lemma ReadRun(sha: Sha, scheme: Scheme, s: State, i: nat, chain: string, key: string, seqNo: nat)
    ensures Run(sha, scheme, s, [IssueRead(i, chain, key, seqNo)])
      == SetIssuer(s, i, AfterIssueRead(s.db, chain, key, seqNo))
  {
    hide AfterIssueRead;
    AuditWriter.RunNothing(sha, scheme, s);
    AuditWriter.RunOneMore(sha, scheme, s, [], IssueRead(i, chain, key, seqNo));
    assert [] + [IssueRead(i, chain, key, seqNo)] == [IssueRead(i, chain, key, seqNo)];
  }

  lemma CompareRun(sha: Sha, scheme: Scheme, s: State, actions: seq<Action>, i: nat, last: nat)
    requires i in Run(sha, scheme, s, actions).issuers
    ensures var now := Run(sha, scheme, s, actions);
      Run(sha, scheme, s, actions + [IssueCompare(i, last)])
        == SetIssuer(now, i, AfterCompare(now.checkpoints, now.issuers[i], last))
  {
    hide Run, AfterCompare;
    AuditWriter.RunOneMore(sha, scheme, s, actions, IssueCompare(i, last));
  }

  lemma CreateRun(sha: Sha, scheme: Scheme, s: State, actions: seq<Action>, i: nat, createdAt: int)
    requires i in Run(sha, scheme, s, actions).issuers && Run(sha, scheme, s, actions).issuers[i].Behind?
    ensures var now := Run(sha, scheme, s, actions);
      Run(sha, scheme, s, actions + [IssueCreate(i, createdAt)])
        == SetIssuer(now.(checkpoints := AddCheckpoint(now.checkpoints,
                                                       SignedCheckpoint(scheme, now.issuers[i], createdAt))), i, Idle)
  {
    hide Run, SignedCheckpoint, AddCheckpoint;
    AuditWriter.RunOneMore(sha, scheme, s, actions, IssueCreate(i, createdAt));
  }

  ghost predicate Beyond(checkpoints: map<Position, Checkpoint>, chain: string, n: nat) {
    forall p | p in checkpoints && p.0 == chain :: p.1 < n
  }

  // The chain has a row with a hash, and its last one is not covered yet.
  ghost predicate Due(db: map<Position, Stored>, checkpoints: map<Position, Checkpoint>, chain: string) {
    exists n: nat :: n > 0 && IsHead(db, chain, n) && HeadHash(db, chain, n) != "" && Beyond(checkpoints, chain, n)
  }

  // The chain has a row with a hash.
  ghost predicate HasHead(db: map<Position, Stored>, chain: string) {
    exists n: nat :: n > 0 && IsHead(db, chain, n) && HeadHash(db, chain, n) != ""
  }

  lemma HeadDecides(db: map<Position, Stored>, checkpoints: map<Position, Checkpoint>, chain: string, n: nat)
    requires IsHead(db, chain, n)
    ensures HasHead(db, chain) <==> n > 0 && HeadHash(db, chain, n) != ""
    ensures Due(db, checkpoints, chain) <==> HasHead(db, chain) && Beyond(checkpoints, chain, n)
  {
    forall k: nat | k > 0 && IsHead(db, chain, k) ensures k == n {
      assert (chain, k) in db;
    }
  }

  lemma LastDecides(checkpoints: map<Position, Checkpoint>, chain: string, last: nat, n: nat)
    requires IsHead(checkpoints, chain, last) && n > 0
    ensures Beyond(checkpoints, chain, n) <==> n > last
  {
  }

  // The position signed; or there is nothing to sign; or an error.
  datatype Issued = Signed(seqTo: nat) | NothingNew | Failed

  // Names this row and its hash, and is signed by this key over just that.
  ghost predicate IsSignatureOf(scheme: Scheme, key: string, cp: Checkpoint, chain: string, seqNo: int, hash: string,
                                createdAt: int) {
    && cp.chainId == chain && cp.seqTo == seqNo && cp.headHash == hash && cp.createdAt == createdAt
    && cp.publicKey == scheme.publicKey(key)
    && cp.signature == scheme.sign(key, "soulauth-audit-checkpoint/v1|" + chain + "|" + IntText(seqNo) + "|" + hash
                                        + "|" + IntText(createdAt))
  }

  ghost predicate IsOutcome(scheme: Scheme, key: string, db: map<Position, Stored>,
                            before: map<Position, Checkpoint>, after: map<Position, Checkpoint>, chain: string,
                            createdAt: int, headReadable: bool, lastReadable: bool, fate: Fate, issued: Issued) {
    var due := headReadable && lastReadable && Due(db, before, chain);
    && (issued.Signed? <==> due && fate.Answered?)
    && (issued.Failed? <==> !headReadable || (HasHead(db, chain) && !lastReadable) || (due && !fate.Answered?))
    && (!due || fate.NotExecuted? ==> after == before)
    && (due && !fate.NotExecuted? ==> exists n: nat :: SignedAt(scheme, key, db, before, after, chain, n, createdAt)
                                                       && (issued.Signed? ==> issued.seqTo == n))
  }

  // Row n is the last of the chain, beyond every checkpoint, and there is a checkpoint for it
  // now.
  ghost predicate SignedAt(scheme: Scheme, key: string, db: map<Position, Stored>,
                           before: map<Position, Checkpoint>, after: map<Position, Checkpoint>, chain: string, n: nat,
                           createdAt: int) {
    && n > 0 && IsHead(db, chain, n) && Beyond(before, chain, n)
    && (chain, n) in db && (chain, n) in after && after == before[(chain, n) := after[(chain, n)]]
    && IsSignatureOf(scheme, key, after[(chain, n)], chain, n, db[(chain, n)].row.eventHash, createdAt)
  }

  lemma SignedIsSignature(scheme: Scheme, issuer: Issuer, createdAt: int)
    requires issuer.Behind?
    ensures IsSignatureOf(scheme, issuer.key, SignedCheckpoint(scheme, issuer, createdAt), issuer.chain, issuer.seqNo,
                          issuer.hash, createdAt)
  {
    assert DOMAIN + "|" == "soulauth-audit-checkpoint/v1|";
  }

  method IssueCheckpoint(scheme: Scheme, key: string, activity: AuditWriter.ActivityTable, table: CheckpointTable,
                         chain: string, createdAt: int, headReadable: bool, lastReadable: bool, fate: Fate,
                         ghost sha: Sha, ghost s: State, ghost i: nat)
    returns (issued: Issued, ghost actions: seq<Action>)
    requires s.db == activity.rows && s.checkpoints == table.rows
    requires (forall p | p in activity.rows :: p.1 >= 1) && forall p | p in table.rows :: p.1 >= 1
    modifies table
    ensures var s' := Run(sha, scheme, s, actions); s'.db == activity.rows && s'.checkpoints == table.rows
    // Signed is the head of the chain, and only if it is beyond every earlier checkpoint. The
    // checkpoint is stored unless the insert is not executed; the caller knows of it only if
    // it is also answered.
    ensures IsOutcome(scheme, key, activity.rows, old(table.rows), table.rows, chain, createdAt, headReadable,
                      lastReadable, fate, issued)
  {
    hide Run, SignedCheckpoint, IsSignatureOf, HasHead, Due;
    actions := [];
    AuditWriter.RunNothing(sha, scheme, s);
    if !headReadable {
      return Failed, actions;
    }
    var seqTo := AuditWriter.LastOfChain(activity.rows, chain);
    HeadDecides(activity.rows, table.rows, chain, seqTo);
    var headHash := "";
    if (chain, seqTo) in activity.rows {
      headHash := activity.rows[(chain, seqTo)].row.eventHash;
    }
    assert seqTo > 0 ==> (chain, seqTo) in activity.rows && headHash == HeadHash(activity.rows, chain, seqTo);
    hide IsHead, Beyond, HeadHash;
    if seqTo == 0 || headHash == "" {
      return NothingNew, actions;
    }
    actions := [IssueRead(i, chain, key, seqTo)];
    ReadRun(sha, scheme, s, i, chain, key, seqTo);
    if !lastReadable {
      return Failed, actions;
    }
    var last := AuditWriter.LastOfChain(table.rows, chain);
    LastDecides(table.rows, chain, last, seqTo);
    CompareRun(sha, scheme, s, actions, i, last);
    actions := actions + [IssueCompare(i, last)];
    if seqTo <= last {
      return NothingNew, actions;
    }
    ghost var now := Run(sha, scheme, s, actions);
    var issuer := Behind(chain, key, seqTo, headHash);
    assert now.issuers[i] == issuer;
    SignedPosition(scheme, issuer, createdAt);
    SignedIsSignature(scheme, issuer, createdAt);
    if !fate.NotExecuted? {
      CreateRun(sha, scheme, s, actions, i, createdAt);
      actions := actions + [IssueCreate(i, createdAt)];
    }
    var ok := table.Create(SignedCheckpoint(scheme, issuer, createdAt), fate);
    assert !fate.NotExecuted? ==>
        SignedAt(scheme, key, activity.rows, old(table.rows), table.rows, chain, seqTo, createdAt);
    issued := if ok then Signed(seqTo) else Failed;
  }

  lemma SignedPosition(scheme: Scheme, issuer: Issuer, createdAt: int)
    requires issuer.Behind?
    ensures var cp := SignedCheckpoint(scheme, issuer, createdAt);
      cp.chainId == issuer.chain && cp.seqTo == issuer.seqNo
  {
  }
}
