// The two halves together: what the machine of writers and checkpoint tasks produces is
// what the argument about tampering needs, so an `intact` report on whatever is found in
// the database later speaks of what was really written.
module AuditEvidence {
  import opened Base
  import opened CanonicalJson
  import opened AuditIntegrity
  import opened AuditVerify
  import opened AuditTamper
  import opened AuditLog

  ghost predicate NamesStoredRow(db: map<Position, Stored>, cp: Checkpoint) {
    (cp.chainId, cp.seqTo) in db && db[(cp.chainId, cp.seqTo)].row.eventHash == cp.headHash
  }

  // Whatever a checkpoint task is about to sign, at any moment of any run, names a row that
  // is stored; and stored rows stay.
  lemma OnlyStoredRowsAreSigned(sha: Sha, scheme: Scheme, actions: seq<Action>, i: nat, createdAt: int,
                              later: seq<Action>)
    requires var s := Run(sha, scheme, START, actions); i in s.issuers && s.issuers[i].Behind?
    ensures var s := Run(sha, scheme, START, actions);
      NamesStoredRow(Run(sha, scheme, s, later).db, SignedCheckpoint(scheme, s.issuers[i], createdAt))
  {
    hide Run, Inv;
    var s := Run(sha, scheme, START, actions);
    StartIsOk(sha, scheme);
    RunKeepsInv(sha, scheme, START, actions);
    InvOfIssuer(Sealed(sha), scheme, s, i);
    RunKeepsRows(sha, scheme, s, later);
    assert (s.issuers[i].chain, s.issuers[i].seqNo as int) in s.db;
  }

  lemma StoredRowAnchors(db: map<Position, Stored>, rows: seq<Row>, cp: Checkpoint)
    requires IsListing(rows, db) && NamesStoredRow(db, cp)
    ensures Anchored(rows, cp)
  {
    hide Ordered, DetailsWellFormed, DistinctPositions;
    var i :| 0 <= i < |rows| && PositionOf(rows[i]) == (cp.chainId, cp.seqTo);
    assert ListsRow(rows[i], db);
  }

  // After any run of any number of writers and checkpoint tasks: if the own key has signed
  // nothing but what those tasks sign, and the report on the rows and checkpoints found
  // later is `intact`, then up to every checkpoint that counts, the rows found are the rows
  // that were written.
  lemma TamperingIsNoticed(sha: Sha, scheme: Scheme, ownKey: string, actions: seq<Action>, signed: set<string>,
                           written: seq<Row>, found: seq<Row>, cps: seq<Checkpoint>, c: nat, n: int)
    requires IsListing(written, Run(sha, scheme, START, actions).db)
    requires forall msg | msg in signed ::
      exists cp: Checkpoint :: MessageOf(cp) == msg && NamesStoredRow(Run(sha, scheme, START, actions).db, cp)
    requires Unforgeable(scheme, ownKey, signed)
    requires DetailsWellFormed(found) && NoCollision(sha, StreamsOf(written) + StreamsOf(found))
    requires Intact(sha, scheme, Some(ownKey), found, cps)
    requires c < |cps| && Counts(scheme, Some(ownKey), cps[c])
    requires 1 <= n <= cps[c].seqTo
    ensures AgreeAt(written, found, cps[c].chainId, n)
  {
    hide Run, TableSound, Intact, Counts, NoCollision, Unforgeable, AgreeAt, NamesStoredRow;
    HonestTableIsSound(sha, scheme, actions, written);
    var db := Run(sha, scheme, START, actions).db;
    forall msg | msg in signed ensures exists cp: Checkpoint :: MessageOf(cp) == msg && Anchored(written, cp) {
      var cp: Checkpoint :| MessageOf(cp) == msg && NamesStoredRow(db, cp);
      StoredRowAnchors(db, written, cp);
    }
    SignedPrefixIsFixed(sha, scheme, ownKey, signed, written, found, cps, c, n);
  }
}
