// What an accepted audit table proves about the past (src/routes/audit.rs,
// src/services/audit_integrity.rs): equal hashes mean equal histories, so a signed
// checkpoint fixes every row up to the one it names.
module AuditTamper {
  import opened Base
  import opened CanonicalJson
  import opened AuditIntegrity
  import opened AuditVerify

  ghost function StreamsOf(rows: seq<Row>): (r: set<string>) {
    set i | 0 <= i < |rows| :: DigestStream(DigestOf(rows[i]))
  }

  // The hash has not collided on any two of these texts.
  ghost predicate NoCollision(sha: Sha, texts: set<string>) {
    forall x, y | x in texts && y in texts :: sha(x) == sha(y) ==> x == y
  }

  // The same event: every stored field, the details up to what they mean.
  ghost predicate SameFacts(r: Row, q: Row) {
    && r.chainId == q.chainId && r.seqNo == q.seqNo
    && r.previousHash == q.previousHash && r.eventHash == q.eventHash
    && r.action == q.action && r.category == q.category && r.status == q.status
    && r.actorIdentityId == q.actorIdentityId
    && r.ipAddress == q.ipAddress && r.userAgent == q.userAgent
    && MeaningOf(r.details) == MeaningOf(q.details)
    && r.timestamp == q.timestamp
  }

  // Both tables have a row number n of the chain, and it is the same event.
  ghost predicate AgreeAt(rows: seq<Row>, rows': seq<Row>, chain: string, n: int) {
    exists i, j | 0 <= i < |rows| && 0 <= j < |rows'| ::
      SameFacts(rows[i], rows'[j]) && rows[i].chainId == chain && rows[i].seqNo == n
  }

  lemma SameHashSameFacts(sha: Sha, rows: seq<Row>, rows': seq<Row>, i: nat, j: nat)
    requires i < |rows| && j < |rows'|
    requires HashHolds(sha, rows[i]) && HashHolds(sha, rows'[j])
    requires WellFormed(rows[i].details) && WellFormed(rows'[j].details)
    requires NoCollision(sha, StreamsOf(rows) + StreamsOf(rows'))
    requires rows[i].eventHash == rows'[j].eventHash
    ensures SameFacts(rows[i], rows'[j])
  {
    var d, e := DigestOf(rows[i]), DigestOf(rows'[j]);
    assert DigestStream(d) in StreamsOf(rows) && DigestStream(e) in StreamsOf(rows');
    HashDeterminesEvent(sha, d, e);
    CanonicalIsMeaning(rows[i].details, rows'[j].details);
  }

  lemma SoundRow(sha: Sha, rows: seq<Row>, i: nat)
    requires TableSound(sha, rows) && i < |rows|
    ensures RowLinked(rows, rows[i]) && HashHolds(sha, rows[i])
  {
    hide ChainsLinked, HashHolds;
    LinkedOf(rows, i);
  }

  // Two accepted tables that carry the same hash anywhere agree on that row and on every
  // row before it in its chain.
  lemma {:induction false} SameHashSameHistory(sha: Sha, rows: seq<Row>, rows': seq<Row>, i: nat, j: nat, n: int)
    requires TableSound(sha, rows) && TableSound(sha, rows')
    requires DetailsWellFormed(rows) && DetailsWellFormed(rows')
    requires NoCollision(sha, StreamsOf(rows) + StreamsOf(rows'))
    requires i < |rows| && j < |rows'| && rows[i].eventHash == rows'[j].eventHash
    requires 1 <= n <= rows[i].seqNo
    ensures AgreeAt(rows, rows', rows[i].chainId, n)
    decreases rows[i].seqNo
  {
    hide TableSound, NoCollision, StreamsOf, HashHolds, DistinctPositions;
    SoundRow(sha, rows, i);
    SoundRow(sha, rows', j);
    SameHashSameFacts(sha, rows, rows', i, j);
    if n < rows[i].seqNo {
      var i' :| 0 <= i' < |rows| && Precedes(rows[i'], rows[i]);
      var j' :| 0 <= j' < |rows'| && Precedes(rows'[j'], rows'[j]);
      SameHashSameHistory(sha, rows, rows', i', j', n);
    }
  }

  // The key has only ever signed checkpoints of rows that really were in this table.
  ghost predicate SignedHonestly(signed: set<string>, original: seq<Row>) {
    forall msg | msg in signed :: exists cp: Checkpoint :: MessageOf(cp) == msg && Anchored(original, cp)
  }

  ghost predicate Unforgeable(scheme: Scheme, ownKey: string, signed: set<string>) {
    forall signature, msg :: scheme.verify(ownKey, signature, msg) ==> msg in signed
  }

  lemma AnchoredHeadHasNoBar(sha: Sha, rows: seq<Row>, cp: Checkpoint)
    requires TableSound(sha, rows) && Anchored(rows, cp)
    ensures '|' !in cp.headHash
  {
    var i :| 0 <= i < |rows| && rows[i].chainId == cp.chainId && rows[i].seqNo == cp.seqTo
      && rows[i].eventHash == cp.headHash;
    assert HashHolds(sha, rows[i]);
  }

  lemma CountedWasIssued(scheme: Scheme, ownKey: string, signed: set<string>, original: seq<Row>, cp: Checkpoint)
    requires Unforgeable(scheme, ownKey, signed) && SignedHonestly(signed, original)
    requires Counts(scheme, Some(ownKey), cp)
    ensures exists issued: Checkpoint :: MessageOf(issued) == MessageOf(cp) && Anchored(original, issued)
  {
    hide Anchored;
    assert MessageOf(cp) in signed;
  }

  lemma IssuedIsCounted(sha: Sha, original: seq<Row>, found: seq<Row>, issued: Checkpoint, cp: Checkpoint)
    requires TableSound(sha, original) && TableSound(sha, found)
    requires MessageOf(issued) == MessageOf(cp) && Anchored(original, issued) && Anchored(found, cp)
    ensures Anchored(original, cp)
  {
    hide TableSound;
    AnchoredHeadHasNoBar(sha, original, issued);
    AnchoredHeadHasNoBar(sha, found, cp);
    hide Holds;
    CheckpointMessageReadsBack(issued.chainId, issued.seqTo, issued.headHash, issued.createdAt,
                               cp.chainId, cp.seqTo, cp.headHash, cp.createdAt);
  }

  lemma BothAnchoredAgree(sha: Sha, original: seq<Row>, found: seq<Row>, cp: Checkpoint, n: int)
    requires TableSound(sha, original) && TableSound(sha, found)
    requires DetailsWellFormed(original) && DetailsWellFormed(found)
    requires NoCollision(sha, StreamsOf(original) + StreamsOf(found))
    requires Anchored(original, cp) && Anchored(found, cp) && 1 <= n <= cp.seqTo
    ensures AgreeAt(original, found, cp.chainId, n)
  {
    hide TableSound, DetailsWellFormed, NoCollision, StreamsOf, AgreeAt;
    var i :| 0 <= i < |original| && original[i].chainId == cp.chainId
      && original[i].seqNo == cp.seqTo && original[i].eventHash == cp.headHash;
    var j :| 0 <= j < |found| && found[j].chainId == cp.chainId
      && found[j].seqNo == cp.seqTo && found[j].eventHash == cp.headHash;
    SameHashSameHistory(sha, original, found, i, j, n);
  }

  // If the report on a table is `intact`, then up to every counted checkpoint that table
  // is the original: rewriting, dropping or inserting a row before it cannot go unnoticed.
  lemma SignedPrefixIsFixed(sha: Sha, scheme: Scheme, ownKey: string, signed: set<string>,
                            original: seq<Row>, found: seq<Row>, cps: seq<Checkpoint>, c: nat, n: int)
    requires TableSound(sha, original)
    requires DetailsWellFormed(original) && DetailsWellFormed(found)
    requires Unforgeable(scheme, ownKey, signed) && SignedHonestly(signed, original)
    requires NoCollision(sha, StreamsOf(original) + StreamsOf(found))
    requires Intact(sha, scheme, Some(ownKey), found, cps)
    requires c < |cps| && Counts(scheme, Some(ownKey), cps[c])
    requires 1 <= n <= cps[c].seqTo
    ensures AgreeAt(original, found, cps[c].chainId, n)
  {
    hide TableSound, DetailsWellFormed, NoCollision, StreamsOf, Unforgeable, SignedHonestly, Counts, Anchored,
         MessageOf, AgreeAt;
    var cp := cps[c];
    CountedWasIssued(scheme, ownKey, signed, original, cp);
    var issued: Checkpoint :| MessageOf(issued) == MessageOf(cp) && Anchored(original, issued);
    IssuedIsCounted(sha, original, found, issued, cp);
    BothAnchoredAgree(sha, original, found, cp, n);
  }
}
