// The integrity report (src/routes/audit.rs, verify_integrity): one pass over the event
// rows, then one pass over the checkpoints.
module AuditVerify {
  import opened Base
  import opened Text
  import opened Lex
  import opened CanonicalJson
  import opened AuditIntegrity

  // A row of user_activity as the scan projects it. Missing text columns read as "",
  // missing numbers as 0.
  datatype Row = Row(
    chainId: string,
    seqNo: int,
    previousHash: string,
    eventHash: string,
    action: string,
    category: string,
    status: string,
    actorIdentityId: string,
    ipAddress: string,
    userAgent: string,
    details: Json,
    timestamp: int)

  function DigestOf(r: Row): (result: DigestInput) {
    DigestInput(r.chainId, r.seqNo, r.previousHash, r.action, r.category, r.status,
                r.actorIdentityId, r.ipAddress, r.userAgent, Canonical(r.details), r.timestamp)
  }

  ghost predicate DetailsWellFormed(rows: seq<Row>) {
    forall i | 0 <= i < |rows| :: WellFormed(rows[i].details)
  }

  // ORDER BY chain_id ASC, seq ASC. Nothing else is known of the rows: they may have been
  // written by anyone.
  ghost predicate Ordered(rows: seq<Row>) {
    forall i, j | 0 <= i < j < |rows| :: InOrder(rows[i], rows[j])
  }

  predicate InOrder(a: Row, b: Row) {
    Less(a.chainId, b.chainId) || (a.chainId == b.chainId && a.seqNo <= b.seqNo)
  }

  // ---------------------------------------------------------------------------
  // What a sound table is, said without any order of its rows.

  ghost predicate SameKey(a: Row, b: Row) {
    a.chainId == b.chainId && a.seqNo == b.seqNo
  }

  ghost predicate Precedes(a: Row, b: Row) {
    a.chainId == b.chainId && a.seqNo == b.seqNo - 1 && a.eventHash == b.previousHash
  }

  ghost predicate DistinctPositions(rows: seq<Row>) {
    forall i, j | 0 <= i < j < |rows| :: !SameKey(rows[i], rows[j])
  }

  ghost predicate RowLinked(rows: seq<Row>, r: Row) {
    && r.seqNo >= 1
    && (r.seqNo == 1 ==> r.previousHash == GENESIS_HASH)
    && (r.seqNo > 1 ==> exists j | 0 <= j < |rows| :: Precedes(rows[j], r))
  }

  predicate HashHolds(sha: Sha, r: Row) {
    r.eventHash == EventHash(sha, DigestOf(r))
  }

  ghost predicate ChainsLinked(rows: seq<Row>) {
    DistinctPositions(rows) && forall i | 0 <= i < |rows| :: RowLinked(rows, rows[i])
  }

  // Every chain is numbered 1, 2, ..., k, each row links to the one before it, the first
  // to genesis, and every row's hash is the hash of its contents.
  ghost predicate TableSound(sha: Sha, rows: seq<Row>) {
    && ChainsLinked(rows)
    && forall i | 0 <= i < |rows| :: HashHolds(sha, rows[i])
  }

  // ---------------------------------------------------------------------------
  // What the scan looks at: each row and the one just before it.

  datatype Reason = MissingSeq | PreviousHash | EventHashMismatch | CheckpointAnchor

  predicate StartsChain(rows: seq<Row>, i: nat)
    requires i < |rows|
  {
    i == 0 || rows[i - 1].chainId != rows[i].chainId
  }

  function RowFault(sha: Sha, rows: seq<Row>, i: nat): (r: Option<Reason>)
    requires i < |rows|
  {
    if rows[i].seqNo != (if StartsChain(rows, i) then 1 else rows[i - 1].seqNo + 1) then
      Some(MissingSeq)
    else if rows[i].previousHash !=
        (if StartsChain(rows, i) then GENESIS_HASH else rows[i - 1].eventHash) then
      Some(PreviousHash)
    else if !HashHolds(sha, rows[i]) then
      Some(EventHashMismatch)
    else
      None
  }

  ghost predicate NoFaultBefore(sha: Sha, rows: seq<Row>, n: nat)
    requires n <= |rows|
  {
    forall i: nat | i < n :: RowFault(sha, rows, i) == None
  }

  // In ordered rows everything between two rows of a chain belongs to that chain.
  lemma ChainsAreContiguous(rows: seq<Row>, i: nat, k: nat, j: nat)
    requires Ordered(rows) && i <= k <= j < |rows|
    requires rows[i].chainId == rows[j].chainId
    ensures rows[k].chainId == rows[i].chainId
  {
    if i < k < j {
      assert InOrder(rows[i], rows[k]) && InOrder(rows[k], rows[j]);
      if rows[k].chainId != rows[i].chainId {
        LessIsAsymmetric(rows[i].chainId, rows[k].chainId);
      }
    }
  }

  // Before the first fault, the rows of a chain are consecutive numbers.
  lemma {:induction false} PrefixIsNumbered(sha: Sha, rows: seq<Row>, n: nat, i: nat, j: nat)
    requires Ordered(rows) && n <= |rows| && NoFaultBefore(sha, rows, n)
    requires i <= j < n && rows[i].chainId == rows[j].chainId
    ensures rows[j].seqNo == rows[i].seqNo + (j - i)
    decreases j - i
  {
    if i < j {
      ChainsAreContiguous(rows, i, j - 1, j);
      PrefixIsNumbered(sha, rows, n, i, j - 1);
      assert RowFault(sha, rows, j) == None;
    }
  }

  lemma PrefixHasDistinctPositions(sha: Sha, rows: seq<Row>, n: nat)
    requires Ordered(rows) && n <= |rows| && NoFaultBefore(sha, rows, n)
    ensures DistinctPositions(rows[..n])
  {
    forall i, j | 0 <= i < j < n ensures !SameKey(rows[i], rows[j]) {
      if rows[i].chainId == rows[j].chainId {
        PrefixIsNumbered(sha, rows, n, i, j);
      }
    }
  }

  lemma {:induction false} PrefixIsPositive(sha: Sha, rows: seq<Row>, n: nat, i: nat)
    requires n <= |rows| && NoFaultBefore(sha, rows, n) && i < n
    ensures rows[i].seqNo >= 1
  {
    assert RowFault(sha, rows, i) == None;
    if !StartsChain(rows, i) {
      PrefixIsPositive(sha, rows, n, i - 1);
    }
  }

  lemma NoFaultIsSound(sha: Sha, rows: seq<Row>)
    requires Ordered(rows) && NoFaultBefore(sha, rows, |rows|)
    ensures TableSound(sha, rows)
  {
    PrefixHasDistinctPositions(sha, rows, |rows|);
    assert rows[..|rows|] == rows;
    forall i | 0 <= i < |rows| ensures RowLinked(rows, rows[i]) && HashHolds(sha, rows[i]) {
      assert RowFault(sha, rows, i) == None;
      PrefixIsPositive(sha, rows, |rows|, i);
      if rows[i].seqNo > 1 {
        assert Precedes(rows[i - 1], rows[i]);
      } else if !StartsChain(rows, i) {
        PrefixIsPositive(sha, rows, |rows|, i - 1);
      }
    }
  }

  // The predecessor of a row in a sound, ordered table stands before it.
  lemma PredecessorStandsBefore(rows: seq<Row>, j: nat, i: nat)
    requires Ordered(rows) && i < |rows| && j < |rows| && Precedes(rows[j], rows[i])
    ensures j < i
  {
    if j > i {
      assert InOrder(rows[i], rows[j]);
      LessIsIrreflexive(rows[i].chainId);
    }
  }

  lemma NumbersIncrease(rows: seq<Row>, i: nat, j: nat)
    requires Ordered(rows) && DistinctPositions(rows)
    requires i < j < |rows| && rows[i].chainId == rows[j].chainId
    ensures rows[i].seqNo < rows[j].seqNo
  {
    assert InOrder(rows[i], rows[j]) && !SameKey(rows[i], rows[j]);
    LessIsIrreflexive(rows[i].chainId);
  }

  // A later row of a chain has its predecessor immediately before it.
  lemma PredecessorIsAdjacent(rows: seq<Row>, j: nat, i: nat)
    requires Ordered(rows) && DistinctPositions(rows)
    requires i < |rows| && j < |rows| && Precedes(rows[j], rows[i])
    ensures j == i - 1
  {
    PredecessorStandsBefore(rows, j, i);
    ChainsAreContiguous(rows, j, i - 1, i);
    if j < i - 1 {
      NumbersIncrease(rows, j, i - 1);
      NumbersIncrease(rows, i - 1, i);
    }
  }

  lemma LinkedOf(rows: seq<Row>, i: nat)
    requires ChainsLinked(rows) && i < |rows|
    ensures RowLinked(rows, rows[i]) && DistinctPositions(rows)
  {
    hide RowLinked, DistinctPositions;
  }

  lemma LaterRowFollows(rows: seq<Row>, i: nat)
    requires Ordered(rows) && ChainsLinked(rows) && i < |rows| && rows[i].seqNo > 1
    ensures i > 0 && Precedes(rows[i - 1], rows[i])
  {
    hide Ordered, DistinctPositions, ChainsLinked;
    LinkedOf(rows, i);
    var j :| 0 <= j < |rows| && Precedes(rows[j], rows[i]);
    PredecessorIsAdjacent(rows, j, i);
  }

  lemma FirstRowStarts(rows: seq<Row>, i: nat)
    requires Ordered(rows) && ChainsLinked(rows) && i < |rows| && rows[i].seqNo <= 1
    ensures rows[i].seqNo == 1 && rows[i].previousHash == GENESIS_HASH && StartsChain(rows, i)
  {
    hide Ordered, DistinctPositions, ChainsLinked;
    LinkedOf(rows, i);
    if !StartsChain(rows, i) {
      LinkedOf(rows, i - 1);
      NumbersIncrease(rows, i - 1, i);
    }
  }

  lemma LinkedToRowBefore(rows: seq<Row>, i: nat)
    requires Ordered(rows) && ChainsLinked(rows) && i < |rows|
    ensures rows[i].seqNo == if StartsChain(rows, i) then 1 else rows[i - 1].seqNo + 1
    ensures rows[i].previousHash == if StartsChain(rows, i) then GENESIS_HASH else rows[i - 1].eventHash
  {
    hide Ordered, ChainsLinked;
    if rows[i].seqNo > 1 {
      LaterRowFollows(rows, i);
    } else {
      FirstRowStarts(rows, i);
    }
  }

  lemma SoundHasNoFault(sha: Sha, rows: seq<Row>, i: nat)
    requires Ordered(rows) && TableSound(sha, rows) && i < |rows|
    ensures RowFault(sha, rows, i) == None
  {
    hide Ordered, ChainsLinked, HashHolds;
    LinkedToRowBefore(rows, i);
    assert HashHolds(sha, rows[i]);
  }

  // The scan is an exact test of soundness.
  lemma ScanIsExact(sha: Sha, rows: seq<Row>)
    requires Ordered(rows)
    ensures NoFaultBefore(sha, rows, |rows|) <==> TableSound(sha, rows)
  {
    if NoFaultBefore(sha, rows, |rows|) {
      NoFaultIsSound(sha, rows);
    }
    if TableSound(sha, rows) {
      forall i: nat | i < |rows| ensures RowFault(sha, rows, i) == None {
        SoundHasNoFault(sha, rows, i);
      }
    }
  }

  lemma FaultsOfPrefix(sha: Sha, rows: seq<Row>, n: nat)
    requires n <= |rows|
    ensures forall i: nat | i < n :: RowFault(sha, rows[..n], i) == RowFault(sha, rows, i)
  {
    forall i: nat | i < n ensures RowFault(sha, rows[..n], i) == RowFault(sha, rows, i) {
      var p := rows[..n];
      assert p[i] == rows[i] && (i > 0 ==> p[i - 1] == rows[i - 1]);
    }
  }

  // The row it stops at is the first whose prefix is not sound.
  lemma FirstFaultIsFirstUnsoundPrefix(sha: Sha, rows: seq<Row>, n: nat)
    requires Ordered(rows) && n < |rows|
    requires NoFaultBefore(sha, rows, n) && RowFault(sha, rows, n) != None
    ensures TableSound(sha, rows[..n]) && !TableSound(sha, rows[..n + 1])
  {
    FaultsOfPrefix(sha, rows, n);
    FaultsOfPrefix(sha, rows, n + 1);
    ScanIsExact(sha, rows[..n]);
    ScanIsExact(sha, rows[..n + 1]);
  }

  // A number is missing, in terms of the whole table: the row repeats a position, or no row
  // before it has the number before its own.
  lemma MissingSeqMeans(sha: Sha, rows: seq<Row>, n: nat)
    requires Ordered(rows) && n < |rows| && NoFaultBefore(sha, rows, n)
    ensures RowFault(sha, rows, n) == Some(MissingSeq)
      <==> (exists j :: 0 <= j < n && SameKey(rows[j], rows[n]))
           || (rows[n].seqNo != 1
               && !exists j :: 0 <= j < n && rows[j].chainId == rows[n].chainId && rows[j].seqNo == rows[n].seqNo - 1)
  {
    hide EventHash, DigestOf;
    forall j | 0 <= j < n && rows[j].chainId == rows[n].chainId
      ensures !StartsChain(rows, n) && rows[n - 1].seqNo == rows[j].seqNo + (n - 1 - j)
      ensures 1 <= rows[j].seqNo && rows[n - 1].seqNo <= rows[n].seqNo
    {
      ChainsAreContiguous(rows, j, n - 1, n);
      PrefixIsNumbered(sha, rows, n, j, n - 1);
      PrefixIsPositive(sha, rows, n, j);
      SameChainInOrder(rows, n);
    }
    if !StartsChain(rows, n) {
      assert rows[n - 1].chainId == rows[n].chainId;
    }
  }

  lemma SameChainInOrder(rows: seq<Row>, n: nat)
    requires Ordered(rows) && 0 < n < |rows| && rows[n - 1].chainId == rows[n].chainId
    ensures rows[n - 1].seqNo <= rows[n].seqNo
  {
    assert InOrder(rows[n - 1], rows[n]);
    LessIsIrreflexive(rows[n].chainId);
  }

  // ---------------------------------------------------------------------------
  // Checkpoints against the rows.

  ghost predicate Holds(rows: seq<Row>, chain: string, seqNo: int, hash: string) {
    exists i | 0 <= i < |rows| ::
      rows[i].chainId == chain && rows[i].seqNo == seqNo && rows[i].eventHash == hash
  }

  // The checkpoint names a row that is there, with the hash that is there.
  ghost predicate Anchored(rows: seq<Row>, cp: Checkpoint) {
    Holds(rows, cp.chainId, cp.seqTo, cp.headHash)
  }

  // Signed with this instance's own key, and the signature holds.
  predicate Counts(scheme: Scheme, ownKey: Option<string>, cp: Checkpoint) {
    ownKey == Some(cp.publicKey) && VerifyCheckpoint(scheme, cp)
  }

  // Of the first n checkpoints, every one that counts is anchored.
  ghost predicate AllAnchored(scheme: Scheme, ownKey: Option<string>, rows: seq<Row>, cps: seq<Checkpoint>, n: nat)
    requires n <= |cps|
  {
    forall c | 0 <= c < n :: Counts(scheme, ownKey, cps[c]) ==> Anchored(rows, cps[c])
  }

  ghost predicate Verified(scheme: Scheme, ownKey: Option<string>, rows: seq<Row>, cp: Checkpoint) {
    Counts(scheme, ownKey, cp) && Anchored(rows, cp)
  }

  ghost function VerifiedCount(scheme: Scheme, ownKey: Option<string>, rows: seq<Row>, cps: seq<Checkpoint>,
                               n: nat): (r: nat)
    requires n <= |cps|
  {
    if n == 0 then 0
    else
      (if Verified(scheme, ownKey, rows, cps[n - 1]) then 1 else 0)
      + VerifiedCount(scheme, ownKey, rows, cps, n - 1)
  }

  lemma {:induction false} SomeVerified(scheme: Scheme, ownKey: Option<string>, rows: seq<Row>,
                                         cps: seq<Checkpoint>, n: nat)
    requires n <= |cps|
    ensures VerifiedCount(scheme, ownKey, rows, cps, n) > 0
      <==> exists c | 0 <= c < n :: Verified(scheme, ownKey, rows, cps[c])
  {
    hide Verified;
    if n > 0 {
      SomeVerified(scheme, ownKey, rows, cps, n - 1);
    }
  }

  // The verdict the report is meant to give.
  ghost predicate Intact(sha: Sha, scheme: Scheme, ownKey: Option<string>, rows: seq<Row>, cps: seq<Checkpoint>) {
    && rows != []
    && TableSound(sha, rows)
    && AllAnchored(scheme, ownKey, rows, cps, |cps|)
    && exists c | 0 <= c < |cps| :: Counts(scheme, ownKey, cps[c])
  }

  // Chains begun among the first n rows. The walk starts out "inside" a chain named "",
  // so a chain of that name is not counted.
  ghost function ChainsBegun(rows: seq<Row>, n: nat): (r: nat)
    requires n <= |rows|
  {
    if n == 0 then 0 else ChainsBegun(rows, n - 1) + (if BeginsNamedChain(rows, n - 1) then 1 else 0)
  }

  predicate BeginsNamedChain(rows: seq<Row>, i: nat)
    requires i < |rows|
  {
    StartsChain(rows, i) && !(i == 0 && rows[0].chainId == "")
  }

  ghost function ChainIds(rows: seq<Row>, n: nat): (ids: set<string>)
    requires n <= |rows|
  {
    set i | 0 <= i < n :: rows[i].chainId
  }

  lemma ChainIdsGrow(rows: seq<Row>, n: nat)
    requires Ordered(rows) && n < |rows|
    ensures ChainIds(rows, n + 1) == ChainIds(rows, n) + {rows[n].chainId}
    ensures rows[n].chainId in ChainIds(rows, n) <==> !StartsChain(rows, n)
  {
    assert rows[n].chainId in ChainIds(rows, n + 1);
    if rows[n].chainId in ChainIds(rows, n) {
      var i :| 0 <= i < n && rows[i].chainId == rows[n].chainId;
      ChainsAreContiguous(rows, i, n - 1, n);
    }
    if !StartsChain(rows, n) {
      assert rows[n - 1].chainId in ChainIds(rows, n);
    }
  }

  lemma {:induction false} ChainsCounted(rows: seq<Row>, n: nat)
    requires Ordered(rows) && n <= |rows|
    ensures |ChainIds(rows, n)| == ChainsBegun(rows, n) + if n > 0 && rows[0].chainId == "" then 1 else 0
  {
    hide Ordered, ChainIds;
    if n == 0 {
      NoChains(rows);
    } else {
      ChainsCounted(rows, n - 1);
      ChainIdsGrow(rows, n - 1);
      OneMore(ChainIds(rows, n - 1), rows[n - 1].chainId);
      if n == 1 {
        NoChains(rows);
      }
    }
  }

  lemma OneMore(names: set<string>, name: string)
    ensures |names + {name}| == |names| + if name in names then 0 else 1
  {
    if name in names {
      assert names + {name} == names;
    }
  }

  lemma NoChains(rows: seq<Row>)
    ensures ChainIds(rows, 0) == {}
  {
  }

  // The report counts the chains it has read, if and only if none of them has the empty name.
  lemma ChainsBegunIsExactIff(rows: seq<Row>, n: nat)
    requires Ordered(rows) && n <= |rows|
    ensures ChainsBegun(rows, n) == |ChainIds(rows, n)| <==> "" !in ChainIds(rows, n)
  {
    ChainsCounted(rows, n);
    if "" in ChainIds(rows, n) {
      var i :| 0 <= i < n && rows[i].chainId == "";
      assert i > 0 ==> InOrder(rows[0], rows[i]);
    }
  }

  // A table of one row can already be miscounted.
  lemma UnnamedChainIsNotCounted(row: Row)
    requires row.chainId == ""
    ensures Ordered([row]) && ChainsBegun([row], 1) == 0 && |ChainIds([row], 1)| == 1
  {
    ChainsCounted([row], 1);
  }

  datatype Report = Report(
    intact: bool,
    checked: nat,
    unchained: nat,
    chains: nat,
    brokenChain: Option<string>,
    brokenAt: Option<int>,
    brokenReason: Option<Reason>,
    checkpoints: nat,
    checkpointsVerified: nat)

  // The map of anchors holds exactly the rows scanned so far.
  ghost predicate AnchorsMatch(anchors: map<(string, int), string>, rows: seq<Row>) {
    forall chain, seqNo, hash :: AnchorAgrees(anchors, rows, chain, seqNo, hash)
  }

  ghost predicate AnchorAgrees(anchors: map<(string, int), string>, rows: seq<Row>,
                               chain: string, seqNo: int, hash: string) {
    ((chain, seqNo) in anchors && anchors[(chain, seqNo)] == hash) <==> Holds(rows, chain, seqNo, hash)
  }

  lemma HoldsGrows(rows: seq<Row>, n: nat, chain: string, seqNo: int, hash: string)
    requires n < |rows|
    ensures Holds(rows[..n + 1], chain, seqNo, hash) <==>
        Holds(rows[..n], chain, seqNo, hash)
        || (rows[n].chainId == chain && rows[n].seqNo == seqNo && rows[n].eventHash == hash)
  {
    assert forall i | 0 <= i < n :: rows[..n + 1][i] == rows[..n][i];
    assert rows[..n + 1][n] == rows[n];
  }

  lemma AnchorsGrow(anchors: map<(string, int), string>, rows: seq<Row>, n: nat)
    requires n < |rows| && DistinctPositions(rows[..n + 1]) && AnchorsMatch(anchors, rows[..n])
    ensures AnchorsMatch(anchors[(rows[n].chainId, rows[n].seqNo) := rows[n].eventHash], rows[..n + 1])
  {
    var r := rows[n];
    var grown := anchors[(r.chainId, r.seqNo) := r.eventHash];
    var next := rows[..n + 1];
    forall chain, seqNo, hash ensures AnchorAgrees(grown, next, chain, seqNo, hash) {
      HoldsGrows(rows, n, chain, seqNo, hash);
      assert AnchorAgrees(anchors, rows[..n], chain, seqNo, hash);
      if (chain, seqNo) == (r.chainId, r.seqNo) {
        forall i | 0 <= i < n ensures !SameKey(rows[i], r) {
          assert !SameKey(rows[..n + 1][i], rows[..n + 1][n]);
        }
        assert !Holds(rows[..n], chain, seqNo, hash);
      }
    }
  }

  // The scan over the rows. It stops at the first fault.
  method ScanRows(sha: Sha, rows: seq<Row>)
    returns (good: nat, fault: Option<Reason>, checked: nat, chains: nat, anchors: map<(string, int), string>)
    requires Ordered(rows) && DetailsWellFormed(rows)
    ensures good <= |rows| && NoFaultBefore(sha, rows, good)
    ensures fault == (if good < |rows| then RowFault(sha, rows, good) else None)
    ensures fault == None <==> good == |rows|
    ensures checked == (if good < |rows| then good + 1 else good)
    ensures chains == ChainsBegun(rows, checked)
    ensures AnchorsMatch(anchors, rows[..good])
  {
    hide EventHash, Canonical, Ordered, WellFormed;
    var previousHash := GENESIS_HASH;
    var expectedSeq := 1;
    var currentChain := "";
    good, fault, checked, chains, anchors := 0, None, 0, 0, map[];
    while good < |rows|
      invariant good <= |rows| && checked == good && NoFaultBefore(sha, rows, good)
      invariant fault == None
      invariant currentChain == if good == 0 then "" else rows[good - 1].chainId
      invariant previousHash == if good == 0 then GENESIS_HASH else rows[good - 1].eventHash
      invariant expectedSeq == if good == 0 then 1 else rows[good - 1].seqNo + 1
      invariant chains == ChainsBegun(rows, good)
      invariant AnchorsMatch(anchors, rows[..good])
    {
      var row := rows[good];
      checked := checked + 1;
      if row.chainId != currentChain {
        currentChain := row.chainId;
        previousHash := GENESIS_HASH;
        expectedSeq := 1;
        chains := chains + 1;
      }
      if row.seqNo != expectedSeq {
        fault := Some(MissingSeq);
        break;
      }
      if row.previousHash != previousHash {
        fault := Some(PreviousHash);
        break;
      }
      var detailsJson := CanonicalText(row.details);
      var recomputed := ComputeEventHash(sha,
        DigestInput(row.chainId, row.seqNo, previousHash, row.action, row.category, row.status,
                    row.actorIdentityId, row.ipAddress, row.userAgent, detailsJson, row.timestamp));
      if recomputed != row.eventHash {
        fault := Some(EventHashMismatch);
        break;
      }
      assert RowFault(sha, rows, good) == None;
      PrefixHasDistinctPositions(sha, rows, good + 1);
      AnchorsGrow(anchors, rows, good);
      anchors := anchors[(row.chainId, row.seqNo) := row.eventHash];
      previousHash := row.eventHash;
      expectedSeq := row.seqNo + 1;
      good := good + 1;
    }
  }

  lemma AnchorLookup(anchors: map<(string, int), string>, rows: seq<Row>, cp: Checkpoint)
    requires AnchorsMatch(anchors, rows)
    ensures Anchored(rows, cp) <==>
      (cp.chainId, cp.seqTo) in anchors && anchors[(cp.chainId, cp.seqTo)] == cp.headHash
  {
    assert AnchorAgrees(anchors, rows, cp.chainId, cp.seqTo, cp.headHash);
  }

  // The pass over the checkpoints: how many are verified, and the first that counts but is
  // not anchored.
  method MatchCheckpoints(scheme: Scheme, ownKey: Option<string>, cps: seq<Checkpoint>,
                          anchors: map<(string, int), string>, ghost rows: seq<Row>)
    returns (verified: nat, stray: Option<nat>)
    requires AnchorsMatch(anchors, rows)
    ensures verified == VerifiedCount(scheme, ownKey, rows, cps, |cps|)
    ensures stray == None ==> AllAnchored(scheme, ownKey, rows, cps, |cps|)
    ensures stray.Some? ==> stray.value < |cps| && FirstStray(scheme, ownKey, rows, cps, stray.value)
  {
    hide AnchorsMatch, Anchored, VerifyCheckpoint;
    verified, stray := 0, None;
    for c := 0 to |cps|
      invariant verified == VerifiedCount(scheme, ownKey, rows, cps, c)
      invariant stray == None ==> AllAnchored(scheme, ownKey, rows, cps, c)
      invariant stray.Some? ==> stray.value < c && FirstStray(scheme, ownKey, rows, cps, stray.value)
    {
      var cp := cps[c];
      AnchorLookup(anchors, rows, cp);
      if Counts(scheme, ownKey, cp) {
        var key := (cp.chainId, cp.seqTo);
        if key in anchors && anchors[key] == cp.headHash {
          verified := verified + 1;
        } else if stray == None {
          stray := Some(c);
        }
      }
    }
  }

  ghost predicate FirstStray(scheme: Scheme, ownKey: Option<string>, rows: seq<Row>, cps: seq<Checkpoint>, c: nat)
    requires c < |cps|
  {
    && Counts(scheme, ownKey, cps[c])
    && !Anchored(rows, cps[c])
    && AllAnchored(scheme, ownKey, rows, cps, c)
  }

  method VerifyIntegrity(sha: Sha, scheme: Scheme, ownKey: Option<string>,
                         rows: seq<Row>, unchained: nat, cps: seq<Checkpoint>)
    returns (report: Report)
    requires Ordered(rows) && DetailsWellFormed(rows)
    // The verdict is exactly what it is meant to be.
    ensures report.intact <==> Intact(sha, scheme, ownKey, rows, cps)
    // No break is reported exactly when the table is sound and every checkpoint that
    // counts is anchored in it.
    ensures report.brokenAt == None
      <==> TableSound(sha, rows) && AllAnchored(scheme, ownKey, rows, cps, |cps|)
    ensures report.brokenAt == None ==> report.brokenChain == None && report.brokenReason == None
    // An unsound table is reported at its first bad row.
    ensures !TableSound(sha, rows) ==>
      && 0 < report.checked <= |rows| && BrokenAtRow(sha, rows, report.checked - 1, report)
      && report.checkpointsVerified == VerifiedCount(scheme, ownKey, rows[..report.checked - 1], cps, |cps|)
    // A sound table is read to its end; a break can then only be the first stray checkpoint.
    ensures TableSound(sha, rows) ==>
      && report.checked == |rows|
      && report.checkpointsVerified == VerifiedCount(scheme, ownKey, rows, cps, |cps|)
      && (report.brokenAt != None ==> exists c: nat | c < |cps| ::
            FirstStray(scheme, ownKey, rows, cps, c) && BrokenAtCheckpoint(cps[c], report))
    ensures report.checked <= |rows| && report.chains == ChainsBegun(rows, report.checked)
    ensures report.unchained == unchained && report.checkpoints == |cps|
  {
    hide TableSound, Counts, Anchored, VerifiedCount, RowFault, ReasonHolds, ChainsBegun, Ordered;
    var good, fault, checked, chains, anchors := ScanRows(sha, rows);
    ScanIsExact(sha, rows);
    if good < |rows| {
      FirstFaultIsFirstUnsoundPrefix(sha, rows, good);
      FaultIsReason(sha, rows, good);
    }
    assert rows[..|rows|] == rows;
    var brokenChain, brokenAt, brokenReason := None, None, None;
    if fault.Some? {
      brokenChain, brokenAt, brokenReason := Some(rows[good].chainId), Some(rows[good].seqNo), fault;
    }
    var verified, stray := MatchCheckpoints(scheme, ownKey, cps, anchors, rows[..good]);
    if stray.Some? && brokenAt == None {
      var cp := cps[stray.value];
      brokenChain, brokenAt, brokenReason := Some(cp.chainId), Some(cp.seqTo), Some(CheckpointAnchor);
    }
    SomeVerified(scheme, ownKey, rows[..good], cps, |cps|);
    var chainOk := brokenAt == None && checked > 0;
    report := Report(chainOk && verified > 0, checked, unchained, chains,
                     brokenChain, brokenAt, brokenReason, |cps|, verified);
  }

  ghost predicate BrokenAtRow(sha: Sha, rows: seq<Row>, n: nat, report: Report)
    requires n < |rows|
  {
    && TableSound(sha, rows[..n])
    && !TableSound(sha, rows[..n + 1])
    && report.brokenAt == Some(rows[n].seqNo)
    && report.brokenChain == Some(rows[n].chainId)
    && report.brokenReason.Some?
    && ReasonHolds(sha, rows, n, report.brokenReason.value)
  }

  // What each reason says of the row: its number is not the next one of its chain; or it is,
  // and it does not name the hash of the row before it; or it does, and its own hash is not
  // that of its contents.
  ghost predicate ReasonHolds(sha: Sha, rows: seq<Row>, n: nat, reason: Reason)
    requires n < |rows|
  {
    var first := n == 0 || rows[n - 1].chainId != rows[n].chainId;
    var numbered := rows[n].seqNo == if first then 1 else rows[n - 1].seqNo + 1;
    var linked := rows[n].previousHash == if first then GENESIS_HASH else rows[n - 1].eventHash;
    && (reason == MissingSeq <==> !numbered)
    && (reason == PreviousHash <==> numbered && !linked)
    && (reason == EventHashMismatch <==> numbered && linked && rows[n].eventHash != RecomputedHash(sha, rows[n]))
    && reason != CheckpointAnchor
  }

  // The hash of what is stored in the row.
  ghost function RecomputedHash(sha: Sha, r: Row): (hash: string) {
    EventHash(sha, DigestInput(r.chainId, r.seqNo, r.previousHash, r.action, r.category, r.status, r.actorIdentityId,
                               r.ipAddress, r.userAgent, Canonical(r.details), r.timestamp))
  }

  lemma FaultIsReason(sha: Sha, rows: seq<Row>, n: nat)
    requires n < |rows| && RowFault(sha, rows, n).Some?
    ensures ReasonHolds(sha, rows, n, RowFault(sha, rows, n).value)
  {
    hide EventHash, Canonical;
  }

  ghost predicate BrokenAtCheckpoint(cp: Checkpoint, report: Report) {
    && report.brokenAt == Some(cp.seqTo)
    && report.brokenChain == Some(cp.chainId)
    && report.brokenReason == Some(CheckpointAnchor)
  }
}
