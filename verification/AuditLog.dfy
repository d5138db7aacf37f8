// The audit writers and the checkpoint task as one machine over two tables
// (src/services/audit_logger.rs, src/services/audit_integrity.rs).
//
// Any number of writers may share a chain. A write request, once sent, may be carried out
// at any later moment or never, and its answer may be lost. Processes restart at any time.
module AuditLog {
  import opened Base
  import opened CanonicalJson
  import opened AuditIntegrity
  import opened AuditVerify
  import opened AuditTamper

  const WRITE_ATTEMPTS := 3

  // A queued event. `id` tells events apart; it is not a column.
  datatype Event = Event(
    id: nat, action: string, category: string, status: string, actorKey: string,
    ipAddress: string, userAgent: string, details: Json)

  // A row together with the event it was written for.
  datatype Stored = Stored(row: Row, event: Event)

  datatype ChainHead = ChainHead(seqNo: nat, hash: string)

  datatype Pending = Pending(stored: Stored, attemptsLeft: nat)

  datatype Writer = Writer(chain: string, head: Option<ChainHead>, pending: Option<Pending>)

  datatype Issuer =
    | Idle
    | ReadHead(chain: string, key: string, seqNo: nat, hash: string)
    | Behind(chain: string, key: string, seqNo: nat, hash: string)

  type Position = (string, int)

  datatype State = State(
    db: map<Position, Stored>,
    checkpoints: map<Position, Checkpoint>,
    begun: set<Stored>,
    sent: set<Stored>,
    taken: set<nat>,
    writers: map<nat, Writer>,
    issuers: map<nat, Issuer>)

  datatype Action =
    | Restart(w: nat, chain: string)
    | LoadHead(w: nat, seqNo: nat)
    | LoadFails(event: Event)
    | Begin(w: nat, event: Event, timestamp: int)
    | Send(w: nat)
    | Commit(stored: Stored)
    | Acknowledge(w: nat)
    | GiveUp(w: nat)
    | IssueRead(i: nat, chain: string, key: string, seqNo: nat)
    | IssueCompare(i: nat, last: nat)
    | IssueCreate(i: nat, createdAt: int)

  const START := State(map[], map[], {}, {}, {}, map[], map[])

  // ORDER BY seq DESC LIMIT 1 over one chain; 0 stands for an empty chain.
  ghost predicate IsHead<T>(table: map<Position, T>, chain: string, seqNo: nat) {
    && (if seqNo == 0 then forall p | p in table :: p.0 != chain else (chain, seqNo) in table)
    && forall p | p in table && p.0 == chain :: p.1 <= seqNo
  }

  function PositionOf(r: Row): (result: Position) {
    (r.chainId, r.seqNo)
  }

  // The row an event becomes when it is placed after `head`.
  function LinkRow(sha: Sha, chain: string, head: ChainHead, e: Event, timestamp: int): (r: Row)
    ensures HashHolds(sha, r)
  {
    var unsealed := Row(chain, head.seqNo + 1, head.hash, "", e.action, e.category, e.status,
                        e.actorKey, e.ipAddress, e.userAgent, e.details, timestamp);
    unsealed.(eventHash := EventHash(sha, DigestOf(unsealed)))
  }

  function HeadHash(db: map<Position, Stored>, chain: string, seqNo: nat): (r: string) {
    if (chain, seqNo) in db then db[(chain, seqNo)].row.eventHash else GENESIS_HASH
  }

  function SetWriter(s: State, w: nat, writer: Writer): (r: State) {
    s.(writers := s.writers[w := writer])
  }

  function SetIssuer(s: State, i: nat, issuer: Issuer): (r: State) {
    s.(issuers := s.issuers[i := issuer])
  }

  // The chain head is read from the table when none is cached.
  ghost function AfterLoad(db: map<Position, Stored>, writer: Writer, seqNo: nat): (r: Writer) {
    if writer.head.None? && IsHead(db, writer.chain, seqNo) then
      writer.(head := Some(ChainHead(seqNo, HeadHash(db, writer.chain, seqNo))), pending := None)
    else writer
  }

  predicate CanBegin(s: State, w: nat, event: Event) {
    w in s.writers && s.writers[w].head.Some? && s.writers[w].pending.None?
    && event.id !in s.taken && WellFormed(event.details)
  }

  // The position is computed once; every attempt uses the same row.
  function BeginWrite(s: State, w: nat, stored: Stored): (r: State)
    requires w in s.writers
  {
    SetWriter(s.(taken := s.taken + {stored.event.id}, begun := s.begun + {stored}), w,
              s.writers[w].(pending := Some(Pending(stored, WRITE_ATTEMPTS))))
  }

  predicate CanSend(s: State, w: nat) {
    w in s.writers && s.writers[w].pending.Some? && s.writers[w].pending.value.attemptsLeft > 0
  }

  function SendAttempt(s: State, w: nat): (r: State)
    requires CanSend(s, w)
  {
    var p := s.writers[w].pending.value;
    SetWriter(s.(sent := s.sent + {p.stored}), w,
              s.writers[w].(pending := Some(Pending(p.stored, p.attemptsLeft - 1))))
  }

  // The unique index on (chain_id, seq) refuses a taken position.
  function AfterCommit(db: map<Position, Stored>, stored: Stored): (r: map<Position, Stored>) {
    if PositionOf(stored.row) in db then db else db[PositionOf(stored.row) := stored]
  }

  // The answer `Ok` reaches the writer: only if the row was written.
  function AfterAcknowledge(db: map<Position, Stored>, writer: Writer): (r: Writer) {
    if writer.pending.Some? && PositionOf(writer.pending.value.stored.row) in db
       && db[PositionOf(writer.pending.value.stored.row)] == writer.pending.value.stored
       && writer.pending.value.stored.row.seqNo >= 0 then
      var row := writer.pending.value.stored.row;
      writer.(head := Some(ChainHead(row.seqNo, row.eventHash)), pending := None)
    else writer
  }

  function AfterGiveUp(writer: Writer): (r: Writer) {
    if writer.pending.Some? && writer.pending.value.attemptsLeft == 0 then writer.(pending := None)
    else writer
  }

  ghost function AfterIssueRead(db: map<Position, Stored>, chain: string, key: string, seqNo: nat): (r: Issuer) {
    if seqNo > 0 && IsHead(db, chain, seqNo) && HeadHash(db, chain, seqNo) != "" then
      ReadHead(chain, key, seqNo, HeadHash(db, chain, seqNo))
    else Idle
  }

  // Nothing new on the chain since the last checkpoint: nothing to sign.
  ghost function AfterCompare(cps: map<Position, Checkpoint>, issuer: Issuer, last: nat): (r: Issuer) {
    if issuer.ReadHead? && IsHead(cps, issuer.chain, last) then
      if issuer.seqNo <= last then Idle else Behind(issuer.chain, issuer.key, issuer.seqNo, issuer.hash)
    else issuer
  }

  function SignedCheckpoint(scheme: Scheme, issuer: Issuer, createdAt: int): (r: Checkpoint)
    requires issuer.Behind?
  {
    Checkpoint(issuer.chain, issuer.seqNo, issuer.hash, createdAt, scheme.publicKey(issuer.key),
      scheme.sign(issuer.key, CheckpointMessage(issuer.chain, issuer.seqNo, issuer.hash, createdAt)))
  }

  // The table of checkpoints has a unique index on (chain_id, seq_to) too.
  function AddCheckpoint(cps: map<Position, Checkpoint>, cp: Checkpoint): (r: map<Position, Checkpoint>) {
    if (cp.chainId, cp.seqTo) in cps then cps else cps[(cp.chainId, cp.seqTo) := cp]
  }

  // One atomic step. An action that is not possible changes nothing.
  ghost function Step(sha: Sha, scheme: Scheme, s: State, a: Action): (r: State) {
    match a
    case Restart(w, chain) => SetWriter(s, w, Writer(chain, None, None))
    case LoadHead(w, seqNo) =>
      if w in s.writers then SetWriter(s, w, AfterLoad(s.db, s.writers[w], seqNo)) else s
    case LoadFails(event) => s.(taken := s.taken + {event.id})
    case Begin(w, event, timestamp) =>
      if CanBegin(s, w, event) then
        BeginWrite(s, w, Stored(
          LinkRow(sha, s.writers[w].chain, s.writers[w].head.value, event, timestamp), event))
      else s
    case Send(w) => if CanSend(s, w) then SendAttempt(s, w) else s
    case Commit(stored) => if stored in s.sent then s.(db := AfterCommit(s.db, stored)) else s
    case Acknowledge(w) =>
      if w in s.writers then SetWriter(s, w, AfterAcknowledge(s.db, s.writers[w])) else s
    case GiveUp(w) =>
      if w in s.writers then SetWriter(s, w, AfterGiveUp(s.writers[w])) else s
    case IssueRead(i, chain, key, seqNo) =>
      SetIssuer(s, i, AfterIssueRead(s.db, chain, key, seqNo))
    case IssueCompare(i, last) =>
      if i in s.issuers then SetIssuer(s, i, AfterCompare(s.checkpoints, s.issuers[i], last)) else s
    case IssueCreate(i, createdAt) =>
      if i in s.issuers && s.issuers[i].Behind? then
        SetIssuer(
          s.(checkpoints := AddCheckpoint(s.checkpoints, SignedCheckpoint(scheme, s.issuers[i], createdAt))),
          i, Idle)
      else s
  }

  ghost function Run(sha: Sha, scheme: Scheme, s: State, actions: seq<Action>): (r: State)
    decreases |actions|
  {
    if actions == [] then s else Run(sha, scheme, Step(sha, scheme, s, actions[0]), actions[1..])
  }

  // ---------------------------------------------------------------------------
  // The invariant.

  // Position `seqNo` of the chain is taken by a row with this hash; 0 is the start.
  ghost predicate HeadStored(db: map<Position, Stored>, chain: string, seqNo: int, hash: string) {
    if seqNo == 0 then hash == GENESIS_HASH
    else (chain, seqNo) in db && db[(chain, seqNo)].row.eventHash == hash
  }

  // The row follows a row that is already stored.
  ghost predicate LinksInto(db: map<Position, Stored>, r: Row) {
    r.seqNo >= 1 && HeadStored(db, r.chainId, r.seqNo - 1, r.previousHash)
  }

  // What every row in play satisfies by itself. Kept as a parameter in the proofs below,
  // which do not depend on what it says.
  ghost function Sealed(sha: Sha): (r: Row -> bool) {
    (r: Row) => HashHolds(sha, r) && WellFormed(r.details)
  }

  ghost predicate RowsInv(ok: Row -> bool, s: State) {
    && (forall st | st in s.begun :: LinksInto(s.db, st.row) && ok(st.row))
    && (forall p | p in s.db :: s.db[p] in s.begun && PositionOf(s.db[p].row) == p)
    && s.sent <= s.begun
  }

  ghost predicate EventsBegunOnce(s: State) {
    && (forall st | st in s.begun :: st.event.id in s.taken)
    && forall st, st' | st in s.begun && st' in s.begun :: st.event.id == st'.event.id ==> st == st'
  }

  ghost predicate WriterOk(db: map<Position, Stored>, begun: set<Stored>, w: Writer) {
    && (w.head.Some? ==> HeadStored(db, w.chain, w.head.value.seqNo, w.head.value.hash))
    && (w.pending.Some? ==>
          w.pending.value.stored in begun && w.pending.value.stored.row.chainId == w.chain
          && w.pending.value.stored.row.seqNo >= 1)
  }

  ghost predicate WritersInv(s: State) {
    forall w | w in s.writers :: WriterOk(s.db, s.begun, s.writers[w])
  }

  ghost predicate IssuerOk(db: map<Position, Stored>, i: Issuer) {
    i.Idle? || (i.seqNo > 0 && HeadStored(db, i.chain, i.seqNo, i.hash))
  }

  ghost predicate IssuersInv(s: State) {
    forall i | i in s.issuers :: IssuerOk(s.db, s.issuers[i])
  }

  ghost predicate SignedBy(scheme: Scheme, key: string, cp: Checkpoint) {
    cp.publicKey == scheme.publicKey(key) && cp.signature == scheme.sign(key, MessageOf(cp))
  }

  ghost predicate CheckpointOk(scheme: Scheme, db: map<Position, Stored>, p: Position, cp: Checkpoint) {
    && p == (cp.chainId, cp.seqTo)
    && p in db && db[p].row.eventHash == cp.headHash
    && exists key :: SignedBy(scheme, key, cp)
  }

  ghost predicate CheckpointsInv(scheme: Scheme, s: State) {
    forall p | p in s.checkpoints :: CheckpointOk(scheme, s.db, p, s.checkpoints[p])
  }

  ghost predicate Inv(ok: Row -> bool, scheme: Scheme, s: State) {
    RowsInv(ok, s) && EventsBegunOnce(s) && WritersInv(s) && IssuersInv(s) && CheckpointsInv(scheme, s)
  }

  // Stored rows are never changed or removed.
  ghost predicate Grows<T>(t: map<Position, T>, t': map<Position, T>) {
    forall p | p in t :: p in t' && t'[p] == t[p]
  }

  lemma SetWriterKeepsInv(ok: Row -> bool, scheme: Scheme, s: State, w: nat, writer: Writer)
    requires Inv(ok, scheme, s) && WriterOk(s.db, s.begun, writer)
    ensures Inv(ok, scheme, SetWriter(s, w, writer))
  {
    var s' := SetWriter(s, w, writer);
    forall v | v in s'.writers ensures WriterOk(s'.db, s'.begun, s'.writers[v]) {
      assert v != w ==> WriterOk(s.db, s.begun, s.writers[v]);
    }
    assert CheckpointsInv(scheme, s');
  }

  lemma SetIssuerKeepsInv(ok: Row -> bool, scheme: Scheme, s: State, i: nat, issuer: Issuer)
    requires Inv(ok, scheme, s) && IssuerOk(s.db, issuer)
    ensures Inv(ok, scheme, SetIssuer(s, i, issuer))
  {
    var s' := SetIssuer(s, i, issuer);
    forall j | j in s'.issuers ensures IssuerOk(s'.db, s'.issuers[j]) {
      assert j != i ==> IssuerOk(s.db, s.issuers[j]);
    }
    assert CheckpointsInv(scheme, s');
  }

  lemma BeginKeepsInv(ok: Row -> bool, scheme: Scheme, s: State, w: nat, stored: Stored)
    requires Inv(ok, scheme, s) && w in s.writers
    requires LinksInto(s.db, stored.row) && ok(stored.row)
    requires stored.event.id !in s.taken && stored.row.chainId == s.writers[w].chain
    ensures Inv(ok, scheme, BeginWrite(s, w, stored))
  {
    var s1 := s.(taken := s.taken + {stored.event.id}, begun := s.begun + {stored});
    forall v | v in s1.writers ensures WriterOk(s1.db, s1.begun, s1.writers[v]) {
      assert WriterOk(s.db, s.begun, s.writers[v]);
    }
    assert CheckpointsInv(scheme, s1) && IssuersInv(s1);
    assert Inv(ok, scheme, s1);
    SetWriterKeepsInv(ok, scheme, s1, w, s.writers[w].(pending := Some(Pending(stored, WRITE_ATTEMPTS))));
  }

  lemma SentKeepsInv(ok: Row -> bool, scheme: Scheme, s: State, stored: Stored)
    requires Inv(ok, scheme, s) && stored in s.begun
    ensures Inv(ok, scheme, s.(sent := s.sent + {stored}))
  {
    hide LinksInto, WriterOk, IssuerOk, CheckpointOk;
  }

  lemma SendKeepsInv(ok: Row -> bool, scheme: Scheme, s: State, w: nat)
    requires Inv(ok, scheme, s) && CanSend(s, w)
    ensures Inv(ok, scheme, SendAttempt(s, w))
  {
    hide Inv, HeadStored;
    var p := s.writers[w].pending.value;
    InvOfWriter(ok, scheme, s, w);
    SentKeepsInv(ok, scheme, s, p.stored);
    SetWriterKeepsInv(ok, scheme, s.(sent := s.sent + {p.stored}), w,
                      s.writers[w].(pending := Some(Pending(p.stored, p.attemptsLeft - 1))));
  }

  lemma GrowthKeepsLinks(ok: Row -> bool, scheme: Scheme, s: State, db': map<Position, Stored>)
    requires Inv(ok, scheme, s) && Grows(s.db, db')
    ensures forall st | st in s.begun :: LinksInto(db', st.row)
    ensures forall w | w in s.writers :: WriterOk(db', s.begun, s.writers[w])
    ensures forall i | i in s.issuers :: IssuerOk(db', s.issuers[i])
    ensures forall p | p in s.checkpoints :: CheckpointOk(scheme, db', p, s.checkpoints[p])
  {
    forall st | st in s.begun ensures LinksInto(db', st.row) {
      assert LinksInto(s.db, st.row);
    }
    forall w | w in s.writers ensures WriterOk(db', s.begun, s.writers[w]) {
      assert WriterOk(s.db, s.begun, s.writers[w]);
    }
    forall i | i in s.issuers ensures IssuerOk(db', s.issuers[i]) {
      assert IssuerOk(s.db, s.issuers[i]);
    }
    forall p | p in s.checkpoints ensures CheckpointOk(scheme, db', p, s.checkpoints[p]) {
      assert CheckpointOk(scheme, s.db, p, s.checkpoints[p]);
    }
  }

  // A free position is the one right after the end of its chain: filling it changes
  // nothing that was said about the rows stored before.
  lemma CommitKeepsInv(ok: Row -> bool, scheme: Scheme, s: State, stored: Stored)
    requires Inv(ok, scheme, s) && stored in s.sent
    ensures Inv(ok, scheme, s.(db := AfterCommit(s.db, stored)))
  {
    GrowthKeepsLinks(ok, scheme, s, AfterCommit(s.db, stored));
  }

  lemma SignedIsOk(scheme: Scheme, db: map<Position, Stored>, issuer: Issuer, createdAt: int)
    requires issuer.Behind? && IssuerOk(db, issuer)
    ensures var cp := SignedCheckpoint(scheme, issuer, createdAt); CheckpointOk(scheme, db, (cp.chainId, cp.seqTo), cp)
  {
    hide CheckpointMessage;
    assert SignedBy(scheme, issuer.key, SignedCheckpoint(scheme, issuer, createdAt));
  }

  lemma AddedIsOk(scheme: Scheme, db: map<Position, Stored>, cps: map<Position, Checkpoint>, cp: Checkpoint)
    requires forall p | p in cps :: CheckpointOk(scheme, db, p, cps[p])
    requires CheckpointOk(scheme, db, (cp.chainId, cp.seqTo), cp)
    ensures var cps' := AddCheckpoint(cps, cp); forall p | p in cps' :: CheckpointOk(scheme, db, p, cps'[p])
  {
    hide CheckpointOk;
  }

  lemma SameButCheckpoints(ok: Row -> bool, s: State, cps: map<Position, Checkpoint>)
    requires RowsInv(ok, s) && EventsBegunOnce(s) && WritersInv(s) && IssuersInv(s)
    ensures var s' := s.(checkpoints := cps); RowsInv(ok, s') && EventsBegunOnce(s') && WritersInv(s') && IssuersInv(s')
  {
    hide LinksInto, WriterOk, IssuerOk;
  }

  lemma CheckpointKeepsInv(ok: Row -> bool, scheme: Scheme, s: State, issuer: Issuer, createdAt: int)
    requires Inv(ok, scheme, s) && issuer.Behind? && IssuerOk(s.db, issuer)
    ensures Inv(ok, scheme, s.(checkpoints :=
      AddCheckpoint(s.checkpoints, SignedCheckpoint(scheme, issuer, createdAt))))
  {
    hide RowsInv, EventsBegunOnce, WritersInv, IssuersInv, IssuerOk, CheckpointOk, SignedCheckpoint, AddCheckpoint;
    var cp := SignedCheckpoint(scheme, issuer, createdAt);
    SignedIsOk(scheme, s.db, issuer, createdAt);
    AddedIsOk(scheme, s.db, s.checkpoints, cp);
    SameButCheckpoints(ok, s, AddCheckpoint(s.checkpoints, cp));
  }

  lemma HeadHashIsStored(db: map<Position, Stored>, chain: string, seqNo: nat)
    requires IsHead(db, chain, seqNo)
    ensures HeadStored(db, chain, seqNo, HeadHash(db, chain, seqNo))
  {
  }

  lemma InvOfWriter(ok: Row -> bool, scheme: Scheme, s: State, w: nat)
    requires Inv(ok, scheme, s) && w in s.writers
    ensures WriterOk(s.db, s.begun, s.writers[w])
  {
  }

  lemma InvOfIssuer(ok: Row -> bool, scheme: Scheme, s: State, i: nat)
    requires Inv(ok, scheme, s) && i in s.issuers
    ensures IssuerOk(s.db, s.issuers[i])
  {
  }

  lemma HeadActionKeepsInv(ok: Row -> bool, sha: Sha, scheme: Scheme, s: State, a: Action)
    requires Inv(ok, scheme, s)
    requires a.Restart? || a.LoadHead? || a.Acknowledge? || a.GiveUp?
    ensures Inv(ok, scheme, Step(sha, scheme, s, a))
  {
    hide Inv;
    if a.w in s.writers {
      var writer := s.writers[a.w];
      InvOfWriter(ok, scheme, s, a.w);
      if a.LoadHead? && IsHead(s.db, writer.chain, a.seqNo) {
        HeadHashIsStored(s.db, writer.chain, a.seqNo);
      }
    }
    match a
    case Restart(w, chain) => SetWriterKeepsInv(ok, scheme, s, w, Writer(chain, None, None));
    case LoadHead(w, seqNo) =>
      if w in s.writers {
        SetWriterKeepsInv(ok, scheme, s, w, AfterLoad(s.db, s.writers[w], seqNo));
      }
    case Acknowledge(w) =>
      if w in s.writers {
        SetWriterKeepsInv(ok, scheme, s, w, AfterAcknowledge(s.db, s.writers[w]));
      }
    case GiveUp(w) =>
      if w in s.writers {
        SetWriterKeepsInv(ok, scheme, s, w, AfterGiveUp(s.writers[w]));
      }
  }

  lemma BeginActionKeepsInv(sha: Sha, scheme: Scheme, s: State, w: nat, event: Event, timestamp: int)
    requires Inv(Sealed(sha), scheme, s) && CanBegin(s, w, event)
    ensures Inv(Sealed(sha), scheme, Step(sha, scheme, s, Begin(w, event, timestamp)))
  {
    hide HashHolds, WellFormed, RowsInv, EventsBegunOnce;
    hide Inv;
    InvOfWriter(Sealed(sha), scheme, s, w);
    var row := LinkRow(sha, s.writers[w].chain, s.writers[w].head.value, event, timestamp);
    BeginKeepsInv(Sealed(sha), scheme, s, w, Stored(row, event));
  }

  lemma IssuerActionKeepsInv(ok: Row -> bool, sha: Sha, scheme: Scheme, s: State, a: Action)
    requires Inv(ok, scheme, s)
    requires a.IssueRead? || a.IssueCompare? || a.IssueCreate?
    ensures Inv(ok, scheme, Step(sha, scheme, s, a))
  {
    hide Inv;
    if a.i in s.issuers {
      InvOfIssuer(ok, scheme, s, a.i);
    }
    match a
    case IssueRead(i, chain, key, seqNo) =>
      SetIssuerKeepsInv(ok, scheme, s, i, AfterIssueRead(s.db, chain, key, seqNo));
    case IssueCompare(i, last) =>
      if i in s.issuers {
        SetIssuerKeepsInv(ok, scheme, s, i, AfterCompare(s.checkpoints, s.issuers[i], last));
      }
    case IssueCreate(i, createdAt) =>
      if i in s.issuers && s.issuers[i].Behind? {
        CheckpointKeepsInv(ok, scheme, s, s.issuers[i], createdAt);
        var cps := AddCheckpoint(s.checkpoints, SignedCheckpoint(scheme, s.issuers[i], createdAt));
        SetIssuerKeepsInv(ok, scheme, s.(checkpoints := cps), i, Idle);
      }
  }

  lemma TakeKeepsInv(ok: Row -> bool, scheme: Scheme, s: State, id: nat)
    requires Inv(ok, scheme, s)
    ensures Inv(ok, scheme, s.(taken := s.taken + {id}))
  {
    var s' := s.(taken := s.taken + {id});
    assert WritersInv(s') && IssuersInv(s') && CheckpointsInv(scheme, s');
  }

  lemma StepKeepsInv(sha: Sha, scheme: Scheme, s: State, a: Action)
    requires Inv(Sealed(sha), scheme, s)
    ensures Inv(Sealed(sha), scheme, Step(sha, scheme, s, a))
  {
    hide Inv;
    match a
    case LoadFails(event) => TakeKeepsInv(Sealed(sha), scheme, s, event.id);
    case Begin(w, event, timestamp) =>
      if CanBegin(s, w, event) {
        BeginActionKeepsInv(sha, scheme, s, w, event, timestamp);
      }
    case Send(w) =>
      if CanSend(s, w) {
        SendKeepsInv(Sealed(sha), scheme, s, w);
      }
    case Commit(stored) =>
      if stored in s.sent {
        CommitKeepsInv(Sealed(sha), scheme, s, stored);
      }
    case IssueRead(_, _, _, _) => IssuerActionKeepsInv(Sealed(sha), sha, scheme, s, a);
    case IssueCompare(_, _) => IssuerActionKeepsInv(Sealed(sha), sha, scheme, s, a);
    case IssueCreate(_, _) => IssuerActionKeepsInv(Sealed(sha), sha, scheme, s, a);
    case _ => HeadActionKeepsInv(Sealed(sha), sha, scheme, s, a);
  }

  lemma {:induction false} RunKeepsInv(sha: Sha, scheme: Scheme, s: State, actions: seq<Action>)
    requires Inv(Sealed(sha), scheme, s)
    ensures Inv(Sealed(sha), scheme, Run(sha, scheme, s, actions))
    decreases |actions|
  {
    hide Inv, Step;
    if actions != [] {
      StepKeepsInv(sha, scheme, s, actions[0]);
      RunKeepsInv(sha, scheme, Step(sha, scheme, s, actions[0]), actions[1..]);
    }
  }

  // ---------------------------------------------------------------------------
  // What every run guarantees about the table.

  // The rows of each chain are numbered 1, 2, ... without a gap, each linked to the one
  // before it and sealed by its own hash, and no event is stored twice.
  ghost predicate ChainsIntact(sha: Sha, db: map<Position, Stored>) {
    && (forall p | p in db :: StoredWell(sha, db, p))
    && forall p, q | p in db && q in db :: db[p].event.id == db[q].event.id ==> p == q
  }

  ghost predicate StoredWell(sha: Sha, db: map<Position, Stored>, p: Position)
    requires p in db
  {
    && PositionOf(db[p].row) == p
    && p.1 >= 1
    && HeadStored(db, p.0, p.1 - 1, db[p].row.previousHash)
    && HashHolds(sha, db[p].row)
    && WellFormed(db[p].row.details)
  }

  lemma RowIsStoredWell(sha: Sha, s: State, p: Position)
    requires RowsInv(Sealed(sha), s) && p in s.db
    ensures StoredWell(sha, s.db, p)
  {
    hide HashHolds, WellFormed, HeadStored;
    var st := s.db[p];
    assert st in s.begun && LinksInto(s.db, st.row) && Sealed(sha)(st.row);
  }

  lemma AllStoredWell(sha: Sha, s: State)
    requires RowsInv(Sealed(sha), s)
    ensures forall p | p in s.db :: StoredWell(sha, s.db, p)
  {
    hide RowsInv, StoredWell, Sealed;
    forall p | p in s.db ensures StoredWell(sha, s.db, p) {
      RowIsStoredWell(sha, s, p);
    }
  }

  lemma InvGivesIntactChains(sha: Sha, scheme: Scheme, s: State)
    requires Inv(Sealed(sha), scheme, s)
    ensures ChainsIntact(sha, s.db)
  {
    hide RowsInv, StoredWell, EventsBegunOnce, WritersInv, IssuersInv, CheckpointsInv, Sealed;
    AllStoredWell(sha, s);
    StoredEventsDiffer(Sealed(sha), s);
  }

  lemma StoredEventsDiffer(ok: Row -> bool, s: State)
    requires RowsInv(ok, s) && EventsBegunOnce(s)
    ensures forall p, q | p in s.db && q in s.db :: s.db[p].event.id == s.db[q].event.id ==> p == q
  {
    forall p, q | p in s.db && q in s.db && s.db[p].event.id == s.db[q].event.id ensures p == q {
      assert s.db[p] in s.begun && s.db[q] in s.begun;
    }
  }

  lemma StartIsOk(sha: Sha, scheme: Scheme)
    ensures Inv(Sealed(sha), scheme, START)
  {
  }

  lemma MultiWriterSafety(sha: Sha, scheme: Scheme, actions: seq<Action>)
    ensures ChainsIntact(sha, Run(sha, scheme, START, actions).db)
  {
    StartIsOk(sha, scheme);
    RunKeepsInv(sha, scheme, START, actions);
    InvGivesIntactChains(sha, scheme, Run(sha, scheme, START, actions));
  }

  // The row is the event, column by column: nothing is left out, changed or exchanged.
  ghost predicate IsRowOf(st: Stored, event: Event, timestamp: int) {
    && st.event == event
    && st.row.action == event.action && st.row.category == event.category && st.row.status == event.status
    && st.row.actorIdentityId == event.actorKey
    && st.row.ipAddress == event.ipAddress && st.row.userAgent == event.userAgent
    && st.row.details == event.details && st.row.timestamp == timestamp
  }

  ghost predicate BegunIn(st: Stored, actions: seq<Action>) {
    exists k :: 0 <= k < |actions| && actions[k].Begin? && IsRowOf(st, actions[k].event, actions[k].timestamp)
  }

  ghost predicate AllBegunIn(s: State, actions: seq<Action>) {
    forall st | st in s.begun :: BegunIn(st, actions)
  }

  lemma StepIsBegun(sha: Sha, scheme: Scheme, s: State, done: seq<Action>, a: Action)
    requires AllBegunIn(s, done)
    ensures AllBegunIn(Step(sha, scheme, s, a), done + [a])
  {
    hide IsRowOf, HashHolds, EventHash, DigestOf;
    var s' := Step(sha, scheme, s, a);
    forall st | st in s'.begun ensures BegunIn(st, done + [a]) {
      if st in s.begun {
        var k :| 0 <= k < |done| && done[k].Begin? && IsRowOf(st, done[k].event, done[k].timestamp);
        assert (done + [a])[k] == done[k];
      } else {
        LinkedIsRow(sha, s.writers[a.w].chain, s.writers[a.w].head.value, a.event, a.timestamp);
        assert (done + [a])[|done|] == a;
      }
    }
  }

  lemma LinkedIsRow(sha: Sha, chain: string, head: ChainHead, event: Event, timestamp: int)
    ensures IsRowOf(Stored(LinkRow(sha, chain, head, event, timestamp), event), event, timestamp)
  {
    hide EventHash, DigestOf;
  }

  lemma {:induction false} RunIsBegun(sha: Sha, scheme: Scheme, s: State, done: seq<Action>, actions: seq<Action>)
    requires AllBegunIn(s, done)
    ensures AllBegunIn(Run(sha, scheme, s, actions), done + actions)
    decreases |actions|
  {
    hide AllBegunIn, Step;
    if actions == [] {
      assert done + [] == done;
    } else {
      StepIsBegun(sha, scheme, s, done, actions[0]);
      RunIsBegun(sha, scheme, Step(sha, scheme, s, actions[0]), done + [actions[0]], actions[1..]);
      assert done + [actions[0]] + actions[1..] == done + actions;
    }
  }

  // In every run each stored row carries, column by column, the data of an event that a
  // writer was given, and the time at which it began to write it.
  lemma RowsCarryEvents(sha: Sha, scheme: Scheme, actions: seq<Action>, p: Position)
    requires p in Run(sha, scheme, START, actions).db
    ensures var st := Run(sha, scheme, START, actions).db[p];
      exists k :: 0 <= k < |actions| && actions[k].Begin? && actions[k].event == st.event
        && st.row.action == actions[k].event.action && st.row.category == actions[k].event.category
        && st.row.status == actions[k].event.status && st.row.actorIdentityId == actions[k].event.actorKey
        && st.row.ipAddress == actions[k].event.ipAddress && st.row.userAgent == actions[k].event.userAgent
        && st.row.details == actions[k].event.details && st.row.timestamp == actions[k].timestamp
  {
    hide Run, Inv;
    StartIsOk(sha, scheme);
    RunKeepsInv(sha, scheme, START, actions);
    StoredWasBegun(sha, scheme, Run(sha, scheme, START, actions), p);
    RunIsBegun(sha, scheme, START, [], actions);
    assert [] + actions == actions;
    assert BegunIn(Run(sha, scheme, START, actions).db[p], actions);
  }

  lemma StoredWasBegun(sha: Sha, scheme: Scheme, s: State, p: Position)
    requires Inv(Sealed(sha), scheme, s) && p in s.db
    ensures s.db[p] in s.begun
  {
    hide LinksInto, EventsBegunOnce, WritersInv, IssuersInv, CheckpointsInv;
  }

  lemma RowBefore(sha: Sha, db: map<Position, Stored>, chain: string, n: int)
    requires ChainsIntact(sha, db) && (chain, n) in db && n > 1
    ensures (chain, n - 1) in db
  {
    hide HashHolds, WellFormed;
    assert StoredWell(sha, db, (chain, n));
  }

  // "Without a gap": a chain that has a row number n has every row before it.
  lemma {:induction false} NoGaps(sha: Sha, db: map<Position, Stored>, chain: string, n: int, m: int)
    requires ChainsIntact(sha, db) && (chain, n) in db && 1 <= m <= n
    ensures (chain, m) in db
    decreases n - m
  {
    hide ChainsIntact;
    if m < n {
      RowBefore(sha, db, chain, n);
      NoGaps(sha, db, chain, n - 1, m);
    }
  }

  // Stored rows stay as they are.
  lemma StepKeepsRows(sha: Sha, scheme: Scheme, s: State, a: Action)
    ensures Grows(s.db, Step(sha, scheme, s, a).db)
    ensures Grows(s.checkpoints, Step(sha, scheme, s, a).checkpoints)
  {
  }

  lemma {:induction false} RunKeepsRows(sha: Sha, scheme: Scheme, s: State, actions: seq<Action>)
    ensures Grows(s.db, Run(sha, scheme, s, actions).db)
    ensures Grows(s.checkpoints, Run(sha, scheme, s, actions).checkpoints)
    decreases |actions|
  {
    hide Step;
    if actions != [] {
      StepKeepsRows(sha, scheme, s, actions[0]);
      RunKeepsRows(sha, scheme, Step(sha, scheme, s, actions[0]), actions[1..]);
    }
  }

  // ---------------------------------------------------------------------------
  // Honest runs verify.

  // The rows the report reads: every stored row once, ordered, the details as the database
  // gives them back, which may reorder members and drop or add null ones.
  ghost predicate IsListing(rows: seq<Row>, db: map<Position, Stored>) {
    && Ordered(rows) && DetailsWellFormed(rows) && DistinctPositions(rows)
    && (forall i | 0 <= i < |rows| :: ListsRow(rows[i], db))
    && forall p | p in db :: exists i | 0 <= i < |rows| :: PositionOf(rows[i]) == p
  }

  ghost predicate ListsRow(r: Row, db: map<Position, Stored>) {
    PositionOf(r) in db && SameFacts(r, db[PositionOf(r)].row)
  }

  lemma ListedRowIsSealed(sha: Sha, db: map<Position, Stored>, r: Row)
    requires ChainsIntact(sha, db) && ListsRow(r, db) && WellFormed(r.details)
    ensures HashHolds(sha, r)
  {
    var stored := db[PositionOf(r)].row;
    assert StoredWell(sha, db, PositionOf(r));
    CanonicalIsMeaning(r.details, stored.details);
    assert DigestOf(r) == DigestOf(stored);
  }

  lemma SameLinks(r: Row, q: Row)
    requires SameFacts(r, q)
    ensures r.previousHash == q.previousHash && r.eventHash == q.eventHash
  {
  }

  lemma ListingIsLinked(sha: Sha, db: map<Position, Stored>, rows: seq<Row>)
    requires ChainsIntact(sha, db) && IsListing(rows, db)
    ensures ChainsLinked(rows)
  {
    hide HashHolds, WellFormed, Ordered, SameFacts;
    forall i | 0 <= i < |rows| ensures RowLinked(rows, rows[i]) {
      var r := rows[i];
      var p := PositionOf(r);
      assert ListsRow(r, db) && StoredWell(sha, db, p);
      SameLinks(r, db[p].row);
      if r.seqNo > 1 {
        var q := (r.chainId, r.seqNo - 1);
        assert q in db;
        var j :| 0 <= j < |rows| && PositionOf(rows[j]) == q;
        assert ListsRow(rows[j], db);
        SameLinks(rows[j], db[q].row);
        assert Precedes(rows[j], r);
      }
    }
  }

  lemma HonestTableIsSound(sha: Sha, scheme: Scheme, actions: seq<Action>, rows: seq<Row>)
    requires IsListing(rows, Run(sha, scheme, START, actions).db)
    ensures TableSound(sha, rows)
  {
    var db := Run(sha, scheme, START, actions).db;
    MultiWriterSafety(sha, scheme, actions);
    ListingIsLinked(sha, db, rows);
    forall i | 0 <= i < |rows| ensures HashHolds(sha, rows[i]) {
      assert ListsRow(rows[i], db);
      ListedRowIsSealed(sha, db, rows[i]);
    }
  }

  // The checkpoints the report reads, in any order.
  ghost predicate IsCheckpointListing(cps: seq<Checkpoint>, table: map<Position, Checkpoint>) {
    forall cp :: cp in cps <==> cp in table.Values
  }

  lemma OwnCheckpointCounts(scheme: Scheme, db: map<Position, Stored>, p: Position, cp: Checkpoint, ownKey: string)
    requires scheme.Correct() && CheckpointOk(scheme, db, p, cp)
    ensures Counts(scheme, Some(ownKey), cp) <==> cp.publicKey == ownKey
  {
    var key :| SignedBy(scheme, key, cp);
    assert scheme.verify(scheme.publicKey(key), scheme.sign(key, MessageOf(cp)), MessageOf(cp));
  }

  lemma AnchoredIfListed(sha: Sha, scheme: Scheme, db: map<Position, Stored>, db': map<Position, Stored>,
                         rows: seq<Row>, p: Position, cp: Checkpoint)
    requires IsListing(rows, db) && Grows(db, db') && CheckpointOk(scheme, db', p, cp)
    ensures Anchored(rows, cp) <==> p in db
  {
    if p in db {
      var i :| 0 <= i < |rows| && PositionOf(rows[i]) == p;
      assert ListsRow(rows[i], db);
    }
    if Anchored(rows, cp) {
      var i :| 0 <= i < |rows| && rows[i].chainId == cp.chainId && rows[i].seqNo == cp.seqTo
        && rows[i].eventHash == cp.headHash;
      assert ListsRow(rows[i], db);
    }
  }

  // The report reads the rows and the checkpoints in two queries. Whatever happened
  // between them, the rows are sound, and every checkpoint is anchored exactly when the
  // rows already contained the row it signs.
  lemma TwoReadsReport(sha: Sha, scheme: Scheme, ownKey: string, before: seq<Action>, between: seq<Action>,
                       rows: seq<Row>, cps: seq<Checkpoint>)
    requires scheme.Correct()
    requires IsListing(rows, Run(sha, scheme, START, before).db)
    requires IsCheckpointListing(cps,
      Run(sha, scheme, Run(sha, scheme, START, before), between).checkpoints)
    ensures TableSound(sha, rows)
    ensures AllAnchored(scheme, Some(ownKey), rows, cps, |cps|) <==>
      forall c | 0 <= c < |cps| && cps[c].publicKey == ownKey ::
        (cps[c].chainId, cps[c].seqTo) in Run(sha, scheme, START, before).db
  {
    hide Inv, Step, TableSound, IsListing;
    HonestTableIsSound(sha, scheme, before, rows);
    var s := Run(sha, scheme, START, before);
    var t := Run(sha, scheme, s, between);
    StartIsOk(sha, scheme);
    RunKeepsInv(sha, scheme, START, before);
    RunKeepsInv(sha, scheme, s, between);
    RunKeepsRows(sha, scheme, s, between);
    InvOfCheckpoints(Sealed(sha), scheme, t);
    forall c | 0 <= c < |cps|
      ensures Counts(scheme, Some(ownKey), cps[c]) <==> cps[c].publicKey == ownKey
      ensures Anchored(rows, cps[c]) <==> (cps[c].chainId, cps[c].seqTo) in s.db
    {
      assert cps[c] in cps;
      var p :| p in t.checkpoints && t.checkpoints[p] == cps[c];
      assert CheckpointOk(scheme, t.db, p, cps[c]);
      OwnCheckpointCounts(scheme, t.db, p, cps[c], ownKey);
      AnchoredIfListed(sha, scheme, s.db, t.db, rows, p, cps[c]);
    }
  }

  lemma InvOfCheckpoints(ok: Row -> bool, scheme: Scheme, s: State)
    requires Inv(ok, scheme, s)
    ensures CheckpointsInv(scheme, s)
  {
  }

  ghost function OwnCount(ownKey: string, cps: seq<Checkpoint>, n: nat): (r: nat)
    requires n <= |cps|
  {
    if n == 0 then 0 else (if cps[n - 1].publicKey == ownKey then 1 else 0) + OwnCount(ownKey, cps, n - 1)
  }

  lemma {:induction false} AllOwnAreVerified(scheme: Scheme, ownKey: string, rows: seq<Row>,
                                              cps: seq<Checkpoint>, n: nat)
    requires n <= |cps|
    requires forall c | 0 <= c < |cps| :: Verified(scheme, Some(ownKey), rows, cps[c]) <==> cps[c].publicKey == ownKey
    ensures VerifiedCount(scheme, Some(ownKey), rows, cps, n) == OwnCount(ownKey, cps, n)
  {
    if n > 0 {
      AllOwnAreVerified(scheme, ownKey, rows, cps, n - 1);
    }
  }

  // Of one snapshot of both tables the report finds no break, counts every checkpoint
  // this instance signed, and calls the log intact as soon as there is one.
  lemma HonestRunsVerify(sha: Sha, scheme: Scheme, ownKey: string, actions: seq<Action>,
                         rows: seq<Row>, cps: seq<Checkpoint>)
    requires scheme.Correct()
    requires IsListing(rows, Run(sha, scheme, START, actions).db)
    requires IsCheckpointListing(cps, Run(sha, scheme, START, actions).checkpoints)
    ensures TableSound(sha, rows) && AllAnchored(scheme, Some(ownKey), rows, cps, |cps|)
    ensures VerifiedCount(scheme, Some(ownKey), rows, cps, |cps|) == OwnCount(ownKey, cps, |cps|)
    ensures Intact(sha, scheme, Some(ownKey), rows, cps) <==>
      exists c | 0 <= c < |cps| :: cps[c].publicKey == ownKey
  {
    hide Inv, Step, TableSound, IsListing;
    HonestTableIsSound(sha, scheme, actions, rows);
    var s := Run(sha, scheme, START, actions);
    StartIsOk(sha, scheme);
    RunKeepsInv(sha, scheme, START, actions);
    InvOfCheckpoints(Sealed(sha), scheme, s);
    forall c | 0 <= c < |cps|
      ensures Counts(scheme, Some(ownKey), cps[c]) <==> cps[c].publicKey == ownKey
      ensures Anchored(rows, cps[c])
    {
      assert cps[c] in cps;
      var p :| p in s.checkpoints && s.checkpoints[p] == cps[c];
      assert CheckpointOk(scheme, s.db, p, cps[c]);
      OwnCheckpointCounts(scheme, s.db, p, cps[c], ownKey);
      AnchoredIfListed(sha, scheme, s.db, s.db, rows, p, cps[c]);
    }
    ReportOfAnchored(sha, scheme, ownKey, rows, cps);
  }

  lemma ReportOfAnchored(sha: Sha, scheme: Scheme, ownKey: string, rows: seq<Row>, cps: seq<Checkpoint>)
    requires TableSound(sha, rows)
    requires forall c | 0 <= c < |cps| :: Counts(scheme, Some(ownKey), cps[c]) <==> cps[c].publicKey == ownKey
    requires forall c | 0 <= c < |cps| :: Anchored(rows, cps[c])
    ensures AllAnchored(scheme, Some(ownKey), rows, cps, |cps|)
    ensures VerifiedCount(scheme, Some(ownKey), rows, cps, |cps|) == OwnCount(ownKey, cps, |cps|)
    ensures Intact(sha, scheme, Some(ownKey), rows, cps) <==>
      exists c | 0 <= c < |cps| :: cps[c].publicKey == ownKey
  {
    hide TableSound, VerifyCheckpoint;
    AllOwnAreVerified(scheme, ownKey, rows, cps, |cps|);
    if exists c | 0 <= c < |cps| :: cps[c].publicKey == ownKey {
      var c :| 0 <= c < |cps| && cps[c].publicKey == ownKey;
      assert Anchored(rows, cps[c]);
    }
  }

  lemma {:induction false} RunInTwoParts(sha: Sha, scheme: Scheme, s: State, first: seq<Action>, second: seq<Action>)
    ensures Run(sha, scheme, s, first + second) == Run(sha, scheme, Run(sha, scheme, s, first), second)
    decreases |first|
  {
    hide Step;
    if first == [] {
      assert [] + second == second;
    } else {
      assert (first + second)[1..] == first[1..] + second;
      RunInTwoParts(sha, scheme, Step(sha, scheme, s, first[0]), first[1..], second);
    }
  }

  lemma WriterIsReady(sha: Sha, scheme: Scheme)
    ensures var s := Step(sha, scheme, START, Restart(0, "a"));
      s == SetWriter(START, 0, Writer("a", None, None))
      && Step(sha, scheme, s, LoadHead(0, 0)) == SetWriter(s, 0, Writer("a", Some(ChainHead(0, GENESIS_HASH)), None))
  {
  }

  lemma OneRowIsWritten(sha: Sha, scheme: Scheme, event: Event, stored: Stored)
    requires WellFormed(event.details)
    requires stored == Stored(LinkRow(sha, "a", ChainHead(0, GENESIS_HASH), event, 0), event)
    ensures var s := Run(sha, scheme, START,
        [Restart(0, "a"), LoadHead(0, 0), Begin(0, event, 0), Send(0), Commit(stored)]);
      s.db == map[("a", 1) := stored] && s.checkpoints == map[]
  {
    hide WellFormed, HashHolds, EventHash, DigestOf, Run, IsHead, HeadHash;
    WriterIsReady(sha, scheme);
    var s1 := SetWriter(START, 0, Writer("a", None, None));
    var s2 := SetWriter(s1, 0, Writer("a", Some(ChainHead(0, GENESIS_HASH)), None));
    var s3 := BeginWrite(s2, 0, stored);
    var s4 := SendAttempt(s3, 0);
    var s5 := s4.(db := map[("a", 1) := stored]);
    assert Step(sha, scheme, s2, Begin(0, event, 0)) == s3;
    assert Step(sha, scheme, s3, Send(0)) == s4;
    assert Step(sha, scheme, s4, Commit(stored)) == s5;
    RunOfSteps(sha, scheme,
      [Restart(0, "a"), LoadHead(0, 0), Begin(0, event, 0), Send(0), Commit(stored)],
      [START, s1, s2, s3, s4, s5]);
  }

  lemma OneHeadIsRead(sha: Sha, scheme: Scheme, s: State, key: string, stored: Stored)
    requires s.db == map[("a", 1) := stored] && stored.row.eventHash != ""
    ensures Step(sha, scheme, s, IssueRead(0, "a", key, 1))
      == SetIssuer(s, 0, ReadHead("a", key, 1, stored.row.eventHash))
  {
  }

  lemma NothingIsSigned(sha: Sha, scheme: Scheme, s: State, key: string, hash: string)
    requires s.checkpoints == map[] && hash != "" && 0 in s.issuers && s.issuers[0] == ReadHead("a", key, 1, hash)
    ensures Step(sha, scheme, s, IssueCompare(0, 0)) == SetIssuer(s, 0, Behind("a", key, 1, hash))
  {
  }

  lemma OneRowIsSigned(sha: Sha, scheme: Scheme, s: State, key: string, stored: Stored, cp: Checkpoint)
    requires s.db == map[("a", 1) := stored] && s.checkpoints == map[] && stored.row.eventHash != ""
    requires cp == Checkpoint("a", 1, stored.row.eventHash, 0, scheme.publicKey(key),
      scheme.sign(key, CheckpointMessage("a", 1, stored.row.eventHash, 0)))
    ensures Run(sha, scheme, s, [IssueRead(0, "a", key, 1), IssueCompare(0, 0), IssueCreate(0, 0)]).checkpoints
      == map[("a", 1) := cp]
  {
    hide Run, CheckpointMessage, AfterIssueRead, AfterCompare;
    var hash := stored.row.eventHash;
    var s6 := SetIssuer(s, 0, ReadHead("a", key, 1, hash));
    var s7 := SetIssuer(s6, 0, Behind("a", key, 1, hash));
    var s8 := SetIssuer(s7.(checkpoints := map[("a", 1) := cp]), 0, Idle);
    OneHeadIsRead(sha, scheme, s, key, stored);
    NothingIsSigned(sha, scheme, s6, key, hash);
    assert Step(sha, scheme, s7, IssueCreate(0, 0)) == s8;
    RunOfSteps(sha, scheme, [IssueRead(0, "a", key, 1), IssueCompare(0, 0), IssueCreate(0, 0)], [s, s6, s7, s8]);
  }

  // The two queries of the report are not one snapshot. If a row is written and signed
  // between them, the report on an untouched table shows a break.
  lemma TwoReadsCanShowABreak(sha: Sha, scheme: Scheme, key: string) returns (between: seq<Action>, cp: Checkpoint)
    requires scheme.Correct() && forall text :: |sha(text)| == 32
    ensures IsListing([], Run(sha, scheme, START, []).db)
    ensures IsCheckpointListing([cp], Run(sha, scheme, START, between).checkpoints)
    ensures cp.publicKey == scheme.publicKey(key)
    ensures !AllAnchored(scheme, Some(scheme.publicKey(key)), [], [cp], 1)
  {
    hide HashHolds, EventHash, DigestOf, LinkRow, CheckpointMessage, Step;
    var event := Event(0, "login_success", "authentication", "success", "", "", "", Null);
    var row := LinkRow(sha, "a", ChainHead(0, GENESIS_HASH), event, 0);
    var stored := Stored(row, event);
    SealIsNotEmpty(sha, "a", ChainHead(0, GENESIS_HASH), event, 0);
    var message := CheckpointMessage("a", 1, row.eventHash, 0);
    cp := Checkpoint("a", 1, row.eventHash, 0, scheme.publicKey(key), scheme.sign(key, message));
    var write := [Restart(0, "a"), LoadHead(0, 0), Begin(0, event, 0), Send(0), Commit(stored)];
    var sign := [IssueRead(0, "a", key, 1), IssueCompare(0, 0), IssueCreate(0, 0)];
    between := write + sign;
    OneRowIsWritten(sha, scheme, event, stored);
    OneRowIsSigned(sha, scheme, Run(sha, scheme, START, write), key, stored, cp);
    RunInTwoParts(sha, scheme, START, write, sign);
    assert scheme.verify(scheme.publicKey(key), scheme.sign(key, message), message);
    OneCheckpointListed(cp);
    assert MessageOf(cp) == message && Counts(scheme, Some(cp.publicKey), cp) && !Anchored([], cp);
    assert [cp][0] == cp;
  }

  lemma OneCheckpointListed(cp: Checkpoint)
    ensures IsCheckpointListing([cp], map[("a", 1) := cp])
  {
    var table: map<Position, Checkpoint> := map[("a", 1) := cp];
    assert ("a", 1) in table && table[("a", 1)] == cp;
  }

  lemma SealIsNotEmpty(sha: Sha, chain: string, head: ChainHead, event: Event, timestamp: int)
    requires forall text :: |sha(text)| == 32
    ensures LinkRow(sha, chain, head, event, timestamp).eventHash != ""
  {
    var row := LinkRow(sha, chain, head, event, timestamp);
    assert |sha(DigestStream(DigestOf(row)))| == 32;
  }

  // A run is the sequence of states its actions step through.
  lemma {:induction false} RunOfSteps(sha: Sha, scheme: Scheme, actions: seq<Action>, states: seq<State>)
    requires |states| == |actions| + 1
    requires forall i | 0 <= i < |actions| :: Step(sha, scheme, states[i], actions[i]) == states[i + 1]
    ensures Run(sha, scheme, states[0], actions) == states[|actions|]
    decreases |actions|
  {
    hide Step;
    if actions != [] {
      RunOfSteps(sha, scheme, actions[1..], states[1..]);
    }
  }
}
