// A writer that never hears of its own success (src/services/audit_logger.rs): its cached
// head then lies behind the table, and the unique index refuses it from there on. When
// exactly a writer can still get on without a restart.
module AuditStall {
  import opened Base
  import opened CanonicalJson
  import opened AuditIntegrity
  import opened AuditVerify
  import opened AuditLog
  import AuditWriter

  // The writer is between two events, and this is its cached head.
  ghost predicate Ready(s: State, w: nat, head: ChainHead) {
    w in s.writers && s.writers[w].head == Some(head) && s.writers[w].pending.None?
  }

  function NextPosition(chain: string, head: ChainHead): (p: Position) {
    (chain, head.seqNo + 1)
  }

  // The position it would write to next is taken.
  ghost predicate IsBehind(s: State, w: nat, head: ChainHead)
    requires w in s.writers
  {
    NextPosition(s.writers[w].chain, head) in s.db
  }

  ghost predicate NoRestart(actions: seq<Action>, w: nat) {
    forall i | 0 <= i < |actions| && actions[i].Restart? :: actions[i].w != w
  }

  // Behind, with nothing on its way but rows for the position that is taken by another.
  ghost predicate Stalled(s: State, w: nat, chain: string, head: ChainHead, taken: Stored) {
    && w in s.writers && s.writers[w].chain == chain && s.writers[w].head == Some(head)
    && NextPosition(chain, head) in s.db && s.db[NextPosition(chain, head)] == taken
    && (s.writers[w].pending.Some? ==>
          PositionOf(s.writers[w].pending.value.stored.row) == NextPosition(chain, head)
          && s.writers[w].pending.value.stored != taken)
  }

  lemma StoredWasTaken(ok: Row -> bool, scheme: Scheme, s: State, p: Position)
    requires Inv(ok, scheme, s) && p in s.db
    ensures s.db[p].event.id in s.taken
  {
    hide LinksInto, WritersInv, IssuersInv, CheckpointsInv;
    assert s.db[p] in s.begun;
  }

  lemma BeginWriteStaysStalled(s: State, w: nat, chain: string, head: ChainHead, taken: Stored, v: nat, stored: Stored)
    requires Stalled(s, w, chain, head, taken) && v in s.writers
    requires v == w ==> PositionOf(stored.row) == NextPosition(chain, head) && stored != taken
    ensures Stalled(BeginWrite(s, v, stored), w, chain, head, taken)
  {
  }

  lemma BeginStaysStalled(sha: Sha, scheme: Scheme, s: State, w: nat, chain: string, head: ChainHead, taken: Stored,
                          v: nat, event: Event, timestamp: int)
    requires Inv(Sealed(sha), scheme, s) && Stalled(s, w, chain, head, taken) && CanBegin(s, v, event)
    ensures Stalled(BeginWrite(s, v, Stored(
      LinkRow(sha, s.writers[v].chain, s.writers[v].head.value, event, timestamp), event)), w, chain, head, taken)
  {
    hide Inv, Sealed, LinkRow, BeginWrite, SetWriter;
    StoredWasTaken(Sealed(sha), scheme, s, NextPosition(chain, head));
    var writer := s.writers[v];
    var row := LinkRow(sha, writer.chain, writer.head.value, event, timestamp);
    AuditWriter.LinkRowPosition(sha, writer.chain, writer.head.value, event, timestamp);
    BeginWriteStaysStalled(s, w, chain, head, taken, v, Stored(row, event));
  }

  lemma SetWriterStaysStalled(s: State, w: nat, chain: string, head: ChainHead, taken: Stored, v: nat, writer: Writer)
    requires Stalled(s, w, chain, head, taken)
    requires v == w ==> writer.chain == chain && writer.head == Some(head)
    requires v == w && writer.pending.Some? ==>
      s.writers[w].pending.Some? && writer.pending.value.stored == s.writers[w].pending.value.stored
    ensures Stalled(SetWriter(s, v, writer), w, chain, head, taken)
  {
  }

  lemma WriterStepStaysStalled(sha: Sha, scheme: Scheme, s: State, w: nat, chain: string, head: ChainHead,
                               taken: Stored, a: Action)
    requires Stalled(s, w, chain, head, taken)
    requires (a.Restart? && a.w != w) || a.LoadHead? || a.Acknowledge? || a.GiveUp?
    ensures Stalled(Step(sha, scheme, s, a), w, chain, head, taken)
  {
    hide IsHead, HeadHash;
    match a
    case Restart(v, c) => SetWriterStaysStalled(s, w, chain, head, taken, v, Writer(c, None, None));
    case LoadHead(v, seqNo) =>
      if v in s.writers {
        SetWriterStaysStalled(s, w, chain, head, taken, v, AfterLoad(s.db, s.writers[v], seqNo));
      }
    case Acknowledge(v) =>
      if v in s.writers {
        SetWriterStaysStalled(s, w, chain, head, taken, v, AfterAcknowledge(s.db, s.writers[v]));
      }
    case GiveUp(v) =>
      if v in s.writers {
        SetWriterStaysStalled(s, w, chain, head, taken, v, AfterGiveUp(s.writers[v]));
      }
  }

  lemma SendStaysStalled(s: State, w: nat, chain: string, head: ChainHead, taken: Stored, v: nat)
    requires Stalled(s, w, chain, head, taken) && CanSend(s, v)
    ensures Stalled(SendAttempt(s, v), w, chain, head, taken)
  {
  }

  lemma TableStepStaysStalled(sha: Sha, scheme: Scheme, s: State, w: nat, chain: string, head: ChainHead, taken: Stored,
                              a: Action)
    requires Stalled(s, w, chain, head, taken)
    requires a.LoadFails? || a.Commit? || a.IssueRead? || a.IssueCompare? || a.IssueCreate?
    ensures Stalled(Step(sha, scheme, s, a), w, chain, head, taken)
  {
    hide SignedCheckpoint, AddCheckpoint, AfterIssueRead, AfterCompare;
  }

  lemma StepStaysStalled(sha: Sha, scheme: Scheme, s: State, w: nat, chain: string, head: ChainHead, taken: Stored,
                         a: Action)
    requires Inv(Sealed(sha), scheme, s) && Stalled(s, w, chain, head, taken) && (a.Restart? ==> a.w != w)
    ensures Stalled(Step(sha, scheme, s, a), w, chain, head, taken)
  {
    hide Inv, Stalled, LinkRow, BeginWrite, SendAttempt, CanBegin, CanSend;
    match a
    case Begin(v, event, timestamp) =>
      if CanBegin(s, v, event) {
        BeginStaysStalled(sha, scheme, s, w, chain, head, taken, v, event, timestamp);
      }
    case Send(v) => if CanSend(s, v) { SendStaysStalled(s, w, chain, head, taken, v); }
    case Restart(_, _) => WriterStepStaysStalled(sha, scheme, s, w, chain, head, taken, a);
    case LoadHead(_, _) => WriterStepStaysStalled(sha, scheme, s, w, chain, head, taken, a);
    case Acknowledge(_) => WriterStepStaysStalled(sha, scheme, s, w, chain, head, taken, a);
    case GiveUp(_) => WriterStepStaysStalled(sha, scheme, s, w, chain, head, taken, a);
    case _ => TableStepStaysStalled(sha, scheme, s, w, chain, head, taken, a);
  }

  lemma {:induction false} RunStaysStalled(sha: Sha, scheme: Scheme, s: State, w: nat, chain: string, head: ChainHead,
                                           taken: Stored, later: seq<Action>)
    requires Inv(Sealed(sha), scheme, s) && Stalled(s, w, chain, head, taken) && NoRestart(later, w)
    ensures Stalled(Run(sha, scheme, s, later), w, chain, head, taken)
    decreases |later|
  {
    hide Inv, Step, Stalled;
    if later != [] {
      StepStaysStalled(sha, scheme, s, w, chain, head, taken, later[0]);
      StepKeepsInv(sha, scheme, s, later[0]);
      RunStaysStalled(sha, scheme, Step(sha, scheme, s, later[0]), w, chain, head, taken, later[1..]);
    }
  }

  // Without a restart the head stays, and no row the writer begins is ever stored.
  lemma StalledNeverStores(sha: Sha, scheme: Scheme, actions: seq<Action>, w: nat, head: ChainHead, later: seq<Action>)
    requires var s := Run(sha, scheme, START, actions); Ready(s, w, head) && IsBehind(s, w, head)
    requires NoRestart(later, w)
    ensures var s' := Run(sha, scheme, Run(sha, scheme, START, actions), later);
      && w in s'.writers && s'.writers[w].head == Some(head)
      && (s'.writers[w].pending.Some? ==>
            forall p | p in s'.db :: s'.db[p] != s'.writers[w].pending.value.stored)
  {
    hide Run, Inv;
    var s := Run(sha, scheme, START, actions);
    var chain := s.writers[w].chain;
    StartIsOk(sha, scheme);
    RunKeepsInv(sha, scheme, START, actions);
    RunStaysStalled(sha, scheme, s, w, chain, head, s.db[NextPosition(chain, head)], later);
    var s' := Run(sha, scheme, s, later);
    RunKeepsInv(sha, scheme, s, later);
    StoredInPlace(Sealed(sha), scheme, s');
  }

  lemma StoredInPlace(ok: Row -> bool, scheme: Scheme, s: State)
    requires Inv(ok, scheme, s)
    ensures forall p | p in s.db :: PositionOf(s.db[p].row) == p
  {
    hide LinksInto, EventsBegunOnce, WritersInv, IssuersInv, CheckpointsInv;
  }

  ghost predicate CanGetOn(sha: Sha, scheme: Scheme, s: State, w: nat) {
    exists later: seq<Action> :: NoRestart(later, w) && HeadMoves(sha, scheme, s, w, later)
  }

  ghost predicate HeadMoves(sha: Sha, scheme: Scheme, s: State, w: nat, later: seq<Action>) {
    w in s.writers && w in Run(sha, scheme, s, later).writers
    && Run(sha, scheme, s, later).writers[w].head != s.writers[w].head
  }

  lemma {:induction false} FreshId(used: set<nat>) returns (n: nat)
    ensures forall u | u in used :: u < n
  {
    if used == {} {
      n := 0;
    } else {
      var x :| x in used;
      var m := FreshId(used - {x});
      n := if m > x then m else x + 1;
      assert forall u | u in used :: u == x || u in used - {x};
    }
  }

  function PlainEvent(id: nat): (event: Event) {
    Event(id, "", "", "", "", "", "", Null)
  }

  // One event, one attempt, carried out; then the answer arrives.
  lemma WriteMovesHead(sha: Sha, scheme: Scheme, s: State, w: nat, head: ChainHead, id: nat)
    requires Ready(s, w, head) && !IsBehind(s, w, head) && id !in s.taken
    ensures var stored := Stored(LinkRow(sha, s.writers[w].chain, head, PlainEvent(id), 0), PlainEvent(id));
      var later := [Begin(w, PlainEvent(id), 0)] + [Send(w)] + [Commit(stored)] + [Acknowledge(w)];
      HeadMoves(sha, scheme, s, w, later)
  {
    hide Run, LinkRow, HashHolds;
    var stored := Stored(LinkRow(sha, s.writers[w].chain, head, PlainEvent(id), 0), PlainEvent(id));
    AuditWriter.LinkRowPosition(sha, s.writers[w].chain, head, PlainEvent(id), 0);
    AuditWriter.BeginRun(sha, scheme, s, w, PlainEvent(id), 0);
    var begun := [Begin(w, PlainEvent(id), 0)];
    AuditWriter.SendRun(sha, scheme, s, begun, w);
    AuditWriter.CommitRun(sha, scheme, s, begun + [Send(w)], stored);
    AuditWriter.AcknowledgeRun(sha, scheme, s, begun + [Send(w)] + [Commit(stored)], w);
  }

  // A writer can get on without a restart if and only if its cached head is not behind.
  lemma GetsOnIffNotBehind(sha: Sha, scheme: Scheme, actions: seq<Action>, w: nat, head: ChainHead)
    requires Ready(Run(sha, scheme, START, actions), w, head)
    ensures var s := Run(sha, scheme, START, actions);
      CanGetOn(sha, scheme, s, w) <==> !IsBehind(s, w, head)
  {
    hide Run;
    var s := Run(sha, scheme, START, actions);
    if IsBehind(s, w, head) {
      forall later: seq<Action> | NoRestart(later, w) ensures !HeadMoves(sha, scheme, s, w, later) {
        StalledNeverStores(sha, scheme, actions, w, head, later);
      }
    } else {
      var id := FreshId(s.taken);
      WriteMovesHead(sha, scheme, s, w, head, id);
    }
  }

  // A lost answer is all it takes: the row is stored, no attempt hears of it, and the writer
  // gives up.
  lemma LostAnswerLeavesBehind(sha: Sha, scheme: Scheme, s: State, w: nat, head: ChainHead, event: Event,
                               timestamp: int)
    requires Ready(s, w, head) && !IsBehind(s, w, head) && event.id !in s.taken && WellFormed(event.details)
    ensures var stored := Stored(LinkRow(sha, s.writers[w].chain, head, event, timestamp), event);
      var lost := [Begin(w, event, timestamp)] + [Send(w)] + [Commit(stored)] + [Send(w)] + [Send(w)] + [GiveUp(w)];
      var s' := Run(sha, scheme, s, lost);
      && Ready(s', w, head) && IsBehind(s', w, head)
      && s'.db == s.db[NextPosition(s.writers[w].chain, head) := stored]
  {
    hide Run, LinkRow, HashHolds, WellFormed;
    var stored := Stored(LinkRow(sha, s.writers[w].chain, head, event, timestamp), event);
    AuditWriter.LinkRowPosition(sha, s.writers[w].chain, head, event, timestamp);
    AuditWriter.BeginRun(sha, scheme, s, w, event, timestamp);
    var begun := [Begin(w, event, timestamp)];
    AuditWriter.SendRun(sha, scheme, s, begun, w);
    AuditWriter.CommitRun(sha, scheme, s, begun + [Send(w)], stored);
    var sent := begun + [Send(w)] + [Commit(stored)];
    AuditWriter.SendRun(sha, scheme, s, sent, w);
    AuditWriter.SendRun(sha, scheme, s, sent + [Send(w)], w);
    AuditWriter.GiveUpRun(sha, scheme, s, sent + [Send(w)] + [Send(w)], w);
  }
}
