// The writer task of src/services/audit_logger.rs as it runs: a cached chain head, a retry
// loop, and a count of dropped events. Every call, taken by itself, is shown to be a run of
// the machine in AuditLog; what others do between its statements is left to that machine.
module AuditWriter {
  import opened Base
  import opened CanonicalJson
  import opened AuditIntegrity
  import opened AuditVerify
  import opened AuditLog

  // The table user_activity with its unique index on (chain_id, seq).
  class ActivityTable {
    var rows: map<Position, Stored>

    constructor ()
      ensures rows == map[]
    {
      rows := map[];
    }

    method Create(stored: Stored, fate: Fate) returns (ok: bool)
      modifies this
      ensures rows == if fate.NotExecuted? then old(rows) else AfterCommit(old(rows), stored)
      ensures ok <==> fate.Answered? && PositionOf(stored.row) !in old(rows)
    {
      ok := false;
      if !fate.NotExecuted? && PositionOf(stored.row) !in rows {
        rows := rows[PositionOf(stored.row) := stored];
        ok := fate.Answered?;
      }
    }
  }

  // SELECT ... WHERE chain_id = $chain_id ORDER BY seq DESC LIMIT 1, on either table.
  method LastOfChain<T>(rows: map<Position, T>, chain: string) returns (seqNo: nat)
    requires forall p | p in rows :: p.1 >= 1
    ensures IsHead(rows, chain, seqNo)
  {
    seqNo := 0;
    var left := rows.Keys;
    while left != {}
      invariant left <= rows.Keys
      invariant seqNo > 0 ==> (chain, seqNo) in rows
      invariant forall p | p in rows.Keys - left && p.0 == chain :: p.1 <= seqNo
      decreases left
    {
      var p :| p in left;
      left := left - {p};
      if p.0 == chain && p.1 > seqNo {
        seqNo := p.1;
      }
    }
  }

  lemma {:induction false} RunOneMore(sha: Sha, scheme: Scheme, s: State, actions: seq<Action>, a: Action)
    ensures Run(sha, scheme, s, actions + [a]) == Step(sha, scheme, Run(sha, scheme, s, actions), a)
    decreases |actions|
  {
    hide Step;
    if actions == [] {
      assert ([] + [a])[1..] == [];
    } else {
      assert (actions + [a])[1..] == actions[1..] + [a];
      RunOneMore(sha, scheme, Step(sha, scheme, s, actions[0]), actions[1..], a);
    }
  }

  lemma SendRun(sha: Sha, scheme: Scheme, s: State, actions: seq<Action>, w: nat)
    requires CanSend(Run(sha, scheme, s, actions), w)
    ensures Run(sha, scheme, s, actions + [Send(w)]) == SendAttempt(Run(sha, scheme, s, actions), w)
  {
    hide Run, CanSend, SendAttempt;
    RunOneMore(sha, scheme, s, actions, Send(w));
  }

  lemma CommitRun(sha: Sha, scheme: Scheme, s: State, actions: seq<Action>, stored: Stored)
    requires stored in Run(sha, scheme, s, actions).sent
    ensures var now := Run(sha, scheme, s, actions);
      Run(sha, scheme, s, actions + [Commit(stored)]) == now.(db := AfterCommit(now.db, stored))
  {
    hide Run, AfterCommit;
    RunOneMore(sha, scheme, s, actions, Commit(stored));
  }

  lemma AcknowledgeRun(sha: Sha, scheme: Scheme, s: State, actions: seq<Action>, w: nat)
    requires w in Run(sha, scheme, s, actions).writers
    ensures var now := Run(sha, scheme, s, actions);
      Run(sha, scheme, s, actions + [Acknowledge(w)])
        == SetWriter(now, w, AfterAcknowledge(now.db, now.writers[w]))
  {
    hide Run, AfterAcknowledge;
    RunOneMore(sha, scheme, s, actions, Acknowledge(w));
  }

  lemma GiveUpRun(sha: Sha, scheme: Scheme, s: State, actions: seq<Action>, w: nat)
    requires w in Run(sha, scheme, s, actions).writers
    ensures var now := Run(sha, scheme, s, actions);
      Run(sha, scheme, s, actions + [GiveUp(w)]) == SetWriter(now, w, AfterGiveUp(now.writers[w]))
  {
    hide Run, AfterGiveUp;
    RunOneMore(sha, scheme, s, actions, GiveUp(w));
  }

  lemma BeginRun(sha: Sha, scheme: Scheme, s: State, w: nat, event: Event, timestamp: int)
    requires CanBegin(s, w, event)
    ensures Run(sha, scheme, s, [Begin(w, event, timestamp)]) == BeginWrite(s, w,
      Stored(LinkRow(sha, s.writers[w].chain, s.writers[w].head.value, event, timestamp), event))
  {
    hide LinkRow, BeginWrite;
    RunOneMore(sha, scheme, s, [], Begin(w, event, timestamp));
    assert [] + [Begin(w, event, timestamp)] == [Begin(w, event, timestamp)];
  }

  // One attempt of the retry loop: the request is sent, and carried out unless it gets lost.
  function Attempt(w: nat, stored: Stored, fate: Fate): (actions: seq<Action>) {
    [Send(w)] + if fate.NotExecuted? then [] else [Commit(stored)]
  }

  lemma AttemptRun(sha: Sha, scheme: Scheme, s: State, actions: seq<Action>, w: nat, stored: Stored, left: nat,
                   fate: Fate)
    requires var now := Run(sha, scheme, s, actions);
      w in now.writers && now.writers[w].pending == Some(Pending(stored, left)) && left > 0
    ensures var now, next := Run(sha, scheme, s, actions), Run(sha, scheme, s, actions + Attempt(w, stored, fate));
      && next.db == (if fate.NotExecuted? then now.db else AfterCommit(now.db, stored))
      && w in next.writers && next.writers[w] == now.writers[w].(pending := Some(Pending(stored, left - 1)))
  {
    hide Run, AfterCommit;
    SendRun(sha, scheme, s, actions, w);
    if fate.NotExecuted? {
      assert Attempt(w, stored, fate) == [Send(w)];
    } else {
      CommitRun(sha, scheme, s, actions + [Send(w)], stored);
      assert actions + Attempt(w, stored, fate) == actions + [Send(w)] + [Commit(stored)];
    }
  }

  lemma AcknowledgedRun(sha: Sha, scheme: Scheme, s: State, actions: seq<Action>, w: nat, stored: Stored, left: nat)
    requires var now := Run(sha, scheme, s, actions);
      && w in now.writers && now.writers[w].pending == Some(Pending(stored, left)) && stored.row.seqNo >= 1
      && PositionOf(stored.row) in now.db && now.db[PositionOf(stored.row)] == stored
    ensures var now, next := Run(sha, scheme, s, actions), Run(sha, scheme, s, actions + [Acknowledge(w)]);
      && next.db == now.db && w in next.writers
      && next.writers[w] == Writer(now.writers[w].chain, Some(ChainHead(stored.row.seqNo, stored.row.eventHash)), None)
  {
    hide Run;
    AcknowledgeRun(sha, scheme, s, actions, w);
  }

  lemma GivenUpRun(sha: Sha, scheme: Scheme, s: State, actions: seq<Action>, w: nat, stored: Stored)
    requires var now := Run(sha, scheme, s, actions);
      w in now.writers && now.writers[w].pending == Some(Pending(stored, 0))
    ensures var now, next := Run(sha, scheme, s, actions), Run(sha, scheme, s, actions + [GiveUp(w)]);
      next.db == now.db && w in next.writers && next.writers[w] == now.writers[w].(pending := None)
  {
    hide Run;
    GiveUpRun(sha, scheme, s, actions, w);
  }

  // What a write leaves in the table: the row of the event at the position after the head,
  // column by column, if that position was free and a request reached the database; nothing
  // else is touched.
  ghost predicate Outcome(sha: Sha, chain: string, head: ChainHead, event: Event, timestamp: int, fate: Fate,
                          before: map<Position, Stored>, after: map<Position, Stored>) {
    var p := (chain, head.seqNo + 1);
    if fate.NotExecuted? || p in before then after == before
    else
      && p in after && after == before[p := after[p]] && after[p].event == event
      && var row := after[p].row;
      && row.chainId == chain && row.seqNo == head.seqNo + 1 && row.previousHash == head.hash
      && row.action == event.action && row.category == event.category && row.status == event.status
      && row.actorIdentityId == event.actorKey && row.ipAddress == event.ipAddress
      && row.userAgent == event.userAgent && row.details == event.details && row.timestamp == timestamp
      && row.eventHash == EventHash(sha, DigestInput(
           chain, head.seqNo + 1, head.hash, event.action, event.category, event.status, event.actorKey,
           event.ipAddress, event.userAgent, Canonical(event.details), timestamp))
  }

  // What the writer makes of it: its head moves on exactly if the row was written and it hears
  // so; otherwise the event counts as lost and the log as unhealthy.
  ghost predicate Accounted(chain: string, known: ChainHead, fate: Fate,
                            before: map<Position, Stored>, after: map<Position, Stored>, head: Option<ChainHead>,
                            lost: nat, lost': nat, healthy: bool, healthy': bool) {
    var p := (chain, known.seqNo + 1);
    if p !in before && fate.Answered? then
      p in after && head == Some(ChainHead(p.1, after[p].row.eventHash)) && lost' == lost && healthy' == healthy
    else head == Some(known) && lost' == lost + 1 && !healthy'
  }

  // The last row of the chain and its hash, or genesis if there is none.
  ghost predicate IsEnd(rows: map<Position, Stored>, chain: string, end: ChainHead) {
    if end.seqNo == 0 then
      && end.hash == "0000000000000000000000000000000000000000000000000000000000000000"
      && forall p | p in rows :: p.0 != chain
    else
      && (chain, end.seqNo) in rows && rows[(chain, end.seqNo)].row.eventHash == end.hash
      && forall p | p in rows && p.0 == chain :: p.1 <= end.seqNo
  }

  lemma EndIsHead(rows: map<Position, Stored>, chain: string, end: ChainHead)
    ensures IsEnd(rows, chain, end) ==>
      IsHead(rows, chain, end.seqNo) && end.hash == HeadHash(rows, chain, end.seqNo)
  {
  }

  lemma OutcomeIsNumbered(sha: Sha, chain: string, head: ChainHead, event: Event, timestamp: int, fate: Fate,
                          before: map<Position, Stored>, after: map<Position, Stored>)
    requires Outcome(sha, chain, head, event, timestamp, fate, before, after) && forall p | p in before :: p.1 >= 1
    ensures forall p | p in after :: p.1 >= 1
  {
    hide EventHash, Canonical;
  }

  lemma LinkedIsOutcome(sha: Sha, chain: string, head: ChainHead, event: Event, timestamp: int, fate: Fate,
                        before: map<Position, Stored>)
    ensures Outcome(sha, chain, head, event, timestamp, fate, before,
                    if fate.NotExecuted? then before
                    else AfterCommit(before, Stored(LinkRow(sha, chain, head, event, timestamp), event)))
  {
    hide EventHash, Canonical;
  }

  class WriterTask {
    const chain: string
    var head: Option<ChainHead>
    var dropped: nat
    var healthy: bool

    constructor (chain: string)
      ensures this.chain == chain && head == None && dropped == 0 && healthy
    {
      this.chain := chain;
      head, dropped, healthy := None, 0, true;
    }

    method MarkDropped()
      modifies this
      ensures dropped == old(dropped) + 1 && !healthy && head == old(head)
    {
      healthy, dropped := false, dropped + 1;
    }

    // The machine state s sees this writer, under number w, and this table.
    ghost predicate Matches(s: State, w: nat, table: ActivityTable)
      reads this, table
    {
      s.db == table.rows && w in s.writers && s.writers[w] == Writer(chain, head, None)
    }

    // A failed read leaves the head unknown; an empty chain is not a failed read, and starts
    // from genesis.
    method LoadChainHead(table: ActivityTable, readable: bool)
      requires forall p | p in table.rows :: p.1 >= 1
      modifies this
      ensures dropped == old(dropped) && healthy == old(healthy)
      ensures !readable ==> head == None
      ensures readable ==> head.Some? && IsEnd(table.rows, chain, head.value)
    {
      head := None;
      if readable {
        var seqNo := LastOfChain(table.rows, chain);
        var hash := GENESIS_HASH;
        if (chain, seqNo) in table.rows {
          hash := table.rows[(chain, seqNo)].row.eventHash;
        }
        head := Some(ChainHead(seqNo, hash));
      }
    }

    // One event: position and hash are fixed once, then up to three attempts.
    method WriteWithRetry(sha: Sha, table: ActivityTable, event: Event, timestamp: int, fates: seq<Fate>,
                          ghost scheme: Scheme, ghost s: State, ghost w: nat)
      returns (ghost actions: seq<Action>)
      requires head.Some? && |fates| == 3
      requires Matches(s, w, table) && event.id !in s.taken && WellFormed(event.details)
      modifies this, table
      // The call is a run of the machine.
      ensures Matches(Run(sha, scheme, s, actions), w, table)
      // What happened is decided by the first attempt that reached the database.
      ensures Outcome(sha, chain, old(head).value, event, timestamp, Decisive(fates), old(table.rows), table.rows)
      ensures Accounted(chain, old(head).value, Decisive(fates), old(table.rows), table.rows, head,
                        old(dropped), dropped, old(healthy), healthy)
    {
      hide Run, LinkRow, HashHolds, WellFormed, Attempt, Decisive, Outcome;
      var row := LinkRow(sha, chain, head.value, event, timestamp);
      var stored := Stored(row, event);
      LinkRowPosition(sha, chain, head.value, event, timestamp);
      actions := [Begin(w, event, timestamp)];
      BeginRun(sha, scheme, s, w, event, timestamp);
      assert Decisive(fates[..0]) == NotExecuted by {
        NoneYet();
      }
      for attempt := 0 to WRITE_ATTEMPTS
        invariant head == old(head) && dropped == old(dropped) && healthy == old(healthy)
        invariant var now := Run(sha, scheme, s, actions);
          && now.db == table.rows && w in now.writers
          && now.writers[w] == Writer(chain, head, Some(Pending(stored, WRITE_ATTEMPTS - attempt)))
        invariant table.rows == if Decisive(fates[..attempt]) == NotExecuted then old(table.rows)
                                else AfterCommit(old(table.rows), stored)
        invariant Decisive(fates[..attempt]) == Answered ==> PositionOf(row) in old(table.rows)
      {
        DecisiveGrows(fates, attempt);
        AttemptRun(sha, scheme, s, actions, w, stored, WRITE_ATTEMPTS - attempt, fates[attempt]);
        actions := actions + Attempt(w, stored, fates[attempt]);
        var ok := table.Create(stored, fates[attempt]);
        if ok {
          AcknowledgedRun(sha, scheme, s, actions, w, stored, WRITE_ATTEMPTS - attempt - 1);
          actions := actions + [Acknowledge(w)];
          DecisiveStays(fates, attempt + 1);
          LinkedIsOutcome(sha, chain, old(head).value, event, timestamp, Decisive(fates), old(table.rows));
          head := Some(ChainHead(row.seqNo, row.eventHash));
          return;
        }
      }
      assert fates[..WRITE_ATTEMPTS] == fates;
      LinkedIsOutcome(sha, chain, old(head).value, event, timestamp, Decisive(fates), old(table.rows));
      GivenUpRun(sha, scheme, s, actions, w, stored);
      actions := actions + [GiveUp(w)];
      MarkDropped();
    }

    // One message of the queue: the head is read once and then cached; while it cannot be
    // read nothing is written.
    method HandleEvent(sha: Sha, table: ActivityTable, event: Event, timestamp: int, readable: bool, fates: seq<Fate>,
                       ghost scheme: Scheme, ghost s: State, ghost w: nat)
      returns (ghost actions: seq<Action>)
      requires |fates| == 3 && forall p | p in table.rows :: p.1 >= 1
      requires Matches(s, w, table) && event.id !in s.taken && WellFormed(event.details)
      modifies this, table
      ensures Matches(Run(sha, scheme, s, actions), w, table)
      ensures old(head) == None && !readable ==>
        table.rows == old(table.rows) && head == None && dropped == old(dropped) + 1 && !healthy
      // With a head, cached or read, the event is written after it.
      ensures old(head).Some? || readable ==> exists known: ChainHead ::
        && (if old(head).Some? then known == old(head).value else IsEnd(old(table.rows), chain, known))
        && Outcome(sha, chain, known, event, timestamp, Decisive(fates), old(table.rows), table.rows)
        && Accounted(chain, known, Decisive(fates), old(table.rows), table.rows, head,
                     old(dropped), dropped, old(healthy), healthy)
      ensures forall p | p in table.rows :: p.1 >= 1
    {
      hide Run, HashHolds, WellFormed, Step, Decisive, Outcome, Accounted;
      ghost var now, loading := s, [];
      assert Run(sha, scheme, s, []) == s by {
        RunNothing(sha, scheme, s);
      }
      if head == None {
        LoadChainHead(table, readable);
        if head.Some? {
          ghost var seqNo: nat := head.value.seqNo;
          EndIsHead(table.rows, chain, head.value);
          hide IsEnd;
          loading := [LoadHead(w, seqNo)];
          LoadRun(sha, scheme, s, w, seqNo);
          now := SetWriter(s, w, AfterLoad(s.db, s.writers[w], seqNo));
        }
      }
      if head.Some? {
        ghost var known := head.value;
        ghost var writing := WriteWithRetry(sha, table, event, timestamp, fates, scheme, now, w);
        actions := loading + writing;
        RunInTwoParts(sha, scheme, s, loading, writing);
        OutcomeIsNumbered(sha, chain, known, event, timestamp, Decisive(fates), old(table.rows), table.rows);
      } else {
        MarkDropped();
        actions := [];
      }
    }
  }

  lemma RunNothing(sha: Sha, scheme: Scheme, s: State)
    ensures Run(sha, scheme, s, []) == s
  {
  }

  lemma LoadRun(sha: Sha, scheme: Scheme, s: State, w: nat, seqNo: nat)
    requires w in s.writers
    ensures Run(sha, scheme, s, [LoadHead(w, seqNo)]) == SetWriter(s, w, AfterLoad(s.db, s.writers[w], seqNo))
  {
    hide AfterLoad;
    RunOneMore(sha, scheme, s, [], LoadHead(w, seqNo));
    assert [] + [LoadHead(w, seqNo)] == [LoadHead(w, seqNo)];
  }

  lemma LinkRowPosition(sha: Sha, chain: string, head: ChainHead, event: Event, timestamp: int)
    ensures LinkRow(sha, chain, head, event, timestamp).seqNo == head.seqNo + 1
    ensures LinkRow(sha, chain, head, event, timestamp).chainId == chain
  {
  }

  // The fate of the first request that was executed at all.
  function Decisive(fates: seq<Fate>): (r: Fate) {
    if fates == [] then NotExecuted
    else if fates[0] != NotExecuted then fates[0]
    else Decisive(fates[1..])
  }

  lemma NoneYet()
    ensures Decisive([]) == NotExecuted
  {
  }

  lemma {:induction false} DecisiveGrows(fates: seq<Fate>, n: nat)
    requires n < |fates|
    ensures Decisive(fates[..n + 1])
      == if Decisive(fates[..n]) != NotExecuted then Decisive(fates[..n]) else fates[n]
  {
    if n > 0 {
      assert fates[..n + 1][1..] == fates[1..][..n] && fates[..n][1..] == fates[1..][..n - 1];
      DecisiveGrows(fates[1..], n - 1);
    }
  }

  lemma {:induction false} DecisiveStays(fates: seq<Fate>, n: nat)
    requires n <= |fates| && Decisive(fates[..n]) != NotExecuted
    ensures Decisive(fates) == Decisive(fates[..n])
  {
    if fates[0] == NotExecuted {
      assert fates[..n][1..] == fates[1..][..n - 1];
      DecisiveStays(fates[1..], n - 1);
    }
  }
}
