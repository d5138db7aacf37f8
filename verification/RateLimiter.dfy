// The rate limiter of src/services/rate_limiter.rs as it runs: records changed in place in
// a table shared by all requests of the process, then the counter shared by all replicas.
module RateLimiter {
  import opened Base
  import opened RateKeys
  import opened RateRules
  import T = RateTable
  import W = SlidingWindow
  import S = SharedWindow

  class RequestRecord {
    var timestamps: seq<int>
    var blockedUntil: Option<int>

    function Value(): (r: W.Record)
      reads this
    {
      W.Record(timestamps, blockedUntil)
    }

    constructor ()
      ensures Value() == W.NEW
    {
      timestamps, blockedUntil := [], None;
    }

    method IsBlocked(now: int) returns (blocked: bool)
      ensures blocked <==> W.Blocked(Value(), now)
    {
      blocked := blockedUntil.Some? && now < blockedUntil.value;
    }

    // `retain`: what is not after the cutoff goes, the rest stays in order.
    method CleanupExpired(window: nat, now: int)
      modifies this`timestamps
      ensures timestamps == W.After(old(timestamps), now - window)
    {
      var kept: seq<int> := [];
      for i := 0 to |timestamps|
        invariant timestamps == old(timestamps)
        invariant kept == W.After(timestamps[..i], now - window)
      {
        assert timestamps[..i + 1] == timestamps[..i] + [timestamps[i]];
        W.AfterAppend(timestamps[..i], now - window, timestamps[i]);
        if timestamps[i] > now - window {
          kept := kept + [timestamps[i]];
        }
      }
      assert timestamps[..|timestamps|] == timestamps;
      timestamps := kept;
    }

    method AddRequest(now: int)
      modifies this`timestamps
      ensures timestamps == old(timestamps) + [now]
    {
      timestamps := timestamps + [now];
    }

    method Block(duration: nat, now: int)
      modifies this`blockedUntil
      ensures blockedUntil == Some(now + duration)
    {
      blockedUntil := Some(now + duration);
    }

    // What one check does to the record.
    method Decide(rule: Rule, seen: int, cutAt: int, at: int) returns (decision: Decision)
      modifies this
      ensures (Value(), decision) == W.Checked(rule, old(Value()), seen, cutAt, at)
    {
      hide W.After;
      var blocked := IsBlocked(seen);
      if blocked {
        return StillBlocked;
      }
      CleanupExpired(rule.window, cutAt);
      if |timestamps| >= rule.maxRequests {
        Block(rule.block, at);
        decision := JustBlocked;
      } else {
        AddRequest(at);
        decision := Allowed;
      }
    }
  }

  // The table rate_limit, one row per (client, endpoint).
  class SharedTable {
    var rows: map<(string, string), S.Row>

    ghost function RowOf(bucket: (string, string)): (r: Option<S.Row>)
      reads this
    {
      if bucket in rows then Some(rows[bucket]) else None
    }

    // The four statements, one after the other, in one transaction. The index was read before,
    // by the clock of the process.
    method SharedDecision(bucket: (string, string), rule: Rule, now: nat, index: nat) returns (decision: Decision)
      modifies this
      ensures var counted := S.Counted(old(RowOf(bucket)), now, index);
        rows == old(rows)[bucket := S.Decided(rule, counted, now).0] && decision == S.Decided(rule, counted, now).1
      // In the fields of the row: another window starts again from one; a block begins over the
      // limit unless one is in force.
      ensures var before := old(RowOf(bucket));
        var hits := if before.Some? && before.value.window == index then before.value.hits + 1 else 1;
        var until := if before.Some? then before.value.blockedUntil else None;
        && (decision.JustBlocked? <==> hits > rule.maxRequests && (until.None? || until.value < now))
        && (decision.StillBlocked? <==> until.Some? && until.value > now)
        && RowOf(bucket) == Some(S.Row(hits, index,
             if decision.JustBlocked? then Some(now + S.BlockTime(rule)) else until, now))
    {
      if bucket in rows && rows[bucket].window != index {
        rows := rows[bucket := rows[bucket].(hits := 0, window := index)];
      }
      if bucket in rows {
        rows := rows[bucket := rows[bucket].(hits := rows[bucket].hits + 1, window := index, updatedAt := now)];
      } else {
        rows := rows[bucket := S.Row(1, index, None, now)];
      }
      var row := rows[bucket];
      var justBlocked := false;
      if row.hits > rule.maxRequests && (row.blockedUntil.None? || row.blockedUntil.value < now) {
        rows := rows[bucket := row.(blockedUntil := Some(now + S.BlockTime(rule)))];
        justBlocked := true;
      }
      row := rows[bucket];
      var blocked := row.blockedUntil.Some? && row.blockedUntil.value > now;
      decision := if justBlocked then JustBlocked else if blocked then StillBlocked else Allowed;
    }

    method CleanupSharedRecords(now: nat)
      modifies this
      ensures rows == map b | b in old(rows) && !(S.Expired(old(rows)[b], now) && old(rows)[b].updatedAt + HOUR < now)
                        :: old(rows)[b]
    {
      rows := map b | b in rows && !(S.Expired(rows[b], now) && rows[b].updatedAt + HOUR < now) :: rows[b];
    }
  }

  class RateLimiter {
    const defaultRule: Rule
    const endpointRules: map<string, Rule>
    var records: map<string, RequestRecord>

    constructor (defaultRule: Rule, endpointRules: map<string, Rule>)
      ensures this.defaultRule == defaultRule && this.endpointRules == endpointRules
      ensures Valid() && View() == map[]
    {
      this.defaultRule, this.endpointRules := defaultRule, endpointRules;
      records := map[];
    }

    // Every key has a record of its own.
    ghost predicate Valid()
      reads this
    {
      forall k, l | k in records && l in records :: records[k] == records[l] ==> k == l
    }

    ghost function View(): (r: map<string, W.Record>)
      reads this, records.Values
    {
      map k | k in records :: records[k].Value()
    }

    function GetRule(endpoint: string): (r: Rule) {
      if endpoint in endpointRules then endpointRules[endpoint] else defaultRule
    }

    ghost function RecordOf(key: string): (r: W.Record)
      reads this, records.Values
    {
      if key in records then records[key].Value() else W.NEW
    }

    // The layer inside the process: the record of this pair alone changes. The rule is the one
    // given for the endpoint, or the default. For the table of all pairs it is one more call;
    // `passes` are those before it.
    method CheckInProcess(client: string, endpoint: string, seen: int, cutAt: int, at: int, ghost passes: seq<T.Pass>)
      returns (decision: Decision)
      requires Valid()
      modifies this, records.Values
      ensures Valid() && fresh(records.Values - old(records.Values))
      ensures T.Table(View(), passes + if decision.Allowed? then [T.Pass(client, endpoint, at)] else [])
        == T.Step(endpointRules, defaultRule, T.Table(old(View()), passes),
                  T.CheckCall(client, endpoint, seen, cutAt, at))
      ensures var rule := if endpoint in endpointRules then endpointRules[endpoint] else defaultRule;
        var before, after := old(RecordOf(RecordKey(client, endpoint))), RecordOf(RecordKey(client, endpoint));
        && (after, decision) == W.Checked(rule, before, seen, cutAt, at)
        && W.ByTheRule(rule, before, after, decision, seen, cutAt, at)
    {
      var key := RecordKey(client, endpoint);
      var record := FindOrCreate(key);
      ghost var before := record.Value();
      label Found:
      var rule := GetRule(endpoint);
      decision := record.Decide(rule, seen, cutAt, at);
      OneChanged@Found(key);
      assert View() == old(View())[key := record.Value()];
      T.StepOfCheck(endpointRules, defaultRule, T.Table(old(View()), passes),
                    T.CheckCall(client, endpoint, seen, cutAt, at), before);
      W.CheckedByTheRule(rule, before, seen, cutAt, at);
      hide RecordKey, W.Checked, W.ByTheRule, T.Step, View;
    }

    twostate lemma OneChanged(key: string)
      requires old(Valid()) && records == old(records) && key in records
      requires forall o: RequestRecord | o in records.Values && o != records[key] :: unchanged(o)
      ensures View() == old(View())[key := records[key].Value()]
    {
      forall k | k in records && k != key ensures records[k].Value() == old(records[k].Value()) {
        assert records[k] in records.Values && records[k] != records[key];
      }
    }

    method FindOrCreate(key: string) returns (record: RequestRecord)
      requires Valid()
      modifies this
      ensures Valid() && key in records && records[key] == record
      ensures fresh(records.Values - old(records.Values))
      ensures View() == old(View())[key := old(RecordOf(key))]
      ensures record.Value() == old(RecordOf(key)) && (record in old(records.Values) || fresh(record))
    {
      if key !in records {
        record := new RequestRecord();
        records := records[key := record];
      } else {
        record := records[key];
      }
    }

    // Both layers. The shared one is asked only for endpoints with a rule of their own; when
    // it gives no answer the request goes through.
    method CheckRateLimitVerbose(client: string, endpoint: string, seen: int, cutAt: int, at: int,
                                 shared: SharedTable?, reachable: bool, now: nat, readAt: nat)
      returns (decision: Decision)
      requires Valid()
      modifies this, records.Values, shared
      ensures Valid()
      ensures var key := RecordKey(client, endpoint);
        var rule := if endpoint in endpointRules then endpointRules[endpoint] else defaultRule;
        var (record, answer) := W.Checked(rule, old(RecordOf(key)), seen, cutAt, at);
        && View() == old(View())[key := record]
        && (answer != Allowed ==> decision == answer)
        && (answer.Allowed? && (shared == null || endpoint !in endpointRules || !reachable) ==> decision == Allowed)
        && (answer.Allowed? && shared != null && endpoint in endpointRules && reachable ==>
              var counted := S.Counted(old(shared.RowOf((client, endpoint))), now, S.WindowIndex(rule, readAt));
              decision == S.Decided(rule, counted, now).1
              && shared.RowOf((client, endpoint)) == Some(S.Decided(rule, counted, now).0))
    {
      hide W.After, S.WindowIndex, S.BlockTime, W.Checked;
      decision := CheckInProcess(client, endpoint, seen, cutAt, at, []);
      if decision.Allowed? && shared != null && endpoint in endpointRules && reachable {
        var index := S.WindowIndex(GetRule(endpoint), readAt);
        decision := shared.SharedDecision((client, endpoint), GetRule(endpoint), now, index);
      }
    }

    method CleanupExpiredRecords(now: int)
      requires Valid()
      modifies this
      ensures Valid()
      ensures View() == map k | k in old(View()) && W.Kept(old(View())[k], now) :: old(View())[k]
    {
      records := map k | k in records && W.Kept(records[k].Value(), now) :: records[k];
    }

    // The records of one client, on all endpoints.
    method ResetLimit(client: string)
      requires Valid()
      modifies this
      ensures Valid()
      ensures View() == map k | k in old(View()) && !(RecordKey(client, "") <= k) :: old(View())[k]
    {
      records := map k | k in records && !(RecordKey(client, "") <= k) :: records[k];
    }

    method GetRemainingRequests(client: string, endpoint: string, now: int) returns (remaining: nat)
      ensures var rule := if endpoint in endpointRules then endpointRules[endpoint] else defaultRule;
        var record := RecordOf(RecordKey(client, endpoint));
        var blocked := record.blockedUntil.Some? && now < record.blockedUntil.value;
        remaining == if blocked || |record.timestamps| > rule.maxRequests then 0
                     else rule.maxRequests - |record.timestamps|
    {
      var rule := GetRule(endpoint);
      remaining := rule.maxRequests;
      if RecordKey(client, endpoint) in records {
        var record := records[RecordKey(client, endpoint)];
        var blocked := record.IsBlocked(now);
        if blocked || |record.timestamps| > rule.maxRequests {
          remaining := 0;
        } else {
          remaining := rule.maxRequests - |record.timestamps|;
        }
      }
    }
  }
}
