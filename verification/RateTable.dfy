// The whole table of the in-process limiter: many clients and endpoints on one clock. What
// SlidingWindow proves of one pair holds of every pair in every mixed run.
module RateTable {
  import opened Base
  import opened RateRules
  import W = SlidingWindow
  import L = RateKeys

  datatype Call =
    | CheckCall(client: string, endpoint: string, seen: int, cutAt: int, at: int)
    | SweepCall(now: int)

  datatype Pass = Pass(client: string, endpoint: string, at: int)

  datatype Table = Table(records: map<string, W.Record>, passes: seq<Pass>)

  function Find(records: map<string, W.Record>, key: string): (r: Option<W.Record>) {
    if key in records then Some(records[key]) else None
  }

  // An endpoint without a rule of its own goes by the default.
  function RuleOf(rules: map<string, Rule>, fallback: Rule, endpoint: string): (rule: Rule) {
    if endpoint in rules then rules[endpoint] else fallback
  }

  function Step(rules: map<string, Rule>, fallback: Rule, t: Table, call: Call): (r: Table) {
    match call
    case CheckCall(client, endpoint, seen, cutAt, at) =>
      var key := L.RecordKey(client, endpoint);
      var record := Find(t.records, key);
      var (next, decision) :=
        W.Checked(RuleOf(rules, fallback, endpoint), if record.Some? then record.value else W.NEW, seen, cutAt, at);
      Table(t.records[key := next], if decision.Allowed? then t.passes + [Pass(client, endpoint, at)] else t.passes)
    case SweepCall(now) =>
      t.(records := map k | k in t.records && W.Kept(t.records[k], now) :: t.records[k])
  }

  function Run(rules: map<string, Rule>, fallback: Rule, calls: seq<Call>): (r: Table) {
    if calls == [] then Table(map[], [])
    else Step(rules, fallback, Run(rules, fallback, calls[..|calls| - 1]), calls[|calls| - 1])
  }

  function EventOf(call: Call): (r: W.Event) {
    match call
    case CheckCall(_, _, seen, cutAt, at) => W.Check(seen, cutAt, at)
    case SweepCall(now) => W.Cleanup(now)
  }

  predicate Concerns(call: Call, client: string, endpoint: string) {
    call.SweepCall? || (call.client == client && call.endpoint == endpoint)
  }

  function Project(calls: seq<Call>, client: string, endpoint: string): (r: seq<W.Event>) {
    if calls == [] then []
    else
      var last := calls[|calls| - 1];
      Project(calls[..|calls| - 1], client, endpoint) + if Concerns(last, client, endpoint) then [EventOf(last)] else []
  }

  function TimesOf(passes: seq<Pass>, client: string, endpoint: string): (r: seq<int>) {
    if passes == [] then []
    else
      var last := passes[|passes| - 1];
      TimesOf(passes[..|passes| - 1], client, endpoint)
      + if last.client == client && last.endpoint == endpoint then [last.at] else []
  }

  predicate PlainCalls(calls: seq<Call>) {
    forall i | 0 <= i < |calls| :: calls[i].CheckCall? ==> L.Plain(calls[i].client)
  }

  function Events(calls: seq<Call>): (r: seq<W.Event>) {
    seq(|calls|, i requires 0 <= i < |calls| => EventOf(calls[i]))
  }

  predicate Clocked(calls: seq<Call>) {
    W.Clocked(Events(calls))
  }

  lemma TimesGrow(passes: seq<Pass>, p: Pass, client: string, endpoint: string)
    ensures TimesOf(passes + [p], client, endpoint)
      == TimesOf(passes, client, endpoint) + if p.client == client && p.endpoint == endpoint then [p.at] else []
  {
    assert (passes + [p])[..|passes|] == passes;
  }

  // A check by the record it finds.
  lemma StepOfCheck(rules: map<string, Rule>, fallback: Rule, t: Table, call: Call, record: W.Record)
    requires call.CheckCall?
    requires var found := Find(t.records, L.RecordKey(call.client, call.endpoint));
      record == if found.Some? then found.value else W.NEW
    ensures var (next, decision) :=
        W.Checked(RuleOf(rules, fallback, call.endpoint), record, call.seen, call.cutAt, call.at);
      Step(rules, fallback, t, call) == Table(t.records[L.RecordKey(call.client, call.endpoint) := next],
        t.passes + if decision.Allowed? then [Pass(call.client, call.endpoint, call.at)] else [])
  {
    hide W.Checked, L.RecordKey;
  }

  // What one call does to one pair.
  lemma StepOfPair(rules: map<string, Rule>, fallback: Rule, t: Table, call: Call, trace: W.Trace, client: string,
                   endpoint: string)
    requires L.Plain(client) && (call.CheckCall? ==> L.Plain(call.client))
    requires Find(t.records, L.RecordKey(client, endpoint)) == trace.record
    requires TimesOf(t.passes, client, endpoint) == trace.passes
    ensures var t' := Step(rules, fallback, t, call);
      var rule := RuleOf(rules, fallback, endpoint);
      var trace' := if Concerns(call, client, endpoint) then W.Step(rule, trace, EventOf(call)) else trace;
      && Find(t'.records, L.RecordKey(client, endpoint)) == trace'.record
      && TimesOf(t'.passes, client, endpoint) == trace'.passes
  {
    hide W.Checked, W.Kept, TimesOf, L.RecordKey, L.Plain;
    match call
    case CheckCall(c, e, seen, cutAt, at) =>
      L.KeyIsInjective(client, endpoint, c, e);
      TimesGrow(t.passes, Pass(c, e, at), client, endpoint);
    case SweepCall(now) =>
  }

  lemma {:induction false} RunOfPair(rules: map<string, Rule>, fallback: Rule, calls: seq<Call>, client: string,
                                     endpoint: string)
    requires L.Plain(client) && PlainCalls(calls)
    ensures var t := Run(rules, fallback, calls);
      var trace := W.Run(RuleOf(rules, fallback, endpoint), Project(calls, client, endpoint));
      && Find(t.records, L.RecordKey(client, endpoint)) == trace.record
      && TimesOf(t.passes, client, endpoint) == trace.passes
  {
    hide Step, W.Step, L.RecordKey, L.Plain;
    if calls != [] {
      var before, last := calls[..|calls| - 1], calls[|calls| - 1];
      var rule := RuleOf(rules, fallback, endpoint);
      RunOfPair(rules, fallback, before, client, endpoint);
      StepOfPair(rules, fallback, Run(rules, fallback, before), last, W.Run(rule, Project(before, client, endpoint)),
                 client, endpoint);
      RunLast(rule, Project(before, client, endpoint), EventOf(last));
    }
  }

  lemma RunLast(rule: Rule, events: seq<W.Event>, e: W.Event)
    ensures W.Run(rule, events + [e]) == W.Step(rule, W.Run(rule, events), e)
    ensures events + [] == events
  {
    hide W.Step;
    assert (events + [e])[..|events|] == events;
  }

  // The events of one pair are on the clock too.
  lemma {:induction false} ProjectIsClocked(calls: seq<Call>, client: string, endpoint: string)
    requires Clocked(calls)
    ensures var events := Project(calls, client, endpoint);
      && W.Clocked(events)
      && (events != [] ==> calls != [] && W.Clock(events) <= W.Ended(EventOf(calls[|calls| - 1])))
  {
    if calls != [] {
      var before, last := calls[..|calls| - 1], calls[|calls| - 1];
      PrefixIsClocked(calls);
      ProjectIsClocked(before, client, endpoint);
      LastIsLater(calls);
      if Concerns(last, client, endpoint) {
        AppendClocked(Project(before, client, endpoint), EventOf(last));
      }
    }
  }

  lemma PrefixIsClocked(calls: seq<Call>)
    requires Clocked(calls) && calls != []
    ensures Clocked(calls[..|calls| - 1])
  {
    var events := Events(calls);
    assert Events(calls[..|calls| - 1]) == events[..|events| - 1];
    FrontIsClocked(events);
  }

  lemma FrontIsClocked(events: seq<W.Event>)
    requires W.Clocked(events) && events != []
    ensures W.Clocked(events[..|events| - 1])
  {
    var front := events[..|events| - 1];
    forall i | 0 <= i < |front| - 1 ensures W.Ended(front[i]) <= W.Began(front[i + 1]) {
      assert W.Ended(events[i]) <= W.Began(events[i + 1]);
    }
  }

  lemma LastIsLater(calls: seq<Call>)
    requires Clocked(calls) && calls != []
    ensures var last := EventOf(calls[|calls| - 1]);
      && (last.Check? ==> last.seen <= last.cutAt <= last.at)
      && W.Began(last) <= W.Ended(last)
      && (|calls| > 1 ==> W.Ended(EventOf(calls[|calls| - 2])) <= W.Began(last))
  {
    var n := |calls|;
    assert Events(calls)[n - 1] == EventOf(calls[n - 1]);
    if n > 1 {
      assert Events(calls)[n - 2] == EventOf(calls[n - 2]);
      assert W.Ended(Events(calls)[n - 2]) <= W.Began(Events(calls)[n - 2 + 1]);
    }
  }

  lemma AppendClocked(events: seq<W.Event>, e: W.Event)
    requires W.Clocked(events) && (e.Check? ==> e.seen <= e.cutAt <= e.at)
    requires events != [] ==> W.Clock(events) <= W.Began(e)
    ensures W.Clocked(events + [e])
  {
  }

  // In every run over the whole table, in any half-open interval of a window's length, a
  // pair gets at most its number of requests through, if its window is at most an hour: by
  // the rule of its endpoint, or by the default where there is none.
  lemma LimitForEveryPair(rules: map<string, Rule>, fallback: Rule, calls: seq<Call>, client: string, endpoint: string,
                          from: int)
    requires Clocked(calls) && PlainCalls(calls) && L.Plain(client)
    ensures var times := TimesOf(Run(rules, fallback, calls).passes, client, endpoint);
      && (endpoint in rules && (rules[endpoint].window <= HOUR || rules[endpoint].maxRequests == 0) ==>
            |W.Within(times, from, rules[endpoint].window)| <= rules[endpoint].maxRequests)
      && (endpoint !in rules && (fallback.window <= HOUR || fallback.maxRequests == 0) ==>
            |W.Within(times, from, fallback.window)| <= fallback.maxRequests)
  {
    hide Run, Project, W.Run, TimesOf, W.Clocked, L.Plain;
    RunOfPair(rules, fallback, calls, client, endpoint);
    ProjectIsClocked(calls, client, endpoint);
    W.BoundedIffShortWindow(RuleOf(rules, fallback, endpoint));
  }
}
