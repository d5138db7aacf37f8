// Two-factor codes of one user (src/services/mfa.rs): concurrent requests read the stored
// configuration, match a code, and then consume its time step (section 5.2 of RFC 6238) or
// its backup code by a conditional update. Time is in seconds.
module Mfa {
  import opened Base

  const TOTP_STEP_SECS := 30

  datatype Status = Pending | Enabled

  // `codes` are the salted hashes of the backup codes; a disabled user has no row.
  datatype Config = Config(status: Status, secret: nat, codes: seq<nat>, lastStep: Option<int>)

  // The code generator of a secret, and the test of a backup code against a hash.
  datatype Crypto = Crypto(generate: (nat, int) -> string, hashMatches: (nat, string) -> bool)

  // ---------------------------------------------------------------------------
  // Matching a code.

  predicate Hits(crypto: Crypto, secret: nat, code: string, step: int) {
    step >= 0 && crypto.generate(secret, step) == code
  }

  // The earliest of the three steps around `now` that gives the code.
  function Match(crypto: Crypto, secret: nat, code: string, now: int): (r: Option<int>) {
    var current := now / TOTP_STEP_SECS;
    if Hits(crypto, secret, code, current - 1) then Some(current - 1)
    else if Hits(crypto, secret, code, current) then Some(current)
    else if Hits(crypto, secret, code, current + 1) then Some(current + 1)
    else None
  }

  // The code is that of this step, which begins within one period of thirty seconds around the
  // clock's own, and of no earlier such step.
  ghost predicate EarliestHit(crypto: Crypto, secret: nat, code: string, now: int, step: int) {
    && step >= 0 && now / 30 - 1 <= step <= now / 30 + 1 && crypto.generate(secret, step) == code
    && forall earlier | 0 <= earlier && now / 30 - 1 <= earlier < step :: crypto.generate(secret, earlier) != code
  }

  lemma MatchIsEarliest(crypto: Crypto, secret: nat, code: string, now: int)
    ensures forall step: int ::
      Match(crypto, secret, code, now) == Some(step) <==> EarliestHit(crypto, secret, code, now, step)
  {
  }

  method MatchTotpStep(crypto: Crypto, secret: nat, code: string, now: int) returns (r: Option<int>)
    ensures r == Match(crypto, secret, code, now)
    ensures r.Some? ==>
      Hits(crypto, secret, code, r.value) && -1 <= r.value - now / TOTP_STEP_SECS <= 1
    ensures r.None? ==>
      forall step | -1 <= step - now / TOTP_STEP_SECS <= 1 :: !Hits(crypto, secret, code, step)
    ensures r.Some? ==> EarliestHit(crypto, secret, code, now, r.value)
  {
    var currentStep := now / TOTP_STEP_SECS;
    for offset := -1 to 2
      invariant forall step | currentStep - 1 <= step < currentStep + offset :: !Hits(crypto, secret, code, step)
    {
      var step := currentStep + offset;
      if step >= 0 && crypto.generate(secret, step) == code {
        return Some(step);
      }
    }
    r := None;
  }

  // The first stored hash that the code answers to.
  function FindHash(crypto: Crypto, codes: seq<nat>, code: string): (r: Option<nat>)
    ensures r.Some? ==> r.value in codes && crypto.hashMatches(r.value, code)
    ensures r.None? ==> forall i | 0 <= i < |codes| :: !crypto.hashMatches(codes[i], code)
  {
    if codes == [] then None
    else if crypto.hashMatches(codes[0], code) then Some(codes[0])
    else FindHash(crypto, codes[1..], code)
  }

  // The code answers to the hash at this place, and to none before it.
  ghost predicate FirstAnswer(crypto: Crypto, codes: seq<nat>, code: string, i: nat) {
    && i < |codes| && crypto.hashMatches(codes[i], code)
    && forall j | 0 <= j < i :: !crypto.hashMatches(codes[j], code)
  }

  lemma {:induction false} FindHashIsFirst(crypto: Crypto, codes: seq<nat>, code: string)
    ensures var r := FindHash(crypto, codes, code);
      if r.Some? then exists i: nat :: FirstAnswer(crypto, codes, code, i) && codes[i] == r.value
      else forall i | 0 <= i < |codes| :: !crypto.hashMatches(codes[i], code)
  {
    if codes != [] {
      var r, rest := FindHash(crypto, codes, code), codes[1..];
      FindHashIsFirst(crypto, rest, code);
      if crypto.hashMatches(codes[0], code) {
        assert FirstAnswer(crypto, codes, code, 0);
      } else if r.Some? {
        var i: nat :| FirstAnswer(crypto, rest, code, i) && rest[i] == r.value;
        assert forall j | 0 < j <= i :: codes[j] == rest[j - 1];
        assert FirstAnswer(crypto, codes, code, i + 1);
      }
    }
  }

  // ---------------------------------------------------------------------------
  // The updates.

  predicate StepIsFree(row: Config, step: int) {
    row.lastStep.None? || row.lastStep.value < step
  }

  // The secret that was read is written back with the step; `enable` completes an enrolment.
  function Advanced(row: Config, secret: nat, step: int, enable: bool): (r: Config) {
    row.(lastStep := Some(step), secret := secret, status := if enable then Enabled else row.status)
  }

  function AfterConsume(row: Option<Config>, secret: nat, step: int, enable: bool): (r: Option<Config>) {
    if row.Some? && StepIsFree(row.value, step) then Some(Advanced(row.value, secret, step, enable)) else row
  }

  function Drop(codes: seq<nat>, used: nat): (r: seq<nat>)
    ensures forall c :: c in r <==> c in codes && c != used
    ensures multiset(r) == multiset(codes)[used := 0]
  {
    if codes == [] then []
    else
      assert codes == [codes[0]] + codes[1..];
      if codes[0] == used then Drop(codes[1..], used) else [codes[0]] + Drop(codes[1..], used)
  }

  function AfterSpend(row: Option<Config>, used: nat): (r: Option<Config>) {
    if row.Some? && used in row.value.codes then Some(row.value.(codes := Drop(row.value.codes, used))) else row
  }

  // ---------------------------------------------------------------------------
  // The machine.

  datatype Pc =
    // consume the step: of which enrolment the row was read, and what matched
    | Matched(enable: bool, enrolment: nat, secret: nat, code: string, step: int, at: int)
    | Picked(hash: nat)    // consume the backup code
    | Preparing            // save a new enrolment
    | Disabling            // delete the row
    | Over

  // An accepted code: the enrolment it counted for, its step, when it was matched.
  datatype Acceptance = Acceptance(enrolment: nat, step: int, at: int)

  // Every save or delete of the row begins another enrolment; `secrets` holds the secret
  // that each save drew.
  datatype State = State(
    row: Option<Config>, enrolment: nat, requests: map<nat, Pc>, accepted: seq<Acceptance>, spent: seq<nat>,
    issued: set<nat>, secrets: map<nat, nat>)

  datatype Action =
    | BeginTotp(r: nat, enable: bool, code: string, now: int)
    | Consume(r: nat, fate: Fate)
    | BeginBackup(r: nat, code: string)
    | Spend(r: nat, fate: Fate)
    | BeginSetup(r: nat, readable: bool)
    | SaveSetup(r: nat, secret: nat, codes: seq<nat>, fate: Fate)
    | BeginDisable(r: nat)
    | Delete(r: nat, fate: Fate)

  const START := State(None, 0, map[], [], [], {}, map[])

  function At(s: State, r: nat): (result: Pc) {
    if r in s.requests then s.requests[r] else Over
  }

  function Move(s: State, r: nat, pc: Pc): (result: State) {
    s.(requests := s.requests[r := pc])
  }

  function BeginTotpStep(crypto: Crypto, s: State, r: nat, enable: bool, code: string, now: int): (result: State) {
    if s.row.Some? && s.row.value.status == (if enable then Pending else Enabled) then
      var step := Match(crypto, s.row.value.secret, code, now);
      Move(s, r, if step.Some? then Matched(enable, s.enrolment, s.row.value.secret, code, step.value, now) else Over)
    else Move(s, r, Over)
  }

  function ConsumeStep(s: State, r: nat, pc: Pc, fate: Fate): (result: State)
    requires pc.Matched?
  {
    var free := s.row.Some? && StepIsFree(s.row.value, pc.step);
    Move(s.(row := if fate.NotExecuted? then s.row else AfterConsume(s.row, pc.secret, pc.step, pc.enable),
            accepted := if free && fate.Answered? then s.accepted + [Acceptance(s.enrolment, pc.step, pc.at)]
                        else s.accepted),
         r, Over)
  }

  function SpendStep(s: State, r: nat, pc: Pc, fate: Fate): (result: State)
    requires pc.Picked?
  {
    var there := s.row.Some? && pc.hash in s.row.value.codes;
    Move(s.(row := if fate.NotExecuted? then s.row else AfterSpend(s.row, pc.hash),
            spent := if there && fate.Answered? then s.spent + [pc.hash] else s.spent),
         r, Over)
  }

  // Salted hashes and secrets are never drawn twice.
  predicate Unused(s: State, secret: nat, codes: seq<nat>) {
    secret !in s.secrets.Values && forall i | 0 <= i < |codes| :: codes[i] !in s.issued
  }

  function SaveStep(s: State, r: nat, secret: nat, codes: seq<nat>, fate: Fate): (result: State) {
    if fate.NotExecuted? || !Unused(s, secret, codes) then Move(s, r, Over)
    else
      Move(s.(row := Some(Config(Pending, secret, codes, None)), enrolment := s.enrolment + 1,
              issued := s.issued + (set c | c in codes), secrets := s.secrets[s.enrolment + 1 := secret]),
           r, Over)
  }

  function Step(crypto: Crypto, s: State, a: Action): (r: State) {
    match a
    case BeginTotp(r, enable, code, now) =>
      if r in s.requests then s else BeginTotpStep(crypto, s, r, enable, code, now)
    case Consume(r, fate) => if At(s, r).Matched? then ConsumeStep(s, r, At(s, r), fate) else s
    case BeginBackup(r, code) =>
      if r in s.requests then s
      else
        var enabled := s.row.Some? && s.row.value.status.Enabled?;
        var hash := if enabled then FindHash(crypto, s.row.value.codes, code) else None;
        Move(s, r, if hash.Some? then Picked(hash.value) else Over)
    case Spend(r, fate) => if At(s, r).Picked? then SpendStep(s, r, At(s, r), fate) else s
    // A status that cannot be read is taken for one that is not enabled.
    case BeginSetup(r, readable) =>
      if r in s.requests then s
      else Move(s, r, if readable && s.row.Some? && s.row.value.status.Enabled? then Over else Preparing)
    case SaveSetup(r, secret, codes, fate) => if At(s, r).Preparing? then SaveStep(s, r, secret, codes, fate) else s
    case BeginDisable(r) => if r in s.requests then s else Move(s, r, if s.row.Some? then Disabling else Over)
    case Delete(r, fate) =>
      if At(s, r).Disabling? then
        Move(if fate.NotExecuted? then s else s.(row := None, enrolment := s.enrolment + 1), r, Over)
      else s
  }

  function Run(crypto: Crypto, s: State, actions: seq<Action>): (r: State)
    decreases |actions|
  {
    if actions == [] then s else Run(crypto, Step(crypto, s, actions[0]), actions[1..])
  }

  // ---------------------------------------------------------------------------
  // The invariant.

  predicate Near(step: int, at: int) {
    -1 <= step - at / TOTP_STEP_SECS <= 1
  }

  ghost predicate StepsIncrease(accepted: seq<Acceptance>) {
    forall i, j | 0 <= i < j < |accepted| && accepted[i].enrolment == accepted[j].enrolment ::
      accepted[i].step < accepted[j].step
  }

  // The stored watermark covers everything accepted in this enrolment.
  ghost predicate Covers(row: Option<Config>, enrolment: nat, accepted: seq<Acceptance>) {
    forall i | 0 <= i < |accepted| ::
      && accepted[i].enrolment <= enrolment
      && (accepted[i].enrolment == enrolment ==>
            row.Some? ==> row.value.lastStep.Some? && accepted[i].step <= row.value.lastStep.value)
  }

  ghost predicate TotpInv(s: State) {
    && StepsIncrease(s.accepted) && Covers(s.row, s.enrolment, s.accepted)
    && (forall i | 0 <= i < |s.accepted| :: Near(s.accepted[i].step, s.accepted[i].at))
    && (forall r | r in s.requests && s.requests[r].Matched? :: Near(s.requests[r].step, s.requests[r].at))
  }

  ghost predicate Unspent(row: Option<Config>, spent: seq<nat>) {
    row.Some? ==> forall c | c in row.value.codes :: c !in spent
  }

  ghost predicate BackupInv(s: State) {
    && (forall i, j | 0 <= i < j < |s.spent| :: s.spent[i] != s.spent[j])
    && Unspent(s.row, s.spent)
    && (s.row.Some? ==> forall c | c in s.row.value.codes :: c in s.issued)
    && (forall c | c in s.spent :: c in s.issued)
  }

  ghost predicate Inv(s: State) {
    TotpInv(s) && BackupInv(s)
  }

  lemma MatchIsNear(crypto: Crypto, secret: nat, code: string, now: int)
    ensures var step := Match(crypto, secret, code, now); step.Some? ==> Near(step.value, now)
  {
  }

  lemma ConsumeKeepsInv(s: State, r: nat, fate: Fate)
    requires Inv(s) && At(s, r).Matched?
    ensures Inv(ConsumeStep(s, r, At(s, r), fate))
  {
    hide Near;
  }

  lemma SpendKeepsInv(s: State, r: nat, fate: Fate)
    requires Inv(s) && At(s, r).Picked?
    ensures Inv(SpendStep(s, r, At(s, r), fate))
  {
    hide Near, StepsIncrease;
  }

  lemma SaveKeepsInv(s: State, r: nat, secret: nat, codes: seq<nat>, fate: Fate)
    requires Inv(s) && At(s, r).Preparing?
    ensures Inv(SaveStep(s, r, secret, codes, fate))
  {
    hide Near, StepsIncrease;
  }

  lemma BeginKeepsTotp(crypto: Crypto, s: State, a: Action)
    requires TotpInv(s) && (a.BeginTotp? || a.BeginBackup? || a.BeginSetup? || a.BeginDisable? || a.Delete?)
    ensures TotpInv(Step(crypto, s, a))
  {
    if a.BeginTotp? && s.row.Some? {
      MatchIsNear(crypto, s.row.value.secret, a.code, a.now);
    }
    hide Near, StepsIncrease, Match;
  }

  lemma BeginKeepsBackup(crypto: Crypto, s: State, a: Action)
    requires BackupInv(s) && (a.BeginTotp? || a.BeginBackup? || a.BeginSetup? || a.BeginDisable? || a.Delete?)
    ensures BackupInv(Step(crypto, s, a))
  {
    hide Match;
  }

  lemma BeginKeepsInv(crypto: Crypto, s: State, a: Action)
    requires Inv(s) && (a.BeginTotp? || a.BeginBackup? || a.BeginSetup? || a.BeginDisable? || a.Delete?)
    ensures Inv(Step(crypto, s, a))
  {
    hide TotpInv, BackupInv, Step;
    BeginKeepsTotp(crypto, s, a);
    BeginKeepsBackup(crypto, s, a);
  }

  lemma StepKeepsInv(crypto: Crypto, s: State, a: Action)
    requires Inv(s)
    ensures Inv(Step(crypto, s, a))
  {
    hide Inv, ConsumeStep, SpendStep, SaveStep, BeginTotpStep;
    match a
    case Consume(r, fate) => if At(s, r).Matched? { ConsumeKeepsInv(s, r, fate); }
    case Spend(r, fate) => if At(s, r).Picked? { SpendKeepsInv(s, r, fate); }
    case SaveSetup(r, secret, codes, fate) => if At(s, r).Preparing? { SaveKeepsInv(s, r, secret, codes, fate); }
    case _ => BeginKeepsInv(crypto, s, a);
  }

  lemma {:induction false} RunKeepsInv(crypto: Crypto, s: State, actions: seq<Action>)
    requires Inv(s)
    ensures Inv(Run(crypto, s, actions))
    decreases |actions|
  {
    hide Inv, Step;
    if actions != [] {
      StepKeepsInv(crypto, s, actions[0]);
      RunKeepsInv(crypto, Step(crypto, s, actions[0]), actions[1..]);
    }
  }

  // ---------------------------------------------------------------------------
  // What holds of every run.

  lemma StartIsOk()
    ensures Inv(START)
  {
  }

  // Within one enrolment accepted steps strictly increase: no step is accepted twice.
  lemma AcceptedStepsIncrease(crypto: Crypto, actions: seq<Action>, i: nat, j: nat)
    requires var accepted := Run(crypto, START, actions).accepted;
      i < j < |accepted| && accepted[i].enrolment == accepted[j].enrolment
    ensures var accepted := Run(crypto, START, actions).accepted; accepted[i].step < accepted[j].step
  {
    hide Run;
    StartIsOk();
    RunKeepsInv(crypto, START, actions);
  }

  ghost function AcceptedWithin(accepted: seq<Acceptance>, enrolment: nat, from: int, to: int): (r: set<nat>) {
    set i: nat | i < |accepted| && accepted[i].enrolment == enrolment && from <= accepted[i].at <= to
  }

  // Codes matched during [from, to] of one enrolment: no more than the steps in reach.
  lemma ReplayBound(crypto: Crypto, actions: seq<Action>, enrolment: nat, from: int, to: int)
    requires from <= to
    ensures |AcceptedWithin(Run(crypto, START, actions).accepted, enrolment, from, to)|
      <= to / TOTP_STEP_SECS - from / TOTP_STEP_SECS + 3
  {
    hide Run;
    StartIsOk();
    RunKeepsInv(crypto, START, actions);
    var accepted := Run(crypto, START, actions).accepted;
    var within := AcceptedWithin(accepted, enrolment, from, to);
    StepsInReach(accepted, enrolment, from, to);
    FewSteps(accepted, within, from / TOTP_STEP_SECS - 1, to / TOTP_STEP_SECS - from / TOTP_STEP_SECS + 3);
  }

  lemma StepsInReach(accepted: seq<Acceptance>, enrolment: nat, from: int, to: int)
    requires from <= to && forall i | 0 <= i < |accepted| :: Near(accepted[i].step, accepted[i].at)
    ensures forall i | i in AcceptedWithin(accepted, enrolment, from, to) ::
      from / TOTP_STEP_SECS - 1 <= accepted[i].step < to / TOTP_STEP_SECS + 2
  {
    forall i | i in AcceptedWithin(accepted, enrolment, from, to)
      ensures from / TOTP_STEP_SECS - 1 <= accepted[i].step < to / TOTP_STEP_SECS + 2
    {
      assert Near(accepted[i].step, accepted[i].at);
    }
  }

  // Different steps out of n: at most n of them.
  lemma {:induction false} FewSteps(accepted: seq<Acceptance>, indices: set<nat>, low: int, n: nat)
    requires StepsIncrease(accepted)
    requires forall i | i in indices :: i < |accepted| && low <= accepted[i].step < low + n
    requires forall i, j | i in indices && j in indices :: accepted[i].enrolment == accepted[j].enrolment
    ensures |indices| <= n
  {
    if indices != {} {
      if top :| top in indices && accepted[top].step == low + n - 1 {
        forall i | i in indices - {top} ensures accepted[i].step < low + n - 1 {
          DifferentSteps(accepted, i, top);
        }
        FewSteps(accepted, indices - {top}, low, n - 1);
      } else {
        var some :| some in indices;
        FewSteps(accepted, indices, low, n - 1);
      }
    }
  }

  lemma DifferentSteps(accepted: seq<Acceptance>, i: nat, j: nat)
    requires StepsIncrease(accepted) && i < |accepted| && j < |accepted| && i != j
    requires accepted[i].enrolment == accepted[j].enrolment
    ensures accepted[i].step != accepted[j].step
  {
  }

  // A backup code is accepted at most once, ever.
  lemma BackupCodeOnce(crypto: Crypto, actions: seq<Action>, i: nat, j: nat)
    requires i < j < |Run(crypto, START, actions).spent|
    ensures Run(crypto, START, actions).spent[i] != Run(crypto, START, actions).spent[j]
  {
    hide Run;
    StartIsOk();
    RunKeepsInv(crypto, START, actions);
  }

  // ---------------------------------------------------------------------------
  // Whose secret is stored.

  ghost predicate DrawnBy(secrets: map<nat, nat>, secret: nat, upTo: nat) {
    exists e :: e in secrets && e <= upTo && secrets[e] == secret
  }

  ghost predicate SecretsInv(crypto: Crypto, s: State) {
    && (forall e | e in s.secrets :: e <= s.enrolment)
    && (forall e, f | e in s.secrets && f in s.secrets :: s.secrets[e] == s.secrets[f] ==> e == f)
    && (s.row.Some? ==> s.enrolment in s.secrets && DrawnBy(s.secrets, s.row.value.secret, s.enrolment))
    && (forall r | r in s.requests && s.requests[r].Matched? :: MatchOk(crypto, s, s.requests[r]))
  }

  // What a request has matched: a code of a secret drawn no later than the enrolment it read.
  ghost predicate MatchOk(crypto: Crypto, s: State, pc: Pc)
    requires pc.Matched?
  {
    pc.enrolment <= s.enrolment && DrawnBy(s.secrets, pc.secret, pc.enrolment)
    && Hits(crypto, pc.secret, pc.code, pc.step)
  }

  lemma DrawnLater(secrets: map<nat, nat>, secret: nat, upTo: nat, enrolment: nat, fresh': nat)
    requires DrawnBy(secrets, secret, upTo) && upTo < enrolment
    ensures DrawnBy(secrets[enrolment := fresh'], secret, upTo)
  {
    var e :| e in secrets && e <= upTo && secrets[e] == secret;
    assert secrets[enrolment := fresh'][e] == secret;
  }

  lemma MatchIsHit(crypto: Crypto, secret: nat, code: string, now: int)
    ensures var step := Match(crypto, secret, code, now); step.Some? ==> Hits(crypto, secret, code, step.value)
  {
  }

  lemma SaveKeepsSecrets(crypto: Crypto, s: State, r: nat, secret: nat, codes: seq<nat>, fate: Fate)
    requires SecretsInv(crypto, s)
    ensures SecretsInv(crypto, SaveStep(s, r, secret, codes, fate))
  {
    hide Hits;
    var s' := SaveStep(s, r, secret, codes, fate);
    if s'.enrolment != s.enrolment {
      forall q | q in s'.requests && s'.requests[q].Matched? ensures MatchOk(crypto, s', s'.requests[q]) {
        assert MatchOk(crypto, s, s.requests[q]);
        DrawnLater(s.secrets, s.requests[q].secret, s.requests[q].enrolment, s'.enrolment, secret);
      }
      assert s'.secrets[s'.enrolment] == secret;
    } else {
      OthersStay(crypto, s, s', r);
    }
  }

  lemma OthersStay(crypto: Crypto, s: State, s': State, r: nat)
    requires SecretsInv(crypto, s) && s'.secrets == s.secrets && s'.enrolment >= s.enrolment
    requires forall q | q in s'.requests && q != r :: q in s.requests && s'.requests[q] == s.requests[q]
    ensures forall q | q in s'.requests && q != r && s'.requests[q].Matched? :: MatchOk(crypto, s', s'.requests[q])
  {
    hide Hits, DrawnBy;
    forall q | q in s'.requests && q != r && s'.requests[q].Matched? ensures MatchOk(crypto, s', s'.requests[q]) {
      assert MatchOk(crypto, s, s.requests[q]);
    }
  }

  lemma ConsumeKeepsSecrets(crypto: Crypto, s: State, r: nat, fate: Fate)
    requires SecretsInv(crypto, s) && At(s, r).Matched?
    ensures SecretsInv(crypto, ConsumeStep(s, r, At(s, r), fate))
  {
    hide Hits;
    assert MatchOk(crypto, s, At(s, r));
    OthersStay(crypto, s, ConsumeStep(s, r, At(s, r), fate), r);
  }

  lemma StepKeepsSecrets(crypto: Crypto, s: State, a: Action)
    requires SecretsInv(crypto, s)
    ensures SecretsInv(crypto, Step(crypto, s, a))
  {
    match a
    case Consume(r, fate) => if At(s, r).Matched? { ConsumeKeepsSecrets(crypto, s, r, fate); }
    case SaveSetup(r, secret, codes, fate) =>
      if At(s, r).Preparing? { SaveKeepsSecrets(crypto, s, r, secret, codes, fate); }
    case _ => OtherStepKeepsSecrets(crypto, s, a);
  }

  lemma OtherStepKeepsSecrets(crypto: Crypto, s: State, a: Action)
    requires SecretsInv(crypto, s) && !a.Consume? && !a.SaveSetup?
    ensures SecretsInv(crypto, Step(crypto, s, a))
  {
    var s' := Step(crypto, s, a);
    if a.BeginTotp? && s.row.Some? {
      MatchIsHit(crypto, s.row.value.secret, a.code, a.now);
    }
    hide Hits, Match, DrawnBy;
    OthersStay(crypto, s, s', a.r);
  }

  // The row, if there is one, holds the secret drawn for the enrolment it belongs to.
  ghost predicate SecretIsCurrent(s: State) {
    s.row.Some? ==> s.enrolment in s.secrets && s.row.value.secret == s.secrets[s.enrolment]
  }

  // An update that takes effect, for a request that read an earlier enrolment.
  predicate StaleWrite(s: State, a: Action) {
    a.Consume? && !a.fate.NotExecuted? && At(s, a.r).Matched? && At(s, a.r).enrolment < s.enrolment
    && s.row.Some? && StepIsFree(s.row.value, At(s, a.r).step)
  }

  // Nothing has gone astray: neither in the row nor in what the requests have read.
  ghost predicate Straight(s: State) {
    && SecretIsCurrent(s)
    && forall r | r in s.requests && s.requests[r].Matched? ::
         s.requests[r].enrolment in s.secrets && s.requests[r].secret == s.secrets[s.requests[r].enrolment]
  }

  lemma StepStaysStraight(crypto: Crypto, s: State, a: Action)
    requires SecretsInv(crypto, s) && Straight(s) && !StaleWrite(s, a)
    ensures Straight(Step(crypto, s, a))
  {
    hide Match, Hits, DrawnBy;
    if a.Consume? && At(s, a.r).Matched? {
      assert MatchOk(crypto, s, At(s, a.r));
    }
  }

  lemma StaleWriteGoesAstray(crypto: Crypto, s: State, a: Action)
    requires SecretsInv(crypto, s) && StaleWrite(s, a)
    ensures !SecretIsCurrent(Step(crypto, s, a))
  {
    hide Hits;
    var pc := At(s, a.r);
    assert MatchOk(crypto, s, pc);
    var e :| e in s.secrets && e <= pc.enrolment && s.secrets[e] == pc.secret;
    assert s.secrets[e] != s.secrets[s.enrolment];
  }

  lemma {:induction false} RunOneMore(crypto: Crypto, s: State, actions: seq<Action>, a: Action)
    ensures Run(crypto, s, actions + [a]) == Step(crypto, Run(crypto, s, actions), a)
    decreases |actions|
  {
    hide Step;
    if actions == [] {
      assert ([] + [a])[1..] == [];
    } else {
      assert (actions + [a])[1..] == actions[1..] + [a];
      RunOneMore(crypto, Step(crypto, s, actions[0]), actions[1..], a);
    }
  }

  // The state after the first k actions.
  ghost function After(crypto: Crypto, actions: seq<Action>, k: nat): (s: State)
    requires k <= |actions|
  {
    Run(crypto, START, actions[..k])
  }

  lemma AfterOneMore(crypto: Crypto, actions: seq<Action>, k: nat)
    requires k < |actions|
    ensures After(crypto, actions, k + 1) == Step(crypto, After(crypto, actions, k), actions[k])
  {
    hide Run, Step;
    assert actions[..k + 1] == actions[..k] + [actions[k]];
    RunOneMore(crypto, START, actions[..k], actions[k]);
  }

  lemma {:induction false} SecretsInEveryRun(crypto: Crypto, actions: seq<Action>, k: nat)
    requires k <= |actions|
    ensures SecretsInv(crypto, After(crypto, actions, k))
  {
    hide Run, Step, SecretsInv, After;
    if k == 0 {
      AtStart(crypto, actions);
    } else {
      SecretsInEveryRun(crypto, actions, k - 1);
      AfterOneMore(crypto, actions, k - 1);
      StepKeepsSecrets(crypto, After(crypto, actions, k - 1), actions[k - 1]);
    }
  }

  lemma AtStart(crypto: Crypto, actions: seq<Action>)
    ensures After(crypto, actions, 0) == START && SecretsInv(crypto, START) && Straight(START)
  {
  }

  ghost predicate NoStaleWrite(crypto: Crypto, actions: seq<Action>, n: nat)
    requires n <= |actions|
  {
    forall k | 0 <= k < n :: !StaleWrite(After(crypto, actions, k), actions[k])
  }

  lemma {:induction false} StraightRun(crypto: Crypto, actions: seq<Action>, k: nat)
    requires k <= |actions| && NoStaleWrite(crypto, actions, k)
    ensures Straight(After(crypto, actions, k))
  {
    hide Run, Step, Straight, After, SecretsInv, StaleWrite;
    if k == 0 {
      AtStart(crypto, actions);
    } else {
      StraightRun(crypto, actions, k - 1);
      SecretsInEveryRun(crypto, actions, k - 1);
      AfterOneMore(crypto, actions, k - 1);
      StepStaysStraight(crypto, After(crypto, actions, k - 1), actions[k - 1]);
    }
  }

  // All through a run the stored secret is the one drawn for its enrolment, if and only if
  // no update takes effect for a request that had read an earlier enrolment.
  lemma SecretCurrentIffNoStaleWrite(crypto: Crypto, actions: seq<Action>)
    ensures (forall k | 0 <= k <= |actions| :: SecretIsCurrent(After(crypto, actions, k)))
      <==> NoStaleWrite(crypto, actions, |actions|)
  {
    hide Run, Step, After, SecretsInv, StaleWrite;
    if NoStaleWrite(crypto, actions, |actions|) {
      forall k | 0 <= k <= |actions| ensures SecretIsCurrent(After(crypto, actions, k)) {
        StraightRun(crypto, actions, k);
      }
    } else {
      var k :| 0 <= k < |actions| && StaleWrite(After(crypto, actions, k), actions[k]);
      SecretsInEveryRun(crypto, actions, k);
      AfterOneMore(crypto, actions, k);
      StaleWriteGoesAstray(crypto, After(crypto, actions, k), actions[k]);
    }
  }

  // As long as that has gone well, a code that is accepted leaves the secret of the current
  // enrolment in the row, and is a code of that secret, if and only if its request read the
  // current enrolment; an enrolment completed by it then is completed by a code of its own.
  lemma AcceptedForOwnSecretIff(crypto: Crypto, actions: seq<Action>, r: nat, fate: Fate)
    requires NoStaleWrite(crypto, actions, |actions|) && !fate.NotExecuted?
    requires var s := Run(crypto, START, actions);
      At(s, r).Matched? && s.row.Some? && StepIsFree(s.row.value, At(s, r).step)
    ensures var s := Run(crypto, START, actions);
      var s' := Step(crypto, s, Consume(r, fate));
      && s.enrolment in s.secrets && s'.row.Some? && s'.enrolment == s.enrolment
      && (At(s, r).enable ==> s'.row.value.status == Enabled)
      && (s'.row.value.secret == s.secrets[s.enrolment]
          && Hits(crypto, s.secrets[s.enrolment], At(s, r).code, At(s, r).step)
          <==> At(s, r).enrolment == s.enrolment)
  {
    hide Run;
    var s := Run(crypto, START, actions);
    assert actions[..|actions|] == actions;
    StraightRun(crypto, actions, |actions|);
    SecretsInEveryRun(crypto, actions, |actions|);
    hide Hits, Match;
    assert MatchOk(crypto, s, At(s, r));
    if At(s, r).enrolment < s.enrolment {
      StaleWriteGoesAstray(crypto, s, Consume(r, fate));
    }
  }

  // Enrolment 1 is set up; a request matches its code; enrolment 2 replaces it.
  function Overlap(code: string, now: int): (actions: seq<Action>) {
    [BeginSetup(0, true), SaveSetup(0, 1, [], Answered), BeginTotp(1, true, code, now),
     BeginSetup(2, true), SaveSetup(2, 2, [], Answered)]
  }

  // Enrolment 1 is saved by request 0, and its code matched by request 1.
  function Enrolling(code: string, now: int): (actions: seq<Action>) {
    [BeginSetup(0, true), SaveSetup(0, 1, [], Answered), BeginTotp(1, true, code, now)]
  }

  function EnrollingEnds(step: nat, code: string, now: int): (s: State) {
    START.(row := Some(Config(Pending, 1, [], None)), enrolment := 1, secrets := map[1 := 1],
           requests := map[0 := Over, 1 := Matched(true, 1, 1, code, step, now)])
  }

  lemma AfterEnrolling(crypto: Crypto, code: string, now: int, todo: seq<Action>)
    requires Match(crypto, 1, code, now).Some?
    requires |todo| >= 3 && todo[..3] == Enrolling(code, now)
    ensures Step(crypto, Step(crypto, Step(crypto, START, todo[0]), todo[1]), todo[2])
      == EnrollingEnds(Match(crypto, 1, code, now).value, code, now)
  {
    hide Match;
    assert forall i | 0 <= i < 3 :: todo[i] == todo[..3][i];
    var s2 := Step(crypto, Step(crypto, START, todo[0]), todo[1]);
    assert s2 == START.(row := Some(Config(Pending, 1, [], None)), enrolment := 1, secrets := map[1 := 1],
                        requests := map[0 := Over]);
  }

  lemma AfterOverlap(crypto: Crypto, code: string, now: int)
    requires Match(crypto, 1, code, now).Some?
    ensures var s := Run(crypto, START, Overlap(code, now));
      && s.row == Some(Config(Pending, 2, [], None)) && s.enrolment == 2 && s.secrets == map[1 := 1, 2 := 2]
      && At(s, 1) == Matched(true, 1, 1, code, Match(crypto, 1, code, now).value, now)
      && s.requests.Keys == {0, 1, 2}
  {
    hide Match;
    var todo := Overlap(code, now);
    AfterEnrolling(crypto, code, now, todo);
    RunOfFive(crypto, START, todo);
    assert todo[..5] == todo;
  }

  // It can go wrong: a request that outlasts the enrolment it read puts the old secret back
  // and marks it as enabled, for the update looks only at the watermark.
  lemma StaleEnableRestoresSecret(crypto: Crypto, code: string, now: int)
    requires Match(crypto, 1, code, now).Some?
    ensures var s := Run(crypto, START, Overlap(code, now) + [Consume(1, Answered)]);
      && s.enrolment == 2 && s.secrets == map[1 := 1, 2 := 2]
      && s.row.Some? && s.row.value.secret == 1 && s.row.value.status == Enabled
      && !SecretIsCurrent(s)
  {
    hide Run, Match;
    AfterOverlap(crypto, code, now);
    RunOneMore(crypto, START, Overlap(code, now), Consume(1, Answered));
  }

  // The condition speaks of all moments of a run, not of its end: a request that read the
  // new enrolment before the old secret came back can still write the right one over it.
  lemma StaleWriteCanBePutRight(crypto: Crypto, old': string, then': int, code: string, now: int)
    requires Match(crypto, 1, old', then').Some? && Match(crypto, 2, code, now).Some?
    requires Match(crypto, 1, old', then').value < Match(crypto, 2, code, now).value
    ensures var before := Overlap(old', then') + [BeginTotp(3, true, code, now)];
      && StaleWrite(Run(crypto, START, before), Consume(1, Answered))
      && !SecretIsCurrent(Run(crypto, START, before + [Consume(1, Answered)]))
      && var s := Run(crypto, START, before + [Consume(1, Answered)] + [Consume(3, Answered)]);
      s.row.Some? && SecretIsCurrent(s)
  {
    hide Run, Match;
    var begun := Overlap(old', then');
    var before := begun + [BeginTotp(3, true, code, now)];
    AfterOverlap(crypto, old', then');
    RunOneMore(crypto, START, begun, BeginTotp(3, true, code, now));
    RunOneMore(crypto, START, before, Consume(1, Answered));
    RunOneMore(crypto, START, before + [Consume(1, Answered)], Consume(3, Answered));
  }

  // ---------------------------------------------------------------------------
  // Which set-ups replace an enrolment that is complete.

  ghost predicate NoDelete(actions: seq<Action>) {
    forall i | 0 <= i < |actions| :: !actions[i].Delete?
  }

  ghost predicate SomePreparing(s: State) {
    exists r :: r in s.requests && s.requests[r].Preparing?
  }

  ghost predicate EnabledRow(s: State) {
    s.row.Some? && s.row.value.status == Enabled
  }

  // No set-up begins without having read the status.
  ghost predicate AllReadable(actions: seq<Action>) {
    forall i | 0 <= i < |actions| :: actions[i].BeginSetup? ==> actions[i].readable
  }

  lemma StepKeepsEnrolment(crypto: Crypto, s: State, a: Action)
    requires EnabledRow(s) && !SomePreparing(s) && !a.Delete? && (a.BeginSetup? ==> a.readable)
    ensures var s' := Step(crypto, s, a); EnabledRow(s') && !SomePreparing(s') && s'.enrolment == s.enrolment
  {
    hide Match;
  }

  // Whatever run replaces a complete enrolment without disabling it: a set-up was under way
  // before, or one of that run could not read the status.
  lemma {:induction false} RunKeepsEnrolment(crypto: Crypto, s: State, actions: seq<Action>)
    requires EnabledRow(s) && NoDelete(actions) && !SomePreparing(s) && AllReadable(actions)
    ensures Run(crypto, s, actions).enrolment == s.enrolment
    decreases |actions|
  {
    hide Step, EnabledRow, SomePreparing;
    if actions != [] {
      StepKeepsEnrolment(crypto, s, actions[0]);
      RunKeepsEnrolment(crypto, Step(crypto, s, actions[0]), actions[1..]);
    }
  }

  lemma {:induction false} FreshNumber(used: set<nat>) returns (n: nat)
    ensures forall u | u in used :: u < n
  {
    if used == {} {
      n := 0;
    } else {
      var x :| x in used;
      var m := FreshNumber(used - {x});
      n := if m > x then m else x + 1;
      assert forall u | u in used :: u == x || u in used - {x};
    }
  }

  ghost predicate Replaces(crypto: Crypto, s: State, actions: seq<Action>) {
    NoDelete(actions) && Run(crypto, s, actions).enrolment != s.enrolment
  }

  // A complete enrolment can be replaced by a later run without being disabled first, if and
  // only if a set-up is under way now or a set-up of that run may fail to read the status:
  // one that reads it is refused.
  lemma ReplacedIffPreparing(crypto: Crypto, s: State, mayFail: bool)
    requires EnabledRow(s)
    ensures (exists actions: seq<Action> :: Replaces(crypto, s, actions) && (mayFail || AllReadable(actions)))
      <==> SomePreparing(s) || mayFail
  {
    hide Run, Step;
    if SomePreparing(s) {
      var r :| r in s.requests && s.requests[r].Preparing?;
      var secret := FreshNumber(s.secrets.Values);
      SaveRunReplaces(crypto, s, r, secret);
      assert AllReadable([SaveSetup(r, secret, [], Answered)]);
    } else if mayFail {
      var r := FreshNumber(s.requests.Keys);
      var secret := FreshNumber(s.secrets.Values);
      BlindRunReplaces(crypto, s, r, secret);
    } else {
      forall actions: seq<Action> | AllReadable(actions) ensures !Replaces(crypto, s, actions) {
        if NoDelete(actions) {
          RunKeepsEnrolment(crypto, s, actions);
        }
      }
    }
  }

  lemma SaveRunReplaces(crypto: Crypto, s: State, r: nat, secret: nat)
    requires At(s, r).Preparing? && secret !in s.secrets.Values
    ensures Replaces(crypto, s, [SaveSetup(r, secret, [], Answered)])
  {
    hide Run, Step;
    var save := SaveSetup(r, secret, [], Answered);
    SaveReplaces(crypto, s, r, secret);
    RunOneMore(crypto, s, [], save);
    RunNothing(crypto, s);
    assert [] + [save] == [save];
  }

  lemma BlindRunReplaces(crypto: Crypto, s: State, r: nat, secret: nat)
    requires r !in s.requests && secret !in s.secrets.Values
    ensures Replaces(crypto, s, [BeginSetup(r, false)] + [SaveSetup(r, secret, [], Answered)])
  {
    hide Run;
    var begin := BeginSetup(r, false);
    SaveReplaces(crypto, Step(crypto, s, begin), r, secret);
    hide Step;
    RunOneMore(crypto, s, [], begin);
    RunNothing(crypto, s);
    assert [] + [begin] == [begin];
    RunOneMore(crypto, s, [begin], SaveSetup(r, secret, [], Answered));
  }

  lemma SaveReplaces(crypto: Crypto, s: State, r: nat, secret: nat)
    requires At(s, r).Preparing? && secret !in s.secrets.Values
    ensures Step(crypto, s, SaveSetup(r, secret, [], Answered)).enrolment == s.enrolment + 1
  {
  }

  lemma RunNothing(crypto: Crypto, s: State)
    ensures Run(crypto, s, []) == s
  {
  }

  // A run in which it happens: two set-ups begin, the first is completed, the second saves.
  function Overtaken(code: string, now: int): (actions: seq<Action>) {
    [BeginSetup(0, true), BeginSetup(1, true), SaveSetup(0, 1, [], Answered), BeginTotp(2, true, code, now),
     Consume(2, Answered), SaveSetup(1, 2, [], Answered)]
  }

  lemma FirstIsSaved(crypto: Crypto, code: string, now: int)
    ensures var todo := Overtaken(code, now);
      Step(crypto, Step(crypto, Step(crypto, START, todo[0]), todo[1]), todo[2])
        == START.(row := Some(Config(Pending, 1, [], None)), enrolment := 1, secrets := map[1 := 1],
                  requests := map[0 := Over, 1 := Preparing])
  {
  }

  lemma FirstIsEnabled(crypto: Crypto, s: State, code: string, now: int)
    requires Match(crypto, 1, code, now).Some?
    requires s == START.(row := Some(Config(Pending, 1, [], None)), enrolment := 1, secrets := map[1 := 1],
                         requests := map[0 := Over, 1 := Preparing])
    ensures var done := Step(crypto, Step(crypto, s, BeginTotp(2, true, code, now)), Consume(2, Answered));
      var after := Step(crypto, done, SaveSetup(1, 2, [], Answered));
      && EnabledRow(done) && done.row.value.secret == 1
      && after.row == Some(Config(Pending, 2, [], None)) && after.enrolment == 2
  {
    hide Match;
    var done := Step(crypto, Step(crypto, s, BeginTotp(2, true, code, now)), Consume(2, Answered));
    assert At(done, 1) == Preparing && done.secrets == s.secrets;
  }

  lemma CompleteEnrolmentIsReplaced(crypto: Crypto, code: string, now: int)
    requires Match(crypto, 1, code, now).Some?
    ensures var done, after := Run(crypto, START, Overtaken(code, now)[..5]), Run(crypto, START, Overtaken(code, now));
      && EnabledRow(done) && done.row.value.secret == 1
      && after.row == Some(Config(Pending, 2, [], None)) && after.enrolment == 2
  {
    var todo := Overtaken(code, now);
    hide Match, Run;
    FirstIsSaved(crypto, code, now);
    var s3 := Step(crypto, Step(crypto, Step(crypto, START, todo[0]), todo[1]), todo[2]);
    FirstIsEnabled(crypto, s3, code, now);
    hide Step;
    RunOneMore(crypto, START, todo[..5], todo[5]);
    RunOfFive(crypto, START, todo);
    assert todo[..5] + [todo[5]] == todo;
  }

  // And one with no set-up under way: the enrolment is complete, and then a set-up begins
  // that cannot read so.
  function Completed(code: string, now: int): (actions: seq<Action>) {
    Enrolling(code, now) + [Consume(1, Answered)]
  }

  lemma AfterCompleted(crypto: Crypto, code: string, now: int)
    requires Match(crypto, 1, code, now).Some?
    ensures var s := Run(crypto, START, Completed(code, now));
      && s.row == Some(Config(Enabled, 1, [], Match(crypto, 1, code, now))) && s.enrolment == 1
      && s.secrets == map[1 := 1] && s.requests == map[0 := Over, 1 := Over]
  {
    hide Match, Run;
    var todo := Completed(code, now);
    AfterEnrolling(crypto, code, now, todo);
    var s3 := Step(crypto, Step(crypto, Step(crypto, START, todo[0]), todo[1]), todo[2]);
    RunOfThree(crypto, START, todo);
    Unroll(crypto, s3, todo[3..]);
    assert todo[3..][1..] == [];
    RunNothing(crypto, Step(crypto, s3, todo[3]));
  }

  lemma UnreadStatusReplaces(crypto: Crypto, code: string, now: int)
    requires Match(crypto, 1, code, now).Some?
    ensures var done := Run(crypto, START, Completed(code, now));
      var after := Run(crypto, START, Completed(code, now) + [BeginSetup(2, false)] + [SaveSetup(2, 2, [], Answered)]);
      && EnabledRow(done) && !SomePreparing(done) && done.enrolment == 1
      && after.row == Some(Config(Pending, 2, [], None)) && after.enrolment == 2
  {
    hide Match, Run, Completed;
    var todo := Completed(code, now);
    AfterCompleted(crypto, code, now);
    var begun := Step(crypto, Run(crypto, START, todo), BeginSetup(2, false));
    assert At(begun, 2) == Preparing;
    RunOneMore(crypto, START, todo, BeginSetup(2, false));
    RunOneMore(crypto, START, todo + [BeginSetup(2, false)], SaveSetup(2, 2, [], Answered));
  }

  lemma RunOfFive(crypto: Crypto, s: State, todo: seq<Action>)
    requires |todo| >= 5
    ensures Run(crypto, s, todo[..5])
      == Step(crypto, Step(crypto, Step(crypto, Step(crypto, Step(crypto, s, todo[0]), todo[1]), todo[2]), todo[3]),
              todo[4])
  {
    hide Step;
    var five := todo[..5];
    RunOfThree(crypto, s, five);
    var s3 := Step(crypto, Step(crypto, Step(crypto, s, five[0]), five[1]), five[2]);
    Unroll(crypto, s3, five[3..]);
    Unroll(crypto, Step(crypto, s3, five[3]), five[3..][1..]);
    assert five[3..][1..][1..] == [];
    RunNothing(crypto, Step(crypto, Step(crypto, s3, five[3]), five[4]));
  }

  lemma RunOfThree(crypto: Crypto, s: State, todo: seq<Action>)
    requires |todo| >= 3
    ensures Run(crypto, s, todo)
      == Run(crypto, Step(crypto, Step(crypto, Step(crypto, s, todo[0]), todo[1]), todo[2]), todo[3..])
  {
    hide Step;
    assert todo[1..][1..] == todo[2..] && todo[2..][1..] == todo[3..];
    Unroll(crypto, s, todo);
    Unroll(crypto, Step(crypto, s, todo[0]), todo[1..]);
    Unroll(crypto, Step(crypto, Step(crypto, s, todo[0]), todo[1]), todo[2..]);
  }

  lemma Unroll(crypto: Crypto, s: State, todo: seq<Action>)
    requires todo != []
    ensures Run(crypto, s, todo) == Run(crypto, Step(crypto, s, todo[0]), todo[1..])
  {
  }
}
