// The bootstrap endpoint (src/routes/bootstrap.rs): any number of concurrent requests on
// one claim row. Every statement is one atomic step, may be lost, or may be carried out
// with its answer lost; a request may die between any two steps.
module Bootstrap {
  import opened Base

  type UserId = nat

  datatype Stage = Claiming | RolePending | Done

  datatype ClaimRow = ClaimRow(email: string, stage: Stage, user: Option<UserId>)

  // Where a request stands: what it is about to do.
  datatype Pc =
    | Arrived                      // look for an administrator, check the token
    | Allowed                      // create the claim row
    | Refused                      // could not create it: read it
    | Fresh                        // register the account
    | Registered(user: UserId)     // record the account in the claim row
    | Granting(user: UserId)       // look whether the account has the role already
    | Assigning(user: UserId)      // create the role assignment
    | Finishing(user: UserId)      // mark the claim as done
    | Releasing                    // delete the claim row
    | Created(user: UserId)        // answered: administrator created
    | Failed                       // answered with an error, or dead

  datatype Request = Request(email: string, pc: Pc)

  // `admins` is who holds the role now, `granted` the users this endpoint ever gave it to;
  // `accounts` the accounts registered through this endpoint, with their emails; `chosen`
  // the account of the request that got through registration.
  datatype State = State(
    claim: Option<ClaimRow>,
    admins: set<UserId>,
    granted: set<UserId>,
    users: set<UserId>,
    accounts: map<UserId, string>,
    chosen: Option<UserId>,
    requests: map<nat, Request>)

  datatype Action =
    | Arrive(r: nat, email: string)
    | CheckGate(r: nat, tokenOk: bool, readable: bool)
    | CreateClaim(r: nat, fate: Fate)
    | ReadClaim(r: nat, readable: bool)
    | Register(r: nat, registered: Option<UserId>)
    | MarkPending(r: nat, fate: Fate)
    | CheckRole(r: nat, readable: bool)
    | Assign(r: nat, fate: Fate)
    | Finish(r: nat, fate: Fate)
    | Release(r: nat, fate: Fate)
    | Crash(r: nat)
    | OtherAccount(user: UserId)       // a registration elsewhere
    | OtherAdmins(admins: set<UserId>) // roles granted and revoked elsewhere

  const START := State(None, {}, {}, {}, map[], None, map[])

  // ---------------------------------------------------------------------------
  // The statements.

  // CREATE bootstrap_claim:singleton fails when the row is already there.
  function AfterCreate(claim: Option<ClaimRow>, email: string): (r: Option<ClaimRow>) {
    if claim.None? then Some(ClaimRow(email, Claiming, None)) else claim
  }

  // What the claim row lets a request do that could not create it.
  function Resumable(claim: Option<ClaimRow>, email: string): (r: Option<UserId>) {
    if claim.Some? && claim.value.stage.RolePending? && claim.value.email == email then claim.value.user
    else None
  }

  // UPDATE changes nothing when the row is gone.
  function AfterMark(claim: Option<ClaimRow>, user: UserId): (r: Option<ClaimRow>) {
    if claim.Some? then Some(claim.value.(stage := RolePending, user := Some(user))) else None
  }

  function AfterFinish(claim: Option<ClaimRow>): (r: Option<ClaimRow>) {
    if claim.Some? then Some(claim.value.(stage := Done)) else None
  }

  function At(s: State, r: nat): (result: Pc) {
    if r in s.requests then s.requests[r].pc else Failed
  }

  // Request r moves on and leaves this claim row behind.
  function Move(s: State, r: nat, claim: Option<ClaimRow>, pc: Pc): (result: State)
    requires r in s.requests
  {
    s.(claim := claim, requests := s.requests[r := s.requests[r].(pc := pc)])
  }

  // Only the request that hears of its own success holds the gate.
  function CreateStep(s: State, r: nat, fate: Fate): (result: State)
    requires r in s.requests
  {
    Move(s, r, if fate.NotExecuted? then s.claim else AfterCreate(s.claim, s.requests[r].email),
         if s.claim.None? && fate.Answered? then Fresh else Refused)
  }

  function ReadStep(s: State, r: nat, readable: bool): (result: State)
    requires r in s.requests
  {
    var user := Resumable(s.claim, s.requests[r].email);
    Move(s, r, s.claim, if readable && user.Some? then Granting(user.value) else Failed)
  }

  // Registration gives a new account, or fails (possibly leaving an account nobody uses).
  function RegisterStep(s: State, r: nat, registered: Option<UserId>): (result: State)
    requires r in s.requests
  {
    if registered.Some? && registered.value !in s.users then
      var u := registered.value;
      Move(s.(users := s.users + {u}, accounts := s.accounts[u := s.requests[r].email], chosen := Some(u)),
           r, s.claim, Registered(u))
    else Move(s, r, s.claim, Releasing)
  }

  // The outcome of recording the account is not looked at.
  function MarkStep(s: State, r: nat, user: UserId, fate: Fate): (result: State)
    requires r in s.requests
  {
    Move(s, r, if fate.NotExecuted? then s.claim else AfterMark(s.claim, user), Granting(user))
  }

  function CheckRoleStep(s: State, r: nat, user: UserId, readable: bool): (result: State)
    requires r in s.requests
  {
    Move(s, r, s.claim, if readable && user !in s.admins then Assigning(user) else Failed)
  }

  function AssignStep(s: State, r: nat, user: UserId, fate: Fate): (result: State)
    requires r in s.requests
  {
    if fate.NotExecuted? then Move(s, r, s.claim, Failed)
    else Move(s.(granted := s.granted + {user}, admins := s.admins + {user}), r, s.claim,
              if fate.Answered? then Finishing(user) else Failed)
  }

  function FinishStep(s: State, r: nat, user: UserId, fate: Fate): (result: State)
    requires r in s.requests
  {
    Move(s, r, if fate.NotExecuted? then s.claim else AfterFinish(s.claim), Created(user))
  }

  function ReleaseStep(s: State, r: nat, fate: Fate): (result: State)
    requires r in s.requests
  {
    Move(s, r, if fate.NotExecuted? then s.claim else None, Failed)
  }

  // One step of one request, or of the surroundings. A step that is not due changes nothing.
  function Step(s: State, a: Action): (r: State) {
    match a
    case Arrive(r, email) =>
      if r in s.requests then s else s.(requests := s.requests[r := Request(email, Arrived)])
    case CheckGate(r, tokenOk, readable) =>
      if At(s, r).Arrived? then
        Move(s, r, s.claim, if readable && s.admins == {} && tokenOk then Allowed else Failed)
      else s
    case CreateClaim(r, fate) => if At(s, r).Allowed? then CreateStep(s, r, fate) else s
    case ReadClaim(r, readable) => if At(s, r).Refused? then ReadStep(s, r, readable) else s
    case Register(r, registered) => if At(s, r).Fresh? then RegisterStep(s, r, registered) else s
    case MarkPending(r, fate) => if At(s, r).Registered? then MarkStep(s, r, At(s, r).user, fate) else s
    case CheckRole(r, readable) =>
      if At(s, r).Granting? then CheckRoleStep(s, r, At(s, r).user, readable) else s
    case Assign(r, fate) => if At(s, r).Assigning? then AssignStep(s, r, At(s, r).user, fate) else s
    case Finish(r, fate) => if At(s, r).Finishing? then FinishStep(s, r, At(s, r).user, fate) else s
    case Release(r, fate) => if At(s, r).Releasing? then ReleaseStep(s, r, fate) else s
    case Crash(r) => if r in s.requests then Move(s, r, s.claim, Failed) else s
    case OtherAccount(user) => s.(users := s.users + {user})
    case OtherAdmins(admins) => s.(admins := admins)
  }

  function Run(s: State, actions: seq<Action>): (r: State)
    decreases |actions|
  {
    if actions == [] then s else Run(Step(s, actions[0]), actions[1..])
  }

  // ---------------------------------------------------------------------------
  // The invariant.

  predicate Holds(pc: Pc) {
    pc.Fresh? || pc.Releasing? || pc.Registered?
  }

  // The user a request works for, once it has one.
  function UserOf(pc: Pc): (r: Option<UserId>) {
    match pc
    case Registered(u) => Some(u)
    case Granting(u) => Some(u)
    case Assigning(u) => Some(u)
    case Finishing(u) => Some(u)
    case Created(u) => Some(u)
    case _ => None
  }

  // The request that holds the gate is alone, also among those that have a user, and the
  // claim row carries its email.
  ghost predicate OneHolder(s: State) {
    && (forall r, q | r in s.requests && q in s.requests ::
          Holds(s.requests[r].pc) && (Holds(s.requests[q].pc) || UserOf(s.requests[q].pc).Some?) ==> r == q)
    && (forall r | r in s.requests :: Holds(s.requests[r].pc) ==>
          s.claim == Some(ClaimRow(s.requests[r].email, Claiming, None)))
  }

  // Nobody has got through registration yet.
  ghost predicate NoneChosen(s: State) {
    && s.granted == {}
    && (forall r | r in s.requests :: UserOf(s.requests[r].pc) == None)
    && (s.claim.Some? ==> s.claim.value.stage.Claiming? && s.claim.value.user.None?)
  }

  // Somebody has, and everything from then on is about that one account.
  ghost predicate AllAbout(s: State, u: UserId) {
    && s.granted <= {u}
    && u in s.accounts
    && (forall r | r in s.requests :: RequestAbout(s.accounts[u], s.requests[r], u))
    && s.claim.Some? && s.claim.value.email == s.accounts[u]
    && (s.claim.value.user == None || s.claim.value.user == Some(u))
    && (s.claim.value.stage.RolePending? ==> s.claim.value.user == Some(u))
  }

  ghost predicate RequestAbout(email: string, request: Request, u: UserId) {
    && !request.pc.Fresh? && !request.pc.Releasing?
    && (UserOf(request.pc).Some? ==> UserOf(request.pc) == Some(u) && request.email == email)
  }

  ghost predicate Inv(s: State) {
    && OneHolder(s)
    && s.accounts.Keys <= s.users
    && match s.chosen case None => NoneChosen(s) case Some(u) => AllAbout(s, u)
  }

  // A request that holds nothing before or after, and names no user it did not name
  // before, changes nothing in the invariant.
  lemma MoveKeepsInv(s: State, r: nat, pc: Pc)
    requires Inv(s) && r in s.requests
    requires !Holds(pc) && (UserOf(pc) == None || UserOf(pc) == UserOf(s.requests[r].pc))
    ensures Inv(Move(s, r, s.claim, pc))
  {
    var s' := Move(s, r, s.claim, pc);
    forall q | q in s'.requests && q != r ensures s'.requests[q] == s.requests[q] {
    }
  }

  lemma ArriveKeepsInv(s: State, r: nat, email: string)
    requires Inv(s) && r !in s.requests
    ensures Inv(s.(requests := s.requests[r := Request(email, Arrived)]))
  {
    var s' := s.(requests := s.requests[r := Request(email, Arrived)]);
    forall q | q in s'.requests && q != r ensures s'.requests[q] == s.requests[q] {
    }
  }

  lemma CreateKeepsInv(s: State, r: nat, fate: Fate)
    requires Inv(s) && At(s, r).Allowed?
    ensures Inv(CreateStep(s, r, fate))
  {
    var s' := CreateStep(s, r, fate);
    forall q | q in s'.requests && q != r
      ensures s'.requests[q] == s.requests[q] && (s.claim.None? ==> !Holds(s.requests[q].pc))
    {
    }
  }

  // While the role is pending nobody holds the gate, and the account is the recorded one.
  lemma ResumedKeepsInv(s: State, r: nat, u: UserId)
    requires Inv(s) && r in s.requests && At(s, r).Refused? && Resumable(s.claim, s.requests[r].email) == Some(u)
    ensures Inv(Move(s, r, s.claim, Granting(u)))
  {
    var s' := Move(s, r, s.claim, Granting(u));
    assert OneHolder(s') by {
      hide AllAbout, NoneChosen;
      forall q | q in s.requests ensures !Holds(s.requests[q].pc) {
      }
    }
    hide OneHolder;
  }

  lemma ReadKeepsInv(s: State, r: nat, readable: bool)
    requires Inv(s) && At(s, r).Refused?
    ensures Inv(ReadStep(s, r, readable))
  {
    hide Inv;
    MoveKeepsInv(s, r, Failed);
    if Resumable(s.claim, s.requests[r].email).Some? {
      ResumedKeepsInv(s, r, Resumable(s.claim, s.requests[r].email).value);
    }
  }

  lemma RegisterKeepsInv(s: State, r: nat, registered: Option<UserId>)
    requires Inv(s) && At(s, r).Fresh?
    ensures Inv(RegisterStep(s, r, registered))
  {
    var s' := RegisterStep(s, r, registered);
    assert Holds(s.requests[r].pc);
    forall q | q in s'.requests && q != r ensures s'.requests[q] == s.requests[q] && !Holds(s.requests[q].pc) {
    }
  }

  lemma MarkKeepsInv(s: State, r: nat, fate: Fate)
    requires Inv(s) && At(s, r).Registered?
    ensures Inv(MarkStep(s, r, At(s, r).user, fate))
  {
    var s' := MarkStep(s, r, At(s, r).user, fate);
    assert Holds(s.requests[r].pc) && UserOf(s.requests[r].pc).Some?;
    forall q | q in s'.requests && q != r ensures s'.requests[q] == s.requests[q] && !Holds(s.requests[q].pc) {
    }
  }

  lemma AssignKeepsInv(s: State, r: nat, fate: Fate)
    requires Inv(s) && At(s, r).Assigning?
    ensures Inv(AssignStep(s, r, At(s, r).user, fate))
  {
    var s' := AssignStep(s, r, At(s, r).user, fate);
    assert UserOf(s.requests[r].pc).Some?;
    forall q | q in s'.requests && q != r ensures s'.requests[q] == s.requests[q] {
    }
  }

  lemma FinishKeepsInv(s: State, r: nat, fate: Fate)
    requires Inv(s) && At(s, r).Finishing?
    ensures Inv(FinishStep(s, r, At(s, r).user, fate))
  {
    var s' := FinishStep(s, r, At(s, r).user, fate);
    assert UserOf(s.requests[r].pc).Some?;
    forall q | q in s'.requests && q != r ensures s'.requests[q] == s.requests[q] {
    }
  }

  lemma ReleaseKeepsInv(s: State, r: nat, fate: Fate)
    requires Inv(s) && At(s, r).Releasing?
    ensures Inv(ReleaseStep(s, r, fate))
  {
    var s' := ReleaseStep(s, r, fate);
    assert Holds(s.requests[r].pc);
    forall q | q in s'.requests && q != r ensures s'.requests[q] == s.requests[q] && !Holds(s.requests[q].pc) {
    }
  }

  lemma StepKeepsInv(s: State, a: Action)
    requires Inv(s)
    ensures Inv(Step(s, a))
  {
    hide OneHolder, NoneChosen, AllAbout, CreateStep, ReadStep, RegisterStep, MarkStep, AssignStep, FinishStep,
         ReleaseStep;
    match a
    case Arrive(r, email) => if r !in s.requests { ArriveKeepsInv(s, r, email); }
    case CreateClaim(r, fate) => if At(s, r).Allowed? { CreateKeepsInv(s, r, fate); }
    case ReadClaim(r, readable) => if At(s, r).Refused? { ReadKeepsInv(s, r, readable); }
    case Register(r, registered) => if At(s, r).Fresh? { RegisterKeepsInv(s, r, registered); }
    case MarkPending(r, fate) => if At(s, r).Registered? { MarkKeepsInv(s, r, fate); }
    case Assign(r, fate) => if At(s, r).Assigning? { AssignKeepsInv(s, r, fate); }
    case Finish(r, fate) => if At(s, r).Finishing? { FinishKeepsInv(s, r, fate); }
    case Release(r, fate) => if At(s, r).Releasing? { ReleaseKeepsInv(s, r, fate); }
    case OtherAccount(_) => SurroundingsKeepInv(s, a);
    case OtherAdmins(_) => SurroundingsKeepInv(s, a);
    case _ => QuietStepKeepsInv(s, a);
  }

  lemma QuietStepKeepsInv(s: State, a: Action)
    requires Inv(s) && (a.CheckGate? || a.CheckRole? || a.Crash?)
    ensures Inv(Step(s, a))
  {
    hide Inv;
    if a.r in s.requests && Step(s, a) != s {
      MoveKeepsInv(s, a.r, Step(s, a).requests[a.r].pc);
    }
  }

  lemma SurroundingsKeepInv(s: State, a: Action)
    requires Inv(s) && (a.OtherAccount? || a.OtherAdmins?)
    ensures Inv(Step(s, a))
  {
  }

  lemma {:induction false} RunKeepsInv(s: State, actions: seq<Action>)
    requires Inv(s)
    ensures Inv(Run(s, actions))
    decreases |actions|
  {
    hide Inv, Step;
    if actions != [] {
      StepKeepsInv(s, actions[0]);
      RunKeepsInv(Step(s, actions[0]), actions[1..]);
    }
  }

  // ---------------------------------------------------------------------------
  // What holds of every run.

  // Whatever the interleaving, the losses and the crashes: at most one user is ever made
  // administrator here; it is an account this endpoint registered itself, never one found
  // by its email; and every request that gets as far as the role, resumed or not, works for
  // that account and came with the email it was registered under.
  lemma AtMostOneAdmin(actions: seq<Action>)
    ensures var s := Run(START, actions);
      && |s.granted| <= 1
      && s.granted <= s.accounts.Keys
      && (forall r, q | r in s.requests && q in s.requests ::
            UserOf(s.requests[r].pc).Some? && UserOf(s.requests[q].pc).Some? ==>
              UserOf(s.requests[r].pc) == UserOf(s.requests[q].pc))
      && (forall r, u | r in s.requests && UserOf(s.requests[r].pc) == Some(u) ::
            u in s.accounts && s.requests[r].email == s.accounts[u])
  {
    var s := Run(START, actions);
    RunKeepsInv(START, actions);
    if s.chosen.Some? {
      var u := s.chosen.value;
      assert |{u}| == 1;
      SubsetIsSmaller(s.granted, {u});
      forall r | r in s.requests && UserOf(s.requests[r].pc).Some?
        ensures UserOf(s.requests[r].pc) == Some(u) && s.requests[r].email == s.accounts[u]
      {
        assert RequestAbout(s.accounts[u], s.requests[r], u);
      }
    }
  }

  lemma {:induction false} SubsetIsSmaller<T>(a: set<T>, b: set<T>)
    requires a <= b
    ensures |a| <= |b|
  {
    if a != {} {
      var x :| x in a;
      SubsetIsSmaller(a - {x}, b - {x});
    }
  }

  // A claim row without an account behind it: from then on the endpoint refuses everybody.
  ghost predicate Stuck(s: State) {
    && s.claim.Some? && s.claim.value.stage.Claiming?
    && forall r | r in s.requests ::
         !Holds(s.requests[r].pc) && (UserOf(s.requests[r].pc).Some? ==> s.requests[r].pc.Created?)
  }

  lemma StepStaysStuck(s: State, a: Action)
    requires Stuck(s)
    ensures Stuck(Step(s, a)) && Step(s, a).granted == s.granted && Step(s, a).claim == s.claim
  {
    var s' := Step(s, a);
    if a.OtherAccount? || a.OtherAdmins? {
    } else {
      var r := a.r;
      assert r in s.requests ==> !Holds(s.requests[r].pc)
                                 && (UserOf(s.requests[r].pc).Some? ==> s.requests[r].pc.Created?);
      forall q | q in s'.requests && q != r ensures q in s.requests && s'.requests[q] == s.requests[q] {
      }
    }
  }

  lemma {:induction false} RunStaysStuck(s: State, actions: seq<Action>)
    requires Stuck(s)
    ensures Run(s, actions).granted == s.granted
    decreases |actions|
  {
    hide Stuck, Step;
    if actions != [] {
      StepStaysStuck(s, actions[0]);
      RunStaysStuck(Step(s, actions[0]), actions[1..]);
    }
  }

  // Two runs that end there: the process dies between the registration and its record, or
  // the answer of the insert that took the gate is lost.
  function DiesAfterRegistration(email: string, account: UserId): (actions: seq<Action>) {
    [Arrive(0, email), CheckGate(0, true, true), CreateClaim(0, Answered), Register(0, Some(account)), Crash(0)]
  }

  function LosesTheAnswer(email: string): (actions: seq<Action>) {
    [Arrive(0, email), CheckGate(0, true, true), CreateClaim(0, AnswerLost), ReadClaim(0, true)]
  }

  lemma DeathLeavesItStuck(email: string, account: UserId, later: seq<Action>)
    ensures var s := Run(START, DiesAfterRegistration(email, account));
      && Stuck(s) && s.granted == {} && account in s.accounts && s.accounts[account] == email
      && Run(START, DiesAfterRegistration(email, account) + later).granted == {}
  {
    var todo := DiesAfterRegistration(email, account);
    RunOfFour(START, todo[..4]);
    RunInTwoParts(START, todo[..4], [todo[4]]);
    assert todo[..4] + [todo[4]] == todo && [todo[4]] + [] == [todo[4]];
    var s4 := Run(START, todo[..4]);
    Unroll(s4, todo[4], []);
    RunNothing(Step(s4, todo[4]));
    assert s4.requests == map[0 := Request(email, Registered(account))];
    hide Run, Step;
    RunStaysStuck(Run(START, todo), later);
    RunInTwoParts(START, todo, later);
  }

  lemma LostAnswerLeavesItStuck(email: string, later: seq<Action>)
    ensures var s := Run(START, LosesTheAnswer(email));
      && Stuck(s) && s.granted == {} && s.accounts == map[]
      && Run(START, LosesTheAnswer(email) + later).granted == {}
  {
    var todo := LosesTheAnswer(email);
    RunOfFour(START, todo);
    var s := Step(Step(Step(Step(START, todo[0]), todo[1]), todo[2]), todo[3]);
    assert s.requests == map[0 := Request(email, Failed)];
    hide Run, Step;
    RunStaysStuck(Run(START, todo), later);
    RunInTwoParts(START, todo, later);
  }

  // One further request with the right token, when nothing fails: what it does from its
  // arrival to its look at the claim row, and from there to its answer.
  function Entry(r: nat, email: string): (result: seq<Action>) {
    [Arrive(r, email), CheckGate(r, true, true), CreateClaim(r, Answered), ReadClaim(r, true)]
  }

  function Completion(r: nat, account: UserId): (result: seq<Action>) {
    [Register(r, Some(account)), MarkPending(r, Answered), CheckRole(r, true), Assign(r, Answered), Finish(r, Answered)]
  }

  lemma EntryOutcome(s: State, r: nat, email: string)
    requires Inv(s) && s.admins == {} && r !in s.requests
    ensures var s' := Run(s, Entry(r, email));
      && At(s', r) == (if s.claim.None? then Fresh
                       else if Resumable(s.claim, email).Some? then Granting(Resumable(s.claim, email).value)
                       else Failed)
      && s'.admins == {} && s'.users == s.users
  {
    hide Inv, Run;
    var todo := Entry(r, email);
    RunOfFour(s, todo);
  }

  lemma CompletionBegins(s: State, r: nat, account: UserId)
    requires s.admins == {} && account !in s.users
    requires At(s, r).Fresh? || At(s, r).Granting? || At(s, r).Failed?
    ensures var s2 := Step(Step(s, Register(r, Some(account))), MarkPending(r, Answered));
      s2.admins == {} && At(s2, r) == match At(s, r) case Fresh => Granting(account) case pc => pc
  {
  }

  lemma CompletionEnds(s: State, r: nat)
    requires s.admins == {} && (At(s, r).Granting? || At(s, r).Failed?)
    ensures var s3 := Step(Step(Step(s, CheckRole(r, true)), Assign(r, Answered)), Finish(r, Answered));
      At(s3, r) == match At(s, r) case Granting(u) => Created(u) case pc => pc
  {
  }

  lemma CompletionOutcome(s: State, r: nat, account: UserId)
    requires s.admins == {} && account !in s.users
    requires At(s, r).Fresh? || At(s, r).Granting? || At(s, r).Failed?
    ensures At(Run(s, Completion(r, account)), r)
      == match At(s, r) case Fresh => Created(account) case Granting(u) => Created(u) case _ => Failed
  {
    CompletionBegins(s, r, account);
    hide Run, Step;
    var todo := Completion(r, account);
    RunOfFour(s, todo[..4]);
    RunInTwoParts(s, todo[..4], todo[4..]);
    assert todo == todo[..4] + todo[4..];
    CompletionEnds(Step(Step(s, todo[0]), todo[1]), r);
    var s4 := Step(Step(Step(Step(s, todo[0]), todo[1]), todo[2]), todo[3]);
    Unroll(s4, todo[4], []);
    assert todo[4..] == [todo[4]] + [];
    RunNothing(Step(s4, todo[4]));
  }

  lemma RunNothing(s: State)
    ensures Run(s, []) == s
  {
  }

  lemma RunOfFour(s: State, todo: seq<Action>)
    requires |todo| == 4
    ensures Run(s, todo) == Step(Step(Step(Step(s, todo[0]), todo[1]), todo[2]), todo[3])
  {
    hide Step;
    var s1 := Step(s, todo[0]);
    var s2 := Step(s1, todo[1]);
    Unroll(s, todo[0], todo[1..]);
    Unroll(s1, todo[1], todo[2..]);
    Unroll(s2, todo[2], todo[3..]);
    Unroll(Step(s2, todo[2]), todo[3], []);
    assert todo == [todo[0]] + todo[1..] && todo[1..] == [todo[1]] + todo[2..] && todo[2..] == [todo[2]] + todo[3..]
           && todo[3..] == [todo[3]] + [];
  }

  lemma Unroll(s: State, a: Action, rest: seq<Action>)
    ensures Run(s, [a] + rest) == Run(Step(s, a), rest)
  {
    hide Step;
    assert ([a] + rest)[1..] == rest;
  }

  lemma {:induction false} RunInTwoParts(s: State, first: seq<Action>, second: seq<Action>)
    ensures Run(s, first + second) == Run(Run(s, first), second)
    decreases |first|
  {
    hide Step;
    if first == [] {
      assert [] + second == second;
    } else {
      assert (first + second)[1..] == first[1..] + second;
      RunInTwoParts(Step(s, first[0]), first[1..], second);
    }
  }

  // While nobody holds the role, one more request gets through if and only if there is no
  // claim row, or the row names the account and the request carries the same email. It then
  // ends with that account, or with a new one, as administrator.
  lemma RetryOutcome(actions: seq<Action>, r: nat, email: string, account: UserId)
    requires Run(START, actions).admins == {}
    requires r !in Run(START, actions).requests && account !in Run(START, actions).users
    ensures var s := Run(START, actions);
      At(Run(START, actions + Entry(r, email) + Completion(r, account)), r)
        == if s.claim.None? then Created(account)
           else if Resumable(s.claim, email).Some? then Created(Resumable(s.claim, email).value)
           else Failed
  {
    hide Run, Step;
    var s := Run(START, actions);
    RunKeepsInv(START, actions);
    EntryOutcome(s, r, email);
    CompletionOutcome(Run(s, Entry(r, email)), r, account);
    RunInTwoParts(START, actions, Entry(r, email));
    RunInTwoParts(START, actions + Entry(r, email), Completion(r, account));
  }
}
