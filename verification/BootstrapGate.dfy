// The handler of src/routes/bootstrap.rs as it runs, statement by statement, on the tables.
// A call, taken by itself, is shown to be a run of the machine in Bootstrap; what other
// requests do between its statements is left to that machine.
module BootstrapGate {
  import opened Base
  import opened Bootstrap

  // Whether a query gives an answer, and what becomes of each update.
  datatype Luck = Luck(gate: bool, create: Fate, read: bool, registered: Option<UserId>, mark: Fate,
                       check: bool, assign: Fate, finish: Fate, release: Fate)

  class Tables {
    var claim: Option<ClaimRow>
    var admins: set<UserId>

    // CREATE on a fixed record id.
    method CreateClaim(email: string, fate: Fate) returns (ok: bool)
      modifies this`claim
      ensures claim == if fate.NotExecuted? || old(claim).Some? then old(claim)
                       else Some(ClaimRow(email, Claiming, None))
      ensures ok <==> fate.Answered? && old(claim).None?
    {
      ok := false;
      if !fate.NotExecuted? && claim.None? {
        claim := Some(ClaimRow(email, Claiming, None));
        ok := fate.Answered?;
      }
    }

    method ReleaseBootstrap(fate: Fate)
      modifies this`claim
      ensures claim == if fate.NotExecuted? then old(claim) else None
    {
      if !fate.NotExecuted? {
        claim := None;
      }
    }

    method MarkRolePending(user: UserId, fate: Fate)
      modifies this`claim
      ensures claim == if fate.NotExecuted? || old(claim).None? then old(claim)
                       else Some(ClaimRow(old(claim).value.email, RolePending, Some(user)))
    {
      if !fate.NotExecuted? && claim.Some? {
        claim := Some(claim.value.(stage := RolePending, user := Some(user)));
      }
    }

    method FinishBootstrap(fate: Fate)
      modifies this`claim
      ensures claim == if fate.NotExecuted? || old(claim).None? then old(claim)
                       else Some(ClaimRow(old(claim).value.email, Done, old(claim).value.user))
    {
      if !fate.NotExecuted? && claim.Some? {
        claim := Some(claim.value.(stage := Done));
      }
    }
  }

  lemma {:induction false} RunOneMore(s: State, actions: seq<Action>, a: Action)
    ensures Run(s, actions + [a]) == Step(Run(s, actions), a)
    decreases |actions|
  {
    hide Step;
    if actions == [] {
      assert ([] + [a])[1..] == [];
    } else {
      assert (actions + [a])[1..] == actions[1..] + [a];
      RunOneMore(Step(s, actions[0]), actions[1..], a);
    }
  }

  // The machine sees these tables, and request r at this point.
  ghost predicate Sees(s: State, db: Tables, r: nat, email: string, pc: Pc)
    reads db
  {
    s.claim == db.claim && s.admins == db.admins && r in s.requests && s.requests[r] == Request(email, pc)
  }

  // Holds the gate afresh, takes over a half-finished claim, or is turned away.
  datatype Claim = Fresh | Resumed(user: UserId) | Rejected

  method ClaimBootstrap(db: Tables, email: string, luck: Luck, ghost s: State, ghost r: nat)
    returns (outcome: Claim, ghost actions: seq<Action>)
    requires Sees(s, db, r, email, Pc.Allowed)
    modifies db`claim
    ensures Sees(Run(s, actions), db, r, email,
      match outcome case Fresh => Pc.Fresh case Resumed(u) => Granting(u) case Rejected => Failed)
    ensures Run(s, actions).users == s.users
    ensures outcome.Fresh? <==> old(db.claim).None? && luck.create.Answered?
    // Taken over is a claim that got as far as an account, under the same email.
    ensures forall u :: outcome == Resumed(u) <==>
      luck.read && old(db.claim) == Some(ClaimRow(email, RolePending, Some(u)))
    ensures db.claim == if old(db.claim).Some? || luck.create.NotExecuted? then old(db.claim)
                        else Some(ClaimRow(email, Claiming, None))
  {
    hide Run;
    var ok := db.CreateClaim(email, luck.create);
    actions := [Action.CreateClaim(r, luck.create)];
    RunOneMore(s, [], Action.CreateClaim(r, luck.create));
    RunNothing(s);
    assert [] + actions == actions;
    if ok {
      return Claim.Fresh, actions;
    }
    RunOneMore(s, actions, ReadClaim(r, luck.read));
    actions := actions + [ReadClaim(r, luck.read)];
    outcome := Rejected;
    if luck.read && db.claim.Some? {
      var row := db.claim.value;
      if row.stage == RolePending && row.email == email && row.user.Some? {
        outcome := Resumed(row.user.value);
      }
    }
  }

  // Grants the role unless the account has it; then the claim is marked as done.
  method GrantAdmin(db: Tables, email: string, user: UserId, luck: Luck, ghost s: State, ghost r: nat)
    returns (ok: bool, ghost actions: seq<Action>)
    requires Sees(s, db, r, email, Granting(user))
    modifies db
    ensures Sees(Run(s, actions), db, r, email, if ok then Created(user) else Failed)
    ensures Run(s, actions).users == s.users
    ensures ok <==> luck.check && user !in old(db.admins) && luck.assign.Answered?
    ensures db.admins
      == old(db.admins) + if luck.check && !luck.assign.NotExecuted? then {user} else {}
    ensures db.claim == if ok && !luck.finish.NotExecuted? && old(db.claim).Some?
                        then Some(old(db.claim).value.(stage := Done)) else old(db.claim)
  {
    hide Run;
    RunNothing(s);
    RunOneMore(s, [], CheckRole(r, luck.check));
    actions := [CheckRole(r, luck.check)];
    assert [] + actions == actions;
    if !luck.check || user in db.admins {
      return false, actions;
    }
    RunOneMore(s, actions, Assign(r, luck.assign));
    actions := actions + [Assign(r, luck.assign)];
    if luck.assign.NotExecuted? {
      return false, actions;
    }
    db.admins := db.admins + {user};
    if luck.assign.AnswerLost? {
      return false, actions;
    }
    RunOneMore(s, actions, Finish(r, luck.finish));
    actions := actions + [Finish(r, luck.finish)];
    db.FinishBootstrap(luck.finish);
    ok := true;
  }

  // The account a request is about, once it has passed the gate: a new one, or the recorded one.
  function WorksFor(claim: Option<ClaimRow>, email: string, luck: Luck): (user: Option<UserId>) {
    if claim.None? then if luck.create.Answered? then luck.registered else None
    else if luck.read && claim.value.email == email && claim.value.stage == RolePending then claim.value.user
    else None
  }

  // POST /api/bootstrap/admin. The answer is the new administrator, or an error.
  method BootstrapAdmin(db: Tables, email: string, tokenOk: bool, luck: Luck, ghost s: State, ghost r: nat)
    returns (answer: Option<UserId>, ghost actions: seq<Action>)
    requires Sees(s, db, r, email, Arrived)
    // Registration gives an account that did not exist.
    requires luck.registered.Some? ==> luck.registered.value !in s.users
    modifies db
    ensures Sees(Run(s, actions), db, r, email, match answer case Some(u) => Created(u) case None => Failed)
    // With an administrator in place, or the wrong token, nothing is touched.
    ensures !luck.gate || !tokenOk || old(db.admins) != {} ==>
      answer == None && db.claim == old(db.claim) && db.admins == old(db.admins)
    // Otherwise the request works for the account it registers, if it finds no claim and hears
    // that it took it, or for the account of a claim that was left with the role pending
    // under the same email; it succeeds exactly if the role is then given and answered.
    ensures forall u :: answer == Some(u) <==>
      && luck.gate && tokenOk && old(db.admins) == {} && luck.check && luck.assign.Answered?
      && WorksFor(old(db.claim), email, luck) == Some(u)
    // That account, and nobody else, has the role, unless the assignment was not executed.
    ensures luck.gate && tokenOk && old(db.admins) == {} ==>
      var user := WorksFor(old(db.claim), email, luck);
      db.admins == if user.Some? && luck.check && !luck.assign.NotExecuted? then {user.value} else {}
    // What becomes of the claim row.
    ensures luck.gate && tokenOk && old(db.admins) == {} ==>
      if old(db.claim).None? && luck.create.NotExecuted? then db.claim == None
      else if old(db.claim).None? && luck.create.AnswerLost? then db.claim == Some(ClaimRow(email, Claiming, None))
      else if old(db.claim).None? && luck.registered.None? then
        db.claim == if luck.release.NotExecuted? then Some(ClaimRow(email, Claiming, None)) else None
      else
        && db.claim.Some?
        && var before := if old(db.claim).Some? then old(db.claim).value else ClaimRow(email, Claiming, None);
        && db.claim.value.email == before.email
        && db.claim.value.stage == (if answer.Some? && !luck.finish.NotExecuted? then Done
                                    else if old(db.claim).None? && !luck.mark.NotExecuted? then RolePending
                                    else before.stage)
        && db.claim.value.user == (if old(db.claim).None? && !luck.mark.NotExecuted? then luck.registered
                                   else before.user)
  {
    hide Run;
    RunNothing(s);
    RunOneMore(s, [], CheckGate(r, tokenOk, luck.gate));
    actions := [CheckGate(r, tokenOk, luck.gate)];
    assert [] + actions == actions;
    if !luck.gate || db.admins != {} || !tokenOk {
      return None, actions;
    }
    ghost var now := Run(s, actions);
    var outcome, claiming := ClaimBootstrap(db, email, luck, now, r);
    RunInTwoParts(s, actions, claiming);
    actions, now := actions + claiming, Run(now, claiming);
    if outcome.Rejected? {
      return None, actions;
    }
    var user;
    if outcome.Fresh? {
      RunOneMore(s, actions, Register(r, luck.registered));
      actions, now := actions + [Register(r, luck.registered)], Step(now, Register(r, luck.registered));
      if luck.registered.None? {
        RunOneMore(s, actions, Release(r, luck.release));
        actions := actions + [Release(r, luck.release)];
        db.ReleaseBootstrap(luck.release);
        return None, actions;
      }
      user := luck.registered.value;
      RunOneMore(s, actions, MarkPending(r, luck.mark));
      actions, now := actions + [MarkPending(r, luck.mark)], Step(now, MarkPending(r, luck.mark));
      db.MarkRolePending(user, luck.mark);
    } else {
      user := outcome.user;
    }
    var ok, granting := GrantAdmin(db, email, user, luck, now, r);
    RunInTwoParts(s, actions, granting);
    actions := actions + granting;
    answer := if ok then Some(user) else None;
  }
}
