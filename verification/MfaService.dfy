// The MFA service as it runs on the stored configuration of one user. AcceptTotpCode takes
// the configuration as it was read, which may be out of date by the time it updates.
module MfaService {
  import opened Base
  import opened Mfa

  class Store {
    var row: Option<Config>

    constructor ()
      ensures row == None
    {
      row := None;
    }

    // The machine sees this row, and request r has not begun.
    ghost predicate Sees(s: State, r: nat)
      reads this
    {
      s.row == row && r !in s.requests
    }

    // UPDATE ... WHERE last_totp_step = NONE OR last_totp_step < $step. Tells whether it matched.
    method ConsumeTotpStep(secret: nat, step: int, enable: bool, fate: Fate) returns (ok: bool)
      modifies this
      ensures var free := old(row).Some? && (old(row).value.lastStep.None? || old(row).value.lastStep.value < step);
        && (ok <==> free && fate.Answered?)
        && row == if !free || fate.NotExecuted? then old(row)
                  else Some(Config(if enable then Enabled else old(row).value.status, secret, old(row).value.codes,
                                   Some(step)))
      ensures row == if fate.NotExecuted? then old(row) else AfterConsume(old(row), secret, step, enable)
      // A watermark never goes back.
      ensures old(row).Some? && old(row).value.lastStep.Some? ==>
        row.Some? && row.value.lastStep.Some? && row.value.lastStep.value >= old(row).value.lastStep.value
    {
      ok := false;
      if !fate.NotExecuted? && row.Some? && (row.value.lastStep.None? || row.value.lastStep.value < step) {
        row := Some(row.value.(lastStep := Some(step), secret := secret,
                               status := if enable then Enabled else row.value.status));
        ok := fate.Answered?;
      }
    }

    method ConsumeBackupCode(used: nat, fate: Fate) returns (ok: bool)
      modifies this
      ensures row == if fate.NotExecuted? || old(row).None? || used !in old(row).value.codes then old(row)
                     else Some(old(row).value.(codes := Drop(old(row).value.codes, used)))
      ensures row == if fate.NotExecuted? then old(row) else AfterSpend(old(row), used)
      ensures ok <==> fate.Answered? && old(row).Some? && used in old(row).value.codes
    {
      ok := false;
      if !fate.NotExecuted? && row.Some? && used in row.value.codes {
        row := Some(row.value.(codes := Drop(row.value.codes, used)));
        ok := fate.Answered?;
      }
    }

    // The step of the code is consumed, or the code is refused.
    method AcceptTotpCode(crypto: Crypto, config: Config, code: string, now: int, enable: bool, fate: Fate)
      returns (ok: bool)
      modifies this
      ensures ok <==>
        && fate.Answered? && old(row).Some?
        && exists step :: EarliestHit(crypto, config.secret, code, now, step)
                          && (old(row).value.lastStep.None? || old(row).value.lastStep.value < step)
      ensures var step := Match(crypto, config.secret, code, now);
        row == if step.None? || fate.NotExecuted? then old(row)
               else AfterConsume(old(row), config.secret, step.value, enable)
      ensures row != old(row) ==>
        && !fate.NotExecuted? && old(row).Some? && row.Some? && row.value.lastStep.Some?
        && EarliestHit(crypto, config.secret, code, now, row.value.lastStep.value)
        && row == Some(Config(if enable then Enabled else old(row).value.status, config.secret, old(row).value.codes,
                              row.value.lastStep))
      // What is accepted lies within one step of the clock, and was not accepted before.
      ensures ok ==>
        && row.Some? && row.value.lastStep.Some? && row.value.secret == config.secret
        && (enable ==> row.value.status == Enabled)
        && EarliestHit(crypto, config.secret, code, now, row.value.lastStep.value)
        && (old(row).value.lastStep.Some? ==> old(row).value.lastStep.value < row.value.lastStep.value)
    {
      MatchIsEarliest(crypto, config.secret, code, now);
      var step := MatchTotpStep(crypto, config.secret, code, now);
      if step.None? {
        return false;
      }
      ok := ConsumeTotpStep(config.secret, step.value, enable, fate);
    }

    // enable_totp and verify_totp: the status is looked at when the configuration is read.
    method VerifyTotp(crypto: Crypto, code: string, now: int, enable: bool, fate: Fate, ghost s: State, ghost r: nat)
      returns (ok: bool)
      requires Sees(s, r)
      modifies this
      // The call is a run of the machine.
      ensures var s' := Run(crypto, s, [BeginTotp(r, enable, code, now), Consume(r, fate)]);
        s'.row == row && (ok <==> |s'.accepted| > |s.accepted|)
      ensures old(row).None? || old(row).value.status != (if enable then Pending else Enabled) ==>
        !ok && row == old(row)
      // Accepted is exactly a code of the stored secret, near the clock, whose step is beyond
      // the last one accepted.
      ensures ok <==>
        && old(row).Some? && old(row).value.status == (if enable then Pending else Enabled) && fate.Answered?
        && exists step :: EarliestHit(crypto, old(row).value.secret, code, now, step)
                          && (old(row).value.lastStep.None? || old(row).value.lastStep.value < step)
      ensures ok ==>
        && row.Some? && row.value.lastStep.Some?
        && row == Some(old(row).value.(status := Enabled, lastStep := row.value.lastStep))
        && EarliestHit(crypto, old(row).value.secret, code, now, row.value.lastStep.value)
      // The same code right again is refused.
      ensures ok && Match(crypto, row.value.secret, code, now).Some? ==>
        !StepIsFree(row.value, Match(crypto, row.value.secret, code, now).value)
    {
      RunOfTwo(crypto, s, BeginTotp(r, enable, code, now), Consume(r, fate));
      hide Run, Match;
      if row.None? || row.value.status != (if enable then Pending else Enabled) {
        return false;
      }
      MatchIsEarliest(crypto, row.value.secret, code, now);
      ok := AcceptTotpCode(crypto, row.value, code, now, enable, fate);
    }

    method UseBackupCode(crypto: Crypto, code: string, fate: Fate, ghost s: State, ghost r: nat) returns (ok: bool)
      requires Sees(s, r)
      modifies this
      ensures var s' := Run(crypto, s, [BeginBackup(r, code), Spend(r, fate)]);
        s'.row == row && (ok <==> |s'.spent| > |s.spent|)
      // Accepted is exactly a code that answers to one of the stored hashes of an enabled user.
      ensures ok <==>
        && old(row).Some? && old(row).value.status == Enabled && fate.Answered?
        && exists used :: used in old(row).value.codes && crypto.hashMatches(used, code)
      ensures ok ==>
        && old(row).Some? && old(row).value.status == Enabled && row.Some?
        && exists i: nat ::
             && FirstAnswer(crypto, old(row).value.codes, code, i)
             && var used := old(row).value.codes[i];
             && row == Some(old(row).value.(codes := Drop(old(row).value.codes, used)))
             && used !in row.value.codes
      ensures !ok && fate.Answered? ==> row == old(row)
    {
      RunOfTwo(crypto, s, BeginBackup(r, code), Spend(r, fate));
      hide Run;
      if row.None? || row.value.status != Enabled {
        return false;
      }
      FindHashIsFirst(crypto, row.value.codes, code);
      var hit := FindHash(crypto, row.value.codes, code);
      if hit.None? {
        return false;
      }
      ok := ConsumeBackupCode(hit.value, fate);
    }

    // A status that cannot be read does not stop a set-up.
    method SetupTotp(secret: nat, codes: seq<nat>, readable: bool, fate: Fate,
                     ghost crypto: Crypto, ghost s: State, ghost r: nat)
      returns (ok: bool)
      requires Sees(s, r)
      // Secret and hashes are drawn afresh.
      requires Unused(s, secret, codes)
      modifies this
      ensures Run(crypto, s, [BeginSetup(r, readable), SaveSetup(r, secret, codes, fate)]).row == row
      ensures var refused := readable && old(row).Some? && old(row).value.status == Enabled;
        && (ok <==> !refused && fate.Answered?)
        && row == if refused || fate.NotExecuted? then old(row) else Some(Config(Pending, secret, codes, None))
    {
      RunOfTwo(crypto, s, BeginSetup(r, readable), SaveSetup(r, secret, codes, fate));
      hide Run;
      if readable && row.Some? && row.value.status == Enabled {
        return false;
      }
      if !fate.NotExecuted? {
        row := Some(Config(Pending, secret, codes, None));
      }
      ok := fate.Answered?;
    }

    // disable_mfa: without a configuration there is nothing to disable, which is an error.
    method DisableMfa(readable: bool, fate: Fate, ghost crypto: Crypto, ghost s: State, ghost r: nat)
      returns (ok: bool)
      requires Sees(s, r)
      modifies this
      ensures Run(crypto, s, if readable then [BeginDisable(r), Delete(r, fate)] else []).row == row
      ensures ok <==> readable && old(row).Some? && fate.Answered?
      ensures row == if readable && !fate.NotExecuted? then None else old(row)
    {
      RunOfTwo(crypto, s, BeginDisable(r), Delete(r, fate));
      RunNothing(crypto, s);
      hide Run;
      if !readable || row.None? {
        return false;
      }
      if !fate.NotExecuted? {
        row := None;
      }
      ok := fate.Answered?;
    }
  }

  lemma RunOfTwo(crypto: Crypto, s: State, a: Action, b: Action)
    ensures Run(crypto, s, [a, b]) == Step(crypto, Step(crypto, s, a), b)
  {
    hide Step;
    assert [a, b][1..] == [b] && [b][1..] == [];
    RunNothing(crypto, Step(crypto, Step(crypto, s, a), b));
    Unroll(crypto, s, [a, b]);
    Unroll(crypto, Step(crypto, s, a), [b]);
  }
}
