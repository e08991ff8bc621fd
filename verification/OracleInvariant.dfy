/** What every call of the oracle keeps, and how requests and configs may evolve. */
module OracleInvariant {
  import opened Prelude
  import opened Outcomes
  import opened ResolutionWindows
  import opened DataRequests
  import opened Disputes
  import opened OracleContract

  // ---------------------------------------------------------------------------------------------
  // The invariant
  // ---------------------------------------------------------------------------------------------

  /** The request's copy of the terms agrees with the config it points to. */
  predicate Snapshot(config: OracleConfig, dr: ActiveRequest) {
    && dr.config.validityBond == config.validityBond
    && dr.config.finalArbitratorInvokeAmount == config.finalArbitratorInvokeAmount
    && dr.config.finalArbitrator == config.finalArbitrator
    && dr.config.minResolutionBond == config.minResolutionBond
    && dr.config.defaultChallengeWindowDuration == config.defaultChallengeWindowDuration
  }

  ghost predicate RequestInv(configs: seq<OracleConfig>, id: nat, dr: DataRequest) {
    && ConfigIdOf(dr) < |configs|
    && match dr
       case Active(a) =>
         && a.id == id && ActiveInv(a) && Snapshot(configs[a.globalConfigId], a)
         && a.config.paidFee <= U128_MAX
       case Finalized(f) =>
         && f.id == id && FinalizedInv(f) && f.paidFee <= U128_MAX
         && OutbidBelow(f.windows, configs[f.globalConfigId].finalArbitratorInvokeAmount)
  }

  ghost predicate OracleInv(o: Oracle) {
    && |o.configs| > 0
    && (forall i :: 0 <= i < |o.requests| ==> RequestInv(o.configs, i, o.requests[i]))
  }

  // ---------------------------------------------------------------------------------------------
  // Evolution: configs keep their terms, requests their identity and, once settled, their verdict
  // ---------------------------------------------------------------------------------------------

  predicate SameTerms(config: OracleConfig, config': OracleConfig) {
    config' == config.(fee := config'.fee)
  }

  predicate SameVerdict(w: Window, w': Window) {
    w'.bonded == w.bonded && w'.bondSize == w.bondSize && w'.startTime == w.startTime
  }

  predicate SameVerdicts(windows: seq<Window>, windows': seq<Window>) {
    |windows'| == |windows| && forall i :: 0 <= i < |windows| ==> SameVerdict(windows[i], windows'[i])
  }

  predicate RequestEvolves(dr: DataRequest, dr': DataRequest) {
    && ConfigIdOf(dr') == ConfigIdOf(dr)
    && match dr
       case Active(a) =>
         (match dr'
          case Active(a') =>
            a' == a.(windows := a'.windows, finalArbitratorTriggered := a'.finalArbitratorTriggered)
          case Finalized(f) => f.id == a.id && f.paidFee == a.config.paidFee && StartsAt(f.windows, a.config))
       case Finalized(f) =>
         dr'.Finalized? && dr'.finalized == f.(windows := dr'.finalized.windows)
         && SameVerdicts(f.windows, dr'.finalized.windows)
  }

  ghost predicate Evolves(o: Oracle, o': Oracle) {
    && |o.configs| <= |o'.configs|
    && (forall i :: 0 <= i < |o.configs| ==> SameTerms(o.configs[i], o'.configs[i]))
    && |o.requests| <= |o'.requests|
    && (forall i :: 0 <= i < |o.requests| ==> RequestEvolves(o.requests[i], o'.requests[i]))
  }

  lemma EvolvesTransitive(a: Oracle, b: Oracle, c: Oracle)
    requires Evolves(a, b) && Evolves(b, c)
    ensures Evolves(a, c)
  {
    forall i | 0 <= i < |a.configs| ensures SameTerms(a.configs[i], c.configs[i]) {
      assert SameTerms(a.configs[i], b.configs[i]) && SameTerms(b.configs[i], c.configs[i]);
    }
    forall i | 0 <= i < |a.requests| ensures RequestEvolves(a.requests[i], c.requests[i]) {
      assert RequestEvolves(a.requests[i], b.requests[i]) && RequestEvolves(b.requests[i], c.requests[i]);
    }
  }

  lemma EvolvesReflexive(o: Oracle)
    ensures Evolves(o, o)
  {
  }

  // ---------------------------------------------------------------------------------------------
  // Each call keeps the invariant
  // ---------------------------------------------------------------------------------------------

  /** Replacing one request by an evolved one that satisfies the invariant. */
  lemma ReplaceKeeps(o: Oracle, id: nat, dr: DataRequest)
    requires OracleInv(o) && id < |o.requests|
    requires RequestInv(o.configs, id, dr) && RequestEvolves(o.requests[id], dr)
    ensures OracleInv(Replaced(o, id, dr)) && Evolves(o, Replaced(o, id, dr))
  {
    hide RequestInv;
    var o' := Replaced(o, id, dr);
    forall i | 0 <= i < |o.requests| ensures RequestInv(o.configs, i, o'.requests[i]) {
      assert RequestInv(o.configs, i, o.requests[i]);
    }
  }

  lemma FreshIsActive(dr: ActiveRequest)
    requires dr.windows == [] && !dr.finalArbitratorTriggered
    ensures ActiveInv(dr)
  {
  }

  lemma NewRequestKeeps(o: Oracle, env: Env, sender: AccountId, amount: u128, args: NewRequestArgs)
    requires OracleInv(o) && NewRequest(o, env, sender, amount, args).Ok?
    ensures var o' := NewRequest(o, env, sender, amount, args).value.oracle;
      && OracleInv(o') && Evolves(o, o')
      && |o'.requests| == |o.requests| + 1 && o'.requests[..|o.requests|] == o.requests
      && o'.requests[|o.requests|].Active? && o'.requests[|o.requests|].active.windows == []
  {
    hide ActiveInv;
    var o' := NewRequest(o, env, sender, amount, args).value.oracle;
    FreshIsActive(o'.requests[|o.requests|].active);
    forall i | 0 <= i < |o'.requests| ensures RequestInv(o'.configs, i, o'.requests[i]) {
      if i < |o.requests| { assert RequestInv(o.configs, i, o.requests[i]); }
    }
  }

  lemma StakeRequestKeeps(o: Oracle, env: Env, sender: AccountId, amount: nat, id: nat, outcome: Outcome)
    requires OracleInv(o) && StakeRequest(o, env, sender, amount, id, outcome).Ok?
    ensures var effect := StakeRequest(o, env, sender, amount, id, outcome).value;
      && OracleInv(effect.oracle) && Evolves(o, effect.oracle)
      && effect.unspent <= amount && effect.transfers == []
      && id < |o.requests| && o.requests[id].Active?
      && ConfigIdOf(o.requests[id]) < |o.configs|
      && env.predecessor == o.configs[ConfigIdOf(o.requests[id])].stakeToken
      && effect.oracle == Replaced(o, id, effect.oracle.requests[id])
      && effect.oracle.requests[id].Active?
      && TotalLive(effect.oracle.requests[id].active.windows)
        == TotalLive(o.requests[id].active.windows) + (amount - effect.unspent)
  {
    hide ActiveInv, TotalLive, Staked, Opened, CanStakeOn, ValidOutcome, ValidOutcomeType, ResolutionBond, Evolves;
    assert RequestInv(o.configs, id, o.requests[id]);
    var dr := o.requests[id].active;
    StakeKeepsActive(dr, sender, outcome, amount, env.now);
    ReplaceKeeps(o, id, Active(StakedRequest(dr, sender, outcome, amount, env.now).value.0));
  }

  lemma UnstakeRequestKeeps(o: Oracle, env: Env, id: nat, round: nat, outcome: Outcome, amount: nat)
    requires OracleInv(o) && UnstakeRequest(o, env, id, round, outcome, amount).Ok?
    ensures var effect := UnstakeRequest(o, env, id, round, outcome, amount).value;
      && OracleInv(effect.oracle) && Evolves(o, effect.oracle)
      && id < |o.requests|
      && effect.oracle == Replaced(o, id, effect.oracle.requests[id])
      && UnstakedRequest(o.requests[id], env.predecessor, round, outcome, amount) == Ok(effect.oracle.requests[id])
      && TotalLive(WindowsOf(effect.oracle.requests[id])) + amount == TotalLive(WindowsOf(o.requests[id]))
  {
    hide ActiveInv, FinalizedInv, TotalLive, TotalWithdrawable, Unstaked, Evolves;
    assert RequestInv(o.configs, id, o.requests[id]);
    var dr' := UnstakedRequest(o.requests[id], env.predecessor, round, outcome, amount).value;
    match o.requests[id] {
      case Active(a) =>
        UnstakeKeepsActive(a, env.predecessor, round, outcome, amount);
      case Finalized(f) =>
        UnstakeKeepsFinalized(f, env.predecessor, round, outcome, amount);
        UnstakeKeepsVerdicts(f.windows, env.predecessor, round, outcome, amount);
    }
    ReplaceKeeps(o, id, dr');
  }

  lemma UnstakeKeepsVerdicts(windows: seq<Window>, sender: AccountId, round: nat, outcome: Outcome, amount: nat)
    requires round < |windows| && Unstaked(windows[round], sender, outcome, amount).Ok?
    ensures SameVerdicts(windows, windows[round := Unstaked(windows[round], sender, outcome, amount).value])
  {
  }

  lemma ClaimRequestKeeps(o: Oracle, env: Env, accountId: AccountId, id: nat)
    requires OracleInv(o) && ClaimRequest(o, env, accountId, id).Ok?
    ensures var o' := ClaimRequest(o, env, accountId, id).value.oracle;
      && OracleInv(o') && Evolves(o, o')
      && id < |o.requests| && o.requests[id].Finalized?
      && o' == Replaced(o, id, Finalized(ClaimedRequest(o.requests[id].finalized, accountId).value.0))
  {
    hide Chain, Books, CorrectBonds, IncorrectBonds, CorrectStake, Evolves, Claimed;
    assert RequestInv(o.configs, id, o.requests[id]);
    var dr := o.requests[id].finalized;
    var dr' := ClaimedRequest(dr, accountId).value.0;
    ClaimedChain(dr.windows, accountId, dr.finalizedOutcome);
    ClaimKeepsVerdicts(dr.windows, accountId, dr.finalizedOutcome);
    ReplaceKeeps(o, id, Finalized(dr'));
  }

  lemma ClaimKeepsVerdicts(windows: seq<Window>, user: AccountId, finalOutcome: Outcome)
    ensures SameVerdicts(windows, ClaimedWindows(windows, user, finalOutcome))
  {
  }

  lemma SettleKeeps(o: Oracle, id: nat, outcome: Outcome)
    requires OracleInv(o) && id < |o.requests| && o.requests[id].Active?
    ensures var o' := Replaced(o, id, Finalized(Trimmed(o.requests[id].active, outcome)));
      OracleInv(o') && Evolves(o, o')
  {
    hide ActiveInv, FinalizedInv, Evolves;
    assert RequestInv(o.configs, id, o.requests[id]);
    BondsSoFar(o.requests[id].active);
    TrimKeeps(o.requests[id].active, outcome);
    ReplaceKeeps(o, id, Finalized(Trimmed(o.requests[id].active, outcome)));
  }

  lemma ConfigsKeep(o: Oracle, configs: seq<OracleConfig>, paused: bool)
    requires OracleInv(o) && |o.configs| <= |configs|
    requires forall i :: 0 <= i < |o.configs| ==> SameTerms(o.configs[i], configs[i])
    ensures OracleInv(Oracle(configs, o.requests, paused)) && Evolves(o, Oracle(configs, o.requests, paused))
  {
    hide ActiveInv, FinalizedInv;
    forall i | 0 <= i < |o.requests| ensures RequestInv(configs, i, o.requests[i]) {
      assert RequestInv(o.configs, i, o.requests[i]);
      assert SameTerms(o.configs[ConfigIdOf(o.requests[i])], configs[ConfigIdOf(o.requests[i])]);
    }
  }

  /** Every call keeps the invariant; configs keep their terms and settled requests their verdict. */
  lemma ExecuteKeeps(o: Oracle, env: Env, call: Call)
    requires OracleInv(o) && Execute(o, env, call).Ok?
    ensures OracleInv(Execute(o, env, call).value.oracle)
    ensures Evolves(o, Execute(o, env, call).value.oracle)
  {
    hide OracleInv, Evolves, NewRequest, StakeRequest, UnstakeRequest, ClaimRequest;
    match call {
      case DrNew(sender, amount, args) => NewRequestKeeps(o, env, sender, amount, args);
      case DrStake(sender, amount, id, outcome) => StakeRequestKeeps(o, env, sender, amount, id, outcome);
      case FtOnTransfer(sender, amount, payload) =>
        if payload.NewDataRequest? {
          NewRequestKeeps(o, env, sender, amount, payload.args);
        } else {
          StakeRequestKeeps(o, env, sender, amount, payload.id, payload.outcome);
        }
      case DrUnstake(id, round, outcome, amount) => UnstakeRequestKeeps(o, env, id, round, outcome, amount);
      case DrClaim(accountId, id) => ClaimRequestKeeps(o, env, accountId, id);
      case DrFinalize(id) => SettleKeeps(o, id, FinalOutcome(o.requests[id].active).value);
      case DrFinalizeByProvider(id, outcome) => SettleKeeps(o, id, outcome);
      case DrFinalArbitratorFinalize(id, outcome) => SettleKeeps(o, id, outcome);
      case SetConfig(config) => ConfigsKeep(o, o.configs + [config], o.paused);
      case UpdateFeeConfig(fee, _) =>
        ConfigsKeep(o, o.configs[|o.configs| - 1 := o.configs[|o.configs| - 1].(fee := fee)], o.paused);
      case TogglePause => ConfigsKeep(o, o.configs, !o.paused);
    }
  }
}
