/** Terms the contract accepts on which disputes never have to end, and terms on which none can be settled. */
module RareTerms {
  import opened Prelude
  import opened Outcomes
  import opened ResolutionWindows
  import opened DataRequests
  import opened Disputes
  import opened Escalation
  import opened OracleContract
  import opened OracleInvariant
  import opened OracleHistory
  import opened Settleability

  /** The first transfer to a fresh deployment: a requester pays the validity bond and `fee` for a request. */
  function FirstRequest(config: OracleConfig, sender: AccountId, fee: nat, args: NewRequestArgs, now: nat): Step
    requires config.validityBond + fee <= U128_MAX
  {
    Step(Env(config.paymentToken, now, true), FtOnTransfer(sender, config.validityBond + fee, NewDataRequest(args)))
  }

  lemma FirstRequestMade(config: OracleConfig, sender: AccountId, fee: nat, args: NewRequestArgs, now: nat)
    requires config.validityBond + fee <= U128_MAX && args.listing.Listed? && args.wellFormed
    ensures After(Deployed(config), [FirstRequest(config, sender, fee, args, now)])
      == Oracle([config], [Active(FreshRequest(0, 0, config, sender, fee, args))], false)
  {
    var steps := [FirstRequest(config, sender, fee, args, now)];
    assert steps[..|steps| - 1] == [];
    assert After(Deployed(config), []) == Deployed(config);
  }

  // ---------------------------------------------------------------------------------------------
  // A multiplier that rounds the bond down to nothing
  // ---------------------------------------------------------------------------------------------

  /** An open request on a zero bond, with something to dispute and time to do it. */
  ghost predicate Escalating(o: Oracle, id: nat, now: nat) {
    && OracleInv(o) && !o.paused && id < |o.requests| && o.requests[id].Active?
    && var dr := o.requests[id].active;
    && ResolutionBond(dr.config) == Ok(0) && dr.config.finalArbitratorInvokeAmount > 0
    && !dr.finalArbitratorTriggered && !OnlyInvalid(dr) && ClockFits(dr, now)
    && dr.globalConfigId < |o.configs|
    && o.configs[dr.globalConfigId].stakeToken == o.configs[|o.configs| - 1].stakeToken
  }

  /** One transfer of nothing, staked through the contract, opens one more window. */
  lemma EscalatesOnce(o: Oracle, id: nat, sender: AccountId, now: nat) returns (step: Step)
    requires Escalating(o, id, now)
    ensures step.env.now == now
    ensures Execute(o, step.env, step.call).Ok?
    ensures var o' := Execute(o, step.env, step.call).value.oracle;
      Escalating(o', id, now) && |WindowsOf(o'.requests[id])| > |WindowsOf(o.requests[id])|
  {
    hide OracleInv, ActiveInv, ResolutionBond, StakedRequest, ValidOutcome, ValidOutcomeType, CanStakeOn, OnlyInvalid,
         ClockFits, Evolves;
    var dr := o.requests[id].active;
    ActiveHolds(o, id);
    OnlyInvalidMeans(dr);
    OneIsOpen(dr, AnAnswer(dr), Invalid);
    var outcome := if StakeGuards(dr, Invalid) then Invalid else AnAnswer(dr);
    EmptyStakeBonds(dr, sender, outcome, now);
    step := Step(Env(o.configs[dr.globalConfigId].stakeToken, now, true),
                 FtOnTransfer(sender, 0, StakeDataRequest(id, outcome)));
    StakeRequestKeeps(o, step.env, sender, 0, id, outcome);
    SameTermsAfterStake(dr, sender, outcome, 0, now);
  }

  lemma SameTermsAfterStake(dr: ActiveRequest, sender: AccountId, outcome: Outcome, amount: nat, now: nat)
    requires StakedRequest(dr, sender, outcome, amount, now).Ok?
    ensures var dr' := StakedRequest(dr, sender, outcome, amount, now).value.0;
      dr'.config == dr.config && dr'.globalConfigId == dr.globalConfigId && OnlyInvalid(dr') == OnlyInvalid(dr)
  {
    hide Staked, Opened, ResolutionBond;
  }

  lemma {:induction false} EscalatesThroughContract(o: Oracle, id: nat, sender: AccountId, n: nat, now: nat)
    returns (steps: seq<Step>)
    requires Escalating(o, id, now)
    ensures forall step :: step in steps ==> step.env.now == now
    ensures Escalating(After(o, steps), id, now) && |WindowsOf(After(o, steps).requests[id])| >= n
  {
    hide Escalating, Execute;
    steps := [];
    if n > 0 {
      steps := EscalatesThroughContract(o, id, sender, n - 1, now);
      var step := EscalatesOnce(After(o, steps), id, sender, now);
      assert (steps + [step])[..|steps + [step]| - 1] == steps;
      steps := steps + [step];
    }
  }

  /**
   * A contract deployed with bonds of at least 1 can be driven to any number of windows: a whitelisted
   * multiplier of one ten-thousandth rounds any bond below 10000 down to nothing.
   */
  lemma ZeroBondFromDeployment(config: OracleConfig, sender: AccountId, period: nat, n: nat, now: nat)
    returns (steps: seq<Step>)
    requires 1 <= config.validityBond < 10_000 && 1 <= config.minResolutionBond < 10_000
    requires config.finalArbitratorInvokeAmount > 0
    requires now + period <= U64_MAX && now + config.defaultChallengeWindowDuration <= U64_MAX
    ensures forall step :: step in steps ==> step.env.now == now
    ensures var o := After(Deployed(config), steps);
      && |o.requests| > 0 && o.requests[0].Active?
      && ResolutionBond(o.requests[0].active.config) == Ok(0)
      && |o.requests[0].active.windows| >= n
  {
    hide OracleInv, Execute, ResolutionBond;
    var args := NewRequestArgs(None, period, TextData, None, Listed(Some(1)), true);
    var first := FirstRequest(config, sender, 0, args, now);
    FirstRequestMade(config, sender, 0, args, now);
    var o := After(Deployed(config), [first]);
    EveryReachableState(config, [first]);
    ResolutionBondMeans(o.requests[0].active.config);
    BondIsZeroIff(o.requests[0].active.config);
    var stakes := EscalatesThroughContract(o, 0, sender, n, now);
    steps := [first] + stakes;
    AfterConcat(Deployed(config), [first], stakes);
  }

  // ---------------------------------------------------------------------------------------------
  // Bonds that do not fit the machine
  // ---------------------------------------------------------------------------------------------

  /** The resolution bond can be computed, and doubling it leads to the arbitrator or to a second window. */
  predicate BondLeadsOn(config: RequestConfig, period: nat, now: nat) {
    match ResolutionBond(config)
    case Panic(_) => false
    case Ok(bond) =>
      && 2 * bond <= U128_MAX && now + period <= U64_MAX
      && (2 * bond >= config.finalArbitratorInvokeAmount || 4 * bond <= U128_MAX)
  }

  /**
   * Of the requests that the contract accepts, exactly those can ever be settled that name a provider or
   * whose bond, scaled and doubled once or twice, fits the machine up to the arbitrator's amount.
   */
  lemma AcceptedSettlesIff(o: Oracle, env: Env, sender: AccountId, amount: u128, args: NewRequestArgs)
    requires OracleInv(o) && NewRequest(o, env, sender, amount, args).Ok? && env.now <= U64_MAX
    ensures var o' := NewRequest(o, env, sender, amount, args).value.oracle;
      && |o'.requests| == |o.requests| + 1 && |o.configs| > 0
      && amount >= o.configs[|o.configs| - 1].validityBond && args.listing.Listed?
      && var config := o.configs[|o.configs| - 1];
      var fee := amount - config.validityBond;
      var terms := FreshRequest(|o.requests|, |o.configs| - 1, config, sender, fee, args).config;
      (exists steps :: OnClock(steps, env.now) && IsSettled(After(o', steps), |o.requests|))
      <==> args.provider.Some? || BondLeadsOn(terms, args.challengePeriod, env.now)
  {
    hide OracleInv, ActiveInv, ResolutionBond, After, OnClock, Evolves;
    var o' := NewRequest(o, env, sender, amount, args).value.oracle;
    NewRequestKeeps(o, env, sender, amount, args);
    SettleableIff(o', |o.requests|, env.now);
  }

  /** While a first window can open, a stake of nothing opens it. */
  lemma OpenTheFirst(o: Oracle, id: nat, now: nat) returns (steps: seq<Step>)
    requires OracleInv(o) && id < |o.requests| && o.requests[id].Active? && now <= U64_MAX
    requires o.requests[id].active.windows == [] && FirstWindow(o.requests[id].active, now).Ok?
    ensures OnClock(steps, now)
    ensures id < |After(o, steps).requests| && After(o, steps).requests[id] != o.requests[id]
  {
    hide OracleInv, ActiveInv, After, Execute, Evolves;
    var dr := o.requests[id].active;
    ActiveHolds(o, id);
    NotTriggeredYet(dr);
    steps := Prepare(o, id, now);
    var step := EmptyFirstStake(After(o, steps), id, now);
    steps := OneMore(o, steps, step, now);
  }

  lemma EmptyFirstStake(o: Oracle, id: nat, now: nat) returns (step: Step)
    requires Open(o, id) && ActiveInv(o.requests[id].active) && !o.requests[id].active.finalArbitratorTriggered
    requires o.requests[id].active.windows == [] && FirstWindow(o.requests[id].active, now).Ok?
    ensures step.env.now == now
    ensures Execute(o, step.env, step.call).Ok?
    ensures var o' := Execute(o, step.env, step.call).value.oracle;
      id < |o'.requests| && o'.requests[id] != o.requests[id]
  {
    hide ActiveInv, ResolutionBond, Staked;
    var dr := o.requests[id].active;
    StakePanicsIff(dr, dr.requester, Invalid, 0, now);
    step := Step(Env(o.configs[dr.globalConfigId].stakeToken, now, true),
                 FtOnTransfer(dr.requester, 0, StakeDataRequest(id, Invalid)));
  }

  /**
   * A new request stays untouched whatever anyone does from `now` on, and with it its validity bond and its
   * fee stay in the contract, if and only if it names no provider and its first window cannot open.
   */
  lemma FrozenForever(o: Oracle, id: nat, now: nat)
    requires OracleInv(o) && id < |o.requests| && o.requests[id].Active? && now <= U64_MAX
    requires o.requests[id].active.windows == []
    ensures (forall steps :: OnClock(steps, now)
              ==> id < |After(o, steps).requests| && After(o, steps).requests[id] == o.requests[id])
      <==> o.requests[id].active.provider == None && FirstWindow(o.requests[id].active, now).Panic?
  {
    hide OracleInv, ActiveInv, After, OnClock, FirstWindow;
    var dr := o.requests[id].active;
    if dr.provider == None && FirstWindow(dr, now).Panic? {
      ActiveHolds(o, id);
      NotTriggeredYet(dr);
      forall steps | OnClock(steps, now)
        ensures id < |After(o, steps).requests| && After(o, steps).requests[id] == o.requests[id]
      {
        StuckForever(o, steps, id, now);
      }
    } else if dr.provider.Some? {
      var steps := Settle(o, id, now);
      assert After(o, steps).requests[id] != o.requests[id];
    } else {
      var steps := OpenTheFirst(o, id, now);
    }
  }

  /**
   * A fee of `2^125` with a multiplier of one: the scaled bond would be the fee itself and the first window
   * would fit, but the product overflows before it is divided, and the request stays as it is for good.
   */
  lemma OverflowFromDeployment(config: OracleConfig, sender: AccountId, period: nat, now: nat, later: seq<Step>)
    requires config.validityBond == 1 && config.minResolutionBond == 1 && now + period <= U64_MAX
    requires OnClock(later, now)
    ensures var fee := 0x2000_0000_0000_0000_0000_0000_0000_0000;
      var args := NewRequestArgs(None, period, TextData, None, Listed(Some(10_000)), true);
      var o := After(Deployed(config), [FirstRequest(config, sender, fee, args, now)]);
      && Opened(0, fee, period, now).Ok?
      && |o.requests| > 0 && o.requests[0].Active? && o.requests[0].active.config.paidFee == fee
      && |After(o, later).requests| > 0 && After(o, later).requests[0] == o.requests[0]
  {
    hide OracleInv, Execute, ActiveInv, OnClock;
    var fee := 0x2000_0000_0000_0000_0000_0000_0000_0000;
    var args := NewRequestArgs(None, period, TextData, None, Listed(Some(10_000)), true);
    FirstRequestMade(config, sender, fee, args, now);
    var steps := [FirstRequest(config, sender, fee, args, now)];
    var o := After(Deployed(config), steps);
    EveryReachableState(config, steps);
    ResolutionBondMeans(o.requests[0].active.config);
    FrozenForever(o, 0, now);
  }

  /**
   * A fee of `2^126` whose bond fits and whose first window opens: stake goes in and out, but the bond is
   * below the arbitrator's amount and the second window would not fit, so the request is never settled.
   */
  lemma UnfillableFromDeployment(config: OracleConfig, sender: AccountId, period: nat, now: nat, later: seq<Step>)
    requires config.validityBond == 1 && config.minResolutionBond == 1 && now + period <= U64_MAX
    requires config.finalArbitratorInvokeAmount == U128_MAX && OnClock(later, now)
    ensures var fee := 0x4000_0000_0000_0000_0000_0000_0000_0000;
      var args := NewRequestArgs(None, period, TextData, None, Listed(None), true);
      var o := After(Deployed(config), [FirstRequest(config, sender, fee, args, now)]);
      && |o.requests| > 0 && o.requests[0].Active? && o.requests[0].active.config.paidFee == fee
      && FirstWindow(o.requests[0].active, now).Ok?
      && !IsSettled(After(o, later), 0)
  {
    hide OracleInv, Execute, ActiveInv, OnClock;
    var fee := 0x4000_0000_0000_0000_0000_0000_0000_0000;
    var args := NewRequestArgs(None, period, TextData, None, Listed(None), true);
    FirstRequestMade(config, sender, fee, args, now);
    var steps := [FirstRequest(config, sender, fee, args, now)];
    EveryReachableState(config, steps);
    SettleableIff(After(Deployed(config), steps), 0, now);
  }
}
