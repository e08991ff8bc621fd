/** Exactly which open requests can still be settled, by anyone, at any later time. */
module Settleability {
  import opened Prelude
  import opened Outcomes
  import opened ResolutionWindows
  import opened DataRequests
  import opened Disputes
  import opened Escalation
  import opened OracleContract
  import opened OracleInvariant
  import opened OracleHistory

  /**
   * A stake made at `now` can fill the bond of a request's first window: that window can be opened, and
   * filling it either calls the arbitrator or opens a second window that fits the machine.
   */
  predicate CanStillBond(dr: ActiveRequest, now: nat) {
    match LastWindow(dr, now)
    case Panic(_) => false
    case Ok(first) =>
      || first.bondSize >= dr.config.finalArbitratorInvokeAmount
      || (2 * first.bondSize <= U128_MAX && now + dr.initialChallengePeriod <= U64_MAX)
  }

  predicate Settleable(dr: ActiveRequest, now: nat) {
    || dr.provider.Some?
    || dr.finalArbitratorTriggered
    || |dr.windows| >= 2
    || CanStillBond(dr, now)
  }

  /** All transactions happen at `now` or later, on the machine's clock. */
  predicate OnClock(steps: seq<Step>, now: nat) {
    forall step :: step in steps ==> now <= step.env.now <= U64_MAX
  }

  // ---------------------------------------------------------------------------------------------
  // What cannot be settled stays so
  // ---------------------------------------------------------------------------------------------

  predicate Stuck(o: Oracle, id: nat, now: nat) {
    id < |o.requests| && o.requests[id].Active? && !Settleable(o.requests[id].active, now)
  }

  /** Stake may go into the first window of such a request, but never fills its bond. */
  lemma StuckStake(dr: ActiveRequest, sender: AccountId, outcome: Outcome, amount: nat, now: nat, later: nat)
    requires !Settleable(dr, now) && now <= later
    requires StakedRequest(dr, sender, outcome, amount, later).Ok?
    ensures LastWindow(dr, now).Ok?
    ensures !Settleable(StakedRequest(dr, sender, outcome, amount, later).value.0, now)
  {
    hide Staked, ResolutionBond;
    var last := LastWindow(dr, later).value;
    StakedShape(last, sender, outcome, amount);
  }

  lemma StuckUnstake(dr: ActiveRequest, sender: AccountId, round: nat, outcome: Outcome, amount: nat, now: nat)
    requires !Settleable(dr, now)
    requires UnstakedRequest(Active(dr), sender, round, outcome, amount).Ok?
    ensures var dr' := UnstakedRequest(Active(dr), sender, round, outcome, amount).value;
      dr'.Active? && !Settleable(dr'.active, now)
    ensures LastWindow(dr, now).Ok?
  {
  }

  /** No call from `now` on moves a stuck request out of its state, nor at all if no first window can open. */
  lemma StuckOnce(o: Oracle, env: Env, call: Call, id: nat, now: nat)
    requires Stuck(o, id, now) && now <= env.now && Execute(o, env, call).Ok?
    ensures var o' := Execute(o, env, call).value.oracle;
      && Stuck(o', id, now)
      && (LastWindow(o.requests[id].active, now).Panic? ==> o'.requests[id] == o.requests[id])
  {
    hide StakedRequest, UnstakedRequest, ClaimedRequest, CanStakeOn, ValidOutcome, ValidOutcomeType, CanStillBond,
         LastWindow;
    var dr := o.requests[id].active;
    match call {
      case DrStake(sender, amount, i, outcome) =>
        if i == id { StuckStake(dr, sender, outcome, amount, now, env.now); }
      case FtOnTransfer(sender, amount, payload) =>
        if payload.StakeDataRequest? && payload.id == id {
          StuckStake(dr, sender, payload.outcome, amount, now, env.now);
        }
      case DrUnstake(i, round, outcome, amount) =>
        if i == id { StuckUnstake(dr, env.predecessor, round, outcome, amount, now); }
      case _ =>
    }
  }

  lemma {:induction false} StuckForever(o: Oracle, steps: seq<Step>, id: nat, now: nat)
    requires Stuck(o, id, now) && OnClock(steps, now)
    ensures Stuck(After(o, steps), id, now)
    ensures LastWindow(o.requests[id].active, now).Panic? ==> After(o, steps).requests[id] == o.requests[id]
  {
    hide Execute, Settleable, LastWindow;
    if steps != [] {
      var init, last := steps[..|steps| - 1], steps[|steps| - 1];
      assert last in steps;
      StuckForever(o, init, id, now);
      if Execute(After(o, init), last.env, last.call).Ok? {
        StuckOnce(After(o, init), last.env, last.call, id, now);
      }
    }
  }

  // ---------------------------------------------------------------------------------------------
  // What can be settled is settled in at most four transactions
  // ---------------------------------------------------------------------------------------------

  /** The contract runs, and the token it currently takes stake in is the one of the request. */
  predicate Open(o: Oracle, id: nat) {
    && !o.paused && |o.configs| > 0
    && id < |o.requests| && o.requests[id].Active?
    && o.requests[id].active.globalConfigId < |o.configs|
    && o.configs[o.requests[id].active.globalConfigId].stakeToken == o.configs[|o.configs| - 1].stakeToken
  }

  /** Governance lifts a pause and makes the request's stake token the current one again. */
  lemma Prepare(o: Oracle, id: nat, now: nat) returns (steps: seq<Step>)
    requires OracleInv(o) && id < |o.requests| && o.requests[id].Active? && now <= U64_MAX
    ensures OnClock(steps, now)
    ensures Open(After(o, steps), id) && After(o, steps).requests == o.requests
  {
    hide OracleInv;
    RequestPoints(o, id);
    var current := o.configs[|o.configs| - 1];
    var governance := Env(current.gov, now, true);
    var token := o.configs[o.requests[id].active.globalConfigId].stakeToken;
    var adopt := Step(governance, SetConfig(current.(stakeToken := token, validityBond := 1, minResolutionBond := 1)));
    steps := [adopt];
    if o.paused {
      var toggle := Step(governance, TogglePause);
      steps := [toggle] + [adopt];
      AfterConcat(o, [toggle], [adopt]);
      AfterOne(o, toggle);
      AfterOne(o.(paused := false), adopt);
    } else {
      AfterOne(o, adopt);
    }
  }

  /** A stake on Invalid that fills the first bond calls the arbitrator or opens the second window. */
  lemma FillTheBond(o: Oracle, id: nat, now: nat) returns (step: Step)
    requires OracleInv(o) && Open(o, id) && now <= U64_MAX
    requires var dr := o.requests[id].active;
      CanStillBond(dr, now) && !dr.finalArbitratorTriggered && |dr.windows| <= 1
    ensures step.env.now == now
    ensures Execute(o, step.env, step.call).Ok?
    ensures var o' := Execute(o, step.env, step.call).value.oracle;
      && OracleInv(o') && !o'.paused && id < |o'.requests| && o'.requests[id].Active?
      && (o'.requests[id].active.finalArbitratorTriggered || |o'.requests[id].active.windows| >= 2)
  {
    hide OracleInv, ActiveInv, CanStakeOn, StakedRequest, CanStillBond;
    var dr := o.requests[id].active;
    ActiveHolds(o, id);
    UnwrapsNeverFire(dr, Invalid);
    var amount := FillingStake(dr, now);
    step := Step(Env(o.configs[dr.globalConfigId].stakeToken, now, true),
                 FtOnTransfer(dr.requester, amount, StakeDataRequest(id, Invalid)));
    StakeRequestKeeps(o, step.env, dr.requester, amount, id, Invalid);
  }

  lemma FillingStake(dr: ActiveRequest, now: nat) returns (amount: u128)
    requires ActiveInv(dr) && StakeGuards(dr, Invalid) && |dr.windows| <= 1 && CanStillBond(dr, now)
    ensures StakedRequest(dr, dr.requester, Invalid, amount, now).Ok?
    ensures var dr' := StakedRequest(dr, dr.requester, Invalid, amount, now).value.0;
      dr'.finalArbitratorTriggered || |dr'.windows| >= 2
  {
    hide ActiveInv, CanStakeOn, Admissible, Consistent, Staked, ResolutionBond, Window.On;
    StartedKeeps(dr, now);
    var s := Started(dr, now);
    LastIsUndecided(s);
    var last := LastWindow(dr, now).value;
    StakeFits(last, dr.requester, Invalid, 0);
    BondFitsMachine(last);
    amount := last.bondSize - last.On(Invalid);
    StakeKeepsBooks(last, dr.requester, Invalid, amount);
    StakeFillsTheBond(last, dr.requester, Invalid, amount);
    StakedShape(last, dr.requester, Invalid, amount);
  }

  lemma BondFitsMachine(w: Window)
    requires Consistent(w, None)
    ensures w.bondSize <= U128_MAX
  {
  }

  /** Once the arbitrator is called it can settle, and from the second window on time can. */
  lemma SettleNow(o: Oracle, id: nat, now: nat) returns (step: Step)
    requires OracleInv(o) && !o.paused && id < |o.requests| && o.requests[id].Active? && now <= U64_MAX
    requires var dr := o.requests[id].active; dr.finalArbitratorTriggered || |dr.windows| >= 2
    ensures now <= step.env.now <= U64_MAX
    ensures Execute(o, step.env, step.call).Ok? && IsSettled(Execute(o, step.env, step.call).value.oracle, id)
  {
    hide OracleInv, ActiveInv;
    var dr := o.requests[id].active;
    RequestPoints(o, id);
    if dr.finalArbitratorTriggered {
      step := Step(Env(dr.config.finalArbitrator, now, true), DrFinalArbitratorFinalize(id, Invalid));
    } else {
      ActiveHolds(o, id);
      LastEndsOnTheClock(dr);
      var last := dr.windows[|dr.windows| - 1];
      step := Step(Env(dr.requester, Max(now, last.endTime), true), DrFinalize(id));
      FinalizeSucceedsIff(o, step.env, id);
    }
  }

  lemma LastEndsOnTheClock(dr: ActiveRequest)
    requires ActiveInv(dr) && |dr.windows| > 0 && !dr.finalArbitratorTriggered
    ensures dr.windows[|dr.windows| - 1].bonded.None? && dr.windows[|dr.windows| - 1].endTime <= U64_MAX
  {
    hide Chain, Books, OnlyAdmissible, StartsAt, ChallengePeriod;
  }

  lemma SettleByProvider(o: Oracle, id: nat, now: nat) returns (step: Step)
    requires !o.paused && id < |o.requests| && o.requests[id].Active? && o.requests[id].active.provider.Some?
    ensures step.env.now == now
    ensures Execute(o, step.env, step.call).Ok? && IsSettled(Execute(o, step.env, step.call).value.oracle, id)
  {
    step := Step(Env(o.requests[id].active.provider.value, now, true), DrFinalizeByProvider(id, Invalid));
  }

  lemma OneMore(o: Oracle, steps: seq<Step>, step: Step, now: nat) returns (steps': seq<Step>)
    requires OnClock(steps, now) && now <= step.env.now <= U64_MAX
    requires Execute(After(o, steps), step.env, step.call).Ok?
    ensures OnClock(steps', now)
    ensures After(o, steps') == Execute(After(o, steps), step.env, step.call).value.oracle
  {
    hide Execute;
    steps' := steps + [step];
    AfterConcat(o, steps, [step]);
    AfterOne(After(o, steps), step);
  }

  lemma Settle(o: Oracle, id: nat, now: nat) returns (steps: seq<Step>)
    requires OracleInv(o) && id < |o.requests| && o.requests[id].Active? && now <= U64_MAX
    requires Settleable(o.requests[id].active, now)
    ensures OnClock(steps, now) && IsSettled(After(o, steps), id)
  {
    hide OracleInv, Execute, CanStillBond, Evolves;
    var dr := o.requests[id].active;
    steps := Prepare(o, id, now);
    RunKeeps(o, steps);
    if dr.provider.Some? {
      var step := SettleByProvider(After(o, steps), id, now);
      steps := OneMore(o, steps, step, now);
    } else {
      if !dr.finalArbitratorTriggered && |dr.windows| <= 1 {
        var stake := FillTheBond(After(o, steps), id, now);
        steps := OneMore(o, steps, stake, now);
      }
      var step := SettleNow(After(o, steps), id, now);
      steps := OneMore(o, steps, step, now);
    }
  }

  /**
   * Whatever anyone does from `now` on, an open request can still be settled if and only if it names a
   * provider, or its arbitrator has been called, or it has a second window, or its first bond can still be
   * filled.
   */
  lemma SettleableIff(o: Oracle, id: nat, now: nat)
    requires OracleInv(o) && id < |o.requests| && o.requests[id].Active? && now <= U64_MAX
    ensures (exists steps :: OnClock(steps, now) && IsSettled(After(o, steps), id))
      <==> || o.requests[id].active.provider.Some?
           || o.requests[id].active.finalArbitratorTriggered
           || |o.requests[id].active.windows| >= 2
           || CanStillBond(o.requests[id].active, now)
  {
    hide OracleInv, CanStillBond, After, OnClock;
    if Settleable(o.requests[id].active, now) {
      var steps := Settle(o, id, now);
    } else {
      forall steps | OnClock(steps, now) ensures !IsSettled(After(o, steps), id) {
        StuckForever(o, steps, id, now);
      }
    }
  }
}
