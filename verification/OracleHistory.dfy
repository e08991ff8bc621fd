/** Whole runs of the oracle: settlement, length of disputes, conservation of stake, terms and tokens. */
module OracleHistory {
  import opened Prelude
  import opened Outcomes
  import opened ResolutionWindows
  import opened DataRequests
  import opened Disputes
  import opened Escalation
  import opened Claims
  import opened OracleContract
  import opened OracleInvariant

  /** One transaction on the oracle. A panicking call leaves the contract as it was. */
  datatype Step = Step(env: Env, call: Call)

  function After(o: Oracle, steps: seq<Step>): Oracle {
    if steps == [] then o
    else
      var mid := After(o, steps[..|steps| - 1]);
      var last := steps[|steps| - 1];
      match Execute(mid, last.env, last.call)
      case Ok(effect) => effect.oracle
      case Panic(_) => mid
  }

  /** The contract as its constructor leaves it. */
  function Deployed(config: OracleConfig): Oracle {
    Oracle([config], [], false)
  }

  lemma {:induction false} AfterConcat(o: Oracle, first: seq<Step>, rest: seq<Step>)
    ensures After(o, first + rest) == After(After(o, first), rest)
  {
    hide Execute;
    if rest == [] {
      assert first + rest == first;
    } else {
      AfterConcat(o, first, rest[..|rest| - 1]);
      assert (first + rest)[..|first + rest| - 1] == first + rest[..|rest| - 1];
    }
  }

  lemma AfterOne(o: Oracle, step: Step)
    ensures After(o, [step])
      == match Execute(o, step.env, step.call) case Ok(effect) => effect.oracle case Panic(_) => o
  {
    assert [step][..0] == [];
    assert After(o, []) == o;
  }

  /** The invariant holds in every reachable state, and every later state is an evolution of this one. */
  lemma {:induction false} RunKeeps(o: Oracle, steps: seq<Step>)
    requires OracleInv(o)
    ensures OracleInv(After(o, steps)) && Evolves(o, After(o, steps))
  {
    hide OracleInv, Evolves, Execute;
    if steps == [] {
      EvolvesReflexive(o);
    } else {
      var mid := After(o, steps[..|steps| - 1]);
      var last := steps[|steps| - 1];
      RunKeeps(o, steps[..|steps| - 1]);
      if Execute(mid, last.env, last.call).Ok? {
        ExecuteKeeps(mid, last.env, last.call);
        EvolvesTransitive(o, mid, Execute(mid, last.env, last.call).value.oracle);
      }
    }
  }

  /** From deployment on: ids are indices, windows form a chain, totals agree, terms agree. */
  lemma EveryReachableState(config: OracleConfig, steps: seq<Step>)
    ensures OracleInv(After(Deployed(config), steps))
  {
    RunKeeps(Deployed(config), steps);
  }

  // ---------------------------------------------------------------------------------------------
  // A request settles once, by one of three paths, on an admissible outcome
  // ---------------------------------------------------------------------------------------------

  predicate IsSettled(o: Oracle, id: nat) {
    id < |o.requests| && o.requests[id].Finalized?
  }

  predicate SettlesById(call: Call, id: nat) {
    match call
    case DrFinalize(i) => i == id
    case DrFinalizeByProvider(i, _) => i == id
    case DrFinalArbitratorFinalize(i, _) => i == id
    case _ => false
  }

  /** A successful finalization call meets an active request and settles it on an admissible outcome. */
  lemma SettlementIsAdmissible(o: Oracle, env: Env, call: Call, id: nat)
    requires OracleInv(o) && SettlesById(call, id) && Execute(o, env, call).Ok?
    ensures var effect := Execute(o, env, call).value;
      && id < |o.requests| && o.requests[id].Active?
      && IsSettled(effect.oracle, id)
      && ConfigIdOf(o.requests[id]) < |o.configs|
      && var dr, f := o.requests[id].active, effect.oracle.requests[id].finalized;
      var config := o.configs[ConfigIdOf(o.requests[id])];
      && ValidOutcome(dr, f.finalizedOutcome).Pass?
      && (call.DrFinalize? ==>
            && Admissible(dr, f.finalizedOutcome)
            && |dr.windows| >= 2 && dr.windows[|dr.windows| - 2].bonded == Some(f.finalizedOutcome))
      && (!call.DrFinalize? ==> f.finalizedOutcome == call.outcome)
      && effect.transfers
        == (if f.finalizedOutcome.Answer? && !call.DrFinalizeByProvider?
            then [Transfer(config.paymentToken, dr.requester, config.validityBond)] else [])
      && effect.oracle == Replaced(o, id, Finalized(Trimmed(dr, f.finalizedOutcome)))
      && f.windows == dr.windows && f.paidFee == dr.config.paidFee && f.id == id
  {
    hide Chain, Books, Scheduled, StartsAt, ResolutionBond;
    assert RequestInv(o.configs, id, o.requests[id]);
    if call.DrFinalize? {
      assert OnlyAdmissible(o.requests[id].active);
      hide ValidOutcome, ValidOutcomeType;
    }
  }

  /** Which transaction of the run settled the request. */
  function SettledAt(o: Oracle, steps: seq<Step>, id: nat): (k: nat)
    requires !IsSettled(o, id) && IsSettled(After(o, steps), id)
    ensures k < |steps|
  {
    if IsSettled(After(o, steps[..|steps| - 1]), id) then SettledAt(o, steps[..|steps| - 1], id) else |steps| - 1
  }

  /**
   * Over any run a settled request has the verdict of the one call that settled it: the outcome that the
   * provider or the arbitrator named in it, or, when nobody disputed, the outcome bonded last.
   */
  lemma {:induction false} VerdictIsTheCallers(o: Oracle, steps: seq<Step>, id: nat)
    requires OracleInv(o) && !IsSettled(o, id) && IsSettled(After(o, steps), id)
    ensures var settling, f := steps[SettledAt(o, steps, id)].call, After(o, steps).requests[id].finalized;
      && SettlesById(settling, id)
      && (!settling.DrFinalize? ==> f.finalizedOutcome == settling.outcome)
      && (settling.DrFinalize? ==>
            && |f.windows| >= 2 && f.windows[|f.windows| - 2].bonded == Some(f.finalizedOutcome)
            && f.windows[|f.windows| - 1].bonded.None?)
  {
    hide OracleInv, Execute, Evolves, SameVerdict;
    var init, last := steps[..|steps| - 1], steps[|steps| - 1];
    var mid := After(o, init);
    RunKeeps(o, init);
    if IsSettled(mid, id) {
      VerdictIsTheCallers(o, init, id);
      if Execute(mid, last.env, last.call).Ok? {
        ExecuteKeeps(mid, last.env, last.call);
        var f, f' := mid.requests[id].finalized, After(o, steps).requests[id].finalized;
        VerdictStays(mid, After(o, steps), id);
        if |f.windows| >= 2 {
          SameBonded(f.windows, f'.windows, |f.windows| - 2);
          SameBonded(f.windows, f'.windows, |f.windows| - 1);
        }
      }
    } else if SettlesById(last.call, id) {
      SettlementIsAdmissible(mid, last.env, last.call, id);
      SettlementIsAuthorized(mid, last.env, last.call, id);
    } else {
      OthersDoNotSettle(mid, last.env, last.call, id);
    }
  }

  lemma SameBonded(windows: seq<Window>, windows': seq<Window>, i: nat)
    requires SameVerdicts(windows, windows') && i < |windows|
    ensures |windows'| == |windows| && windows'[i].bonded == windows[i].bonded
  {
    assert SameVerdict(windows[i], windows'[i]);
  }

  /** On all three paths a request with a list of outcomes settles on a listed string or on Invalid. */
  lemma SettlesOnAListedOutcome(o: Oracle, env: Env, call: Call, id: nat)
    requires OracleInv(o) && SettlesById(call, id) && Execute(o, env, call).Ok?
    ensures id < |o.requests| && o.requests[id].Active?
    ensures IsSettled(Execute(o, env, call).value.oracle, id)
    ensures var dr := o.requests[id].active;
      var outcome := Execute(o, env, call).value.oracle.requests[id].finalized.finalizedOutcome;
      dr.outcomes.Some? && outcome.Answer? ==> outcome.answer.Text? && outcome.answer.text in dr.outcomes.value
  {
    hide OracleInv, Execute;
    SettlementIsAdmissible(o, env, call, id);
  }

  /**
   * Who may settle: the named provider, or the config's arbitrator once some window bonded at the invoke
   * amount, or anyone once the last window has run out undisputed.
   */
  lemma SettlementIsAuthorized(o: Oracle, env: Env, call: Call, id: nat)
    requires OracleInv(o) && SettlesById(call, id) && Execute(o, env, call).Ok?
    ensures id < |o.requests| && o.requests[id].Active? && ConfigIdOf(o.requests[id]) < |o.configs|
    ensures var dr, config := o.requests[id].active, o.configs[ConfigIdOf(o.requests[id])];
      var n := |dr.windows|;
      && (call.DrFinalizeByProvider? ==> dr.provider == Some(env.predecessor))
      && (call.DrFinalArbitratorFinalize? ==>
            && env.predecessor == config.finalArbitrator
            && n > 0 && dr.windows[n - 1].bonded.Some?
            && dr.windows[n - 1].bondSize >= config.finalArbitratorInvokeAmount)
      && (call.DrFinalize? ==>
            && n >= 2 && dr.windows[n - 1].bonded.None? && env.now >= dr.windows[n - 1].endTime
            && dr.windows[n - 2].bondSize < config.finalArbitratorInvokeAmount)
  {
    hide Chain, Books, OnlyAdmissible, Scheduled, StartsAt, ResolutionBond;
    SettlementIsAdmissible(o, env, call, id);
    assert RequestInv(o.configs, id, o.requests[id]);
  }

  /** An undisputed settlement succeeds exactly when a window bonded and the next one ran out unbonded. */
  lemma FinalizeSucceedsIff(o: Oracle, env: Env, id: nat)
    requires OracleInv(o) && !o.paused && env.hostOk
    ensures FinalizeRequest(o, env, id).Ok?
      <==> && id < |o.requests| && o.requests[id].Active?
           && var windows := o.requests[id].active.windows;
           && |windows| >= 2
           && windows[|windows| - 1].bonded.None?
           && env.now >= windows[|windows| - 1].endTime
  {
    hide Chain, Books, OnlyAdmissible, Scheduled, StartsAt, ResolutionBond;
    if id < |o.requests| && o.requests[id].Active? {
      assert RequestInv(o.configs, id, o.requests[id]);
      UnwrapsNeverFire(o.requests[id].active, Invalid);
    }
  }

  /** A claim goes through exactly when the user has unclaimed stake on the final outcome where it bonded. */
  lemma ClaimSucceedsIff(o: Oracle, env: Env, user: AccountId, id: nat)
    requires OracleInv(o) && !o.paused && env.hostOk && IsSettled(o, id)
    requires Fits(o.requests[id].finalized)
    ensures ClaimRequest(o, env, user, id).Ok? <==> WinningStake(o.requests[id].finalized, user) > 0
  {
    hide OracleInv, FinalizedInv, CorrectStake, CorrectBonds, IncorrectBonds, ClaimedRequest;
    var f := o.requests[id].finalized;
    SettledInv(o, id);
    SettledConfigExists(o, id);
    ClaimPays(f, user);
    ZeroShare(Lost(f), Won(f));
    ZeroShare(f.paidFee, Won(f));
  }

  lemma SettledConfigExists(o: Oracle, id: nat)
    requires OracleInv(o) && IsSettled(o, id)
    ensures o.requests[id].finalized.globalConfigId < |o.configs|
  {
    assert RequestInv(o.configs, id, o.requests[id]);
  }

  /**
   * Configs and the pause switch move only at the word of the current config's governance account: a new
   * config is appended as given, a new fee replaces that of the last one, and the switch is thrown.
   */
  lemma OnlyGovernanceReconfigures(o: Oracle, env: Env, call: Call)
    requires Execute(o, env, call).Ok?
    ensures var o' := Execute(o, env, call).value.oracle;
      o'.configs != o.configs || o'.paused != o.paused
      ==> |o.configs| > 0 && env.predecessor == o.configs[|o.configs| - 1].gov && o'.requests == o.requests
    ensures var o' := Execute(o, env, call).value.oracle;
      && (o'.paused == !o.paused <==> call.TogglePause?)
      && (call.SetConfig? ==> o'.configs == o.configs + [call.config])
      && (call.UpdateFeeConfig? ==>
            && |o'.configs| == |o.configs| > 0
            && o'.configs[..|o.configs| - 1] == o.configs[..|o.configs| - 1]
            && o'.configs[|o.configs| - 1] == o.configs[|o.configs| - 1].(fee := call.fee))
      && (!call.SetConfig? && !call.UpdateFeeConfig? ==> o'.configs == o.configs)
  {
    hide StakedRequest, UnstakedRequest, ClaimedRequest, CanStakeOn, ValidOutcome, ValidOutcomeType;
  }

  /** No other call settles a request or reopens one. */
  lemma OthersDoNotSettle(o: Oracle, env: Env, call: Call, id: nat)
    requires OracleInv(o) && !SettlesById(call, id) && Execute(o, env, call).Ok?
    ensures IsSettled(Execute(o, env, call).value.oracle, id) <==> IsSettled(o, id)
  {
    hide OracleInv, StakedRequest, UnstakedRequest, ClaimedRequest, Trimmed;
    match call {
      case DrNew(sender, amount, args) =>
      case FtOnTransfer(sender, amount, payload) =>
      case DrUnstake(i, round, outcome, amount) =>
        UnstakeRequestKeeps(o, env, i, round, outcome, amount);
        KindStays(o.requests, i, env.predecessor, round, outcome, amount);
      case _ =>
    }
  }

  lemma KindStays(requests: seq<DataRequest>, i: nat, sender: AccountId, round: nat, outcome: Outcome, amount: nat)
    requires i < |requests| && UnstakedRequest(requests[i], sender, round, outcome, amount).Ok?
    ensures UnstakedRequest(requests[i], sender, round, outcome, amount).value.Finalized?
      <==> requests[i].Finalized?
  {
  }

  /** How often the run settles request `id`, and how often it sends back its validity bond. */
  function Settlements(o: Oracle, steps: seq<Step>, id: nat): nat {
    if steps == [] then 0
    else
      var init, last := steps[..|steps| - 1], steps[|steps| - 1];
      Settlements(o, init, id)
      + (if SettlesById(last.call, id) && Execute(After(o, init), last.env, last.call).Ok? then 1 else 0)
  }

  function BondReturns(o: Oracle, steps: seq<Step>, id: nat): nat {
    if steps == [] then 0
    else
      var init, last := steps[..|steps| - 1], steps[|steps| - 1];
      var result := Execute(After(o, init), last.env, last.call);
      BondReturns(o, init, id)
      + (if SettlesById(last.call, id) && result.Ok? then |result.value.transfers| else 0)
  }

  function ProviderSettlements(o: Oracle, steps: seq<Step>, id: nat): nat {
    if steps == [] then 0
    else
      var init, last := steps[..|steps| - 1], steps[|steps| - 1];
      ProviderSettlements(o, init, id)
      + (if SettlesById(last.call, id) && last.call.DrFinalizeByProvider?
            && Execute(After(o, init), last.env, last.call).Ok? then 1 else 0)
  }

  /** Whether the settled request `id` ended on an answer rather than on Invalid. */
  predicate Answered(o: Oracle, id: nat)
    requires IsSettled(o, id)
  {
    o.requests[id].finalized.finalizedOutcome.Answer?
  }

  /**
   * At most one finalization succeeds per request. The validity bond goes back exactly once if the request
   * settled on an answer and not through its provider, and never otherwise.
   */
  lemma {:induction false} SettledOnce(o: Oracle, steps: seq<Step>, id: nat)
    requires OracleInv(o) && !IsSettled(o, id)
    ensures Settlements(o, steps, id) == if IsSettled(After(o, steps), id) then 1 else 0
    ensures ProviderSettlements(o, steps, id) <= Settlements(o, steps, id)
    ensures BondReturns(o, steps, id)
      == if IsSettled(After(o, steps), id) && Answered(After(o, steps), id) && ProviderSettlements(o, steps, id) == 0
         then 1 else 0
  {
    hide OracleInv, Execute, Evolves, SettlesById;
    if steps != [] {
      var init, last := steps[..|steps| - 1], steps[|steps| - 1];
      var mid := After(o, init);
      SettledOnce(o, init, id);
      RunKeeps(o, init);
      if Execute(mid, last.env, last.call).Ok? {
        if SettlesById(last.call, id) {
          SettlementIsAdmissible(mid, last.env, last.call, id);
        } else {
          OthersDoNotSettle(mid, last.env, last.call, id);
          ExecuteKeeps(mid, last.env, last.call);
          if IsSettled(mid, id) { VerdictStays(mid, Execute(mid, last.env, last.call).value.oracle, id); }
        }
      }
    }
  }

  lemma VerdictStays(o: Oracle, o': Oracle, id: nat)
    requires Evolves(o, o') && IsSettled(o, id)
    ensures IsSettled(o', id)
    ensures o'.requests[id].finalized.finalizedOutcome == o.requests[id].finalized.finalizedOutcome
    ensures o'.requests[id].finalized.paidFee == o.requests[id].finalized.paidFee
    ensures SameVerdicts(o.requests[id].finalized.windows, o'.requests[id].finalized.windows)
  {
    assert RequestEvolves(o.requests[id], o'.requests[id]);
  }

  /** Once settled, always settled on the same outcome, with the same bonds and fee, whatever happens. */
  lemma VerdictIsFinal(o: Oracle, steps: seq<Step>, id: nat)
    requires OracleInv(o) && IsSettled(o, id)
    ensures var o' := After(o, steps);
      && IsSettled(o', id)
      && o'.requests[id].finalized.finalizedOutcome == o.requests[id].finalized.finalizedOutcome
      && Won(o'.requests[id].finalized) == Won(o.requests[id].finalized)
      && Lost(o'.requests[id].finalized) == Lost(o.requests[id].finalized)
      && o'.requests[id].finalized.paidFee == o.requests[id].finalized.paidFee
  {
    hide OracleInv, CorrectBonds, IncorrectBonds, Evolves;
    RunKeeps(o, steps);
    VerdictStays(o, After(o, steps), id);
    SameBonds(o.requests[id].finalized.windows, After(o, steps).requests[id].finalized.windows,
              o.requests[id].finalized.finalizedOutcome);
  }

  /**
   * Stake that did not bond can be withdrawn at any time, before and after settlement: an unpaused call
   * succeeds exactly when the outcome is not the window's bonded one and the caller has that much on it.
   */
  lemma UnbondedStakeIsWithdrawable(o: Oracle, env: Env, id: nat, round: nat, outcome: Outcome, amount: nat)
    requires OracleInv(o) && !o.paused && env.hostOk
    ensures UnstakeRequest(o, env, id, round, outcome, amount).Ok?
      <==> id < |o.requests| && round < |WindowsOf(o.requests[id])|
           && var w := WindowsOf(o.requests[id])[round];
           w.bonded != Some(outcome) && amount <= w.UserOn(env.predecessor, outcome)
  {
    hide Chain, Consistent, OnlyAdmissible, Unstaked;
    if id < |o.requests| {
      assert RequestInv(o.configs, id, o.requests[id]);
      var windows := WindowsOf(o.requests[id]);
      if round < |windows| {
        match o.requests[id] {
          case Active(a) =>
            assert Consistent(windows[round], None);
            UnstakeGuardsSuffice(windows[round], None, env.predecessor, outcome, amount);
          case Finalized(f) =>
            assert Consistent(windows[round], Some(f.finalizedOutcome));
            UnstakeGuardsSuffice(windows[round], Some(f.finalizedOutcome), env.predecessor, outcome, amount);
        }
      }
    }
  }

  // ---------------------------------------------------------------------------------------------
  // Disputes and rewards in every reachable state
  // ---------------------------------------------------------------------------------------------

  lemma ReachableChain(o: Oracle, id: nat)
    requires OracleInv(o) && id < |o.requests|
    ensures Chain(WindowsOf(o.requests[id]))
  {
    hide Chain, Books, OnlyAdmissible;
    assert RequestInv(o.configs, id, o.requests[id]);
  }

  /**
   * Consecutive windows never bond the same outcome, and nobody holds stake in a window on the outcome its
   * predecessor bonded: in every state that any run reaches, open or settled.
   */
  lemma DisputesAlternate(config: OracleConfig, steps: seq<Step>, id: nat, i: nat)
    requires id < |After(Deployed(config), steps).requests|
    requires 0 < i < |WindowsOf(After(Deployed(config), steps).requests[id])|
    ensures var windows := WindowsOf(After(Deployed(config), steps).requests[id]);
      && windows[i - 1].bonded.Some?
      && windows[i].bonded != windows[i - 1].bonded
      && windows[i].On(windows[i - 1].bonded.value) == 0
      && windows[i].bondSize == 2 * windows[i - 1].bondSize
  {
    hide OracleInv;
    EveryReachableState(config, steps);
    ReachableChain(After(Deployed(config), steps), id);
    var windows := WindowsOf(After(Deployed(config), steps).requests[id]);
    assert LinkedAt(windows, i);
  }

  /** On every finalization path the losing bonds are at least half of the winning bonds beyond the first. */
  lemma RewardIsGuaranteed(config: OracleConfig, steps: seq<Step>, id: nat)
    requires IsSettled(After(Deployed(config), steps), id)
    ensures var f := After(Deployed(config), steps).requests[id].finalized;
      Won(f) <= 2 * Lost(f) + (if |f.windows| > 0 then f.windows[0].bondSize else 0)
  {
    hide OracleInv, Chain;
    EveryReachableState(config, steps);
    ReachableChain(After(Deployed(config), steps), id);
    var f := After(Deployed(config), steps).requests[id].finalized;
    RewardRatio(f.windows, f.finalizedOutcome);
  }

  /** When nobody disputes, the winning bonds outweigh all others and no profit reaches the stake. */
  lemma UndisputedIsMajorityBacked(o: Oracle, env: Env, id: nat, user: AccountId)
    requires OracleInv(o) && FinalizeRequest(o, env, id).Ok?
    ensures var o' := FinalizeRequest(o, env, id).value.oracle;
      && IsSettled(o', id)
      && var f := o'.requests[id].finalized;
      && |f.windows| >= 2
      && Won(f) >= Lost(f) + f.windows[0].bondSize
      && (WinningStake(f, user) > 0 ==> StakePayout(f, user) < 2 * WinningStake(f, user))
  {
    hide Chain, Books, OnlyAdmissible, Decided, Scheduled, CorrectBonds, IncorrectBonds, CorrectStake;
    assert RequestInv(o.configs, id, o.requests[id]);
    MajorityBacked(o.requests[id].active, env.now);
    ProfitBelowStake(o.requests[id].active, env.now, user);
  }

  /**
   * The loop of a claim is short: in every reachable state a request with a positive first bond, open or
   * settled, has at most 128 windows, numbered without loss, and only logarithmically many in the amount
   * that calls the arbitrator.
   */
  lemma DisputesStayShort(config: OracleConfig, steps: seq<Step>, id: nat)
    requires id < |After(Deployed(config), steps).requests|
    requires var windows := WindowsOf(After(Deployed(config), steps).requests[id]);
      |windows| > 0 ==> windows[0].bondSize > 0
    ensures var o := After(Deployed(config), steps);
      var windows := WindowsOf(o.requests[id]);
      && |windows| <= 128
      && (forall i :: 0 <= i < |windows| ==> windows[i].round == i)
      && ConfigIdOf(o.requests[id]) < |o.configs|
      && (|windows| >= 2 ==>
            windows[0].bondSize * Pow2(|windows| - 2)
            < o.configs[ConfigIdOf(o.requests[id])].finalArbitratorInvokeAmount)
  {
    hide OracleInv, After;
    EveryReachableState(config, steps);
    RequestStaysShort(After(Deployed(config), steps), id);
  }

  lemma RequestStaysShort(o: Oracle, id: nat)
    requires OracleInv(o) && id < |o.requests|
    requires var windows := WindowsOf(o.requests[id]); |windows| > 0 ==> windows[0].bondSize > 0
    ensures var windows := WindowsOf(o.requests[id]);
      && |windows| <= 128
      && (forall i :: 0 <= i < |windows| ==> windows[i].round == i)
      && ConfigIdOf(o.requests[id]) < |o.configs|
      && (|windows| >= 2 ==>
            windows[0].bondSize * Pow2(|windows| - 2)
            < o.configs[ConfigIdOf(o.requests[id])].finalArbitratorInvokeAmount)
  {
    hide Chain, Books, OnlyAdmissible, Scheduled, StartsAt;
    assert RequestInv(o.configs, id, o.requests[id]);
    var windows := WindowsOf(o.requests[id]);
    ShortChain(windows, if o.requests[id].Active? then None else Some(o.requests[id].finalized.finalizedOutcome));
    if |windows| >= 2 {
      BondsStayLogarithmic(windows, o.configs[ConfigIdOf(o.requests[id])].finalArbitratorInvokeAmount);
    }
  }

  /**
   * A request whose resolution bond `B` does not round down to nothing stays short for good: after any further
   * calls, while it is open and after any settlement, it has `n <= 128` windows with `B * 2^(n - 1)` below the
   * arbitrator's amount as soon as there are two.
   */
  lemma DisputesEnd(o: Oracle, steps: seq<Step>, id: nat)
    requires OracleInv(o) && id < |o.requests| && o.requests[id].Active?
    requires ResolutionBond(o.requests[id].active.config) != Ok(0)
    ensures id < |After(o, steps).requests|
    ensures var windows, terms := WindowsOf(After(o, steps).requests[id]), o.requests[id].active.config;
      && |windows| <= 128
      && (forall i :: 0 <= i < |windows| ==> windows[i].round == i)
      && (|windows| > 0 ==> ResolutionBond(terms).Ok?)
      && (|windows| >= 2 ==>
            ResolutionBond(terms).value * Pow2(|windows| - 1) < terms.finalArbitratorInvokeAmount)
  {
    hide OracleInv, Evolves, ResolutionBond, After;
    var o' := After(o, steps);
    var terms := o.requests[id].active.config;
    RunKeeps(o, steps);
    LaterBonds(o, o', id);
    var windows := WindowsOf(o'.requests[id]);
    RequestStaysShort(o', id);
    if |windows| >= 2 { TwiceTheBond(ResolutionBond(terms).value, |windows|); }
  }

  lemma TwiceTheBond(bond: nat, n: nat)
    requires n >= 2
    ensures (2 * bond) * Pow2(n - 2) == bond * Pow2(n - 1)
  {
    assert (2 * bond) * Pow2(n - 2) == bond * (2 * Pow2(n - 2));
  }

  /** The terms of an open request still rule its bonds in every later state, settled or not. */
  lemma LaterBonds(o: Oracle, o': Oracle, id: nat)
    requires OracleInv(o) && OracleInv(o') && Evolves(o, o')
    requires id < |o.requests| && o.requests[id].Active?
    ensures id < |o'.requests| && ConfigIdOf(o'.requests[id]) < |o'.configs|
    ensures var terms := o.requests[id].active.config;
      && StartsAt(WindowsOf(o'.requests[id]), terms)
      && o'.configs[ConfigIdOf(o'.requests[id])].finalArbitratorInvokeAmount == terms.finalArbitratorInvokeAmount
  {
    hide ActiveInv, FinalizedInv, StartsAt;
    assert RequestEvolves(o.requests[id], o'.requests[id]);
    assert RequestInv(o.configs, id, o.requests[id]);
    assert RequestInv(o'.configs, id, o'.requests[id]);
    assert SameTerms(o.configs[ConfigIdOf(o.requests[id])], o'.configs[ConfigIdOf(o'.requests[id])]);
    if o'.requests[id].Active? { BondsSoFar(o'.requests[id].active); }
  }

  // ---------------------------------------------------------------------------------------------
  // Stake is conserved per request
  // ---------------------------------------------------------------------------------------------

  /** Stake on request `id` that one successful call accepts, returns and pays out as principal. */
  datatype Flow = Flow(accepted: nat, unstaked: nat, principal: nat)

  ghost function LiveStake(o: Oracle, id: nat): nat {
    if id < |o.requests| then TotalLive(WindowsOf(o.requests[id])) else 0
  }

  function FlowOf(o: Oracle, env: Env, call: Call, id: nat): Flow {
    match Execute(o, env, call)
    case Panic(_) => Flow(0, 0, 0)
    case Ok(effect) =>
      match call
      case DrStake(_, amount, i, _) =>
        if i == id && effect.unspent <= amount then Flow(amount - effect.unspent, 0, 0) else Flow(0, 0, 0)
      case FtOnTransfer(_, amount, StakeDataRequest(i, _)) =>
        if i == id && effect.unspent <= amount then Flow(amount - effect.unspent, 0, 0) else Flow(0, 0, 0)
      case DrUnstake(i, _, _, amount) =>
        if i == id then Flow(0, amount, 0) else Flow(0, 0, 0)
      case DrClaim(accountId, i) =>
        if i == id && IsSettled(o, id) then Flow(0, 0, WinningStake(o.requests[id].finalized, accountId))
        else Flow(0, 0, 0)
      case _ => Flow(0, 0, 0)
  }

  function FlowOfRun(o: Oracle, steps: seq<Step>, id: nat): Flow {
    if steps == [] then Flow(0, 0, 0)
    else
      var init, last := steps[..|steps| - 1], steps[|steps| - 1];
      var before := FlowOfRun(o, init, id);
      var now := FlowOf(After(o, init), last.env, last.call, id);
      Flow(before.accepted + now.accepted, before.unstaked + now.unstaked, before.principal + now.principal)
  }

  lemma {:induction false} ClaimedLive(dr: FinalizedRequest, user: AccountId, k: nat)
    requires FinalizedInv(dr) && k <= |dr.windows|
    ensures TotalLive(ClaimedWindows(dr.windows, user, dr.finalizedOutcome)[..k])
        + CorrectStake(dr.windows[..k], dr.finalizedOutcome, user)
      == TotalLive(dr.windows[..k])
    ensures TotalWithdrawable(ClaimedWindows(dr.windows, user, dr.finalizedOutcome)[..k])
      == TotalWithdrawable(dr.windows[..k])
  {
    hide Window.Live, Window.Withdrawable, Consistent, Claimed, Chain;
    var windows' := ClaimedWindows(dr.windows, user, dr.finalizedOutcome);
    if k > 0 {
      ClaimedLive(dr, user, k - 1);
      ClaimedWindowsReadings(dr, user);
      NextPrefix(dr.windows, k - 1, dr.finalizedOutcome, user);
      TotalsPrefix(dr.windows, k - 1);
      TotalsPrefix(windows', k - 1);
    }
  }

  lemma TotalsPrefix(windows: seq<Window>, k: nat)
    requires k < |windows|
    ensures TotalLive(windows[..k + 1]) == TotalLive(windows[..k]) + windows[k].Live()
    ensures TotalWithdrawable(windows[..k + 1]) == TotalWithdrawable(windows[..k]) + windows[k].Withdrawable()
  {
    hide Window.Live, Window.Withdrawable;
    var init := windows[..k + 1];
    assert LivePerWindow(init)[..k] == LivePerWindow(windows[..k]);
    assert WithdrawablePerWindow(init)[..k] == WithdrawablePerWindow(windows[..k]);
  }

  /** A claim lowers the request's live stake by exactly the claimant's principal. */
  lemma ClaimTakesPrincipal(dr: FinalizedRequest, user: AccountId)
    requires FinalizedInv(dr)
    ensures var windows' := ClaimedWindows(dr.windows, user, dr.finalizedOutcome);
      && TotalLive(windows') + WinningStake(dr, user) == TotalLive(dr.windows)
      && TotalWithdrawable(windows') == TotalWithdrawable(dr.windows)
  {
    hide TotalLive, TotalWithdrawable, CorrectStake, FinalizedInv;
    var windows' := ClaimedWindows(dr.windows, user, dr.finalizedOutcome);
    ClaimedLive(dr, user, |dr.windows|);
    assert windows'[..|dr.windows|] == windows' && dr.windows[..|dr.windows|] == dr.windows;
  }

  lemma FlowBalances(o: Oracle, env: Env, call: Call, id: nat)
    requires OracleInv(o) && Execute(o, env, call).Ok?
    ensures var flow := FlowOf(o, env, call, id);
      LiveStake(Execute(o, env, call).value.oracle, id) + flow.unstaked + flow.principal
      == LiveStake(o, id) + flow.accepted
  {
    hide OracleInv, Evolves, TotalLive, StakedRequest, UnstakedRequest, ClaimedRequest, CorrectStake;
    match call {
      case DrNew(sender, amount, args) =>
        NewRequestLive(o, env, sender, amount, args, id);
      case DrStake(sender, amount, i, outcome) =>
        StakeRequestKeeps(o, env, sender, amount, i, outcome);
      case FtOnTransfer(sender, amount, payload) =>
        if payload.NewDataRequest? {
          NewRequestLive(o, env, sender, amount, payload.args, id);
        } else {
          StakeRequestKeeps(o, env, sender, amount, payload.id, payload.outcome);
        }
      case DrUnstake(i, round, outcome, amount) =>
        UnstakeRequestKeeps(o, env, i, round, outcome, amount);
      case DrClaim(accountId, i) =>
        ClaimRequestKeeps(o, env, accountId, i);
        SettledInv(o, i);
        ClaimTakesPrincipal(o.requests[i].finalized, accountId);
        ClaimedRequestWindows(o.requests[i].finalized, accountId);
      case _ =>
    }
  }

  lemma SettledInv(o: Oracle, id: nat)
    requires OracleInv(o) && IsSettled(o, id)
    ensures FinalizedInv(o.requests[id].finalized)
  {
    assert RequestInv(o.configs, id, o.requests[id]);
  }

  lemma ActiveHolds(o: Oracle, id: nat)
    requires OracleInv(o) && id < |o.requests| && o.requests[id].Active?
    ensures ActiveInv(o.requests[id].active)
  {
    hide ActiveInv;
    assert RequestInv(o.configs, id, o.requests[id]);
  }

  lemma RequestPoints(o: Oracle, id: nat)
    requires OracleInv(o) && id < |o.requests| && o.requests[id].Active?
    ensures |o.configs| > 0 && o.requests[id].active.globalConfigId < |o.configs|
  {
    hide ActiveInv;
    assert RequestInv(o.configs, id, o.requests[id]);
  }

  lemma ClaimedRequestWindows(dr: FinalizedRequest, user: AccountId)
    requires ClaimedRequest(dr, user).Ok?
    ensures ClaimedRequest(dr, user).value.0
      == dr.(windows := ClaimedWindows(dr.windows, user, dr.finalizedOutcome))
  {
    hide CorrectStake, CorrectBonds, IncorrectBonds;
  }

  lemma NewRequestLive(o: Oracle, env: Env, sender: AccountId, amount: u128, args: NewRequestArgs, id: nat)
    requires OracleInv(o) && NewRequest(o, env, sender, amount, args).Ok?
    ensures LiveStake(NewRequest(o, env, sender, amount, args).value.oracle, id) == LiveStake(o, id)
  {
    hide OracleInv, Evolves;
    NewRequestKeeps(o, env, sender, amount, args);
    var o' := NewRequest(o, env, sender, amount, args).value.oracle;
    if id < |o.requests| {
      assert o'.requests[..|o.requests|][id] == o.requests[id];
    }
  }

  /** Accepted stake is unstaked, claimed as principal, or still live, request by request, on every run. */
  lemma {:induction false} StakeIsConserved(o: Oracle, steps: seq<Step>, id: nat)
    requires OracleInv(o)
    ensures var flow := FlowOfRun(o, steps, id);
      LiveStake(After(o, steps), id) + flow.unstaked + flow.principal == LiveStake(o, id) + flow.accepted
  {
    hide OracleInv, Execute, Evolves, LiveStake, FlowOf;
    if steps != [] {
      var init, last := steps[..|steps| - 1], steps[|steps| - 1];
      var mid := After(o, init);
      StakeIsConserved(o, init, id);
      RunKeeps(o, init);
      if Execute(mid, last.env, last.call).Ok? {
        FlowBalances(mid, last.env, last.call, id);
      } else {
        PanicFlowsNothing(mid, last.env, last.call, id);
      }
    }
  }

  /** Once settled, a request takes no more stake on any run: from then on its stake only leaves. */
  lemma {:induction false} SettledTakesNoStake(o: Oracle, steps: seq<Step>, id: nat)
    requires OracleInv(o) && IsSettled(o, id)
    ensures var flow := FlowOfRun(o, steps, id);
      flow.accepted == 0 && LiveStake(After(o, steps), id) + flow.unstaked + flow.principal == LiveStake(o, id)
  {
    hide OracleInv, Execute, LiveStake, FlowOf;
    StakeIsConserved(o, steps, id);
    if steps != [] {
      var init, last := steps[..|steps| - 1], steps[|steps| - 1];
      SettledTakesNoStake(o, init, id);
      VerdictIsFinal(o, init, id);
      SettledFlow(After(o, init), last.env, last.call, id);
    }
  }

  lemma SettledFlow(o: Oracle, env: Env, call: Call, id: nat)
    requires IsSettled(o, id)
    ensures FlowOf(o, env, call, id).accepted == 0
  {
    hide StakedRequest, UnstakedRequest, ClaimedRequest, CorrectStake, CanStakeOn, ValidOutcome, ValidOutcomeType;
  }

  lemma PanicFlowsNothing(o: Oracle, env: Env, call: Call, id: nat)
    requires Execute(o, env, call).Panic?
    ensures FlowOf(o, env, call, id) == Flow(0, 0, 0)
  {
    hide Execute;
  }

  // ---------------------------------------------------------------------------------------------
  // Terms and tokens never change under a request
  // ---------------------------------------------------------------------------------------------

  /** A request's snapshot agrees with its config in every later state. */
  lemma SnapshotForever(o: Oracle, steps: seq<Step>, id: nat)
    requires OracleInv(o) && id < |o.requests|
    ensures var o' := After(o, steps);
      && id < |o'.requests|
      && var configId := ConfigIdOf(o.requests[id]);
      && ConfigIdOf(o'.requests[id]) == configId < |o.configs| <= |o'.configs|
      && SameTerms(o.configs[configId], o'.configs[configId])
      && (o'.requests[id].Active? ==> Snapshot(o.configs[configId], o'.requests[id].active))
  {
    hide ActiveInv, FinalizedInv;
    RunKeeps(o, steps);
    var o' := After(o, steps);
    assert RequestInv(o.configs, id, o.requests[id]);
    assert RequestInv(o'.configs, id, o'.requests[id]);
    assert RequestEvolves(o.requests[id], o'.requests[id]);
  }

  /** Which request a call works on, if it works on an existing one. */
  function Target(call: Call): Option<nat> {
    match call
    case DrStake(_, _, id, _) => Some(id)
    case FtOnTransfer(_, _, StakeDataRequest(id, _)) => Some(id)
    case DrUnstake(id, _, _, _) => Some(id)
    case DrClaim(_, id) => Some(id)
    case DrFinalize(id) => Some(id)
    case DrFinalizeByProvider(id, _) => Some(id)
    case DrFinalArbitratorFinalize(id, _) => Some(id)
    case _ => None
  }

  predicate Stakes(call: Call) {
    call.DrStake? || (call.FtOnTransfer? && call.payload.StakeDataRequest?)
  }

  /**
   * Tokens go out where they came in: at any later time stake is accepted only from the stake token of the
   * config the request was created under, and leaves only in that token or the config's payment token.
   */
  lemma TokensGoOutWhereTheyCameIn(o: Oracle, steps: seq<Step>, env: Env, call: Call, id: nat)
    requires OracleInv(o) && id < |o.requests| && Target(call) == Some(id)
    requires Execute(After(o, steps), env, call).Ok?
    ensures ConfigIdOf(o.requests[id]) < |o.configs|
    ensures var config := o.configs[ConfigIdOf(o.requests[id])];
      var transfers := Execute(After(o, steps), env, call).value.transfers;
      && (Stakes(call) ==> env.predecessor == config.stakeToken && transfers == [])
      && (call.DrUnstake? ==> transfers == [Transfer(config.stakeToken, env.predecessor, call.amount)])
      && (SettlesById(call, id) ==> forall t :: t in transfers ==>
            t.token == config.paymentToken && t.amount == config.validityBond)
      && (call.DrClaim? ==>
            IsSettled(After(o, steps), id)
            && var f := After(o, steps).requests[id].finalized;
            var paid := ClaimOf(f, call.accountId);
            transfers == TransferIfAny(config.stakeToken, call.accountId, paid.stakeTokenPayout)
                       + TransferIfAny(config.paymentToken, call.accountId, paid.paymentTokenPayout))
  {
    hide OracleInv, StakedRequest, UnstakedRequest, ClaimedRequest, CanStakeOn, ValidOutcome,
         ValidOutcomeType, FinalOutcome, Trimmed;
    SnapshotForever(o, steps, id);
    RunKeeps(o, steps);
    if SettlesById(call, id) {
      SettlementIsAdmissible(After(o, steps), env, call, id);
    }
  }
}
