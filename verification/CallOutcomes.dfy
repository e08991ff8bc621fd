/** Exactly when each call of the oracle succeeds, and what a request records of the call that created it. */
module CallOutcomes {
  import opened Prelude
  import opened Outcomes
  import opened DataRequests
  import opened Disputes
  import opened Escalation
  import opened OracleContract
  import opened OracleInvariant
  import opened OracleHistory

  // ---------------------------------------------------------------------------------------------
  // Stakes and settlements
  // ---------------------------------------------------------------------------------------------

  /** The contract is not paused, and the request exists and is open. */
  predicate IsOpen(o: Oracle, id: nat) {
    !o.paused && id < |o.requests| && o.requests[id].Active?
  }

  /**
   * A stake goes through exactly when it comes from the request's stake token, the arbitrator has not been
   * called, the outcome is on the request's list, of its type and not the one bonded last, and the windows
   * it would open fit the machine.
   */
  lemma StakeSucceedsIff(o: Oracle, env: Env, sender: AccountId, amount: nat, id: nat, outcome: Outcome)
    requires OracleInv(o)
    ensures StakeRequest(o, env, sender, amount, id, outcome).Ok?
      <==> && IsOpen(o, id)
           && var dr := o.requests[id].active;
           var n := |dr.windows|;
           && dr.globalConfigId < |o.configs|
           && env.predecessor == o.configs[dr.globalConfigId].stakeToken
           && !dr.finalArbitratorTriggered
           && (n >= 2 ==> dr.windows[n - 2].bonded != Some(outcome))
           && OnTheList(dr.outcomes, outcome) && OfTheType(dr.dataType, outcome)
           && !(if n == 0 then FirstWindowsOverflow(dr, amount, env.now)
                else NextWindowOverflows(dr, outcome, amount, env.now))
  {
    hide OracleInv, ActiveInv, StakedRequest, CanStakeOn, ValidOutcome, ValidOutcomeType, FirstWindowsOverflow,
         NextWindowOverflows, OnTheList, OfTheType;
    if id < |o.requests| && o.requests[id].Active? {
      var dr := o.requests[id].active;
      ActiveHolds(o, id);
      AdmissibleMeans(dr, outcome);
      UnwrapsNeverFire(dr, outcome);
      if StakeGuards(dr, outcome) { StakePanicsIff(dr, sender, outcome, amount, env.now); }
    }
  }

  /** What a settlement leaves of an open request. */
  predicate SettlesAs(dr: ActiveRequest, f: FinalizedRequest, outcome: Outcome) {
    && f.finalizedOutcome == outcome && f.id == dr.id && f.windows == dr.windows
    && f.globalConfigId == dr.globalConfigId && f.paidFee == dr.config.paidFee
  }

  /** The named provider settles an open request at any time, on any outcome of the request's list. */
  lemma ProviderSucceedsIff(o: Oracle, env: Env, id: nat, outcome: Outcome)
    requires env.hostOk
    ensures ProviderFinalizeRequest(o, env, id, outcome).Ok?
      <==> && IsOpen(o, id)
           && o.requests[id].active.provider == Some(env.predecessor)
           && OnTheList(o.requests[id].active.outcomes, outcome)
    ensures ProviderFinalizeRequest(o, env, id, outcome).Ok?
      ==> var effect := ProviderFinalizeRequest(o, env, id, outcome).value;
          && effect.transfers == []
          && effect.oracle == o.(requests := effect.oracle.requests)
          && |effect.oracle.requests| == |o.requests|
          && effect.oracle.requests[id].Finalized?
          && SettlesAs(o.requests[id].active, effect.oracle.requests[id].finalized, outcome)
          && forall j :: 0 <= j < |o.requests| && j != id ==> effect.oracle.requests[j] == o.requests[j]
  {
    hide ValidOutcome, OnTheList;
    if id < |o.requests| && o.requests[id].Active? { AdmissibleMeans(o.requests[id].active, outcome); }
  }

  /**
   * The arbitrator settles an open request once it has been called, on any outcome of the request's list, and
   * an answer sends the validity bond back to the requester.
   */
  lemma ArbitratorSucceedsIff(o: Oracle, env: Env, id: nat, outcome: Outcome)
    requires OracleInv(o) && env.hostOk
    ensures ArbitratorFinalizeRequest(o, env, id, outcome).Ok?
      <==> && IsOpen(o, id)
           && env.predecessor == o.requests[id].active.config.finalArbitrator
           && o.requests[id].active.finalArbitratorTriggered
           && OnTheList(o.requests[id].active.outcomes, outcome)
    ensures ArbitratorFinalizeRequest(o, env, id, outcome).Ok?
      ==> var effect := ArbitratorFinalizeRequest(o, env, id, outcome).value;
          var dr := o.requests[id].active;
          && dr.globalConfigId < |o.configs|
          && effect.transfers
            == (if outcome == Invalid then []
                else [Transfer(o.configs[dr.globalConfigId].paymentToken, dr.requester, dr.config.validityBond)])
          && effect.oracle == o.(requests := effect.oracle.requests)
          && |effect.oracle.requests| == |o.requests|
          && effect.oracle.requests[id].Finalized?
          && SettlesAs(dr, effect.oracle.requests[id].finalized, outcome)
          && forall j :: 0 <= j < |o.requests| && j != id ==> effect.oracle.requests[j] == o.requests[j]
  {
    hide OracleInv, ValidOutcome, OnTheList;
    if id < |o.requests| && o.requests[id].Active? {
      RequestPoints(o, id);
      AdmissibleMeans(o.requests[id].active, outcome);
    }
  }

  // ---------------------------------------------------------------------------------------------
  // Creation
  // ---------------------------------------------------------------------------------------------

  /** A request is accepted from a listed sender who pays at least the validity bond in the payment token. */
  lemma CreationSucceedsIff(o: Oracle, env: Env, sender: AccountId, amount: nat, args: NewRequestArgs)
    ensures NewRequest(o, env, sender, amount, args).Ok?
      <==> && !o.paused && |o.configs| > 0
           && args.listing.Listed? && args.wellFormed
           && env.predecessor == o.configs[|o.configs| - 1].paymentToken
           && amount >= o.configs[|o.configs| - 1].validityBond
  {
  }

  /** The token's callback passes each payload on from the current config's token for it, and nothing else. */
  lemma TransferSucceedsIff(o: Oracle, env: Env, sender: AccountId, amount: nat, payload: Payload)
    ensures OnTransfer(o, env, sender, amount, payload).Ok?
      <==> && env.hostOk && |o.configs| > 0
           && match payload
              case NewDataRequest(args) =>
                && env.predecessor == o.configs[|o.configs| - 1].paymentToken
                && NewRequest(o, env, sender, amount, args).Ok?
              case StakeDataRequest(id, outcome) =>
                && env.predecessor == o.configs[|o.configs| - 1].stakeToken
                && StakeRequest(o, env, sender, amount, id, outcome).Ok?
              case Malformed => false
    ensures OnTransfer(o, env, sender, amount, payload).Ok?
      ==> OnTransfer(o, env, sender, amount, payload)
          == match payload
             case NewDataRequest(args) => NewRequest(o, env, sender, amount, args)
             case StakeDataRequest(id, outcome) => StakeRequest(o, env, sender, amount, id, outcome)
             case Malformed => Panic(Rejected)
  {
    hide NewRequest, StakeRequest;
  }

  /** The request as the call asked for it: the sender's, on the current config's terms, the rest is the fee. */
  predicate Records(dr: ActiveRequest, o: Oracle, sender: AccountId, amount: nat, args: NewRequestArgs)
    requires |o.configs| > 0
  {
    var config := o.configs[|o.configs| - 1];
    && dr.id == |o.requests| && dr.globalConfigId == |o.configs| - 1
    && dr.requester == sender
    && dr.outcomes == args.outcomes && dr.dataType == args.dataType && dr.provider == args.provider
    && dr.initialChallengePeriod == args.challengePeriod
    && args.listing == Listed(dr.config.stakeMultiplier)
    && dr.config.validityBond == config.validityBond && dr.config.paidFee + config.validityBond == amount
    && Snapshot(config, dr)
    && dr.windows == [] && !dr.finalArbitratorTriggered
  }

  /** Who created a request by this call, and by what payment. */
  datatype Creation = Creation(sender: AccountId, amount: nat, args: NewRequestArgs)

  function CreationOf(call: Call): Option<Creation> {
    match call
    case DrNew(sender, amount, args) => Some(Creation(sender, amount, args))
    case FtOnTransfer(sender, amount, NewDataRequest(args)) => Some(Creation(sender, amount, args))
    case _ => None
  }

  /** Every successful creation appends one request that records its call, and leaves the others alone. */
  lemma CreationRecords(o: Oracle, env: Env, call: Call)
    requires CreationOf(call).Some? && Execute(o, env, call).Ok?
    ensures var made, effect := CreationOf(call).value, Execute(o, env, call).value;
      && |o.configs| > 0 && env.predecessor == o.configs[|o.configs| - 1].paymentToken
      && effect.transfers == [] && effect.unspent == 0
      && effect.oracle == o.(requests := effect.oracle.requests)
      && |effect.oracle.requests| == |o.requests| + 1
      && effect.oracle.requests[..|o.requests|] == o.requests
      && effect.oracle.requests[|o.requests|].Active?
      && Records(effect.oracle.requests[|o.requests|].active, o, made.sender, made.amount, made.args)
  {
  }

  // ---------------------------------------------------------------------------------------------
  // Governance
  // ---------------------------------------------------------------------------------------------

  /** The current governance account can always append a config, replace the fee and throw the switch. */
  lemma GovernanceSucceedsIff(o: Oracle, env: Env, call: Call)
    requires env.hostOk && (call.SetConfig? || call.UpdateFeeConfig? || call.TogglePause?)
    ensures Execute(o, env, call).Ok?
      <==> && |o.configs| > 0 && env.predecessor == o.configs[|o.configs| - 1].gov
           && (call.SetConfig? ==> call.config.validityBond > 0 && call.config.minResolutionBond > 0)
           && (call.UpdateFeeConfig? ==> call.withinMaximum && call.fee.totalValueStaked < call.fee.fluxMarketCap)
  {
  }

  /** While paused, only governance calls succeed, so until the switch is thrown no request moves. */
  lemma PausedStops(o: Oracle, env: Env, call: Call)
    requires o.paused && Execute(o, env, call).Ok?
    ensures call.SetConfig? || call.UpdateFeeConfig? || call.TogglePause?
    ensures Execute(o, env, call).value.oracle.requests == o.requests
  {
    hide StakedRequest, UnstakedRequest, ClaimedRequest, CanStakeOn, ValidOutcome, ValidOutcomeType;
  }

  lemma {:induction false} PausedRunMovesNothing(o: Oracle, steps: seq<Step>)
    requires o.paused && forall step :: step in steps ==> !step.call.TogglePause?
    ensures After(o, steps).paused && After(o, steps).requests == o.requests
  {
    hide Execute;
    if steps != [] {
      var init, last := steps[..|steps| - 1], steps[|steps| - 1];
      var mid := After(o, init);
      PausedRunMovesNothing(o, init);
      assert last in steps;
      if Execute(mid, last.env, last.call).Ok? {
        PausedStops(mid, last.env, last.call);
        OnlyGovernanceReconfigures(mid, last.env, last.call);
      }
    }
  }

  // ---------------------------------------------------------------------------------------------
  // The validity bond goes back to whoever paid it
  // ---------------------------------------------------------------------------------------------

  /** Everything that settlements of request `id` send along the run. */
  function SettlementTransfers(o: Oracle, steps: seq<Step>, id: nat): seq<Transfer> {
    if steps == [] then []
    else
      var init, last := steps[..|steps| - 1], steps[|steps| - 1];
      var result := Execute(After(o, init), last.env, last.call);
      SettlementTransfers(o, init, id)
      + (if SettlesById(last.call, id) && result.Ok? then result.value.transfers else [])
  }

  /** As long as it is open, a request keeps its requester, its terms and its config's payment token. */
  lemma RequesterStays(o: Oracle, o': Oracle, id: nat)
    requires OracleInv(o) && OracleInv(o') && Evolves(o, o')
    requires id < |o.requests| && o.requests[id].Active?
    requires id < |o'.requests| && o'.requests[id].Active?
    ensures ConfigIdOf(o.requests[id]) < |o.configs| && ConfigIdOf(o'.requests[id]) < |o'.configs|
    ensures o'.requests[id].active.requester == o.requests[id].active.requester
    ensures o'.configs[ConfigIdOf(o'.requests[id])] == o.configs[ConfigIdOf(o.requests[id])]
        .(fee := o'.configs[ConfigIdOf(o'.requests[id])].fee)
  {
    hide ActiveInv;
    assert RequestEvolves(o.requests[id], o'.requests[id]);
    assert RequestInv(o.configs, id, o.requests[id]);
    assert SameTerms(o.configs[ConfigIdOf(o.requests[id])], o'.configs[ConfigIdOf(o.requests[id])]);
  }

  lemma {:induction false} SettlementsPayTheRequester(o: Oracle, steps: seq<Step>, id: nat)
    requires OracleInv(o) && id < |o.requests| && o.requests[id].Active?
    ensures ConfigIdOf(o.requests[id]) < |o.configs|
    ensures var config, requester := o.configs[ConfigIdOf(o.requests[id])], o.requests[id].active.requester;
      SettlementTransfers(o, steps, id)
      == if IsSettled(After(o, steps), id) && Answered(After(o, steps), id) && ProviderSettlements(o, steps, id) == 0
         then [Transfer(config.paymentToken, requester, config.validityBond)] else []
  {
    hide OracleInv, Execute, Evolves, SettlesById;
    RequestPoints(o, id);
    if steps != [] {
      var init, last := steps[..|steps| - 1], steps[|steps| - 1];
      var mid := After(o, init);
      SettlementsPayTheRequester(o, init, id);
      RunKeeps(o, init);
      SettledOnce(o, init, id);
      StaysListed(o, mid, id);
      if Execute(mid, last.env, last.call).Ok? {
        if SettlesById(last.call, id) {
          SettlementIsAdmissible(mid, last.env, last.call, id);
          RequesterStays(o, mid, id);
        } else {
          OthersDoNotSettle(mid, last.env, last.call, id);
          ExecuteKeeps(mid, last.env, last.call);
          if IsSettled(mid, id) { VerdictStays(mid, Execute(mid, last.env, last.call).value.oracle, id); }
        }
      }
    }
  }

  lemma StaysListed(o: Oracle, o': Oracle, id: nat)
    requires Evolves(o, o') && id < |o.requests|
    ensures id < |o'.requests|
  {
  }

  /**
   * Over any run that follows a successful creation, settlement sends at most one transfer: the validity bond,
   * to the sender of the creating call, in the token and the amount of the config of that time, exactly if the
   * request settled on an answer and not through its provider.
   */
  lemma BondGoesBackToItsPayer(o: Oracle, env: Env, call: Call, steps: seq<Step>)
    requires OracleInv(o) && CreationOf(call).Some? && Execute(o, env, call).Ok?
    ensures |o.configs| > 0
    ensures var config, id, o0 := o.configs[|o.configs| - 1], |o.requests|, Execute(o, env, call).value.oracle;
      SettlementTransfers(o0, steps, id)
      == if IsSettled(After(o0, steps), id) && Answered(After(o0, steps), id)
            && ProviderSettlements(o0, steps, id) == 0
         then [Transfer(config.paymentToken, CreationOf(call).value.sender, config.validityBond)] else []
  {
    hide OracleInv, Execute, Evolves, After, SettlementTransfers, ProviderSettlements;
    ExecuteKeeps(o, env, call);
    CreationRecords(o, env, call);
    SettlementsPayTheRequester(Execute(o, env, call).value.oracle, steps, |o.requests|);
  }
}
