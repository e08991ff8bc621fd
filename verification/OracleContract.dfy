/** The oracle contract: its config history, its requests and every call that changes them. */
module OracleContract {
  import opened Prelude
  import opened Outcomes
  import opened ResolutionWindows
  import opened DataRequests

  datatype FeeConfig = FeeConfig(fluxMarketCap: nat, totalValueStaked: nat, resolutionFeePercentage: nat)

  datatype OracleConfig = OracleConfig(
    gov: AccountId,
    finalArbitrator: AccountId,
    paymentToken: AccountId,
    stakeToken: AccountId,
    validityBond: u128,
    defaultChallengeWindowDuration: nat,
    finalArbitratorInvokeAmount: u128,
    minResolutionBond: u128,
    fee: FeeConfig)

  datatype Oracle = Oracle(configs: seq<OracleConfig>, requests: seq<DataRequest>, paused: bool)

  /** What the whitelist says of a requester, and so which stake multiplier its requests carry. */
  datatype Listing = NotListed | Listed(stakeMultiplier: Option<nat>)

  /** `wellFormed` stands for the limits on sources, tags, outcomes and challenge period. */
  datatype NewRequestArgs = NewRequestArgs(
    outcomes: Option<seq<string>>,
    challengePeriod: nat,
    dataType: DataType,
    provider: Option<AccountId>,
    listing: Listing,
    wellFormed: bool)

  datatype Payload =
    | NewDataRequest(args: NewRequestArgs)
    | StakeDataRequest(id: nat, outcome: Outcome)
    | Malformed

  /** The caller, the block's clock, and whether the host's gas and storage checks pass. */
  datatype Env = Env(predecessor: AccountId, now: nat, hostOk: bool)

  /** A promise to move tokens out of the oracle's account. */
  datatype Transfer = Transfer(token: AccountId, receiver: AccountId, amount: nat)

  datatype Effect = Effect(oracle: Oracle, transfers: seq<Transfer>, unspent: nat)

  datatype Call =
    | DrNew(sender: AccountId, amount: u128, args: NewRequestArgs)
    | DrStake(sender: AccountId, amount: u128, id: nat, outcome: Outcome)
    | FtOnTransfer(sender: AccountId, amount: u128, payload: Payload)
    | DrUnstake(id: nat, round: nat, outcome: Outcome, amount: u128)
    | DrClaim(accountId: AccountId, id: nat)
    | DrFinalize(id: nat)
    | DrFinalizeByProvider(id: nat, outcome: Outcome)
    | DrFinalArbitratorFinalize(id: nat, outcome: Outcome)
    | SetConfig(config: OracleConfig)
    | UpdateFeeConfig(fee: FeeConfig, withinMaximum: bool)
    | TogglePause

  // ---------------------------------------------------------------------------------------------
  // What each call does to the stored contract
  // ---------------------------------------------------------------------------------------------

  function CurrentConfig(o: Oracle): Result<OracleConfig> {
    if |o.configs| == 0 then Panic(Underflow) else Ok(o.configs[|o.configs| - 1])
  }

  function ConfigAt(o: Oracle, id: nat): Result<OracleConfig> {
    if id < |o.configs| then Ok(o.configs[id]) else Panic(UnwrapNone)
  }

  function RequestAt(o: Oracle, id: nat): Result<DataRequest> {
    if id < |o.requests| then Ok(o.requests[id]) else Panic(NotFound)
  }

  function ActiveAt(o: Oracle, id: nat): Result<ActiveRequest> {
    var dr :- RequestAt(o, id);
    match dr
    case Active(a) => Ok(a)
    case Finalized(_) => Panic(AlreadyFinalized)
  }

  function FinalizedAt(o: Oracle, id: nat): Result<FinalizedRequest> {
    var dr :- RequestAt(o, id);
    match dr
    case Active(_) => Panic(NotFinalized)
    case Finalized(f) => Ok(f)
  }

  function Replaced(o: Oracle, id: nat, dr: DataRequest): Oracle
    requires id < |o.requests|
  {
    o.(requests := o.requests[id := dr])
  }

  /** A new request copies the current config's terms; what exceeds the validity bond is the fee. */
  function FreshRequest(id: nat, configId: nat, config: OracleConfig, sender: AccountId, paidFee: nat,
                        args: NewRequestArgs): ActiveRequest
    requires args.listing.Listed?
  {
    ActiveRequest(
      id, args.outcomes, sender, [], configId,
      RequestConfig(config.defaultChallengeWindowDuration, config.finalArbitratorInvokeAmount,
                    config.finalArbitrator, config.validityBond, args.listing.stakeMultiplier, paidFee,
                    config.minResolutionBond),
      args.challengePeriod, false, args.dataType, args.provider)
  }

  function NewRequest(o: Oracle, env: Env, sender: AccountId, amount: nat, args: NewRequestArgs): Result<Effect> {
    var current := CurrentConfig(o);
    :- Need(!o.paused, Paused);
    var config :- current;
    :- Need(args.listing.Listed?, Unauthorized);
    :- Need(env.predecessor == config.paymentToken, Unauthorized);
    :- Need(amount >= config.validityBond, BondNotReached);
    :- Need(args.wellFormed, Rejected);
    var dr := FreshRequest(|o.requests|, |o.configs| - 1, config, sender, amount - config.validityBond, args);
    Ok(Effect(o.(requests := o.requests + [Active(dr)]), [], 0))
  }

  function StakeRequest(o: Oracle, env: Env, sender: AccountId, amount: nat, id: nat, outcome: Outcome)
    : Result<Effect>
  {
    var found := ActiveAt(o, id);
    :- Need(!o.paused, Paused);
    var dr :- found;
    var config :- ConfigAt(o, dr.globalConfigId);
    :- Need(env.predecessor == config.stakeToken, Unauthorized);
    :- Need(!dr.finalArbitratorTriggered, ArbitratorInvoked);
    :- CanStakeOn(dr, outcome);
    :- ValidOutcome(dr, outcome);
    :- ValidOutcomeType(dr, outcome);
    var (dr', unspent) :- StakedRequest(dr, sender, outcome, amount, env.now);
    Ok(Effect(Replaced(o, id, Active(dr')), [], unspent))
  }

  /** The token's callback: only the current config's tokens are accepted, each for its own purpose. */
  function OnTransfer(o: Oracle, env: Env, sender: AccountId, amount: nat, payload: Payload): Result<Effect> {
    var current := CurrentConfig(o);
    :- Need(!payload.Malformed?, Rejected);
    var config :- current;
    var effect :-
      if payload.NewDataRequest? then
        if env.predecessor != config.paymentToken then Panic(Unauthorized)
        else NewRequest(o, env, sender, amount, payload.args)
      else
        if env.predecessor != config.stakeToken then Panic(Unauthorized)
        else StakeRequest(o, env, sender, amount, payload.id, payload.outcome);
    :- Need(env.hostOk, Rejected);
    Ok(effect)
  }

  function UnstakeRequest(o: Oracle, env: Env, id: nat, round: nat, outcome: Outcome, amount: nat)
    : Result<Effect>
  {
    var found := RequestAt(o, id);
    :- Need(!o.paused, Paused);
    var dr :- found;
    var dr' :- UnstakedRequest(dr, env.predecessor, round, outcome, amount);
    var config :- ConfigAt(o, ConfigIdOf(dr));
    :- Need(env.hostOk, Rejected);
    Ok(Effect(Replaced(o, id, dr'), [Transfer(config.stakeToken, env.predecessor, amount)], 0))
  }

  function TransferIfAny(token: AccountId, receiver: AccountId, amount: nat): seq<Transfer> {
    if amount > 0 then [Transfer(token, receiver, amount)] else []
  }

  function ClaimRequest(o: Oracle, env: Env, accountId: AccountId, id: nat): Result<Effect> {
    var found := FinalizedAt(o, id);
    :- Need(!o.paused, Paused);
    var dr :- found;
    var (dr', paid) :- ClaimedRequest(dr, accountId);
    var config :- ConfigAt(o, dr.globalConfigId);
    :- Need(env.hostOk, Rejected);
    var transfers := TransferIfAny(config.stakeToken, accountId, paid.stakeTokenPayout)
                     + TransferIfAny(config.paymentToken, accountId, paid.paymentTokenPayout);
    :- Need(transfers != [], NothingToClaim);
    Ok(Effect(Replaced(o, id, Finalized(dr')), transfers, 0))
  }

  /** The validity bond goes back to the requester unless the request turned out to be invalid. */
  function BondReturn(config: OracleConfig, dr: ActiveRequest, outcome: Outcome): seq<Transfer> {
    if outcome.Answer? then [Transfer(config.paymentToken, dr.requester, dr.config.validityBond)] else []
  }

  function FinalizeRequest(o: Oracle, env: Env, id: nat): Result<Effect> {
    var found := ActiveAt(o, id);
    :- Need(!o.paused, Paused);
    var dr :- found;
    :- CanFinalize(dr, env.now);
    var outcome :- FinalOutcome(dr);
    var config :- ConfigAt(o, dr.globalConfigId);
    :- Need(env.hostOk, Rejected);
    Ok(Effect(Replaced(o, id, Finalized(Trimmed(dr, outcome))), BondReturn(config, dr, outcome), 0))
  }

  /** A provider may finalize at any time, and keeps the validity bond in the oracle. */
  function ProviderFinalizeRequest(o: Oracle, env: Env, id: nat, outcome: Outcome): Result<Effect> {
    var found := ActiveAt(o, id);
    :- Need(!o.paused, Paused);
    var dr :- found;
    :- ValidOutcome(dr, outcome);
    :- Need(dr.provider == Some(env.predecessor), Unauthorized);
    :- Need(env.hostOk, Rejected);
    Ok(Effect(Replaced(o, id, Finalized(Trimmed(dr, outcome))), [], 0))
  }

  function ArbitratorFinalizeRequest(o: Oracle, env: Env, id: nat, outcome: Outcome): Result<Effect> {
    var found := ActiveAt(o, id);
    :- Need(!o.paused, Paused);
    var dr :- found;
    :- Need(env.predecessor == dr.config.finalArbitrator, Unauthorized);
    :- ValidOutcome(dr, outcome);
    :- Need(dr.finalArbitratorTriggered, ArbitratorNotInvoked);
    var config :- ConfigAt(o, dr.globalConfigId);
    :- Need(env.hostOk, Rejected);
    Ok(Effect(Replaced(o, id, Finalized(Trimmed(dr, outcome))), BondReturn(config, dr, outcome), 0))
  }

  function WithConfig(o: Oracle, env: Env, config: OracleConfig): Result<Effect> {
    var current :- CurrentConfig(o);
    :- Need(env.predecessor == current.gov, Unauthorized);
    :- Need(config.validityBond > 0 && config.minResolutionBond > 0, Rejected);
    :- Need(env.hostOk, Rejected);
    Ok(Effect(o.(configs := o.configs + [config]), [], 0))
  }

  /** `withinMaximum` is the comparison with the SDK's largest resolution fee percentage. */
  function WithFee(o: Oracle, env: Env, fee: FeeConfig, withinMaximum: bool): Result<Effect> {
    var current :- CurrentConfig(o);
    :- Need(env.predecessor == current.gov, Unauthorized);
    :- Need(fee.totalValueStaked < fee.fluxMarketCap, Rejected);
    :- Need(withinMaximum, Rejected);
    :- Need(env.hostOk, Rejected);
    Ok(Effect(o.(configs := o.configs[|o.configs| - 1 := current.(fee := fee)]), [], 0))
  }

  function PauseToggled(o: Oracle, env: Env): Result<Effect> {
    var current :- CurrentConfig(o);
    :- Need(env.predecessor == current.gov, Unauthorized);
    Ok(Effect(o.(paused := !o.paused), [], 0))
  }

  function Execute(o: Oracle, env: Env, call: Call): Result<Effect> {
    match call
    case DrNew(sender, amount, args) => NewRequest(o, env, sender, amount, args)
    case DrStake(sender, amount, id, outcome) => StakeRequest(o, env, sender, amount, id, outcome)
    case FtOnTransfer(sender, amount, payload) => OnTransfer(o, env, sender, amount, payload)
    case DrUnstake(id, round, outcome, amount) => UnstakeRequest(o, env, id, round, outcome, amount)
    case DrClaim(accountId, id) => ClaimRequest(o, env, accountId, id)
    case DrFinalize(id) => FinalizeRequest(o, env, id)
    case DrFinalizeByProvider(id, outcome) => ProviderFinalizeRequest(o, env, id, outcome)
    case DrFinalArbitratorFinalize(id, outcome) => ArbitratorFinalizeRequest(o, env, id, outcome)
    case SetConfig(config) => WithConfig(o, env, config)
    case UpdateFeeConfig(fee, withinMaximum) => WithFee(o, env, fee, withinMaximum)
    case TogglePause => PauseToggled(o, env)
  }

  // ---------------------------------------------------------------------------------------------
  // The contract under change
  // ---------------------------------------------------------------------------------------------

  /** The call's result `r`, its transfers and the new state are those of `effect`; a panic changes nothing. */
  ghost predicate Follows(before: Oracle, effect: Result<Effect>, after: Oracle, transfers: seq<Transfer>,
                          r: Result<nat>) {
    match effect
    case Ok(e) => r == Ok(e.unspent) && transfers == e.transfers && after == e.oracle
    case Panic(error) => r == Panic(error) && transfers == [] && after == before
  }

  class Contract {
    var configs: seq<OracleConfig>
    var dataRequests: seq<DataRequest>
    var paused: bool

    function Stored(): Oracle
      reads this
    {
      Oracle(configs, dataRequests, paused)
    }

    constructor (config: OracleConfig)
      ensures Stored() == Oracle([config], [], false)
    {
      configs, dataRequests, paused := [config], [], false;
    }

    method DrNew(env: Env, sender: AccountId, amount: nat, args: NewRequestArgs)
      returns (transfers: seq<Transfer>, r: Result<nat>)
      modifies this`dataRequests
      ensures Follows(old(Stored()), NewRequest(old(Stored()), env, sender, amount, args), Stored(), transfers, r)
    {
      transfers := [];
      if paused { return [], Panic(Paused); }
      if |configs| == 0 { return [], Panic(Underflow); }
      var config := configs[|configs| - 1];
      if args.listing.NotListed? { return [], Panic(Unauthorized); }
      if env.predecessor != config.paymentToken { return [], Panic(Unauthorized); }
      if amount < config.validityBond { return [], Panic(BondNotReached); }
      if !args.wellFormed { return [], Panic(Rejected); }
      var paidFee := amount - config.validityBond;
      var dr := FreshRequest(|dataRequests|, |configs| - 1, config, sender, paidFee, args);
      dataRequests := dataRequests + [Active(dr)];
      return [], Ok(0);
    }

    method DrStake(env: Env, sender: AccountId, amount: nat, id: nat, outcome: Outcome)
      returns (transfers: seq<Transfer>, r: Result<nat>)
      modifies this`dataRequests
      ensures Follows(old(Stored()), StakeRequest(old(Stored()), env, sender, amount, id, outcome), Stored(),
                      transfers, r)
    {
      if paused { return [], Panic(Paused); }
      var found := ActiveAt(Stored(), id);
      if found.Panic? { return [], Panic(found.error); }
      var dr := new ActiveDataRequest.Load(found.value);
      if found.value.globalConfigId >= |configs| { return [], Panic(UnwrapNone); }
      var config := configs[found.value.globalConfigId];
      if env.predecessor != config.stakeToken { return [], Panic(Unauthorized); }
      if dr.finalArbitratorTriggered { return [], Panic(ArbitratorInvoked); }
      var guard := CanStakeOn(found.value, outcome);
      if guard.Fail? { return [], Panic(guard.error); }
      guard := ValidOutcome(found.value, outcome);
      if guard.Fail? { return [], Panic(guard.error); }
      guard := ValidOutcomeType(found.value, outcome);
      if guard.Fail? { return [], Panic(guard.error); }

      var unspent := dr.Stake(sender, outcome, amount, env.now);
      if unspent.Panic? { return [], unspent; }
      dataRequests := dataRequests[id := Active(dr.Stored())];
      return [], unspent;
    }

    method FtOnTransfer(env: Env, sender: AccountId, amount: nat, payload: Payload)
      returns (transfers: seq<Transfer>, r: Result<nat>)
      modifies this`dataRequests
      ensures Follows(old(Stored()), OnTransfer(old(Stored()), env, sender, amount, payload), Stored(), transfers, r)
    {
      var before := dataRequests;
      if payload.Malformed? { return [], Panic(Rejected); }
      if |configs| == 0 { return [], Panic(Underflow); }
      var config := configs[|configs| - 1];
      match payload {
        case NewDataRequest(args) =>
          if env.predecessor != config.paymentToken { return [], Panic(Unauthorized); }
          transfers, r := DrNew(env, sender, amount, args);
        case StakeDataRequest(id, outcome) =>
          if env.predecessor != config.stakeToken { return [], Panic(Unauthorized); }
          transfers, r := DrStake(env, sender, amount, id, outcome);
        case Malformed =>
      }
      if r.Ok? && !env.hostOk {
        // The storage charge panics after the call has written: the host rolls the writes back.
        dataRequests := before;
        return [], Panic(Rejected);
      }
    }

    method DrUnstake(env: Env, id: nat, round: nat, outcome: Outcome, amount: nat)
      returns (transfers: seq<Transfer>, r: Result<nat>)
      modifies this`dataRequests
      ensures Follows(old(Stored()), UnstakeRequest(old(Stored()), env, id, round, outcome, amount), Stored(),
                      transfers, r)
    {
      if paused { return [], Panic(Paused); }
      if id >= |dataRequests| { return [], Panic(NotFound); }
      var dr := dataRequests[id];
      var windows := WindowsOf(dr);
      if round >= |windows| { return [], Panic(NotFound); }
      var window := new ResolutionWindow.Load(windows[round]);
      var unstaked := window.Unstake(env.predecessor, outcome, amount);
      if unstaked.Panic? { return [], unstaked; }
      if ConfigIdOf(dr) >= |configs| { return [], Panic(UnwrapNone); }
      var config := configs[ConfigIdOf(dr)];
      if !env.hostOk { return [], Panic(Rejected); }
      // The window's maps live in storage under their own keys, so its changes need no explicit replace.
      dataRequests := dataRequests[id := WithWindows(dr, windows[round := window.Stored()])];
      return [Transfer(config.stakeToken, env.predecessor, unstaked.value)], Ok(0);
    }

    method DrClaim(env: Env, accountId: AccountId, id: nat)
      returns (transfers: seq<Transfer>, r: Result<nat>)
      modifies this`dataRequests
      ensures Follows(old(Stored()), ClaimRequest(old(Stored()), env, accountId, id), Stored(), transfers, r)
    {
      if paused { return [], Panic(Paused); }
      var found := FinalizedAt(Stored(), id);
      if found.Panic? { return [], Panic(found.error); }
      var dr := new FinalizedDataRequest.Load(found.value);
      var paid := dr.Claim(accountId);
      if paid.Panic? { return [], Panic(paid.error); }
      if found.value.globalConfigId >= |configs| { return [], Panic(UnwrapNone); }
      var config := configs[found.value.globalConfigId];
      if !env.hostOk { return [], Panic(Rejected); }

      transfers := [];
      if paid.value.stakeTokenPayout > 0 {
        transfers := [Transfer(config.stakeToken, accountId, paid.value.stakeTokenPayout)];
      }
      if paid.value.paymentTokenPayout > 0 {
        transfers := transfers + [Transfer(config.paymentToken, accountId, paid.value.paymentTokenPayout)];
      } else if transfers == [] {
        return [], Panic(NothingToClaim);
      }
      dataRequests := dataRequests[id := Finalized(dr.Stored())];
      return transfers, Ok(0);
    }

    method DrFinalize(env: Env, id: nat) returns (transfers: seq<Transfer>, r: Result<nat>)
      modifies this`dataRequests
      ensures Follows(old(Stored()), FinalizeRequest(old(Stored()), env, id), Stored(), transfers, r)
    {
      if paused { return [], Panic(Paused); }
      var found := ActiveAt(Stored(), id);
      if found.Panic? { return [], Panic(found.error); }
      var dr := found.value;
      var guard := CanFinalize(dr, env.now);
      if guard.Fail? { return [], Panic(guard.error); }
      var outcome := FinalOutcome(dr);
      if outcome.Panic? { return [], Panic(outcome.error); }
      if dr.globalConfigId >= |configs| { return [], Panic(UnwrapNone); }
      var config := configs[dr.globalConfigId];
      var fdr := Trimmed(dr, outcome.value);
      transfers := BondReturn(config, dr, outcome.value);
      if !env.hostOk { return [], Panic(Rejected); }
      dataRequests := dataRequests[id := Finalized(fdr)];
      return transfers, Ok(0);
    }

    method DrFinalizeByProvider(env: Env, id: nat, outcome: Outcome)
      returns (transfers: seq<Transfer>, r: Result<nat>)
      modifies this`dataRequests
      ensures Follows(old(Stored()), ProviderFinalizeRequest(old(Stored()), env, id, outcome), Stored(), transfers, r)
    {
      if paused { return [], Panic(Paused); }
      var found := ActiveAt(Stored(), id);
      if found.Panic? { return [], Panic(found.error); }
      var dr := found.value;
      var guard := ValidOutcome(dr, outcome);
      if guard.Fail? { return [], Panic(guard.error); }
      if dr.provider != Some(env.predecessor) { return [], Panic(Unauthorized); }
      if !env.hostOk { return [], Panic(Rejected); }
      dataRequests := dataRequests[id := Finalized(Trimmed(dr, outcome))];
      return [], Ok(0);
    }

    method DrFinalArbitratorFinalize(env: Env, id: nat, outcome: Outcome)
      returns (transfers: seq<Transfer>, r: Result<nat>)
      modifies this`dataRequests
      ensures Follows(old(Stored()), ArbitratorFinalizeRequest(old(Stored()), env, id, outcome), Stored(), transfers, r)
    {
      if paused { return [], Panic(Paused); }
      var found := ActiveAt(Stored(), id);
      if found.Panic? { return [], Panic(found.error); }
      var dr := found.value;
      if env.predecessor != dr.config.finalArbitrator { return [], Panic(Unauthorized); }
      var guard := ValidOutcome(dr, outcome);
      if guard.Fail? { return [], Panic(guard.error); }
      if !dr.finalArbitratorTriggered { return [], Panic(ArbitratorNotInvoked); }
      if dr.globalConfigId >= |configs| { return [], Panic(UnwrapNone); }
      var config := configs[dr.globalConfigId];
      if !env.hostOk { return [], Panic(Rejected); }
      dataRequests := dataRequests[id := Finalized(Trimmed(dr, outcome))];
      return BondReturn(config, dr, outcome), Ok(0);
    }

    method SetConfig(env: Env, config: OracleConfig) returns (transfers: seq<Transfer>, r: Result<nat>)
      modifies this`configs
      ensures Follows(old(Stored()), WithConfig(old(Stored()), env, config), Stored(), transfers, r)
    {
      if |configs| == 0 { return [], Panic(Underflow); }
      if env.predecessor != configs[|configs| - 1].gov { return [], Panic(Unauthorized); }
      if config.validityBond == 0 || config.minResolutionBond == 0 { return [], Panic(Rejected); }
      if !env.hostOk { return [], Panic(Rejected); }
      configs := configs + [config];
      return [], Ok(0);
    }

    method UpdateFeeConfig(env: Env, fee: FeeConfig, withinMaximum: bool)
      returns (transfers: seq<Transfer>, r: Result<nat>)
      modifies this`configs
      ensures Follows(old(Stored()), WithFee(old(Stored()), env, fee, withinMaximum), Stored(), transfers, r)
    {
      if |configs| == 0 { return [], Panic(Underflow); }
      var updated := configs[|configs| - 1];
      if env.predecessor != updated.gov { return [], Panic(Unauthorized); }
      if fee.totalValueStaked >= fee.fluxMarketCap { return [], Panic(Rejected); }
      if !withinMaximum { return [], Panic(Rejected); }
      if !env.hostOk { return [], Panic(Rejected); }
      configs := configs[|configs| - 1 := updated.(fee := fee)];
      return [], Ok(0);
    }

    method TogglePause(env: Env) returns (transfers: seq<Transfer>, r: Result<nat>)
      modifies this`paused
      ensures Follows(old(Stored()), PauseToggled(old(Stored()), env), Stored(), transfers, r)
    {
      if |configs| == 0 { return [], Panic(Underflow); }
      if env.predecessor != configs[|configs| - 1].gov { return [], Panic(Unauthorized); }
      paused := !paused;
      return [], Ok(0);
    }
  }
}
