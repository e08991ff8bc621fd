/** A data request: its chain of resolution windows, its guards, its finalization and its claims. */
module DataRequests {
  import opened Prelude
  import opened Outcomes
  import opened Arithmetic
  import opened ResolutionWindows

  const U16_RANGE: nat := 0x1_0000

  /** The part of the oracle's config that is copied into a request when it is created. */
  datatype RequestConfig = RequestConfig(
    defaultChallengeWindowDuration: nat,
    finalArbitratorInvokeAmount: nat,
    finalArbitrator: AccountId,
    validityBond: nat,
    stakeMultiplier: Option<nat>,
    paidFee: nat,
    minResolutionBond: nat)

  datatype ActiveRequest = ActiveRequest(
    id: nat,
    outcomes: Option<seq<string>>,
    requester: AccountId,
    windows: seq<Window>,
    globalConfigId: nat,
    config: RequestConfig,
    initialChallengePeriod: nat,
    finalArbitratorTriggered: bool,
    dataType: DataType,
    provider: Option<AccountId>)

  datatype FinalizedRequest = FinalizedRequest(
    id: nat,
    finalizedOutcome: Outcome,
    windows: seq<Window>,
    globalConfigId: nat,
    paidFee: nat)

  datatype DataRequest =
    | Active(active: ActiveRequest)
    | Finalized(finalized: FinalizedRequest)

  datatype ClaimRes = ClaimRes(paymentTokenPayout: nat, stakeTokenPayout: nat)

  // ---------------------------------------------------------------------------------------------
  // Guards
  // ---------------------------------------------------------------------------------------------

  /** With a list of outcomes only its strings, or Invalid, may be answered. */
  function ValidOutcome(dr: ActiveRequest, outcome: Outcome): Check {
    match dr.outcomes
    case None => Pass
    case Some(listed) =>
      match outcome
      case Invalid => Pass
      case Answer(Text(text)) => Need(text in listed, IncompatibleOutcome)
      case Answer(Number(_, _, _)) => Fail(IncompatibleOutcome)
  }

  function ValidOutcomeType(dr: ActiveRequest, outcome: Outcome): Check {
    match outcome
    case Invalid => Pass
    case Answer(Text(_)) => Need(dr.dataType.TextData?, IncompatibleOutcome)
    case Answer(Number(_, multiplier, _)) => Need(dr.dataType == NumberData(multiplier), IncompatibleOutcome)
  }

  /** The outcome bonded in the previous window cannot be staked on again right away. */
  function CanStakeOn(dr: ActiveRequest, outcome: Outcome): Check {
    if |dr.windows| <= 1 then Pass
    else
      match dr.windows[|dr.windows| - 2].bonded
      case None => Fail(UnwrapNone)
      case Some(previous) => Need(previous != outcome, IncompatibleOutcome)
  }

  function CanFinalize(dr: ActiveRequest, now: nat): Check {
    if |dr.windows| == 0 then Fail(NoBondedOutcome)
    else if dr.finalArbitratorTriggered then Fail(ArbitratorInvoked)
    else Need(now >= dr.windows[|dr.windows| - 1].endTime, WindowStillOpen)
  }

  function FinalOutcome(dr: ActiveRequest): Result<Outcome> {
    if |dr.windows| < 2 then Panic(NoBondedOutcome)
    else
      match dr.windows[|dr.windows| - 2].bonded
      case None => Panic(UnwrapNone)
      case Some(outcome) => Ok(outcome)
  }

  function ResolutionBond(config: RequestConfig): Result<nat> {
    var baseBond := if config.paidFee >= config.validityBond then config.paidFee else config.validityBond;
    var bond := if baseBond < config.minResolutionBond then config.minResolutionBond else baseBond;
    MultiplyStake(bond, config.stakeMultiplier)
  }

  // ---------------------------------------------------------------------------------------------
  // What each operation does to the stored request
  // ---------------------------------------------------------------------------------------------

  function FirstWindow(dr: ActiveRequest, now: nat): Result<Window> {
    var bond :- ResolutionBond(dr.config);
    Opened(0, bond, dr.initialChallengePeriod, now)
  }

  function ChallengePeriod(dr: ActiveRequest, round: nat): nat {
    if round <= 1 then dr.initialChallengePeriod else dr.config.defaultChallengeWindowDuration
  }

  function LastWindow(dr: ActiveRequest, now: nat): Result<Window> {
    if |dr.windows| == 0 then FirstWindow(dr, now) else Ok(dr.windows[|dr.windows| - 1])
  }

  function WithLastWindow(windows: seq<Window>, w: Window): seq<Window> {
    if |windows| == 0 then [w] else windows[|windows| - 1 := w]
  }

  /** A stake goes to the last window; if it bonds, either the arbitrator takes over or a window opens. */
  function StakedRequest(dr: ActiveRequest, sender: AccountId, outcome: Outcome, amount: nat, now: nat)
    : Result<(ActiveRequest, nat)>
  {
    var last :- LastWindow(dr, now);
    var (w, unspent) :- Staked(last, sender, outcome, amount);
    var windows := WithLastWindow(dr.windows, w);
    if w.bonded.None? then
      Ok((dr.(windows := windows), unspent))
    else if dr.finalArbitratorTriggered || w.bondSize >= dr.config.finalArbitratorInvokeAmount then
      Ok((dr.(windows := windows, finalArbitratorTriggered := true), unspent))
    else
      var next :- Opened(|windows| % U16_RANGE, w.bondSize, ChallengePeriod(dr, |windows|), now);
      Ok((dr.(windows := windows + [next]), unspent))
  }

  function WindowsOf(dr: DataRequest): seq<Window> {
    match dr
    case Active(a) => a.windows
    case Finalized(f) => f.windows
  }

  function WithWindows(dr: DataRequest, windows: seq<Window>): DataRequest {
    match dr
    case Active(a) => Active(a.(windows := windows))
    case Finalized(f) => Finalized(f.(windows := windows))
  }

  function ConfigIdOf(dr: DataRequest): nat {
    match dr
    case Active(a) => a.globalConfigId
    case Finalized(f) => f.globalConfigId
  }

  /** Unstaking writes through the window's storage maps, on an active and on a finalized request. */
  function UnstakedRequest(dr: DataRequest, sender: AccountId, round: nat, outcome: Outcome, amount: nat)
    : Result<DataRequest>
  {
    var windows := WindowsOf(dr);
    :- Need(round < |windows|, NotFound);
    var w :- Unstaked(windows[round], sender, outcome, amount);
    Ok(WithWindows(dr, windows[round := w]))
  }

  function Trimmed(dr: ActiveRequest, outcome: Outcome): FinalizedRequest {
    FinalizedRequest(dr.id, outcome, dr.windows, dr.globalConfigId, dr.config.paidFee)
  }

  /** Total bond of the windows that decided for the final outcome. */
  function CorrectBonds(windows: seq<Window>, finalOutcome: Outcome): nat {
    if windows == [] then 0
    else
      var last := windows[|windows| - 1];
      CorrectBonds(windows[..|windows| - 1], finalOutcome)
      + (if IsCorrect(last, finalOutcome) then last.bondSize else 0)
  }

  /** Total bond of the windows that decided for another outcome. */
  function IncorrectBonds(windows: seq<Window>, finalOutcome: Outcome): nat {
    if windows == [] then 0
    else
      var last := windows[|windows| - 1];
      IncorrectBonds(windows[..|windows| - 1], finalOutcome)
      + (if IsIncorrect(last, finalOutcome) then last.bondSize else 0)
  }

  /** What one user still has on the final outcome in the windows that decided for it. */
  function CorrectStake(windows: seq<Window>, finalOutcome: Outcome, user: AccountId): nat {
    if windows == [] then 0
    else
      var last := windows[|windows| - 1];
      CorrectStake(windows[..|windows| - 1], finalOutcome, user)
      + (if IsCorrect(last, finalOutcome) then last.UserOn(user, finalOutcome) else 0)
  }

  function ClaimedWindows(windows: seq<Window>, user: AccountId, finalOutcome: Outcome): seq<Window> {
    seq(|windows|, i requires 0 <= i < |windows| => Claimed(windows[i], user, finalOutcome))
  }

  function ShareOrZero(stake: nat, pot: nat, total: nat): Result<nat> {
    if total == 0 then Ok(0) else CalcProduct(stake, pot, total)
  }

  function ClaimedRequest(dr: FinalizedRequest, user: AccountId): Result<(FinalizedRequest, ClaimRes)> {
    var correct := CorrectBonds(dr.windows, dr.finalizedOutcome);
    var incorrect := IncorrectBonds(dr.windows, dr.finalizedOutcome);
    var stake := CorrectStake(dr.windows, dr.finalizedOutcome, user);
    :- Need(correct <= U128_MAX && incorrect <= U128_MAX && stake <= U128_MAX, Overflow);
    var stakeProfit :- ShareOrZero(stake, incorrect, correct);
    var feeProfit :- ShareOrZero(stake, dr.paidFee, correct);
    :- Need(stake + stakeProfit <= U128_MAX, Overflow);
    Ok((dr.(windows := ClaimedWindows(dr.windows, user, dr.finalizedOutcome)),
        ClaimRes(feeProfit, stake + stakeProfit)))
  }

  lemma {:induction false} PrefixAtMost(windows: seq<Window>, k: nat, finalOutcome: Outcome, user: AccountId)
    requires k <= |windows|
    ensures CorrectBonds(windows[..k], finalOutcome) <= CorrectBonds(windows, finalOutcome)
    ensures IncorrectBonds(windows[..k], finalOutcome) <= IncorrectBonds(windows, finalOutcome)
    ensures CorrectStake(windows[..k], finalOutcome, user) <= CorrectStake(windows, finalOutcome, user)
  {
    if k == |windows| {
      assert windows[..k] == windows;
    } else {
      PrefixAtMost(windows[..|windows| - 1], k, finalOutcome, user);
      assert windows[..|windows| - 1][..k] == windows[..k];
    }
  }

  lemma NoWindows(windows: seq<Window>, finalOutcome: Outcome, user: AccountId)
    ensures CorrectBonds(windows[..0], finalOutcome) == 0
    ensures IncorrectBonds(windows[..0], finalOutcome) == 0
    ensures CorrectStake(windows[..0], finalOutcome, user) == 0
  {
  }

  lemma NextPrefix(windows: seq<Window>, k: nat, finalOutcome: Outcome, user: AccountId)
    requires k < |windows|
    ensures var w := windows[k];
      && CorrectBonds(windows[..k + 1], finalOutcome)
          == CorrectBonds(windows[..k], finalOutcome) + (if IsCorrect(w, finalOutcome) then w.bondSize else 0)
      && IncorrectBonds(windows[..k + 1], finalOutcome)
          == IncorrectBonds(windows[..k], finalOutcome) + (if IsIncorrect(w, finalOutcome) then w.bondSize else 0)
      && CorrectStake(windows[..k + 1], finalOutcome, user)
          == CorrectStake(windows[..k], finalOutcome, user)
             + (if IsCorrect(w, finalOutcome) then w.UserOn(user, finalOutcome) else 0)
  {
    assert windows[..k + 1][..k] == windows[..k];
  }

  // ---------------------------------------------------------------------------------------------
  // The requests under change, as the contract holds them
  // ---------------------------------------------------------------------------------------------

  class ActiveDataRequest {
    const origin: ActiveRequest
    var windows: seq<Window>
    var finalArbitratorTriggered: bool

    function Stored(): ActiveRequest
      reads this
    {
      origin.(windows := windows, finalArbitratorTriggered := finalArbitratorTriggered)
    }

    constructor Load(dr: ActiveRequest)
      ensures Stored() == dr
    {
      origin, windows, finalArbitratorTriggered := dr, dr.windows, dr.finalArbitratorTriggered;
    }

    method Stake(sender: AccountId, outcome: Outcome, amount: nat, now: nat) returns (r: Result<nat>)
      modifies this
      ensures match StakedRequest(old(Stored()), sender, outcome, amount, now)
              case Ok((dr, unspent)) => Stored() == dr && r == Ok(unspent)
              case Panic(e) => r == Panic(e)
    {
      hide Staked, Opened, ResolutionBond;
      var loaded: Window;
      if |windows| == 0 {
        var bond := ResolutionBond(origin.config);
        if bond.Panic? { return Panic(bond.error); }
        var first := Opened(0, bond.value, origin.initialChallengePeriod, now);
        if first.Panic? { return Panic(first.error); }
        loaded := first.value;
      } else {
        loaded := windows[|windows| - 1];
      }
      var window := new ResolutionWindow.Load(loaded);
      var staked := window.Stake(sender, outcome, amount);
      if staked.Panic? { return staked; }

      if |windows| == 0 {
        windows := [window.Stored()];
      } else {
        windows := windows[|windows| - 1 := window.Stored()];
      }

      if window.bondedOutcome.Some? {
        var invoked := InvokeFinalArbitrator(window.bondSize);
        if !invoked {
          var duration := origin.config.defaultChallengeWindowDuration;
          if |windows| == 1 {
            duration := origin.initialChallengePeriod;
          }
          var next := Opened(|windows| % U16_RANGE, window.bondSize, duration, now);
          if next.Panic? { return Panic(next.error); }
          windows := windows + [next.value];
        }
      }
      return staked;
    }

    /** The trigger latches: once invoked it stays so. */
    method InvokeFinalArbitrator(bondSize: nat) returns (invoked: bool)
      modifies this`finalArbitratorTriggered
      ensures finalArbitratorTriggered
        == (old(finalArbitratorTriggered) || bondSize >= origin.config.finalArbitratorInvokeAmount)
      ensures invoked == finalArbitratorTriggered
    {
      if bondSize >= origin.config.finalArbitratorInvokeAmount {
        finalArbitratorTriggered := true;
      }
      return finalArbitratorTriggered;
    }
  }

  class FinalizedDataRequest {
    const origin: FinalizedRequest
    var windows: seq<Window>

    function Stored(): FinalizedRequest
      reads this
    {
      origin.(windows := windows)
    }

    constructor Load(dr: FinalizedRequest)
      ensures Stored() == dr
    {
      origin, windows := dr, dr.windows;
    }

    /** Walks all windows, takes the claimant's entries and adds up bonds and stake. */
    method Claim(accountId: AccountId) returns (r: Result<ClaimRes>)
      modifies this
      ensures match ClaimedRequest(old(Stored()), accountId)
              case Ok((dr, paid)) => Stored() == dr && r == Ok(paid)
              case Panic(e) => r == Panic(e)
    {
      hide CorrectBonds, IncorrectBonds, CorrectStake;
      var finalOutcome := origin.finalizedOutcome;
      var totalCorrectStaked, totalIncorrectStaked, userCorrectStake := 0, 0, 0;
      ghost var before := windows;
      var round := 0;
      NoWindows(before, finalOutcome, accountId);
      while round < |windows|
        invariant 0 <= round <= |windows| == |before|
        invariant totalCorrectStaked == CorrectBonds(before[..round], finalOutcome) <= U128_MAX
        invariant totalIncorrectStaked == IncorrectBonds(before[..round], finalOutcome) <= U128_MAX
        invariant userCorrectStake == CorrectStake(before[..round], finalOutcome, accountId) <= U128_MAX
        invariant forall i :: 0 <= i < round ==> windows[i] == Claimed(before[i], accountId, finalOutcome)
        invariant forall i :: round <= i < |before| ==> windows[i] == before[i]
      {
        var window := new ResolutionWindow.Load(windows[round]);
        var stakeState := window.ClaimFor(accountId, finalOutcome);
        NextPrefix(before, round, finalOutcome, accountId);
        PrefixAtMost(before, round + 1, finalOutcome, accountId);
        match stakeState {
          case Correct(bondedStake, userStake) =>
            totalCorrectStaked := totalCorrectStaked + bondedStake;
            userCorrectStake := userCorrectStake + userStake;
            if totalCorrectStaked > U128_MAX || userCorrectStake > U128_MAX { return Panic(Overflow); }
          case Incorrect(bondedStake) =>
            totalIncorrectStaked := totalIncorrectStaked + bondedStake;
            if totalIncorrectStaked > U128_MAX { return Panic(Overflow); }
          case NoResult =>
        }
        windows := windows[round := window.Stored()];
        round := round + 1;
      }
      assert before[..round] == before;
      assert windows == ClaimedWindows(before, accountId, finalOutcome);

      var stakeProfit := ShareOrZero(userCorrectStake, totalIncorrectStaked, totalCorrectStaked);
      if stakeProfit.Panic? { return Panic(stakeProfit.error); }
      var feeProfit := ShareOrZero(userCorrectStake, origin.paidFee, totalCorrectStaked);
      if feeProfit.Panic? { return Panic(feeProfit.error); }
      if userCorrectStake + stakeProfit.value > U128_MAX { return Panic(Overflow); }
      return Ok(ClaimRes(feeProfit.value, userCorrectStake + stakeProfit.value));
    }
  }
}
