/** What the window chain implies: geometric bonds, bounded rounds and guaranteed rewards. */
module Escalation {
  import opened Prelude
  import opened Outcomes
  import opened Arithmetic
  import opened ResolutionWindows
  import opened DataRequests
  import opened Disputes

  function Pow2(n: nat): nat {
    if n == 0 then 1 else 2 * Pow2(n - 1)
  }

  // ---------------------------------------------------------------------------------------------
  // Geometric growth and the bound on rounds
  // ---------------------------------------------------------------------------------------------

  /** Window `i` asks for `2^i` times the first bond. */
  lemma {:induction false} BondsDouble(windows: seq<Window>, i: nat)
    requires Chain(windows) && i < |windows|
    ensures windows[i].bondSize == windows[0].bondSize * Pow2(i)
  {
    if i > 0 {
      BondsDouble(windows, i - 1);
      assert LinkedAt(windows, i);
      assert windows[0].bondSize * (2 * Pow2(i - 1)) == 2 * (windows[0].bondSize * Pow2(i - 1));
    }
  }

  lemma {:induction false} Pow2AtLeast(a: nat, b: nat)
    requires a <= b
    ensures Pow2(a) <= Pow2(b)
  {
    if a < b { Pow2AtLeast(a, b - 1); }
  }

  lemma {:induction false} Pow2Sum(a: nat, b: nat)
    ensures Pow2(a + b) == Pow2(a) * Pow2(b)
  {
    if a > 0 {
      Pow2Sum(a - 1, b);
      DoubleProduct(Pow2(a - 1), Pow2(b));
    }
  }

  lemma DoubleProduct(a: nat, b: nat)
    ensures 2 * (a * b) == (2 * a) * b
  {
  }

  lemma SmallPowers()
    ensures Pow2(4) == 16
  {
    assert Pow2(1) == 2 && Pow2(2) == 4 && Pow2(3) == 8;
  }

  lemma PowersOfTheMachine()
    ensures Pow2(128) == U128_MAX + 1
  {
    SmallPowers();
    hide Pow2;
    Pow2Sum(4, 4);
    Pow2Sum(8, 8);
    Pow2Sum(16, 16);
    Pow2Sum(32, 32);
    Pow2Sum(64, 64);
  }

  /** Window `i` has round `i` and bond `B * 2^(i + 1)`; only the last may be undecided. */
  lemma WindowChain(dr: ActiveRequest, i: nat)
    requires ActiveInv(dr) && i < |dr.windows|
    ensures ResolutionBond(dr.config).Ok?
    ensures dr.windows[i].bondSize == ResolutionBond(dr.config).value * Pow2(i + 1)
    ensures dr.windows[i].round == i % U16_RANGE
    ensures i < |dr.windows| - 1 ==> dr.windows[i].bonded.Some?
    ensures i == |dr.windows| - 1 ==>
      && (dr.windows[i].bonded.Some? <==> dr.finalArbitratorTriggered)
      && (dr.finalArbitratorTriggered ==> dr.windows[i].bondSize >= dr.config.finalArbitratorInvokeAmount)
  {
    hide Books, OnlyAdmissible, Scheduled, ResolutionBond;
    BondsDouble(dr.windows, i);
    var bond := ResolutionBond(dr.config).value;
    assert 2 * bond * Pow2(i) == bond * (2 * Pow2(i));
    if i < |dr.windows| - 1 { assert LinkedAt(dr.windows, i + 1); }
  }

  /** In a chain every window but the first needed a bond of `2^(n - 2)` first bonds below the arbitrator's amount. */
  lemma BondsStayLogarithmic(windows: seq<Window>, invokeAmount: nat)
    requires Chain(windows) && OutbidBelow(windows, invokeAmount) && |windows| >= 2
    ensures windows[0].bondSize * Pow2(|windows| - 2) < invokeAmount
  {
    BondsDouble(windows, |windows| - 2);
  }

  /** A consistent chain on a positive first bond has at most 128 windows, because the last bond fits 128 bits. */
  lemma ShortChain(windows: seq<Window>, settled: Option<Outcome>)
    requires Chain(windows) && Books(windows, settled)
    requires |windows| > 0 ==> windows[0].bondSize > 0
    ensures |windows| <= 128
    ensures forall i :: 0 <= i < |windows| ==> windows[i].round == i
  {
    var n := |windows|;
    if n > 128 {
      hide Window.LiveOn;
      assert Consistent(windows[n - 1], settled);
      BondsDouble(windows, n - 1);
      MulMonotone(1, Pow2(n - 1), windows[0].bondSize, Pow2(n - 1));
      PowersOfTheMachine();
      Pow2AtLeast(128, n - 1);
    }
  }

  /** A second window exists only while the bonds stay below the arbitrator's amount. */
  lemma BondsStayBelowArbitrator(dr: ActiveRequest)
    requires ActiveInv(dr) && |dr.windows| >= 2
    ensures ResolutionBond(dr.config).Ok?
    ensures ResolutionBond(dr.config).value * Pow2(|dr.windows| - 1) < dr.config.finalArbitratorInvokeAmount
  {
    WindowChain(dr, |dr.windows| - 2);
  }

  /** With a positive bond a dispute has at most 128 windows, so the cast of the round loses nothing. */
  lemma RoundsAreBounded(dr: ActiveRequest)
    requires ActiveInv(dr)
    requires |dr.windows| > 0 ==> ResolutionBond(dr.config) != Ok(0)
    ensures |dr.windows| <= 128
    ensures forall i :: 0 <= i < |dr.windows| ==> dr.windows[i].round == i
  {
    hide Chain, Books, OnlyAdmissible, Scheduled, ResolutionBond;
    ShortChain(dr.windows, None);
  }

  /**
   * The two places that unwrap a bonded outcome always find one, so staking is refused only on the outcome
   * the previous window bonded, and a final outcome exists exactly from the second window on.
   */
  lemma UnwrapsNeverFire(dr: ActiveRequest, outcome: Outcome)
    requires ActiveInv(dr)
    ensures CanStakeOn(dr, outcome) != Fail(UnwrapNone)
    ensures FinalOutcome(dr) != Panic(UnwrapNone)
    ensures CanStakeOn(dr, outcome).Pass?
      <==> |dr.windows| <= 1 || dr.windows[|dr.windows| - 2].bonded != Some(outcome)
    ensures FinalOutcome(dr).Ok? <==> |dr.windows| >= 2
  {
    if |dr.windows| > 1 { WindowChain(dr, |dr.windows| - 2); }
  }

  /** The largest of fee, validity bond and minimum bond. */
  function Largest(config: RequestConfig): nat {
    Max(config.paidFee, Max(config.validityBond, config.minResolutionBond))
  }

  /** The bond is the largest of the three amounts, scaled by the multiplier in ten-thousandths, rounded down. */
  lemma ResolutionBondMeans(config: RequestConfig)
    ensures ResolutionBond(config).Ok?
      <==> config.stakeMultiplier.None? || Largest(config) * config.stakeMultiplier.value <= U128_MAX
    ensures ResolutionBond(config).Ok? && config.stakeMultiplier.None?
      ==> ResolutionBond(config).value == Largest(config)
    ensures ResolutionBond(config).Ok? && config.stakeMultiplier.Some?
      ==> var scaled := Largest(config) * config.stakeMultiplier.value;
          var bond := ResolutionBond(config).value;
          bond * 10_000 <= scaled < (bond + 1) * 10_000
  {
  }

  /** A small multiplier rounds a small bond down to nothing, and only then does the bond vanish. */
  lemma BondIsZeroIff(config: RequestConfig)
    requires ResolutionBond(config).Ok?
    ensures ResolutionBond(config).value == 0
      <==> match config.stakeMultiplier
           case None => Largest(config) == 0
           case Some(m) => Largest(config) * m < 10_000
  {
    ResolutionBondMeans(config);
  }

  /** The stake fills the bond below the arbitrator's amount, and the next window does not fit the machine. */
  predicate NextWindowOverflows(dr: ActiveRequest, outcome: Outcome, amount: nat, now: nat)
    requires |dr.windows| > 0
  {
    var last := dr.windows[|dr.windows| - 1];
    && last.On(outcome) + amount >= last.bondSize
    && last.bondSize < dr.config.finalArbitratorInvokeAmount
    && (2 * last.bondSize > U128_MAX || now + ChallengePeriod(dr, |dr.windows|) > U64_MAX)
  }

  /** The resolution bond overflows while it is scaled, or the first or the second window does not fit. */
  predicate FirstWindowsOverflow(dr: ActiveRequest, amount: nat, now: nat) {
    match ResolutionBond(dr.config)
    case Panic(_) => true
    case Ok(bond) =>
      || 2 * bond > U128_MAX
      || now + dr.initialChallengePeriod > U64_MAX
      || (amount >= 2 * bond && 2 * bond < dr.config.finalArbitratorInvokeAmount && 4 * bond > U128_MAX)
  }

  /** Exactly when a stake panics past its guards: on a new request and on a running dispute. */
  lemma StakePanicsIff(dr: ActiveRequest, sender: AccountId, outcome: Outcome, amount: nat, now: nat)
    requires ActiveInv(dr) && StakeGuards(dr, outcome)
    ensures StakedRequest(dr, sender, outcome, amount, now).Panic?
      <==> if |dr.windows| == 0 then FirstWindowsOverflow(dr, amount, now)
           else NextWindowOverflows(dr, outcome, amount, now)
  {
    hide ActiveInv, Admissible, CanStakeOn, ResolutionBond, Staked;
    if |dr.windows| > 0 {
      LaterStakePanicsIff(dr, sender, outcome, amount, now);
    } else if LastWindow(dr, now).Ok? {
      StartedKeeps(dr, now);
      StartedGuards(dr, now, outcome);
      LaterStakePanicsIff(Started(dr, now), sender, outcome, amount, now);
    }
  }

  lemma LaterStakePanicsIff(dr: ActiveRequest, sender: AccountId, outcome: Outcome, amount: nat, now: nat)
    requires ActiveInv(dr) && |dr.windows| > 0 && StakeGuards(dr, outcome)
    ensures StakedRequest(dr, sender, outcome, amount, now).Panic? <==> NextWindowOverflows(dr, outcome, amount, now)
  {
    hide ActiveInv, CanStakeOn, Admissible, Consistent, Staked, ChallengePeriod, TotalLive, Window.Live;
    var last := dr.windows[|dr.windows| - 1];
    LastIsUndecided(dr);
    StakeOnLast(dr, sender, outcome, amount);
    StakeFillsTheBond(last, sender, outcome, amount);
  }

  /** On an undecided window a stake bonds exactly when it reaches the bond. */
  lemma StakeFillsTheBond(w: Window, sender: AccountId, outcome: Outcome, amount: nat)
    requires Consistent(w, None) && w.bonded.None? && Staked(w, sender, outcome, amount).Ok?
    ensures Staked(w, sender, outcome, amount).value.0.bonded.Some? <==> w.On(outcome) + amount >= w.bondSize
  {
    hide Window.LiveOn;
    assert w.On(outcome) <= w.bondSize;
  }

  // ---------------------------------------------------------------------------------------------
  // When escalation is bounded
  // ---------------------------------------------------------------------------------------------

  datatype DisputeCall =
    | StakeCall(sender: AccountId, outcome: Outcome, amount: nat, now: nat)
    | UnstakeCall(sender: AccountId, outcome: Outcome, amount: nat, round: nat)

  /** One call; a panicking call leaves the request as it was. */
  function AfterCall(dr: ActiveRequest, call: DisputeCall): ActiveRequest {
    match call
    case StakeCall(sender, outcome, amount, now) =>
      if !StakeGuards(dr, outcome) then dr
      else
        (match StakedRequest(dr, sender, outcome, amount, now)
         case Ok((dr', _)) => dr'
         case Panic(_) => dr)
    case UnstakeCall(sender, outcome, amount, round) =>
      match UnstakedRequest(Active(dr), sender, round, outcome, amount)
      case Ok(Active(dr')) => dr'
      case _ => dr
  }

  function AfterCalls(dr: ActiveRequest, calls: seq<DisputeCall>): ActiveRequest {
    if calls == [] then dr else AfterCall(AfterCalls(dr, calls[..|calls| - 1]), calls[|calls| - 1])
  }

  lemma AfterCallKeeps(dr: ActiveRequest, call: DisputeCall)
    requires ActiveInv(dr)
    ensures ActiveInv(AfterCall(dr, call))
    ensures AfterCall(dr, call).config == dr.config
    ensures forall o :: Admissible(AfterCall(dr, call), o) == Admissible(dr, o)
    ensures AfterCall(dr, call).initialChallengePeriod == dr.initialChallengePeriod
  {
    hide ActiveInv, Admissible, Staked, Opened, ResolutionBond;
    SameRules(dr, AfterCall(dr, call));
    match call {
      case StakeCall(sender, outcome, amount, now) =>
        if StakeGuards(dr, outcome) && StakedRequest(dr, sender, outcome, amount, now).Ok? {
          StakeKeepsActive(dr, sender, outcome, amount, now);
        }
      case UnstakeCall(sender, outcome, amount, round) =>
        if UnstakedRequest(Active(dr), sender, round, outcome, amount).Ok? {
          UnstakeKeepsActive(dr, sender, round, outcome, amount);
        }
    }
  }

  lemma {:induction false} AfterCallsKeep(dr: ActiveRequest, calls: seq<DisputeCall>)
    requires ActiveInv(dr)
    ensures ActiveInv(AfterCalls(dr, calls))
    ensures AfterCalls(dr, calls).config == dr.config
    ensures forall o :: Admissible(AfterCalls(dr, calls), o) == Admissible(dr, o)
    ensures AfterCalls(dr, calls).initialChallengePeriod == dr.initialChallengePeriod
  {
    hide ActiveInv, Admissible, AfterCall;
    if calls != [] {
      AfterCallsKeep(dr, calls[..|calls| - 1]);
      AfterCallKeeps(AfterCalls(dr, calls[..|calls| - 1]), calls[|calls| - 1]);
    }
  }

  /** At time `now` the clock has room for every window that may still open. */
  predicate ClockFits(dr: ActiveRequest, now: nat) {
    && now + dr.config.defaultChallengeWindowDuration <= U64_MAX
    && (|dr.windows| <= 1 ==> now + dr.initialChallengePeriod <= U64_MAX)
  }

  lemma ZeroBonds(dr: ActiveRequest)
    requires ActiveInv(dr) && ResolutionBond(dr.config) == Ok(0)
    ensures forall i :: 0 <= i < |dr.windows| ==> dr.windows[i].bondSize == 0
  {
    forall i | 0 <= i < |dr.windows| ensures dr.windows[i].bondSize == 0 {
      WindowChain(dr, i);
    }
  }

  /** On a zero bond a stake of nothing bonds its outcome and opens one more window. */
  lemma EmptyStakeBonds(dr: ActiveRequest, sender: AccountId, outcome: Outcome, now: nat)
    requires ActiveInv(dr) && ClockFits(dr, now) && ResolutionBond(dr.config) == Ok(0)
    requires dr.config.finalArbitratorInvokeAmount > 0
    requires StakeGuards(dr, outcome)
    ensures StakedRequest(dr, sender, outcome, 0, now).Ok?
    ensures var dr' := StakedRequest(dr, sender, outcome, 0, now).value.0;
      && !dr'.finalArbitratorTriggered && |dr'.windows| > |dr.windows|
      && ClockFits(dr', now)
  {
    hide ActiveInv, Admissible, ResolutionBond, CanStakeOn;
    var last := LastWindow(dr, now).value;
    ZeroLastWindow(dr, sender, outcome, now);
    var w := Staked(last, sender, outcome, 0).value.0;
    assert w.bonded == Some(outcome) && w.bondSize == 0;
    var windows := WithLastWindow(dr.windows, w);
    assert Opened(|windows| % U16_RANGE, 0, ChallengePeriod(dr, |windows|), now).Ok?;
  }

  lemma ZeroLastWindow(dr: ActiveRequest, sender: AccountId, outcome: Outcome, now: nat)
    requires ActiveInv(dr) && ClockFits(dr, now) && ResolutionBond(dr.config) == Ok(0)
    ensures LastWindow(dr, now).Ok?
    ensures var last := LastWindow(dr, now).value;
      last.bondSize == 0 && last.On(outcome) == 0 && last.UserOn(sender, outcome) == 0
  {
    hide Window.LiveOn;
    ZeroBonds(dr);
    var last := LastWindow(dr, now).value;
    if |dr.windows| > 0 {
      assert Consistent(last, None);
      assert last.LiveOn(outcome) <= last.On(outcome) <= last.bondSize;
      UserAtMostLive(last, sender, outcome);
    }
  }

  /** Of two admissible outcomes at least one is open for staking. */
  lemma OneIsOpen(dr: ActiveRequest, a: Outcome, b: Outcome)
    requires ActiveInv(dr) && !dr.finalArbitratorTriggered
    requires a != b && Admissible(dr, a) && Admissible(dr, b)
    ensures StakeGuards(dr, a) || StakeGuards(dr, b)
  {
    hide ActiveInv, Admissible, CanStakeOn;
    UnwrapsNeverFire(dr, a);
    UnwrapsNeverFire(dr, b);
  }

  /** With a zero bond two admissible outcomes can dispute each other for as long as anyone likes. */
  lemma {:induction false} ZeroBondEscalates(dr: ActiveRequest, a: Outcome, b: Outcome, n: nat, now: nat)
    returns (calls: seq<DisputeCall>)
    requires ActiveInv(dr) && ClockFits(dr, now) && ResolutionBond(dr.config) == Ok(0)
    requires dr.config.finalArbitratorInvokeAmount > 0 && !dr.finalArbitratorTriggered
    requires a != b && Admissible(dr, a) && Admissible(dr, b)
    ensures |AfterCalls(dr, calls).windows| >= n && !AfterCalls(dr, calls).finalArbitratorTriggered
    ensures ClockFits(AfterCalls(dr, calls), now)
    ensures NotBefore(calls, now)
  {
    hide ActiveInv, Admissible, StakedRequest, CanStakeOn;
    calls := [];
    if n > 0 {
      calls := ZeroBondEscalates(dr, a, b, n - 1, now);
      var d := AfterCalls(dr, calls);
      AfterCallsKeep(dr, calls);
      OneIsOpen(d, a, b);
      var outcome := if StakeGuards(d, a) then a else b;
      EmptyStakeBonds(d, AccountId("anyone"), outcome, now);
      var call := StakeCall(AccountId("anyone"), outcome, 0, now);
      assert (calls + [call])[..|calls + [call]| - 1] == calls;
      calls := calls + [call];
    }
  }

  /** All stakes happen at `now` or later. */
  predicate NotBefore(calls: seq<DisputeCall>, now: nat) {
    forall call :: call in calls && call.StakeCall? ==> call.now >= now
  }

  /** No sequence of calls from `now` on takes the request beyond `bound` windows. */
  ghost predicate RoundsWithin(dr: ActiveRequest, now: nat, bound: nat) {
    forall calls :: NotBefore(calls, now) ==> |AfterCalls(dr, calls).windows| <= bound
  }

  /** The rules admit Invalid and nothing else: a list of outcomes without one that fits the data type. */
  predicate OnlyInvalid(dr: ActiveRequest) {
    dr.outcomes.Some? && (dr.dataType.NumberData? || dr.outcomes.value == [])
  }

  lemma OnlyInvalidMeans(dr: ActiveRequest)
    ensures OnlyInvalid(dr)
      <==> forall o :: OnTheList(dr.outcomes, o) && OfTheType(dr.dataType, o) ==> o == Invalid
    ensures forall o :: Admissible(dr, o) <==> OnTheList(dr.outcomes, o) && OfTheType(dr.dataType, o)
    ensures Admissible(dr, Invalid)
  {
    forall o ensures Admissible(dr, o) <==> OnTheList(dr.outcomes, o) && OfTheType(dr.dataType, o) {
      AdmissibleMeans(dr, o);
    }
    if !OnlyInvalid(dr) {
      var answer := AnAnswer(dr);
      assert Admissible(dr, answer) && answer != Invalid;
    }
  }

  /** An answer that the rules admit. */
  function AnAnswer(dr: ActiveRequest): (answer: Outcome)
    requires !OnlyInvalid(dr)
    ensures Admissible(dr, answer) && answer != Invalid
  {
    match dr.dataType
    case NumberData(multiplier) => Answer(Number(0, multiplier, false))
    case TextData => Answer(Text(if dr.outcomes.Some? then dr.outcomes.value[0] else ""))
  }

  /** A third window takes two decided ones, and of their outcomes one is an answer. */
  lemma AnswerAmongRivals(dr: ActiveRequest) returns (answer: Outcome)
    requires ActiveInv(dr) && |dr.windows| > 2
    ensures Admissible(dr, answer) && answer != Invalid
  {
    hide Books, StartsAt, Scheduled, Admissible;
    assert LinkedAt(dr.windows, 1) && LinkedAt(dr.windows, 2);
    answer := dr.windows[if dr.windows[0].bonded == Some(Invalid) then 1 else 0].bonded.value;
  }

  /** Once the arbitrator is called no window opens. */
  lemma {:induction false} TriggerEndsRounds(dr: ActiveRequest, calls: seq<DisputeCall>)
    requires dr.finalArbitratorTriggered
    ensures AfterCalls(dr, calls).finalArbitratorTriggered && |AfterCalls(dr, calls).windows| == |dr.windows|
  {
    if calls != [] { TriggerEndsRounds(dr, calls[..|calls| - 1]); }
  }

  /** Without room on the clock for a third window, or for the next one, none opens. */
  lemma {:induction false} ClockEndsRounds(dr: ActiveRequest, calls: seq<DisputeCall>, now: nat)
    requires ActiveInv(dr) && !ClockFits(dr, now) && NotBefore(calls, now)
    ensures |AfterCalls(dr, calls).windows| <= Max(2, |dr.windows|)
    ensures |dr.windows| <= 1 && now + dr.initialChallengePeriod > U64_MAX
      ==> |AfterCalls(dr, calls).windows| <= 1
  {
    hide ActiveInv, AfterCall;
    if calls != [] {
      var init, call := calls[..|calls| - 1], calls[|calls| - 1];
      assert call in calls;
      ClockEndsRounds(dr, init, now);
      AfterCallsKeep(dr, init);
      OpensOnTime(AfterCalls(dr, init), call);
    }
  }

  /** A call opens a window only if that window ends on the clock. */
  lemma OpensOnTime(dr: ActiveRequest, call: DisputeCall)
    ensures |AfterCall(dr, call).windows| <= Max(1, |dr.windows|) + 1
    ensures |AfterCall(dr, call).windows| > |dr.windows| && |AfterCall(dr, call).windows| > 1
      ==> && call.StakeCall?
          && call.now + ChallengePeriod(dr, |AfterCall(dr, call).windows| - 1) <= U64_MAX
  {
    hide Staked, ResolutionBond, CanStakeOn, Admissible, Unstaked;
  }

  /**
   * Whatever is staked and unstaked from `now` on, an open request's disputes end after a bounded number of
   * windows if and only if its resolution bond does not round down to nothing, or the arbitrator is called at
   * any bond or has been called, or there is nothing to dispute, or the clock has no room for more windows.
   */
  lemma EscalationBoundedIff(dr: ActiveRequest, now: nat)
    requires ActiveInv(dr)
    ensures (exists bound :: RoundsWithin(dr, now, bound))
      <==> || ResolutionBond(dr.config) != Ok(0)
           || dr.config.finalArbitratorInvokeAmount == 0
           || dr.finalArbitratorTriggered
           || OnlyInvalid(dr)
           || !ClockFits(dr, now)
  {
    hide ActiveInv, Admissible, AfterCalls, ResolutionBond, OnlyInvalid, ClockFits, NotBefore;
    if ResolutionBond(dr.config) == Ok(0) && dr.config.finalArbitratorInvokeAmount > 0
      && !dr.finalArbitratorTriggered && !OnlyInvalid(dr) && ClockFits(dr, now)
    {
      OnlyInvalidMeans(dr);
      forall bound: nat ensures !RoundsWithin(dr, now, bound) {
        var calls := ZeroBondEscalates(dr, AnAnswer(dr), Invalid, bound + 1, now);
        assert |AfterCalls(dr, calls).windows| > bound;
      }
    } else {
      var bound := Max(128, |dr.windows|);
      forall calls | NotBefore(calls, now) ensures |AfterCalls(dr, calls).windows| <= bound {
        BoundedRounds(dr, calls, now);
      }
      assert RoundsWithin(dr, now, bound);
    }
  }

  lemma BoundedRounds(dr: ActiveRequest, calls: seq<DisputeCall>, now: nat)
    requires ActiveInv(dr) && NotBefore(calls, now)
    requires || ResolutionBond(dr.config) != Ok(0)
             || dr.config.finalArbitratorInvokeAmount == 0
             || dr.finalArbitratorTriggered
             || OnlyInvalid(dr)
             || !ClockFits(dr, now)
    ensures |AfterCalls(dr, calls).windows| <= Max(128, |dr.windows|)
  {
    hide ActiveInv, Admissible, AfterCalls, ResolutionBond, OnlyInvalid, ClockFits, NotBefore;
    var d := AfterCalls(dr, calls);
    AfterCallsKeep(dr, calls);
    if ResolutionBond(dr.config) != Ok(0) {
      RoundsAreBounded(d);
    } else if dr.config.finalArbitratorInvokeAmount == 0 {
      if |d.windows| >= 2 { BondsStayBelowArbitrator(d); }
    } else if dr.finalArbitratorTriggered {
      TriggerEndsRounds(dr, calls);
    } else if OnlyInvalid(dr) {
      OnlyInvalidMeans(dr);
      if |d.windows| > 2 { var answer := AnswerAmongRivals(d); }
    } else {
      ClockEndsRounds(dr, calls, now);
    }
  }

  /** While the first window cannot open, no sequence of calls moves a new request. */
  lemma {:induction false} NoFirstWindow(dr: ActiveRequest, calls: seq<DisputeCall>, now: nat)
    requires dr.windows == [] && FirstWindow(dr, now).Panic? && NotBefore(calls, now)
    ensures AfterCalls(dr, calls) == dr
  {
    hide ResolutionBond;
    if calls != [] {
      assert calls[|calls| - 1] in calls;
      NoFirstWindow(dr, calls[..|calls| - 1], now);
    }
  }

  /** A new request is ever staked on from `now` on if and only if its first window can open. */
  lemma FirstStakeIff(dr: ActiveRequest, now: nat)
    requires ActiveInv(dr) && dr.windows == []
    ensures (exists calls :: NotBefore(calls, now) && AfterCalls(dr, calls).windows != [])
      <==> FirstWindow(dr, now).Ok?
  {
    hide ActiveInv, FirstWindow, AfterCall, AfterCalls, NotBefore;
    if FirstWindow(dr, now).Ok? {
      var call := StakeCall(dr.requester, Invalid, 0, now);
      EmptyStakeOpens(dr, now);
      OneCall(dr, call, now);
    } else {
      forall calls | NotBefore(calls, now) ensures AfterCalls(dr, calls).windows == [] {
        NoFirstWindow(dr, calls, now);
      }
    }
  }

  lemma EmptyStakeOpens(dr: ActiveRequest, now: nat)
    requires ActiveInv(dr) && dr.windows == [] && FirstWindow(dr, now).Ok?
    ensures AfterCall(dr, StakeCall(dr.requester, Invalid, 0, now)).windows != []
  {
    hide ActiveInv, ResolutionBond, Staked;
    NotTriggeredYet(dr);
    StakePanicsIff(dr, dr.requester, Invalid, 0, now);
  }

  lemma OneCall(dr: ActiveRequest, call: DisputeCall, now: nat)
    requires call.StakeCall? && call.now >= now
    ensures AfterCalls(dr, [call]) == AfterCall(dr, call) && NotBefore([call], now)
  {
    hide AfterCall;
    assert [call][..0] == [];
    assert AfterCalls(dr, []) == dr;
    forall c | c in [call] ensures c.now >= now {
      assert c == call;
    }
  }

  lemma NotTriggeredYet(dr: ActiveRequest)
    requires ActiveInv(dr) && dr.windows == []
    ensures !dr.finalArbitratorTriggered
  {
  }

  // ---------------------------------------------------------------------------------------------
  // Guaranteed rewards
  // ---------------------------------------------------------------------------------------------

  /**
   * The losing bonds pay at least half of the winning ones beyond the first: every correct window
   * after the first follows an incorrect one of half its size.
   */
  lemma {:induction false} RewardRatio(windows: seq<Window>, finalOutcome: Outcome)
    requires Chain(windows)
    ensures CorrectBonds(windows, finalOutcome)
      <= 2 * IncorrectBonds(windows, finalOutcome) + (if |windows| > 0 then windows[0].bondSize else 0)
  {
    var n := |windows|;
    if n == 1 {
      assert windows[..0] == [];
    } else if n > 1 {
      var init := windows[..n - 1];
      ChainPrefix(windows, n - 1);
      RewardRatio(init, finalOutcome);
      assert LinkedAt(windows, n - 1);
      if IsCorrect(windows[n - 1], finalOutcome) {
        ChainPrefix(windows, n - 2);
        RewardRatio(windows[..n - 2], finalOutcome);
        assert init[..n - 2] == windows[..n - 2];
      }
    }
  }

  lemma ChainPrefix(windows: seq<Window>, k: nat)
    requires Chain(windows) && k <= |windows|
    ensures Chain(windows[..k])
  {
    var init := windows[..k];
    forall i | 0 < i < |init| ensures LinkedAt(init, i) {
      assert LinkedAt(windows, i);
    }
  }

  /** The last two windows' share of both sums. */
  lemma LastTwo(windows: seq<Window>, finalOutcome: Outcome)
    requires |windows| >= 2
    ensures var n := |windows|; var init, a, b := windows[..n - 2], windows[n - 2], windows[n - 1];
      && CorrectBonds(windows, finalOutcome) == CorrectBonds(init, finalOutcome)
          + (if IsCorrect(a, finalOutcome) then a.bondSize else 0)
          + (if IsCorrect(b, finalOutcome) then b.bondSize else 0)
      && IncorrectBonds(windows, finalOutcome) == IncorrectBonds(init, finalOutcome)
          + (if IsIncorrect(a, finalOutcome) then a.bondSize else 0)
          + (if IsIncorrect(b, finalOutcome) then b.bondSize else 0)
  {
    assert windows[..|windows| - 1][..|windows| - 2] == windows[..|windows| - 2];
  }

  predicate Alternating(windows: seq<Window>, finalOutcome: Outcome) {
    forall i :: 0 <= i < |windows| ==>
      if i % 2 == 0 then IsCorrect(windows[i], finalOutcome) else IsIncorrect(windows[i], finalOutcome)
  }

  /** The bound is met when correct and incorrect windows alternate and the correct side has the last word. */
  lemma {:induction false} RewardRatioIsTight(windows: seq<Window>, finalOutcome: Outcome)
    requires Chain(windows) && |windows| % 2 == 1 && Alternating(windows, finalOutcome)
    ensures CorrectBonds(windows, finalOutcome)
      == 2 * IncorrectBonds(windows, finalOutcome) + windows[0].bondSize
  {
    var n := |windows|;
    if n == 1 {
      assert windows[..0] == [];
    } else {
      hide CorrectBonds, IncorrectBonds, Chain;
      ChainPrefix(windows, n - 2);
      LastDoubles(windows);
      AlternatingPrefix(windows, finalOutcome);
      RewardRatioIsTight(windows[..n - 2], finalOutcome);
      LastTwo(windows, finalOutcome);
    }
  }

  lemma LastDoubles(windows: seq<Window>)
    requires Chain(windows) && |windows| >= 2
    ensures windows[|windows| - 1].bondSize == 2 * windows[|windows| - 2].bondSize
  {
    assert LinkedAt(windows, |windows| - 1);
  }

  lemma AlternatingPrefix(windows: seq<Window>, finalOutcome: Outcome)
    requires |windows| % 2 == 1 && |windows| >= 3 && Alternating(windows, finalOutcome)
    ensures Alternating(windows[..|windows| - 2], finalOutcome)
    ensures IsIncorrect(windows[|windows| - 2], finalOutcome)
    ensures IsCorrect(windows[|windows| - 1], finalOutcome)
  {
    var n := |windows|;
    assert (n - 2) % 2 == 1 && (n - 1) % 2 == 0;
  }

  /** All bonds of a fully decided chain add up to one first bond less than the next one would be. */
  lemma {:induction false} BondsAddUp(windows: seq<Window>, finalOutcome: Outcome)
    requires Chain(windows) && |windows| > 0 && windows[|windows| - 1].bonded.Some?
    ensures CorrectBonds(windows, finalOutcome) + IncorrectBonds(windows, finalOutcome) + windows[0].bondSize
      == 2 * windows[|windows| - 1].bondSize
  {
    var n := |windows|;
    if n == 1 {
      assert windows[..0] == [];
    } else {
      ChainPrefix(windows, n - 1);
      assert LinkedAt(windows, n - 1);
      BondsAddUp(windows[..n - 1], finalOutcome);
    }
  }

  /** An undisputed finalization is backed by more bonded stake than all other outcomes together. */
  lemma MajorityBacked(dr: ActiveRequest, now: nat)
    requires ActiveInv(dr) && CanFinalize(dr, now).Pass? && FinalOutcome(dr).Ok?
    ensures var outcome := FinalOutcome(dr).value;
      && |dr.windows| >= 2
      && CorrectBonds(dr.windows, outcome) >= IncorrectBonds(dr.windows, outcome) + dr.windows[0].bondSize
  {
    hide Books, OnlyAdmissible, Scheduled, StartsAt, ResolutionBond, CorrectBonds, IncorrectBonds;
    var outcome, n := FinalOutcome(dr).value, |dr.windows|;
    var decided := dr.windows[..n - 1];
    ChainPrefix(dr.windows, n - 1);
    BondsAddUp(decided, outcome);
    LastCorrect(decided, outcome);
    LastUndecided(dr.windows, outcome);
  }

  lemma LastCorrect(windows: seq<Window>, outcome: Outcome)
    requires |windows| > 0 && IsCorrect(windows[|windows| - 1], outcome)
    ensures CorrectBonds(windows, outcome) >= windows[|windows| - 1].bondSize
  {
  }

  lemma LastUndecided(windows: seq<Window>, outcome: Outcome)
    requires |windows| > 0 && windows[|windows| - 1].bonded.None?
    ensures CorrectBonds(windows, outcome) == CorrectBonds(windows[..|windows| - 1], outcome)
    ensures IncorrectBonds(windows, outcome) == IncorrectBonds(windows[..|windows| - 1], outcome)
  {
  }
}
