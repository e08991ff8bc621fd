/** The invariant of a disputed request and what every operation on it keeps. */
module Disputes {
  import opened Prelude
  import opened Outcomes
  import opened Sums
  import opened ResolutionWindows
  import opened DataRequests

  // ---------------------------------------------------------------------------------------------
  // The shape of the window chain
  // ---------------------------------------------------------------------------------------------

  /** The next window opened because `prev` bonded: double the bond, and nobody stays on that outcome. */
  ghost predicate Linked(prev: Window, w: Window) {
    && prev.bonded.Some?
    && w.bondSize == 2 * prev.bondSize
    && w.bonded != prev.bonded
    && w.On(prev.bonded.value) == 0
    && prev.bondSize <= U128_MAX
  }

  ghost predicate LinkedAt(windows: seq<Window>, i: nat) {
    0 < i < |windows| && Linked(windows[i - 1], windows[i])
  }

  ghost predicate Chain(windows: seq<Window>) {
    && (forall i :: 0 < i < |windows| ==> LinkedAt(windows, i))
    && (forall i :: 0 <= i < |windows| ==> windows[i].round == i % U16_RANGE)
  }

  ghost predicate Books(windows: seq<Window>, settled: Option<Outcome>) {
    forall i :: 0 <= i < |windows| ==> Consistent(windows[i], settled)
  }

  predicate Admissible(dr: ActiveRequest, outcome: Outcome) {
    ValidOutcome(dr, outcome).Pass? && ValidOutcomeType(dr, outcome).Pass?
  }

  /** There is no list of outcomes, or the outcome is Invalid or one of the listed strings. */
  predicate OnTheList(outcomes: Option<seq<string>>, outcome: Outcome) {
    || outcomes == None
    || outcome == Invalid
    || exists text :: text in outcomes.value && outcome == Answer(Text(text))
  }

  /** Text answers only where text is asked for, numbers only at the multiplier asked for. */
  predicate OfTheType(dataType: DataType, outcome: Outcome) {
    outcome.Answer? ==>
      && (outcome.answer.Text? <==> dataType.TextData?)
      && (outcome.answer.Number? ==> outcome.answer.multiplier == dataType.multiplier)
  }

  /** The two guards on outcomes pass exactly the listed ones and the ones of the right type. */
  lemma AdmissibleMeans(dr: ActiveRequest, outcome: Outcome)
    ensures ValidOutcome(dr, outcome).Pass? <==> OnTheList(dr.outcomes, outcome)
    ensures ValidOutcomeType(dr, outcome).Pass? <==> OfTheType(dr.dataType, outcome)
  {
    if outcome.Answer? && outcome.answer.Text? {
      assert outcome == Answer(Text(outcome.answer.text));
    }
  }

  /** Every outcome with stake on it, and every bonded one, passed the guards. */
  ghost predicate OnlyAdmissible(dr: ActiveRequest) {
    && (forall i, o :: 0 <= i < |dr.windows| && dr.windows[i].On(o) > 0 ==> Admissible(dr, o))
    && (forall i :: 0 <= i < |dr.windows| && dr.windows[i].bonded.Some?
          ==> Admissible(dr, dr.windows[i].bonded.value))
  }

  /** The first bond is twice the resolution bond. */
  predicate StartsAt(windows: seq<Window>, config: RequestConfig) {
    |windows| > 0 ==>
      && ResolutionBond(config).Ok?
      && windows[0].bondSize == 2 * ResolutionBond(config).value
  }

  /** Every bond that a later window outbid was below the amount that calls the arbitrator. */
  predicate OutbidBelow(windows: seq<Window>, invokeAmount: nat) {
    forall i :: 0 <= i < |windows| - 1 ==> windows[i].bondSize < invokeAmount
  }

  /** Only the arbitrator's trigger leaves the last window bonded; before it no bond reaches the amount. */
  ghost predicate Decided(dr: ActiveRequest) {
    && (|dr.windows| == 0 ==> !dr.finalArbitratorTriggered)
    && (|dr.windows| > 0 ==>
          var last := dr.windows[|dr.windows| - 1];
          && (last.bonded.Some? <==> dr.finalArbitratorTriggered)
          && (dr.finalArbitratorTriggered ==> last.bondSize >= dr.config.finalArbitratorInvokeAmount))
    && OutbidBelow(dr.windows, dr.config.finalArbitratorInvokeAmount)
  }

  ghost predicate Scheduled(dr: ActiveRequest) {
    forall i :: 0 <= i < |dr.windows|
      ==> dr.windows[i].endTime == dr.windows[i].startTime + ChallengePeriod(dr, i) <= U64_MAX
  }

  ghost predicate ActiveInv(dr: ActiveRequest) {
    && Chain(dr.windows)
    && Books(dr.windows, None)
    && StartsAt(dr.windows, dr.config)
    && Decided(dr)
    && Scheduled(dr)
    && OnlyAdmissible(dr)
  }

  lemma BondsSoFar(dr: ActiveRequest)
    requires ActiveInv(dr)
    ensures StartsAt(dr.windows, dr.config)
    ensures OutbidBelow(dr.windows, dr.config.finalArbitratorInvokeAmount)
  {
  }

  ghost predicate FinalizedInv(dr: FinalizedRequest) {
    && Chain(dr.windows)
    && Books(dr.windows, Some(dr.finalizedOutcome))
  }

  // ---------------------------------------------------------------------------------------------
  // Totals over all windows
  // ---------------------------------------------------------------------------------------------

  ghost function LivePerWindow(windows: seq<Window>): seq<nat> {
    seq(|windows|, i requires 0 <= i < |windows| => windows[i].Live())
  }

  ghost function TotalLive(windows: seq<Window>): nat {
    SeqSum(LivePerWindow(windows))
  }

  ghost function WithdrawablePerWindow(windows: seq<Window>): seq<nat> {
    seq(|windows|, i requires 0 <= i < |windows| => windows[i].Withdrawable())
  }

  ghost function TotalWithdrawable(windows: seq<Window>): nat {
    SeqSum(WithdrawablePerWindow(windows))
  }

  lemma TotalsReplace(windows: seq<Window>, k: nat, w: Window)
    requires k < |windows|
    ensures TotalLive(windows[k := w]) + windows[k].Live() == TotalLive(windows) + w.Live()
    ensures TotalWithdrawable(windows[k := w]) + windows[k].Withdrawable()
      == TotalWithdrawable(windows) + w.Withdrawable()
  {
    hide Window.Live, Window.Withdrawable;
    SeqSumUpdate(LivePerWindow(windows[k := w]), LivePerWindow(windows), k);
    SeqSumUpdate(WithdrawablePerWindow(windows[k := w]), WithdrawablePerWindow(windows), k);
  }

  lemma TotalLiveAppend(windows: seq<Window>, w: Window)
    ensures TotalLive(windows + [w]) == TotalLive(windows) + w.Live()
  {
    hide Window.Live;
    var all := LivePerWindow(windows + [w]);
    assert all[..|all| - 1] == LivePerWindow(windows);
  }

  // ---------------------------------------------------------------------------------------------
  // Staking
  // ---------------------------------------------------------------------------------------------

  /** The guards a stake passes before it reaches the windows. */
  predicate StakeGuards(dr: ActiveRequest, outcome: Outcome) {
    && !dr.finalArbitratorTriggered
    && CanStakeOn(dr, outcome).Pass?
    && Admissible(dr, outcome)
  }

  /** A request whose first window has been opened; a stake on an empty request opens it first. */
  ghost function Started(dr: ActiveRequest, now: nat): (r: ActiveRequest)
    requires LastWindow(dr, now).Ok?
  {
    if |dr.windows| == 0 then dr.(windows := [LastWindow(dr, now).value]) else dr
  }

  lemma StartedKeeps(dr: ActiveRequest, now: nat)
    requires ActiveInv(dr) && LastWindow(dr, now).Ok?
    ensures ActiveInv(Started(dr, now))
    ensures TotalLive(Started(dr, now).windows) == TotalLive(dr.windows)
    ensures |dr.windows| == 0 ==> forall o :: Started(dr, now).windows[0].On(o) == 0
  {
    if |dr.windows| == 0 {
      var bond := ResolutionBond(dr.config).value;
      OpenedIsConsistent(0, bond, dr.initialChallengePeriod, now);
      TotalLiveAppend([], LastWindow(dr, now).value);
      assert dr.windows == [];
      assert [] + [LastWindow(dr, now).value] == [LastWindow(dr, now).value];
    }
  }

  /** What may happen to the last window of a request while stake on `outcome` comes in. */
  ghost predicate MoreOn(last: Window, w: Window, outcome: Outcome) {
    && w.round == last.round && w.startTime == last.startTime && w.endTime == last.endTime
    && w.bondSize == last.bondSize
    && (w.bonded.None? || w.bonded == Some(outcome))
    && (forall o :: o != outcome ==> w.On(o) == last.On(o))
    && Consistent(w, None)
  }

  /** Putting such a window in place of the last one keeps the chain and the books. */
  lemma ReplaceLast(dr: ActiveRequest, w: Window, outcome: Outcome)
    requires ActiveInv(dr) && |dr.windows| > 0 && StakeGuards(dr, outcome)
    requires MoreOn(dr.windows[|dr.windows| - 1], w, outcome)
    ensures var windows := dr.windows[|dr.windows| - 1 := w];
      && Chain(windows) && Books(windows, None)
      && StartsAt(windows, dr.config)
      && Scheduled(dr.(windows := windows))
  {
    hide Consistent, Window.LiveOn, ValidOutcome, ValidOutcomeType, ResolutionBond;
    var n := |dr.windows|;
    var windows := dr.windows[n - 1 := w];
    if n > 1 { assert LinkedAt(dr.windows, n - 1); }
    forall i | 0 < i < n ensures LinkedAt(windows, i) {
      assert LinkedAt(dr.windows, i);
    }
    forall i | 0 <= i < n
      ensures windows[i].endTime == windows[i].startTime + ChallengePeriod(dr, i) <= U64_MAX
    {
      assert dr.windows[i].endTime == dr.windows[i].startTime + ChallengePeriod(dr, i);
    }
  }

  lemma SameRules(dr: ActiveRequest, dr': ActiveRequest)
    requires dr'.outcomes == dr.outcomes && dr'.dataType == dr.dataType
    ensures forall o :: Admissible(dr', o) == Admissible(dr, o)
  {
  }

  lemma ReplaceLastAdmissible(dr: ActiveRequest, w: Window, outcome: Outcome)
    requires OnlyAdmissible(dr) && |dr.windows| > 0 && Admissible(dr, outcome)
    requires MoreOn(dr.windows[|dr.windows| - 1], w, outcome)
    ensures OnlyAdmissible(dr.(windows := dr.windows[|dr.windows| - 1 := w]))
  {
    hide Consistent, Window.LiveOn, Admissible;
    SameRules(dr, dr.(windows := dr.windows[|dr.windows| - 1 := w]));
  }

  lemma StakedShape(w: Window, sender: AccountId, outcome: Outcome, amount: nat)
    requires Staked(w, sender, outcome, amount).Ok?
    ensures var w' := Staked(w, sender, outcome, amount).value.0;
      w'.round == w.round && w'.startTime == w.startTime && w'.endTime == w.endTime && w'.bondSize == w.bondSize
  {
  }

  lemma LastIsUndecided(dr: ActiveRequest)
    requires ActiveInv(dr) && |dr.windows| > 0 && !dr.finalArbitratorTriggered
    ensures var last := dr.windows[|dr.windows| - 1]; Consistent(last, None) && last.bonded.None?
  {
    hide Consistent, Chain, OnlyAdmissible;
  }

  /** A stake on a running request: the last window takes it, and nothing else about the request moves. */
  lemma StakeOnLast(dr: ActiveRequest, sender: AccountId, outcome: Outcome, amount: nat)
    requires ActiveInv(dr) && |dr.windows| > 0 && !dr.finalArbitratorTriggered
    ensures var last := dr.windows[|dr.windows| - 1];
      && Staked(last, sender, outcome, amount).Ok?
      && var (w, unspent) := Staked(last, sender, outcome, amount).value;
      && unspent <= amount
      && MoreOn(last, w, outcome)
      && TotalLive(dr.windows[|dr.windows| - 1 := w]) == TotalLive(dr.windows) + (amount - unspent)
      && (unspent > 0 ==> w.bonded.Some?)
  {
    hide Window.Live, Window.LiveOn, TotalLive, ActiveInv, Consistent, Staked;
    var last := dr.windows[|dr.windows| - 1];
    LastIsUndecided(dr);
    StakeKeepsBooks(last, sender, outcome, amount);
    StakedShape(last, sender, outcome, amount);
    TotalsReplace(dr.windows, |dr.windows| - 1, Staked(last, sender, outcome, amount).value.0);
  }

  /** A window as it has just been opened after round `n - 1` bonded. */
  ghost predicate FreshAfter(dr: ActiveRequest, next: Window) {
    && |dr.windows| > 0
    && next.round == |dr.windows| % U16_RANGE
    && next.bondSize == 2 * dr.windows[|dr.windows| - 1].bondSize
    && next.endTime == next.startTime + ChallengePeriod(dr, |dr.windows|) <= U64_MAX
    && next.bonded.None?
    && Consistent(next, None)
    && (forall o :: next.On(o) == 0)
  }

  lemma OpenedIsFresh(dr: ActiveRequest, now: nat)
    requires |dr.windows| > 0
    requires var n := |dr.windows|;
      Opened(n % U16_RANGE, dr.windows[n - 1].bondSize, ChallengePeriod(dr, n), now).Ok?
    ensures var n := |dr.windows|;
      var next := Opened(n % U16_RANGE, dr.windows[n - 1].bondSize, ChallengePeriod(dr, n), now).value;
      FreshAfter(dr, next) && next.Live() == 0 && next.startTime == now
  {
    var n := |dr.windows|;
    OpenedIsConsistent(n % U16_RANGE, dr.windows[n - 1].bondSize, ChallengePeriod(dr, n), now);
  }

  lemma AppendChain(dr: ActiveRequest, next: Window)
    requires Chain(dr.windows) && Books(dr.windows, None) && FreshAfter(dr, next)
    requires dr.windows[|dr.windows| - 1].bonded.Some?
    ensures Chain(dr.windows + [next]) && Books(dr.windows + [next], None)
  {
    hide Window.LiveOn, ChallengePeriod;
    var n := |dr.windows|;
    var windows := dr.windows + [next];
    assert Consistent(dr.windows[n - 1], None);
    forall i | 0 < i < |windows| ensures LinkedAt(windows, i) {
      if i < n { assert LinkedAt(dr.windows, i); }
    }
  }

  lemma AppendAdmissible(dr: ActiveRequest, next: Window)
    requires OnlyAdmissible(dr) && FreshAfter(dr, next)
    ensures OnlyAdmissible(dr.(windows := dr.windows + [next]))
  {
    hide Admissible, Consistent, ChallengePeriod;
    var dr' := dr.(windows := dr.windows + [next]);
    SameRules(dr, dr');
    forall i, o | 0 <= i < |dr'.windows| && dr'.windows[i].On(o) > 0 ensures Admissible(dr', o) {
      if i < |dr.windows| { assert dr.windows[i].On(o) > 0; }
    }
  }

  /** Every bond so far stays below the amount that calls the arbitrator. */
  ghost predicate BelowArbitrator(dr: ActiveRequest) {
    && !dr.finalArbitratorTriggered
    && forall i :: 0 <= i < |dr.windows| ==> dr.windows[i].bondSize < dr.config.finalArbitratorInvokeAmount
  }

  /** A bonded last window that does not reach the arbitrator is followed by a fresh one. */
  lemma OpenNext(dr: ActiveRequest, next: Window)
    requires Chain(dr.windows) && Books(dr.windows, None) && StartsAt(dr.windows, dr.config) && Scheduled(dr)
    requires OnlyAdmissible(dr) && BelowArbitrator(dr) && FreshAfter(dr, next)
    requires dr.windows[|dr.windows| - 1].bonded.Some?
    ensures ActiveInv(dr.(windows := dr.windows + [next]))
    ensures TotalLive(dr.windows + [next]) == TotalLive(dr.windows) + next.Live()
  {
    hide Consistent, TotalLive, ResolutionBond;
    AppendChain(dr, next);
    AppendAdmissible(dr, next);
    TotalLiveAppend(dr.windows, next);
  }

  /** The stake has gone in and the window did or did not bond: what the request looks like then. */
  lemma StakeInPlace(s: ActiveRequest, sender: AccountId, outcome: Outcome, amount: nat)
    requires ActiveInv(s) && |s.windows| > 0 && StakeGuards(s, outcome)
    ensures var n := |s.windows|;
      && Staked(s.windows[n - 1], sender, outcome, amount).Ok?
      && var (w, unspent) := Staked(s.windows[n - 1], sender, outcome, amount).value;
      var mid := s.(windows := s.windows[n - 1 := w]);
      && unspent <= amount
      && w.bondSize == s.windows[n - 1].bondSize
      && TotalLive(mid.windows) == TotalLive(s.windows) + (amount - unspent)
      && Chain(mid.windows) && Books(mid.windows, None) && StartsAt(mid.windows, mid.config)
      && Scheduled(mid)
      && OnlyAdmissible(mid)
      && (w.bonded.None? ==> ActiveInv(mid))
      && (w.bonded.Some? && w.bondSize >= s.config.finalArbitratorInvokeAmount
          ==> ActiveInv(mid.(finalArbitratorTriggered := true)))
      && (w.bonded.Some? && w.bondSize < s.config.finalArbitratorInvokeAmount ==> BelowArbitrator(mid))
  {
    hide Consistent, TotalLive, ResolutionBond, Admissible, Staked;
    StakeOnLast(s, sender, outcome, amount);
    var n := |s.windows|;
    var w := Staked(s.windows[n - 1], sender, outcome, amount).value.0;
    ReplaceLast(s, w, outcome);
    ReplaceLastAdmissible(s, w, outcome);
    var mid := s.(windows := s.windows[n - 1 := w]);
    SameRules(mid, mid.(finalArbitratorTriggered := true));
  }

  /** Every accepted stake keeps the invariant and adds exactly what was not handed back. */
  lemma StakeKeepsActive(dr: ActiveRequest, sender: AccountId, outcome: Outcome, amount: nat, now: nat)
    requires ActiveInv(dr) && StakeGuards(dr, outcome)
    requires StakedRequest(dr, sender, outcome, amount, now).Ok?
    ensures var (dr', unspent) := StakedRequest(dr, sender, outcome, amount, now).value;
      && ActiveInv(dr')
      && unspent <= amount
      && TotalLive(dr'.windows) == TotalLive(dr.windows) + (amount - unspent)
  {
    hide TotalLive, Staked, Opened, Chain, Books, OnlyAdmissible, StartsAt, Scheduled, Admissible,
         FirstWindow, CanStakeOn, ResolutionBond;
    var s := Started(dr, now);
    StartedKeeps(dr, now);
    StartedGuards(dr, now, outcome);
    StakeInPlace(s, sender, outcome, amount);
    var n := |s.windows|;
    var w := Staked(s.windows[n - 1], sender, outcome, amount).value.0;
    var mid := s.(windows := s.windows[n - 1 := w]);
    assert mid.windows == WithLastWindow(dr.windows, w);
    if w.bonded.Some? && w.bondSize < dr.config.finalArbitratorInvokeAmount {
      OpenedIsFresh(mid, now);
      OpenNext(mid, Opened(n % U16_RANGE, w.bondSize, ChallengePeriod(mid, n), now).value);
    }
  }

  lemma StartedGuards(dr: ActiveRequest, now: nat, outcome: Outcome)
    requires StakeGuards(dr, outcome) && LastWindow(dr, now).Ok?
    ensures StakeGuards(Started(dr, now), outcome)
  {
  }

  // ---------------------------------------------------------------------------------------------
  // Unstaking and claiming
  // ---------------------------------------------------------------------------------------------

  /** What may happen to a window while stake on an outcome it did not bond leaves it. */
  ghost predicate LessOn(w: Window, w': Window) {
    && w'.round == w.round && w'.startTime == w.startTime && w'.endTime == w.endTime
    && w'.bondSize == w.bondSize && w'.bonded == w.bonded
    && (forall o :: w'.On(o) <= w.On(o))
  }

  lemma LessKeepsChain(windows: seq<Window>, k: nat, w: Window)
    requires Chain(windows) && k < |windows| && LessOn(windows[k], w)
    ensures Chain(windows[k := w])
  {
    var windows' := windows[k := w];
    forall i | 0 < i < |windows| ensures LinkedAt(windows', i) {
      assert LinkedAt(windows, i);
    }
  }

  lemma UnstakeOnWindow(windows: seq<Window>, settled: Option<Outcome>, sender: AccountId, round: nat,
                        outcome: Outcome, amount: nat)
    requires Chain(windows) && Books(windows, settled) && round < |windows|
    requires Unstaked(windows[round], sender, outcome, amount).Ok?
    ensures var w := Unstaked(windows[round], sender, outcome, amount).value;
      && LessOn(windows[round], w)
      && Chain(windows[round := w]) && Books(windows[round := w], settled)
      && TotalLive(windows[round := w]) + amount == TotalLive(windows)
      && TotalWithdrawable(windows[round := w]) + amount == TotalWithdrawable(windows)
      && (forall u, o :: w.bonded == Some(o) ==> w.UserOn(u, o) == windows[round].UserOn(u, o))
  {
    hide Window.Live, Window.LiveOn, TotalLive, TotalWithdrawable, Window.Withdrawable;
    UnstakeKeepsBooks(windows[round], settled, sender, outcome, amount);
    var w := Unstaked(windows[round], sender, outcome, amount).value;
    TotalsReplace(windows, round, w);
    LessKeepsChain(windows, round, w);
  }

  lemma LessAdmissible(dr: ActiveRequest, k: nat, w: Window)
    requires OnlyAdmissible(dr) && k < |dr.windows| && LessOn(dr.windows[k], w)
    ensures OnlyAdmissible(dr.(windows := dr.windows[k := w]))
  {
    hide Admissible;
    var dr' := dr.(windows := dr.windows[k := w]);
    SameRules(dr, dr');
    forall i, o | 0 <= i < |dr.windows| && dr'.windows[i].On(o) > 0 ensures Admissible(dr', o) {
      assert dr.windows[i].On(o) > 0;
    }
  }

  /** Unstaking from an active request keeps its invariant and takes exactly `amount` out. */
  lemma UnstakeKeepsActive(dr: ActiveRequest, sender: AccountId, round: nat, outcome: Outcome, amount: nat)
    requires ActiveInv(dr)
    requires UnstakedRequest(Active(dr), sender, round, outcome, amount).Ok?
    ensures var dr' := UnstakedRequest(Active(dr), sender, round, outcome, amount).value;
      && dr'.Active? && ActiveInv(dr'.active)
      && TotalLive(dr'.active.windows) + amount == TotalLive(dr.windows)
  {
    hide Chain, Books, OnlyAdmissible, TotalLive, TotalWithdrawable, ResolutionBond, Unstaked;
    UnstakeOnWindow(dr.windows, None, sender, round, outcome, amount);
    LessAdmissible(dr, round, Unstaked(dr.windows[round], sender, outcome, amount).value);
  }

  lemma UnstakeKeepsFinalized(dr: FinalizedRequest, sender: AccountId, round: nat, outcome: Outcome, amount: nat)
    requires FinalizedInv(dr)
    requires UnstakedRequest(Finalized(dr), sender, round, outcome, amount).Ok?
    ensures var dr' := UnstakedRequest(Finalized(dr), sender, round, outcome, amount).value;
      && dr'.Finalized? && FinalizedInv(dr'.finalized)
      && TotalLive(dr'.finalized.windows) + amount == TotalLive(dr.windows)
      && TotalWithdrawable(dr'.finalized.windows) + amount == TotalWithdrawable(dr.windows)
  {
    hide TotalLive, TotalWithdrawable, Consistent;
    UnstakeOnWindow(dr.windows, Some(dr.finalizedOutcome), sender, round, outcome, amount);
  }

  lemma ClaimedChain(windows: seq<Window>, user: AccountId, finalOutcome: Outcome)
    requires Chain(windows) && Books(windows, Some(finalOutcome))
    ensures Chain(ClaimedWindows(windows, user, finalOutcome))
    ensures Books(ClaimedWindows(windows, user, finalOutcome), Some(finalOutcome))
  {
    var windows' := ClaimedWindows(windows, user, finalOutcome);
    forall i | 0 <= i < |windows|
      ensures Consistent(windows'[i], Some(finalOutcome)) && LessOn(windows[i], windows'[i])
    {
      assert Consistent(windows[i], Some(finalOutcome));
      ClaimKeepsBooks(windows[i], user, finalOutcome);
    }
    forall i | 0 < i < |windows| ensures LinkedAt(windows', i) {
      assert LinkedAt(windows, i);
      assert LessOn(windows[i - 1], windows'[i - 1]) && LessOn(windows[i], windows'[i]);
    }
  }

  /** A settled request inherits its chain and its books, on every finalization path. */
  lemma TrimKeeps(dr: ActiveRequest, outcome: Outcome)
    requires ActiveInv(dr)
    ensures FinalizedInv(Trimmed(dr, outcome))
  {
    hide Window.LiveOn;
    forall i | 0 <= i < |dr.windows| ensures Consistent(dr.windows[i], Some(outcome)) {
      assert Consistent(dr.windows[i], None);
    }
  }
}
