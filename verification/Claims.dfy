/** What a settled request pays: exact shares, once per user, in any order, with a tight dust bound. */
module Claims {
  import opened Prelude
  import opened Outcomes
  import opened Sums
  import opened Arithmetic
  import opened ResolutionWindows
  import opened DataRequests
  import opened Disputes
  import opened Escalation

  // ---------------------------------------------------------------------------------------------
  // Who staked what on the final outcome
  // ---------------------------------------------------------------------------------------------

  function Stakers(windows: seq<Window>): set<AccountId> {
    if windows == [] then {}
    else Stakers(windows[..|windows| - 1]) + windows[|windows| - 1].userStakes.Keys
  }

  ghost function StakeByUser(windows: seq<Window>, finalOutcome: Outcome): map<AccountId, nat> {
    map u | u in Stakers(windows) :: CorrectStake(windows, finalOutcome, u)
  }

  /** All that is still staked on the final outcome where it bonded. */
  ghost function CorrectLive(windows: seq<Window>, finalOutcome: Outcome): nat {
    if windows == [] then 0
    else
      var last := windows[|windows| - 1];
      CorrectLive(windows[..|windows| - 1], finalOutcome)
      + (if IsCorrect(last, finalOutcome) then last.LiveOn(finalOutcome) else 0)
  }

  lemma {:induction false} OthersHaveNothing(windows: seq<Window>, finalOutcome: Outcome, user: AccountId)
    requires user !in Stakers(windows)
    ensures CorrectStake(windows, finalOutcome, user) == 0
  {
    if windows != [] { OthersHaveNothing(windows[..|windows| - 1], finalOutcome, user); }
  }

  lemma StakeByUserAt(windows: seq<Window>, finalOutcome: Outcome)
    ensures forall u :: At(StakeByUser(windows, finalOutcome), u) == CorrectStake(windows, finalOutcome, u)
  {
    forall u ensures At(StakeByUser(windows, finalOutcome), u) == CorrectStake(windows, finalOutcome, u) {
      if u !in Stakers(windows) { OthersHaveNothing(windows, finalOutcome, u); }
    }
  }

  /** Adding up by user or by window gives the same: exchange of the two sums. */
  lemma {:induction false} StakeByUserAddsUp(windows: seq<Window>, finalOutcome: Outcome)
    ensures MapSum(StakeByUser(windows, finalOutcome)) == CorrectLive(windows, finalOutcome)
  {
    hide MapSum;
    if windows == [] {
      MapSumAllZero(StakeByUser(windows, finalOutcome));
    } else {
      var init, last := windows[..|windows| - 1], windows[|windows| - 1];
      StakeByUserAddsUp(init, finalOutcome);
      StakeByUserAt(init, finalOutcome);
      StakeByUserAt(windows, finalOutcome);
      var column := if IsCorrect(last, finalOutcome) then last.Column(finalOutcome) else map[];
      MapSumAllZeroIfEmpty(column);
      MapSumPlus(StakeByUser(init, finalOutcome), column, StakeByUser(windows, finalOutcome));
    }
  }

  lemma MapSumAllZeroIfEmpty<K>(m: map<K, nat>)
    ensures m == map[] ==> MapSum(m) == 0
  {
  }

  lemma {:induction false} CorrectLiveAtMost(windows: seq<Window>, finalOutcome: Outcome, settled: Option<Outcome>)
    requires Books(windows, settled)
    ensures CorrectLive(windows, finalOutcome) <= CorrectBonds(windows, finalOutcome)
    ensures settled == None ==> CorrectLive(windows, finalOutcome) == CorrectBonds(windows, finalOutcome)
  {
    hide Window.LiveOn;
    if windows != [] {
      var last := windows[|windows| - 1];
      CorrectLiveAtMost(windows[..|windows| - 1], finalOutcome, settled);
      assert Consistent(last, settled);
      assert last.LiveOn(finalOutcome) <= last.On(finalOutcome) <= last.bondSize;
    }
  }

  /** No user's stake exceeds the winning bonds, so every share is a share of at most the whole. */
  lemma StakeWithinBonds(windows: seq<Window>, finalOutcome: Outcome, settled: Option<Outcome>, user: AccountId)
    requires Books(windows, settled)
    ensures CorrectStake(windows, finalOutcome, user) <= CorrectBonds(windows, finalOutcome)
  {
    StakeByUserAt(windows, finalOutcome);
    MapSumAtLeast(StakeByUser(windows, finalOutcome), user);
    StakeByUserAddsUp(windows, finalOutcome);
    CorrectLiveAtMost(windows, finalOutcome, settled);
  }

  // ---------------------------------------------------------------------------------------------
  // What one claim pays
  // ---------------------------------------------------------------------------------------------

  function ShareOf(part: nat, pot: nat, whole: nat): nat {
    if whole == 0 then 0 else Share(part, pot, whole)
  }

  function WinningStake(dr: FinalizedRequest, user: AccountId): nat {
    CorrectStake(dr.windows, dr.finalizedOutcome, user)
  }

  function Won(dr: FinalizedRequest): nat {
    CorrectBonds(dr.windows, dr.finalizedOutcome)
  }

  function Lost(dr: FinalizedRequest): nat {
    IncorrectBonds(dr.windows, dr.finalizedOutcome)
  }

  function StakePayout(dr: FinalizedRequest, user: AccountId): nat {
    WinningStake(dr, user) + ShareOf(WinningStake(dr, user), Lost(dr), Won(dr))
  }

  function FeePayout(dr: FinalizedRequest, user: AccountId): nat {
    ShareOf(WinningStake(dr, user), dr.paidFee, Won(dr))
  }

  /** The bonds and the fee fit the machine, as they do when they are held in one token's supply. */
  predicate Fits(dr: FinalizedRequest) {
    Won(dr) + Lost(dr) <= U128_MAX && dr.paidFee <= U128_MAX
  }

  /** A claim never panics and pays the claimant's stake plus the exact floors. */
  lemma ClaimPays(dr: FinalizedRequest, user: AccountId)
    requires FinalizedInv(dr) && Fits(dr)
    ensures ClaimedRequest(dr, user)
      == Ok((dr.(windows := ClaimedWindows(dr.windows, user, dr.finalizedOutcome)),
             ClaimRes(FeePayout(dr, user), StakePayout(dr, user))))
    ensures StakePayout(dr, user) <= Won(dr) + Lost(dr) && FeePayout(dr, user) <= dr.paidFee
  {
    hide CorrectBonds, IncorrectBonds, CorrectStake, Share, CalcProduct, Chain;
    StakeWithinBonds(dr.windows, dr.finalizedOutcome, Some(dr.finalizedOutcome), user);
    if Won(dr) > 0 {
      CalcProductIsExactFloor(WinningStake(dr, user), Lost(dr), Won(dr));
      CalcProductIsExactFloor(WinningStake(dr, user), dr.paidFee, Won(dr));
    }
  }

  // ---------------------------------------------------------------------------------------------
  // What claims and unstakes leave unchanged
  // ---------------------------------------------------------------------------------------------

  lemma {:induction false} SameBonds(before: seq<Window>, after: seq<Window>, finalOutcome: Outcome)
    requires |before| == |after|
    requires forall i :: 0 <= i < |before| ==>
      after[i].bonded == before[i].bonded && after[i].bondSize == before[i].bondSize
    ensures CorrectBonds(after, finalOutcome) == CorrectBonds(before, finalOutcome)
    ensures IncorrectBonds(after, finalOutcome) == IncorrectBonds(before, finalOutcome)
  {
    if before != [] { SameBonds(before[..|before| - 1], after[..|after| - 1], finalOutcome); }
  }

  lemma {:induction false} SameStake(before: seq<Window>, after: seq<Window>, finalOutcome: Outcome, user: AccountId)
    requires |before| == |after|
    requires forall i :: 0 <= i < |before| ==> after[i].bonded == before[i].bonded
    requires forall i :: 0 <= i < |before| && IsCorrect(before[i], finalOutcome) ==>
      after[i].UserOn(user, finalOutcome) == before[i].UserOn(user, finalOutcome)
    ensures CorrectStake(after, finalOutcome, user) == CorrectStake(before, finalOutcome, user)
  {
    if before != [] { SameStake(before[..|before| - 1], after[..|after| - 1], finalOutcome, user); }
  }

  lemma {:induction false} NoStakeLeft(windows: seq<Window>, finalOutcome: Outcome, user: AccountId)
    requires forall i :: 0 <= i < |windows| && IsCorrect(windows[i], finalOutcome) ==>
      windows[i].UserOn(user, finalOutcome) == 0
    ensures CorrectStake(windows, finalOutcome, user) == 0
  {
    if windows != [] { NoStakeLeft(windows[..|windows| - 1], finalOutcome, user); }
  }

  /** A claim takes the claimant's stake to 0 and touches nobody else's, nor any pot. */
  lemma ClaimEffect(dr: FinalizedRequest, user: AccountId)
    requires FinalizedInv(dr)
    ensures var dr' := dr.(windows := ClaimedWindows(dr.windows, user, dr.finalizedOutcome));
      && FinalizedInv(dr')
      && Won(dr') == Won(dr) && Lost(dr') == Lost(dr)
      && WinningStake(dr', user) == 0
      && forall u :: u != user ==> WinningStake(dr', u) == WinningStake(dr, u)
  {
    hide Window.LiveOn;
    var finalOutcome := dr.finalizedOutcome;
    var windows' := ClaimedWindows(dr.windows, user, finalOutcome);
    ClaimedChain(dr.windows, user, finalOutcome);
    ClaimedWindowsReadings(dr, user);
    SameBonds(dr.windows, windows', finalOutcome);
    NoStakeLeft(windows', finalOutcome, user);
    forall u | u != user
      ensures CorrectStake(windows', finalOutcome, u) == CorrectStake(dr.windows, finalOutcome, u)
    {
      SameStake(dr.windows, windows', finalOutcome, u);
    }
  }

  lemma ClaimedWindowsReadings(dr: FinalizedRequest, user: AccountId)
    requires FinalizedInv(dr)
    ensures var windows, windows' := dr.windows, ClaimedWindows(dr.windows, user, dr.finalizedOutcome);
      forall i :: 0 <= i < |windows| ==>
        && windows'[i].bonded == windows[i].bonded && windows'[i].bondSize == windows[i].bondSize
        && windows'[i].userStakes.Keys == windows[i].userStakes.Keys
        && windows'[i].Withdrawable() == windows[i].Withdrawable()
        && (IsCorrect(windows[i], dr.finalizedOutcome) ==>
              && windows'[i].UserOn(user, dr.finalizedOutcome) == 0
              && forall u :: u != user
                  ==> windows'[i].UserOn(u, dr.finalizedOutcome) == windows[i].UserOn(u, dr.finalizedOutcome))
        && windows'[i].Live()
            + (if IsCorrect(windows[i], dr.finalizedOutcome) then windows[i].UserOn(user, dr.finalizedOutcome) else 0)
          == windows[i].Live()
  {
    hide Window.Live, Window.Withdrawable, Consistent, Claimed;
    var windows' := ClaimedWindows(dr.windows, user, dr.finalizedOutcome);
    forall i | 0 <= i < |dr.windows|
      ensures var w, w' := dr.windows[i], windows'[i];
        && w'.bonded == w.bonded && w'.bondSize == w.bondSize
        && w'.userStakes.Keys == w.userStakes.Keys
        && w'.Withdrawable() == w.Withdrawable()
        && (IsCorrect(w, dr.finalizedOutcome) ==>
              && w'.UserOn(user, dr.finalizedOutcome) == 0
              && forall u :: u != user ==> w'.UserOn(u, dr.finalizedOutcome) == w.UserOn(u, dr.finalizedOutcome))
        && w'.Live() + (if IsCorrect(w, dr.finalizedOutcome) then w.UserOn(user, dr.finalizedOutcome) else 0)
          == w.Live()
    {
      assert Consistent(dr.windows[i], Some(dr.finalizedOutcome));
      ClaimKeepsBooks(dr.windows[i], user, dr.finalizedOutcome);
    }
  }

  /** Unstaking never touches the final outcome where it bonded, so no share moves. */
  lemma UnstakeEffect(dr: FinalizedRequest, sender: AccountId, round: nat, outcome: Outcome, amount: nat)
    requires FinalizedInv(dr)
    requires UnstakedRequest(Finalized(dr), sender, round, outcome, amount).Ok?
    ensures var dr' := UnstakedRequest(Finalized(dr), sender, round, outcome, amount).value.finalized;
      && FinalizedInv(dr')
      && dr' == dr.(windows := dr'.windows)
      && Won(dr') == Won(dr) && Lost(dr') == Lost(dr)
      && forall u :: WinningStake(dr', u) == WinningStake(dr, u)
  {
    hide Window.Live, Window.LiveOn, TotalLive, TotalWithdrawable, Consistent, Unstaked;
    UnstakeKeepsFinalized(dr, sender, round, outcome, amount);
    UnstakeOnWindow(dr.windows, Some(dr.finalizedOutcome), sender, round, outcome, amount);
    var dr' := UnstakedRequest(Finalized(dr), sender, round, outcome, amount).value.finalized;
    SameBonds(dr.windows, dr'.windows, dr.finalizedOutcome);
    forall u ensures WinningStake(dr', u) == WinningStake(dr, u) {
      SameStake(dr.windows, dr'.windows, dr.finalizedOutcome, u);
    }
  }

  // ---------------------------------------------------------------------------------------------
  // Any sequence of claims and unstakes on a settled request
  // ---------------------------------------------------------------------------------------------

  datatype SettledCall =
    | ClaimCall(user: AccountId)
    | WithdrawCall(sender: AccountId, round: nat, outcome: Outcome, amount: nat)

  function AfterSettledCall(dr: FinalizedRequest, call: SettledCall): FinalizedRequest {
    match call
    case ClaimCall(user) =>
      (match ClaimedRequest(dr, user)
       case Ok((dr', _)) => dr'
       case Panic(_) => dr)
    case WithdrawCall(sender, round, outcome, amount) =>
      (match UnstakedRequest(Finalized(dr), sender, round, outcome, amount)
       case Ok(Finalized(dr')) => dr'
       case _ => dr)
  }

  function AfterSettledCalls(dr: FinalizedRequest, calls: seq<SettledCall>): FinalizedRequest {
    if calls == [] then dr
    else AfterSettledCall(AfterSettledCalls(dr, calls[..|calls| - 1]), calls[|calls| - 1])
  }

  function ClaimOf(dr: FinalizedRequest, user: AccountId): ClaimRes {
    match ClaimedRequest(dr, user)
    case Ok((_, paid)) => paid
    case Panic(_) => ClaimRes(0, 0)
  }

  function Claimers(calls: seq<SettledCall>): set<AccountId> {
    set call | call in calls && call.ClaimCall? :: call.user
  }

  /** All that claims paid out along the way. */
  function TotalPaid(dr: FinalizedRequest, calls: seq<SettledCall>): ClaimRes {
    if calls == [] then ClaimRes(0, 0)
    else
      var init := calls[..|calls| - 1];
      var paid := TotalPaid(dr, init);
      match calls[|calls| - 1]
      case WithdrawCall(_, _, _, _) => paid
      case ClaimCall(user) =>
        var claim := ClaimOf(AfterSettledCalls(dr, init), user);
        ClaimRes(paid.paymentTokenPayout + claim.paymentTokenPayout,
                 paid.stakeTokenPayout + claim.stakeTokenPayout)
  }

  /** Along any sequence of calls the pots stay, and a stake is either untouched or claimed to 0. */
  lemma {:induction false} SettledRun(dr: FinalizedRequest, calls: seq<SettledCall>)
    requires FinalizedInv(dr) && Fits(dr)
    ensures var dr' := AfterSettledCalls(dr, calls);
      && FinalizedInv(dr') && Fits(dr')
      && dr' == dr.(windows := dr'.windows)
      && Won(dr') == Won(dr) && Lost(dr') == Lost(dr)
      && forall u :: WinningStake(dr', u) == if u in Claimers(calls) then 0 else WinningStake(dr, u)
  {
    hide FinalizedInv, ClaimedRequest, UnstakedRequest, CorrectStake, CorrectBonds, IncorrectBonds;
    if calls != [] {
      var init, call := calls[..|calls| - 1], calls[|calls| - 1];
      var mid := AfterSettledCalls(dr, init);
      SettledRun(dr, init);
      assert calls == init + [call];
      match call {
        case ClaimCall(user) =>
          ClaimPays(mid, user);
          ClaimEffect(mid, user);
          assert Claimers(calls) == Claimers(init) + {user};
        case WithdrawCall(sender, round, outcome, amount) =>
          assert Claimers(calls) == Claimers(init);
          var unstaked := UnstakedRequest(Finalized(mid), sender, round, outcome, amount);
          if unstaked.Ok? {
            UnstakeKeepsFinalized(mid, sender, round, outcome, amount);
            UnstakeEffect(mid, sender, round, outcome, amount);
          }
      }
    }
  }

  /**
   * One shot, in any order: whatever claims and unstakes came before, a user's first claim pays the
   * same exact amounts and every later claim of the same user pays nothing.
   */
  lemma ClaimIsOneShot(dr: FinalizedRequest, calls: seq<SettledCall>, user: AccountId)
    requires FinalizedInv(dr) && Fits(dr)
    ensures ClaimOf(AfterSettledCalls(dr, calls), user)
      == if user in Claimers(calls) then ClaimRes(0, 0)
         else ClaimRes(FeePayout(dr, user), StakePayout(dr, user))
  {
    hide FinalizedInv, ClaimedRequest, CorrectStake, CorrectBonds, IncorrectBonds;
    SettledRun(dr, calls);
    ClaimPays(AfterSettledCalls(dr, calls), user);
    ZeroShare(Lost(dr), Won(dr));
    ZeroShare(dr.paidFee, Won(dr));
  }

  lemma ZeroShare(pot: nat, whole: nat)
    ensures ShareOf(0, pot, whole) == 0
  {
    if whole > 0 { ShareBounds(0, pot, whole); CancelStrict(Share(0, pot, whole), 1, whole); }
  }

  ghost function StakeOfClaimers(dr: FinalizedRequest, users: set<AccountId>): map<AccountId, nat> {
    map u | u in users :: WinningStake(dr, u)
  }

  ghost function StakePayouts(dr: FinalizedRequest, users: set<AccountId>): map<AccountId, nat> {
    map u | u in users :: StakePayout(dr, u)
  }

  ghost function FeePayouts(dr: FinalizedRequest, users: set<AccountId>): map<AccountId, nat> {
    map u | u in users :: FeePayout(dr, u)
  }

  /** The total paid depends only on who claimed, not on when or how often. */
  lemma {:induction false} TotalPaidByClaimers(dr: FinalizedRequest, calls: seq<SettledCall>)
    requires FinalizedInv(dr) && Fits(dr)
    ensures TotalPaid(dr, calls)
      == ClaimRes(MapSum(FeePayouts(dr, Claimers(calls))), MapSum(StakePayouts(dr, Claimers(calls))))
  {
    hide FinalizedInv, ClaimOf, AfterSettledCall, StakePayout, FeePayout;
    if calls == [] {
      assert FeePayouts(dr, Claimers(calls)) == map[] && StakePayouts(dr, Claimers(calls)) == map[];
    } else {
      var init, call := calls[..|calls| - 1], calls[|calls| - 1];
      TotalPaidByClaimers(dr, init);
      assert calls == init + [call];
      match call {
        case WithdrawCall(_, _, _, _) =>
          assert Claimers(calls) == Claimers(init);
        case ClaimCall(user) =>
          ClaimIsOneShot(dr, init, user);
          assert Claimers(calls) == Claimers(init) + {user};
          OneMorePayout(dr, Claimers(init), user);
      }
    }
  }

  lemma OneMorePayout(dr: FinalizedRequest, users: set<AccountId>, user: AccountId)
    ensures MapSum(StakePayouts(dr, users + {user}))
      == MapSum(StakePayouts(dr, users)) + (if user in users then 0 else StakePayout(dr, user))
    ensures MapSum(FeePayouts(dr, users + {user}))
      == MapSum(FeePayouts(dr, users)) + (if user in users then 0 else FeePayout(dr, user))
  {
    hide MapSum, StakePayout, FeePayout;
    MapSumUpdate(StakePayouts(dr, users), user, StakePayout(dr, user));
    MapSumUpdate(FeePayouts(dr, users), user, FeePayout(dr, user));
    assert StakePayouts(dr, users + {user}) == StakePayouts(dr, users)[user := StakePayout(dr, user)];
    assert FeePayouts(dr, users + {user}) == FeePayouts(dr, users)[user := FeePayout(dr, user)];
  }

  /** Reordering and interleaving change nothing: the same calls pay the same totals. */
  lemma OrderIndependent(dr: FinalizedRequest, calls: seq<SettledCall>, reordered: seq<SettledCall>)
    requires FinalizedInv(dr) && Fits(dr)
    requires multiset(calls) == multiset(reordered)
    ensures TotalPaid(dr, calls) == TotalPaid(dr, reordered)
    ensures forall u :: ClaimOf(AfterSettledCalls(dr, calls), u) == ClaimOf(AfterSettledCalls(dr, reordered), u)
  {
    hide FinalizedInv, TotalPaid, AfterSettledCalls, ClaimOf;
    assert forall call :: call in calls <==> call in multiset(calls);
    assert forall call :: call in reordered <==> call in multiset(reordered);
    assert Claimers(calls) == Claimers(reordered);
    TotalPaidByClaimers(dr, calls);
    TotalPaidByClaimers(dr, reordered);
    forall u ensures ClaimOf(AfterSettledCalls(dr, calls), u) == ClaimOf(AfterSettledCalls(dr, reordered), u) {
      ClaimIsOneShot(dr, calls, u);
      ClaimIsOneShot(dr, reordered, u);
    }
  }

  // ---------------------------------------------------------------------------------------------
  // Conservation
  // ---------------------------------------------------------------------------------------------

  lemma PayoutsSplit(dr: FinalizedRequest, users: set<AccountId>)
    requires Won(dr) > 0
    ensures MapSum(StakePayouts(dr, users)) == MapSum(StakeOfClaimers(dr, users))
      + MapSum(Shares(StakeOfClaimers(dr, users), Lost(dr), Won(dr)))
    ensures FeePayouts(dr, users) == Shares(StakeOfClaimers(dr, users), dr.paidFee, Won(dr))
  {
    hide MapSum, CorrectStake, CorrectBonds, IncorrectBonds, Share;
    var weights := StakeOfClaimers(dr, users);
    MapSumPlus(weights, Shares(weights, Lost(dr), Won(dr)), StakePayouts(dr, users));
  }

  lemma {:induction false} MapSumSmaller<K(!new)>(a: map<K, nat>, b: map<K, nat>)
    requires forall k :: At(a, k) <= At(b, k)
    ensures MapSum(a) <= MapSum(b)
  {
    var rest := map k | k in b :: b[k] - At(a, k);
    forall k ensures At(b, k) == At(a, k) + At(rest, k) {
      assert At(a, k) <= At(b, k);
    }
    MapSumPlus(a, rest, b);
  }

  /** Whoever the claimers are, their stakes fit into the winning bonds. */
  lemma ClaimersWithinBonds(dr: FinalizedRequest, users: set<AccountId>)
    requires FinalizedInv(dr)
    ensures MapSum(StakeOfClaimers(dr, users)) <= Won(dr)
  {
    hide MapSum, CorrectStake, Consistent;
    StakeByUserAt(dr.windows, dr.finalizedOutcome);
    MapSumSmaller(StakeOfClaimers(dr, users), StakeByUser(dr.windows, dr.finalizedOutcome));
    StakeByUserAddsUp(dr.windows, dr.finalizedOutcome);
    CorrectLiveAtMost(dr.windows, dr.finalizedOutcome, Some(dr.finalizedOutcome));
  }

  /** The payouts of any set of users are covered by the bonds and by the fee. */
  lemma PayoutsCovered(dr: FinalizedRequest, users: set<AccountId>)
    requires FinalizedInv(dr)
    ensures MapSum(StakePayouts(dr, users)) <= Won(dr) + Lost(dr)
    ensures MapSum(FeePayouts(dr, users)) <= dr.paidFee
    ensures Won(dr) == 0 ==> MapSum(StakePayouts(dr, users)) == MapSum(FeePayouts(dr, users)) == 0
  {
    hide MapSum, CorrectStake, CorrectBonds, IncorrectBonds;
    var weights := StakeOfClaimers(dr, users);
    ClaimersWithinBonds(dr, users);
    if Won(dr) > 0 {
      PayoutsSplit(dr, users);
      SharesAtMost(weights, Lost(dr), Won(dr));
      SharesAtMost(weights, dr.paidFee, Won(dr));
    } else {
      forall u | u in users ensures WinningStake(dr, u) == 0 {
        MapSumAtLeast(weights, u);
      }
      MapSumAllZero(StakePayouts(dr, users));
      MapSumAllZero(FeePayouts(dr, users));
    }
  }

  /** The users with something to claim on a request settled from `dr`. */
  ghost function Winners(dr: FinalizedRequest): set<AccountId> {
    Positive(StakeByUser(dr.windows, dr.finalizedOutcome))
  }

  /** On a freshly settled request the winners' stakes are exactly the winning bonds. */
  lemma WinnersHoldTheBonds(dr: FinalizedRequest, users: set<AccountId>)
    requires Books(dr.windows, None) && Winners(dr) <= users
    ensures MapSum(StakeOfClaimers(dr, users)) == Won(dr)
    ensures Positive(StakeOfClaimers(dr, users)) == Winners(dr)
  {
    hide MapSum, CorrectStake, Consistent;
    var stakes := StakeByUser(dr.windows, dr.finalizedOutcome);
    StakeByUserAt(dr.windows, dr.finalizedOutcome);
    forall u ensures At(StakeOfClaimers(dr, users), u) == At(stakes, u) {
      assert At(stakes, u) == WinningStake(dr, u);
      if u !in users { assert u !in Winners(dr); }
    }
    assert Positive(StakeOfClaimers(dr, users)) == Winners(dr) by {
      forall u ensures u in Positive(StakeOfClaimers(dr, users)) <==> u in Winners(dr) {
        assert At(StakeOfClaimers(dr, users), u) == At(stakes, u);
      }
    }
    MapSumSame(StakeOfClaimers(dr, users), stakes);
    StakeByUserAddsUp(dr.windows, dr.finalizedOutcome);
    CorrectLiveAtMost(dr.windows, dr.finalizedOutcome, None);
  }

  /** The payouts of all winners leave less than one unit per winner, in either token. */
  lemma DustOnceAllClaimed(dr: FinalizedRequest, users: set<AccountId>)
    requires Books(dr.windows, None) && Won(dr) > 0 && Winners(dr) <= users
    ensures |Winners(dr)| >= 1
    ensures Won(dr) + Lost(dr) <= MapSum(StakePayouts(dr, users)) + (|Winners(dr)| - 1)
    ensures dr.paidFee <= MapSum(FeePayouts(dr, users)) + (|Winners(dr)| - 1)
  {
    hide MapSum, CorrectStake, CorrectBonds, IncorrectBonds, Consistent;
    var weights := StakeOfClaimers(dr, users);
    WinnersHoldTheBonds(dr, users);
    PayoutsSplit(dr, users);
    SharesDust(weights, Lost(dr), Won(dr));
    SharesDust(weights, dr.paidFee, Won(dr));
  }

  /**
   * Conservation with an exact dust bound: claims never pay more than the bonds and the fee; once every
   * winner has claimed at most one unit per winner but one is left over, in either token.
   */
  lemma ClaimConservation(dr: ActiveRequest, outcome: Outcome, calls: seq<SettledCall>)
    requires ActiveInv(dr) && Fits(Trimmed(dr, outcome))
    ensures var f := Trimmed(dr, outcome);
      var paid := TotalPaid(f, calls);
      && paid.stakeTokenPayout <= Won(f) + Lost(f)
      && paid.paymentTokenPayout <= f.paidFee
      && (Won(f) == 0 ==> paid == ClaimRes(0, 0))
      && (Won(f) > 0 && Winners(f) <= Claimers(calls) ==>
            && |Winners(f)| >= 1
            && Won(f) + Lost(f) <= paid.stakeTokenPayout + (|Winners(f)| - 1)
            && f.paidFee <= paid.paymentTokenPayout + (|Winners(f)| - 1))
  {
    hide MapSum, CorrectStake, CorrectBonds, IncorrectBonds, TotalPaid, Consistent;
    var f := Trimmed(dr, outcome);
    TrimKeeps(dr, outcome);
    TotalPaidByClaimers(f, calls);
    PayoutsCovered(f, Claimers(calls));
    if Won(f) > 0 && Winners(f) <= Claimers(calls) { DustOnceAllClaimed(f, Claimers(calls)); }
  }

  /** In every window that decided for the final outcome claims clear exactly the claimers' entries. */
  lemma {:induction false} SettledReadings(dr: FinalizedRequest, calls: seq<SettledCall>, i: nat)
    requires FinalizedInv(dr) && Fits(dr) && i < |dr.windows| && IsCorrect(dr.windows[i], dr.finalizedOutcome)
    ensures var windows' := AfterSettledCalls(dr, calls).windows;
      && |windows'| == |dr.windows|
      && windows'[i].bonded == dr.windows[i].bonded && windows'[i].bondSize == dr.windows[i].bondSize
      && forall u :: windows'[i].UserOn(u, dr.finalizedOutcome)
           == if u in Claimers(calls) then 0 else dr.windows[i].UserOn(u, dr.finalizedOutcome)
  {
    hide FinalizedInv, ClaimedRequest, Fits, Unstaked, Consistent, Window.Live, Window.Withdrawable, TotalLive,
         TotalWithdrawable;
    if calls != [] {
      var init, call := calls[..|calls| - 1], calls[|calls| - 1];
      var mid := AfterSettledCalls(dr, init);
      SettledReadings(dr, init, i);
      SettledRun(dr, init);
      assert calls == init + [call];
      match call {
        case ClaimCall(user) =>
          ClaimPays(mid, user);
          ClaimedWindowsReadings(mid, user);
          assert Claimers(calls) == Claimers(init) + {user};
        case WithdrawCall(sender, round, outcome, amount) =>
          assert Claimers(calls) == Claimers(init);
          if UnstakedRequest(Finalized(mid), sender, round, outcome, amount).Ok? {
            SettledBooks(mid);
            UnstakeOnWindow(mid.windows, Some(dr.finalizedOutcome), sender, round, outcome, amount);
          }
      }
    }
  }

  lemma SettledBooks(dr: FinalizedRequest)
    requires FinalizedInv(dr)
    ensures Chain(dr.windows) && Books(dr.windows, Some(dr.finalizedOutcome))
  {
  }

  /**
   * The redundant totals, to the unit: where the final outcome bonded, its total is what users still have
   * there plus the principal that claims have taken, and it stays the full bond.
   */
  lemma TotalsAccountForClaims(dr: ActiveRequest, outcome: Outcome, calls: seq<SettledCall>, i: nat)
    requires ActiveInv(dr) && Fits(Trimmed(dr, outcome))
    requires i < |dr.windows| && IsCorrect(dr.windows[i], outcome)
    ensures |AfterSettledCalls(Trimmed(dr, outcome), calls).windows| == |dr.windows|
    ensures var w' := AfterSettledCalls(Trimmed(dr, outcome), calls).windows[i];
      && w'.On(outcome) == w'.bondSize == dr.windows[i].bondSize
      && w'.On(outcome) == w'.LiveOn(outcome)
          + MapSum(map u | u in Claimers(calls) :: dr.windows[i].UserOn(u, outcome))
  {
    hide Fits, FinalizedInv, AfterSettledCalls, Consistent;
    var f := Trimmed(dr, outcome);
    TrimKeeps(dr, outcome);
    SettledReadings(f, calls, i);
    SettledRun(f, calls);
    SettledBooks(AfterSettledCalls(f, calls));
    TotalSplits(dr.windows[i], AfterSettledCalls(f, calls).windows[i], outcome, Claimers(calls));
  }

  /** A bonded outcome's total, once these users' entries on it have been cleared. */
  lemma TotalSplits(w: Window, w': Window, outcome: Outcome, users: set<AccountId>)
    requires Consistent(w, None) && Consistent(w', Some(outcome)) && IsCorrect(w, outcome)
    requires w'.bonded == w.bonded && w'.bondSize == w.bondSize
    requires forall u :: w'.UserOn(u, outcome) == if u in users then 0 else w.UserOn(u, outcome)
    ensures w'.On(outcome) == w'.bondSize == w.bondSize
    ensures w'.On(outcome) == w'.LiveOn(outcome) + MapSum(map u | u in users :: w.UserOn(u, outcome))
  {
    hide MapSum;
    assert w'.On(outcome) == w'.bondSize && w.On(outcome) == w.bondSize == w.LiveOn(outcome);
    var taken := map u | u in users :: w.UserOn(u, outcome);
    forall u ensures At(w.Column(outcome), u) == At(w'.Column(outcome), u) + At(taken, u) {
      ColumnAt(w, u, outcome);
      ColumnAt(w', u, outcome);
    }
    MapSumPlus(w'.Column(outcome), taken, w.Column(outcome));
  }

  /** After an undisputed finalization every winner's profit is below their own stake. */
  lemma ProfitBelowStake(dr: ActiveRequest, now: nat, user: AccountId)
    requires ActiveInv(dr) && CanFinalize(dr, now).Pass? && FinalOutcome(dr).Ok?
    ensures var f := Trimmed(dr, FinalOutcome(dr).value);
      WinningStake(f, user) > 0 ==> StakePayout(f, user) < 2 * WinningStake(f, user)
  {
    var f := Trimmed(dr, FinalOutcome(dr).value);
    MajorityBacked(dr, now);
    StakeWithinBonds(f.windows, f.finalizedOutcome, None, user);
    if WinningStake(f, user) > 0 {
      FirstBondPositive(f.windows, f.finalizedOutcome);
      ShareBelowPart(WinningStake(f, user), Lost(f), Won(f));
    }
  }

  lemma {:induction false} FirstBondPositive(windows: seq<Window>, finalOutcome: Outcome)
    requires Chain(windows) && CorrectBonds(windows, finalOutcome) > 0
    ensures |windows| > 0 && windows[0].bondSize > 0
  {
    if windows[0].bondSize == 0 {
      forall i | 0 <= i < |windows| ensures windows[i].bondSize == 0 {
        BondsDouble(windows, i);
      }
      NoBonds(windows, finalOutcome);
    }
  }

  lemma {:induction false} NoBonds(windows: seq<Window>, finalOutcome: Outcome)
    requires forall i :: 0 <= i < |windows| ==> windows[i].bondSize == 0
    ensures CorrectBonds(windows, finalOutcome) == 0
  {
    if windows != [] { NoBonds(windows[..|windows| - 1], finalOutcome); }
  }
}
