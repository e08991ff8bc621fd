/** What the oracle owes in one token, and how every call moves it. */
module Liabilities {
  import opened Prelude
  import opened Outcomes
  import opened Sums
  import opened ResolutionWindows
  import opened DataRequests
  import opened Disputes
  import opened Claims
  import opened OracleContract
  import opened OracleInvariant
  import opened OracleHistory

  /** Live stake while a request is open; then withdrawable stake and the payouts not yet claimed. */
  ghost function StakeOwed(dr: DataRequest): nat {
    match dr
    case Active(a) => TotalLive(a.windows)
    case Finalized(f) => TotalWithdrawable(f.windows) + MapSum(StakePayouts(f, Stakers(f.windows)))
  }

  /** Validity bond and fee while a request is open; then the fee shares not yet claimed. */
  ghost function PaymentOwed(dr: DataRequest): nat {
    match dr
    case Active(a) => a.config.validityBond + a.config.paidFee
    case Finalized(f) => MapSum(FeePayouts(f, Stakers(f.windows)))
  }

  ghost function RequestOwed(configs: seq<OracleConfig>, dr: DataRequest, token: AccountId): nat
    requires ConfigIdOf(dr) < |configs|
  {
    var config := configs[ConfigIdOf(dr)];
    (if config.stakeToken == token then StakeOwed(dr) else 0)
    + (if config.paymentToken == token then PaymentOwed(dr) else 0)
  }

  ghost predicate ConfigsExist(o: Oracle) {
    forall i :: 0 <= i < |o.requests| ==> ConfigIdOf(o.requests[i]) < |o.configs|
  }

  ghost function OwedPerRequest(o: Oracle, token: AccountId): seq<nat>
    requires ConfigsExist(o)
  {
    seq(|o.requests|, i requires 0 <= i < |o.requests| => RequestOwed(o.configs, o.requests[i], token))
  }

  ghost function Owed(o: Oracle, token: AccountId): nat
    requires ConfigsExist(o)
  {
    SeqSum(OwedPerRequest(o, token))
  }

  lemma InvConfigsExist(o: Oracle)
    requires OracleInv(o)
    ensures ConfigsExist(o)
  {
    hide ActiveInv, FinalizedInv;
    forall i | 0 <= i < |o.requests| ensures ConfigIdOf(o.requests[i]) < |o.configs| {
      assert RequestInv(o.configs, i, o.requests[i]);
    }
  }

  // ---------------------------------------------------------------------------------------------
  // How one request's debts move
  // ---------------------------------------------------------------------------------------------

  lemma {:induction false} StakersOfUpdate(windows: seq<Window>, k: nat, w: Window)
    requires k < |windows| && windows[k].userStakes.Keys <= w.userStakes.Keys
    ensures Stakers(windows) <= Stakers(windows[k := w])
  {
    var n := |windows|;
    var windows' := windows[k := w];
    if k == n - 1 {
      assert windows'[..n - 1] == windows[..n - 1];
    } else {
      StakersOfUpdate(windows[..n - 1], k, w);
      assert windows'[..n - 1] == windows[..n - 1][k := w];
    }
  }

  lemma {:induction false} StakersOfClaim(windows: seq<Window>, windows': seq<Window>)
    requires |windows'| == |windows|
    requires forall i :: 0 <= i < |windows| ==> windows'[i].userStakes.Keys == windows[i].userStakes.Keys
    ensures Stakers(windows') == Stakers(windows)
  {
    if windows != [] { StakersOfClaim(windows[..|windows| - 1], windows'[..|windows'| - 1]); }
  }

  /** Users without stake add nothing to the payouts. */
  lemma PayoutsOfMore(dr: FinalizedRequest, dr': FinalizedRequest, users: set<AccountId>, users': set<AccountId>)
    requires forall u :: WinningStake(dr', u) == WinningStake(dr, u)
    requires Won(dr') == Won(dr) && Lost(dr') == Lost(dr) && dr'.paidFee == dr.paidFee
    requires users <= users' && forall u :: u !in users ==> WinningStake(dr, u) == 0
    ensures MapSum(StakePayouts(dr', users')) == MapSum(StakePayouts(dr, users))
    ensures MapSum(FeePayouts(dr', users')) == MapSum(FeePayouts(dr, users))
  {
    hide MapSum, WinningStake, Won, Lost, ShareOf;
    ZeroShare(Lost(dr), Won(dr));
    ZeroShare(dr.paidFee, Won(dr));
    MapSumSame(StakePayouts(dr', users'), StakePayouts(dr, users));
    MapSumSame(FeePayouts(dr', users'), FeePayouts(dr, users));
  }

  lemma OnlyStakersHaveStake(dr: FinalizedRequest)
    ensures forall u :: u !in Stakers(dr.windows) ==> WinningStake(dr, u) == 0
  {
    forall u | u !in Stakers(dr.windows) ensures WinningStake(dr, u) == 0 {
      OthersHaveNothing(dr.windows, dr.finalizedOutcome, u);
    }
  }

  lemma UnstakedKeys(w: Window, sender: AccountId, outcome: Outcome, amount: nat)
    requires Unstaked(w, sender, outcome, amount).Ok?
    ensures w.userStakes.Keys <= Unstaked(w, sender, outcome, amount).value.userStakes.Keys
  {
  }

  /** Unstaking lowers the stake owed by exactly what it returns, before and after settlement. */
  lemma UnstakeOwed(dr: DataRequest, sender: AccountId, round: nat, outcome: Outcome, amount: nat)
    requires UnstakedRequest(dr, sender, round, outcome, amount).Ok?
    requires match dr case Active(a) => ActiveInv(a) case Finalized(f) => FinalizedInv(f)
    ensures var dr' := UnstakedRequest(dr, sender, round, outcome, amount).value;
      && StakeOwed(dr') + amount == StakeOwed(dr)
      && PaymentOwed(dr') == PaymentOwed(dr)
  {
    hide ActiveInv, FinalizedInv, TotalLive, TotalWithdrawable, MapSum, WinningStake, Won, Lost, Unstaked;
    match dr {
      case Active(a) =>
        UnstakeKeepsActive(a, sender, round, outcome, amount);
      case Finalized(f) =>
        UnstakeKeepsFinalized(f, sender, round, outcome, amount);
        UnstakeEffect(f, sender, round, outcome, amount);
        var f' := UnstakedRequest(dr, sender, round, outcome, amount).value.finalized;
        UnstakedKeys(f.windows[round], sender, outcome, amount);
        StakersOfUpdate(f.windows, round, f'.windows[round]);
        OnlyStakersHaveStake(f);
        PayoutsOfMore(f, f', Stakers(f.windows), Stakers(f'.windows));
    }
  }

  lemma ClaimedStakers(dr: FinalizedRequest, user: AccountId)
    requires FinalizedInv(dr)
    ensures Stakers(ClaimedWindows(dr.windows, user, dr.finalizedOutcome)) == Stakers(dr.windows)
  {
    hide Consistent, Window.Live, Window.Withdrawable;
    ClaimedWindowsReadings(dr, user);
    StakersOfClaim(dr.windows, ClaimedWindows(dr.windows, user, dr.finalizedOutcome));
  }

  /** A claim lowers the debts by exactly what it pays, in both tokens. */
  lemma ClaimOwed(dr: FinalizedRequest, user: AccountId)
    requires FinalizedInv(dr)
    ensures var dr' := dr.(windows := ClaimedWindows(dr.windows, user, dr.finalizedOutcome));
      && StakeOwed(Finalized(dr')) + StakePayout(dr, user) == StakeOwed(Finalized(dr))
      && PaymentOwed(Finalized(dr')) + FeePayout(dr, user) == PaymentOwed(Finalized(dr))
  {
    hide FinalizedInv, TotalLive, TotalWithdrawable, MapSum, WinningStake, Won, Lost, ShareOf;
    var dr' := dr.(windows := ClaimedWindows(dr.windows, user, dr.finalizedOutcome));
    ClaimEffect(dr, user);
    ClaimTakesPrincipal(dr, user);
    ClaimedStakers(dr, user);
    OnlyStakersHaveStake(dr);
    ZeroShare(Lost(dr), Won(dr));
    ZeroShare(dr.paidFee, Won(dr));
    var users := Stakers(dr.windows);
    MapSumChange(StakePayouts(dr', users), StakePayouts(dr, users), user);
    MapSumChange(FeePayouts(dr', users), FeePayouts(dr, users), user);
  }

  /** The live stake of an open request is its withdrawable stake plus every bond. */
  lemma {:induction false} LiveSplits(windows: seq<Window>, outcome: Outcome)
    requires Books(windows, None)
    ensures TotalLive(windows)
      == TotalWithdrawable(windows) + CorrectBonds(windows, outcome) + IncorrectBonds(windows, outcome)
  {
    hide Window.Live, Window.Withdrawable, Consistent;
    if windows == [] {
    } else {
      var n := |windows|;
      LiveSplits(windows[..n - 1], outcome);
      TotalsPrefix(windows, n - 1);
      assert windows[..n] == windows;
      assert Consistent(windows[n - 1], None);
      LiveSplitsAtTheBond(windows[n - 1]);
    }
  }

  /** Settling never raises a debt: the payouts fit into the bonds and the fee. */
  lemma SettleOwed(dr: ActiveRequest, outcome: Outcome)
    requires ActiveInv(dr)
    ensures var f := Trimmed(dr, outcome);
      && StakeOwed(Finalized(f)) <= StakeOwed(Active(dr))
      && PaymentOwed(Finalized(f)) + dr.config.validityBond <= PaymentOwed(Active(dr))
      && Won(f) + Lost(f) <= StakeOwed(Active(dr))
  {
    hide MapSum, TotalLive, TotalWithdrawable, CorrectBonds, IncorrectBonds, FinalizedInv;
    var f := Trimmed(dr, outcome);
    TrimKeeps(dr, outcome);
    LiveSplits(dr.windows, outcome);
    PayoutsCovered(f, Stakers(f.windows));
  }

  // ---------------------------------------------------------------------------------------------
  // How the contract's debt in one token moves
  // ---------------------------------------------------------------------------------------------

  lemma OwedAfterReplace(o: Oracle, id: nat, dr: DataRequest, token: AccountId)
    requires ConfigsExist(o) && id < |o.requests| && ConfigIdOf(dr) < |o.configs|
    ensures ConfigsExist(Replaced(o, id, dr))
    ensures Owed(Replaced(o, id, dr), token) + RequestOwed(o.configs, o.requests[id], token)
      == Owed(o, token) + RequestOwed(o.configs, dr, token)
  {
    hide RequestOwed;
    var o' := Replaced(o, id, dr);
    SeqSumUpdate(OwedPerRequest(o', token), OwedPerRequest(o, token), id);
  }

  lemma OwedAfterPush(o: Oracle, dr: DataRequest, token: AccountId)
    requires ConfigsExist(o) && ConfigIdOf(dr) < |o.configs|
    ensures ConfigsExist(o.(requests := o.requests + [dr]))
    ensures Owed(o.(requests := o.requests + [dr]), token) == Owed(o, token) + RequestOwed(o.configs, dr, token)
  {
    hide RequestOwed;
    var all := OwedPerRequest(o.(requests := o.requests + [dr]), token);
    assert all[..|all| - 1] == OwedPerRequest(o, token);
  }

  /** Changing configs without changing terms changes no debt. */
  lemma OwedAfterConfigs(o: Oracle, o': Oracle, token: AccountId)
    requires ConfigsExist(o) && o'.requests == o.requests && |o.configs| <= |o'.configs|
    requires forall i :: 0 <= i < |o.configs| ==> SameTerms(o.configs[i], o'.configs[i])
    ensures ConfigsExist(o') && Owed(o', token) == Owed(o, token)
  {
    hide StakeOwed, PaymentOwed;
    forall i | 0 <= i < |o.requests|
      ensures RequestOwed(o'.configs, o.requests[i], token) == RequestOwed(o.configs, o.requests[i], token)
    {
      assert SameTerms(o.configs[ConfigIdOf(o.requests[i])], o'.configs[ConfigIdOf(o.requests[i])]);
    }
    assert OwedPerRequest(o', token) == OwedPerRequest(o, token);
  }

  /** The part of a call's outgoing transfers that is in this token. */
  function Outgoing(transfers: seq<Transfer>, token: AccountId): nat {
    if transfers == [] then 0
    else
      var last := transfers[|transfers| - 1];
      Outgoing(transfers[..|transfers| - 1], token) + (if last.token == token then last.amount else 0)
  }

  /** What a successful call keeps of an incoming transfer of this token. */
  function Received(env: Env, call: Call, unspent: nat, token: AccountId): nat {
    if env.predecessor != token then 0
    else
      match call
      case DrNew(_, amount, _) => if unspent <= amount then amount - unspent else 0
      case DrStake(_, amount, _, _) => if unspent <= amount then amount - unspent else 0
      case FtOnTransfer(_, amount, _) => if unspent <= amount then amount - unspent else 0
      case _ => 0
  }

  /** Requests settled in this token's stake can pay every claim without leaving 128 bits. */
  ghost predicate SettledFit(o: Oracle, token: AccountId)
    requires ConfigsExist(o)
  {
    forall i :: (0 <= i < |o.requests| && o.requests[i].Finalized?
                 && o.configs[ConfigIdOf(o.requests[i])].stakeToken == token)
      ==> Fits(o.requests[i].finalized)
  }

  lemma NewRequestOwed(o: Oracle, env: Env, sender: AccountId, amount: u128, args: NewRequestArgs, token: AccountId)
    requires OracleInv(o) && ConfigsExist(o) && NewRequest(o, env, sender, amount, args).Ok?
    ensures var o' := NewRequest(o, env, sender, amount, args).value.oracle;
      && ConfigsExist(o')
      && Owed(o', token) == Owed(o, token) + (if env.predecessor == token then amount else 0)
  {
    hide OracleInv, Owed;
    var o' := NewRequest(o, env, sender, amount, args).value.oracle;
    var dr := o'.requests[|o.requests|];
    OwedAfterPush(o, dr, token);
    assert StakeOwed(dr) == 0 by { assert LivePerWindow([]) == []; }
  }

  lemma StakeRequestOwed(o: Oracle, env: Env, sender: AccountId, amount: nat, id: nat, outcome: Outcome,
                         token: AccountId)
    requires OracleInv(o) && ConfigsExist(o) && StakeRequest(o, env, sender, amount, id, outcome).Ok?
    ensures var effect := StakeRequest(o, env, sender, amount, id, outcome).value;
      && ConfigsExist(effect.oracle)
      && effect.unspent <= amount
      && Owed(effect.oracle, token)
        == Owed(o, token) + (if env.predecessor == token then amount - effect.unspent else 0)
  {
    hide OracleInv, Owed, Evolves, TotalLive, StakedRequest, CanStakeOn, ValidOutcome, ValidOutcomeType;
    StakeRequestKeeps(o, env, sender, amount, id, outcome);
    var o' := StakeRequest(o, env, sender, amount, id, outcome).value.oracle;
    SameIdentity(o, o', id);
    OwedAfterReplace(o, id, o'.requests[id], token);
  }

  lemma SameIdentity(o: Oracle, o': Oracle, id: nat)
    requires Evolves(o, o') && id < |o.requests|
    ensures id < |o'.requests| && ConfigIdOf(o'.requests[id]) == ConfigIdOf(o.requests[id])
    ensures o.requests[id].Active? && o'.requests[id].Active?
      ==> o'.requests[id].active.config == o.requests[id].active.config
  {
    assert RequestEvolves(o.requests[id], o'.requests[id]);
  }

  lemma UnstakeRequestOwed(o: Oracle, env: Env, id: nat, round: nat, outcome: Outcome, amount: nat, token: AccountId)
    requires OracleInv(o) && ConfigsExist(o) && UnstakeRequest(o, env, id, round, outcome, amount).Ok?
    ensures var effect := UnstakeRequest(o, env, id, round, outcome, amount).value;
      && ConfigsExist(effect.oracle)
      && Owed(effect.oracle, token) + Outgoing(effect.transfers, token) == Owed(o, token)
  {
    hide ActiveInv, FinalizedInv, Owed, Evolves, TotalLive, StakeOwed, PaymentOwed, UnstakedRequest;
    UnstakeRequestKeeps(o, env, id, round, outcome, amount);
    var effect := UnstakeRequest(o, env, id, round, outcome, amount).value;
    SameIdentity(o, effect.oracle, id);
    assert RequestInv(o.configs, id, o.requests[id]);
    UnstakeOwed(o.requests[id], env.predecessor, round, outcome, amount);
    OwedAfterReplace(o, id, effect.oracle.requests[id], token);
    assert effect.transfers[..0] == [];
  }

  lemma OutgoingOfTwo(stakeToken: AccountId, paymentToken: AccountId, user: AccountId, stake: nat, fee: nat,
                      token: AccountId)
    ensures Outgoing(TransferIfAny(stakeToken, user, stake) + TransferIfAny(paymentToken, user, fee), token)
      == (if stakeToken == token then stake else 0) + (if paymentToken == token then fee else 0)
  {
    var first, second := TransferIfAny(stakeToken, user, stake), TransferIfAny(paymentToken, user, fee);
    assert Outgoing([], token) == 0;
    assert Outgoing(first, token) == if stakeToken == token then stake else 0 by { assert first[..0] == []; }
    if fee > 0 {
      assert (first + second)[..|first + second| - 1] == first;
    } else {
      assert first + second == first;
    }
  }

  lemma ClaimRequestOwed(o: Oracle, env: Env, accountId: AccountId, id: nat, token: AccountId)
    requires OracleInv(o) && ConfigsExist(o) && ClaimRequest(o, env, accountId, id).Ok?
    ensures var effect := ClaimRequest(o, env, accountId, id).value;
      && ConfigsExist(effect.oracle)
      && Owed(effect.oracle, token) + Outgoing(effect.transfers, token) <= Owed(o, token)
  {
    hide OracleInv, FinalizedInv, Owed, Evolves, StakeOwed, PaymentOwed, ClaimedRequest;
    ClaimRequestKeeps(o, env, accountId, id);
    SettledInv(o, id);
    var f := o.requests[id].finalized;
    var effect := ClaimRequest(o, env, accountId, id).value;
    var paid := ClaimedRequest(f, accountId).value.1;
    var config := o.configs[ConfigIdOf(o.requests[id])];
    ClaimedRequestWindows(f, accountId);
    ClaimedAmounts(f, accountId);
    ClaimOwed(f, accountId);
    OwedAfterReplace(o, id, effect.oracle.requests[id], token);
    OutgoingOfTwo(config.stakeToken, config.paymentToken, accountId, paid.stakeTokenPayout,
                  paid.paymentTokenPayout, token);
  }

  /** Whenever a claim succeeds it pays the exact shares. */
  lemma ClaimedAmounts(dr: FinalizedRequest, user: AccountId)
    requires ClaimedRequest(dr, user).Ok?
    ensures ClaimedRequest(dr, user).value.1 == ClaimRes(FeePayout(dr, user), StakePayout(dr, user))
  {
    hide CorrectStake, CorrectBonds, IncorrectBonds;
  }

  lemma SettleRequestOwed(o: Oracle, env: Env, call: Call, id: nat, token: AccountId)
    requires OracleInv(o) && ConfigsExist(o) && SettlesById(call, id) && Execute(o, env, call).Ok?
    ensures var effect := Execute(o, env, call).value;
      && ConfigsExist(effect.oracle)
      && Owed(effect.oracle, token) + Outgoing(effect.transfers, token) <= Owed(o, token)
      && IsSettled(effect.oracle, id)
      && id < |o.requests| && ConfigIdOf(o.requests[id]) < |o.configs|
      && (o.configs[ConfigIdOf(o.requests[id])].stakeToken == token
          ==> Won(effect.oracle.requests[id].finalized) + Lost(effect.oracle.requests[id].finalized) <= Owed(o, token))
      && effect.oracle == Replaced(o, id, effect.oracle.requests[id])
      && effect.oracle.requests[id].finalized.paidFee <= U128_MAX
  {
    hide ActiveInv, FinalizedInv, Owed, Execute, StakeOwed, PaymentOwed, ValidOutcome, Admissible, Won, Lost;
    SettlementIsAdmissible(o, env, call, id);
    var effect := Execute(o, env, call).value;
    var dr, f := o.requests[id].active, effect.oracle.requests[id].finalized;
    assert RequestInv(o.configs, id, o.requests[id]);
    SettleOwed(dr, f.finalizedOutcome);
    OwedAfterReplace(o, id, effect.oracle.requests[id], token);
    OwedAtLeast(o, id, token);
    if effect.transfers != [] { assert effect.transfers[..0] == []; }
  }

  lemma OwedAtLeast(o: Oracle, id: nat, token: AccountId)
    requires ConfigsExist(o) && id < |o.requests|
    ensures RequestOwed(o.configs, o.requests[id], token) <= Owed(o, token)
  {
    hide RequestOwed;
    SeqSumSplit(OwedPerRequest(o, token), id);
  }

  /** No call owes more, in any one token, than what it kept of a transfer of that token. */
  lemma CallMovesDebt(o: Oracle, env: Env, call: Call, token: AccountId)
    requires OracleInv(o) && ConfigsExist(o) && Execute(o, env, call).Ok?
    ensures var effect := Execute(o, env, call).value;
      && ConfigsExist(effect.oracle)
      && Owed(effect.oracle, token) + Outgoing(effect.transfers, token)
        <= Owed(o, token) + Received(env, call, effect.unspent, token)
  {
    hide OracleInv, Owed, NewRequest, StakeRequest, UnstakeRequest, ClaimRequest;
    match call {
      case DrNew(sender, amount, args) =>
        NewRequestOwed(o, env, sender, amount, args, token);
        NewRequestQuiet(o, env, sender, amount, args);
      case DrStake(sender, amount, id, outcome) =>
        StakeRequestOwed(o, env, sender, amount, id, outcome, token);
        StakeRequestKeeps(o, env, sender, amount, id, outcome);
      case FtOnTransfer(sender, amount, payload) =>
        if payload.NewDataRequest? {
          NewRequestOwed(o, env, sender, amount, payload.args, token);
          NewRequestQuiet(o, env, sender, amount, payload.args);
        } else {
          StakeRequestOwed(o, env, sender, amount, payload.id, payload.outcome, token);
          StakeRequestKeeps(o, env, sender, amount, payload.id, payload.outcome);
        }
      case DrUnstake(id, round, outcome, amount) =>
        UnstakeRequestOwed(o, env, id, round, outcome, amount, token);
      case DrClaim(accountId, id) =>
        ClaimRequestOwed(o, env, accountId, id, token);
      case DrFinalize(id) => SettleRequestOwed(o, env, call, id, token);
      case DrFinalizeByProvider(id, outcome) => SettleRequestOwed(o, env, call, id, token);
      case DrFinalArbitratorFinalize(id, outcome) => SettleRequestOwed(o, env, call, id, token);
      case SetConfig(config) => OwedAfterConfigs(o, Execute(o, env, call).value.oracle, token);
      case UpdateFeeConfig(fee, _) => OwedAfterConfigs(o, Execute(o, env, call).value.oracle, token);
      case TogglePause => OwedAfterConfigs(o, Execute(o, env, call).value.oracle, token);
    }
  }

  lemma NewRequestQuiet(o: Oracle, env: Env, sender: AccountId, amount: nat, args: NewRequestArgs)
    requires NewRequest(o, env, sender, amount, args).Ok?
    ensures NewRequest(o, env, sender, amount, args).value.transfers == []
    ensures NewRequest(o, env, sender, amount, args).value.unspent == 0
  {
  }

  /** What is settled while the debt fits 128 bits can be claimed without overflow ever after. */
  lemma CallKeepsSettledFit(o: Oracle, env: Env, call: Call, token: AccountId)
    requires OracleInv(o) && ConfigsExist(o) && Execute(o, env, call).Ok?
    requires SettledFit(o, token) && Owed(o, token) <= U128_MAX
    ensures ConfigsExist(Execute(o, env, call).value.oracle)
    ensures SettledFit(Execute(o, env, call).value.oracle, token)
  {
    hide OracleInv, Owed, Execute;
    var o' := Execute(o, env, call).value.oracle;
    ExecuteKeeps(o, env, call);
    InvConfigsExist(o');
    forall i | 0 <= i < |o'.requests| && o'.requests[i].Finalized?
      && o'.configs[ConfigIdOf(o'.requests[i])].stakeToken == token
      ensures Fits(o'.requests[i].finalized)
    {
      if IsSettled(o, i) {
        SettledStaysFit(o, o', i, token);
      } else if SettlesById(call, i) {
        SettleRequestOwed(o, env, call, i, token);
        SameTokens(o, o', i);
      } else {
        OthersDoNotSettle(o, env, call, i);
      }
    }
  }

  lemma SameTokens(o: Oracle, o': Oracle, id: nat)
    requires Evolves(o, o') && ConfigsExist(o) && ConfigsExist(o') && id < |o.requests|
    ensures o'.configs[ConfigIdOf(o'.requests[id])].stakeToken == o.configs[ConfigIdOf(o.requests[id])].stakeToken
  {
    assert RequestEvolves(o.requests[id], o'.requests[id]);
    assert SameTerms(o.configs[ConfigIdOf(o.requests[id])], o'.configs[ConfigIdOf(o.requests[id])]);
  }

  lemma SettledStaysFit(o: Oracle, o': Oracle, id: nat, token: AccountId)
    requires Evolves(o, o') && ConfigsExist(o) && ConfigsExist(o') && IsSettled(o, id)
    requires SettledFit(o, token)
    requires id < |o'.requests| && o'.configs[ConfigIdOf(o'.requests[id])].stakeToken == token
    ensures IsSettled(o', id) && Fits(o'.requests[id].finalized)
  {
    hide CorrectBonds, IncorrectBonds;
    SameTokens(o, o', id);
    VerdictStays(o, o', id);
    SameBonds(o.requests[id].finalized.windows, o'.requests[id].finalized.windows,
              o.requests[id].finalized.finalizedOutcome);
  }
}
