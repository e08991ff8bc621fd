/** What claims pay over whole runs of the oracle, with every other call of the contract in between. */
module ClaimHistory {
  import opened Prelude
  import opened Outcomes
  import opened Sums
  import opened ResolutionWindows
  import opened DataRequests
  import opened Disputes
  import opened Claims
  import opened OracleContract
  import opened OracleInvariant
  import opened OracleHistory
  import opened Liabilities

  // ---------------------------------------------------------------------------------------------
  // The record of a run
  // ---------------------------------------------------------------------------------------------

  /** The call is a claim on request `id` that goes through. */
  predicate PaysClaim(o: Oracle, env: Env, call: Call, id: nat) {
    call.DrClaim? && call.id == id && IsSettled(o, id) && Execute(o, env, call).Ok?
  }

  /** Who has claimed successfully along the run. */
  function Claimants(o: Oracle, steps: seq<Step>, id: nat): set<AccountId> {
    if steps == [] then {}
    else
      var init, last := steps[..|steps| - 1], steps[|steps| - 1];
      Claimants(o, init, id)
      + (if PaysClaim(After(o, init), last.env, last.call, id) then {last.call.accountId} else {})
  }

  /** How many claims went through along the run. */
  function PaidClaims(o: Oracle, steps: seq<Step>, id: nat): nat {
    if steps == [] then 0
    else
      var init, last := steps[..|steps| - 1], steps[|steps| - 1];
      PaidClaims(o, init, id) + (if PaysClaim(After(o, init), last.env, last.call, id) then 1 else 0)
  }

  /** All that claims on request `id` paid along the run. */
  function PaidOut(o: Oracle, steps: seq<Step>, id: nat): ClaimRes {
    if steps == [] then ClaimRes(0, 0)
    else
      var init, last := steps[..|steps| - 1], steps[|steps| - 1];
      var paid, mid := PaidOut(o, init, id), After(o, init);
      if !PaysClaim(mid, last.env, last.call, id) then paid
      else
        var claim := ClaimOf(mid.requests[id].finalized, last.call.accountId);
        ClaimRes(paid.paymentTokenPayout + claim.paymentTokenPayout,
                 paid.stakeTokenPayout + claim.stakeTokenPayout)
  }

  /** The request as its settlement along the run left it. */
  function SettledAs(o: Oracle, steps: seq<Step>, id: nat): FinalizedRequest
    requires IsSettled(After(o, steps), id)
  {
    if steps != [] && IsSettled(After(o, steps[..|steps| - 1]), id)
    then SettledAs(o, steps[..|steps| - 1], id)
    else After(o, steps).requests[id].finalized
  }

  // ---------------------------------------------------------------------------------------------
  // The record explains the stored request
  // ---------------------------------------------------------------------------------------------

  /** `f` is what is left of `f0` after these claimants were paid that much. */
  ghost predicate Explains(f0: FinalizedRequest, f: FinalizedRequest, claimants: set<AccountId>, paid: ClaimRes) {
    && FinalizedInv(f0) && Books(f0.windows, None)
    && f == f0.(windows := f.windows)
    && Won(f) == Won(f0) && Lost(f) == Lost(f0)
    && (forall u :: WinningStake(f, u) == if u in claimants then 0 else WinningStake(f0, u))
    && (forall u :: u in claimants ==> WinningStake(f0, u) > 0)
    && paid == ClaimRes(MapSum(FeePayouts(f0, claimants)), MapSum(StakePayouts(f0, claimants)))
  }

  /** A fresh settlement with nobody paid yet. */
  lemma FreshlySettled(dr: ActiveRequest, outcome: Outcome)
    requires ActiveInv(dr)
    ensures var f := Trimmed(dr, outcome); Explains(f, f, {}, ClaimRes(0, 0))
  {
    hide Chain, Consistent, CorrectStake, CorrectBonds, IncorrectBonds;
    var f := Trimmed(dr, outcome);
    TrimKeeps(dr, outcome);
    assert FeePayouts(f, {}) == map[] && StakePayouts(f, {}) == map[];
  }

  /** One more claim that goes through is by someone new, who had stake, and pays the shares of `f0`. */
  lemma ClaimExplained(f0: FinalizedRequest, f: FinalizedRequest, claimants: set<AccountId>, paid: ClaimRes,
                       user: AccountId)
    requires Explains(f0, f, claimants, paid) && FinalizedInv(f)
    requires ClaimedRequest(f, user).Ok? && ClaimOf(f, user) != ClaimRes(0, 0)
    ensures user !in claimants
    ensures ClaimOf(f, user) == ClaimRes(FeePayout(f0, user), StakePayout(f0, user))
    ensures Explains(f0, ClaimedRequest(f, user).value.0, claimants + {user},
                     ClaimRes(paid.paymentTokenPayout + FeePayout(f0, user),
                              paid.stakeTokenPayout + StakePayout(f0, user)))
  {
    hide FinalizedInv, Books, WinningStake, Won, Lost, MapSum, ClaimedRequest, ShareOf;
    ClaimedAmounts(f, user);
    ClaimedRequestWindows(f, user);
    ClaimEffect(f, user);
    ZeroShare(Lost(f), Won(f));
    ZeroShare(f.paidFee, Won(f));
    OneMorePayout(f0, claimants, user);
  }

  lemma UnstakeExplained(f0: FinalizedRequest, f: FinalizedRequest, claimants: set<AccountId>, paid: ClaimRes,
                         sender: AccountId, round: nat, outcome: Outcome, amount: nat)
    requires Explains(f0, f, claimants, paid) && FinalizedInv(f)
    requires UnstakedRequest(Finalized(f), sender, round, outcome, amount).Ok?
    ensures Explains(f0, UnstakedRequest(Finalized(f), sender, round, outcome, amount).value.finalized,
                     claimants, paid)
  {
    hide FinalizedInv, Books, WinningStake, Won, Lost, MapSum, Unstaked, FeePayouts, StakePayouts;
    UnstakeEffect(f, sender, round, outcome, amount);
  }

  /** Only claims and unstakes move a settled request. */
  lemma OthersLeaveSettled(o: Oracle, env: Env, call: Call, id: nat)
    requires OracleInv(o) && IsSettled(o, id) && Execute(o, env, call).Ok?
    requires !(call.DrClaim? && call.id == id) && !(call.DrUnstake? && call.id == id)
    ensures var o' := Execute(o, env, call).value.oracle;
      IsSettled(o', id) && o'.requests[id] == o.requests[id]
  {
    hide OracleInv, StakedRequest, UnstakedRequest, ClaimedRequest, Trimmed, CanStakeOn, ValidOutcome,
         ValidOutcomeType, FinalOutcome, CanFinalize;
  }

  lemma PaidClaimTransfers(o: Oracle, env: Env, user: AccountId, id: nat)
    requires ClaimRequest(o, env, user, id).Ok?
    ensures IsSettled(o, id) && ClaimedRequest(o.requests[id].finalized, user).Ok?
    ensures ClaimOf(o.requests[id].finalized, user) != ClaimRes(0, 0)
  {
    hide ClaimedRequest;
  }

  /** One successful call on a settled request keeps the record true. */
  lemma CallExplained(o: Oracle, env: Env, call: Call, id: nat, f0: FinalizedRequest, claimants: set<AccountId>,
                      paid: ClaimRes)
    requires OracleInv(o) && IsSettled(o, id) && Execute(o, env, call).Ok?
    requires Explains(f0, o.requests[id].finalized, claimants, paid)
    ensures var o', f := Execute(o, env, call).value.oracle, o.requests[id].finalized;
      && IsSettled(o', id)
      && (if PaysClaim(o, env, call, id)
          then var claim := ClaimOf(f, call.accountId);
            && call.accountId !in claimants
            && Explains(f0, o'.requests[id].finalized, claimants + {call.accountId},
                        ClaimRes(paid.paymentTokenPayout + claim.paymentTokenPayout,
                                 paid.stakeTokenPayout + claim.stakeTokenPayout))
          else Explains(f0, o'.requests[id].finalized, claimants, paid))
  {
    hide OracleInv, Evolves, Explains, ClaimedRequest, UnstakedRequest, ClaimOf, FinalizedInv;
    SettledInv(o, id);
    var f := o.requests[id].finalized;
    if call.DrClaim? && call.id == id {
      ClaimRequestKeeps(o, env, call.accountId, id);
      PaidClaimTransfers(o, env, call.accountId, id);
      ClaimExplained(f0, f, claimants, paid, call.accountId);
    } else if call.DrUnstake? && call.id == id {
      UnstakeRequestKeeps(o, env, id, call.round, call.outcome, call.amount);
      StaysFinalized(f, env.predecessor, call.round, call.outcome, call.amount);
      UnstakeExplained(f0, f, claimants, paid, env.predecessor, call.round, call.outcome, call.amount);
    } else {
      OthersLeaveSettled(o, env, call, id);
    }
  }

  lemma StaysFinalized(f: FinalizedRequest, sender: AccountId, round: nat, outcome: Outcome, amount: nat)
    requires UnstakedRequest(Finalized(f), sender, round, outcome, amount).Ok?
    ensures UnstakedRequest(Finalized(f), sender, round, outcome, amount).value.Finalized?
  {
  }

  /** Along any run the record of claims explains the stored request, and everyone is paid at most once. */
  lemma {:induction false} RunExplained(o: Oracle, steps: seq<Step>, id: nat)
    requires OracleInv(o) && !IsSettled(o, id)
    ensures PaidClaims(o, steps, id) == |Claimants(o, steps, id)|
    ensures !IsSettled(After(o, steps), id)
      ==> Claimants(o, steps, id) == {} && PaidOut(o, steps, id) == ClaimRes(0, 0)
    ensures IsSettled(After(o, steps), id)
      ==> Explains(SettledAs(o, steps, id), After(o, steps).requests[id].finalized,
                   Claimants(o, steps, id), PaidOut(o, steps, id))
  {
    hide OracleInv, Execute, Evolves, Explains, SettlesById, ClaimOf;
    if steps != [] {
      var init, last := steps[..|steps| - 1], steps[|steps| - 1];
      var mid := After(o, init);
      RunExplained(o, init, id);
      RunKeeps(o, init);
      if Execute(mid, last.env, last.call).Ok? {
        if IsSettled(mid, id) {
          CallExplained(mid, last.env, last.call, id, SettledAs(o, init, id), Claimants(o, init, id),
                        PaidOut(o, init, id));
        } else if SettlesById(last.call, id) {
          SettlementIsAdmissible(mid, last.env, last.call, id);
          ActiveHolds(mid, id);
          FreshlySettled(mid.requests[id].active, After(o, steps).requests[id].finalized.finalizedOutcome);
        } else {
          OthersDoNotSettle(mid, last.env, last.call, id);
        }
      }
    }
  }

  // ---------------------------------------------------------------------------------------------
  // Conservation over runs
  // ---------------------------------------------------------------------------------------------

  /**
   * From before its settlement on, whatever else is called: the claims on a request pay at most its bonds and
   * its fee, nothing if no bond was won, and everyone at most once. Once nobody has winning stake left, less
   * than one unit per paid claim is left over, in either token.
   */
  lemma ClaimsConservedOverRuns(o: Oracle, steps: seq<Step>, id: nat)
    requires OracleInv(o) && !IsSettled(o, id) && IsSettled(After(o, steps), id)
    ensures var f, paid, n :=
        After(o, steps).requests[id].finalized, PaidOut(o, steps, id), PaidClaims(o, steps, id);
      && n == |Claimants(o, steps, id)|
      && paid.stakeTokenPayout <= Won(f) + Lost(f)
      && paid.paymentTokenPayout <= f.paidFee
      && (Won(f) == 0 ==> n == 0 && paid == ClaimRes(0, 0))
      && (Won(f) > 0 && (forall u :: WinningStake(f, u) == 0) ==>
            && n >= 1
            && Won(f) + Lost(f) <= paid.stakeTokenPayout + (n - 1)
            && f.paidFee <= paid.paymentTokenPayout + (n - 1))
  {
    hide MapSum, CorrectStake, CorrectBonds, IncorrectBonds, FinalizedInv, Books, PaidClaims, Claimants, PaidOut,
         FeePayouts, StakePayouts, Winners, OracleInv, After;
    RunExplained(o, steps, id);
    var f0, f := SettledAs(o, steps, id), After(o, steps).requests[id].finalized;
    var claimants := Claimants(o, steps, id);
    PayoutsCovered(f0, claimants);
    if Won(f) == 0 {
      NobodyWins(f0, claimants);
    } else if forall u :: WinningStake(f, u) == 0 {
      forall u ensures WinningStake(f0, u) > 0 <==> u in claimants {
        assert WinningStake(f, u) == 0;
      }
      AllWinnersClaimed(f0, claimants);
      DustOnceAllClaimed(f0, claimants);
    }
  }

  lemma NobodyWins(f0: FinalizedRequest, claimants: set<AccountId>)
    requires FinalizedInv(f0) && Won(f0) == 0
    requires forall u :: u in claimants ==> WinningStake(f0, u) > 0
    ensures claimants == {}
  {
    hide CorrectStake, CorrectBonds, Consistent;
    if u :| u in claimants {
      StakeWithinBonds(f0.windows, f0.finalizedOutcome, Some(f0.finalizedOutcome), u);
    }
  }

  lemma AllWinnersClaimed(f0: FinalizedRequest, claimants: set<AccountId>)
    requires forall u :: WinningStake(f0, u) > 0 <==> u in claimants
    ensures Winners(f0) == claimants
  {
    hide CorrectStake;
    StakeByUserAt(f0.windows, f0.finalizedOutcome);
    var stakes := StakeByUser(f0.windows, f0.finalizedOutcome);
    forall u ensures u in Winners(f0) <==> u in claimants {
      assert At(stakes, u) == WinningStake(f0, u);
    }
  }

  /**
   * One shot over whole runs: at any point after the settlement a claim goes through exactly for those who
   * had winning stake when the request settled and have not been paid since, and it pays the shares as of then.
   */
  lemma ClaimsPayOnceOverRuns(o: Oracle, steps: seq<Step>, id: nat, env: Env, user: AccountId)
    requires OracleInv(o) && !IsSettled(o, id) && IsSettled(After(o, steps), id)
    requires !After(o, steps).paused && env.hostOk && Fits(After(o, steps).requests[id].finalized)
    ensures var f0 := SettledAs(o, steps, id);
      && (ClaimRequest(After(o, steps), env, user, id).Ok?
          <==> WinningStake(f0, user) > 0 && user !in Claimants(o, steps, id))
      && (ClaimRequest(After(o, steps), env, user, id).Ok?
          ==> ClaimOf(After(o, steps).requests[id].finalized, user)
              == ClaimRes(FeePayout(f0, user), StakePayout(f0, user)))
  {
    hide OracleInv, After, Claimants, PaidOut, WinningStake, Won, Lost, ClaimedRequest, FinalizedInv, Books, Evolves,
         FeePayouts, StakePayouts, ClaimRequest, PaidClaims, Fits;
    RunExplained(o, steps, id);
    RunKeeps(o, steps);
    ClaimSucceedsIff(After(o, steps), env, user, id);
    SettledInv(After(o, steps), id);
    ClaimPays(After(o, steps).requests[id].finalized, user);
  }

  // ---------------------------------------------------------------------------------------------
  // Entries on bonded outcomes over runs
  // ---------------------------------------------------------------------------------------------

  /** The call is the user's own claim on a request that settled on this outcome, and goes through. */
  predicate ClaimsOn(o: Oracle, env: Env, call: Call, id: nat, user: AccountId, outcome: Outcome) {
    && PaysClaim(o, env, call, id) && call.accountId == user
    && o.requests[id].finalized.finalizedOutcome == outcome
  }

  /** Window `w'` decided as `w` did, and the user's entry on its bonded outcome is `w`'s unless it was cleared. */
  predicate EntryKept(w: Window, w': Window, user: AccountId, cleared: bool) {
    && w.bonded.Some? && w'.bonded == w.bonded && w'.bondSize == w.bondSize
    && w'.UserOn(user, w.bonded.value) == if cleared then 0 else w.UserOn(user, w.bonded.value)
  }

  lemma StakeLeavesDecided(dr: ActiveRequest, sender: AccountId, outcome: Outcome, amount: nat, now: nat, i: nat)
    requires ActiveInv(dr) && !dr.finalArbitratorTriggered && i < |dr.windows| && dr.windows[i].bonded.Some?
    requires StakedRequest(dr, sender, outcome, amount, now).Ok?
    ensures var windows' := StakedRequest(dr, sender, outcome, amount, now).value.0.windows;
      i < |windows'| && windows'[i] == dr.windows[i]
  {
    hide Staked, Opened, ResolutionBond, ActiveInv, Consistent;
    LastIsUndecided(dr);
  }

  lemma UnstakeLeavesEntries(dr: DataRequest, settled: Option<Outcome>, sender: AccountId, round: nat,
                             outcome: Outcome, amount: nat, i: nat, user: AccountId)
    requires i < |WindowsOf(dr)| && WindowsOf(dr)[i].bonded.Some? && Books(WindowsOf(dr), settled)
    requires UnstakedRequest(dr, sender, round, outcome, amount).Ok?
    ensures var windows' := WindowsOf(UnstakedRequest(dr, sender, round, outcome, amount).value);
      i < |windows'| && EntryKept(WindowsOf(dr)[i], windows'[i], user, false)
  {
    hide Consistent, Window.Live, Window.LiveOn, Window.Withdrawable;
    if i == round {
      UnstakeDebitsSender(WindowsOf(dr)[i], sender, outcome, amount);
    }
  }

  lemma ClaimClearsEntries(f: FinalizedRequest, claimant: AccountId, i: nat, user: AccountId)
    requires FinalizedInv(f) && i < |f.windows| && f.windows[i].bonded.Some?
    ensures var windows' := ClaimedWindows(f.windows, claimant, f.finalizedOutcome);
      EntryKept(f.windows[i], windows'[i], user,
                claimant == user && f.windows[i].bonded.value == f.finalizedOutcome)
  {
    hide FinalizedInv, Window.Live, Window.Withdrawable;
    ClaimedWindowsReadings(f, claimant);
  }

  lemma BooksOf(o: Oracle, id: nat)
    requires OracleInv(o) && id < |o.requests|
    ensures Books(WindowsOf(o.requests[id]),
                  if o.requests[id].Active? then None else Some(o.requests[id].finalized.finalizedOutcome))
  {
    hide Chain, Books, OnlyAdmissible;
    assert RequestInv(o.configs, id, o.requests[id]);
  }

  lemma StakeKeepsEntries(o: Oracle, env: Env, sender: AccountId, amount: nat, j: nat, outcome: Outcome, id: nat,
                          i: nat, user: AccountId)
    requires OracleInv(o) && StakeRequest(o, env, sender, amount, j, outcome).Ok?
    requires id < |o.requests| && i < |WindowsOf(o.requests[id])| && WindowsOf(o.requests[id])[i].bonded.Some?
    ensures var o' := StakeRequest(o, env, sender, amount, j, outcome).value.oracle;
      && id < |o'.requests| && i < |WindowsOf(o'.requests[id])|
      && EntryKept(WindowsOf(o.requests[id])[i], WindowsOf(o'.requests[id])[i], user, false)
  {
    hide OracleInv, ActiveInv, StakedRequest, CanStakeOn, ValidOutcome, ValidOutcomeType;
    if j == id {
      ActiveHolds(o, id);
      StakeLeavesDecided(o.requests[id].active, sender, outcome, amount, env.now, i);
    }
  }

  lemma UnstakeKeepsEntries(o: Oracle, env: Env, j: nat, round: nat, outcome: Outcome, amount: nat, id: nat, i: nat,
                            user: AccountId)
    requires OracleInv(o) && UnstakeRequest(o, env, j, round, outcome, amount).Ok?
    requires id < |o.requests| && i < |WindowsOf(o.requests[id])| && WindowsOf(o.requests[id])[i].bonded.Some?
    ensures var o' := UnstakeRequest(o, env, j, round, outcome, amount).value.oracle;
      && id < |o'.requests| && i < |WindowsOf(o'.requests[id])|
      && EntryKept(WindowsOf(o.requests[id])[i], WindowsOf(o'.requests[id])[i], user, false)
  {
    hide OracleInv, Books, UnstakedRequest;
    if j == id {
      BooksOf(o, id);
      var settled := if o.requests[id].Active? then None else Some(o.requests[id].finalized.finalizedOutcome);
      UnstakeLeavesEntries(o.requests[id], settled, env.predecessor, round, outcome, amount, i, user);
    }
  }

  lemma ClaimKeepsOtherEntries(o: Oracle, env: Env, claimant: AccountId, j: nat, id: nat, i: nat, user: AccountId)
    requires OracleInv(o) && ClaimRequest(o, env, claimant, j).Ok?
    requires id < |o.requests| && i < |WindowsOf(o.requests[id])| && WindowsOf(o.requests[id])[i].bonded.Some?
    ensures var o' := ClaimRequest(o, env, claimant, j).value.oracle;
      var w := WindowsOf(o.requests[id])[i];
      && id < |o'.requests| && i < |WindowsOf(o'.requests[id])|
      && EntryKept(w, WindowsOf(o'.requests[id])[i], user,
                   ClaimsOn(o, env, DrClaim(claimant, j), id, user, w.bonded.value))
  {
    hide OracleInv, FinalizedInv, Books, ClaimedRequest;
    if j == id {
      SettledInv(o, id);
      ClaimClearsEntries(o.requests[id].finalized, claimant, i, user);
      ClaimedRequestWindows(o.requests[id].finalized, claimant);
    }
  }

  /** One call clears a user's entry on a bonded outcome only by that user's own claim on that outcome. */
  lemma EntryStep(o: Oracle, env: Env, call: Call, id: nat, i: nat, user: AccountId)
    requires OracleInv(o) && Execute(o, env, call).Ok?
    requires id < |o.requests| && i < |WindowsOf(o.requests[id])| && WindowsOf(o.requests[id])[i].bonded.Some?
    ensures var o' := Execute(o, env, call).value.oracle;
      var w := WindowsOf(o.requests[id])[i];
      && id < |o'.requests| && i < |WindowsOf(o'.requests[id])|
      && EntryKept(w, WindowsOf(o'.requests[id])[i], user, ClaimsOn(o, env, call, id, user, w.bonded.value))
  {
    hide OracleInv, StakeRequest, UnstakeRequest, ClaimRequest, ValidOutcome, FinalOutcome, CanFinalize,
         Window.UserOn;
    match call {
      case DrStake(sender, amount, j, outcome) =>
        StakeKeepsEntries(o, env, sender, amount, j, outcome, id, i, user);
      case FtOnTransfer(sender, amount, payload) =>
        if payload.StakeDataRequest? {
          StakeKeepsEntries(o, env, sender, amount, payload.id, payload.outcome, id, i, user);
        }
      case DrUnstake(j, round, outcome, amount) =>
        UnstakeKeepsEntries(o, env, j, round, outcome, amount, id, i, user);
      case DrClaim(claimant, j) =>
        ClaimKeepsOtherEntries(o, env, claimant, j, id, i, user);
      case _ =>
    }
  }

  /** The user has claimed along the run, and the request has settled on this outcome. */
  predicate PaidOn(o: Oracle, steps: seq<Step>, id: nat, user: AccountId, outcome: Outcome) {
    && user in Claimants(o, steps, id)
    && IsSettled(After(o, steps), id)
    && After(o, steps).requests[id].finalized.finalizedOutcome == outcome
  }

  /**
   * Whatever is called, before and after settlement: what a user has on an outcome that bonded stays there
   * until the user's own claim clears it, and only if the request settles on that outcome.
   */
  lemma {:induction false} BondedEntriesStay(o: Oracle, steps: seq<Step>, id: nat, i: nat, user: AccountId)
    requires OracleInv(o)
    requires id < |o.requests| && i < |WindowsOf(o.requests[id])| && WindowsOf(o.requests[id])[i].bonded.Some?
    ensures var o', w := After(o, steps), WindowsOf(o.requests[id])[i];
      && id < |o'.requests| && i < |WindowsOf(o'.requests[id])|
      && EntryKept(w, WindowsOf(o'.requests[id])[i], user, PaidOn(o, steps, id, user, w.bonded.value))
      && (user in Claimants(o, steps, id) ==> IsSettled(o', id))
  {
    hide OracleInv, Execute, Evolves, Window.UserOn;
    if steps != [] {
      var init, last := steps[..|steps| - 1], steps[|steps| - 1];
      var mid := After(o, init);
      BondedEntriesStay(o, init, id, i, user);
      RunKeeps(o, init);
      if Execute(mid, last.env, last.call).Ok? {
        EntryStep(mid, last.env, last.call, id, i, user);
        if IsSettled(mid, id) {
          ExecuteKeeps(mid, last.env, last.call);
          VerdictStays(mid, Execute(mid, last.env, last.call).value.oracle, id);
        }
      }
    }
  }

  /** Since settlement a winner's entry in a winning window is gone exactly if the winner has been paid. */
  lemma {:induction false} EntriesSinceSettlement(o: Oracle, steps: seq<Step>, id: nat, i: nat, user: AccountId)
    requires OracleInv(o) && !IsSettled(o, id) && IsSettled(After(o, steps), id)
    requires var f0 := SettledAs(o, steps, id);
      i < |f0.windows| && IsCorrect(f0.windows[i], f0.finalizedOutcome)
    ensures var f0, f := SettledAs(o, steps, id), After(o, steps).requests[id].finalized;
      && |f.windows| == |f0.windows| && f.finalizedOutcome == f0.finalizedOutcome
      && EntryKept(f0.windows[i], f.windows[i], user, user in Claimants(o, steps, id))
  {
    hide OracleInv, Execute, Evolves, Window.UserOn, Explains;
    var init, last := steps[..|steps| - 1], steps[|steps| - 1];
    var mid := After(o, init);
    RunKeeps(o, init);
    if IsSettled(mid, id) {
      EntriesSinceSettlement(o, init, id, i, user);
      if Execute(mid, last.env, last.call).Ok? {
        EntryStep(mid, last.env, last.call, id, i, user);
        ExecuteKeeps(mid, last.env, last.call);
        VerdictStays(mid, Execute(mid, last.env, last.call).value.oracle, id);
      }
    } else {
      RunExplained(o, init, id);
    }
  }

  /**
   * The redundant totals over whole runs, to the unit: where the final outcome bonded, its total is what users
   * still have there plus the principal that the run's claimants took there, and it stays the full bond.
   */
  lemma TotalsAccountOverRuns(o: Oracle, steps: seq<Step>, id: nat, i: nat)
    requires OracleInv(o) && !IsSettled(o, id) && IsSettled(After(o, steps), id)
    requires var f0 := SettledAs(o, steps, id);
      i < |f0.windows| && IsCorrect(f0.windows[i], f0.finalizedOutcome)
    ensures var f0, f := SettledAs(o, steps, id), After(o, steps).requests[id].finalized;
      && f.finalizedOutcome == f0.finalizedOutcome && |f.windows| == |f0.windows|
      && var w0, w := f0.windows[i], f.windows[i];
      && w.On(f.finalizedOutcome) == w.bondSize == w0.bondSize
      && w.On(f.finalizedOutcome) == w.LiveOn(f.finalizedOutcome)
          + MapSum(map u | u in Claimants(o, steps, id) :: w0.UserOn(u, f0.finalizedOutcome))
  {
    hide OracleInv, After, Claimants, PaidOut, PaidClaims, MapSum, FeePayouts, StakePayouts, WinningStake, Won, Lost,
         Chain, Consistent, Evolves, Window.On, Window.UserOn, Window.LiveOn;
    var f0, f := SettledAs(o, steps, id), After(o, steps).requests[id].finalized;
    RunExplained(o, steps, id);
    RunKeeps(o, steps);
    SettledInv(After(o, steps), id);
    EntriesSinceSettlement(o, steps, id, i, AccountId("anyone"));
    forall u ensures EntryKept(f0.windows[i], f.windows[i], u, u in Claimants(o, steps, id)) {
      EntriesSinceSettlement(o, steps, id, i, u);
    }
    TotalSplits(f0.windows[i], f.windows[i], f0.finalizedOutcome, Claimants(o, steps, id));
  }
}
