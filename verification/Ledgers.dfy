/** Whose stake it is: what each call does to every single entry, and stake conserved user by user. */
module Ledgers {
  import opened Prelude
  import opened Outcomes
  import opened Sums
  import opened ResolutionWindows
  import opened DataRequests
  import opened Disputes
  import opened Escalation
  import opened Claims
  import opened OracleContract
  import opened OracleInvariant
  import opened OracleHistory

  /** What one user has on one outcome in one window of one request; 0 where there is nothing to read. */
  function EntryAt(o: Oracle, id: nat, i: nat, user: AccountId, outcome: Outcome): nat {
    if id < |o.requests| then EntryIn(WindowsOf(o.requests[id]), i, user, outcome) else 0
  }

  function EntryIn(windows: seq<Window>, i: nat, user: AccountId, outcome: Outcome): nat {
    if i < |windows| then windows[i].UserOn(user, outcome) else 0
  }

  /** The window that takes the next stake: the last one, or the first one still to be opened. */
  function CurrentRound(windows: seq<Window>): nat {
    if |windows| == 0 then 0 else |windows| - 1
  }

  // ---------------------------------------------------------------------------------------------
  // Stakes
  // ---------------------------------------------------------------------------------------------

  /**
   * How a stake leaves the windows: those before the current one as they were; the current one, with the
   * bond it had or opened now at twice the resolution bond, decided exactly if the outcome reaches the bond;
   * and after a bond below the arbitrator's amount one more, open, empty, at twice the bond, from now on.
   */
  ghost predicate StakeLeaves(dr: ActiveRequest, dr': ActiveRequest, outcome: Outcome, amount: nat, now: nat) {
    var k := CurrentRound(dr.windows);
    && k < |dr'.windows| <= k + 2
    && (forall i :: 0 <= i < k ==> dr'.windows[i] == dr.windows[i])
    && var w' := dr'.windows[k];
    && (if |dr.windows| > 0
        then var w := dr.windows[k]; w'.bondSize == w.bondSize && w'.startTime == w.startTime && w'.endTime == w.endTime
        else && ResolutionBond(dr.config).Ok? && w'.bondSize == 2 * ResolutionBond(dr.config).value
             && w'.startTime == now && w'.endTime == now + dr.initialChallengePeriod)
    && var on := if |dr.windows| > 0 then dr.windows[k].On(outcome) else 0;
    && w'.bonded == (if on + amount >= w'.bondSize then Some(outcome) else None)
    && (dr'.finalArbitratorTriggered <==>
          w'.bonded.Some? && w'.bondSize >= dr.config.finalArbitratorInvokeAmount)
    && (|dr'.windows| == k + 2 <==>
          w'.bonded.Some? && w'.bondSize < dr.config.finalArbitratorInvokeAmount)
    && (|dr'.windows| == k + 2 ==>
          var next := dr'.windows[k + 1];
          && next.bondSize == 2 * w'.bondSize && next.bonded == None && next.startTime == now
          && next.endTime == now + (if k == 0 then dr.initialChallengePeriod
                                    else dr.config.defaultChallengeWindowDuration)
          && next.outcomeToStake == map[] && next.userStakes == map[])
  }

  /** The stake is the sender's and nobody else's, and what does not fit under the bond comes back. */
  ghost predicate StakeCredits(dr: ActiveRequest, dr': ActiveRequest, sender: AccountId, outcome: Outcome,
                               amount: nat, unspent: nat) {
    var k := CurrentRound(dr.windows);
    && k < |dr'.windows|
    && unspent <= amount
    && var open := dr'.windows[k].bondSize - (if |dr.windows| > 0 then dr.windows[k].On(outcome) else 0);
    && unspent == (if amount > open then amount - open else 0)
    && (forall i: nat, u, o :: EntryIn(dr'.windows, i, u, o)
          == EntryIn(dr.windows, i, u, o) + (if i == k && u == sender && o == outcome then amount - unspent else 0))
  }

  /** The last window takes the stake, and one more may follow it. */
  lemma StakeShape(dr: ActiveRequest, sender: AccountId, outcome: Outcome, amount: nat, now: nat)
    requires !dr.finalArbitratorTriggered && StakedRequest(dr, sender, outcome, amount, now).Ok?
    ensures LastWindow(dr, now).Ok? && Staked(LastWindow(dr, now).value, sender, outcome, amount).Ok?
    ensures var (dr', unspent), k := StakedRequest(dr, sender, outcome, amount, now).value, CurrentRound(dr.windows);
      var (w, rest) := Staked(LastWindow(dr, now).value, sender, outcome, amount).value;
      var goesOn := w.bonded.Some? && w.bondSize < dr.config.finalArbitratorInvokeAmount;
      && unspent == rest
      && |dr'.windows| == k + (if goesOn then 2 else 1)
      && (forall i :: 0 <= i < k ==> dr'.windows[i] == dr.windows[i])
      && dr'.windows[k] == w
      && (dr'.finalArbitratorTriggered <==>
            w.bonded.Some? && w.bondSize >= dr.config.finalArbitratorInvokeAmount)
      && (goesOn ==>
            Opened((k + 1) % U16_RANGE, w.bondSize, ChallengePeriod(dr, k + 1), now) == Ok(dr'.windows[k + 1]))
  {
    hide Staked, LastWindow, Opened, ChallengePeriod;
    var k := CurrentRound(dr.windows);
    var w := Staked(LastWindow(dr, now).value, sender, outcome, amount).value.0;
    var windows := WithLastWindow(dr.windows, w);
    assert |windows| == k + 1 && windows[k] == w;
    assert forall i :: 0 <= i < k ==> windows[i] == dr.windows[i];
    assert StakedRequest(dr, sender, outcome, amount, now).value.0.windows[..k + 1] == windows;
  }

  lemma StakeMeans(dr: ActiveRequest, sender: AccountId, outcome: Outcome, amount: nat, now: nat)
    requires ActiveInv(dr) && StakeGuards(dr, outcome)
    requires StakedRequest(dr, sender, outcome, amount, now).Ok?
    ensures var (dr', unspent) := StakedRequest(dr, sender, outcome, amount, now).value;
      && StakeLeaves(dr, dr', outcome, amount, now)
      && StakeCredits(dr, dr', sender, outcome, amount, unspent)
  {
    hide ActiveInv, Admissible, CanStakeOn, Consistent, Staked, ResolutionBond, StakedRequest, StakeLeaves,
         StakeCredits;
    StakeShape(dr, sender, outcome, amount, now);
    var last := LastWindow(dr, now).value;
    StartedKeeps(dr, now);
    LastIsUndecided(Started(dr, now));
    StakeKeepsBooks(last, sender, outcome, amount);
    StakeCreditsSender(last, sender, outcome, amount);
    StakedShape(last, sender, outcome, amount);
    StakeFillsTheBond(last, sender, outcome, amount);
    if |dr.windows| == 0 { EmptyAtFirst(dr, now); }
    WindowsAfterStake(dr, sender, outcome, amount, now);
    CreditAfterStake(dr, sender, outcome, amount, now);
  }

  lemma WindowsAfterStake(dr: ActiveRequest, sender: AccountId, outcome: Outcome, amount: nat, now: nat)
    requires !dr.finalArbitratorTriggered && StakedRequest(dr, sender, outcome, amount, now).Ok?
    requires var last := LastWindow(dr, now).value;
      && Staked(last, sender, outcome, amount).Ok?
      && var w := Staked(last, sender, outcome, amount).value.0;
      && w.bondSize == last.bondSize && w.startTime == last.startTime && w.endTime == last.endTime
      && w.bonded == (if last.On(outcome) + amount >= w.bondSize then Some(outcome) else None)
    ensures StakeLeaves(dr, StakedRequest(dr, sender, outcome, amount, now).value.0, outcome, amount, now)
  {
    hide Staked, ResolutionBond, StakedRequest;
    StakeShape(dr, sender, outcome, amount, now);
  }

  lemma CreditAfterStake(dr: ActiveRequest, sender: AccountId, outcome: Outcome, amount: nat, now: nat)
    requires !dr.finalArbitratorTriggered && StakedRequest(dr, sender, outcome, amount, now).Ok?
    requires var last := LastWindow(dr, now).value;
      && Staked(last, sender, outcome, amount).Ok?
      && var (w, unspent) := Staked(last, sender, outcome, amount).value;
      && last.On(outcome) <= w.bondSize == last.bondSize && unspent <= amount
      && unspent == (if amount > last.bondSize - last.On(outcome)
                     then amount - (last.bondSize - last.On(outcome)) else 0)
      && (forall u, o :: w.UserOn(u, o)
            == last.UserOn(u, o) + (if u == sender && o == outcome then amount - unspent else 0))
    requires |dr.windows| == 0 ==>
      && LastWindow(dr, now).value.On(outcome) == 0
      && forall u, o :: LastWindow(dr, now).value.UserOn(u, o) == 0
    ensures var (dr', unspent) := StakedRequest(dr, sender, outcome, amount, now).value;
      StakeCredits(dr, dr', sender, outcome, amount, unspent)
  {
    hide Staked, StakedRequest, ResolutionBond, FirstWindow;
    StakeShape(dr, sender, outcome, amount, now);
    var dr', k := StakedRequest(dr, sender, outcome, amount, now).value.0, CurrentRound(dr.windows);
    if |dr'.windows| == k + 2 {
      OpenedIsEmpty((k + 1) % U16_RANGE, dr'.windows[k].bondSize, ChallengePeriod(dr, k + 1), now);
    }
  }

  lemma OpenedIsEmpty(round: nat, prevBond: nat, period: nat, now: nat)
    requires Opened(round, prevBond, period, now).Ok?
    ensures var w := Opened(round, prevBond, period, now).value;
      forall u, o :: w.UserOn(u, o) == 0 && w.On(o) == 0
  {
  }

  lemma EmptyAtFirst(dr: ActiveRequest, now: nat)
    requires |dr.windows| == 0 && LastWindow(dr, now).Ok?
    ensures var w := LastWindow(dr, now).value;
      forall u, o :: w.UserOn(u, o) == 0 && w.On(o) == 0
  {
    hide ResolutionBond, Opened;
    OpenedIsEmpty(0, ResolutionBond(dr.config).value, dr.initialChallengePeriod, now);
  }

  // ---------------------------------------------------------------------------------------------
  // What one call does to one entry
  // ---------------------------------------------------------------------------------------------

  datatype StakeArgs = StakeArgs(sender: AccountId, amount: nat, id: nat, outcome: Outcome)

  function StakeOf(call: Call): Option<StakeArgs> {
    match call
    case DrStake(sender, amount, id, outcome) => Some(StakeArgs(sender, amount, id, outcome))
    case FtOnTransfer(sender, amount, StakeDataRequest(id, outcome)) => Some(StakeArgs(sender, amount, id, outcome))
    case _ => None
  }

  /** The part of an accepted stake that is this entry's. */
  function PutBy(stake: StakeArgs, o: Oracle, unspent: nat, id: nat, i: nat, user: AccountId, outcome: Outcome): nat {
    if stake.id == id && id < |o.requests| && i == CurrentRound(WindowsOf(o.requests[id]))
      && stake.sender == user && stake.outcome == outcome && unspent <= stake.amount
    then stake.amount - unspent else 0
  }

  /** What a call adds to the entry: a stake, less what comes back, is the sender's on its outcome. */
  function Put(o: Oracle, env: Env, call: Call, id: nat, i: nat, user: AccountId, outcome: Outcome): nat {
    var result := Execute(o, env, call);
    if result.Ok? && StakeOf(call).Some?
    then PutBy(StakeOf(call).value, o, result.value.unspent, id, i, user, outcome) else 0
  }

  /** What a call takes from the entry: an unstake takes the caller's. */
  function Taken(o: Oracle, env: Env, call: Call, id: nat, i: nat, user: AccountId, outcome: Outcome): nat {
    if Execute(o, env, call).Ok? && call.DrUnstake?
      && call.id == id && call.round == i && env.predecessor == user && call.outcome == outcome
    then call.amount else 0
  }

  /** What a call pays out of the entry: a claim all of the claimant's, where the final outcome bonded. */
  function Paid(o: Oracle, env: Env, call: Call, id: nat, i: nat, user: AccountId, outcome: Outcome): nat {
    if Execute(o, env, call).Ok? && call.DrClaim? && call.id == id && call.accountId == user
      && IsSettled(o, id) && i < |o.requests[id].finalized.windows|
      && o.requests[id].finalized.finalizedOutcome == outcome
      && o.requests[id].finalized.windows[i].bonded == Some(outcome)
    then EntryAt(o, id, i, user, outcome) else 0
  }

  lemma StakeEntry(o: Oracle, env: Env, sender: AccountId, amount: nat, id: nat, outcome: Outcome)
    requires OracleInv(o) && StakeRequest(o, env, sender, amount, id, outcome).Ok?
    ensures var effect := StakeRequest(o, env, sender, amount, id, outcome).value;
      && id < |o.requests| && o.requests[id].Active?
      && effect.oracle == Replaced(o, id, effect.oracle.requests[id])
      && effect.oracle.requests[id].Active?
      && StakeLeaves(o.requests[id].active, effect.oracle.requests[id].active, outcome, amount, env.now)
      && StakeCredits(o.requests[id].active, effect.oracle.requests[id].active, sender, outcome, amount,
                      effect.unspent)
  {
    hide OracleInv, ActiveInv, StakedRequest, CanStakeOn, ValidOutcome, ValidOutcomeType, StakeLeaves, StakeCredits;
    ActiveHolds(o, id);
    StakeMeans(o.requests[id].active, sender, outcome, amount, env.now);
  }

  lemma UnstakeEntry(dr: DataRequest, sender: AccountId, round: nat, outcome: Outcome, amount: nat)
    requires UnstakedRequest(dr, sender, round, outcome, amount).Ok?
    ensures var windows, windows' :=
        WindowsOf(dr), WindowsOf(UnstakedRequest(dr, sender, round, outcome, amount).value);
      && |windows'| == |windows|
      && (forall i: nat, u, o :: EntryIn(windows, i, u, o) == EntryIn(windows', i, u, o)
            + (if i == round && u == sender && o == outcome then amount else 0))
  {
    hide Unstaked;
    UnstakeDebitsSender(WindowsOf(dr)[round], sender, outcome, amount);
  }

  lemma ClaimEntry(windows: seq<Window>, claimant: AccountId, final: Outcome, i: nat, user: AccountId, outcome: Outcome)
    ensures EntryIn(ClaimedWindows(windows, claimant, final), i, user, outcome)
      == if i < |windows| && user == claimant && outcome == final && windows[i].bonded == Some(final) then 0
         else EntryIn(windows, i, user, outcome)
  {
    hide Window.LiveOn;
    if i < |windows| { LiveAfterRemoval(windows[i], claimant, final); }
  }

  lemma StakeLedger(o: Oracle, env: Env, stake: StakeArgs, id: nat, i: nat, user: AccountId, outcome: Outcome)
    requires OracleInv(o) && StakeRequest(o, env, stake.sender, stake.amount, stake.id, stake.outcome).Ok?
    ensures var effect := StakeRequest(o, env, stake.sender, stake.amount, stake.id, stake.outcome).value;
      EntryAt(effect.oracle, id, i, user, outcome)
      == EntryAt(o, id, i, user, outcome) + PutBy(stake, o, effect.unspent, id, i, user, outcome)
  {
    hide OracleInv, StakeRequest, EntryIn, StakeLeaves;
    StakeEntry(o, env, stake.sender, stake.amount, stake.id, stake.outcome);
  }

  lemma UnstakeLedger(o: Oracle, env: Env, j: nat, round: nat, oc: Outcome, amount: nat, id: nat, i: nat,
                      user: AccountId, outcome: Outcome)
    requires UnstakeRequest(o, env, j, round, oc, amount).Ok?
    ensures EntryAt(UnstakeRequest(o, env, j, round, oc, amount).value.oracle, id, i, user, outcome)
        + (if j == id && round == i && env.predecessor == user && oc == outcome then amount else 0)
      == EntryAt(o, id, i, user, outcome)
  {
    hide UnstakedRequest, EntryIn;
    UnstakeEntry(o.requests[j], env.predecessor, round, oc, amount);
  }

  lemma ClaimLedger(o: Oracle, env: Env, claimant: AccountId, j: nat, id: nat, i: nat, user: AccountId,
                    outcome: Outcome)
    requires ClaimRequest(o, env, claimant, j).Ok?
    ensures EntryAt(ClaimRequest(o, env, claimant, j).value.oracle, id, i, user, outcome)
        + Paid(o, env, DrClaim(claimant, j), id, i, user, outcome)
      == EntryAt(o, id, i, user, outcome)
  {
    hide ClaimedRequest, EntryIn;
    var f := o.requests[j].finalized;
    ClaimedRequestWindows(f, claimant);
    ClaimEntry(f.windows, claimant, f.finalizedOutcome, i, user, outcome);
  }

  /**
   * The ledger law of every call: an entry grows by the stakes of its own user on its own outcome in its own
   * window, shrinks by that user's own unstakes and own claim, and no other call touches it.
   */
  lemma CallLedger(o: Oracle, env: Env, call: Call, id: nat, i: nat, user: AccountId, outcome: Outcome)
    requires OracleInv(o) && Execute(o, env, call).Ok?
    ensures EntryAt(Execute(o, env, call).value.oracle, id, i, user, outcome)
        + Taken(o, env, call, id, i, user, outcome) + Paid(o, env, call, id, i, user, outcome)
      == EntryAt(o, id, i, user, outcome) + Put(o, env, call, id, i, user, outcome)
  {
    hide OracleInv, StakeRequest, UnstakeRequest, ClaimRequest, ValidOutcome, FinalOutcome, CanFinalize, EntryIn;
    match call {
      case DrStake(sender, amount, j, oc) =>
        StakeLedger(o, env, StakeArgs(sender, amount, j, oc), id, i, user, outcome);
      case FtOnTransfer(sender, amount, payload) =>
        if payload.StakeDataRequest? {
          StakeLedger(o, env, StakeArgs(sender, amount, payload.id, payload.outcome), id, i, user, outcome);
        } else {
          NoEntries(i, user, outcome);
        }
      case DrNew(_, _, _) => NoEntries(i, user, outcome);
      case DrUnstake(j, round, oc, amount) => UnstakeLedger(o, env, j, round, oc, amount, id, i, user, outcome);
      case DrClaim(claimant, j) => ClaimLedger(o, env, claimant, j, id, i, user, outcome);
      case _ =>
    }
  }

  lemma NoEntries(i: nat, user: AccountId, outcome: Outcome)
    ensures EntryIn([], i, user, outcome) == 0
  {
  }

  // ---------------------------------------------------------------------------------------------
  // Conservation user by user
  // ---------------------------------------------------------------------------------------------

  function StakesIn(windows: seq<Window>, i: nat, user: AccountId): map<Outcome, nat> {
    if i < |windows| then windows[i].StakesOf(user) else map[]
  }

  /** What a user has in the first `n` windows, on all outcomes. */
  ghost function UserIn(windows: seq<Window>, user: AccountId, n: nat): nat {
    if n == 0 then 0 else UserIn(windows, user, n - 1) + MapSum(StakesIn(windows, n - 1, user))
  }

  /** What a user still has in a request. */
  ghost function UserStake(o: Oracle, id: nat, user: AccountId): nat {
    if id < |o.requests| then UserIn(WindowsOf(o.requests[id]), user, |WindowsOf(o.requests[id])|) else 0
  }

  lemma {:induction false} UserInBeyond(windows: seq<Window>, user: AccountId, n: nat)
    requires n >= |windows|
    ensures UserIn(windows, user, n) == UserIn(windows, user, |windows|)
  {
    if n > |windows| { UserInBeyond(windows, user, n - 1); }
  }

  /** Where all readings agree the sums do, and where one reading is larger by `delta` the sum is. */
  lemma SumsFollow(windows: seq<Window>, windows': seq<Window>, i: nat, user: AccountId, outcome: Outcome, delta: nat)
    requires forall o ::
      EntryIn(windows', i, user, o) == EntryIn(windows, i, user, o) + (if o == outcome then delta else 0)
    ensures MapSum(StakesIn(windows', i, user)) == MapSum(StakesIn(windows, i, user)) + delta
  {
    hide MapSum;
    var m, m' := StakesIn(windows, i, user), StakesIn(windows', i, user);
    forall o ensures At(m', o) == At(m, o) + (if o == outcome then delta else 0) {
      assert EntryIn(windows', i, user, o) == At(m', o) && EntryIn(windows, i, user, o) == At(m, o);
    }
    MapSumChange(m', m, outcome);
  }

  /** One entry of the user moved by `delta`, in window `k`. */
  ghost predicate OneEntryMoved(windows: seq<Window>, windows': seq<Window>, user: AccountId, k: nat, outcome: Outcome,
                                delta: nat) {
    forall i: nat, o :: EntryIn(windows', i, user, o)
      == EntryIn(windows, i, user, o) + (if i == k && o == outcome then delta else 0)
  }

  lemma {:induction false} UserInMoves(windows: seq<Window>, windows': seq<Window>, user: AccountId, k: nat,
                                       outcome: Outcome, delta: nat, n: nat)
    requires OneEntryMoved(windows, windows', user, k, outcome, delta)
    ensures UserIn(windows', user, n) == UserIn(windows, user, n) + (if k < n then delta else 0)
  {
    hide EntryIn, StakesIn, MapSum;
    if n > 0 {
      UserInMoves(windows, windows', user, k, outcome, delta, n - 1);
      SumsFollow(windows, windows', n - 1, user, outcome, if k == n - 1 then delta else 0);
    }
  }

  lemma UserTotalMoves(windows: seq<Window>, windows': seq<Window>, user: AccountId, k: nat, outcome: Outcome,
                       delta: nat)
    requires OneEntryMoved(windows, windows', user, k, outcome, delta)
    requires delta > 0 ==> k < |windows'|
    ensures UserIn(windows', user, |windows'|) == UserIn(windows, user, |windows|) + delta
  {
    hide OneEntryMoved, UserIn;
    var n := Max(|windows|, |windows'|);
    UserInBeyond(windows, user, n);
    UserInBeyond(windows', user, n);
    UserInMoves(windows, windows', user, k, outcome, delta, n);
  }

  /** A claim takes the claimant's winning stake and nothing else of anyone. */
  lemma {:induction false} UserInClaimed(windows: seq<Window>, claimant: AccountId, final: Outcome, user: AccountId,
                                         n: nat)
    requires n <= |windows|
    ensures UserIn(ClaimedWindows(windows, claimant, final), user, n)
        + (if user == claimant then CorrectStake(windows[..n], final, user) else 0)
      == UserIn(windows, user, n)
  {
    hide MapSum;
    var windows' := ClaimedWindows(windows, claimant, final);
    if n > 0 {
      UserInClaimed(windows, claimant, final, user, n - 1);
      NextPrefix(windows, n - 1, final, user);
      if user == claimant && IsCorrect(windows[n - 1], final) {
        MapSumWithout(windows[n - 1].StakesOf(user), final);
        if user !in windows[n - 1].userStakes { assert windows[n - 1].StakesOf(user) - {final} == map[]; }
      } else {
        assert StakesIn(windows', n - 1, user) == StakesIn(windows, n - 1, user);
      }
    }
  }

  /** What one successful call moves of one user's stake in a request. */
  function UserFlowOf(o: Oracle, env: Env, call: Call, id: nat, user: AccountId): Flow {
    match Execute(o, env, call)
    case Panic(_) => Flow(0, 0, 0)
    case Ok(effect) =>
      if StakeOf(call).Some? && StakeOf(call).value.id == id && StakeOf(call).value.sender == user
        && effect.unspent <= StakeOf(call).value.amount
      then Flow(StakeOf(call).value.amount - effect.unspent, 0, 0)
      else if call.DrUnstake? && call.id == id && env.predecessor == user then Flow(0, call.amount, 0)
      else if call.DrClaim? && call.id == id && call.accountId == user && IsSettled(o, id)
      then Flow(0, 0, WinningStake(o.requests[id].finalized, user))
      else Flow(0, 0, 0)
  }

  function UserFlowOfRun(o: Oracle, steps: seq<Step>, id: nat, user: AccountId): Flow {
    if steps == [] then Flow(0, 0, 0)
    else
      var init, last := steps[..|steps| - 1], steps[|steps| - 1];
      var before := UserFlowOfRun(o, init, id, user);
      var now := UserFlowOf(After(o, init), last.env, last.call, id, user);
      Flow(before.accepted + now.accepted, before.unstaked + now.unstaked, before.principal + now.principal)
  }

  lemma StakeMovesUser(o: Oracle, env: Env, sender: AccountId, amount: nat, j: nat, outcome: Outcome, id: nat,
                       user: AccountId)
    requires OracleInv(o) && StakeRequest(o, env, sender, amount, j, outcome).Ok?
    ensures var effect := StakeRequest(o, env, sender, amount, j, outcome).value;
      && effect.unspent <= amount
      && UserStake(effect.oracle, id, user)
        == UserStake(o, id, user) + (if j == id && sender == user then amount - effect.unspent else 0)
  {
    hide OracleInv, StakeRequest, StakeLeaves, UserIn, EntryIn;
    StakeEntry(o, env, sender, amount, j, outcome);
    if j == id {
      var effect := StakeRequest(o, env, sender, amount, j, outcome).value;
      var windows, windows' := WindowsOf(o.requests[id]), WindowsOf(effect.oracle.requests[id]);
      UserTotalMoves(windows, windows', user, CurrentRound(windows), outcome,
                     if sender == user then amount - effect.unspent else 0);
    }
  }

  lemma UnstakeMovesUser(o: Oracle, env: Env, j: nat, round: nat, outcome: Outcome, amount: nat, id: nat,
                         user: AccountId)
    requires UnstakeRequest(o, env, j, round, outcome, amount).Ok?
    ensures UserStake(UnstakeRequest(o, env, j, round, outcome, amount).value.oracle, id, user)
        + (if j == id && env.predecessor == user then amount else 0)
      == UserStake(o, id, user)
  {
    hide UserIn, EntryIn, UnstakedRequest;
    if j == id {
      var windows := WindowsOf(o.requests[id]);
      var windows' := WindowsOf(UnstakeRequest(o, env, j, round, outcome, amount).value.oracle.requests[id]);
      UnstakeEntry(o.requests[id], env.predecessor, round, outcome, amount);
      RoundExists(o.requests[id], env.predecessor, round, outcome, amount);
      UserTotalMoves(windows', windows, user, round, outcome, if env.predecessor == user then amount else 0);
    }
  }

  lemma RoundExists(dr: DataRequest, sender: AccountId, round: nat, outcome: Outcome, amount: nat)
    requires UnstakedRequest(dr, sender, round, outcome, amount).Ok?
    ensures round < |WindowsOf(dr)|
  {
  }

  lemma ClaimMovesUser(o: Oracle, env: Env, claimant: AccountId, j: nat, id: nat, user: AccountId)
    requires ClaimRequest(o, env, claimant, j).Ok?
    ensures IsSettled(o, j)
    ensures UserStake(ClaimRequest(o, env, claimant, j).value.oracle, id, user)
        + (if j == id && claimant == user then WinningStake(o.requests[id].finalized, user) else 0)
      == UserStake(o, id, user)
  {
    hide UserIn, ClaimedRequest, CorrectStake;
    var f := o.requests[j].finalized;
    ClaimedRequestWindows(f, claimant);
    UserInClaimed(f.windows, claimant, f.finalizedOutcome, user, |f.windows|);
    assert f.windows[..|f.windows|] == f.windows;
  }

  lemma UserFlowBalances(o: Oracle, env: Env, call: Call, id: nat, user: AccountId)
    requires OracleInv(o) && Execute(o, env, call).Ok?
    ensures var flow := UserFlowOf(o, env, call, id, user);
      UserStake(Execute(o, env, call).value.oracle, id, user) + flow.unstaked + flow.principal
      == UserStake(o, id, user) + flow.accepted
  {
    hide OracleInv, StakeRequest, UnstakeRequest, ClaimRequest, ValidOutcome, FinalOutcome, CanFinalize, UserIn,
         WinningStake;
    match call {
      case DrStake(sender, amount, j, outcome) => StakeMovesUser(o, env, sender, amount, j, outcome, id, user);
      case FtOnTransfer(sender, amount, payload) =>
        if payload.StakeDataRequest? {
          StakeMovesUser(o, env, sender, amount, payload.id, payload.outcome, id, user);
        } else {
          NothingOfTheNew(user);
        }
      case DrNew(_, _, _) => NothingOfTheNew(user);
      case DrUnstake(j, round, outcome, amount) => UnstakeMovesUser(o, env, j, round, outcome, amount, id, user);
      case DrClaim(claimant, j) => ClaimMovesUser(o, env, claimant, j, id, user);
      case _ =>
    }
  }

  lemma NothingOfTheNew(user: AccountId)
    ensures UserIn([], user, 0) == 0
  {
  }

  /**
   * User by user, on every run: what was accepted from a user on a request was unstaked by that user, claimed
   * as principal by that user, or is still that user's.
   */
  lemma {:induction false} UserStakeIsConserved(o: Oracle, steps: seq<Step>, id: nat, user: AccountId)
    requires OracleInv(o)
    ensures var flow := UserFlowOfRun(o, steps, id, user);
      UserStake(After(o, steps), id, user) + flow.unstaked + flow.principal
      == UserStake(o, id, user) + flow.accepted
  {
    hide OracleInv, Execute, Evolves, UserStake, UserFlowOf;
    if steps != [] {
      var init, last := steps[..|steps| - 1], steps[|steps| - 1];
      var mid := After(o, init);
      UserStakeIsConserved(o, init, id, user);
      RunKeeps(o, init);
      if Execute(mid, last.env, last.call).Ok? {
        UserFlowBalances(mid, last.env, last.call, id, user);
      } else {
        PanicMovesNothing(mid, last.env, last.call, id, user);
      }
    }
  }

  lemma PanicMovesNothing(o: Oracle, env: Env, call: Call, id: nat, user: AccountId)
    requires Execute(o, env, call).Panic?
    ensures UserFlowOf(o, env, call, id, user) == Flow(0, 0, 0)
  {
    hide Execute;
  }
}
