/** One resolution window: the stake ledger of a dispute round and the rule that bonds an outcome. */
module ResolutionWindows {
  import opened Prelude
  import opened Outcomes
  import opened Sums

  /** A window as it lies in storage: a total per outcome and the stake of every user per outcome. */
  datatype Window = Window(
    round: nat,
    startTime: nat,
    endTime: nat,
    bondSize: nat,
    outcomeToStake: map<Outcome, nat>,
    userStakes: map<AccountId, map<Outcome, nat>>,
    bonded: Option<Outcome>)
  {
    function On(outcome: Outcome): nat {
      At(outcomeToStake, outcome)
    }

    function StakesOf(user: AccountId): map<Outcome, nat> {
      if user in userStakes then userStakes[user] else map[]
    }

    function UserOn(user: AccountId, outcome: Outcome): nat {
      At(StakesOf(user), outcome)
    }

    /** What every user still has on one outcome. */
    ghost function Column(outcome: Outcome): map<AccountId, nat> {
      map u | u in userStakes :: UserOn(u, outcome)
    }

    ghost function LiveOn(outcome: Outcome): nat {
      MapSum(Column(outcome))
    }

    /** All user stake in the window. */
    ghost function Live(): nat {
      MapSum(LiveByOutcome())
    }

    ghost function LiveByOutcome(): map<Outcome, nat> {
      map o | o in outcomeToStake :: LiveOn(o)
    }

    /** The user stake that `Unstake` may still return: everything but the bonded outcome. */
    ghost function Withdrawable(): nat {
      MapSum(WithdrawableByOutcome())
    }

    ghost function WithdrawableByOutcome(): map<Outcome, nat> {
      map o | o in outcomeToStake && bonded != Some(o) :: LiveOn(o)
    }

    function WithUserStake(user: AccountId, outcome: Outcome, total: nat, stake: nat): Window {
      this.(outcomeToStake := outcomeToStake[outcome := total],
            userStakes := userStakes[user := StakesOf(user)[outcome := stake]])
    }

    function WithoutEntry(user: AccountId, outcome: Outcome): Window {
      if user in userStakes
      then this.(userStakes := userStakes[user := userStakes[user] - {outcome}])
      else this
    }
  }

  datatype WindowStakeResult =
    | Correct(bondedStake: nat, userStake: nat)
    | Incorrect(bondedStake: nat)
    | NoResult

  // ---------------------------------------------------------------------------------------------
  // What each operation does to the stored window
  // ---------------------------------------------------------------------------------------------

  function Opened(round: nat, prevBond: nat, challengePeriod: nat, startTime: nat): Result<Window> {
    var endTime, bond := startTime + challengePeriod, prevBond * 2;
    :- Need(endTime <= U64_MAX, Overflow);
    :- Need(bond <= U128_MAX, Overflow);
    Ok(Window(round, startTime, endTime, bond, map[], map[], None))
  }

  /** Stake fills the outcome up to the bond, the rest comes back; a full bond decides the window. */
  function Staked(w: Window, sender: AccountId, outcome: Outcome, amount: nat): Result<(Window, nat)> {
    var on := w.On(outcome);
    :- Need(on <= w.bondSize, Underflow);
    var accepted := Min(amount, w.bondSize - on);
    var total, stake := on + accepted, w.UserOn(sender, outcome) + accepted;
    :- Need(total <= U128_MAX && stake <= U128_MAX, Overflow);
    var w' := w.WithUserStake(sender, outcome, total, stake);
    Ok((if total == w.bondSize then w'.(bonded := Some(outcome)) else w', amount - accepted))
  }

  function Unstaked(w: Window, sender: AccountId, outcome: Outcome, amount: nat): Result<Window> {
    var total, stake := w.On(outcome), w.UserOn(sender, outcome);
    :- Need(w.bonded != Some(outcome), BondedOutcome);
    :- Need(stake >= amount, InsufficientStake);
    :- Need(total >= amount, Underflow);
    Ok(w.WithUserStake(sender, outcome, total - amount, stake - amount))
  }

  function IsCorrect(w: Window, finalOutcome: Outcome): bool {
    w.bonded == Some(finalOutcome)
  }

  function IsIncorrect(w: Window, finalOutcome: Outcome): bool {
    w.bonded.Some? && w.bonded != Some(finalOutcome)
  }

  /** A claim removes only the user's entry: totals and bond stay, so later claims see them unchanged. */
  function Claimed(w: Window, user: AccountId, finalOutcome: Outcome): Window {
    if IsCorrect(w, finalOutcome) then w.WithoutEntry(user, finalOutcome) else w
  }

  function ClaimResult(w: Window, user: AccountId, finalOutcome: Outcome): WindowStakeResult {
    if IsCorrect(w, finalOutcome) then Correct(w.bondSize, w.UserOn(user, finalOutcome))
    else if IsIncorrect(w, finalOutcome) then Incorrect(w.bondSize)
    else NoResult
  }

  // ---------------------------------------------------------------------------------------------
  // The window under change, as the contract holds it
  // ---------------------------------------------------------------------------------------------

  class ResolutionWindow {
    var round: nat
    var startTime: nat
    var endTime: nat
    var bondSize: nat
    var outcomeToStake: map<Outcome, nat>
    var userToOutcomeToStake: map<AccountId, map<Outcome, nat>>
    var bondedOutcome: Option<Outcome>

    function Stored(): Window
      reads this
    {
      Window(round, startTime, endTime, bondSize, outcomeToStake, userToOutcomeToStake, bondedOutcome)
    }

    /** Reads a window back from storage. */
    constructor Load(w: Window)
      ensures Stored() == w
    {
      round, startTime, endTime, bondSize := w.round, w.startTime, w.endTime, w.bondSize;
      outcomeToStake, userToOutcomeToStake := w.outcomeToStake, w.userStakes;
      bondedOutcome := w.bonded;
    }

    /** Writes the outcome's total and the user's entry, the user's map being created on first use. */
    method Record(sender: AccountId, outcome: Outcome, total: nat, stake: nat)
      modifies this`outcomeToStake, this`userToOutcomeToStake
      ensures Stored() == old(Stored()).WithUserStake(sender, outcome, total, stake)
    {
      outcomeToStake := outcomeToStake[outcome := total];
      var userStakes := if sender in userToOutcomeToStake then userToOutcomeToStake[sender] else map[];
      userStakes := userStakes[outcome := stake];
      userToOutcomeToStake := userToOutcomeToStake[sender := userStakes];
    }

    method Stake(sender: AccountId, outcome: Outcome, amount: nat) returns (r: Result<nat>)
      modifies this
      ensures match Staked(old(Stored()), sender, outcome, amount)
              case Ok((w, unspent)) => Stored() == w && r == Ok(unspent)
              case Panic(e) => r == Panic(e)
    {
      hide Window.WithUserStake;
      var stakeOnOutcome := if outcome in outcomeToStake then outcomeToStake[outcome] else 0;
      var userStakes := if sender in userToOutcomeToStake then userToOutcomeToStake[sender] else map[];
      var userStakeOnOutcome := if outcome in userStakes then userStakes[outcome] else 0;
      assert stakeOnOutcome == Stored().On(outcome) && userStakeOnOutcome == Stored().UserOn(sender, outcome);

      if stakeOnOutcome > bondSize { return Panic(Underflow); }
      var stakeOpen := bondSize - stakeOnOutcome;
      var unspent := if amount > stakeOpen then amount - stakeOpen else 0;
      var staked := amount - unspent;

      var newStakeOnOutcome := stakeOnOutcome + staked;
      if newStakeOnOutcome > U128_MAX { return Panic(Overflow); }
      var newUserStakeOnOutcome := userStakeOnOutcome + staked;
      if newUserStakeOnOutcome > U128_MAX { return Panic(Overflow); }
      Record(sender, outcome, newStakeOnOutcome, newUserStakeOnOutcome);

      if newStakeOnOutcome == bondSize {
        bondedOutcome := Some(outcome);
      }
      return Ok(unspent);
    }

    method Unstake(sender: AccountId, outcome: Outcome, amount: nat) returns (r: Result<nat>)
      modifies this
      ensures match Unstaked(old(Stored()), sender, outcome, amount)
              case Ok(w) => Stored() == w && r == Ok(amount)
              case Panic(e) => r == Panic(e) && Stored() == old(Stored())
    {
      hide Window.WithUserStake;
      if bondedOutcome.Some? && bondedOutcome.value == outcome { return Panic(BondedOutcome); }
      var userStakes := if sender in userToOutcomeToStake then userToOutcomeToStake[sender] else map[];
      var userStakeOnOutcome := if outcome in userStakes then userStakes[outcome] else 0;
      if userStakeOnOutcome < amount { return Panic(InsufficientStake); }

      var stakeOnOutcome := if outcome in outcomeToStake then outcomeToStake[outcome] else 0;
      if stakeOnOutcome < amount { return Panic(Underflow); }
      Record(sender, outcome, stakeOnOutcome - amount, userStakeOnOutcome - amount);
      return Ok(amount);
    }

    method ClaimFor(accountId: AccountId, finalOutcome: Outcome) returns (r: WindowStakeResult)
      modifies this
      ensures Stored() == Claimed(old(Stored()), accountId, finalOutcome)
      ensures r == ClaimResult(old(Stored()), accountId, finalOutcome)
    {
      match bondedOutcome {
        case Some(bonded) =>
          if bonded == finalOutcome {
            var userStake := 0;
            if accountId in userToOutcomeToStake {
              var outcomes := userToOutcomeToStake[accountId];
              userStake := if bonded in outcomes then outcomes[bonded] else 0;
              userToOutcomeToStake := userToOutcomeToStake[accountId := outcomes - {bonded}];
            }
            return Correct(bondSize, userStake);
          } else {
            return Incorrect(bondSize);
          }
        case None =>
          return NoResult;
      }
    }
  }

  // ---------------------------------------------------------------------------------------------
  // The redundant totals agree with the users' entries
  // ---------------------------------------------------------------------------------------------

  /**
   * The invariant of a window. Until a request is settled every outcome's total is the sum of its
   * users' entries. Once it is settled on an outcome, the entries on a window bonded to that outcome
   * may have been paid out, and only there the entries fall below the total.
   */
  ghost predicate Consistent(w: Window, settled: Option<Outcome>) {
    && (forall o :: w.On(o) <= w.bondSize)
    && (forall o :: w.LiveOn(o) <= w.On(o))
    && (forall o :: w.LiveOn(o) < w.On(o) ==> w.bonded == Some(o) == settled)
    && (forall o :: w.bonded == Some(o) ==> w.On(o) == w.bondSize)
    && (forall o :: w.bondSize > 0 && w.On(o) == w.bondSize ==> w.bonded == Some(o))
    && (forall u, o :: u in w.userStakes && o in w.userStakes[u] ==> o in w.outcomeToStake)
    && w.bondSize <= U128_MAX
  }

  lemma ColumnAt(w: Window, user: AccountId, outcome: Outcome)
    ensures At(w.Column(outcome), user) == w.UserOn(user, outcome)
  {
  }

  lemma UserAtMostLive(w: Window, user: AccountId, outcome: Outcome)
    ensures w.UserOn(user, outcome) <= w.LiveOn(outcome)
  {
    ColumnAt(w, user, outcome);
    MapSumAtLeast(w.Column(outcome), user);
  }

  lemma TotalAfterWrite(w: Window, user: AccountId, outcome: Outcome, total: nat, stake: nat)
    ensures var w' := w.WithUserStake(user, outcome, total, stake);
      && w'.On(outcome) == total
      && (forall o :: o != outcome ==> w'.On(o) == w.On(o))
      && w'.outcomeToStake.Keys == w.outcomeToStake.Keys + {outcome}
  {
  }

  lemma UserAfterWrite(w: Window, user: AccountId, outcome: Outcome, total: nat, stake: nat)
    ensures var w' := w.WithUserStake(user, outcome, total, stake);
      forall u, o :: w'.UserOn(u, o) == if u == user && o == outcome then stake else w.UserOn(u, o)
  {
  }

  /** Writing one user's entry on one outcome moves only that outcome's live sum. */
  lemma LiveAfterWrite(w: Window, user: AccountId, outcome: Outcome, total: nat, stake: nat)
    ensures var w' := w.WithUserStake(user, outcome, total, stake);
      && w'.LiveOn(outcome) + w.UserOn(user, outcome) == w.LiveOn(outcome) + stake
      && (forall o :: o != outcome ==> w'.LiveOn(o) == w.LiveOn(o))
  {
    hide MapSum;
    UserAfterWrite(w, user, outcome, total, stake);
    var w' := w.WithUserStake(user, outcome, total, stake);
    forall j | j != user ensures At(w'.Column(outcome), j) == At(w.Column(outcome), j) {
      assert w'.UserOn(j, outcome) == w.UserOn(j, outcome);
    }
    assert At(w'.Column(outcome), user) == stake;
    ColumnAt(w, user, outcome);
    MapSumChange(w'.Column(outcome), w.Column(outcome), user);
    forall o | o != outcome ensures w'.LiveOn(o) == w.LiveOn(o) {
      forall j ensures At(w'.Column(o), j) == At(w.Column(o), j) {
        assert w'.UserOn(j, o) == w.UserOn(j, o);
      }
      MapSumSame(w'.Column(o), w.Column(o));
    }
  }

  lemma LiveAfterRemoval(w: Window, user: AccountId, outcome: Outcome)
    ensures var w' := w.WithoutEntry(user, outcome);
      && w'.LiveOn(outcome) + w.UserOn(user, outcome) == w.LiveOn(outcome)
      && (forall o :: o != outcome ==> w'.LiveOn(o) == w.LiveOn(o))
      && (forall u, o :: w'.UserOn(u, o) == if u == user && o == outcome then 0 else w.UserOn(u, o))
  {
    hide MapSum;
    var w' := w.WithoutEntry(user, outcome);
    forall j | j != user ensures At(w'.Column(outcome), j) == At(w.Column(outcome), j) {
      assert w'.UserOn(j, outcome) == w.UserOn(j, outcome);
    }
    assert At(w'.Column(outcome), user) == 0;
    ColumnAt(w, user, outcome);
    MapSumChange(w'.Column(outcome), w.Column(outcome), user);
    forall o | o != outcome ensures w'.LiveOn(o) == w.LiveOn(o) {
      forall j ensures At(w'.Column(o), j) == At(w.Column(o), j) {
        assert w'.UserOn(j, o) == w.UserOn(j, o);
      }
      MapSumSame(w'.Column(o), w.Column(o));
    }
  }

  /** An outcome without a total has no users on it. */
  lemma NothingLiveOffTheBooks(w: Window, settled: Option<Outcome>, outcome: Outcome)
    requires Consistent(w, settled)
    ensures outcome !in w.outcomeToStake ==> w.LiveOn(outcome) == 0
  {
    assert w.LiveOn(outcome) <= w.On(outcome);
  }

  /** `Live` and `Withdrawable` move with the live sum of one outcome. */
  lemma TotalsAfterChange(w: Window, w': Window, settled: Option<Outcome>, outcome: Outcome)
    requires Consistent(w, settled) && w'.bonded == w.bonded
    requires w.outcomeToStake.Keys <= w'.outcomeToStake.Keys <= w.outcomeToStake.Keys + {outcome}
    requires forall o :: o != outcome ==> w'.LiveOn(o) == w.LiveOn(o)
    requires outcome in w'.outcomeToStake
    ensures w'.Live() + w.LiveOn(outcome) == w.Live() + w'.LiveOn(outcome)
    ensures w.bonded != Some(outcome)
      ==> w'.Withdrawable() + w.LiveOn(outcome) == w.Withdrawable() + w'.LiveOn(outcome)
    ensures w.bonded == Some(outcome) ==> w'.Withdrawable() == w.Withdrawable()
  {
    hide MapSum, Window.LiveOn;
    NothingLiveOffTheBooks(w, settled, outcome);
    MapSumChange(w'.LiveByOutcome(), w.LiveByOutcome(), outcome);
    MapSumChange(w'.WithdrawableByOutcome(), w.WithdrawableByOutcome(), outcome);
  }

  lemma WriteMoves(w: Window, settled: Option<Outcome>, user: AccountId, outcome: Outcome, total: nat, stake: nat)
    requires Consistent(w, settled)
    ensures var w' := w.WithUserStake(user, outcome, total, stake);
      && w'.On(outcome) == total
      && w'.LiveOn(outcome) + w.UserOn(user, outcome) == w.LiveOn(outcome) + stake
      && w'.Live() + w.UserOn(user, outcome) == w.Live() + stake
      && (w.bonded != Some(outcome)
          ==> w'.Withdrawable() + w.UserOn(user, outcome) == w.Withdrawable() + stake)
      && (forall o :: o != outcome ==> w'.LiveOn(o) == w.LiveOn(o))
      && (forall o :: o != outcome ==> w'.On(o) == w.On(o))
  {
    hide MapSum;
    var w' := w.WithUserStake(user, outcome, total, stake);
    TotalAfterWrite(w, user, outcome, total, stake);
    LiveAfterWrite(w, user, outcome, total, stake);
    TotalsAfterChange(w, w', settled, outcome);
  }

  lemma BondingLeavesLive(w: Window, outcome: Outcome)
    ensures w.(bonded := Some(outcome)).Live() == w.Live()
    ensures forall o :: w.(bonded := Some(outcome)).LiveOn(o) == w.LiveOn(o)
  {
    var w' := w.(bonded := Some(outcome));
    forall o ensures w'.LiveOn(o) == w.LiveOn(o) {
      assert w'.Column(o) == w.Column(o);
    }
    assert w'.LiveByOutcome() == w.LiveByOutcome();
  }

  /** A fresh window is consistent and holds nothing. */
  lemma OpenedIsConsistent(round: nat, prevBond: nat, period: nat, start: nat)
    requires Opened(round, prevBond, period, start).Ok?
    ensures var w := Opened(round, prevBond, period, start).value;
      Consistent(w, None) && w.Live() == 0 && forall o :: w.On(o) == w.LiveOn(o) == 0
  {
    var w := Opened(round, prevBond, period, start).value;
    forall o ensures w.LiveOn(o) == 0 {
      assert w.Column(o) == map[];
    }
    assert w.LiveByOutcome() == map[];
  }

  lemma StakeFits(w: Window, sender: AccountId, outcome: Outcome, amount: nat)
    requires Consistent(w, None)
    ensures Staked(w, sender, outcome, amount).Ok?
    ensures w.LiveOn(outcome) == w.On(outcome) <= w.bondSize
  {
    assert w.LiveOn(outcome) == w.On(outcome) <= w.bondSize;
    UserAtMostLive(w, sender, outcome);
  }

  /** What a stake does to the readings of the window. */
  lemma StakeMoves(w: Window, sender: AccountId, outcome: Outcome, amount: nat)
    requires Consistent(w, None) && w.bonded == None
    requires Staked(w, sender, outcome, amount).Ok?
    ensures var (w', unspent) := Staked(w, sender, outcome, amount).value;
      && unspent <= amount
      && w'.Live() == w.Live() + (amount - unspent)
      && w'.LiveOn(outcome) == w.LiveOn(outcome) + (amount - unspent)
      && w'.On(outcome) == w.On(outcome) + (amount - unspent)
      && (forall o :: o != outcome ==> w'.LiveOn(o) == w.LiveOn(o))
      && (forall o :: o != outcome ==> w'.On(o) == w.On(o))
  {
    hide MapSum, Window.LiveOn, Window.Live;
    var accepted := Min(amount, w.bondSize - w.On(outcome));
    var total, stake := w.On(outcome) + accepted, w.UserOn(sender, outcome) + accepted;
    var w1 := w.WithUserStake(sender, outcome, total, stake);
    WriteMoves(w, None, sender, outcome, total, stake);
    BondingLeavesLive(w1, outcome);
  }

  /** On an undecided consistent window staking cannot panic, keeps the books and adds what it accepts. */
  lemma StakeKeepsBooks(w: Window, sender: AccountId, outcome: Outcome, amount: nat)
    requires Consistent(w, None) && w.bonded == None
    ensures Staked(w, sender, outcome, amount).Ok?
    ensures var (w', unspent) := Staked(w, sender, outcome, amount).value;
      && Consistent(w', None)
      && unspent <= amount
      && w'.Live() == w.Live() + (amount - unspent)
      && w'.On(outcome) == w.On(outcome) + (amount - unspent)
      && (forall o :: o != outcome ==> w'.On(o) == w.On(o))
      && (unspent > 0 ==> w'.bonded == Some(outcome))
      && (w'.bonded.Some? ==> w'.bonded == Some(outcome) && w'.On(outcome) == w.bondSize)
  {
    hide MapSum, Window.LiveOn, Window.Live;
    StakeFits(w, sender, outcome, amount);
    StakeMoves(w, sender, outcome, amount);
    var w' := Staked(w, sender, outcome, amount).value.0;
    forall o ensures w'.LiveOn(o) == w'.On(o) <= w'.bondSize {
      assert w.LiveOn(o) == w.On(o) <= w.bondSize;
    }
    forall o | w.bondSize > 0 && w'.On(o) == w.bondSize ensures w'.bonded == Some(o) {
      assert o != outcome ==> w'.On(o) == w.On(o);
    }
  }

  lemma UnstakeMoves(w: Window, settled: Option<Outcome>, sender: AccountId, outcome: Outcome, amount: nat)
    requires Consistent(w, settled) && Unstaked(w, sender, outcome, amount).Ok?
    ensures var w' := Unstaked(w, sender, outcome, amount).value;
      && w'.Live() + amount == w.Live()
      && w'.Withdrawable() + amount == w.Withdrawable()
      && w'.LiveOn(outcome) + amount == w.LiveOn(outcome)
      && w'.On(outcome) + amount == w.On(outcome)
      && (forall o :: o != outcome ==> w'.LiveOn(o) == w.LiveOn(o))
      && (forall o :: o != outcome ==> w'.On(o) == w.On(o))
  {
    hide MapSum, Window.LiveOn, Window.Live, Window.Withdrawable, Consistent, Window.WithUserStake;
    WriteMoves(w, settled, sender, outcome, w.On(outcome) - amount, w.UserOn(sender, outcome) - amount);
  }

  lemma EntriesOnTheBooks(w: Window, user: AccountId, outcome: Outcome, total: nat, stake: nat)
    requires forall u, o :: u in w.userStakes && o in w.userStakes[u] ==> o in w.outcomeToStake
    ensures var w' := w.WithUserStake(user, outcome, total, stake);
      && w'.bonded == w.bonded && w'.bondSize == w.bondSize
      && (forall u, o :: u in w'.userStakes && o in w'.userStakes[u] ==> o in w'.outcomeToStake)
  {
  }

  /** Lowering the total and the live sum of an undecided outcome together keeps the books. */
  lemma LoweredIsConsistent(w: Window, w': Window, settled: Option<Outcome>, outcome: Outcome, amount: nat)
    requires Consistent(w, settled)
    requires w'.bonded == w.bonded && w'.bonded != Some(outcome) && w'.bondSize == w.bondSize
    requires w'.On(outcome) + amount == w.On(outcome) && w'.LiveOn(outcome) + amount == w.LiveOn(outcome)
    requires forall o :: o != outcome ==> w'.On(o) == w.On(o)
    requires forall o :: o != outcome ==> w'.LiveOn(o) == w.LiveOn(o)
    requires forall u, o :: u in w'.userStakes && o in w'.userStakes[u] ==> o in w'.outcomeToStake
    ensures Consistent(w', settled)
    ensures forall o :: w'.On(o) <= w.On(o)
  {
    hide Window.LiveOn, Window.On;
    forall o ensures w'.LiveOn(o) <= w'.On(o) <= w.On(o) <= w.bondSize {
      assert w.LiveOn(o) <= w.On(o) <= w.bondSize;
    }
    forall o | w'.LiveOn(o) < w'.On(o) ensures w'.bonded == Some(o) == settled {
      assert w.LiveOn(o) < w.On(o);
    }
    forall o | w.bondSize > 0 && w'.On(o) == w.bondSize ensures w'.bonded == Some(o) {
      assert w.On(o) == w.bondSize;
    }
  }

  /** Unstaking takes exactly `amount` off one user and one total, and never touches the bonded outcome. */
  lemma UnstakeKeepsBooks(w: Window, settled: Option<Outcome>, sender: AccountId, outcome: Outcome, amount: nat)
    requires Consistent(w, settled) && Unstaked(w, sender, outcome, amount).Ok?
    ensures var w' := Unstaked(w, sender, outcome, amount).value;
      && Consistent(w', settled)
      && w'.Live() + amount == w.Live()
      && w'.Withdrawable() + amount == w.Withdrawable()
      && w'.bonded == w.bonded && w'.bonded != Some(outcome)
      && (forall u, o :: w.bonded == Some(o) ==> w'.UserOn(u, o) == w.UserOn(u, o))
      && (forall o :: w'.On(o) <= w.On(o))
  {
    hide MapSum, Window.LiveOn, Window.Live, Window.Withdrawable, Window.WithUserStake;
    var w' := Unstaked(w, sender, outcome, amount).value;
    EntriesOnTheBooks(w, sender, outcome, w.On(outcome) - amount, w.UserOn(sender, outcome) - amount);
    UnstakeMoves(w, settled, sender, outcome, amount);
    UserAfterWrite(w, sender, outcome, w.On(outcome) - amount, w.UserOn(sender, outcome) - amount);
    LoweredIsConsistent(w, w', settled, outcome, amount);
  }

  /** A stake is credited to the sender on that outcome and to nobody and nothing else. */
  lemma StakeCreditsSender(w: Window, sender: AccountId, outcome: Outcome, amount: nat)
    requires Staked(w, sender, outcome, amount).Ok?
    ensures var (w', unspent) := Staked(w, sender, outcome, amount).value;
      && unspent == (if amount > w.bondSize - w.On(outcome) then amount - (w.bondSize - w.On(outcome)) else 0)
      && w'.UserOn(sender, outcome) == w.UserOn(sender, outcome) + (amount - unspent)
      && (forall u, o :: u != sender || o != outcome ==> w'.UserOn(u, o) == w.UserOn(u, o))
      && (w'.bonded == Some(outcome) || w'.bonded == w.bonded)
      && (w.On(outcome) + amount >= w.bondSize ==> w'.bonded == Some(outcome))
  {
    var accepted := Min(amount, w.bondSize - w.On(outcome));
    UserAfterWrite(w, sender, outcome, w.On(outcome) + accepted, w.UserOn(sender, outcome) + accepted);
  }

  lemma UnstakeDebitsSender(w: Window, sender: AccountId, outcome: Outcome, amount: nat)
    requires Unstaked(w, sender, outcome, amount).Ok?
    ensures var w' := Unstaked(w, sender, outcome, amount).value;
      && w'.UserOn(sender, outcome) + amount == w.UserOn(sender, outcome)
      && (forall u, o :: u != sender || o != outcome ==> w'.UserOn(u, o) == w.UserOn(u, o))
  {
    UserAfterWrite(w, sender, outcome, w.On(outcome) - amount, w.UserOn(sender, outcome) - amount);
  }

  /** As long as a stake has not bonded its outcome, unstaking what was accepted restores every reading. */
  lemma StakeUnstakeRoundTrip(w: Window, sender: AccountId, outcome: Outcome, amount: nat)
    requires Consistent(w, None) && w.bonded == None
    requires Staked(w, sender, outcome, amount).Ok? && Staked(w, sender, outcome, amount).value.0.bonded == None
    ensures var w1 := Staked(w, sender, outcome, amount).value.0;
      && Unstaked(w1, sender, outcome, amount).Ok?
      && var w2 := Unstaked(w1, sender, outcome, amount).value;
      && (forall u, o :: w2.UserOn(u, o) == w.UserOn(u, o))
      && (forall o :: w2.On(o) == w.On(o))
      && w2.bonded == None && w2.Live() == w.Live()
  {
    hide MapSum, Window.LiveOn, Window.Live, Consistent, Staked, Unstaked;
    StakeKeepsBooks(w, sender, outcome, amount);
    StakeCreditsSender(w, sender, outcome, amount);
    var w1 := Staked(w, sender, outcome, amount).value.0;
    UnstakeGuardsSuffice(w1, None, sender, outcome, amount);
    UnstakeKeepsBooks(w1, None, sender, outcome, amount);
    UnstakeMoves(w1, None, sender, outcome, amount);
    UnstakeDebitsSender(w1, sender, outcome, amount);
  }

  /** Unstaking on a consistent window never hits the second, unchecked subtraction. */
  lemma UnstakeGuardsSuffice(w: Window, settled: Option<Outcome>, sender: AccountId, outcome: Outcome, amount: nat)
    requires Consistent(w, settled)
    ensures Unstaked(w, sender, outcome, amount).Ok?
      <==> w.bonded != Some(outcome) && amount <= w.UserOn(sender, outcome)
  {
    UserAtMostLive(w, sender, outcome);
    assert w.LiveOn(outcome) <= w.On(outcome);
  }

  /** A claim takes only the claimant's entry on the final outcome; totals and withdrawable stake stay. */
  lemma ClaimKeepsBooks(w: Window, user: AccountId, finalOutcome: Outcome)
    requires Consistent(w, Some(finalOutcome))
    ensures var w' := Claimed(w, user, finalOutcome);
      && Consistent(w', Some(finalOutcome))
      && w'.Withdrawable() == w.Withdrawable()
      && w'.Live() + (if IsCorrect(w, finalOutcome) then w.UserOn(user, finalOutcome) else 0) == w.Live()
      && w'.bonded == w.bonded && w'.bondSize == w.bondSize
      && w'.userStakes.Keys == w.userStakes.Keys
      && (IsCorrect(w, finalOutcome) ==>
            && w'.UserOn(user, finalOutcome) == 0
            && forall u :: u != user ==> w'.UserOn(u, finalOutcome) == w.UserOn(u, finalOutcome))
  {
    hide MapSum, Window.LiveOn, Window.Live, Window.Withdrawable;
    if IsCorrect(w, finalOutcome) {
      LiveAfterRemoval(w, user, finalOutcome);
      TotalsAfterRemoval(w, user, finalOutcome);
      RemovalConsistent(w, user, finalOutcome);
    }
  }

  lemma RemovalConsistent(w: Window, user: AccountId, outcome: Outcome)
    requires Consistent(w, Some(outcome)) && IsCorrect(w, outcome)
    ensures Consistent(w.WithoutEntry(user, outcome), Some(outcome))
  {
    hide MapSum, Window.LiveOn;
    var w' := w.WithoutEntry(user, outcome);
    LiveAfterRemoval(w, user, outcome);
    forall o ensures w'.On(o) == w.On(o) && w'.LiveOn(o) <= w.LiveOn(o) <= w.On(o) {
      assert w.LiveOn(o) <= w.On(o);
    }
    forall o | w'.LiveOn(o) < w'.On(o) ensures w'.bonded == Some(o) {
      assert o != outcome ==> w.LiveOn(o) < w.On(o);
    }
  }

  lemma TotalsAfterRemoval(w: Window, user: AccountId, outcome: Outcome)
    requires Consistent(w, Some(outcome)) && IsCorrect(w, outcome)
    ensures var w' := w.WithoutEntry(user, outcome);
      && w'.Withdrawable() == w.Withdrawable()
      && w'.Live() + w.UserOn(user, outcome) == w.Live()
  {
    hide MapSum, Window.LiveOn;
    var w' := w.WithoutEntry(user, outcome);
    LiveAfterRemoval(w, user, outcome);
    if outcome in w.outcomeToStake {
      TotalsAfterChange(w, w', Some(outcome), outcome);
    } else {
      NothingLiveOffTheBooks(w, Some(outcome), outcome);
      UserAtMostLive(w, user, outcome);
      assert w'.LiveByOutcome() == w.LiveByOutcome();
      assert w'.WithdrawableByOutcome() == w.WithdrawableByOutcome();
    }
  }

  /** A decided window splits into the bond and what can still be withdrawn. */
  lemma LiveSplitsAtTheBond(w: Window)
    requires Consistent(w, None)
    ensures w.Live() == w.Withdrawable() + (if w.bonded.Some? then w.bondSize else 0)
  {
    hide MapSum, Window.LiveOn;
    match w.bonded {
      case None =>
        assert w.WithdrawableByOutcome() == w.LiveByOutcome();
      case Some(b) =>
        assert w.LiveOn(b) == w.On(b) == w.bondSize;
        MapSumWithout(w.LiveByOutcome(), b);
        assert w.WithdrawableByOutcome() == w.LiveByOutcome() - {b};
        NothingLiveOffTheBooks(w, None, b);
    }
  }
}
