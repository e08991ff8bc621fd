/** Timed runs: an undisputed outcome is final only after its whole challenge period has passed. */
module ChallengePeriods {
  import opened Prelude
  import opened Outcomes
  import opened ResolutionWindows
  import opened DataRequests
  import opened Disputes
  import opened OracleContract
  import opened OracleInvariant
  import opened OracleHistory

  /** An outcome reaching its bond at a block time. */
  datatype Bonding = Bonding(time: nat, outcome: Option<Outcome>)

  function WindowsAt(o: Oracle, id: nat): seq<Window> {
    if id < |o.requests| then WindowsOf(o.requests[id]) else []
  }

  /** The windows that have decided; only the last one can be undecided. */
  function DecidedCount(windows: seq<Window>): nat {
    if |windows| == 0 then 0
    else if windows[|windows| - 1].bonded.Some? then |windows|
    else |windows| - 1
  }

  /** The bondings of request `id` along a run, each with the time of the transaction that caused it. */
  function BondLog(o: Oracle, steps: seq<Step>, id: nat): seq<Bonding> {
    if steps == [] then []
    else
      var init := steps[..|steps| - 1];
      var before, after := WindowsAt(After(o, init), id), WindowsAt(After(o, steps), id);
      var log := BondLog(o, init, id);
      if DecidedCount(after) > DecidedCount(before)
      then log + [Bonding(steps[|steps| - 1].env.now, after[DecidedCount(after) - 1].bonded)]
      else log
  }

  predicate Timed(steps: seq<Step>) {
    forall i, j :: 0 <= i < j < |steps| ==> steps[i].env.now <= steps[j].env.now
  }

  function Clock(steps: seq<Step>): nat {
    if steps == [] then 0 else steps[|steps| - 1].env.now
  }

  /** Entry `i` of the log is window `i`'s verdict, at the time that opened the next window. */
  predicate Records(log: seq<Bonding>, windows: seq<Window>, i: nat) {
    && i < |log| && i < |windows|
    && log[i].outcome == windows[i].bonded
    && (i + 1 < |windows| ==> log[i].time == windows[i + 1].startTime)
  }

  predicate InOrder(windows: seq<Window>, clock: nat) {
    && (forall i, j :: 0 <= i < j < |windows| ==> windows[i].startTime <= windows[j].startTime)
    && (forall i :: 0 <= i < |windows| ==> windows[i].startTime <= clock)
  }

  /** The stored windows tell the history of bondings: verdicts in order, each opening the next window. */
  ghost predicate Recounts(log: seq<Bonding>, windows: seq<Window>, clock: nat) {
    && |log| == DecidedCount(windows)
    && (forall i :: 0 <= i < |log| ==> Records(log, windows, i))
    && InOrder(windows, clock)
  }

  lemma RecountsLater(log: seq<Bonding>, windows: seq<Window>, windows': seq<Window>, clock: nat, clock': nat)
    requires Recounts(log, windows, clock) && clock <= clock' && SameVerdicts(windows, windows')
    ensures Recounts(log, windows', clock') && DecidedCount(windows') == DecidedCount(windows)
  {
    assert forall i :: 0 <= i < |windows| ==> SameVerdict(windows[i], windows'[i]);
    assert DecidedCount(windows') == DecidedCount(windows) by {
      if |windows| > 0 { assert SameVerdict(windows[|windows| - 1], windows'[|windows| - 1]); }
    }
    hide DecidedCount;
    forall i | 0 <= i < |log| ensures Records(log, windows', i) {
      assert Records(log, windows, i);
    }
  }

  /** How a stake moves the windows: the last one, opened now if there was none, and perhaps one more. */
  ghost predicate StakeGrows(windows: seq<Window>, windows': seq<Window>, now: nat) {
    var m := if |windows| == 0 then 1 else |windows|;
    && m <= |windows'| <= m + 1
    && (forall i :: 0 <= i < m - 1 ==> windows'[i] == windows[i])
    && windows'[m - 1].startTime == (if |windows| == 0 then now else windows[m - 1].startTime)
    && (|windows'| == m + 1 ==>
          windows'[m - 1].bonded.Some? && windows'[m].bonded.None? && windows'[m].startTime == now)
  }

  lemma StakeGrowsWindows(dr: ActiveRequest, sender: AccountId, outcome: Outcome, amount: nat, now: nat)
    requires StakedRequest(dr, sender, outcome, amount, now).Ok?
    ensures StakeGrows(dr.windows, StakedRequest(dr, sender, outcome, amount, now).value.0.windows, now)
  {
    hide ResolutionBond, Staked, Opened;
    var last := LastWindow(dr, now).value;
    StakedTimes(last, sender, outcome, amount);
    if |dr.windows| == 0 { OpenedNow(0, ResolutionBond(dr.config).value, dr.initialChallengePeriod, now); }
    var w := Staked(last, sender, outcome, amount).value.0;
    var windows := WithLastWindow(dr.windows, w);
    if Opened(|windows| % U16_RANGE, w.bondSize, ChallengePeriod(dr, |windows|), now).Ok? {
      OpenedNow(|windows| % U16_RANGE, w.bondSize, ChallengePeriod(dr, |windows|), now);
    }
  }

  lemma StakedTimes(w: Window, sender: AccountId, outcome: Outcome, amount: nat)
    requires Staked(w, sender, outcome, amount).Ok?
    ensures Staked(w, sender, outcome, amount).value.0.startTime == w.startTime
  {
  }

  lemma OpenedNow(round: nat, prevBond: nat, period: nat, now: nat)
    requires Opened(round, prevBond, period, now).Ok?
    ensures Opened(round, prevBond, period, now).value.startTime == now
    ensures Opened(round, prevBond, period, now).value.bonded.None?
  {
  }

  ghost function Logged(log: seq<Bonding>, windows: seq<Window>, windows': seq<Window>, now: nat): seq<Bonding> {
    if DecidedCount(windows') > DecidedCount(windows)
    then log + [Bonding(now, windows'[DecidedCount(windows') - 1].bonded)]
    else log
  }

  lemma InOrderAfterStake(windows: seq<Window>, windows': seq<Window>, clock: nat, now: nat)
    requires InOrder(windows, clock) && clock <= now && StakeGrows(windows, windows', now)
    ensures InOrder(windows', now)
  {
  }

  lemma RecountsStake(log: seq<Bonding>, windows: seq<Window>, windows': seq<Window>, clock: nat, now: nat)
    requires Recounts(log, windows, clock) && clock <= now && StakeGrows(windows, windows', now)
    requires |windows| > 0 ==> windows[|windows| - 1].bonded.None?
    ensures Recounts(Logged(log, windows, windows', now), windows', now)
  {
    var m := if |windows| == 0 then 1 else |windows|;
    var log' := Logged(log, windows, windows', now);
    InOrderAfterStake(windows, windows', clock, now);
    assert |log| == m - 1;
    assert |log'| == DecidedCount(windows') && log'[..m - 1] == log;
    hide InOrder;
    forall i | 0 <= i < |log'| ensures Records(log', windows', i) {
      if i < m - 1 {
        assert Records(log, windows, i);
        assert log'[..m - 1][i] == log[i];
      }
    }
  }

  /** One successful call either leaves a request's verdicts alone or is a stake on its undecided window. */
  lemma CallMovesWindows(o: Oracle, env: Env, call: Call, id: nat)
    requires OracleInv(o) && Execute(o, env, call).Ok?
    ensures var windows, windows' := WindowsAt(o, id), WindowsAt(Execute(o, env, call).value.oracle, id);
      || SameVerdicts(windows, windows')
      || (StakeGrows(windows, windows', env.now)
          && (|windows| > 0 ==> windows[|windows| - 1].bonded.None?))
  {
    hide OracleInv, Evolves, StakedRequest, ClaimedRequest, StakeGrows, UnstakedRequest, SameVerdict, StakeRequest,
         FinalOutcome, CanFinalize;
    SameVerdictsReflexive(WindowsAt(o, id));
    match call {
      case DrNew(sender, amount, args) =>
      case DrStake(sender, amount, i, outcome) =>
        StakeMovesWindows(o, env, sender, amount, i, outcome);
      case FtOnTransfer(sender, amount, payload) =>
        if payload.StakeDataRequest? {
          StakeMovesWindows(o, env, sender, amount, payload.id, payload.outcome);
        }
      case DrUnstake(i, round, outcome, amount) =>
        UnstakeLeavesVerdicts(o.requests[i], env.predecessor, round, outcome, amount);
      case DrClaim(accountId, i) =>
        ClaimedRequestWindows(o.requests[i].finalized, accountId);
        ClaimKeepsVerdicts(o.requests[i].finalized.windows, accountId, o.requests[i].finalized.finalizedOutcome);
      case _ =>
    }
  }

  lemma SameVerdictsReflexive(windows: seq<Window>)
    ensures SameVerdicts(windows, windows)
  {
  }

  lemma UnstakeLeavesVerdicts(dr: DataRequest, sender: AccountId, round: nat, outcome: Outcome, amount: nat)
    requires UnstakedRequest(dr, sender, round, outcome, amount).Ok?
    ensures SameVerdicts(WindowsOf(dr), WindowsOf(UnstakedRequest(dr, sender, round, outcome, amount).value))
  {
    UnstakeKeepsVerdicts(WindowsOf(dr), sender, round, outcome, amount);
  }

  lemma StakeMovesWindows(o: Oracle, env: Env, sender: AccountId, amount: nat, id: nat, outcome: Outcome)
    requires OracleInv(o) && StakeRequest(o, env, sender, amount, id, outcome).Ok?
    ensures var o' := StakeRequest(o, env, sender, amount, id, outcome).value.oracle;
      var windows := WindowsAt(o, id);
      && id < |o.requests|
      && o' == Replaced(o, id, o'.requests[id])
      && StakeGrows(windows, WindowsAt(o', id), env.now)
      && (|windows| > 0 ==> windows[|windows| - 1].bonded.None?)
  {
    hide Staked, Opened, CanStakeOn, ValidOutcome, ValidOutcomeType, ResolutionBond, Chain, Books, OnlyAdmissible,
         StakeGrows, StakedRequest;
    assert RequestInv(o.configs, id, o.requests[id]);
    StakeGrowsWindows(o.requests[id].active, sender, outcome, amount, env.now);
  }

  /** Along any timed run the windows of a request created during it recount the log of its bondings. */
  lemma {:induction false} WindowsRecountTheLog(o: Oracle, steps: seq<Step>, id: nat)
    requires OracleInv(o) && Timed(steps) && |o.requests| <= id
    ensures Recounts(BondLog(o, steps, id), WindowsAt(After(o, steps), id), Clock(steps))
  {
    hide OracleInv, Execute, Evolves, Recounts, StakeGrows, SameVerdicts, DecidedCount;
    if steps == [] {
      NothingYet(o, id);
    } else {
      var init, last := steps[..|steps| - 1], steps[|steps| - 1];
      var mid, log := After(o, init), BondLog(o, init, id);
      var before, after := WindowsAt(mid, id), WindowsAt(After(o, steps), id);
      WindowsRecountTheLog(o, init, id);
      RunKeeps(o, init);
      ClockAdvances(steps);
      if Execute(mid, last.env, last.call).Ok? {
        CallMovesWindows(mid, last.env, last.call, id);
      } else {
        SameVerdictsReflexive(before);
      }
      if SameVerdicts(before, after) {
        RecountsLater(log, before, after, Clock(init), last.env.now);
      } else {
        RecountsStake(log, before, after, Clock(init), last.env.now);
      }
    }
  }

  lemma NothingYet(o: Oracle, id: nat)
    requires |o.requests| <= id
    ensures Recounts([], WindowsAt(o, id), 0)
  {
  }

  lemma ClockAdvances(steps: seq<Step>)
    requires Timed(steps) && steps != []
    ensures Clock(steps[..|steps| - 1]) <= steps[|steps| - 1].env.now
  {
  }

  /** What the last two windows say when the guard of an undisputed finalization passes. */
  lemma GuardReadsTheLog(dr: ActiveRequest, log: seq<Bonding>, clock: nat, now: nat)
    requires ActiveInv(dr) && Recounts(log, dr.windows, clock)
    requires CanFinalize(dr, now).Pass? && FinalOutcome(dr).Ok?
    ensures |log| == |dr.windows| - 1 > 0
    ensures log[|log| - 1].outcome == Some(FinalOutcome(dr).value)
    ensures now >= log[|log| - 1].time
      + (if |log| == 1 then dr.initialChallengePeriod else dr.config.defaultChallengeWindowDuration)
  {
    hide Chain, Books, OnlyAdmissible, StartsAt, InOrder;
    var n := |dr.windows|;
    assert Records(log, dr.windows, n - 2);
    assert dr.windows[n - 1].endTime == dr.windows[n - 1].startTime + ChallengePeriod(dr, n - 1);
  }

  lemma TimedPrefix(steps: seq<Step>, last: Step)
    requires Timed(steps + [last])
    ensures Timed(steps)
  {
    var all := steps + [last];
    forall i, j | 0 <= i < j < |steps| ensures steps[i].env.now <= steps[j].env.now {
      assert all[i].env.now <= all[j].env.now;
    }
  }

  /**
   * If an undisputed finalization succeeds at the end of a timed run, then the final outcome is the last one
   * that bonded, and its whole challenge period has passed since: the initial period after the first bonding,
   * the default one after every later bonding.
   */
  lemma ChallengePeriodHasPassed(o: Oracle, steps: seq<Step>, env: Env, id: nat)
    requires OracleInv(o) && |o.requests| <= id
    requires Timed(steps + [Step(env, DrFinalize(id))])
    requires Execute(After(o, steps), env, DrFinalize(id)).Ok?
    ensures var log, o' := BondLog(o, steps, id), Execute(After(o, steps), env, DrFinalize(id)).value.oracle;
      && id < |After(o, steps).requests| && After(o, steps).requests[id].Active?
      && IsSettled(o', id)
      && |log| > 0
      && log[|log| - 1].outcome == Some(o'.requests[id].finalized.finalizedOutcome)
      && var dr := After(o, steps).requests[id].active;
      var period := if |log| == 1 then dr.initialChallengePeriod else dr.config.defaultChallengeWindowDuration;
      env.now >= log[|log| - 1].time + period
  {
    hide ActiveInv, OracleInv, Evolves, Recounts, BondLog, CanFinalize, FinalOutcome;
    TimedPrefix(steps, Step(env, DrFinalize(id)));
    WindowsRecountTheLog(o, steps, id);
    RunKeeps(o, steps);
    var at := After(o, steps);
    SettlementIsAdmissible(at, env, DrFinalize(id), id);
    ActiveHolds(at, id);
    GuardReadsTheLog(at.requests[id].active, BondLog(o, steps, id), Clock(steps), env.now);
  }

  /** The time from which the last bonding stands undisputed. */
  function Deadline(dr: ActiveRequest, log: seq<Bonding>): nat
    requires |log| > 0
  {
    log[|log| - 1].time
    + (if |log| == 1 then dr.initialChallengePeriod else dr.config.defaultChallengeWindowDuration)
  }

  lemma LogDecides(dr: ActiveRequest, log: seq<Bonding>, clock: nat)
    requires ActiveInv(dr) && Recounts(log, dr.windows, clock) && !dr.finalArbitratorTriggered
    ensures |log| > 0 <==> |dr.windows| >= 2
    ensures |log| > 0 ==> dr.windows[|dr.windows| - 1].endTime == Deadline(dr, log)
    ensures |dr.windows| > 0 ==> dr.windows[|dr.windows| - 1].bonded.None?
  {
    hide Chain, Books, OnlyAdmissible, StartsAt, InOrder;
    var n := |dr.windows|;
    if n >= 2 {
      assert Records(log, dr.windows, n - 2);
      assert dr.windows[n - 1].endTime == dr.windows[n - 1].startTime + ChallengePeriod(dr, n - 1);
    }
  }

  lemma TriggeredLastIsBonded(dr: ActiveRequest)
    requires ActiveInv(dr) && dr.finalArbitratorTriggered
    ensures |dr.windows| > 0 && dr.windows[|dr.windows| - 1].bonded.Some?
  {
    hide Chain, Books, OnlyAdmissible, StartsAt;
  }

  /**
   * The clock of a dispute, exactly: at the end of a timed run an undisputed settlement goes through if and only
   * if something has bonded, the arbitrator has not been called, and one whole challenge period has passed since
   * the last bonding, the initial one after the first bonding and the default one after any later.
   */
  lemma UndisputedIff(o: Oracle, steps: seq<Step>, env: Env, id: nat)
    requires OracleInv(o) && |o.requests| <= id && Timed(steps)
    requires !After(o, steps).paused && env.hostOk
    ensures Execute(After(o, steps), env, DrFinalize(id)).Ok?
      <==> && id < |After(o, steps).requests| && After(o, steps).requests[id].Active?
           && var dr, log := After(o, steps).requests[id].active, BondLog(o, steps, id);
           !dr.finalArbitratorTriggered && |log| > 0 && env.now >= Deadline(dr, log)
  {
    hide ActiveInv, OracleInv, Evolves, Recounts, BondLog, After, Deadline;
    var at := After(o, steps);
    RunKeeps(o, steps);
    FinalizeSucceedsIff(at, env, id);
    if id < |at.requests| && at.requests[id].Active? {
      ActiveHolds(at, id);
      var dr := at.requests[id].active;
      WindowsRecountTheLog(o, steps, id);
      if dr.finalArbitratorTriggered {
        TriggeredLastIsBonded(dr);
      } else {
        LogDecides(dr, BondLog(o, steps, id), Clock(steps));
      }
    }
  }

  /** A settled request's outcome is the one its provider or arbitrator named, or the last bonding of the log. */
  lemma VerdictIsNamedOrLogged(o: Oracle, steps: seq<Step>, id: nat)
    requires OracleInv(o) && |o.requests| <= id && Timed(steps) && IsSettled(After(o, steps), id)
    ensures var settling, log := steps[SettledAt(o, steps, id)].call, BondLog(o, steps, id);
      var outcome := After(o, steps).requests[id].finalized.finalizedOutcome;
      && SettlesById(settling, id)
      && (if settling.DrFinalize? then |log| > 0 && log[|log| - 1].outcome == Some(outcome)
          else outcome == settling.outcome)
  {
    hide OracleInv, BondLog, After, InOrder;
    VerdictIsTheCallers(o, steps, id);
    WindowsRecountTheLog(o, steps, id);
    var log, windows := BondLog(o, steps, id), WindowsAt(After(o, steps), id);
    if steps[SettledAt(o, steps, id)].call.DrFinalize? {
      assert Records(log, windows, |windows| - 2);
    }
  }
}
