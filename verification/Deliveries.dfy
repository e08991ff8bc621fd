/** Single messages followed through arbitrary interleavings: every transfer call resolves, every payout arrives. */
module Deliveries {
  import opened Prelude
  import opened Outcomes
  import opened DataRequests
  import opened Claims
  import opened OracleContract
  import opened OracleInvariant
  import opened OracleHistory
  import opened Liabilities
  import opened Token
  import opened TwoContracts

  // ---------------------------------------------------------------------------------------------
  // Where a message is after other events
  // ---------------------------------------------------------------------------------------------

  /**
   * Where in the bag the message at `i` is after one event. A notification that arrives goes on as its resolve
   * step, at the end; a resolve step or a payout that arrives is gone.
   */
  function Followed(w: World, event: Event, i: nat): Option<int>
    requires i < |w.pending|
  {
    match event
    case Arrive(j, _, _, _) =>
      if j < i then Some(i - 1)
      else if j > i then Some(i)
      else if w.pending[i].Notify? then Some(|Next(w, event).pending| - 1)
      else None
    case _ => Some(i)
  }

  function FollowedRun(w: World, events: seq<Event>, i: nat): Option<int> {
    if events == [] then Some(i)
    else
      var mid := Run(w, events[..|events| - 1]);
      match FollowedRun(w, events[..|events| - 1], i)
      case Some(k) => if 0 <= k < |mid.pending| then Followed(mid, events[|events| - 1], k) else None
      case None => None
  }

  /** The answer a receiver's callback gives: the oracle's is what it did not use, anyone else's is arbitrary. */
  function AnswerTo(w: World, m: Message, now: nat, hostOk: bool, answer: Answer): Answer
    requires m.Notify?
  {
    if m.receiver != w.oracleId then answer
    else
      match Execute(w.oracle, Env(w.tokenId, now, hostOk), FtOnTransfer(m.sender, m.amount, m.payload))
      case Panic(_) => Failed
      case Ok(effect) => if effect.unspent <= U128_MAX then Unused(effect.unspent) else Unreadable
  }

  /** No event but its own arrival touches a message, and a notification turns into its own resolve step. */
  lemma EventFollowed(w: World, event: Event, i: nat)
    requires i < |w.pending|
    ensures var arrives := event.Arrive? && event.index == i;
      match Followed(w, event, i)
      case None => arrives && !w.pending[i].Notify?
      case Some(k) =>
        && 0 <= k < |Next(w, event).pending|
        && Next(w, event).pending[k]
          == (if arrives
              then Resolve(w.pending[i].sender, w.pending[i].receiver, w.pending[i].amount,
                           AnswerTo(w, w.pending[i], event.now, event.hostOk, event.answer))
              else w.pending[i])
        && (arrives ==> w.pending[i].Notify? && Next(w, event).token == w.token)
  {
    hide ExecuteToken, Execute, Resolved, Transferred, Payouts;
  }

  /** The resolve step of a message is still that of the same transfer call. */
  predicate SameTransfer(m: Message, m': Message) {
    || m' == m
    || (m.Notify? && m'.Resolve? && m'.sender == m.sender && m'.receiver == m.receiver && m'.amount == m.amount)
  }

  /** However events interleave, the followed message is where it is said to be, and it is the same message. */
  lemma {:induction false} RunFollowed(w: World, events: seq<Event>, i: nat)
    requires i < |w.pending| && FollowedRun(w, events, i).Some?
    ensures var k := FollowedRun(w, events, i).value;
      0 <= k < |Run(w, events).pending| && SameTransfer(w.pending[i], Run(w, events).pending[k])
  {
    hide Next, Followed;
    if events != [] {
      var init, last := events[..|events| - 1], events[|events| - 1];
      RunFollowed(w, init, i);
      EventFollowed(Run(w, init), last, FollowedRun(w, init, i).value);
    }
  }

  // ---------------------------------------------------------------------------------------------
  // Transfer calls
  // ---------------------------------------------------------------------------------------------

  /** The world after a transfer call; its notification is the last message of the bag. */
  function Called(w: World, sender: AccountId, receiver: AccountId, amount: u128, payload: Payload): World {
    Next(w, CallToken(sender, 1, FtTransferCall(receiver, amount), payload))
  }

  lemma CallMovesAtOnce(w: World, sender: AccountId, receiver: AccountId, amount: u128, payload: Payload)
    requires sender != w.oracleId && Transferred(w.token, sender, 1, receiver, amount).Ok?
    ensures var w1 := Called(w, sender, receiver, amount, payload);
      && w1.pending == w.pending + [Notify(sender, receiver, amount, payload)]
      && w1.oracle == w.oracle
      && w1.token.BalanceOf(sender) + amount == w.token.BalanceOf(sender)
      && w1.token.BalanceOf(receiver) == w.token.BalanceOf(receiver) + amount
      && (forall a :: a != sender && a != receiver ==> w1.token.BalanceOf(a) == w.token.BalanceOf(a))
      && w1.token.totalSupply == w.token.totalSupply
  {
    MovedBalances(w.token, sender, receiver, amount);
  }

  /** Only a transfer call that goes through sends a message; a call that fails leaves the world as it was. */
  lemma TokenCallSends(w: World, predecessor: AccountId, attached: nat, call: TokenCall, payload: Payload)
    requires predecessor != w.oracleId
    ensures var w', result := Next(w, CallToken(predecessor, attached, call, payload)),
                              ExecuteToken(w.token, predecessor, attached, call);
      && (result.Panic? ==> w' == w)
      && (result.Ok? ==> w'.token == result.value && w'.oracle == w.oracle)
      && w'.pending == w.pending
          + (if call.FtTransferCall? && result.Ok? then [Notify(predecessor, call.receiver, call.amount, payload)]
             else [])
  {
    hide ExecuteToken;
  }

  /** The resolve step gives back `refund` of the receiver's tokens, or burns them, and moves nothing else. */
  ghost predicate GivesBack(t: TokenState, t': TokenState, sender: AccountId, receiver: AccountId, refund: nat) {
    && t'.BalanceOf(receiver) + refund == t.BalanceOf(receiver)
    && (forall a :: a != sender && a != receiver ==> t'.BalanceOf(a) == t.BalanceOf(a))
    && t'.accounts.Keys == t.accounts.Keys && t'.native == t.native
    && (if sender in t.accounts
        then t'.BalanceOf(sender) == t.BalanceOf(sender) + refund && t'.totalSupply == t.totalSupply
        else t'.BalanceOf(sender) == 0 && t'.totalSupply + refund == t.totalSupply)
  }

  lemma ResolveArrives(w: World, i: nat, arrival: Event)
    requires WorldInv(w) && i < |w.pending| && w.pending[i].Resolve?
    requires arrival.Arrive? && arrival.index == i
    ensures var m, w' := w.pending[i], Next(w, arrival);
      && GivesBack(w.token, w'.token, m.sender, m.receiver,
                   Min(w.token.BalanceOf(m.receiver), UnusedOf(m.amount, m.answer)))
      && w'.pending == Without(w.pending, i) && w'.oracle == w.oracle
  {
    hide OracleInv, Owed, TokenInv, SettledFit, ConfigsExist, TotalInFlight, Resolved;
    var m := w.pending[i];
    assert WellSent(m, w.oracleId);
    ResolvedBalances(w.token, m.sender, m.receiver, m.amount, m.answer);
    ResolvedNative(w.token, m.sender, m.receiver, m.amount, m.answer);
  }

  lemma ResolvedNative(t: TokenState, sender: AccountId, receiver: AccountId, amount: nat, answer: Answer)
    requires Resolved(t, sender, receiver, amount, answer).Ok?
    ensures Resolved(t, sender, receiver, amount, answer).value.0.native == t.native
  {
  }

  /**
   * A transfer call to anyone, with anything in between. The amount moves at once; later the callback arrives,
   * answers and moves no tokens; later still the resolve step of this very call arrives, and takes from the
   * receiver exactly what was not used, as far as the receiver still has it, back to the sender of this call, or
   * burns it if that sender is gone. If the oracle is the receiver it always still has it.
   */
  lemma TransferCallResolves(w: World, sender: AccountId, receiver: AccountId, amount: u128, payload: Payload,
                             before: seq<Event>, callback: Event, after: seq<Event>, arrival: Event)
    requires WorldInv(w) && sender != w.oracleId && Transferred(w.token, sender, 1, receiver, amount).Ok?
    requires var w1 := Called(w, sender, receiver, amount, payload);
      && callback.Arrive? && FollowedRun(w1, before, |w.pending|) == Some(callback.index)
      && callback.index < |Run(w1, before).pending| && Run(w1, before).pending[callback.index].Notify?
      && var w2 := Next(Run(w1, before), callback);
      && |w2.pending| > 0
      && arrival.Arrive? && FollowedRun(w2, after, |w2.pending| - 1) == Some(arrival.index)
    ensures var w1 := Called(w, sender, receiver, amount, payload);
      var w2 := Next(Run(w1, before), callback);
      var w3 := Run(w2, after);
      var w4 := Next(w3, arrival);
      var answer := AnswerTo(Run(w1, before), Notify(sender, receiver, amount, payload),
                             callback.now, callback.hostOk, callback.answer);
      var refund := Min(w3.token.BalanceOf(receiver), UnusedOf(amount, answer));
      && w2.token == Run(w1, before).token
      && arrival.index < |w3.pending| && w3.pending[arrival.index] == Resolve(sender, receiver, amount, answer)
      && w4.pending == Without(w3.pending, arrival.index) && w4.oracle == w3.oracle
      && GivesBack(w3.token, w4.token, sender, receiver, refund)
      && (receiver == w.oracleId ==> refund == UnusedOf(amount, answer))
  {
    hide WorldInv, Next, Run, AnswerTo, GivesBack, UnusedOf, Transferred, FollowedRun;
    var w1 := Called(w, sender, receiver, amount, payload);
    var wb := Run(w1, before);
    var w2 := Next(wb, callback);
    var w3 := Run(w2, after);
    CallMovesAtOnce(w, sender, receiver, amount, payload);
    EventKeepsWorld(w, CallToken(sender, 1, FtTransferCall(receiver, amount), payload));
    AlwaysSolvent(w1, before);
    RunFollowed(w1, before, |w.pending|);
    EventFollowed(wb, callback, callback.index);
    EventKeepsWorld(wb, callback);
    AlwaysSolvent(w2, after);
    RunFollowed(w2, after, |w2.pending| - 1);
    ResolveArrives(w3, arrival.index, arrival);
    if receiver == w.oracleId { OracleStillHasIt(w3, arrival.index); }
  }

  lemma OracleStillHasIt(w: World, i: nat)
    requires WorldInv(w) && i < |w.pending|
    requires w.pending[i].Resolve? && w.pending[i].receiver == w.oracleId
    ensures w.token.BalanceOf(w.oracleId) >= UnusedOf(w.pending[i].amount, w.pending[i].answer)
  {
    hide WorldInv, UnusedOf;
    RefundsAreNeverShortened(w, i);
  }

  // ---------------------------------------------------------------------------------------------
  // Payouts
  // ---------------------------------------------------------------------------------------------

  function PayoutIfAny(ours: bool, receiver: AccountId, amount: nat): seq<Message> {
    if ours && amount > 0 then [Payout(receiver, amount)] else []
  }

  lemma OnePayout(t: Transfer, tokenId: AccountId)
    ensures Payouts([t], tokenId) == if t.token == tokenId then [Payout(t.receiver, t.amount)] else []
  {
    assert [t][..0] == [];
    assert Payouts([], tokenId) == [];
  }

  lemma PayoutsInOrder(first: seq<Transfer>, last: Transfer, tokenId: AccountId)
    ensures Payouts(first + [last], tokenId) == Payouts(first, tokenId) + Payouts([last], tokenId)
  {
    assert (first + [last])[..|first|] == first;
    OnePayout(last, tokenId);
  }

  lemma PayoutsIfAny(stake: AccountId, payment: AccountId, user: AccountId, s: nat, p: nat, tokenId: AccountId)
    ensures Payouts(TransferIfAny(stake, user, s) + TransferIfAny(payment, user, p), tokenId)
      == PayoutIfAny(stake == tokenId, user, s) + PayoutIfAny(payment == tokenId, user, p)
  {
    if p > 0 {
      PayoutsInOrder(TransferIfAny(stake, user, s), Transfer(payment, user, p), tokenId);
      OnePayout(Transfer(payment, user, p), tokenId);
    } else {
      assert TransferIfAny(stake, user, s) + [] == TransferIfAny(stake, user, s);
    }
    if s > 0 { OnePayout(Transfer(stake, user, s), tokenId); }
  }

  /** What a claim puts on its way in the honest token: the exact payouts, to the claimant and to nobody else. */
  lemma ClaimSends(w: World, env: Env, user: AccountId, id: nat)
    requires WorldInv(w) && env.predecessor != w.tokenId && Execute(w.oracle, env, DrClaim(user, id)).Ok?
    ensures IsSettled(w.oracle, id) && ConfigIdOf(w.oracle.requests[id]) < |w.oracle.configs|
    ensures var w', f := Next(w, CallOracle(env, DrClaim(user, id))), w.oracle.requests[id].finalized;
      var config, paid := w.oracle.configs[f.globalConfigId], ClaimOf(f, user);
      && w'.token == w.token
      && w'.pending == w.pending + (PayoutIfAny(config.stakeToken == w.tokenId, user, paid.stakeTokenPayout)
                                    + PayoutIfAny(config.paymentToken == w.tokenId, user, paid.paymentTokenPayout))
  {
    hide OracleInv, Owed, TokenInv, SettledFit, TotalInFlight, Execute, Payouts, ClaimedRequest, After;
    var o := w.oracle;
    ClaimFindsConfig(o, env, user, id);
    AfterNothing(o);
    TokensGoOutWhereTheyCameIn(o, [], env, DrClaim(user, id), id);
    var f := o.requests[id].finalized;
    var config := o.configs[f.globalConfigId];
    PayoutsIfAny(config.stakeToken, config.paymentToken, user, ClaimOf(f, user).stakeTokenPayout,
                 ClaimOf(f, user).paymentTokenPayout, w.tokenId);
  }

  lemma AfterNothing(o: Oracle)
    ensures After(o, []) == o
  {
  }

  lemma ClaimFindsConfig(o: Oracle, env: Env, user: AccountId, id: nat)
    requires OracleInv(o) && Execute(o, env, DrClaim(user, id)).Ok?
    ensures IsSettled(o, id) && o.requests[id].finalized.globalConfigId < |o.configs|
  {
    hide OracleInv, ClaimedRequest;
  }

  /** What an unstake puts on its way: the amount, to the caller. */
  lemma UnstakeSends(w: World, env: Env, id: nat, round: nat, outcome: Outcome, amount: u128)
    requires WorldInv(w) && env.predecessor != w.tokenId
    requires Execute(w.oracle, env, DrUnstake(id, round, outcome, amount)).Ok?
    ensures id < |w.oracle.requests| && ConfigIdOf(w.oracle.requests[id]) < |w.oracle.configs|
    ensures var w' := Next(w, CallOracle(env, DrUnstake(id, round, outcome, amount)));
      && w'.token == w.token
      && w'.pending == w.pending
          + (if w.oracle.configs[ConfigIdOf(w.oracle.requests[id])].stakeToken == w.tokenId
             then [Payout(env.predecessor, amount)] else [])
  {
    hide OracleInv, Owed, TokenInv, SettledFit, TotalInFlight, Payouts, UnstakedRequest;
    OnePayout(Transfer(w.oracle.configs[ConfigIdOf(w.oracle.requests[id])].stakeToken, env.predecessor, amount),
              w.tokenId);
  }

  /** What a settlement puts on its way: at most the validity bond, to the requester. */
  lemma SettlementSends(w: World, env: Env, call: Call, id: nat)
    requires WorldInv(w) && env.predecessor != w.tokenId
    requires SettlesById(call, id) && Execute(w.oracle, env, call).Ok?
    ensures id < |w.oracle.requests| && w.oracle.requests[id].Active?
    ensures ConfigIdOf(w.oracle.requests[id]) < |w.oracle.configs|
    ensures var w', dr := Next(w, CallOracle(env, call)), w.oracle.requests[id].active;
      var config := w.oracle.configs[dr.globalConfigId];
      && w'.token == w.token && IsSettled(w'.oracle, id)
      && w'.pending == w.pending
          + (if config.paymentToken == w.tokenId && Answered(w'.oracle, id) && !call.DrFinalizeByProvider?
             then [Payout(dr.requester, config.validityBond)] else [])
  {
    hide OracleInv, Owed, TokenInv, SettledFit, TotalInFlight, Payouts, Execute, SettlesById;
    SettlementIsAdmissible(w.oracle, env, call, id);
    var dr := w.oracle.requests[id].active;
    var config := w.oracle.configs[dr.globalConfigId];
    OnePayout(Transfer(config.paymentToken, dr.requester, config.validityBond), w.tokenId);
    assert Payouts([], w.tokenId) == [] by { NoPayouts(w.tokenId); }
  }

  lemma NoPayouts(tokenId: AccountId)
    ensures Payouts([], tokenId) == []
  {
  }

  /** No other call of the oracle sends tokens, and one that fails leaves the world as it was. */
  lemma OthersSendNothing(w: World, env: Env, call: Call)
    requires WorldInv(w) && env.predecessor != w.tokenId
    requires Execute(w.oracle, env, call).Panic?
      || call.DrNew? || call.DrStake? || call.FtOnTransfer?
      || call.SetConfig? || call.UpdateFeeConfig? || call.TogglePause?
    ensures var w', result := Next(w, CallOracle(env, call)), Execute(w.oracle, env, call);
      && w'.token == w.token && w'.pending == w.pending
      && w'.oracle == (if result.Ok? then result.value.oracle else w.oracle)
  {
    hide OracleInv, Owed, TokenInv, SettledFit, TotalInFlight, Payouts, NewRequest, StakeRequest;
    NoPayouts(w.tokenId);
    if Execute(w.oracle, env, call).Ok? {
      match call {
        case DrNew(sender, amount, args) => NewRequestQuiet(w.oracle, env, sender, amount, args);
        case DrStake(sender, amount, id, outcome) => StakeRequestKeeps(w.oracle, env, sender, amount, id, outcome);
        case FtOnTransfer(sender, amount, payload) => CallbackIsQuiet(w.oracle, env, sender, amount, payload);
        case _ =>
      }
    }
  }

  /**
   * A payout under way arrives whatever happens before: if both accounts are registered by then, exactly its
   * amount moves from the oracle to its receiver; otherwise nothing moves. It arrives once.
   */
  lemma PayoutIsDelivered(w: World, i: nat, events: seq<Event>, arrival: Event)
    requires WorldInv(w) && i < |w.pending| && w.pending[i].Payout?
    requires arrival.Arrive? && FollowedRun(w, events, i) == Some(arrival.index)
    ensures var m, at := w.pending[i], Run(w, events);
      var w' := Next(at, arrival);
      var sent := if m.receiver != w.oracleId && m.receiver in at.token.accounts && w.oracleId in at.token.accounts
                  then m.value else 0;
      && arrival.index < |at.pending| && w'.pending == Without(at.pending, arrival.index)
      && w'.oracle == at.oracle
      && w'.token.BalanceOf(w.oracleId) + sent == at.token.BalanceOf(w.oracleId)
      && (m.receiver != w.oracleId ==> w'.token.BalanceOf(m.receiver) == at.token.BalanceOf(m.receiver) + sent)
      && (forall a :: a != w.oracleId && a != m.receiver ==> w'.token.BalanceOf(a) == at.token.BalanceOf(a))
      && w'.token.totalSupply == at.token.totalSupply
  {
    hide WorldInv, Run, FollowedRun, Moved;
    var at, j := Run(w, events), arrival.index;
    AlwaysSolvent(w, events);
    RunFollowed(w, events, i);
    PayoutsAreFunded(at, j);
    var m := at.pending[j];
    if Transferred(at.token, w.oracleId, 1, m.receiver, m.value).Ok? {
      MovedBalances(at.token, w.oracleId, m.receiver, m.value);
    }
  }
}
