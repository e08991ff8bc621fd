/** The oracle and one honest token as a system of messages: safety over every interleaving. */
module TwoContracts {
  import opened Prelude
  import opened Sums
  import opened DataRequests
  import opened Claims
  import opened Disputes
  import opened OracleContract
  import opened OracleInvariant
  import opened OracleHistory
  import opened Liabilities
  import opened Token

  /** A message that has been sent and may arrive at any later time, in any order. */
  datatype Message =
    | Notify(sender: AccountId, receiver: AccountId, amount: u128, payload: Payload)
    | Resolve(sender: AccountId, receiver: AccountId, amount: u128, answer: Answer)
    | Payout(receiver: AccountId, value: nat)

  /** Both contracts and the bag of messages under way between them. */
  datatype World = World(
    tokenId: AccountId,
    oracleId: AccountId,
    token: TokenState,
    oracle: Oracle,
    pending: seq<Message>)

  /**
   * What can happen next: anyone but the oracle calls the token; anyone but the token calls the oracle; a
   * pending message arrives. Other receivers answer what they like, and other tokens are among the callers.
   */
  datatype Event =
    | CallToken(predecessor: AccountId, attached: nat, call: TokenCall, payload: Payload)
    | CallOracle(env: Env, oracleCall: Call)
    | Arrive(index: nat, now: nat, hostOk: bool, answer: Answer)

  function Without(pending: seq<Message>, i: nat): seq<Message>
    requires i < |pending|
  {
    pending[..i] + pending[i + 1..]
  }

  /** The transfers in the honest token become messages to it; those in other tokens are not its business. */
  function Payouts(transfers: seq<Transfer>, tokenId: AccountId): seq<Message> {
    if transfers == [] then []
    else
      var last := transfers[|transfers| - 1];
      Payouts(transfers[..|transfers| - 1], tokenId)
      + (if last.token == tokenId then [Payout(last.receiver, last.amount)] else [])
  }

  function AfterTokenCall(w: World, predecessor: AccountId, attached: nat, call: TokenCall, payload: Payload): World {
    match ExecuteToken(w.token, predecessor, attached, call)
    case Panic(_) => w
    case Ok(token) =>
      var sent := if call.FtTransferCall? then [Notify(predecessor, call.receiver, call.amount, payload)] else [];
      w.(token := token, pending := w.pending + sent)
  }

  function AfterOracleCall(w: World, env: Env, call: Call): World {
    match Execute(w.oracle, env, call)
    case Panic(_) => w
    case Ok(effect) =>
      w.(oracle := effect.oracle, pending := w.pending + Payouts(effect.transfers, w.tokenId))
  }

  /** The oracle's callback runs; whatever it answers goes into the resolve step. */
  function AfterNotify(w: World, i: nat, now: nat, hostOk: bool, answer: Answer): World
    requires i < |w.pending| && w.pending[i].Notify?
  {
    var m := w.pending[i];
    var rest := Without(w.pending, i);
    if m.receiver != w.oracleId then
      w.(pending := rest + [Resolve(m.sender, m.receiver, m.amount, answer)])
    else
      match Execute(w.oracle, Env(w.tokenId, now, hostOk), FtOnTransfer(m.sender, m.amount, m.payload))
      case Panic(_) =>
        w.(pending := rest + [Resolve(m.sender, m.receiver, m.amount, Failed)])
      case Ok(effect) =>
        var answer := if effect.unspent <= U128_MAX then Unused(effect.unspent) else Unreadable;
        w.(oracle := effect.oracle,
           pending := rest + Payouts(effect.transfers, w.tokenId)
                      + [Resolve(m.sender, m.receiver, m.amount, answer)])
  }

  function AfterResolve(w: World, i: nat): World
    requires i < |w.pending| && w.pending[i].Resolve?
  {
    var m := w.pending[i];
    match Resolved(w.token, m.sender, m.receiver, m.amount, m.answer)
    case Panic(_) => w.(pending := Without(w.pending, i))
    case Ok((token, _)) => w.(token := token, pending := Without(w.pending, i))
  }

  /** The oracle's own transfer arrives; if it panics the tokens stay with the oracle. */
  function AfterPayout(w: World, i: nat): World
    requires i < |w.pending| && w.pending[i].Payout?
  {
    var m := w.pending[i];
    match Transferred(w.token, w.oracleId, 1, m.receiver, m.value)
    case Panic(_) => w.(pending := Without(w.pending, i))
    case Ok(token) => w.(token := token, pending := Without(w.pending, i))
  }

  function Next(w: World, event: Event): World {
    match event
    case CallToken(predecessor, attached, call, payload) =>
      if predecessor == w.oracleId then w else AfterTokenCall(w, predecessor, attached, call, payload)
    case CallOracle(env, call) =>
      if env.predecessor == w.tokenId then w else AfterOracleCall(w, env, call)
    case Arrive(i, now, hostOk, answer) =>
      if i >= |w.pending| then w
      else if w.pending[i].Notify? then AfterNotify(w, i, now, hostOk, answer)
      else if w.pending[i].Resolve? then AfterResolve(w, i)
      else AfterPayout(w, i)
  }

  function Run(w: World, events: seq<Event>): World {
    if events == [] then w else Next(Run(w, events[..|events| - 1]), events[|events| - 1])
  }

  // ---------------------------------------------------------------------------------------------
  // Solvency
  // ---------------------------------------------------------------------------------------------

  /** Tokens in the oracle's account that a pending message still has a claim on. */
  function InFlight(m: Message, oracleId: AccountId): nat {
    match m
    case Notify(_, receiver, amount, _) => if receiver == oracleId then amount else 0
    case Resolve(_, receiver, amount, answer) => if receiver == oracleId then UnusedOf(amount, answer) else 0
    case Payout(_, amount) => amount
  }

  function InFlightPerMessage(pending: seq<Message>, oracleId: AccountId): seq<nat> {
    seq(|pending|, i requires 0 <= i < |pending| => InFlight(pending[i], oracleId))
  }

  function TotalInFlight(pending: seq<Message>, oracleId: AccountId): nat {
    SeqSum(InFlightPerMessage(pending, oracleId))
  }

  /** The oracle's balance covers all it owes and all that is under way. */
  ghost predicate Solvent(w: World)
    requires ConfigsExist(w.oracle)
  {
    w.token.BalanceOf(w.oracleId) >= Owed(w.oracle, w.tokenId) + TotalInFlight(w.pending, w.oracleId)
  }

  /** Messages come from transfers between two different accounts, and never from the oracle's side. */
  predicate WellSent(m: Message, oracleId: AccountId) {
    m.Payout? || (m.sender != m.receiver && m.sender != oracleId)
  }

  ghost predicate WorldInv(w: World) {
    && TokenInv(w.token)
    && OracleInv(w.oracle)
    && ConfigsExist(w.oracle)
    && SettledFit(w.oracle, w.tokenId)
    && (forall i :: 0 <= i < |w.pending| ==> WellSent(w.pending[i], w.oracleId))
    && Solvent(w)
  }

  lemma InFlightAppend(pending: seq<Message>, more: seq<Message>, oracleId: AccountId)
    ensures TotalInFlight(pending + more, oracleId) == TotalInFlight(pending, oracleId) + TotalInFlight(more, oracleId)
  {
    hide InFlight;
    assert InFlightPerMessage(pending + more, oracleId)
      == InFlightPerMessage(pending, oracleId) + InFlightPerMessage(more, oracleId);
    SeqSumConcat(InFlightPerMessage(pending, oracleId), InFlightPerMessage(more, oracleId));
  }

  lemma InFlightOne(m: Message, oracleId: AccountId)
    ensures TotalInFlight([m], oracleId) == InFlight(m, oracleId)
  {
    var one := InFlightPerMessage([m], oracleId);
    assert one[..|one| - 1] == [] && one[|one| - 1] == InFlight(m, oracleId);
    assert SeqSum([]) == 0;
  }

  lemma InFlightNone(oracleId: AccountId)
    ensures TotalInFlight([], oracleId) == 0
  {
    assert InFlightPerMessage([], oracleId) == [];
  }

  lemma InFlightWithout(pending: seq<Message>, i: nat, oracleId: AccountId)
    requires i < |pending|
    ensures TotalInFlight(pending, oracleId)
      == TotalInFlight(Without(pending, i), oracleId) + InFlight(pending[i], oracleId)
  {
    assert pending == pending[..i] + ([pending[i]] + pending[i + 1..]);
    InFlightAppend(pending[..i], [pending[i]] + pending[i + 1..], oracleId);
    InFlightAppend([pending[i]], pending[i + 1..], oracleId);
    InFlightAppend(pending[..i], pending[i + 1..], oracleId);
    InFlightOne(pending[i], oracleId);
  }

  lemma {:induction false} InFlightPayouts(transfers: seq<Transfer>, tokenId: AccountId, oracleId: AccountId)
    ensures TotalInFlight(Payouts(transfers, tokenId), oracleId) == Outgoing(transfers, tokenId)
    ensures forall i :: 0 <= i < |Payouts(transfers, tokenId)| ==> Payouts(transfers, tokenId)[i].Payout?
  {
    if transfers == [] {
      InFlightNone(oracleId);
    } else {
      var init, last := transfers[..|transfers| - 1], transfers[|transfers| - 1];
      InFlightPayouts(init, tokenId, oracleId);
      var more := if last.token == tokenId then [Payout(last.receiver, last.amount)] else [];
      InFlightAppend(Payouts(init, tokenId), more, oracleId);
      InFlightOne(Payout(last.receiver, last.amount), oracleId);
      InFlightNone(oracleId);
    }
  }

  /** While the world is solvent the oracle's debt fits 128 bits. */
  lemma DebtFits(w: World)
    requires WorldInv(w)
    ensures Owed(w.oracle, w.tokenId) <= U128_MAX
  {
    hide OracleInv, Owed, MapSum;
    BalanceWithinSupply(w.token, w.oracleId);
  }

  lemma TokenCallKeepsWorld(w: World, predecessor: AccountId, attached: nat, call: TokenCall, payload: Payload)
    requires WorldInv(w) && predecessor != w.oracleId
    ensures WorldInv(AfterTokenCall(w, predecessor, attached, call, payload))
  {
    hide OracleInv, Owed, TokenInv, SettledFit, ConfigsExist, TotalInFlight, ExecuteToken;
    if ExecuteToken(w.token, predecessor, attached, call).Ok? {
      TokenCallKeeps(w.token, predecessor, attached, call);
      OthersCannotLower(w.token, predecessor, attached, call, w.oracleId);
      if call.FtTransferCall? {
        var m := Notify(predecessor, call.receiver, call.amount, payload);
        InFlightAppend(w.pending, [m], w.oracleId);
        InFlightOne(m, w.oracleId);
        TransferCallIsWellSent(w, predecessor, attached, call);
      } else {
        assert w.pending + [] == w.pending;
      }
    }
  }

  lemma TransferCallIsWellSent(w: World, predecessor: AccountId, attached: nat, call: TokenCall)
    requires call.FtTransferCall? && ExecuteToken(w.token, predecessor, attached, call).Ok?
    ensures predecessor != call.receiver
  {
  }

  lemma OracleCallKeepsWorld(w: World, env: Env, call: Call)
    requires WorldInv(w) && env.predecessor != w.tokenId
    ensures WorldInv(AfterOracleCall(w, env, call))
  {
    hide OracleInv, Owed, TokenInv, SettledFit, ConfigsExist, TotalInFlight, Execute, Payouts, Outgoing, Evolves;
    if Execute(w.oracle, env, call).Ok? {
      var effect := Execute(w.oracle, env, call).value;
      DebtFits(w);
      ExecuteKeeps(w.oracle, env, call);
      CallMovesDebt(w.oracle, env, call, w.tokenId);
      CallKeepsSettledFit(w.oracle, env, call, w.tokenId);
      InFlightPayouts(effect.transfers, w.tokenId, w.oracleId);
      InFlightAppend(w.pending, Payouts(effect.transfers, w.tokenId), w.oracleId);
    }
  }

  lemma NotifyKeepsWorld(w: World, i: nat, now: nat, hostOk: bool, answer: Answer)
    requires WorldInv(w) && i < |w.pending| && w.pending[i].Notify?
    ensures WorldInv(AfterNotify(w, i, now, hostOk, answer))
  {
    hide OracleInv, Owed, TokenInv, SettledFit, ConfigsExist, TotalInFlight, Execute, Payouts, Outgoing, Evolves;
    var m := w.pending[i];
    var rest := Without(w.pending, i);
    InFlightWithout(w.pending, i, w.oracleId);
    assert WellSent(m, w.oracleId);
    if m.receiver != w.oracleId {
      var r := Resolve(m.sender, m.receiver, m.amount, answer);
      InFlightAppend(rest, [r], w.oracleId);
      InFlightOne(r, w.oracleId);
    } else {
      var env, call := Env(w.tokenId, now, hostOk), FtOnTransfer(m.sender, m.amount, m.payload);
      if Execute(w.oracle, env, call).Panic? {
        var r := Resolve(m.sender, m.receiver, m.amount, Failed);
        InFlightAppend(rest, [r], w.oracleId);
        InFlightOne(r, w.oracleId);
      } else {
        var effect := Execute(w.oracle, env, call).value;
        DebtFits(w);
        ExecuteKeeps(w.oracle, env, call);
        CallMovesDebt(w.oracle, env, call, w.tokenId);
        CallKeepsSettledFit(w.oracle, env, call, w.tokenId);
        AnswersWithinAmount(w.oracle, env, m.sender, m.amount, m.payload);
        var payouts := Payouts(effect.transfers, w.tokenId);
        var r := Resolve(m.sender, m.receiver, m.amount, Unused(effect.unspent));
        InFlightPayouts(effect.transfers, w.tokenId, w.oracleId);
        InFlightAppend(rest, payouts, w.oracleId);
        InFlightAppend(rest + payouts, [r], w.oracleId);
        InFlightOne(r, w.oracleId);
      }
    }
  }

  /** The oracle never answers more than it was sent. */
  lemma AnswersWithinAmount(o: Oracle, env: Env, sender: AccountId, amount: u128, payload: Payload)
    requires OracleInv(o) && Execute(o, env, FtOnTransfer(sender, amount, payload)).Ok?
    ensures Execute(o, env, FtOnTransfer(sender, amount, payload)).value.unspent <= amount
  {
    hide OracleInv, Evolves, NewRequest, StakeRequest;
    if payload.NewDataRequest? {
      NewRequestQuiet(o, env, sender, amount, payload.args);
    } else {
      StakeRequestKeeps(o, env, sender, amount, payload.id, payload.outcome);
    }
  }

  lemma ResolveKeepsWorld(w: World, i: nat)
    requires WorldInv(w) && i < |w.pending| && w.pending[i].Resolve?
    ensures WorldInv(AfterResolve(w, i))
  {
    hide OracleInv, Owed, TokenInv, SettledFit, ConfigsExist, TotalInFlight, Resolved;
    var m := w.pending[i];
    InFlightWithout(w.pending, i, w.oracleId);
    assert WellSent(m, w.oracleId);
    ResolvedBalances(w.token, m.sender, m.receiver, m.amount, m.answer);
    ResolvedKeepsToken(w.token, m.sender, m.receiver, m.amount, m.answer);
  }

  lemma PayoutKeepsWorld(w: World, i: nat)
    requires WorldInv(w) && i < |w.pending| && w.pending[i].Payout?
    ensures WorldInv(AfterPayout(w, i))
  {
    hide OracleInv, Owed, TokenInv, SettledFit, ConfigsExist, TotalInFlight, Moved;
    var m := w.pending[i];
    InFlightWithout(w.pending, i, w.oracleId);
    if Transferred(w.token, w.oracleId, 1, m.receiver, m.value).Ok? {
      TransferKeepsToken(w.token, w.oracleId, 1, m.receiver, m.value);
      MovedBalances(w.token, w.oracleId, m.receiver, m.value);
    }
  }

  lemma EventKeepsWorld(w: World, event: Event)
    requires WorldInv(w)
    ensures WorldInv(Next(w, event))
    ensures Next(w, event).tokenId == w.tokenId && Next(w, event).oracleId == w.oracleId
  {
    hide WorldInv;
    match event {
      case CallToken(predecessor, attached, call, payload) =>
        if predecessor != w.oracleId { TokenCallKeepsWorld(w, predecessor, attached, call, payload); }
      case CallOracle(env, call) =>
        if env.predecessor != w.tokenId { OracleCallKeepsWorld(w, env, call); }
      case Arrive(i, now, hostOk, answer) =>
        if i < |w.pending| {
          match w.pending[i] {
            case Notify(_, _, _, _) => NotifyKeepsWorld(w, i, now, hostOk, answer);
            case Resolve(_, _, _, _) => ResolveKeepsWorld(w, i);
            case Payout(_, _) => PayoutKeepsWorld(w, i);
          }
        }
    }
  }

  /** Both contracts freshly deployed, nothing under way. */
  function Genesis(tokenId: AccountId, oracleId: AccountId, storageMinimum: nat, native: nat, config: OracleConfig)
    : World
  {
    World(tokenId, oracleId, TokenState(map[], 0, native, storageMinimum), Deployed(config), [])
  }

  /** Every interleaving of events keeps the two-contract invariant. */
  lemma {:induction false} AlwaysSolvent(w: World, events: seq<Event>)
    requires WorldInv(w)
    ensures WorldInv(Run(w, events))
    ensures Run(w, events).tokenId == w.tokenId && Run(w, events).oracleId == w.oracleId
  {
    hide WorldInv, Next;
    if events != [] {
      AlwaysSolvent(w, events[..|events| - 1]);
      EventKeepsWorld(Run(w, events[..|events| - 1]), events[|events| - 1]);
    }
  }

  lemma GenesisIsSolvent(tokenId: AccountId, oracleId: AccountId, storageMinimum: nat, native: nat,
                         config: OracleConfig)
    ensures WorldInv(Genesis(tokenId, oracleId, storageMinimum, native, config))
  {
    InFlightNone(oracleId);
    assert OwedPerRequest(Deployed(config), tokenId) == [];
    var empty: map<AccountId, nat> := map[];
    assert |empty| == 0;
  }

  /**
   * Over every interleaving from genesis the token's supply equals its balances and is backed, and the oracle
   * holds enough to cover every debt in that token and everything in flight.
   */
  lemma SolventFromGenesis(tokenId: AccountId, oracleId: AccountId, storageMinimum: nat, native: nat,
                           config: OracleConfig, events: seq<Event>)
    ensures var w := Run(Genesis(tokenId, oracleId, storageMinimum, native, config), events);
      && MapSum(w.token.accounts) == w.token.totalSupply <= U128_MAX
      && w.token.native >= w.token.totalSupply
      && ConfigsExist(w.oracle)
      && w.token.BalanceOf(oracleId) >= Owed(w.oracle, tokenId) + TotalInFlight(w.pending, oracleId)
  {
    hide WorldInv, Run, Owed, TotalInFlight, ConfigsExist;
    GenesisIsSolvent(tokenId, oracleId, storageMinimum, native, config);
    AlwaysSolvent(Genesis(tokenId, oracleId, storageMinimum, native, config), events);
    SolventMeans(Run(Genesis(tokenId, oracleId, storageMinimum, native, config), events));
  }

  lemma SolventMeans(w: World)
    requires WorldInv(w)
    ensures MapSum(w.token.accounts) == w.token.totalSupply <= U128_MAX
    ensures w.token.native >= w.token.totalSupply
    ensures ConfigsExist(w.oracle)
    ensures w.token.BalanceOf(w.oracleId) >= Owed(w.oracle, w.tokenId) + TotalInFlight(w.pending, w.oracleId)
  {
    hide MapSum, Owed, OracleInv, TotalInFlight, SettledFit, ConfigsExist;
    Arithmetic.MulMonotone(0, 0, w.token.storageMinimum, |w.token.accounts|);
  }

  // ---------------------------------------------------------------------------------------------
  // What solvency buys
  // ---------------------------------------------------------------------------------------------

  /**
   * When the oracle is the receiver the cap at the receiver's balance never shortens a refund: the sender
   * gets back exactly what the oracle did not use, or the supply burns exactly that.
   */
  lemma RefundsAreNeverShortened(w: World, i: nat)
    requires WorldInv(w) && i < |w.pending|
    requires w.pending[i].Resolve? && w.pending[i].receiver == w.oracleId
    ensures var m := w.pending[i];
      var unused, token' := UnusedOf(m.amount, m.answer), AfterResolve(w, i).token;
      && token'.BalanceOf(w.oracleId) + unused == w.token.BalanceOf(w.oracleId)
      && (if m.sender in w.token.accounts
          then token'.BalanceOf(m.sender) == w.token.BalanceOf(m.sender) + unused
               && token'.totalSupply == w.token.totalSupply
          else token'.totalSupply + unused == w.token.totalSupply)
  {
    hide OracleInv, Owed, TokenInv, SettledFit, ConfigsExist, TotalInFlight, Resolved;
    var m := w.pending[i];
    InFlightWithout(w.pending, i, w.oracleId);
    assert WellSent(m, w.oracleId);
    ResolvedBalances(w.token, m.sender, m.receiver, m.amount, m.answer);
  }

  lemma CallbackIsQuiet(o: Oracle, env: Env, sender: AccountId, amount: u128, payload: Payload)
    requires OracleInv(o) && Execute(o, env, FtOnTransfer(sender, amount, payload)).Ok?
    ensures Execute(o, env, FtOnTransfer(sender, amount, payload)).value.transfers == []
  {
    hide OracleInv, Evolves, NewRequest, StakeRequest;
    if payload.NewDataRequest? {
      NewRequestQuiet(o, env, sender, amount, payload.args);
    } else {
      StakeRequestKeeps(o, env, sender, amount, payload.id, payload.outcome);
    }
  }

  /** What the oracle keeps of a transfer call: nothing if its callback panics. */
  function Kept(w: World, sender: AccountId, amount: u128, payload: Payload, now: nat, hostOk: bool): int {
    match Execute(w.oracle, Env(w.tokenId, now, hostOk), FtOnTransfer(sender, amount, payload))
    case Ok(effect) => amount - effect.unspent
    case Panic(_) => 0
  }

  /** The callback answers what it kept, and its own state is that of the call or, on a panic, unchanged. */
  lemma CallbackArrives(w: World, i: nat, now: nat, hostOk: bool)
    requires OracleInv(w.oracle) && i + 1 == |w.pending|
    requires w.pending[i].Notify? && w.pending[i].receiver == w.oracleId
    ensures var m, w' := w.pending[i], AfterNotify(w, i, now, hostOk, Failed);
      var result := Execute(w.oracle, Env(w.tokenId, now, hostOk), FtOnTransfer(m.sender, m.amount, m.payload));
      && |w'.pending| == |w.pending| && w'.pending[..i] == w.pending[..i] && w'.token == w.token
      && w'.pending[i].Resolve?
      && w'.pending[i].sender == m.sender && w'.pending[i].receiver == m.receiver
      && w'.pending[i].amount == m.amount
      && UnusedOf(m.amount, w'.pending[i].answer) == m.amount - Kept(w, m.sender, m.amount, m.payload, now, hostOk)
      && w'.oracle == (if result.Ok? then result.value.oracle else w.oracle)
  {
    hide OracleInv, Execute;
    var m := w.pending[i];
    var env := Env(w.tokenId, now, hostOk);
    assert Without(w.pending, i) == w.pending[..i];
    if Execute(w.oracle, env, FtOnTransfer(m.sender, m.amount, m.payload)).Ok? {
      CallbackIsQuiet(w.oracle, env, m.sender, m.amount, m.payload);
      AnswersWithinAmount(w.oracle, env, m.sender, m.amount, m.payload);
    }
  }

  /**
   * A transfer call to the oracle that runs through its three steps moves exactly what the oracle kept from
   * the sender to the oracle and nothing else; a panicking callback undoes the transfer entirely.
   */
  lemma TransferCallSettles(w: World, sender: AccountId, amount: u128, payload: Payload, now: nat, hostOk: bool)
    requires WorldInv(w) && sender != w.oracleId
    requires Transferred(w.token, sender, 1, w.oracleId, amount).Ok?
    ensures var n, kept := |w.pending|, Kept(w, sender, amount, payload, now, hostOk);
      var w1 := Next(w, CallToken(sender, 1, FtTransferCall(w.oracleId, amount), payload));
      var w2 := Next(w1, Arrive(n, now, hostOk, Failed));
      var w3 := Next(w2, Arrive(n, now, hostOk, Failed));
      && 0 <= kept <= amount
      && w3.token.BalanceOf(w.oracleId) == w.token.BalanceOf(w.oracleId) + kept
      && w3.token.BalanceOf(sender) == w.token.BalanceOf(sender) - kept
      && (forall a :: a != sender && a != w.oracleId ==> w3.token.BalanceOf(a) == w.token.BalanceOf(a))
      && w3.token.totalSupply == w.token.totalSupply
      && w3.pending == w.pending
  {
    hide OracleInv, Owed, SettledFit, ConfigsExist, TotalInFlight, TokenInv, Resolved, Moved, Kept, AfterNotify;
    var n := |w.pending|;
    var w1 := Next(w, CallToken(sender, 1, FtTransferCall(w.oracleId, amount), payload));
    var w2 := Next(w1, Arrive(n, now, hostOk, Failed));
    EventKeepsWorld(w, CallToken(sender, 1, FtTransferCall(w.oracleId, amount), payload));
    EventKeepsWorld(w1, Arrive(n, now, hostOk, Failed));
    MovedBalances(w.token, sender, w.oracleId, amount);
    MovedKeepsSender(w.token, sender, w.oracleId, amount);
    CallbackArrives(w1, n, now, hostOk);
    KeptWithin(w, sender, amount, payload, now, hostOk);
    assert Kept(w1, sender, amount, payload, now, hostOk) == Kept(w, sender, amount, payload, now, hostOk) by {
      KeptDependsOnOracle(w, w1, sender, amount, payload, now, hostOk);
    }
    RefundsAreNeverShortened(w2, n);
    ResolvedBalances(w2.token, sender, w.oracleId, amount, w2.pending[n].answer);
    assert w1.pending[..n] == w.pending;
    assert Without(w2.pending, n) == w.pending;
  }

  lemma MovedKeepsSender(t: TokenState, sender: AccountId, receiver: AccountId, amount: nat)
    requires Moved(t, sender, receiver, amount).Ok?
    ensures sender in Moved(t, sender, receiver, amount).value.accounts
  {
  }

  lemma KeptDependsOnOracle(w: World, w': World, sender: AccountId, amount: u128, payload: Payload, now: nat,
                            hostOk: bool)
    requires w'.oracle == w.oracle && w'.tokenId == w.tokenId
    ensures Kept(w', sender, amount, payload, now, hostOk) == Kept(w, sender, amount, payload, now, hostOk)
  {
    hide Execute;
  }

  lemma KeptWithin(w: World, sender: AccountId, amount: u128, payload: Payload, now: nat, hostOk: bool)
    requires OracleInv(w.oracle)
    ensures 0 <= Kept(w, sender, amount, payload, now, hostOk) <= amount
  {
    hide Execute, OracleInv;
    var env := Env(w.tokenId, now, hostOk);
    if Execute(w.oracle, env, FtOnTransfer(sender, amount, payload)).Ok? {
      AnswersWithinAmount(w.oracle, env, sender, amount, payload);
    }
  }

  /** A payout on its way can fail only because an account is not registered or is the oracle itself. */
  lemma PayoutsAreFunded(w: World, i: nat)
    requires WorldInv(w) && i < |w.pending| && w.pending[i].Payout?
    ensures var m := w.pending[i];
      Transferred(w.token, w.oracleId, 1, m.receiver, m.value).Ok?
      <==> m.receiver != w.oracleId && m.receiver in w.token.accounts && w.oracleId in w.token.accounts
  {
    hide OracleInv, Owed, SettledFit, ConfigsExist, TotalInFlight, MapSum;
    var m := w.pending[i];
    InFlightWithout(w.pending, i, w.oracleId);
    if m.receiver != w.oracleId {
      MapSumAtLeastTwo(w.token.accounts, m.receiver, w.oracleId);
    }
  }

  /** In every reachable world a claim on a request staked in the honest token computes without a panic. */
  lemma ClaimsNeverOverflow(w: World, id: nat, user: AccountId)
    requires WorldInv(w) && IsSettled(w.oracle, id)
    requires w.oracle.configs[ConfigIdOf(w.oracle.requests[id])].stakeToken == w.tokenId
    ensures var f := w.oracle.requests[id].finalized;
      && ClaimedRequest(f, user).Ok?
      && ClaimedRequest(f, user).value.1 == ClaimRes(FeePayout(f, user), StakePayout(f, user))
  {
    hide OracleInv, FinalizedInv, Owed, Solvent, TokenInv;
    SettledInv(w.oracle, id);
    ClaimPays(w.oracle.requests[id].finalized, user);
  }
}
