/** The wrapped-NEAR token: balances, supply, registration and the resolve step of a transfer call. */
module Token {
  import opened Prelude
  import opened Sums

  /** `native` is the contract's own NEAR; `storageMinimum` is the fixed price of one account. */
  datatype TokenState = TokenState(
    accounts: map<AccountId, nat>,
    totalSupply: nat,
    native: int,
    storageMinimum: nat)
  {
    function BalanceOf(account: AccountId): nat {
      At(accounts, account)
    }
  }

  /** What the receiver's callback answered, as the resolve step sees it. */
  datatype Answer = Unused(amount: u128) | Unreadable | Failed

  datatype TokenCall =
    | FtTransfer(receiver: AccountId, amount: u128)
    | FtTransferCall(receiver: AccountId, amount: u128)
    | NearDeposit
    | NearWithdraw(amount: u128)
    | StorageDeposit(accountId: Option<AccountId>)
    | StorageWithdraw(amount: u128)

  // ---------------------------------------------------------------------------------------------
  // What each call does to the stored token
  // ---------------------------------------------------------------------------------------------

  function Deposited(t: TokenState, account: AccountId, amount: nat): Result<TokenState> {
    var balance := t.BalanceOf(account);
    :- Need(account in t.accounts, NotRegistered);
    :- Need(balance + amount <= U128_MAX, Overflow);
    Ok(t.(accounts := t.accounts[account := balance + amount]))
  }

  function Withdrawn(t: TokenState, account: AccountId, amount: nat): Result<TokenState> {
    var balance := t.BalanceOf(account);
    :- Need(account in t.accounts, NotRegistered);
    :- Need(amount <= balance, InsufficientBalance);
    Ok(t.(accounts := t.accounts[account := balance - amount]))
  }

  function Moved(t: TokenState, sender: AccountId, receiver: AccountId, amount: nat): Result<TokenState> {
    var different := sender != receiver;
    :- Need(different, SelfTransfer);
    var t1 :- Withdrawn(t, sender, amount);
    Deposited(t1, receiver, amount)
  }

  /** A transfer by a user, one yoctoNEAR attached. */
  function Transferred(t: TokenState, sender: AccountId, attached: nat, receiver: AccountId, amount: nat)
    : Result<TokenState>
  {
    var oneYocto := attached == 1;
    :- Need(oneYocto, Rejected);
    var t' :- Moved(t, sender, receiver, amount);
    Ok(t'.(native := t'.native + 1))
  }

  /** The part of `amount` that the receiver did not use; a failed or unreadable answer means all of it. */
  function UnusedOf(amount: nat, answer: Answer): nat {
    match answer
    case Unused(unused) => Min(amount, unused)
    case Unreadable => amount
    case Failed => amount
  }

  /** Refund what the receiver did not use and still has; burn it if the sender's account is gone. */
  function Resolved(t: TokenState, sender: AccountId, receiver: AccountId, amount: nat, answer: Answer)
    : Result<(TokenState, nat)>
  {
    var unused := UnusedOf(amount, answer);
    var refund := Min(t.BalanceOf(receiver), unused);
    if refund == 0 then Ok((t, amount))
    else
      var t1 := t.(accounts := t.accounts[receiver := t.BalanceOf(receiver) - refund]);
      if sender in t1.accounts then
        :- Need(t1.BalanceOf(sender) + refund <= U128_MAX, Overflow);
        Ok((t1.(accounts := t1.accounts[sender := t1.BalanceOf(sender) + refund]), amount - refund))
      else
        :- Need(refund <= t.totalSupply, Underflow);
        Ok((t1.(totalSupply := t.totalSupply - refund), amount))
  }

  /** Wraps the attached NEAR. */
  function Minted(t: TokenState, account: AccountId, attached: nat): Result<TokenState> {
    var positive := attached > 0;
    :- Need(positive, Rejected);
    var t1 :- Deposited(t, account, attached);
    :- Need(t.totalSupply + attached <= U128_MAX, Overflow);
    Ok(t1.(totalSupply := t.totalSupply + attached, native := t.native + attached))
  }

  /** Unwraps `amount` and sends it back together with the attached yoctoNEAR. */
  function Unwrapped(t: TokenState, account: AccountId, attached: nat, amount: nat): Result<TokenState> {
    var oneYocto := attached == 1;
    :- Need(oneYocto, Rejected);
    var t1 :- Withdrawn(t, account, amount);
    :- Need(amount <= t.totalSupply, Underflow);
    :- Need(amount + 1 <= U128_MAX, Overflow);
    Ok(t1.(totalSupply := t.totalSupply - amount, native := t.native + attached - (amount + 1)))
  }

  function Registered(t: TokenState, predecessor: AccountId, attached: nat, accountId: Option<AccountId>)
    : Result<TokenState>
  {
    var account := if accountId.Some? then accountId.value else predecessor;
    :- Need(attached == t.storageMinimum, Rejected);
    :- Need(account !in t.accounts, AlreadyRegistered);
    Ok(t.(accounts := t.accounts[account := 0], native := t.native + attached))
  }

  function Unregistered(t: TokenState, account: AccountId, attached: nat, amount: nat): Result<TokenState> {
    var oneYocto := attached == 1;
    :- Need(oneYocto && amount == t.storageMinimum, Rejected);
    :- Need(account in t.accounts, NotRegistered);
    :- Need(t.accounts[account] == 0, InsufficientBalance);
    :- Need(amount + 1 <= U128_MAX, Overflow);
    Ok(t.(accounts := t.accounts - {account}, native := t.native + attached - (amount + 1)))
  }

  function ExecuteToken(t: TokenState, predecessor: AccountId, attached: nat, call: TokenCall): Result<TokenState> {
    match call
    case FtTransfer(receiver, amount) => Transferred(t, predecessor, attached, receiver, amount)
    case FtTransferCall(receiver, amount) => Transferred(t, predecessor, attached, receiver, amount)
    case NearDeposit => Minted(t, predecessor, attached)
    case NearWithdraw(amount) => Unwrapped(t, predecessor, attached, amount)
    case StorageDeposit(accountId) => Registered(t, predecessor, attached, accountId)
    case StorageWithdraw(amount) => Unregistered(t, predecessor, attached, amount)
  }

  // ---------------------------------------------------------------------------------------------
  // The token under change
  // ---------------------------------------------------------------------------------------------

  /** The callback that a transfer call sets in motion, and after it the resolve step. */
  datatype TransferPromise = TransferPromise(sender: AccountId, receiver: AccountId, amount: u128)

  class TokenContract {
    var accounts: map<AccountId, nat>
    var totalSupply: nat
    var native: int
    const storageMinimum: nat

    function Stored(): TokenState
      reads this
    {
      TokenState(accounts, totalSupply, native, storageMinimum)
    }

    constructor (storageMinimum: nat, native: int)
      ensures Stored() == TokenState(map[], 0, native, storageMinimum)
    {
      accounts, totalSupply := map[], 0;
      this.native, this.storageMinimum := native, storageMinimum;
    }

    method InternalDeposit(account: AccountId, amount: nat) returns (r: Result<()>)
      modifies this`accounts
      ensures match Deposited(old(Stored()), account, amount)
              case Ok(t) => r == Ok(()) && Stored() == t
              case Panic(e) => r == Panic(e) && Stored() == old(Stored())
    {
      if account !in accounts { return Panic(NotRegistered); }
      var balance := accounts[account];
      if balance + amount > U128_MAX { return Panic(Overflow); }
      accounts := accounts[account := balance + amount];
      return Ok(());
    }

    method InternalWithdraw(account: AccountId, amount: nat) returns (r: Result<()>)
      modifies this`accounts
      ensures match Withdrawn(old(Stored()), account, amount)
              case Ok(t) => r == Ok(()) && Stored() == t
              case Panic(e) => r == Panic(e) && Stored() == old(Stored())
    {
      if account !in accounts { return Panic(NotRegistered); }
      var balance := accounts[account];
      if amount > balance { return Panic(InsufficientBalance); }
      accounts := accounts[account := balance - amount];
      return Ok(());
    }

    method InternalTransfer(sender: AccountId, receiver: AccountId, amount: nat) returns (r: Result<()>)
      modifies this`accounts
      ensures match Moved(old(Stored()), sender, receiver, amount)
              case Ok(t) => r == Ok(()) && Stored() == t
              case Panic(e) => r == Panic(e) && Stored() == old(Stored())
    {
      var before := accounts;
      if sender == receiver { return Panic(SelfTransfer); }
      r := InternalWithdraw(sender, amount);
      if r.Panic? { return; }
      r := InternalDeposit(receiver, amount);
      // A panicking deposit takes the withdrawal back with it.
      if r.Panic? { accounts := before; }
    }

    method FtTransfer(predecessor: AccountId, attached: nat, receiver: AccountId, amount: u128)
      returns (r: Result<()>)
      modifies this`accounts, this`native
      ensures match Transferred(old(Stored()), predecessor, attached, receiver, amount)
              case Ok(t) => r == Ok(()) && Stored() == t
              case Panic(e) => r == Panic(e) && Stored() == old(Stored())
    {
      if attached != 1 { return Panic(Rejected); }
      r := InternalTransfer(predecessor, receiver, amount);
      if r.Ok? { native := native + attached; }
    }

    method FtTransferCall(predecessor: AccountId, attached: nat, receiver: AccountId, amount: u128)
      returns (r: Result<TransferPromise>)
      modifies this`accounts, this`native
      ensures match Transferred(old(Stored()), predecessor, attached, receiver, amount)
              case Ok(t) => r == Ok(TransferPromise(predecessor, receiver, amount)) && Stored() == t
              case Panic(e) => r == Panic(e) && Stored() == old(Stored())
    {
      if attached != 1 { return Panic(Rejected); }
      var moved := InternalTransfer(predecessor, receiver, amount);
      if moved.Panic? { return Panic(moved.error); }
      native := native + attached;
      return Ok(TransferPromise(predecessor, receiver, amount));
    }

    method FtResolveTransfer(sender: AccountId, receiver: AccountId, amount: nat, answer: Answer)
      returns (r: Result<nat>)
      modifies this`accounts, this`totalSupply
      ensures match Resolved(old(Stored()), sender, receiver, amount, answer)
              case Ok((t, used)) => r == Ok(used) && Stored() == t
              case Panic(e) => r == Panic(e) && Stored() == old(Stored())
    {
      var before := accounts;
      var unusedAmount := amount;
      match answer {
        case Unused(unused) => unusedAmount := Min(amount, unused);
        case Unreadable =>
        case Failed =>
      }
      if unusedAmount > 0 {
        var receiverBalance := if receiver in accounts then accounts[receiver] else 0;
        if receiverBalance > 0 {
          var refundAmount := Min(receiverBalance, unusedAmount);
          accounts := accounts[receiver := receiverBalance - refundAmount];
          if sender in accounts {
            var senderBalance := accounts[sender];
            if senderBalance + refundAmount > U128_MAX {
              accounts := before;
              return Panic(Overflow);
            }
            accounts := accounts[sender := senderBalance + refundAmount];
            return Ok(amount - refundAmount);
          } else {
            if refundAmount > totalSupply {
              accounts := before;
              return Panic(Underflow);
            }
            totalSupply := totalSupply - refundAmount;
          }
        }
      }
      return Ok(amount);
    }

    method NearDeposit(predecessor: AccountId, attached: nat) returns (r: Result<()>)
      modifies this`accounts, this`totalSupply, this`native
      ensures match Minted(old(Stored()), predecessor, attached)
              case Ok(t) => r == Ok(()) && Stored() == t
              case Panic(e) => r == Panic(e) && Stored() == old(Stored())
    {
      var before := accounts;
      if attached == 0 { return Panic(Rejected); }
      r := InternalDeposit(predecessor, attached);
      if r.Panic? { return; }
      if totalSupply + attached > U128_MAX {
        accounts := before;
        return Panic(Overflow);
      }
      totalSupply := totalSupply + attached;
      native := native + attached;
    }

    /** The NEAR leaves the contract together with the attached yoctoNEAR. */
    method NearWithdraw(predecessor: AccountId, attached: nat, amount: nat) returns (r: Result<nat>)
      modifies this`accounts, this`totalSupply, this`native
      ensures match Unwrapped(old(Stored()), predecessor, attached, amount)
              case Ok(t) => r == Ok(amount + 1) && Stored() == t
              case Panic(e) => r == Panic(e) && Stored() == old(Stored())
    {
      var before := accounts;
      if attached != 1 { return Panic(Rejected); }
      var withdrawn := InternalWithdraw(predecessor, amount);
      if withdrawn.Panic? { return Panic(withdrawn.error); }
      if amount > totalSupply {
        accounts := before;
        return Panic(Underflow);
      }
      if amount + 1 > U128_MAX {
        accounts := before;
        return Panic(Overflow);
      }
      totalSupply := totalSupply - amount;
      native := native + attached - (amount + 1);
      return Ok(amount + 1);
    }

    method StorageDeposit(predecessor: AccountId, attached: nat, accountId: Option<AccountId>)
      returns (r: Result<()>)
      modifies this`accounts, this`native
      ensures match Registered(old(Stored()), predecessor, attached, accountId)
              case Ok(t) => r == Ok(()) && Stored() == t
              case Panic(e) => r == Panic(e) && Stored() == old(Stored())
    {
      if attached != storageMinimum { return Panic(Rejected); }
      var account := predecessor;
      if accountId.Some? { account := accountId.value; }
      if account in accounts { return Panic(AlreadyRegistered); }
      accounts := accounts[account := 0];
      native := native + attached;
      return Ok(());
    }

    method StorageWithdraw(predecessor: AccountId, attached: nat, amount: nat) returns (r: Result<nat>)
      modifies this`accounts, this`native
      ensures match Unregistered(old(Stored()), predecessor, attached, amount)
              case Ok(t) => r == Ok(amount + 1) && Stored() == t
              case Panic(e) => r == Panic(e) && Stored() == old(Stored())
    {
      if attached != 1 || amount != storageMinimum { return Panic(Rejected); }
      if predecessor !in accounts { return Panic(NotRegistered); }
      if accounts[predecessor] > 0 { return Panic(InsufficientBalance); }
      if amount + 1 > U128_MAX { return Panic(Overflow); }
      accounts := accounts - {predecessor};
      native := native + attached - (amount + 1);
      return Ok(amount + 1);
    }
  }

  // ---------------------------------------------------------------------------------------------
  // Supply is conserved and backed
  // ---------------------------------------------------------------------------------------------

  /** The supply is the sum of the balances, fits 128 bits, and is backed besides the storage deposits. */
  ghost predicate TokenInv(t: TokenState) {
    && MapSum(t.accounts) == t.totalSupply <= U128_MAX
    && t.native >= t.totalSupply + t.storageMinimum * |t.accounts|
  }

  lemma BalanceWithinSupply(t: TokenState, account: AccountId)
    requires TokenInv(t)
    ensures t.BalanceOf(account) <= t.totalSupply
  {
    MapSumAtLeast(t.accounts, account);
  }

  lemma KnownAccounts<K, V>(m: map<K, V>, k: K, v: V)
    ensures k in m ==> |m[k := v]| == |m|
    ensures k !in m ==> |m[k := v]| == |m| + 1
  {
    if k in m {
      assert m[k := v].Keys == m.Keys;
      assert |m[k := v].Keys| == |m.Keys|;
    } else {
      assert m[k := v] - {k} == m;
      SizeWithout(m[k := v], k);
    }
  }

  /** A transfer moves exactly `amount` and nothing else. */
  lemma MovedBalances(t: TokenState, sender: AccountId, receiver: AccountId, amount: nat)
    requires Moved(t, sender, receiver, amount).Ok?
    ensures var t' := Moved(t, sender, receiver, amount).value;
      && amount <= t.BalanceOf(sender)
      && t'.BalanceOf(sender) + amount == t.BalanceOf(sender)
      && t'.BalanceOf(receiver) == t.BalanceOf(receiver) + amount
      && (forall a :: a != sender && a != receiver ==> t'.BalanceOf(a) == t.BalanceOf(a))
      && MapSum(t'.accounts) == MapSum(t.accounts)
      && |t'.accounts| == |t.accounts|
      && t' == t.(accounts := t'.accounts)
  {
    hide MapSum;
    var t1 := Withdrawn(t, sender, amount).value;
    var t' := Moved(t, sender, receiver, amount).value;
    MapSumUpdate(t.accounts, sender, t.BalanceOf(sender) - amount);
    MapSumUpdate(t1.accounts, receiver, t1.BalanceOf(receiver) + amount);
    KnownAccounts(t.accounts, sender, t.BalanceOf(sender) - amount);
    KnownAccounts(t1.accounts, receiver, t1.BalanceOf(receiver) + amount);
  }

  /** The refund the receiver can still pay. */
  function RefundOf(t: TokenState, receiver: AccountId, amount: nat, answer: Answer): nat {
    Min(t.BalanceOf(receiver), UnusedOf(amount, answer))
  }

  /**
   * The resolve step never panics. It takes the refund from the receiver, which is all of the amount that the
   * receiver did not report as used and still has, and gives it to the sender, or, if the sender's account was
   * deleted meanwhile, burns it from the supply.
   */
  lemma ResolvedBalances(t: TokenState, sender: AccountId, receiver: AccountId, amount: nat, answer: Answer)
    requires TokenInv(t) && sender != receiver
    ensures Resolved(t, sender, receiver, amount, answer).Ok?
    ensures var (t', used) := Resolved(t, sender, receiver, amount, answer).value;
      var refund := RefundOf(t, receiver, amount, answer);
      && refund == Min(t.BalanceOf(receiver),
                       if answer.Unused? && answer.amount < amount then answer.amount else amount)
      && t'.BalanceOf(receiver) + refund == t.BalanceOf(receiver)
      && (forall a :: a != sender && a != receiver ==> t'.BalanceOf(a) == t.BalanceOf(a))
      && t'.accounts.Keys == t.accounts.Keys
      && (if sender in t.accounts
          then t'.BalanceOf(sender) == t.BalanceOf(sender) + refund && t'.totalSupply == t.totalSupply
               && used == amount - refund
          else t'.BalanceOf(sender) == 0 && t'.totalSupply + refund == t.totalSupply && used == amount)
  {
    hide MapSum;
    MapSumAtLeastTwo(t.accounts, sender, receiver);
  }

  lemma ResolvedKeepsToken(t: TokenState, sender: AccountId, receiver: AccountId, amount: nat, answer: Answer)
    requires TokenInv(t) && sender != receiver
    requires Resolved(t, sender, receiver, amount, answer).Ok?
    ensures TokenInv(Resolved(t, sender, receiver, amount, answer).value.0)
  {
    hide MapSum;
    var refund := RefundOf(t, receiver, amount, answer);
    var t' := Resolved(t, sender, receiver, amount, answer).value.0;
    if refund > 0 {
      var accounts1 := t.accounts[receiver := t.BalanceOf(receiver) - refund];
      MapSumUpdate(t.accounts, receiver, t.BalanceOf(receiver) - refund);
      KnownAccounts(t.accounts, receiver, t.BalanceOf(receiver) - refund);
      if sender in t.accounts {
        MapSumUpdate(accounts1, sender, t.BalanceOf(sender) + refund);
        KnownAccounts(accounts1, sender, t.BalanceOf(sender) + refund);
        assert t'.accounts == accounts1[sender := t.BalanceOf(sender) + refund];
      }
      FewerSeats(t, t');
    }
  }

  lemma FewerSeats(t: TokenState, t': TokenState)
    requires |t'.accounts| == |t.accounts| && t'.storageMinimum == t.storageMinimum
    ensures t'.storageMinimum * |t'.accounts| == t.storageMinimum * |t.accounts|
  {
  }

  lemma TransferKeepsToken(t: TokenState, sender: AccountId, attached: nat, receiver: AccountId, amount: nat)
    requires TokenInv(t) && Transferred(t, sender, attached, receiver, amount).Ok?
    ensures TokenInv(Transferred(t, sender, attached, receiver, amount).value)
  {
    hide MapSum;
    MovedBalances(t, sender, receiver, amount);
    FewerSeats(t, Moved(t, sender, receiver, amount).value);
  }

  lemma MintKeepsToken(t: TokenState, account: AccountId, attached: nat)
    requires TokenInv(t) && Minted(t, account, attached).Ok?
    ensures TokenInv(Minted(t, account, attached).value)
  {
    hide MapSum;
    MapSumUpdate(t.accounts, account, t.BalanceOf(account) + attached);
    KnownAccounts(t.accounts, account, t.BalanceOf(account) + attached);
    FewerSeats(t, Minted(t, account, attached).value);
  }

  lemma UnwrapKeepsToken(t: TokenState, account: AccountId, attached: nat, amount: nat)
    requires TokenInv(t) && Unwrapped(t, account, attached, amount).Ok?
    ensures TokenInv(Unwrapped(t, account, attached, amount).value)
  {
    hide MapSum;
    MapSumUpdate(t.accounts, account, t.BalanceOf(account) - amount);
    KnownAccounts(t.accounts, account, t.BalanceOf(account) - amount);
    FewerSeats(t, Unwrapped(t, account, attached, amount).value);
  }

  lemma RegistrationKeepsToken(t: TokenState, predecessor: AccountId, attached: nat, accountId: Option<AccountId>)
    requires TokenInv(t) && Registered(t, predecessor, attached, accountId).Ok?
    ensures TokenInv(Registered(t, predecessor, attached, accountId).value)
  {
    hide MapSum;
    var account := if accountId.Some? then accountId.value else predecessor;
    MapSumUpdate(t.accounts, account, 0);
    KnownAccounts(t.accounts, account, 0);
    assert t.storageMinimum * (|t.accounts| + 1) == t.storageMinimum * |t.accounts| + t.storageMinimum;
  }

  lemma UnregistrationKeepsToken(t: TokenState, account: AccountId, attached: nat, amount: nat)
    requires TokenInv(t) && Unregistered(t, account, attached, amount).Ok?
    ensures TokenInv(Unregistered(t, account, attached, amount).value)
  {
    hide MapSum;
    MapSumWithout(t.accounts, account);
    SizeWithout(t.accounts, account);
    assert t.storageMinimum * |t.accounts| == t.storageMinimum * (|t.accounts| - 1) + t.storageMinimum;
  }

  /** Every call keeps supply equal to balances, within 128 bits and fully backed. */
  lemma TokenCallKeeps(t: TokenState, predecessor: AccountId, attached: nat, call: TokenCall)
    requires TokenInv(t) && ExecuteToken(t, predecessor, attached, call).Ok?
    ensures TokenInv(ExecuteToken(t, predecessor, attached, call).value)
  {
    hide TokenInv, Transferred, Minted, Unwrapped, Registered, Unregistered;
    match call {
      case FtTransfer(receiver, amount) => TransferKeepsToken(t, predecessor, attached, receiver, amount);
      case FtTransferCall(receiver, amount) => TransferKeepsToken(t, predecessor, attached, receiver, amount);
      case NearDeposit => MintKeepsToken(t, predecessor, attached);
      case NearWithdraw(amount) => UnwrapKeepsToken(t, predecessor, attached, amount);
      case StorageDeposit(accountId) => RegistrationKeepsToken(t, predecessor, attached, accountId);
      case StorageWithdraw(amount) => UnregistrationKeepsToken(t, predecessor, attached, amount);
    }
  }

  /** Whatever a user unwraps or gets back for storage, the contract has the NEAR to pay it. */
  lemma WithdrawalsArePaid(t: TokenState, predecessor: AccountId, attached: nat, call: TokenCall)
    requires TokenInv(t) && ExecuteToken(t, predecessor, attached, call).Ok?
    requires call.NearWithdraw? || call.StorageWithdraw?
    ensures call.amount + 1 <= t.native + attached
  {
    hide MapSum;
    if call.NearWithdraw? {
      BalanceWithinSupply(t, predecessor);
    } else {
      SizeWithout(t.accounts, predecessor);
      assert t.storageMinimum * |t.accounts| == t.storageMinimum * (|t.accounts| - 1) + t.storageMinimum;
      assert t.storageMinimum * (|t.accounts| - 1) >= 0;
    }
  }

  /** Wrapping and unwrapping the same amount leaves the token as it was. */
  lemma WrapRoundTrip(t: TokenState, account: AccountId, attached: nat)
    requires Minted(t, account, attached).Ok? && attached < U128_MAX
    ensures var t1 := Minted(t, account, attached).value;
      Unwrapped(t1, account, 1, attached) == Ok(t)
  {
    var t1 := Minted(t, account, attached).value;
    assert t1.accounts[account := t.accounts[account]] == t.accounts;
  }

  /** Registering and unregistering leaves the token as it was, and never touches anyone's tokens. */
  lemma RegistrationRoundTrip(t: TokenState, predecessor: AccountId, accountId: Option<AccountId>)
    requires Registered(t, predecessor, t.storageMinimum, accountId).Ok? && t.storageMinimum < U128_MAX
    ensures var t1 := Registered(t, predecessor, t.storageMinimum, accountId).value;
      && Unregistered(t1, if accountId.Some? then accountId.value else predecessor, 1, t.storageMinimum) == Ok(t)
      && forall a :: t1.BalanceOf(a) == t.BalanceOf(a)
  {
    var account := if accountId.Some? then accountId.value else predecessor;
    var t1 := Registered(t, predecessor, t.storageMinimum, accountId).value;
    assert t1.accounts - {account} == t.accounts;
  }

  /** Exactly when each call of the token goes through. */
  lemma TokenCallSucceedsIff(t: TokenState, predecessor: AccountId, attached: nat, call: TokenCall)
    requires TokenInv(t)
    ensures ExecuteToken(t, predecessor, attached, call).Ok?
      <==> match call
           case NearDeposit =>
             attached > 0 && predecessor in t.accounts && t.totalSupply + attached <= U128_MAX
           case NearWithdraw(amount) =>
             && attached == 1 && predecessor in t.accounts
             && amount <= t.accounts[predecessor] && amount < U128_MAX
           case StorageDeposit(accountId) =>
             && attached == t.storageMinimum
             && (accountId.None? ==> predecessor !in t.accounts)
             && (accountId.Some? ==> accountId.value !in t.accounts)
           case StorageWithdraw(amount) =>
             && attached == 1 && amount == t.storageMinimum < U128_MAX
             && predecessor in t.accounts && t.accounts[predecessor] == 0
           case _ =>
             && attached == 1 && predecessor != call.receiver
             && predecessor in t.accounts && call.receiver in t.accounts
             && call.amount <= t.accounts[predecessor]
  {
    hide MapSum;
    BalanceWithinSupply(t, predecessor);
    if call.FtTransfer? || call.FtTransferCall? {
      if predecessor != call.receiver { MapSumAtLeastTwo(t.accounts, predecessor, call.receiver); }
    }
  }

  /** What a call takes from the caller's balance, and what it gives to an account. */
  function Spent(call: TokenCall): nat {
    if call.FtTransfer? || call.FtTransferCall? || call.NearWithdraw? then call.amount else 0
  }

  function Gained(predecessor: AccountId, attached: nat, call: TokenCall, account: AccountId): nat {
    if call.FtTransfer? || call.FtTransferCall? then (if account == call.receiver then call.amount else 0)
    else if call.NearDeposit? && account == predecessor then attached
    else 0
  }

  /** What each call of the token does to every balance, to who is registered, to the supply and to the NEAR held. */
  lemma TokenCallMeans(t: TokenState, predecessor: AccountId, attached: nat, call: TokenCall, account: AccountId)
    requires ExecuteToken(t, predecessor, attached, call).Ok?
    ensures var t' := ExecuteToken(t, predecessor, attached, call).value;
      && t'.BalanceOf(account) + (if account == predecessor then Spent(call) else 0)
        == t.BalanceOf(account) + Gained(predecessor, attached, call, account)
      && (account in t'.accounts
          <==> || (account in t.accounts && !(call.StorageWithdraw? && account == predecessor))
               || (call.StorageDeposit?
                   && account == if call.accountId.Some? then call.accountId.value else predecessor))
      && t'.storageMinimum == t.storageMinimum
      && t'.totalSupply == t.totalSupply + (if call.NearDeposit? then attached else 0)
                                         - (if call.NearWithdraw? then call.amount else 0)
      && t'.native == t.native + attached
                      - (if call.NearWithdraw? || call.StorageWithdraw? then call.amount + 1 else 0)
  {
    if call.FtTransfer? || call.FtTransferCall? {
      MovedBalances(t, predecessor, call.receiver, call.amount);
      MovedAccounts(t, predecessor, call.receiver, call.amount);
    }
  }

  lemma MovedAccounts(t: TokenState, sender: AccountId, receiver: AccountId, amount: nat)
    requires Moved(t, sender, receiver, amount).Ok?
    ensures Moved(t, sender, receiver, amount).value.accounts.Keys == t.accounts.Keys
  {
  }

  /** No call by somebody else lowers an account's balance. */
  lemma OthersCannotLower(t: TokenState, predecessor: AccountId, attached: nat, call: TokenCall, account: AccountId)
    requires ExecuteToken(t, predecessor, attached, call).Ok? && predecessor != account
    ensures ExecuteToken(t, predecessor, attached, call).value.BalanceOf(account)
      == t.BalanceOf(account)
         + (if (call.FtTransfer? || call.FtTransferCall?) && call.receiver == account then call.amount else 0)
  {
    hide MapSum;
    if call.FtTransfer? || call.FtTransferCall? {
      MovedBalances(t, predecessor, call.receiver, call.amount);
    }
  }
}
