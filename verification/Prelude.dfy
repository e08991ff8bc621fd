/** Machine bounds, the panic-carrying result type and the identifiers every contract shares. */
module Prelude {

  const U64_MAX: nat := 0xFFFF_FFFF_FFFF_FFFF
  const U128_MAX: nat := 0xFFFF_FFFF_FFFF_FFFF_FFFF_FFFF_FFFF_FFFF

  /** An amount as it arrives in a call: a JSON `U128`. */
  type u128 = x: nat | x <= U128_MAX

  datatype AccountId = AccountId(name: string)

  datatype Option<+T> = None | Some(value: T)

  /** What a call can panic with. A panic rolls the whole call back. */
  datatype Error =
    | Overflow
    | Underflow
    | DivisionByZero
    | UnwrapNone
    | NotFound
    | BondedOutcome
    | InsufficientStake
    | IncompatibleOutcome
    | AlreadyFinalized
    | NotFinalized
    | ArbitratorInvoked
    | ArbitratorNotInvoked
    | NoBondedOutcome
    | WindowStillOpen
    | Unauthorized
    | Paused
    | BondNotReached
    | Rejected
    | NothingToClaim
    | NotRegistered
    | AlreadyRegistered
    | InsufficientBalance
    | SelfTransfer

  datatype Result<+T> = Ok(value: T) | Panic(error: Error) {
    predicate IsFailure() {
      Panic?
    }
    function PropagateFailure<U>(): Result<U>
      requires Panic?
    {
      Panic(error)
    }
    function Extract(): T
      requires Ok?
    {
      value
    }
  }

  /** The result of an `assert!`. */
  datatype Check = Pass | Fail(error: Error) {
    predicate IsFailure() {
      Fail?
    }
    function PropagateFailure<U>(): Result<U>
      requires Fail?
    {
      Panic(error)
    }
  }

  function Need(condition: bool, error: Error): Check {
    if condition then Pass else Fail(error)
  }

  function Min(a: nat, b: nat): nat {
    if a <= b then a else b
  }

  function Max(a: nat, b: nat): nat {
    if a >= b then a else b
  }
}
