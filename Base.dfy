/** Shared vocabulary of the staking ledger and its clients: addresses,
    time constants and failure-compatible result types. */
module Base {

  /** An account address; 0 plays the role of the zero address. */
  type Address = nat

  const ZERO_ADDRESS: Address := 0

  /** One token (or one USDT) in its smallest unit: 18 decimals. */
  const ONE_TOKEN: nat := 1_000_000_000_000_000_000

  const DAY: nat := 24 * 60 * 60
  const WEEK: nat := 7 * DAY

  datatype Option<+T> = None | Some(value: T)

  datatype Result<+T, +E> = Ok(value: T) | Err(error: E) {
    predicate IsFailure() { Err? }

    function PropagateFailure<U>(): Result<U, E>
      requires Err?
    {
      Err(error)
    }

    function Extract(): T
      requires Ok?
    {
      value
    }
  }

  function Min(a: int, b: int): int {
    if a <= b then a else b
  }
}
