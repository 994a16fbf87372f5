/** Error values for the situations that the C++ code leaves undefined
    (a read or write past a fixed buffer) and the bounded run of the
    interpreter. Every stage of the toolchain returns a Result instead
    of silently relying on such behaviour never happening. */
module Results {

  datatype Error =
    | OutOfBounds        // a read past the end of a buffer, a token vector or the register file
    | CapacityExceeded   // push_back on a full fixed-capacity vector or string
    | OutOfMemory        // the assembled program does not fit the machine's RAM
    | OutOfFuel          // the interpreter's step budget ran out before `exit`

  datatype Result<+T> = Ok(value: T) | Err(error: Error) {

    predicate IsFailure() {
      Err?
    }

    function PropagateFailure<U>(): Result<U>
      requires Err?
    {
      Err(error)
    }

    function Extract(): T
      requires Ok?
    {
      value
    }
  }

  /** The width of `size_t` and of the machine word `unit_t` (uint64_t). */
  const WordModulus: nat := 0x1_0000_0000_0000_0000

  type u64 = x: nat | x < WordModulus

  /** Unsigned 64-bit wrap-around of an exact integer result. */
  function Wrap(x: int): (w: u64)
    ensures 0 <= x < WordModulus ==> w == x
  {
    x % WordModulus
  }
}
