/** Failure-carrying values shared by the modules of this model: the
    library reports structural errors by throwing, which is modelled as an
    explicit error result. */
module Common {

  datatype Option<T> = None | Some(value: T)

  /** A computed value or the error the library would have thrown. */
  datatype Result<T, E> = Ok(value: T) | Err(error: E)

  /** Success of a state-changing operation, or the error it threw. */
  datatype Outcome<E> = Pass | Fail(error: E)

  /** The unsigned 32-bit value a C++ `unsigned` holds after conversion. */
  function AsUnsigned(x: nat): (r: nat)
    ensures r < 0x1_0000_0000
    ensures x < 0x1_0000_0000 ==> r == x
  {
    x % 0x1_0000_0000
  }
}
