/** Stock datatypes and the identifiers every other module speaks about. */
module Common {

  datatype Option<+T> = None | Some(value: T)

  datatype Result<+T, +E> = Ok(value: T) | Err(error: E)

  /** An atom's id: its author and the author's running counter. */
  datatype Id = Id(peer: nat, counter: int)

  /** Whether x is one of the n atoms from `id` on. */
  predicate InAtoms(x: Id, id: Id, n: int) {
    x.peer == id.peer && id.counter <= x.counter < id.counter + n
  }

  /** Payloads are only ever compared for equality. */
  type Value = int

  function Max(a: int, b: int): int { if a > b then a else b }

  function Min(a: int, b: int): int { if a < b then a else b }
}
