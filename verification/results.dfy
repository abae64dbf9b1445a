/** Outcomes shared by the whole model. An operation of the store either returns
    (`Ok`) or raises (`Err`); a parse that may fail gives an `Option`, which the
    `:-` operator threads through a sequence of steps. */
module Results {

  /** A value that may be absent. */
  datatype Option<+T> = None | Some(value: T) {

    predicate IsFailure() {
      None?
    }

    function PropagateFailure<U>(): Option<U>
      requires None?
    {
      None
    }

    function Extract(): T
      requires Some?
    {
      value
    }
  }

  /** The outcome of an operation: the value it returns, or the error it raises. */
  datatype Result<+T, +E> = Ok(value: T) | Err(error: E)

  /** Two maps with the same keys and the same value at every key are equal. */
  lemma MapsEqual<K, V>(m1: map<K, V>, m2: map<K, V>)
    requires m1.Keys == m2.Keys
    requires forall k :: k in m1 ==> m1[k] == m2[k]
    ensures m1 == m2
  {
  }
}
