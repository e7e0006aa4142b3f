/** What several of the models share. */
module Commons {

  datatype Option<+T> = None | Some(value: T)

  /** The numbers below n. */
  function UpTo(n: nat): (numbers: set<nat>)
    ensures forall k: nat :: k in numbers <==> k < n
  {
    if n == 0 then {} else UpTo(n - 1) + {n - 1}
  }
}
