/** Values shared by every component of the model. */
module Common {

  /** A nullable column or an optional Python value. */
  datatype Option<+T> = None | Some(value: T)

  /** A call that returned normally or raised. */
  datatype Result<+T, +E> = Ok(value: T) | Err(error: E)

  /** Rows, users, turns and sessions are identified by UUIDs, ordered as numbers. */
  type Id = nat

  /** Instants, as microseconds since the epoch. */
  type Time = int

  /** What each step keeps holds to the end. */
  lemma {:induction false} Chain(holds: nat -> bool, i: nat, j: nat)
    requires i <= j && holds(i) && forall k: nat :: i <= k < j && holds(k) ==> holds(k + 1)
    ensures holds(j)
  {
    if i < j { Chain(holds, i, j - 1); }
  }

  /** What held and no longer holds was broken by one step. */
  lemma {:induction false} BreakingStep(holds: nat -> bool, i: nat, j: nat) returns (k: nat)
    requires i <= j && holds(i) && !holds(j)
    ensures i <= k < j && holds(k) && !holds(k + 1)
  {
    k := j - 1;
    if !holds(k) { k := BreakingStep(holds, i, k); }
  }
}
