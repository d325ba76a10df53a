/** The two-valued logical state of a card, and its involutive `change`. */
module CardState {

  datatype State = Expanded | Collapsed

  /** The other state: `.expanded` becomes `.collapsed` and vice versa. */
  function Change(s: State): (r: State)
    ensures r != s
  {
    match s
    case Expanded => Collapsed
    case Collapsed => Expanded
  }

  /** `change` undoes itself and has no fixed point. */
  lemma ChangeInvolutive(s: State)
    ensures Change(Change(s)) == s
    ensures Change(s) != s
  {
  }

  /** The state after `n` successive changes. */
  function Flip(s: State, n: nat): State
    decreases n
  {
    if n == 0 then s else Flip(Change(s), n - 1)
  }

  /** Only the parity of the number of changes matters. */
  lemma {:induction false} FlipParity(s: State, n: nat)
    ensures Flip(s, n) == if n % 2 == 0 then s else Change(s)
    decreases n
  {
    if n > 0 {
      FlipParity(Change(s), n - 1);
      ChangeInvolutive(s);
    }
  }
}
