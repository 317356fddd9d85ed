/** Doing the same thing a number of times in a row. */
module Repetition {

  function Repeated<S>(next: S -> S, s: S, n: nat): S
    decreases n
  {
    if n == 0 then s else Repeated(next, next(s), n - 1)
  }

  lemma {:induction false} RepeatedTwice<S>(next: S -> S, s: S, n: nat, m: nat)
    ensures Repeated(next, s, n + m) == Repeated(next, Repeated(next, s, n), m)
    decreases n
  {
    if n > 0 { RepeatedTwice(next, next(s), n - 1, m); }
  }
}
