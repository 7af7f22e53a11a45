/** The order in which a steal loop visits the workers: once round, from any start. */
module Rotation {
  import opened Words

  /** The victim of turn `i` of a loop over `n` workers that begins at `start`. */
  function Target(n: nat, start: nat, i: nat): (v: nat)
    requires n > 0
    ensures v < n
  {
    if start + i < n then start + i else if start + i < 2 * n then start + i - n else 0
  }

  /** The turn at which that loop reaches worker `v`. */
  function Turn(n: nat, start: nat, v: nat): int {
    if start <= v then v - start else v - start + n
  }

  /** Stepping the victim modulo the number of workers is the next turn. */
  lemma NextTarget(n: nat, start: nat, i: nat)
    requires start < n && i < n
    ensures i + 1 < n ==> (Target(n, start, i) + 1) % n == Target(n, start, i + 1)
    ensures Target(n, start, i) == (start + i) % n
  {
    var v := Target(n, start, i);
    ModUnique(start + i, n, if start + i < n then 0 else 1, v);
    ModUnique(v + 1, n, if v + 1 < n then 0 else 1, if v + 1 < n then v + 1 else 0);
  }

  /** One round of the loop reaches every worker exactly once. */
  lemma TurnOfTarget(n: nat, start: nat, i: nat, v: nat)
    requires start < n && i < n && v < n
    ensures Target(n, start, i) == v <==> Turn(n, start, v) == i
    ensures 0 <= Turn(n, start, v) < n
  {
  }
}
