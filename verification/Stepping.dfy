/** Runs of a deterministic machine, given by its step function. */
module Stepping {

  function Steps<C>(step: C -> C, c: C, n: nat): C
    decreases n
  {
    if n == 0 then c else Steps(step, step(c), n - 1)
  }

  ghost predicate Reaches<C>(step: C -> C, c: C, c': C) {
    exists n: nat :: Steps(step, c, n) == c'
  }

  lemma {:induction false} StepsAdd<C>(step: C -> C, c: C, m: nat, n: nat)
    ensures Steps(step, Steps(step, c, m), n) == Steps(step, c, m + n)
    decreases m
  {
    if m > 0 {
      StepsAdd(step, step(c), m - 1, n);
    }
  }

  lemma ReachesVia<C>(step: C -> C, c: C, c': C, c'': C)
    requires Reaches(step, c, c') && Reaches(step, c', c'')
    ensures Reaches(step, c, c'')
  {
    var m: nat :| Steps(step, c, m) == c';
    var n: nat :| Steps(step, c', n) == c'';
    StepsAdd(step, c, m, n);
  }

  lemma StepReaches<C>(step: C -> C, c: C, c': C)
    requires Reaches(step, step(c), c')
    ensures Reaches(step, c, c')
  {
    var n: nat :| Steps(step, step(c), n) == c';
    assert Steps(step, c, n + 1) == c';
  }

  lemma Here<C>(step: C -> C, c: C)
    ensures Reaches(step, c, c)
  {
    assert Steps(step, c, 0) == c;
  }

  lemma {:induction false} Stuck<C>(step: C -> C, c: C, n: nat)
    requires step(c) == c
    ensures Steps(step, c, n) == c
  {
    if n > 0 {
      Stuck(step, c, n - 1);
    }
  }
}
