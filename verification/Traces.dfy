/** Runs of a state machine. */
module Traces {

  /** The states a sequence of actions leads through, the first one included. */
  function Run<S, A>(step: (S, A) -> S, start: S, acts: seq<A>): (run: seq<S>)
    ensures |run| == |acts| + 1
  {
    if acts == [] then [start]
    else
      var before := Run(step, start, acts[..|acts| - 1]);
      before + [step(before[|acts| - 1], acts[|acts| - 1])]
  }

  lemma {:induction false} RunStep<S, A>(step: (S, A) -> S, start: S, acts: seq<A>, k: nat)
    requires k < |acts|
    ensures var run := Run(step, start, acts); run[k + 1] == step(run[k], acts[k])
  {
    if k < |acts| - 1 {
      RunStep(step, start, acts[..|acts| - 1], k);
    }
  }

  lemma {:induction false} RunStart<S, A>(step: (S, A) -> S, start: S, acts: seq<A>)
    ensures Run(step, start, acts)[0] == start
  {
    if acts != [] {
      RunStart(step, start, acts[..|acts| - 1]);
    }
  }
}
