/** Settings with deferred writes: a record for now, a record for later, dirty bits that say which
    of its fields the next commit copies, and the log of writes that stands behind them.  Buffers
    and the listener both work like this (src/buffer.h:284-288; src/buffer.cpp:1470-1491;
    src/primarybuffer.cpp:662-725). */
module Deferred {

  /** How a write changes a record, which fields it sets, and the copy of the flagged fields. */
  datatype Ops<!P, !W, !F(==)> = Ops(apply: (P, W) -> P, fields: W -> set<F>, copy: (P, P, set<F>) -> P)

  /** A copy takes exactly the flagged fields, as far as writes can tell. */
  ghost predicate Lawful<P(!new), W(!new), F(!new)>(ops: Ops<P, W, F>) {
    && (forall p, q :: ops.copy(p, q, {}) == p)
    && forall p, q, w, fs :: ops.copy(p, ops.apply(q, w), fs + ops.fields(w)) == ops.apply(ops.copy(p, q, fs), w)
  }

  /** The effect of a log of writes, oldest first. */
  function Replay<P, W, F>(ops: Ops<P, W, F>, p: P, log: seq<W>): P {
    if log == [] then p else ops.apply(Replay(ops, p, log[..|log| - 1]), log[|log| - 1])
  }

  /** The fields a log writes. */
  function Written<P, W, F>(ops: Ops<P, W, F>, log: seq<W>): set<F> {
    if log == [] then {} else Written(ops, log[..|log| - 1]) + ops.fields(log[|log| - 1])
  }

  /** Copying the flagged fields of a record that went through a log of writes has the effect of
      replaying the log: fields nobody wrote never leak, whatever record the log started from. */
  lemma {:induction false} CopyIsReplay<P(!new), W(!new), F(!new)>(ops: Ops<P, W, F>, imm: P, stale: P, log: seq<W>)
    requires Lawful(ops)
    ensures ops.copy(imm, Replay(ops, stale, log), Written(ops, log)) == Replay(ops, imm, log)
  {
    if log != [] {
      CopyIsReplay(ops, imm, stale, log[..|log| - 1]);
    }
  }

  // ---------------------------------------------------------------------------------------
  // Whole histories

  /** A setter called with DS3D_DEFERRED, a setter called with DS3D_IMMEDIATE, or a commit. */
  datatype Event<W> = Later(w: W) | Now(w: W) | Commit

  /** What the code keeps: mImmediate, mDeferred and mDirty. */
  datatype Fields<P, F> = Fields(immediate: P, deferred: P, dirty: set<F>)

  function Step<P, W, F>(ops: Ops<P, W, F>, s: Fields<P, F>, e: Event<W>): Fields<P, F> {
    match e
    case Later(w) => s.(deferred := ops.apply(s.deferred, w), dirty := s.dirty + ops.fields(w))
    case Now(w) => s.(immediate := ops.apply(s.immediate, w))
    case Commit => s.(immediate := ops.copy(s.immediate, s.deferred, s.dirty), dirty := {})
  }

  function Run<P, W, F>(ops: Ops<P, W, F>, s: Fields<P, F>, es: seq<Event<W>>): Fields<P, F> {
    if es == [] then s else Step(ops, Run(ops, s, es[..|es| - 1]), es[|es| - 1])
  }

  /** What the code is for: deferred writes wait in a log, and a commit performs them in order. */
  datatype Logged<P, W> = Logged(current: P, pending: seq<W>)

  function LogStep<P, W, F>(ops: Ops<P, W, F>, s: Logged<P, W>, e: Event<W>): Logged<P, W> {
    match e
    case Later(w) => s.(pending := s.pending + [w])
    case Now(w) => s.(current := ops.apply(s.current, w))
    case Commit => Logged(Replay(ops, s.current, s.pending), [])
  }

  function LogRun<P, W, F>(ops: Ops<P, W, F>, s: Logged<P, W>, es: seq<Event<W>>): Logged<P, W> {
    if es == [] then s else LogStep(ops, LogRun(ops, s, es[..|es| - 1]), es[|es| - 1])
  }

  /** The fields and the log agree: `stale` is the record the pending writes started from. */
  predicate Agree<P(==), W, F>(ops: Ops<P, W, F>, s: Fields<P, F>, l: Logged<P, W>, stale: P) {
    && s.immediate == l.current
    && s.dirty == Written(ops, l.pending)
    && s.deferred == Replay(ops, stale, l.pending)
  }

  lemma StepAgrees<P(!new), W(!new), F(!new)>(
    ops: Ops<P, W, F>, s: Fields<P, F>, l: Logged<P, W>, stale: P, e: Event<W>) returns (stale': P)
    requires Lawful(ops) && Agree(ops, s, l, stale)
    ensures Agree(ops, Step(ops, s, e), LogStep(ops, l, e), stale')
  {
    stale' := stale;
    match e {
      case Later(w) =>
        assert (l.pending + [w])[..|l.pending|] == l.pending;
      case Now(_) =>
      case Commit =>
        CopyIsReplay(ops, s.immediate, stale, l.pending);
        stale' := s.deferred;
    }
  }

  lemma {:induction false} RunAgrees<P(!new), W(!new), F(!new)>(ops: Ops<P, W, F>, imm: P, stale: P, es: seq<Event<W>>)
    returns (stale': P)
    requires Lawful(ops)
    ensures Agree(ops, Run(ops, Fields(imm, stale, {}), es), LogRun(ops, Logged(imm, []), es), stale')
  {
    stale' := stale;
    if es != [] {
      var before := RunAgrees(ops, imm, stale, es[..|es| - 1]);
      stale' := StepAgrees(ops, Run(ops, Fields(imm, stale, {}), es[..|es| - 1]),
                           LogRun(ops, Logged(imm, []), es[..|es| - 1]), before, es[|es| - 1]);
    }
  }

  /** For any interleaving of deferred setters, immediate setters and commits, from any stale
      mDeferred, mImmediate is what performing the logged writes at each commit gives. */
  lemma DeferredRefinesLog<P(!new), W(!new), F(!new)>(ops: Ops<P, W, F>, imm: P, stale: P, es: seq<Event<W>>)
    requires Lawful(ops)
    ensures Run(ops, Fields(imm, stale, {}), es).immediate == LogRun(ops, Logged(imm, []), es).current
  {
    var _ := RunAgrees(ops, imm, stale, es);
  }

  /** Somebody wrote field f deferred, and there was no commit since. */
  ghost predicate WrittenSinceCommit<P, W, F>(ops: Ops<P, W, F>, es: seq<Event<W>>, f: F) {
    exists i :: 0 <= i < |es| && es[i].Later? && f in ops.fields(es[i].w) && NoCommitAfter(es, i)
  }

  ghost predicate NoCommitAfter<W>(es: seq<Event<W>>, i: int) {
    forall j :: i < j < |es| && 0 <= j ==> !es[j].Commit?
  }

  lemma {:induction false} DirtyIffWritten<P, W, F>(ops: Ops<P, W, F>, imm: P, stale: P, es: seq<Event<W>>, f: F)
    ensures f in Run(ops, Fields(imm, stale, {}), es).dirty <==> WrittenSinceCommit(ops, es, f)
  {
    if es != [] {
      var before, n := es[..|es| - 1], |es| - 1;
      DirtyIffWritten(ops, imm, stale, before, f);
      if WrittenSinceCommit(ops, before, f) && !es[n].Commit? {
        var i :| 0 <= i < n && before[i].Later? && f in ops.fields(before[i].w) && NoCommitAfter(before, i);
        assert es[i].Later? && NoCommitAfter(es, i);
      }
      if WrittenSinceCommit(ops, es, f) {
        var i :| 0 <= i < |es| && es[i].Later? && f in ops.fields(es[i].w) && NoCommitAfter(es, i);
        if i < n {
          assert !es[n].Commit?;
          assert before[i].Later? && NoCommitAfter(before, i);
        }
      }
      if es[n].Later? && f in ops.fields(es[n].w) {
        assert NoCommitAfter(es, n);
      }
    }
  }

  /** A commit right after a commit changes nothing. */
  lemma SecondCommitIsNoOp<P(!new), W(!new), F(!new)>(ops: Ops<P, W, F>, s: Fields<P, F>)
    requires Lawful(ops)
    ensures Step(ops, Step(ops, s, Commit), Commit) == Step(ops, s, Commit)
  {}
}
