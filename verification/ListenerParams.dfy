/** The listener's settings, with the same discipline of deferred writes as a buffer's
    (src/primarybuffer.h:108-118, src/primarybuffer.cpp:662-725, 865-1083). */
module ListenerParams {
  import Deferred
  import opened Params3D

  /** DS3DLISTENER without its size field. */
  datatype Listener = Listener(
    position: Vec, velocity: Vec, front: Vec, top: Vec,
    distanceFactor: real, rolloffFactor: real, dopplerFactor: real)

  /** PrimaryBuffer::DirtyFlags. */
  datatype LFlag = LPosition | LVelocity | LOrientation | LDistance | LRolloff | LDoppler

  const ALL_LFLAGS: set<LFlag> := {LPosition, LVelocity, LOrientation, LDistance, LRolloff, LDoppler}

  datatype LWrite =
    | LPositionTo(v: Vec)
    | LVelocityTo(v: Vec)
    | LOrientationTo(front: Vec, top: Vec)
    | LDistanceTo(f: real)
    | LRolloffTo(f: real)
    | LDopplerTo(f: real)
    | LAll(p: Listener)
  {
    function Fields(): set<LFlag> {
      match this
      case LPositionTo(_) => {LPosition}
      case LVelocityTo(_) => {LVelocity}
      case LOrientationTo(_, _) => {LOrientation}
      case LDistanceTo(_) => {LDistance}
      case LRolloffTo(_) => {LRolloff}
      case LDopplerTo(_) => {LDoppler}
      case LAll(_) => ALL_LFLAGS
    }
  }

  function LApply(p: Listener, w: LWrite): Listener {
    match w
    case LPositionTo(v) => p.(position := v)
    case LVelocityTo(v) => p.(velocity := v)
    case LOrientationTo(f, t) => p.(front := f, top := t)
    case LDistanceTo(f) => p.(distanceFactor := f)
    case LRolloffTo(f) => p.(rolloffFactor := f)
    case LDopplerTo(f) => p.(dopplerFactor := f)
    case LAll(q) => q
  }

  /** The masked copy at the head of PrimaryBuffer::setParams, src/primarybuffer.cpp:664-678. */
  function LCopyFlagged(dst: Listener, src: Listener, flags: set<LFlag>): Listener {
    Listener(
      if LPosition in flags then src.position else dst.position,
      if LVelocity in flags then src.velocity else dst.velocity,
      if LOrientation in flags then src.front else dst.front,
      if LOrientation in flags then src.top else dst.top,
      if LDistance in flags then src.distanceFactor else dst.distanceFactor,
      if LRolloff in flags then src.rolloffFactor else dst.rolloffFactor,
      if LDoppler in flags then src.dopplerFactor else dst.dopplerFactor)
  }

  const LOPS: Deferred.Ops<Listener, LWrite, LFlag> := Deferred.Ops(LApply, (w: LWrite) => w.Fields(), LCopyFlagged)

  function LReplay(p: Listener, log: seq<LWrite>): Listener { Deferred.Replay(LOPS, p, log) }

  function LWritten(log: seq<LWrite>): set<LFlag> { Deferred.Written(LOPS, log) }

  lemma LCopyIsLawful()
    ensures Deferred.Lawful(LOPS)
  {
  }

  lemma LCopyIsReplay(imm: Listener, stale: Listener, log: seq<LWrite>)
    ensures LCopyFlagged(imm, LReplay(stale, log), LWritten(log)) == LReplay(imm, log)
  {
    LCopyIsLawful();
    Deferred.CopyIsReplay(LOPS, imm, stale, log);
  }

  lemma LReplayWrites(p: Listener, log: seq<LWrite>, w: LWrite)
    ensures LReplay(p, []) == p
    ensures var q, r := LReplay(p, log), LReplay(p, log + [w]);
            && r.position == (if w.LPositionTo? then w.v else if w.LAll? then w.p.position else q.position)
            && r.velocity == (if w.LVelocityTo? then w.v else if w.LAll? then w.p.velocity else q.velocity)
            && r.front == (if w.LOrientationTo? then w.front else if w.LAll? then w.p.front else q.front)
            && r.top == (if w.LOrientationTo? then w.top else if w.LAll? then w.p.top else q.top)
            && r.distanceFactor
               == (if w.LDistanceTo? then w.f else if w.LAll? then w.p.distanceFactor else q.distanceFactor)
            && r.rolloffFactor
               == (if w.LRolloffTo? then w.f else if w.LAll? then w.p.rolloffFactor else q.rolloffFactor)
            && r.dopplerFactor
               == (if w.LDopplerTo? then w.f else if w.LAll? then w.p.dopplerFactor else q.dopplerFactor)
  {
    assert (log + [w])[..|log|] == log;
  }

  /** The same for the listener as for a buffer. */
  lemma ListenerRefinesLog(imm: Listener, stale: Listener, es: seq<Deferred.Event<LWrite>>, f: LFlag)
    ensures var s := Deferred.Run(LOPS, Deferred.Fields(imm, stale, {}), es);
            && s.immediate == Deferred.LogRun(LOPS, Deferred.Logged(imm, []), es).current
            && (f in s.dirty <==> Deferred.WrittenSinceCommit(LOPS, es, f))
            && Deferred.Step(LOPS, Deferred.Step(LOPS, s, Deferred.Commit), Deferred.Commit)
               == Deferred.Step(LOPS, s, Deferred.Commit)
  {
    LCopyIsLawful();
    Deferred.DeferredRefinesLog(LOPS, imm, stale, es);
    Deferred.DirtyIffWritten(LOPS, imm, stale, es, f);
    Deferred.SecondCommitIsNoOp(LOPS, Deferred.Run(LOPS, Deferred.Fields(imm, stale, {}), es));
  }
}
