/** The 3D settings of a buffer (src/buffer.h:284-288; src/buffer.cpp:1470-1491, 1754-2096). */
module Params3D {
  import Deferred

  datatype Vec = Vec(x: real, y: real, z: real)

  datatype Mode = Normal | HeadRelative | Disable

  /** DS3DBUFFER without its size field. */
  datatype Params = Params(
    position: Vec, velocity: Vec, insideAngle: nat, outsideAngle: nat, orientation: Vec,
    coneVolume: int, minDistance: real, maxDistance: real, mode: Mode)

  /** Buffer::DirtyFlags; a std::bitset over them is the set of flags that are on. */
  datatype Flag =
    FPosition | FVelocity | FConeAngles | FConeOrientation | FConeVolume | FMinDistance | FMaxDistance | FMode

  const ALL_FLAGS: set<Flag> :=
    {FPosition, FVelocity, FConeAngles, FConeOrientation, FConeVolume, FMinDistance, FMaxDistance, FMode}

  /** What one setter call asks for. */
  datatype Write =
    | Position(v: Vec)
    | Velocity(v: Vec)
    | ConeAngles(inside: nat, outside: nat)
    | ConeOrientation(v: Vec)
    | ConeVolume(volume: int)
    | MinDistance(d: real)
    | MaxDistance(d: real)
    | SetMode(m: Mode)
    | All(p: Params)
  {
    function Fields(): set<Flag> {
      match this
      case Position(_) => {FPosition}
      case Velocity(_) => {FVelocity}
      case ConeAngles(_, _) => {FConeAngles}
      case ConeOrientation(_) => {FConeOrientation}
      case ConeVolume(_) => {FConeVolume}
      case MinDistance(_) => {FMinDistance}
      case MaxDistance(_) => {FMaxDistance}
      case SetMode(_) => {FMode}
      case All(_) => ALL_FLAGS
    }
  }

  function Apply(p: Params, w: Write): Params {
    match w
    case Position(v) => p.(position := v)
    case Velocity(v) => p.(velocity := v)
    case ConeAngles(i, o) => p.(insideAngle := i, outsideAngle := o)
    case ConeOrientation(v) => p.(orientation := v)
    case ConeVolume(c) => p.(coneVolume := c)
    case MinDistance(d) => p.(minDistance := d)
    case MaxDistance(d) => p.(maxDistance := d)
    case SetMode(m) => p.(mode := m)
    case All(q) => q
  }

  /** The masked copy at the head of Buffer::setParams, src/buffer.cpp:1473-1491. */
  function CopyFlagged(dst: Params, src: Params, flags: set<Flag>): Params {
    Params(
      if FPosition in flags then src.position else dst.position,
      if FVelocity in flags then src.velocity else dst.velocity,
      if FConeAngles in flags then src.insideAngle else dst.insideAngle,
      if FConeAngles in flags then src.outsideAngle else dst.outsideAngle,
      if FConeOrientation in flags then src.orientation else dst.orientation,
      if FConeVolume in flags then src.coneVolume else dst.coneVolume,
      if FMinDistance in flags then src.minDistance else dst.minDistance,
      if FMaxDistance in flags then src.maxDistance else dst.maxDistance,
      if FMode in flags then src.mode else dst.mode)
  }

  const OPS: Deferred.Ops<Params, Write, Flag> := Deferred.Ops(Apply, (w: Write) => w.Fields(), CopyFlagged)

  /** The effect of a log of writes, oldest first. */
  function Replay(p: Params, log: seq<Write>): Params { Deferred.Replay(OPS, p, log) }

  /** The fields a log writes. */
  function Written(log: seq<Write>): set<Flag> { Deferred.Written(OPS, log) }

  /** The masked copy takes exactly what the writes behind the dirty bits changed. */
  lemma CopyIsLawful()
    ensures Deferred.Lawful(OPS)
  {
  }

  lemma CopyIsReplay(imm: Params, stale: Params, log: seq<Write>)
    ensures CopyFlagged(imm, Replay(stale, log), Written(log)) == Replay(imm, log)
  {
    CopyIsLawful();
    Deferred.CopyIsReplay(OPS, imm, stale, log);
  }

  /** What a log says, one write at a time: a write sets its own setting, or all of them, and no other. */
  lemma ReplayWrites(p: Params, log: seq<Write>, w: Write)
    ensures Replay(p, []) == p
    ensures var q, r := Replay(p, log), Replay(p, log + [w]);
            && r.position == (if w.Position? then w.v else if w.All? then w.p.position else q.position)
            && r.velocity == (if w.Velocity? then w.v else if w.All? then w.p.velocity else q.velocity)
            && r.insideAngle == (if w.ConeAngles? then w.inside else if w.All? then w.p.insideAngle else q.insideAngle)
            && r.outsideAngle
               == (if w.ConeAngles? then w.outside else if w.All? then w.p.outsideAngle else q.outsideAngle)
            && r.orientation == (if w.ConeOrientation? then w.v else if w.All? then w.p.orientation else q.orientation)
            && r.coneVolume == (if w.ConeVolume? then w.volume else if w.All? then w.p.coneVolume else q.coneVolume)
            && r.minDistance == (if w.MinDistance? then w.d else if w.All? then w.p.minDistance else q.minDistance)
            && r.maxDistance == (if w.MaxDistance? then w.d else if w.All? then w.p.maxDistance else q.maxDistance)
            && r.mode == (if w.SetMode? then w.m else if w.All? then w.p.mode else q.mode)
  {
    assert (log + [w])[..|log|] == log;
  }

  /** For any interleaving of deferred setters, immediate setters and commits, from any stale
      mDeferred, mImmediate is what performing the logged writes at each commit gives, and a dirty
      bit is on exactly if its field was written deferred since the last commit. */
  lemma BufferRefinesLog(imm: Params, stale: Params, es: seq<Deferred.Event<Write>>, f: Flag)
    ensures var s := Deferred.Run(OPS, Deferred.Fields(imm, stale, {}), es);
            && s.immediate == Deferred.LogRun(OPS, Deferred.Logged(imm, []), es).current
            && (f in s.dirty <==> Deferred.WrittenSinceCommit(OPS, es, f))
            && Deferred.Step(OPS, Deferred.Step(OPS, s, Deferred.Commit), Deferred.Commit)
               == Deferred.Step(OPS, s, Deferred.Commit)
  {
    CopyIsLawful();
    Deferred.DeferredRefinesLog(OPS, imm, stale, es);
    Deferred.DirtyIffWritten(OPS, imm, stale, es, f);
    Deferred.SecondCommitIsNoOp(OPS, Deferred.Run(OPS, Deferred.Fields(imm, stale, {}), es));
  }
}
