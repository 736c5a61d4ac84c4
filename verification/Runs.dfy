/** Every run of the playback engine: any sequence of calls on a DirectSound object, its primary
    buffer and its secondary buffers, and of what OpenAL does on its own. */
module Runs {
  import opened Common
  import opened Params3D
  import opened ListenerParams
  import opened AlSources
  import opened Sizes
  import opened Sound

  /** Calls on a secondary buffer, and the end of its playback. */
  datatype BufferCall =
    | Play(priority: nat, locHardware: bool, locSoftware: bool, starts: bool)
    | Stop
    | ReachEnd
    | Restore
    | AcquireResources(effects: bool, locHardware: bool, locSoftware: bool)
    | EnsureSource
    | SetVolume(volume: int)
    | SetPan(pan: int)
    | SetFrequency(frequency: nat)
    | Set3D(w: Write, deferred: bool)

  /** Calls on the DirectSound object, on its primary buffer, or on the secondary buffer at some
      place, or what other DirectSound objects on the device do to the source pools.  A new group of
      buffers would get the base address `freshBase`. */
  datatype Call =
    | OnBuffer(place: nat, c: BufferCall)
    | Create(desc: BufferDesc, freshBase: nat)
    | Duplicate(place: nat, freshBase: nat)
    | Release(place: nat)
    | SetCooperativeLevel(level: nat)
    | SetListener(w: LWrite, deferred: bool)
    | CommitDeferredSettings
    | FirstReference
    | InitializePrimary(primaryDesc: Option<BufferDesc>, badFlags: bool)
    | SetPrimaryFormat(format: Format)
    | PlayPrimary(looping: bool, priority: nat, locHardware: bool, locSoftware: bool, starts: bool)
    | StopPrimary
    | OthersUse(hw: nat, sw: nat)

  // ---------------------------------------------------------------------------------------
  // One buffer

  /** A lost buffer is lost for good while the level is DSSCL_WRITEPRIMARY, unless it is the
      primary buffer's own. */
  twostate predicate LostKept(b: Buffer)
    reads b, b.mParent, b.mParent.mPrimaryBuffer
  {
    old(b.mBufferLost) && !b.mBufferLost ==>
      b.mParent.mPrioLevel != WRITEPRIMARY || b == b.mParent.mPrimaryBuffer.mWriteEmu
  }

  /** A value in the range its setter accepts. */
  predicate Acceptable(w: Write) {
    match w
    case ConeAngles(i, o) => i <= 360 && o <= 360
    case ConeVolume(v) => -10000 <= v <= 0
    case MinDistance(d) => d >= 0.0
    case MaxDistance(d) => d >= 0.0
    case All(p) =>
      && p.insideAngle <= 360 && p.outsideAngle <= 360 && -10000 <= p.coneVolume <= 0
      && p.minDistance >= 0.0 && p.maxDistance >= 0.0
    case _ => true
  }

  /** What a call on a buffer is for has come about, unless something stood in its way. */
  twostate predicate Took(b: Buffer, c: BufferCall)
    requires old(b.mBuffer) != null
    reads b, b.mParent
  {
    var caps := old(b.mBuffer).caps;
    match c
    case Play(priority, hw, sw, starts) =>
      && (!old(b.mBufferLost) && !caps.locDefer && priority == 0 && starts ==> b.IsPlaying())
      && (!old(b.mBufferLost) && caps.locDefer && !old(b.Immovable(hw, sw)) && starts && b.mLocStatus != Nowhere ==>
            b.IsPlaying())
    case Stop => !b.IsPlaying()
    case ReachEnd => !b.IsPlaying()
    case Restore => b.mParent.mPrioLevel != WRITEPRIMARY ==> !b.mBufferLost
    case AcquireResources(effects, hw, sw) =>
      !old(b.mBufferLost) && !effects && caps.locDefer && !old(b.Immovable(hw, sw)) ==>
        b.mLocStatus == old(b.mParent.mShared.Located(Request(hw, sw), b.mLocStatus))
    case EnsureSource => b.mSource.Some?
    case SetVolume(v) => caps.ctrlVolume && -10000 <= v <= 0 ==> b.mVolume == v
    case SetPan(p) => caps.ctrlPan && -10000 <= p <= 10000 ==> b.mPan == p
    case SetFrequency(f) => caps.ctrlFrequency && 100 <= f <= 200000 ==> b.mFrequency == f
    case Set3D(w, deferred) =>
      caps.ctrl3D && Acceptable(w) ==>
        if deferred then b.pending == old(b.pending) + [w] else b.mImmediate == Apply(old(b.mImmediate), w)
  }

  method PlaybackCall(b: Buffer, c: BufferCall)
    requires b.mIsInitialized && b.mBuffer != null && b.Valid(b.Rolloff())
    requires c.Play? || c.Stop? || c.ReachEnd? || c.Restore? || c.AcquireResources? || c.EnsureSource?
    modifies b`mSource, b`mLocStatus, b`mBufferLost, b.mParent.mShared
    ensures b.Valid(b.Rolloff()) && LostKept(b) && Took(b, c)
  {
    match c
    case Play(priority, hw, sw, starts) => var _ := b.Play(priority, hw, sw, starts);
    case Stop => b.Stop();
    case ReachEnd => if b.IsPlaying() { b.ReachEnd(); }
    case Restore => var _ := b.Restore();
    case AcquireResources(effects, hw, sw) => var _ := b.AcquireResources(effects, hw, sw);
    case EnsureSource => b.EnsureSource();
  }

  method SettingsCall(b: Buffer, c: BufferCall)
    requires b.mBuffer != null && b.Valid(b.Rolloff()) && (c.SetVolume? || c.SetPan? || c.SetFrequency?)
    modifies b`mVolume, b`mPan, b`mFrequency, b`mSource
    ensures b.Valid(b.Rolloff()) && Took(b, c)
  {
    match c
    case SetVolume(v) => var _ := b.SetVolume(v);
    case SetPan(p) => var _ := b.SetPan(p);
    case SetFrequency(f) => var _ := b.SetFrequency(f);
  }

  method Call3D(b: Buffer, w: Write, deferred: bool)
    requires b.Is3D() && b.Valid(b.Rolloff())
    modifies b`mImmediate, b`mDeferred, b`mDirty, b`mSource, b`pending
    ensures b.Valid(b.Rolloff()) && Took(b, Set3D(w, deferred))
  {
    match w
    case Position(v) => var _ := b.SetPosition(v, deferred);
    case Velocity(v) => var _ := b.SetVelocity(v, deferred);
    case ConeAngles(i, o) => var _ := b.SetConeAngles(i, o, deferred);
    case ConeOrientation(v) => var _ := b.SetConeOrientation(v, deferred);
    case ConeVolume(v) => var _ := b.SetConeOutsideVolume(v, deferred);
    case MinDistance(d) => var _ := b.SetMinDistance(d, deferred);
    case MaxDistance(d) => var _ := b.SetMaxDistance(d, deferred);
    case SetMode(m) => var _ := b.SetMode3D(Some(m), deferred);
    case All(p) => var _ := b.SetAllParameters(p, Some(p.mode), deferred);
  }

  /** Every call on a secondary buffer keeps what holds of it, and touches no other. */
  method CallBuffer(b: Buffer, c: BufferCall)
    requires b.mIsInitialized && b.mBuffer != null && b.Valid(b.Rolloff())
    modifies b`mSource, b`mLocStatus, b`mBufferLost, b`mVolume, b`mPan, b`mFrequency
    modifies b`mImmediate, b`mDeferred, b`mDirty, b`pending, b.mParent.mShared
    ensures b.Valid(b.Rolloff()) && LostKept(b) && Took(b, c)
  {
    match c
    case SetVolume(_) => SettingsCall(b, c);
    case SetPan(_) => SettingsCall(b, c);
    case SetFrequency(_) => SettingsCall(b, c);
    case Set3D(w, deferred) => if b.Is3D() { Call3D(b, w, deferred); }
    case _ => PlaybackCall(b, c);
  }

  // ---------------------------------------------------------------------------------------
  // The DirectSound object

  /** Nothing changed in the primary buffer's settings, in the buffer it writes to, or in the level. */
  twostate predicate SamePrimary(ds: DSound8OAL)
    reads ds, ds.mPrimaryBuffer, ds.mPrimaryBuffer.mWriteEmu
  {
    var emu := ds.mPrimaryBuffer.mWriteEmu;
    || (emu == null && unchanged(ds.mPrimaryBuffer) && ds.mPrioLevel == old(ds.mPrioLevel))
    || (emu != null && unchanged(ds.mPrimaryBuffer) && unchanged(emu) && ds.mPrioLevel == old(ds.mPrioLevel))
  }

  twostate lemma EmuKept(ds: DSound8OAL)
    requires old(ds.EmuValid() && ds.mPrimaryBuffer.Valid())
    requires SamePrimary(ds) && ds.mPrimaryBuffer.mWriteEmu !in ds.live
    ensures ds.EmuValid() && ds.mPrimaryBuffer.Valid()
  {
  }

  /** The buffers in a set did not change. */
  twostate predicate SameBuffers(bs: set<Buffer>)
    reads bs
  {
    forall b :: b in bs ==> unchanged(b)
  }

  twostate lemma ValidKept(bs: set<Buffer>, new rolloff: real)
    requires SameBuffers(bs) && forall b :: b in bs ==> old(b.Valid(rolloff))
    ensures forall b :: b in bs ==> b.Valid(rolloff)
  {
  }

  twostate lemma ListedGrown(ds: DSound8OAL, new made: Buffer)
    requires old(ds.Listed()) && made.mIsInitialized && made.mBuffer != null
    requires ds.live == old(ds.live) + {made} && made !in old(ds.live)
    requires ds.m3dBuffers == old(ds.m3dBuffers) + if made.Is3D() then [made] else []
    requires SameBuffers(old(ds.live))
    ensures ds.Listed()
  {
  }

  /** A buffer that was created joins the live ones. */
  twostate lemma Grown(ds: DSound8OAL, new made: Buffer)
    requires old(ds.Valid()) && ds.Placed() && ds.Made(made) && SamePrimary(ds) && SameBuffers(old(ds.live))
    requires ds.live == old(ds.live) + {made} && made !in old(ds.live) && made != ds.mPrimaryBuffer.mWriteEmu
    requires ds.m3dBuffers == old(ds.m3dBuffers) + if made.Is3D() then [made] else []
    ensures ds.Valid()
  {
    EmuKept(ds);
    ListedGrown(ds, made);
    ValidKept(old(ds.live), ds.Rolloff());
  }

  /** A creation that failed left everything as it was. */
  twostate lemma Restored(ds: DSound8OAL)
    requires old(ds.Valid()) && ds.Placed() && SamePrimary(ds) && SameBuffers(old(ds.live))
    requires ds.live == old(ds.live) && ds.m3dBuffers == old(ds.m3dBuffers)
    ensures ds.Valid()
  {
    EmuKept(ds);
    ValidKept(old(ds.live), ds.Rolloff());
  }

  /** A call on one buffer left the others, and everything around them, as they were. */
  twostate lemma OneCalled(ds: DSound8OAL, new b: Buffer)
    requires old(ds.Valid()) && ds.Placed() && SamePrimary(ds) && b in old(ds.live)
    requires SameBuffers(old(ds.live) - {b}) && b.Valid(ds.Rolloff())
    requires ds.live == old(ds.live) && ds.m3dBuffers == old(ds.m3dBuffers)
    requires b.mIsInitialized && b.mBuffer != null && b.mBuffer == old(b.mBuffer)
    ensures ds.Valid()
  {
    EmuKept(ds);
    ValidKept(old(ds.live) - {b}, ds.Rolloff());
    ListedSame(ds, b);
  }

  twostate lemma ListedSame(ds: DSound8OAL, new b: Buffer)
    requires old(ds.Listed()) && b in old(ds.live) && SameBuffers(old(ds.live) - {b})
    requires ds.live == old(ds.live) && ds.m3dBuffers == old(ds.m3dBuffers)
    requires b.mIsInitialized && b.mBuffer != null && b.mBuffer == old(b.mBuffer)
    ensures ds.Listed()
  {
    forall c | c in ds.live ensures c.mIsInitialized && c.mBuffer != null && (c.Is3D() <==> c in ds.m3dBuffers) {
      if c != b { assert c in old(ds.live) - {b}; }
    }
  }

  method OnBufferValid(ds: DSound8OAL, b: Buffer, c: BufferCall)
    requires ds.Valid() && b in ds.live
    modifies b`mSource, b`mLocStatus, b`mBufferLost, b`mVolume, b`mPan, b`mFrequency
    modifies b`mImmediate, b`mDeferred, b`mDirty, b`pending, ds.mShared
    ensures ds.Valid() && LostKept(b) && Took(b, c)
  {
    assert b.Valid(ds.Rolloff());
    CallBuffer(b, c);
    OneCalled(ds, b);
  }

  /** Disposal of one buffer. */
  twostate lemma Shrunk(ds: DSound8OAL, new b: Buffer)
    requires old(ds.Valid()) && ds.Placed() && SamePrimary(ds) && b in old(ds.live)
    requires SameBuffers(old(ds.live) - {b}) && ds.live == old(ds.live) - {b}
    requires ds.m3dBuffers == if old(b.Is3D()) then Removed(old(ds.m3dBuffers), b) else old(ds.m3dBuffers)
    ensures ds.Valid()
  {
    EmuKept(ds);
    ValidKept(old(ds.live) - {b}, ds.Rolloff());
    ListedShrunk(ds, b);
  }

  twostate lemma ListedShrunk(ds: DSound8OAL, new b: Buffer)
    requires old(ds.Listed()) && b in old(ds.live)
    requires SameBuffers(old(ds.live) - {b}) && ds.live == old(ds.live) - {b}
    requires ds.m3dBuffers == if old(b.Is3D()) then Removed(old(ds.m3dBuffers), b) else old(ds.m3dBuffers)
    ensures ds.Listed()
  {
    var before := old(ds.m3dBuffers);
    forall c ensures c in ds.m3dBuffers <==> c in before && c != b {
      assert c in (set x | x in Removed(before, b)) <==> c in (set x | x in before) - {b};
    }
  }

  method ReleaseValid(ds: DSound8OAL, b: Buffer)
    requires ds.Valid() && b in ds.live
    modifies ds`buffers, ds`live, ds`m3dBuffers, ds.mSecondaryBuffers, ds.mShared, b, Storage(b)`mRef
    ensures ds.Valid() && ds.live == old(ds.live) - {b}
  {
    ds.Dispose(b, b.mPlace);
    Shrunk(ds, b);
  }

  /** What a creation leaves behind. */
  twostate predicate CreatedOrNot(ds: DSound8OAL, new made: Buffer?)
    reads ds, ds.mPrimaryBuffer, ds.mSecondaryBuffers, if made == null then {} else {made}
  {
    || (made == null && ds.Placed() && ds.live == old(ds.live) && ds.m3dBuffers == old(ds.m3dBuffers))
    || (made != null && ds.Placed() && ds.live == old(ds.live) + {made} && made !in old(ds.live) && ds.Made(made)
        && made != ds.mPrimaryBuffer.mWriteEmu
        && ds.m3dBuffers == old(ds.m3dBuffers) + if made.Is3D() then [made] else [])
  }

  twostate lemma Settled(ds: DSound8OAL, new made: Buffer?)
    requires old(ds.Valid()) && SamePrimary(ds) && SameBuffers(old(ds.live)) && CreatedOrNot(ds, made)
    ensures ds.Valid()
  {
    if made != null {
      Grown(ds, made);
    } else {
      Restored(ds);
    }
  }

  /** A new buffer and its storage. */
  function Parts(made: Buffer?): set<object>
    reads if made == null then {} else {made}
  {
    if made == null then {} else {made} + Storage(made)
  }

  /** Whether CreateSoundBuffer succeeds. */
  predicate Creatable(ds: DSound8OAL, desc: BufferDesc)
    reads ds.mShared
  {
    !(desc.caps.ctrl3D && desc.caps.ctrlPan && ds.mIs8) && ds.MakeStatus(null, Some(desc)) == DsOk
  }

  predicate InSoftware(desc: BufferDesc) {
    desc.caps.locSoftware && !desc.caps.locHardware
  }

  method CreateBare(ds: DSound8OAL, desc: BufferDesc, freshBase: nat) returns (made: Buffer?)
    requires ds.Valid() && ds.mSecondaryBuffers.CanAllocate(freshBase)
    modifies ds`buffers, ds`live, ds`m3dBuffers, ds.mSecondaryBuffers, ds.mShared
    ensures CreatedOrNot(ds, made) && (made != null ==> fresh(made)) && fresh(Parts(made))
    ensures made != null <==> old(Creatable(ds, desc))
    ensures made != null ==> made.mBuffer.caps == desc.caps
    ensures made != null && InSoftware(desc) ==> ds.mShared.hw == old(ds.mShared.hw)
  {
    var hr;
    hr, made := ds.CreateSoundBuffer(desc, freshBase);
  }

  /** CreateSoundBuffer. */
  method CreateValid(ds: DSound8OAL, desc: BufferDesc, freshBase: nat) returns (made: Buffer?)
    requires ds.Valid() && ds.mSecondaryBuffers.CanAllocate(freshBase)
    modifies ds`buffers, ds`live, ds`m3dBuffers, ds.mSecondaryBuffers, ds.mShared
    ensures ds.Valid() && ds.live == old(ds.live) + if made == null then {} else {made}
    ensures made != null <==> old(Creatable(ds, desc))
    ensures made != null ==> fresh(made) && ds.Made(made) && made.mBuffer.caps == desc.caps
    ensures made != null && InSoftware(desc) ==> ds.mShared.hw == old(ds.mShared.hw)
  {
    made := CreateBare(ds, desc, freshBase);
    Settled(ds, made);
  }

  /** Whether DuplicateSoundBuffer succeeds. */
  predicate Duplicable(ds: DSound8OAL, original: Buffer)
    reads ds.mShared, original
  {
    original.mBuffer != null && !original.mBuffer.caps.ctrlFx && ds.MakeStatus(original, None) == DsOk
  }

  method DuplicateBare(ds: DSound8OAL, original: Buffer, freshBase: nat) returns (made: Buffer?)
    requires ds.Valid() && original in ds.live && ds.mSecondaryBuffers.CanAllocate(freshBase)
    modifies ds`buffers, ds`live, ds`m3dBuffers, ds.mSecondaryBuffers, ds.mShared, original.mBuffer`mRef
    ensures CreatedOrNot(ds, made) && (made != null ==> fresh(made) && made.mBuffer == original.mBuffer)
    ensures made != null <==> old(Duplicable(ds, original))
  {
    var hr;
    assert original.Valid(ds.Rolloff());
    hr, made := ds.DuplicateSoundBuffer(original, freshBase);
  }

  // ---------------------------------------------------------------------------------------
  // The listener

  /** The fields of a buffer that a change of the listener leaves alone. */
  twostate predicate OnlyTuned(bs: set<Buffer>)
    reads bs
  {
    forall b :: b in bs ==> unchanged(b`mBuffer, b`mIsInitialized, b`mBufferLost)
  }

  /** The buffer the primary buffer writes to and the level are the same. */
  twostate predicate SameEmu(ds: DSound8OAL)
    reads ds, ds.mPrimaryBuffer, ds.mPrimaryBuffer.mWriteEmu
  {
    && ds.mPrimaryBuffer.mWriteEmu == old(ds.mPrimaryBuffer.mWriteEmu) && ds.mPrioLevel == old(ds.mPrioLevel)
    && ds.mPrimaryBuffer.mFormat == old(ds.mPrimaryBuffer.mFormat)
    && (ds.mPrimaryBuffer.mWriteEmu != null ==>
          unchanged(ds.mPrimaryBuffer.mWriteEmu))
  }

  twostate lemma EmuIgnoresListener(ds: DSound8OAL)
    requires old(ds.EmuValid()) && SameEmu(ds) && ds.live == old(ds.live)
    ensures ds.EmuValid()
  {
  }

  twostate lemma FlatKept(bs: set<Buffer>, new before: real, new rolloff: real)
    requires SameBuffers(bs) && forall b :: b in bs ==> !b.Is3D() && old(b.Valid(before))
    ensures forall b :: b in bs ==> b.Valid(rolloff)
  {
  }

  twostate lemma ListedTuned(ds: DSound8OAL)
    requires old(ds.Listed()) && OnlyTuned(old(ds.live))
    requires ds.live == old(ds.live) && ds.m3dBuffers == old(ds.m3dBuffers)
    ensures ds.Listed()
  {
  }

  /** The listener changed, and every 3D buffer follows it. */
  twostate lemma Retuned(ds: DSound8OAL)
    requires old(ds.Valid()) && ds.Placed() && ds.EmuValid()
    requires ds.mPrimaryBuffer.Valid() && ds.mPrimaryBuffer.Listens(ds)
    requires ds.live == old(ds.live) && ds.m3dBuffers == old(ds.m3dBuffers)
    requires OnlyTuned(old(ds.live)) && SameBuffers(set b | b in old(ds.live) && b !in old(ds.m3dBuffers))
    ensures ds.Valid()
  {
    var flat := set b | b in ds.live && b !in ds.m3dBuffers;
    FlatKept(flat, old(ds.Rolloff()), ds.Rolloff());
    ListedTuned(ds);
    assert forall b :: b in ds.live ==> b in flat || b in ds.m3dBuffers;
  }

  /** The 3D buffers listen to the primary buffer. */
  lemma ValidListens(ds: DSound8OAL)
    requires ds.Valid()
    ensures ds.mPrimaryBuffer.Listens(ds)
    ensures ds.mPrimaryBuffer.mWriteEmu != null ==> ds.mPrimaryBuffer.mWriteEmu !in ds.m3dBuffers
  {
    forall b | b in ds.m3dBuffers ensures b.Valid(ds.Rolloff()) {
      assert b in ds.live;
    }
  }

  predicate LAcceptable(w: LWrite) {
    match w
    case LDistanceTo(f) => MIN_DISTANCE_FACTOR <= f <= MAX_DISTANCE_FACTOR
    case LRolloffTo(f) => 0.0 <= f <= 10.0
    case LDopplerTo(f) => 0.0 <= f <= 10.0
    case LAll(p) =>
      && MIN_DISTANCE_FACTOR <= p.distanceFactor <= MAX_DISTANCE_FACTOR
      && 0.0 <= p.rolloffFactor <= 10.0 && 0.0 <= p.dopplerFactor <= 10.0
    case _ => true
  }

  /** What a setter of the listener is for has come about, unless the value was refused. */
  twostate predicate LTook(p: PrimaryBuffer, w: LWrite, deferred: bool)
    reads p
  {
    LAcceptable(w) ==>
      if deferred then p.pending == old(p.pending) + [w] else p.mImmediate == LApply(old(p.mImmediate), w)
  }

  /** A setter of the listener. */
  method SetListenerBare(ds: DSound8OAL, w: LWrite, deferred: bool)
    requires ds.mPrimaryBuffer.Valid() && ds.mPrimaryBuffer.Listens(ds)
    modifies ds.mPrimaryBuffer`mImmediate, ds.mPrimaryBuffer`mDeferred, ds.mPrimaryBuffer`mDirty
    modifies ds.mPrimaryBuffer`pending, ds.mPrimaryBuffer`alListener, (set b | b in ds.m3dBuffers)`mSource
    ensures ds.mPrimaryBuffer.Valid() && ds.mPrimaryBuffer.Listens(ds) && LTook(ds.mPrimaryBuffer, w, deferred)
  {
    var p := ds.mPrimaryBuffer;
    match w
    case LPositionTo(v) => p.SetPosition(v, deferred);
    case LVelocityTo(v) => p.SetVelocity(v, deferred);
    case LOrientationTo(f, t) => p.SetOrientation(f, t, deferred);
    case LDistanceTo(f) => var _ := p.SetDistanceFactor(f, deferred);
    case LRolloffTo(f) => var _ := p.SetRolloffFactor(ds, f, deferred);
    case LDopplerTo(f) => var _ := p.SetDopplerFactor(f, deferred);
    case LAll(q) => var _ := p.SetAllParameters(ds, q, deferred);
  }

  method SetListenerValid(ds: DSound8OAL, w: LWrite, deferred: bool)
    requires ds.Valid()
    modifies ds.mPrimaryBuffer`mImmediate, ds.mPrimaryBuffer`mDeferred, ds.mPrimaryBuffer`mDirty
    modifies ds.mPrimaryBuffer`pending, ds.mPrimaryBuffer`alListener, (set b | b in ds.m3dBuffers)`mSource
    ensures ds.Valid() && LTook(ds.mPrimaryBuffer, w, deferred)
  {
    ValidListens(ds);
    SetListenerBare(ds, w, deferred);
    EmuIgnoresListener(ds);
    Retuned(ds);
  }

  /** The deferred settings of the listener and of every 3D buffer have taken effect. */
  twostate predicate Committed(ds: DSound8OAL)
    reads ds, ds.mPrimaryBuffer, ds.m3dBuffers
  {
    var p := ds.mPrimaryBuffer;
    && p.mImmediate == LReplay(old(p.mImmediate), old(p.pending)) && p.pending == []
    && ds.m3dBuffers == old(ds.m3dBuffers)
    && forall b :: b in old(ds.m3dBuffers) ==>
         b.mImmediate == Replay(old(b.mImmediate), old(b.pending)) && b.pending == []
  }

  /** CommitDeferredSettings. */
  method CommitBare(ds: DSound8OAL)
    requires ds.Valid()
    modifies ds.mPrimaryBuffer`mImmediate, ds.mPrimaryBuffer`alListener, ds.mPrimaryBuffer`mDirty
    modifies ds.mPrimaryBuffer`pending, ds.mPrimaryBuffer`stale
    modifies (set b | b in ds.m3dBuffers)`mSource, (set b | b in ds.m3dBuffers)`mImmediate
    modifies (set b | b in ds.m3dBuffers)`mDirty, (set b | b in ds.m3dBuffers)`pending
    modifies (set b | b in ds.m3dBuffers)`stale
    ensures ds.mPrimaryBuffer.Valid() && ds.mPrimaryBuffer.Listens(ds) && SameEmu(ds) && Committed(ds)
    ensures OnlyTuned(ds.live) && SameBuffers(set b | b in ds.live && b !in ds.m3dBuffers)
  {
    ValidListens(ds);
    ds.mPrimaryBuffer.Commit(ds);
  }

  method CommitValid(ds: DSound8OAL)
    requires ds.Valid()
    modifies ds.mPrimaryBuffer`mImmediate, ds.mPrimaryBuffer`alListener, ds.mPrimaryBuffer`mDirty
    modifies ds.mPrimaryBuffer`pending, ds.mPrimaryBuffer`stale
    modifies (set b | b in ds.m3dBuffers)`mSource, (set b | b in ds.m3dBuffers)`mImmediate
    modifies (set b | b in ds.m3dBuffers)`mDirty, (set b | b in ds.m3dBuffers)`pending
    modifies (set b | b in ds.m3dBuffers)`stale
    ensures ds.Valid() && Committed(ds)
  {
    CommitBare(ds);
    EmuIgnoresListener(ds);
    Retuned(ds);
  }

  // ---------------------------------------------------------------------------------------
  // The primary buffer and the level

  /** The primary buffer changed, but nothing that the secondary buffers show. */
  twostate lemma Refitted(ds: DSound8OAL)
    requires old(ds.Valid()) && ds.Placed() && ds.EmuValid() && ds.mPrimaryBuffer.Valid()
    requires ds.Rolloff() == old(ds.Rolloff()) && SameBuffers(old(ds.live))
    requires ds.live == old(ds.live) && ds.m3dBuffers == old(ds.m3dBuffers)
    ensures ds.Valid()
  {
    ValidKept(old(ds.live), ds.Rolloff());
  }

  method FirstReferenceValid(ds: DSound8OAL)
    requires ds.Valid()
    modifies ds.mPrimaryBuffer`mFlags
    ensures ds.Valid() && OnlyTuned(ds.live) && ds.mPrimaryBuffer.EmuRenewed() && ds.mPrimaryBuffer.mFlags.None?
  {
    ds.mPrimaryBuffer.FirstReference();
    Refitted(ds);
  }

  method InitializePrimaryBare(ds: DSound8OAL, desc: Option<BufferDesc>, badFlags: bool)
    requires ds.Valid() && ds.mPrimaryBuffer.Listens(ds)
    requires ds.mPrimaryBuffer.mWriteEmu != null ==> ds.mPrimaryBuffer.mWriteEmu !in ds.m3dBuffers
    modifies ds.mPrimaryBuffer, ds.mPrimaryBuffer.mWriteEmu, ds.mShared, ds`m3dBuffers
    modifies (set b | b in ds.m3dBuffers)`mSource, Storage(ds.mPrimaryBuffer.mWriteEmu)`mRef
    ensures ds.EmuValid() && ds.mPrimaryBuffer.Valid() && ds.mPrimaryBuffer.Listens(ds)
    ensures ds.m3dBuffers == old(ds.m3dBuffers) && ds.mPrimaryBuffer.EmuRenewed()
    ensures ds.mPrimaryBuffer.mFormat == old(ds.mPrimaryBuffer.mFormat)
    ensures ds.mPrioLevel != WRITEPRIMARY ==> unchanged(ds.mShared)
    ensures !BadPrimary(desc) && !badFlags && ds.mPrioLevel != WRITEPRIMARY ==> ds.mPrimaryBuffer.mFlags.Some?
  {
    var _ := ds.mPrimaryBuffer.Initialize(ds, desc, badFlags);
  }

  method InitializePrimaryValid(ds: DSound8OAL, desc: Option<BufferDesc>, badFlags: bool)
    requires ds.Valid()
    modifies ds.mPrimaryBuffer, ds.mPrimaryBuffer.mWriteEmu, ds.mShared, ds`m3dBuffers
    modifies (set b | b in ds.m3dBuffers)`mSource, Storage(ds.mPrimaryBuffer.mWriteEmu)`mRef
    ensures ds.Valid() && OnlyTuned(ds.live) && ds.mPrimaryBuffer.EmuRenewed()
    ensures ds.mPrimaryBuffer.mFormat == old(ds.mPrimaryBuffer.mFormat)
    ensures ds.mPrioLevel != WRITEPRIMARY ==> unchanged(ds.mShared)
    ensures !BadPrimary(desc) && !badFlags && ds.mPrioLevel != WRITEPRIMARY ==> ds.mPrimaryBuffer.mFlags.Some?
  {
    ValidListens(ds);
    assert ds.mPrimaryBuffer.mWriteEmu == null || ds.mPrimaryBuffer.mWriteEmu !in ds.live;
    InitializePrimaryBare(ds, desc, badFlags);
    Retuned(ds);
  }

  method SetPrimaryFormatValid(ds: DSound8OAL, format: Format)
    requires ds.Valid()
    modifies ds.mPrimaryBuffer`mFormat, ds.mPrimaryBuffer`mWriteEmu, ds.mPrimaryBuffer.mWriteEmu, ds.mShared
    modifies ds`m3dBuffers, Storage(ds.mPrimaryBuffer.mWriteEmu)`mRef
    ensures ds.Valid() && OnlyTuned(ds.live) && ds.mPrimaryBuffer.EmuRenewed()
    ensures ds.mPrioLevel >= 2 && !TooShort(format) && PrimaryAccepts(format) ==>
              ds.mPrimaryBuffer.mFormat == Stored(format)
  {
    var _ := ds.mPrimaryBuffer.SetFormat(ds, format);
    Refitted(ds);
  }

  method PlayPrimaryBare(ds: DSound8OAL, looping: bool, priority: nat, hw: bool, sw: bool, starts: bool)
    requires ds.Valid()
    modifies ds.mPrimaryBuffer`mPlaying, ds.mPrimaryBuffer.Emu()`mSource, ds.mPrimaryBuffer.Emu()`mLocStatus
    modifies ds.mShared
    ensures ds.EmuValid() && (looping && priority == 0 && starts ==> ds.mPrimaryBuffer.mPlaying)
  {
    var _ := ds.mPrimaryBuffer.Play(ds, looping, priority, hw, sw, starts);
  }

  /** The secondary buffers stay as they are. */
  method PlayPrimaryApart(ds: DSound8OAL, looping: bool, priority: nat, hw: bool, sw: bool, starts: bool)
    requires ds.Valid()
    modifies ds.mPrimaryBuffer`mPlaying, ds.mPrimaryBuffer.Emu()`mSource, ds.mPrimaryBuffer.Emu()`mLocStatus
    modifies ds.mShared
    ensures ds.EmuValid() && SameBuffers(ds.live) && ds.mPrimaryBuffer.EmuRenewed()
    ensures looping && priority == 0 && starts ==> ds.mPrimaryBuffer.mPlaying
  {
    PlayPrimaryBare(ds, looping, priority, hw, sw, starts);
  }

  method PlayPrimaryValid(ds: DSound8OAL, looping: bool, priority: nat, hw: bool, sw: bool, starts: bool)
    requires ds.Valid()
    modifies ds.mPrimaryBuffer`mPlaying, ds.mPrimaryBuffer.Emu()`mSource, ds.mPrimaryBuffer.Emu()`mLocStatus
    modifies ds.mShared
    ensures ds.Valid() && OnlyTuned(ds.live) && ds.mPrimaryBuffer.EmuRenewed()
    ensures looping && priority == 0 && starts ==> ds.mPrimaryBuffer.mPlaying
  {
    PlayPrimaryApart(ds, looping, priority, hw, sw, starts);
    Refitted(ds);
  }

  method StopPrimaryValid(ds: DSound8OAL)
    requires ds.Valid()
    modifies ds.mPrimaryBuffer`mPlaying, ds.mPrimaryBuffer.Emu()`mSource
    ensures ds.Valid() && OnlyTuned(ds.live) && ds.mPrimaryBuffer.EmuRenewed() && !ds.mPrimaryBuffer.mPlaying
  {
    ds.mPrimaryBuffer.Stop(ds);
    Refitted(ds);
  }

  /** The level is the requested one, if there is such a level, or the old one. */
  predicate Leveled(before: nat, after: nat, request: nat) {
    after == before || (after == request && NORMAL <= request <= WRITEPRIMARY)
  }

  /** A level that can be taken: any below DSSCL_WRITEPRIMARY, the present one, or DSSCL_WRITEPRIMARY if it can
      be entered. */
  ghost predicate Takeable(ds: DSound8OAL, level: nat)
    reads ds, ds.mPrimaryBuffer, ds.mShared, ds.live
  {
    1 <= level < 4 || (level == 4 && (ds.mPrioLevel == 4 || ds.Enterable()))
  }

  /** Only the level, the primary buffer and who is lost changed. */
  twostate lemma Relevelled(ds: DSound8OAL)
    requires old(ds.Valid()) && ds.Placed() && ds.EmuValid() && ds.mPrimaryBuffer.Valid() && ds.BuffersValid()
    requires ds.live == old(ds.live) && ds.m3dBuffers == old(ds.m3dBuffers)
    requires unchanged(ds.live`mBuffer, ds.live`mIsInitialized)
    ensures ds.Valid()
  {
  }

  /** The level, the emulation buffer and the lost marks, before everything is put together. */
  method SetLevelBare(ds: DSound8OAL, level: nat)
    requires ds.Valid()
    modifies ds`mPrioLevel, ds.mPrimaryBuffer`mWriteEmu, ds.mShared, ds`m3dBuffers, ds.live`mBufferLost
    modifies ds.mPrimaryBuffer.mWriteEmu, Storage(ds.mPrimaryBuffer.mWriteEmu)`mRef
    ensures ds.EmuValid() && ds.BuffersValid() && ds.m3dBuffers == old(ds.m3dBuffers)
    ensures Leveled(old(ds.mPrioLevel), ds.mPrioLevel, level) && ds.mPrimaryBuffer.EmuRenewed()
    ensures old(Takeable(ds, level)) ==> ds.mPrioLevel == level
    ensures ds.mPrioLevel == WRITEPRIMARY && old(ds.mPrioLevel) != WRITEPRIMARY ==>
              forall b :: b in ds.live ==> b.mBufferLost
    ensures old(ds.mPrioLevel) == WRITEPRIMARY ==> forall b :: b in ds.live ==> b.mBufferLost == old(b.mBufferLost)
  {
    var _, blocker := ds.SetCooperativeLevel(level);
  }

  /** SetCooperativeLevel. */
  method SetLevelValid(ds: DSound8OAL, level: nat)
    requires ds.Valid()
    modifies ds`mPrioLevel, ds.mPrimaryBuffer`mWriteEmu, ds.mShared, ds`m3dBuffers, ds.live`mBufferLost
    modifies ds.mPrimaryBuffer.mWriteEmu, Storage(ds.mPrimaryBuffer.mWriteEmu)`mRef
    ensures ds.Valid() && Leveled(old(ds.mPrioLevel), ds.mPrioLevel, level)
    ensures old(Takeable(ds, level)) ==> ds.mPrioLevel == level
    ensures ds.mPrioLevel == WRITEPRIMARY && old(ds.mPrioLevel) != WRITEPRIMARY ==>
              forall b :: b in ds.live ==> b.mBufferLost
    ensures old(ds.mPrioLevel) == WRITEPRIMARY ==> forall b :: b in ds.live ==> b.mBufferLost == old(b.mBufferLost)
    ensures ds.mPrimaryBuffer.EmuRenewed()
  {
    SetLevelBare(ds, level);
    Relevelled(ds);
  }

  // ---------------------------------------------------------------------------------------
  // Any call

  /** `exiled` are the buffers that were live at the last successful switch to DSSCL_WRITEPRIMARY,
      as long as the level stays there: those of them that are still live are lost. */
  ghost predicate Exiles(ds: DSound8OAL, exiled: set<Buffer>)
    reads ds, ds.live
  {
    && (ds.mPrioLevel != WRITEPRIMARY ==> exiled == {})
    && forall b :: b in exiled && b in ds.live ==> b.mBufferLost
  }

  /** A call that is not about the level leaves it, and the exiles, alone. */
  twostate predicate LevelKept(ds: DSound8OAL)
    reads ds, ds.live
  {
    && ds.mPrioLevel == old(ds.mPrioLevel)
    && forall b :: b in ds.live ==>
         fresh(b) || (b in old(ds.live) && (old(b.mBufferLost) && ds.mPrioLevel == WRITEPRIMARY ==> b.mBufferLost))
  }

  /** A set of objects that has all that a call may change: the DirectSound object's own, its live
      buffers, and the sample storage these use. */
  ghost predicate Owns(repr: set<object>, ds: DSound8OAL)
    reads ds, ds.live, ds.mPrimaryBuffer, ds.mPrimaryBuffer.mWriteEmu
  {
    && {ds, ds.mShared, ds.mPrimaryBuffer, ds.mSecondaryBuffers} <= repr
    && (forall b :: b in ds.live ==> b in repr && (b.mBuffer != null ==> b.mBuffer in repr))
    && ds.mPrimaryBuffer.Emu() <= repr && Storage(ds.mPrimaryBuffer.mWriteEmu) <= repr
  }

  /** The same before a call, of a set that does not belong to any state. */
  twostate predicate Owned(ds: DSound8OAL, new repr: set<object>)
    reads ds
  {
    && {ds, ds.mShared, ds.mPrimaryBuffer, ds.mSecondaryBuffers} <= repr
    && (forall b :: b in old(ds.live) ==> b in repr && (old(b.mBuffer) != null ==> old(b.mBuffer) in repr))
    && old(ds.mPrimaryBuffer.Emu()) <= repr && old(Storage(ds.mPrimaryBuffer.mWriteEmu)) <= repr
  }

  /** A call on one buffer leaves the set of objects, and the exiles, as they were. */
  twostate lemma OneOwned(ds: DSound8OAL, new b: Buffer, new repr: set<object>)
    requires Owned(ds, repr) && SamePrimary(ds) && ds.live == old(ds.live) && b in ds.live && b.mParent == ds
    requires SameBuffers(old(ds.live) - {b}) && b.mBuffer == old(b.mBuffer) && LostKept(b)
    requires ds.mPrimaryBuffer.mWriteEmu !in ds.live
    ensures Owns(repr, ds) && LevelKept(ds)
  {
    forall c | c in ds.live
      ensures c in repr && (c.mBuffer != null ==> c.mBuffer in repr)
      ensures old(c.mBufferLost) && ds.mPrioLevel == WRITEPRIMARY ==> c.mBufferLost
    {
      if c != b { assert c in old(ds.live) - {b}; }
    }
  }

  method OnBufferOwned(ds: DSound8OAL, b: Buffer, c: BufferCall, ghost repr: set<object>)
    requires ds.Valid() && Owns(repr, ds) && b in ds.live
    modifies b`mSource, b`mLocStatus, b`mBufferLost, b`mVolume, b`mPan, b`mFrequency
    modifies b`mImmediate, b`mDeferred, b`mDirty, b`pending, ds.mShared
    ensures ds.Valid() && Owns(repr, ds) && LevelKept(ds) && Took(b, c)
  {
    OnBufferValid(ds, b, c);
    OneOwned(ds, b, repr);
  }

  method DoBuffer(ds: DSound8OAL, place: nat, c: BufferCall, ghost repr: set<object>)
    requires ds.Valid() && Owns(repr, ds)
    modifies repr
    ensures ds.Valid() && Owns(repr, ds) && LevelKept(ds)
    ensures place in old(ds.buffers) ==> Took(old(ds.buffers)[place], c)
  {
    if place in ds.buffers {
      OnBufferOwned(ds, ds.buffers[place], c, repr);
    }
  }

  ghost function With(repr: set<object>, made: Buffer?): (r: set<object>)
    ensures repr <= r && (made != null ==> made in r) && forall o :: o in r && o !in repr ==> o == made
  {
    if made == null then repr else repr + {made}
  }

  twostate lemma Joined(ds: DSound8OAL, new made: Buffer?, new repr: set<object>, new repr': set<object>)
    requires Owned(ds, repr) && SamePrimary(ds) && SameBuffers(old(ds.live)) && repr <= repr'
    requires made != null ==> made in repr' && (made.mBuffer == null || made.mBuffer in repr')
    requires ds.live == old(ds.live) + (if made == null then {} else {made}) && (made != null ==> fresh(made))
    ensures Owns(repr', ds) && LevelKept(ds)
  {
  }

  method CreateOwned(ds: DSound8OAL, desc: BufferDesc, freshBase: nat, ghost repr: set<object>)
    returns (ghost repr': set<object>)
    requires ds.Valid() && Owns(repr, ds) && ds.mSecondaryBuffers.CanAllocate(freshBase)
    modifies ds`buffers, ds`live, ds`m3dBuffers, ds.mSecondaryBuffers, ds.mShared
    ensures ds.Valid() && Owns(repr', ds) && fresh(repr' - repr) && LevelKept(ds)
    ensures old(Creatable(ds, desc)) ==> old(ds.live) < ds.live
  {
    var made := CreateBare(ds, desc, freshBase);
    Settled(ds, made);
    repr' := repr + Parts(made);
    Joined(ds, made, repr, repr');
  }

  method DoCreate(ds: DSound8OAL, desc: BufferDesc, freshBase: nat, ghost repr: set<object>)
    returns (ghost repr': set<object>)
    requires ds.Valid() && Owns(repr, ds)
    modifies repr
    ensures ds.Valid() && Owns(repr', ds) && fresh(repr' - repr) && LevelKept(ds)
    ensures old(ds.mSecondaryBuffers.CanAllocate(freshBase) && Creatable(ds, desc)) ==> old(ds.live) < ds.live
  {
    repr' := repr;
    var fits := ds.mSecondaryBuffers.Fits(freshBase);
    if fits {
      repr' := CreateOwned(ds, desc, freshBase, repr);
    }
  }

  /** All other buffers stay as they are. */
  method DuplicateApart(ds: DSound8OAL, original: Buffer, freshBase: nat) returns (made: Buffer?)
    requires ds.Valid() && original in ds.live && ds.mSecondaryBuffers.CanAllocate(freshBase)
    modifies ds`buffers, ds`live, ds`m3dBuffers, ds.mSecondaryBuffers, ds.mShared, original.mBuffer`mRef
    ensures CreatedOrNot(ds, made) && (made != null ==> fresh(made) && made.mBuffer == original.mBuffer)
    ensures made != null <==> old(Duplicable(ds, original))
    ensures SamePrimary(ds) && SameBuffers(old(ds.live))
  {
    made := DuplicateBare(ds, original, freshBase);
  }

  method DuplicateValid(ds: DSound8OAL, original: Buffer, freshBase: nat) returns (made: Buffer?)
    requires ds.Valid() && original in ds.live && ds.mSecondaryBuffers.CanAllocate(freshBase)
    modifies ds`buffers, ds`live, ds`m3dBuffers, ds.mSecondaryBuffers, ds.mShared, original.mBuffer`mRef
    ensures ds.Valid() && SamePrimary(ds) && SameBuffers(old(ds.live))
    ensures ds.live == old(ds.live) + if made == null then {} else {made}
    ensures made != null ==> fresh(made) && made.mBuffer == original.mBuffer
    ensures made != null <==> old(Duplicable(ds, original))
  {
    made := DuplicateApart(ds, original, freshBase);
    Settled(ds, made);
  }

  method DuplicateOwned(ds: DSound8OAL, original: Buffer, freshBase: nat, ghost repr: set<object>)
    returns (ghost repr': set<object>)
    requires ds.Valid() && Owns(repr, ds) && original in ds.live && ds.mSecondaryBuffers.CanAllocate(freshBase)
    modifies ds`buffers, ds`live, ds`m3dBuffers, ds.mSecondaryBuffers, ds.mShared, original.mBuffer`mRef
    ensures ds.Valid() && Owns(repr', ds) && fresh(repr' - repr) && LevelKept(ds)
    ensures old(Duplicable(ds, original)) ==> old(ds.live) < ds.live
  {
    var made := DuplicateValid(ds, original, freshBase);
    repr' := With(repr, made);
    Joined(ds, made, repr, repr');
  }

  method DoDuplicate(ds: DSound8OAL, place: nat, freshBase: nat, ghost repr: set<object>)
    returns (ghost repr': set<object>)
    requires ds.Valid() && Owns(repr, ds)
    modifies repr
    ensures ds.Valid() && Owns(repr', ds) && fresh(repr' - repr) && LevelKept(ds)
    ensures place in old(ds.buffers) && old(ds.mSecondaryBuffers.CanAllocate(freshBase)) ==>
              (old(Duplicable(ds, ds.buffers[place])) ==> old(ds.live) < ds.live)
  {
    repr' := repr;
    var fits := ds.mSecondaryBuffers.Fits(freshBase);
    if fits && place in ds.buffers {
      repr' := DuplicateOwned(ds, ds.buffers[place], freshBase, repr);
    }
  }

  twostate lemma Left(ds: DSound8OAL, new b: Buffer, new repr: set<object>)
    requires Owned(ds, repr) && SamePrimary(ds) && ds.live == old(ds.live) - {b}
    requires SameBuffers(old(ds.live) - {b})
    ensures Owns(repr, ds) && LevelKept(ds)
  {
  }

  method ReleaseOwned(ds: DSound8OAL, b: Buffer, ghost repr: set<object>)
    requires ds.Valid() && Owns(repr, ds) && b in ds.live
    modifies ds`buffers, ds`live, ds`m3dBuffers, ds.mSecondaryBuffers, ds.mShared, b, Storage(b)`mRef
    ensures ds.Valid() && Owns(repr, ds) && LevelKept(ds) && ds.live == old(ds.live) - {b}
  {
    ReleaseValid(ds, b);
    Left(ds, b, repr);
  }

  method DoRelease(ds: DSound8OAL, place: nat, ghost repr: set<object>)
    requires ds.Valid() && Owns(repr, ds)
    modifies repr
    ensures ds.Valid() && Owns(repr, ds) && LevelKept(ds)
    ensures place in old(ds.buffers) ==> ds.live == old(ds.live) - {old(ds.buffers)[place]}
  {
    if place in ds.buffers {
      ReleaseOwned(ds, ds.buffers[place], repr);
    }
  }

  method DoListener(ds: DSound8OAL, w: LWrite, deferred: bool, ghost repr: set<object>)
    requires ds.Valid() && Owns(repr, ds)
    modifies repr
    ensures ds.Valid() && Owns(repr, ds) && LevelKept(ds) && LTook(ds.mPrimaryBuffer, w, deferred)
  {
    SetListenerValid(ds, w, deferred);
  }

  method DoCommit(ds: DSound8OAL, ghost repr: set<object>)
    requires ds.Valid() && Owns(repr, ds)
    modifies repr
    ensures ds.Valid() && Owns(repr, ds) && LevelKept(ds) && Committed(ds)
  {
    CommitValid(ds);
  }

  /** The primary buffer changed, its emulation buffer too perhaps, but no secondary buffer's storage. */
  twostate lemma Renewed(ds: DSound8OAL, new repr: set<object>)
    requires Owned(ds, repr) && ds.live == old(ds.live) && ds.mPrioLevel == old(ds.mPrioLevel)
    requires OnlyTuned(ds.live) && ds.mPrimaryBuffer.EmuRenewed()
    ensures var repr' := repr + ds.mPrimaryBuffer.Emu() + Storage(ds.mPrimaryBuffer.mWriteEmu);
            Owns(repr', ds) && fresh(repr' - repr) && LevelKept(ds)
  {
  }

  /** What a call on the primary buffer is for has come about, unless it was refused. */
  twostate predicate PTook(ds: DSound8OAL, call: Call)
    reads ds, ds.mPrimaryBuffer
  {
    var p := ds.mPrimaryBuffer;
    match call
    case FirstReference => p.mFlags.None?
    case InitializePrimary(desc, badFlags) =>
      !BadPrimary(desc) && !badFlags && ds.mPrioLevel != WRITEPRIMARY ==> p.mFlags.Some?
    case SetPrimaryFormat(f) => ds.mPrioLevel >= 2 && !TooShort(f) && PrimaryAccepts(f) ==> p.mFormat == Stored(f)
    case PlayPrimary(looping, priority, _, _, starts) => looping && priority == 0 && starts ==> p.mPlaying
    case StopPrimary => !p.mPlaying
    case _ => true
  }

  method DoPrimary(ds: DSound8OAL, call: Call, ghost repr: set<object>) returns (ghost repr': set<object>)
    requires ds.Valid() && Owns(repr, ds)
    requires call.FirstReference? || call.InitializePrimary? || call.SetPrimaryFormat? || call.PlayPrimary?
             || call.StopPrimary?
    modifies repr
    ensures ds.Valid() && Owns(repr', ds) && fresh(repr' - repr) && LevelKept(ds) && PTook(ds, call)
  {
    match call {
      case FirstReference => FirstReferenceValid(ds);
      case InitializePrimary(desc, badFlags) => InitializePrimaryValid(ds, desc, badFlags);
      case SetPrimaryFormat(format) => SetPrimaryFormatValid(ds, format);
      case PlayPrimary(looping, priority, hw, sw, starts) => PlayPrimaryValid(ds, looping, priority, hw, sw, starts);
      case StopPrimary => StopPrimaryValid(ds);
    }
    Renewed(ds, repr);
    repr' := repr + ds.mPrimaryBuffer.Emu() + Storage(ds.mPrimaryBuffer.mWriteEmu);
  }

  method DoLevel(ds: DSound8OAL, level: nat, ghost repr: set<object>) returns (ghost repr': set<object>)
    requires ds.Valid() && Owns(repr, ds)
    modifies repr
    ensures ds.Valid() && Owns(repr', ds) && fresh(repr' - repr) && ds.live == old(ds.live)
    ensures Leveled(old(ds.mPrioLevel), ds.mPrioLevel, level)
    ensures old(Takeable(ds, level)) ==> ds.mPrioLevel == level
    ensures ds.mPrioLevel == WRITEPRIMARY && old(ds.mPrioLevel) != WRITEPRIMARY ==>
              forall b :: b in ds.live ==> b.mBufferLost
    ensures old(ds.mPrioLevel) == WRITEPRIMARY ==> forall b :: b in ds.live ==> b.mBufferLost == old(b.mBufferLost)
  {
    SetLevelValid(ds, level);
    repr' := repr + ds.mPrimaryBuffer.Emu() + Storage(ds.mPrimaryBuffer.mWriteEmu);
  }

  /** Other DirectSound objects of the process take sources from the device's pools, and return some. */
  method DoOthers(ds: DSound8OAL, hw: nat, sw: nat)
    requires ds.Valid()
    modifies ds.mShared
    ensures ds.Valid() && ds.mShared.hw == hw && ds.mShared.sw == sw
  {
    ds.mShared.hw, ds.mShared.sw := hw, sw;
  }

  /** What a call that is not on a secondary buffer is for has come about, unless something stood in its
      way. */
  twostate predicate Happened(ds: DSound8OAL, call: Call)
    requires old(ds.Listed() && ds.Placed())
    reads ds, ds.mPrimaryBuffer, ds.mShared, ds.m3dBuffers
  {
    match call
    case Create(desc, freshBase) =>
      old(ds.mSecondaryBuffers.CanAllocate(freshBase) && Creatable(ds, desc)) ==> old(ds.live) < ds.live
    case Duplicate(place, freshBase) =>
      place in old(ds.buffers) && old(ds.mSecondaryBuffers.CanAllocate(freshBase)) ==>
        (old(Duplicable(ds, ds.buffers[place])) ==> old(ds.live) < ds.live)
    case Release(place) => place in old(ds.buffers) ==> ds.live == old(ds.live) - {old(ds.buffers)[place]}
    case SetCooperativeLevel(level) => old(Takeable(ds, level)) ==> ds.mPrioLevel == level
    case SetListener(w, deferred) => LTook(ds.mPrimaryBuffer, w, deferred)
    case CommitDeferredSettings => Committed(ds)
    case OthersUse(hw, sw) => ds.mShared.hw == hw && ds.mShared.sw == sw
    case _ => PTook(ds, call)
  }

  /** Any call that is not about the level. */
  method DoOther(ds: DSound8OAL, call: Call, ghost repr: set<object>) returns (ghost repr': set<object>)
    requires ds.Valid() && Owns(repr, ds) && !call.SetCooperativeLevel?
    modifies repr
    ensures ds.Valid() && Owns(repr', ds) && fresh(repr' - repr) && LevelKept(ds) && Happened(ds, call)
    ensures call.OnBuffer? && call.place in old(ds.buffers) ==> Took(old(ds.buffers)[call.place], call.c)
  {
    repr' := repr;
    match call
    case OnBuffer(place, c) => DoBuffer(ds, place, c, repr);
    case Create(desc, freshBase) => repr' := DoCreate(ds, desc, freshBase, repr);
    case Duplicate(place, freshBase) => repr' := DoDuplicate(ds, place, freshBase, repr);
    case Release(place) => DoRelease(ds, place, repr);
    case SetListener(w, deferred) => DoListener(ds, w, deferred, repr);
    case CommitDeferredSettings => DoCommit(ds, repr);
    case FirstReference => repr' := DoPrimary(ds, call, repr);
    case InitializePrimary(_, _) => repr' := DoPrimary(ds, call, repr);
    case SetPrimaryFormat(_) => repr' := DoPrimary(ds, call, repr);
    case PlayPrimary(_, _, _, _, _) => repr' := DoPrimary(ds, call, repr);
    case StopPrimary => repr' := DoPrimary(ds, call, repr);
    case OthersUse(hw, sw) => DoOthers(ds, hw, sw);
  }

  /** Who is in exile after a call: whoever is live at a successful switch to DSSCL_WRITEPRIMARY,
      until the level is lowered. */
  ghost function NextExiles(call: Call, before: nat, after: nat, live: set<Buffer>, exiled: set<Buffer>): set<Buffer> {
    if !call.SetCooperativeLevel? then exiled
    else if after != WRITEPRIMARY then {}
    else if before != WRITEPRIMARY then live
    else exiled
  }

  /** Every call keeps what holds between calls, and does what it is for. */
  method Do(ds: DSound8OAL, call: Call, ghost repr: set<object>, ghost exiled: set<Buffer>)
    returns (ghost repr': set<object>, ghost exiled': set<Buffer>)
    requires ds.Valid() && Owns(repr, ds) && Exiles(ds, exiled) && exiled <= repr
    modifies repr
    ensures ds.Valid() && Owns(repr', ds) && fresh(repr' - repr) && Exiles(ds, exiled') && exiled' <= repr'
    ensures exiled' == NextExiles(call, old(ds.mPrioLevel), ds.mPrioLevel, old(ds.live), exiled)
    ensures ds.mPrioLevel == old(ds.mPrioLevel)
            || (call.SetCooperativeLevel? && Leveled(old(ds.mPrioLevel), ds.mPrioLevel, call.level))
    ensures Happened(ds, call)
    ensures call.OnBuffer? && call.place in old(ds.buffers) ==> Took(old(ds.buffers)[call.place], call.c)
  {
    if call.SetCooperativeLevel? {
      repr' := DoLevel(ds, call.level, repr);
    } else {
      repr' := DoOther(ds, call, repr);
    }
    repr' := repr' + repr;
    exiled' := NextExiles(call, old(ds.mPrioLevel), ds.mPrioLevel, old(ds.live), exiled);
  }

  /** No call of a run asks for a level below DSSCL_WRITEPRIMARY.  Numbers that are no level may occur. */
  predicate NeverLowers(calls: seq<Call>) {
    forall i :: 0 <= i < |calls| && calls[i].SetCooperativeLevel? ==> !(NORMAL <= calls[i].level < WRITEPRIMARY)
  }

  /** A run: whatever calls are made, everything that holds between calls holds afterwards; and the
      exiles of a run that never lowers the level stay exiles. */
  method Run(ds: DSound8OAL, calls: seq<Call>, ghost repr: set<object>, ghost exiled: set<Buffer>)
    returns (ghost repr': set<object>, ghost exiled': set<Buffer>)
    requires ds.Valid() && Owns(repr, ds) && Exiles(ds, exiled) && exiled <= repr
    modifies repr
    ensures ds.Valid() && Owns(repr', ds) && Exiles(ds, exiled')
    ensures old(ds.mPrioLevel) == WRITEPRIMARY && NeverLowers(calls) ==>
              ds.mPrioLevel == WRITEPRIMARY && exiled' == exiled
  {
    repr', exiled' := repr, exiled;
    for i := 0 to |calls|
      invariant ds.Valid() && Owns(repr', ds) && fresh(repr' - repr) && Exiles(ds, exiled') && exiled' <= repr'
      invariant old(ds.mPrioLevel) == WRITEPRIMARY && NeverLowers(calls) ==>
                  ds.mPrioLevel == WRITEPRIMARY && exiled' == exiled
    {
      repr', exiled' := Do(ds, calls[i], repr', exiled');
    }
  }

  /** From a new DirectSound object on, every run is safe. */
  method RunFromStart(env: Env, is8: bool, shared: SharedDevice, calls: seq<Call>) returns (ds: DSound8OAL)
    modifies shared
    ensures ds.Valid()
  {
    ds := new DSound8OAL(env, is8, shared);
    ghost var repr: set<object> := {ds, shared, ds.mPrimaryBuffer, ds.mSecondaryBuffers};
    var _, _ := Run(ds, calls, repr, {});
  }

  /** Write-primary exclusivity: if the switch to DSSCL_WRITEPRIMARY succeeds, then for as long as the
      level is not lowered, whatever else is called, no secondary buffer that existed at the switch
      plays. */
  method ExclusiveRun(ds: DSound8OAL, calls: seq<Call>, ghost repr: set<object>)
    returns (switched: bool, ghost existing: set<Buffer>)
    requires ds.Valid() && Owns(repr, ds) && ds.mPrioLevel != WRITEPRIMARY && NeverLowers(calls)
    modifies repr
    ensures existing == old(ds.live)
    ensures switched ==> ds.mPrioLevel == WRITEPRIMARY && forall b :: b in existing && b in ds.live ==> !b.IsPlaying()
  {
    existing := ds.live;
    ghost var repr', exiled;
    repr', exiled := Do(ds, SetCooperativeLevel(WRITEPRIMARY), repr, {});
    switched := ds.mPrioLevel == WRITEPRIMARY;
    repr', exiled := Run(ds, calls, repr', exiled);
    forall b | b in existing && b in ds.live && switched ensures !b.IsPlaying() {
      assert b in exiled && b.Valid(ds.Rolloff());
    }
  }
}
