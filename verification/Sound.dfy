/** The playback engine: secondary buffers, the listener, and the DirectSound object that owns
    them (src/buffer.cpp, src/buffer.h, src/dsoundoal.cpp, src/dsoundoal.h, src/primarybuffer.cpp),
    with the locks held as the methods hold them. */
module Sound {
  import opened Common
  import opened Params3D
  import opened ListenerParams
  import opened AlSources
  import opened Sizes
  import opened Slots

  /** The counters of src/dsoundoal.h:51-107, with their 32-bit wrap-around.  The methods are
      atomic here; module SourcePools interleaves their steps. */
  class SharedDevice {
    const maxHw: nat
    const maxSw: nat
    var hw: nat
    var sw: nat

    constructor (maxHw: nat, maxSw: nat)
      ensures this.maxHw == maxHw && this.maxSw == maxSw && hw == 0 && sw == 0
    {
      this.maxHw, this.maxSw, hw, sw := maxHw, maxSw, 0, 0;
    }

    method IncHw() returns (ok: bool)
      modifies this`hw
      ensures ok == (old(hw) != maxHw)
      ensures hw == if ok then (old(hw) + 1) % TWO_32 else old(hw)
    {
      if hw == maxHw { return false; }
      hw := (hw + 1) % TWO_32;
      return true;
    }

    method IncSw() returns (ok: bool)
      modifies this`sw
      ensures ok == (old(sw) != maxSw)
      ensures sw == if ok then (old(sw) + 1) % TWO_32 else old(sw)
    {
      if sw == maxSw { return false; }
      sw := (sw + 1) % TWO_32;
      return true;
    }

    /** Whether a place is left once a buffer at `loc` has given its own back. */
    predicate HwRoom(loc: LocStatus)
      reads this`hw
    {
      Returned(hw, loc == Hardware) != maxHw
    }

    predicate SwRoom(loc: LocStatus)
      reads this`sw
    {
      Returned(sw, loc == Software) != maxSw
    }

    /** Where setLocation leaves a buffer: where it is, if that will do, or else at the first place left
        that is asked for. */
    function Located(request: LocStatus, loc: LocStatus): LocStatus
      reads this
    {
      if loc != Nowhere && (request == Nowhere || request == loc) then loc
      else if request != Software && HwRoom(loc) then Hardware
      else if request != Hardware && SwRoom(loc) then Software
      else Nowhere
    }

    lemma LocatedFits(request: LocStatus, loc: LocStatus)
      ensures loc != Nowhere && (request == Nowhere || request == loc) ==> Located(request, loc) == loc
      ensures loc == Nowhere || (request != Nowhere && request != loc) ==>
                FirstFit(Located(request, loc), request, hw != maxHw, sw != maxSw)
    {
    }

    /** Whether a new buffer gets the place it needs, src/buffer.cpp:1027-1034. */
    function PlaceStatus(caps: Caps): HResult
      reads this
    {
      if caps.locDefer || Located(FirstRequest(caps), Nowhere) != Nowhere then DsOk else Allocated
    }

    /** decHwSources or decSwSources, whichever the location calls for. */
    method Return(loc: LocStatus)
      modifies this
      ensures hw == if loc == Hardware then (old(hw) + TWO_32 - 1) % TWO_32 else old(hw)
      ensures sw == if loc == Software then (old(sw) + TWO_32 - 1) % TWO_32 else old(sw)
    {
      if loc == Hardware {
        hw := (hw + TWO_32 - 1) % TWO_32;
      } else if loc == Software {
        sw := (sw + TWO_32 - 1) % TWO_32;
      }
    }
  }

  /** The location a description asks for. */
  function FirstRequest(caps: Caps): LocStatus {
    Request(caps.locHardware, caps.locSoftware)
  }

  function Request(locHardware: bool, locSoftware: bool): LocStatus {
    if locHardware then Hardware else if locSoftware then Software else Nowhere
  }

  /** The sample storage duplicates share, src/buffer.h:28-70. */
  class SharedBuffer {
    const caps: Caps
    const rate: nat
    const size: nat
    var mRef: int

    constructor (caps: Caps, rate: nat, size: nat)
      ensures this.caps == caps && this.rate == rate && this.size == size && mRef == 1
    {
      this.caps, this.rate, this.size, mRef := caps, rate, size, 1;
    }
  }

  /** The sample storage of a buffer, if it has any. */
  function Storage(b: Buffer?): set<SharedBuffer>
    reads if b == null then {} else {b}
  {
    if b == null || b.mBuffer == null then {} else {b.mBuffer}
  }

  /** Storage of the size a description asks for, in whole blocks. */
  predicate SizedFor(storage: SharedBuffer, desc: Option<BufferDesc>) {
    && desc.Some? && desc.value.format.Some? && desc.value.format.value.blockAlign > 0
    && storage.size == RoundedSize(desc.value.bufferBytes, desc.value.format.value.blockAlign)
  }

  const DEFAULT_PARAMS := Params(ORIGIN, ORIGIN, 360, 360, Vec(0.0, 0.0, 1.0), 0, 1.0, 1000000000.0, Normal)

  class Buffer {
    const mParent: DSound8OAL
    const mAddress: nat
    const mPlace: nat
    var mBuffer: SharedBuffer?
    var mSource: Option<AlSource>
    var mBufferLost: bool
    var mVolume: int
    var mPan: int
    var mFrequency: nat
    var mImmediate: Params
    var mDeferred: Params
    var mDirty: set<Flag>
    var mLocStatus: LocStatus
    var mIsInitialized: bool

    /** The deferred writes since the last commit, and the record they started from. */
    ghost var pending: seq<Write>
    ghost var stale: Params

    predicate Is3D()
      reads this`mBuffer
    {
      mBuffer != null && mBuffer.caps.ctrl3D
    }

    predicate IsPlaying()
      reads this`mSource
    {
      mSource.Some? && mSource.value.state == Playing
    }

    /** The source shows all of the buffer's settings. */
    ghost predicate Shows(rolloff: real)
      requires mBuffer != null && mBuffer.rate > 0 && mSource.Some?
      reads this`mBuffer, this`mSource, this`mVolume, this`mPan, this`mFrequency, this`mImmediate
    {
      var p := mSource.value.params;
      && p.gain == mParent.env.gainOf(mVolume)
      && PlaysAt(p.pitch, mFrequency, mBuffer.rate)
      && if mBuffer.caps.ctrl3D then Shows3D(p, mParent.env, mImmediate, rolloff)
         else ShowsFlat(p, mParent.env, mPan)
    }

    /** A buffer with a location has a source, and the source shows all of its settings. */
    ghost predicate Coherent(rolloff: real)
      reads this`mBuffer, this`mSource, this`mLocStatus, this`mVolume, this`mPan, this`mFrequency, this`mImmediate
    {
      mLocStatus != Nowhere ==> mBuffer != null && mBuffer.rate > 0 && mSource.Some? && Shows(rolloff)
    }

    /** mDirty and mDeferred stand for the pending writes. */
    ghost predicate DeferredIsLog()
      reads this`mDirty, this`mDeferred, this`pending, this`stale
    {
      mDirty == Written(pending) && mDeferred == Replay(stale, pending)
    }

    /** Everything that holds of a buffer, whether it is lost or not. */
    ghost predicate Consistent(rolloff: real)
      reads this`mBuffer, this`mSource, this`mVolume, this`mPan, this`mFrequency, this`mImmediate, this`mDeferred
      reads this`mDirty, this`mLocStatus, this`mIsInitialized, this`pending, this`stale
    {
      && Coherent(rolloff) && DeferredIsLog()
      && (mBuffer != null ==> mBuffer.rate > 0)
      && (mBuffer == null ==> mSource.None? && !mIsInitialized)
      && (mIsInitialized && !mBuffer.caps.locDefer ==> mLocStatus != Nowhere)
    }

    ghost predicate Valid(rolloff: real)
      reads this
    {
      || (!mBufferLost && Consistent(rolloff))
      || (mBufferLost && Consistent(rolloff) && !IsPlaying())
    }

    /** Buffer::Buffer, src/buffer.cpp:456-501. */
    constructor (parent: DSound8OAL, address: nat, place: nat, original: Buffer?)
      requires original != null ==> original.mBuffer != null && original.mBuffer.rate > 0
      modifies Storage(original)`mRef
      ensures mParent == parent && mAddress == address && mPlace == place
      ensures mBuffer == if original == null then null else old(original.mBuffer)
      ensures mSource.None? && mLocStatus == Nowhere && !mIsInitialized && !mBufferLost
      ensures mDirty == {} && pending == [] && mDeferred == mImmediate == stale
      ensures mVolume == 0
      ensures mPan == if original != null && original.mBuffer.caps.ctrlPan then original.mPan else 0
      ensures mFrequency == if original != null && original.mBuffer.caps.ctrlFrequency then original.mFrequency else 0
      ensures mImmediate == if original != null && original.mBuffer.caps.ctrl3D then original.mImmediate
                            else Params(Vec(0.0, 0.0, 0.0), Vec(0.0, 0.0, 0.0), 360, 360, Vec(0.0, 0.0, 1.0), 0,
                                        1.0, 1000000000.0, Normal)
      ensures original != null ==> original.mBuffer.mRef == old(original.mBuffer.mRef) + 1
      ensures Valid(parent.mPrimaryBuffer.mImmediate.rolloffFactor)
    {
      mParent, mAddress, mPlace := parent, address, place;
      mBuffer := if original == null then null else original.mBuffer;
      mSource, mLocStatus, mIsInitialized, mBufferLost := None, Nowhere, false, false;
      mVolume := 0;
      mPan := if original != null && original.mBuffer.caps.ctrlPan then original.mPan else 0;
      mFrequency := if original != null && original.mBuffer.caps.ctrlFrequency then original.mFrequency else 0;
      var imm := if original != null && original.mBuffer.caps.ctrl3D then original.mImmediate else DEFAULT_PARAMS;
      mImmediate, mDeferred, mDirty, pending, stale := imm, imm, {}, [], imm;
      new;
      if original != null {
        mBuffer.mRef := mBuffer.mRef + 1;
      }
    }

    /** A buffer without 3D does not depend on the listener. */
    lemma FlatAnyRolloff(rolloff: real)
      requires !Is3D() && Valid(rolloff)
      ensures forall r :: Valid(r)
    {
    }

    function Rolloff(): real
      reads mParent.mPrimaryBuffer`mImmediate
    {
      mParent.mPrimaryBuffer.mImmediate.rolloffFactor
    }

    /** Buffer::~Buffer, src/buffer.cpp:503-522. */
    method Destroy()
      modifies this, mParent.mShared, mParent`m3dBuffers, Storage(this)`mRef
      ensures mSource.None? && mLocStatus == Nowhere && mBuffer == null
      ensures mParent.mShared.hw == Returned(old(mParent.mShared.hw), old(mLocStatus) == Hardware)
      ensures mParent.mShared.sw == Returned(old(mParent.mShared.sw), old(mLocStatus) == Software)
      ensures mParent.m3dBuffers == if old(Is3D()) then Removed(old(mParent.m3dBuffers), this)
                                    else old(mParent.m3dBuffers)
      ensures old(mBuffer) != null ==> old(mBuffer).mRef == old(mBuffer.mRef) - 1
    {
      mSource := None;
      mParent.mShared.Return(mLocStatus);
      mLocStatus := Nowhere;
      if mBuffer != null {
        if mBuffer.caps.ctrl3D {
          mParent.Remove3dBuffer(this);
        }
        mBuffer.mRef := mBuffer.mRef - 1;
        mBuffer := null;
      }
    }

    /** The AL calls of setLocation, src/buffer.cpp:623-686. */
    method Configure()
      requires mBuffer != null && mBuffer.rate > 0 && mSource.Some?
      modifies this`mSource
      ensures mSource.Some? && mSource.value.state == old(mSource.value.state)
      ensures Shows(Rolloff())
    {
      PitchPlays(mFrequency, mBuffer.rate);
      var p := mSource.value.params.(gain := mParent.env.gainOf(mVolume));
      p := p.(pitch := if mFrequency == 0 then 1.0 else mFrequency as real / mBuffer.rate as real);
      SetAl(p);
      if mBuffer.caps.ctrl3D {
        PushMode(mImmediate.mode);
        p := mSource.value.params.(innerAngle := mImmediate.insideAngle, outerAngle := mImmediate.outsideAngle);
        p := p.(outerGain := mParent.env.gainOf(mImmediate.coneVolume));
        p := p.(referenceDistance := mImmediate.minDistance, maxDistance := mImmediate.maxDistance);
      } else {
        p := mSource.value.params.(rolloff := 0.0, relative := true);
        if mParent.env.hasPanning {
          p := p.(panEnabled := true, pan := PanGain(mParent.env, mPan));
        }
      }
      SetAl(p);
    }

    /** The first half of Buffer::Initialize, src/buffer.cpp:986-1019: get sample storage unless
        the buffer is a duplicate. */
    method EnsureStorage(desc: Option<BufferDesc>) returns (hr: HResult)
      modifies this`mBuffer
      ensures hr == if old(mBuffer) != null then DsOk else StorageStatus(desc, mParent.mIs8)
      ensures old(mBuffer) == null ==>
                hr == if desc.None? || desc.value.format.None? then InvalidParam
                      else if desc.value.caps.ctrl3D && desc.value.format.value.channels != 1 && mParent.mIs8
                      then InvalidParam else CreateStatus(desc.value, desc.value.format.value)
      ensures old(mBuffer) != null || hr != DsOk ==> mBuffer == old(mBuffer)
      ensures old(mBuffer) == null && hr == DsOk ==>
                && mBuffer != null && fresh(mBuffer) && mBuffer.mRef == 1 && mBuffer.caps == desc.value.caps
                && mBuffer.rate == desc.value.format.value.samplesPerSec > 0
                && SizedFor(mBuffer, desc)
    {
      if mBuffer == null {
        if desc.None? || desc.value.format.None? { return InvalidParam; }
        var format := desc.value.format.value;
        if desc.value.caps.ctrl3D && format.channels != 1 {
          if mParent.mIs8 { return InvalidParam; }
        }
        hr := CreateStatus(desc.value, format);
        if hr != DsOk { return; }
        mBuffer := new SharedBuffer(desc.value.caps, format.samplesPerSec,
                                    RoundedSize(desc.value.bufferBytes, format.blockAlign));
      }
      return DsOk;
    }

    /** src/buffer.cpp:1027-1034 */
    method InitialLocation() returns (hr: HResult)
      requires Valid(Rolloff()) && mBuffer != null && !mIsInitialized && mLocStatus == Nowhere && mSource.None?
      modifies this`mSource, this`mLocStatus, mParent.mShared
      ensures Valid(Rolloff()) && !IsPlaying() && hr == old(mParent.mShared.PlaceStatus(mBuffer.caps))
      ensures mLocStatus == if mBuffer.caps.locDefer then Nowhere
                            else old(mParent.mShared.Located(FirstRequest(mBuffer.caps), Nowhere))
      ensures Moved(old(mParent.mShared.hw), mParent.mShared.hw, false, mLocStatus == Hardware)
      ensures Moved(old(mParent.mShared.sw), mParent.mShared.sw, false, mLocStatus == Software)
    {
      hr := DsOk;
      if !mBuffer.caps.locDefer {
        hr := SetLocation(if mBuffer.caps.locHardware then Hardware
                          else if mBuffer.caps.locSoftware then Software else Nowhere);
      }
    }

    /** What Initialize returns for a buffer that was not initialized yet. */
    function InitStatus(desc: Option<BufferDesc>): HResult
      reads this`mBuffer, mParent.mShared
    {
      if mBuffer != null then mParent.mShared.PlaceStatus(mBuffer.caps)
      else if StorageStatus(desc, mParent.mIs8) != DsOk then StorageStatus(desc, mParent.mIs8)
      else mParent.mShared.PlaceStatus(desc.value.caps)
    }

    /** Buffer::Initialize, src/buffer.cpp:979-1038, of a buffer that may have been initialized. */
    method Initialize(desc: Option<BufferDesc>) returns (hr: HResult)
      requires Valid(Rolloff()) && (!mIsInitialized ==> mLocStatus == Nowhere && mSource.None?)
      modifies this`mBuffer, this`mFrequency, this`mSource, this`mLocStatus, this`mIsInitialized
      modifies mParent.mShared, mParent`m3dBuffers
      ensures Valid(Rolloff()) && mIsInitialized == (old(mIsInitialized) || hr == DsOk)
      ensures !old(mIsInitialized) ==> hr == old(InitStatus(desc))
      ensures old(mIsInitialized) ==> hr == AlreadyInitialized && mBuffer == old(mBuffer) && mSource == old(mSource)
                                      && mLocStatus == old(mLocStatus) && mFrequency == old(mFrequency)
                                      && mParent.m3dBuffers == old(mParent.m3dBuffers)
    {
      if mIsInitialized { return AlreadyInitialized; }
      hr := FirstInitialize(desc);
    }

    /** The rest of Initialize, src/buffer.cpp:986-1038. */
    method FirstInitialize(desc: Option<BufferDesc>) returns (hr: HResult)
      requires Valid(Rolloff()) && mLocStatus == Nowhere && mSource.None? && !mIsInitialized
      modifies this`mBuffer, this`mFrequency, this`mSource, this`mLocStatus, this`mIsInitialized
      modifies mParent.mShared, mParent`m3dBuffers
      ensures Valid(Rolloff()) && !IsPlaying() && hr == old(InitStatus(desc))
      ensures mIsInitialized == (hr == DsOk) && (hr == DsOk ==> mBuffer != null)
      ensures mBuffer == null || hr != DsOk ==> mLocStatus == Nowhere
      ensures hr == DsOk && !mBuffer.caps.locDefer ==>
                && mLocStatus != Nowhere && (mBuffer.caps.locHardware ==> mLocStatus == Hardware)
                && (mBuffer.caps.locSoftware && !mBuffer.caps.locHardware ==> mLocStatus == Software)
      ensures mBuffer != null ==>
                var caps := mBuffer.caps;
                mLocStatus == if caps.locDefer then Nowhere
                              else old(mParent.mShared.Located(FirstRequest(caps), Nowhere))
      ensures mBuffer != null ==> mFrequency == if old(mFrequency) == 0 then mBuffer.rate else old(mFrequency)
      ensures old(mBuffer) != null ==> mBuffer == old(mBuffer)
      ensures old(mBuffer) == null && mBuffer != null ==>
                fresh(mBuffer) && desc.Some? && mBuffer.caps == desc.value.caps && SizedFor(mBuffer, desc)
      ensures mParent.m3dBuffers == old(mParent.m3dBuffers) + if Is3D() then [this] else []
      ensures Moved(old(mParent.mShared.hw), mParent.mShared.hw, false, mLocStatus == Hardware)
      ensures Moved(old(mParent.mShared.sw), mParent.mShared.sw, false, mLocStatus == Software)
    {
      hr := Equip(desc);
      if hr == DsOk {
        hr := InitialLocation();
        mIsInitialized := hr == DsOk;
      }
    }

    /** src/buffer.cpp:986-1025 */
    method Equip(desc: Option<BufferDesc>) returns (hr: HResult)
      requires Valid(Rolloff()) && mLocStatus == Nowhere && mSource.None? && !mIsInitialized
      modifies this`mBuffer, this`mFrequency, mParent`m3dBuffers
      ensures Valid(Rolloff())
      ensures hr == if old(mBuffer) != null then DsOk else StorageStatus(desc, mParent.mIs8)
      ensures hr == DsOk <==> mBuffer != null
      ensures old(mBuffer) != null ==> mBuffer == old(mBuffer)
      ensures old(mBuffer) == null && mBuffer != null ==>
                fresh(mBuffer) && desc.Some? && mBuffer.caps == desc.value.caps && SizedFor(mBuffer, desc)
      ensures mBuffer != null ==>
                mBuffer.rate > 0 && mFrequency == if old(mFrequency) == 0 then mBuffer.rate else old(mFrequency)
      ensures mParent.m3dBuffers == old(mParent.m3dBuffers) + if Is3D() then [this] else []
    {
      hr := EnsureStorage(desc);
      if hr != DsOk { return; }
      if mFrequency == 0 {
        mFrequency := mBuffer.rate;
      }
      if mBuffer.caps.ctrl3D {
        mParent.Add3dBuffer(this);
      }
    }

    /** Buffer::setLocation, src/buffer.cpp:573-690; Nowhere asks for any location. */
    method SetLocation(request: LocStatus) returns (hr: HResult)
      requires mBuffer != null && mBuffer.rate > 0 && Coherent(Rolloff())
      modifies this`mSource, this`mLocStatus, mParent.mShared
      ensures Coherent(Rolloff())
      ensures old(mLocStatus) != Nowhere && (request == Nowhere || request == old(mLocStatus)) ==>
                && mLocStatus == old(mLocStatus) && mSource == old(mSource)
                && mParent.mShared.hw == old(mParent.mShared.hw) && mParent.mShared.sw == old(mParent.mShared.sw)
      ensures old(mLocStatus) == Nowhere || (request != Nowhere && request != old(mLocStatus)) ==>
                FirstFit(mLocStatus, request, old(mParent.mShared.hw) != mParent.mShared.maxHw,
                         old(mParent.mShared.sw) != mParent.mShared.maxSw)
      ensures mLocStatus == old(mParent.mShared.Located(request, mLocStatus))
      ensures hr == if mLocStatus == Nowhere then Allocated else DsOk
      ensures old(mLocStatus) != Nowhere && mLocStatus == old(mLocStatus) ==> mSource == old(mSource)
      ensures mLocStatus == Nowhere ==> mSource == if old(mLocStatus) == Nowhere then old(mSource) else None
      ensures mLocStatus != Nowhere && mLocStatus != old(mLocStatus) ==>
                mSource.Some? && mSource.value.state == if old(mLocStatus == Nowhere && mSource.Some?)
                                                        then old(mSource.value.state) else Initial
      ensures Moved(old(mParent.mShared.hw), mParent.mShared.hw, old(mLocStatus) == Hardware, mLocStatus == Hardware)
      ensures Moved(old(mParent.mShared.sw), mParent.mShared.sw, old(mLocStatus) == Software, mLocStatus == Software)
    {
      mParent.mShared.LocatedFits(request, mLocStatus);
      var locStatus := request;
      if locStatus != Nowhere && mLocStatus == locStatus { return DsOk; }
      if locStatus == Nowhere && mLocStatus != Nowhere { return DsOk; }

      if mLocStatus != Nowhere {
        mSource := None;
        mParent.mShared.Return(mLocStatus);
        mLocStatus := Nowhere;
      }

      var ok := false;
      if locStatus != Software {
        ok := mParent.mShared.IncHw();
        if ok { locStatus := Hardware; }
      }
      if locStatus != Hardware && !ok {
        ok := mParent.mShared.IncSw();
        if ok { locStatus := Software; }
      }
      if !ok { return Allocated; }

      if mSource.None? {
        mSource := Some(FRESH_SOURCE);
      }
      Configure();
      mLocStatus := locStatus;
      return DsOk;
    }

    // -------------------------------------------------------------------------------------
    // Playing

    /** Play and AcquireResources refuse both locations at once, and to move a playing buffer. */
    predicate Immovable(locHardware: bool, locSoftware: bool)
      reads this`mSource, this`mLocStatus
    {
      || (locHardware && locSoftware)
      || (IsPlaying() && mLocStatus != Nowhere
          && ((locHardware && mLocStatus != Hardware) || (locSoftware && mLocStatus != Software)))
    }

    /** The location part Play and AcquireResources share, src/buffer.cpp:1113-1141, 1423-1451. */
    method Locate(locHardware: bool, locSoftware: bool) returns (hr: HResult)
      requires mIsInitialized && mBuffer != null && Valid(Rolloff())
      modifies this`mSource, this`mLocStatus, mParent.mShared
      ensures Coherent(Rolloff()) && (IsPlaying() ==> old(IsPlaying()))
      ensures hr == DsOk && old(IsPlaying()) ==> IsPlaying()
      ensures hr == if old(Immovable(locHardware, locSoftware)) then InvalidParam
                    else if mLocStatus == Nowhere then Allocated else DsOk
      ensures hr == InvalidParam <==>
                || (locHardware && locSoftware)
                || (old(IsPlaying()) && ((locHardware && old(mLocStatus) == Software)
                                         || (locSoftware && old(mLocStatus) == Hardware)))
      ensures mLocStatus == if hr == InvalidParam then old(mLocStatus)
                            else old(mParent.mShared.Located(Request(locHardware, locSoftware), mLocStatus))
      ensures mLocStatus == old(mLocStatus) ==> mLocStatus == Nowhere || mSource == old(mSource)
      ensures hr == InvalidParam ==> mSource == old(mSource)
    {
      if locHardware && locSoftware { return InvalidParam; }
      var loc := Nowhere;
      if locHardware { loc := Hardware; }
      else if locSoftware { loc := Software; }
      if loc != Nowhere && mLocStatus != Nowhere && loc != mLocStatus {
        if mSource.value.state == Playing { return InvalidParam; }
      }
      hr := SetLocation(loc);
    }

    /** Buffer::AcquireResources, src/buffer.cpp:1408-1457; `effects` says whether any are asked for. */
    method AcquireResources(effects: bool, locHardware: bool, locSoftware: bool) returns (hr: HResult)
      requires mIsInitialized && mBuffer != null && Valid(Rolloff())
      modifies this`mSource, this`mLocStatus, mParent.mShared
      ensures Valid(Rolloff()) && (IsPlaying() ==> old(IsPlaying()))
      ensures hr == if mBufferLost then BufferLost else if effects then InvalidParam
                    else if mBuffer.caps.locDefer && old(Immovable(locHardware, locSoftware)) then InvalidParam
                    else if mLocStatus == Nowhere then Allocated else DsOk
      ensures mLocStatus == if mBufferLost || hr == InvalidParam || !mBuffer.caps.locDefer then old(mLocStatus)
                            else old(mParent.mShared.Located(Request(locHardware, locSoftware), mLocStatus))
      ensures mBufferLost || hr == InvalidParam || !mBuffer.caps.locDefer ==> mSource == old(mSource)
    {
      if mBufferLost { return BufferLost; }
      if effects { return InvalidParam; }
      hr := DsOk;
      if mBuffer.caps.locDefer {
        hr := Locate(locHardware, locSoftware);
      }
    }

    /** Buffer::Play, src/buffer.cpp:1103-1174, without the notification positions (see module
        Notify); `starts` says whether alSourcePlay succeeds. */
    method Play(priority: nat, locHardware: bool, locSoftware: bool, starts: bool) returns (hr: HResult)
      requires mIsInitialized && mBuffer != null && Valid(Rolloff())
      modifies this`mSource, this`mLocStatus, mParent.mShared
      ensures Valid(Rolloff()) && (hr == DsOk ==> IsPlaying()) && (IsPlaying() ==> hr == DsOk || old(IsPlaying()))
      ensures old(IsPlaying()) && !mBuffer.caps.locDefer ==> IsPlaying()
      ensures hr == if mBufferLost then BufferLost
                    else if mBuffer.caps.locDefer && old(Immovable(locHardware, locSoftware)) then InvalidParam
                    else if mBuffer.caps.locDefer && mLocStatus == Nowhere then Allocated
                    else if !mBuffer.caps.locDefer && priority != 0 then InvalidParam
                    else if old(IsPlaying()) || starts then DsOk else General
      ensures mLocStatus == if mBufferLost || hr == InvalidParam || !mBuffer.caps.locDefer then old(mLocStatus)
                            else old(mParent.mShared.Located(Request(locHardware, locSoftware), mLocStatus))
      ensures mBufferLost ==> mSource == old(mSource)
    {
      if mBufferLost { return BufferLost; }
      if mBuffer.caps.locDefer {
        hr := Locate(locHardware, locSoftware);
        if hr != DsOk { return; }
      } else if priority != 0 {
        return InvalidParam;
      }
      if mSource.value.state == Playing { return DsOk; }
      if !starts { return General; }
      mSource := Some(mSource.value.(state := Playing));
      return DsOk;
    }

    /** Buffer::Stop, src/buffer.cpp:1286-1312: a playing source pauses, any other keeps its state. */
    method Stop()
      requires Valid(Rolloff())
      modifies this`mSource
      ensures Valid(Rolloff()) && !IsPlaying()
      ensures mSource == if old(IsPlaying()) then Some(old(mSource.value).(state := Paused)) else old(mSource)
    {
      if mSource.Some? && mSource.value.state == Playing {
        mSource := Some(mSource.value.(state := Paused));
      }
    }

    /** OpenAL reaches the end of a buffer that does not loop. */
    method ReachEnd()
      requires Valid(Rolloff()) && IsPlaying()
      modifies this`mSource
      ensures Valid(Rolloff()) && mSource == Some(old(mSource.value).(state := AlState.Stopped))
    {
      mSource := Some(mSource.value.(state := AlState.Stopped));
    }

    /** Buffer::Restore, src/buffer.cpp:1347-1358. */
    method Restore() returns (hr: HResult)
      modifies this`mBufferLost
      ensures if mParent.mPrioLevel == WRITEPRIMARY && this != mParent.mPrimaryBuffer.mWriteEmu
              then hr == BufferLost && mBufferLost == old(mBufferLost) else hr == DsOk && !mBufferLost
    {
      if mParent.mPrioLevel == WRITEPRIMARY && this != mParent.mPrimaryBuffer.mWriteEmu { return BufferLost; }
      mBufferLost := false;
      return DsOk;
    }

    /** The unmarked source of Prop::Set, src/buffer.cpp:2246-2260: an EAX property may arrive
        before the buffer has a location. */
    method EnsureSource()
      requires mIsInitialized && Valid(Rolloff())
      modifies this`mSource
      ensures Valid(Rolloff()) && mSource == if old(mSource).None? then Some(FRESH_SOURCE) else old(mSource)
      ensures old(mSource).None? ==> mSource.value.state == Initial
    {
      if mSource.None? {
        mSource := Some(FRESH_SOURCE);
      }
    }

    // -------------------------------------------------------------------------------------
    // IDirectSoundBuffer8 settings

    /** Buffer::SetVolume, src/buffer.cpp:1207-1226. */
    method SetVolume(volume: int) returns (hr: HResult)
      requires mBuffer != null && Valid(Rolloff())
      modifies this`mVolume, this`mSource
      ensures Valid(Rolloff()) && IsPlaying() == old(IsPlaying())
      ensures hr == if volume > 0 || volume < -10000 then InvalidParam
                    else if !mBuffer.caps.ctrlVolume then ControlUnavail else DsOk
      ensures mVolume == if hr == DsOk then volume else old(mVolume)
      ensures hr == DsOk && mSource.Some? ==> mSource.value.params.gain == mParent.env.gainOf(volume)
    {
      if volume > 0 || volume < -10000 { return InvalidParam; }
      if !mBuffer.caps.ctrlVolume { return ControlUnavail; }
      mVolume := volume;
      if mSource.Some? {
        SetAl(mSource.value.params.(gain := mParent.env.gainOf(volume)));
      }
      return DsOk;
    }

    /** Buffer::SetPan, src/buffer.cpp:1230-1255. */
    method SetPan(pan: int) returns (hr: HResult)
      requires mBuffer != null && Valid(Rolloff())
      modifies this`mPan, this`mSource
      ensures Valid(Rolloff()) && IsPlaying() == old(IsPlaying())
      ensures hr == if pan > 10000 || pan < -10000 then InvalidParam
                    else if !mBuffer.caps.ctrlPan then ControlUnavail else DsOk
      ensures mPan == if hr == DsOk then pan else old(mPan)
    {
      if pan > 10000 || pan < -10000 { return InvalidParam; }
      if !mBuffer.caps.ctrlPan { return ControlUnavail; }
      mPan := pan;
      if !mBuffer.caps.ctrl3D && mSource.Some? {
        if mParent.env.hasPanning {
          SetAl(mSource.value.params.(pan := PanGain(mParent.env, pan)));
        }
      }
      return DsOk;
    }

    /** Buffer::SetFrequency, src/buffer.cpp:1259-1282. */
    method SetFrequency(frequency: nat) returns (hr: HResult)
      requires mBuffer != null && Valid(Rolloff())
      modifies this`mFrequency, this`mSource
      ensures Valid(Rolloff()) && IsPlaying() == old(IsPlaying())
      ensures hr == if frequency != 0 && (frequency < 100 || frequency > 200000) then InvalidParam
                    else if !mBuffer.caps.ctrlFrequency then ControlUnavail else DsOk
      ensures mFrequency == if hr != DsOk then old(mFrequency)
                            else if frequency == 0 then mBuffer.rate else frequency
    {
      if frequency != 0 && (frequency < FREQUENCY_MIN || frequency > FREQUENCY_MAX) { return InvalidParam; }
      if !mBuffer.caps.ctrlFrequency { return ControlUnavail; }
      mFrequency := if frequency != 0 then frequency else mBuffer.rate;
      PitchPlays(mFrequency, mBuffer.rate);
      if mSource.Some? {
        SetAl(mSource.value.params.(pitch := mFrequency as real / mBuffer.rate as real));
      }
      return DsOk;
    }

    /** One or more alSource* calls on this buffer's source. */
    method SetAl(p: AlParams)
      requires mSource.Some?
      modifies this`mSource
      ensures mSource == Some(old(mSource.value).(params := p))
    {
      mSource := Some(mSource.value.(params := p));
    }

    // -------------------------------------------------------------------------------------
    // IDirectSound3DBuffer settings

    /** A 3D setter either joins the log, touching nothing else, or takes effect at once and
        leaves the log alone. */
    twostate predicate Wrote(w: Write, deferred: bool)
      reads this
    {
      && mImmediate == (if deferred then old(mImmediate) else Apply(old(mImmediate), w))
      && pending == (if deferred then old(pending) + [w] else old(pending))
      && (deferred ==> mSource == old(mSource))
      && (!deferred ==> mDeferred == old(mDeferred) && mDirty == old(mDirty))
      && IsPlaying() == old(IsPlaying())
    }

    /** A refused setter touches nothing. */
    twostate predicate Kept()
      reads this
    {
      && mImmediate == old(mImmediate) && mSource == old(mSource)
      && mDeferred == old(mDeferred) && mDirty == old(mDirty) && pending == old(pending)
    }

    /** The deferred half of every 3D setter: change mDeferred, set the dirty bits, touch nothing
        else. */
    method Defer(w: Write)
      requires DeferredIsLog()
      modifies this`mDeferred, this`mDirty, this`pending
      ensures DeferredIsLog() && pending == old(pending) + [w]
    {
      mDeferred := Apply(mDeferred, w);
      mDirty := mDirty + w.Fields();
      assert (pending + [w])[..|pending|] == pending;
      pending := pending + [w];
    }

    /** Buffer3D::SetPosition, src/buffer.cpp:2038-2065. */
    method SetPosition(v: Vec, deferred: bool) returns (hr: HResult)
      requires Is3D() && Valid(Rolloff())
      modifies this`mImmediate, this`mDeferred, this`mDirty, this`mSource, this`pending
      ensures Valid(Rolloff()) && hr == DsOk && Wrote(Position(v), deferred)
      ensures !deferred ==> mImmediate == old(mImmediate).(position := v)
      ensures !deferred && mSource.Some? && mImmediate.mode != Disable ==>
                mSource.value.params.position == Vec(v.x, v.y, -v.z)
    {
      if deferred {
        Defer(Position(v));
      } else {
        mImmediate := mImmediate.(position := v);
        if mImmediate.mode != Disable && mSource.Some? {
          SetAl(mSource.value.params.(position := Flip(v)));
        }
      }
      return DsOk;
    }

    /** Buffer3D::SetVelocity, src/buffer.cpp:2069-2096. */
    method SetVelocity(v: Vec, deferred: bool) returns (hr: HResult)
      requires Is3D() && Valid(Rolloff())
      modifies this`mImmediate, this`mDeferred, this`mDirty, this`mSource, this`pending
      ensures Valid(Rolloff()) && hr == DsOk && Wrote(Velocity(v), deferred)
      ensures !deferred ==> mImmediate == old(mImmediate).(velocity := v)
      ensures !deferred && mSource.Some? && mImmediate.mode != Disable ==>
                mSource.value.params.velocity == Vec(v.x, v.y, -v.z)
    {
      if deferred {
        Defer(Velocity(v));
      } else {
        mImmediate := mImmediate.(velocity := v);
        if mImmediate.mode != Disable && mSource.Some? {
          SetAl(mSource.value.params.(velocity := Flip(v)));
        }
      }
      return DsOk;
    }

    /** Buffer3D::SetConeOrientation, src/buffer.cpp:1855-1882. */
    method SetConeOrientation(v: Vec, deferred: bool) returns (hr: HResult)
      requires Is3D() && Valid(Rolloff())
      modifies this`mImmediate, this`mDeferred, this`mDirty, this`mSource, this`pending
      ensures Valid(Rolloff()) && hr == DsOk && Wrote(ConeOrientation(v), deferred)
      ensures !deferred ==> mImmediate == old(mImmediate).(orientation := v)
      ensures !deferred && mSource.Some? && mImmediate.mode != Disable ==>
                mSource.value.params.direction == Vec(v.x, v.y, -v.z)
    {
      if deferred {
        Defer(ConeOrientation(v));
      } else {
        mImmediate := mImmediate.(orientation := v);
        if mImmediate.mode != Disable && mSource.Some? {
          SetAl(mSource.value.params.(direction := Flip(v)));
        }
      }
      return DsOk;
    }

    /** Buffer3D::SetConeAngles, src/buffer.cpp:1818-1851. */
    method SetConeAngles(inside: nat, outside: nat, deferred: bool) returns (hr: HResult)
      requires Is3D() && Valid(Rolloff())
      modifies this`mImmediate, this`mDeferred, this`mDirty, this`mSource, this`pending
      ensures Valid(Rolloff()) && hr == if inside > 360 || outside > 360 then InvalidParam else DsOk
      ensures if hr == DsOk then Wrote(ConeAngles(inside, outside), deferred) else Kept()
      ensures hr == DsOk && !deferred ==>
                && mImmediate == old(mImmediate).(insideAngle := inside, outsideAngle := outside)
                && (mSource.Some? ==>
                      mSource.value.params.innerAngle == inside && mSource.value.params.outerAngle == outside)
    {
      if inside > 360 || outside > 360 { return InvalidParam; }
      if deferred {
        Defer(ConeAngles(inside, outside));
      } else {
        mImmediate := mImmediate.(insideAngle := inside, outsideAngle := outside);
        if mSource.Some? {
          SetAl(mSource.value.params.(innerAngle := inside, outerAngle := outside));
        }
      }
      return DsOk;
    }

    /** Buffer3D::SetConeOutsideVolume, src/buffer.cpp:1886-1913. */
    method SetConeOutsideVolume(volume: int, deferred: bool) returns (hr: HResult)
      requires Is3D() && Valid(Rolloff())
      modifies this`mImmediate, this`mDeferred, this`mDirty, this`mSource, this`pending
      ensures Valid(Rolloff()) && hr == if volume > 0 || volume < -10000 then InvalidParam else DsOk
      ensures if hr == DsOk then Wrote(ConeVolume(volume), deferred) else Kept()
      ensures hr == DsOk && !deferred ==>
                && mImmediate == old(mImmediate).(coneVolume := volume)
                && (mSource.Some? ==> mSource.value.params.outerGain == mParent.env.gainOf(volume))
    {
      if volume > 0 || volume < -10000 { return InvalidParam; }
      if deferred {
        Defer(ConeVolume(volume));
      } else {
        mImmediate := mImmediate.(coneVolume := volume);
        if mSource.Some? {
          SetAl(mSource.value.params.(outerGain := mParent.env.gainOf(volume)));
        }
      }
      return DsOk;
    }

    /** Buffer3D::SetMinDistance, src/buffer.cpp:1947-1973. */
    method SetMinDistance(d: real, deferred: bool) returns (hr: HResult)
      requires Is3D() && Valid(Rolloff())
      modifies this`mImmediate, this`mDeferred, this`mDirty, this`mSource, this`pending
      ensures Valid(Rolloff()) && hr == if d < 0.0 then InvalidParam else DsOk
      ensures if hr == DsOk then Wrote(MinDistance(d), deferred) else Kept()
      ensures hr == DsOk && !deferred ==>
                && mImmediate == old(mImmediate).(minDistance := d)
                && (mSource.Some? ==> mSource.value.params.referenceDistance == d)
    {
      if !(d >= 0.0) { return InvalidParam; }
      if deferred {
        Defer(MinDistance(d));
      } else {
        mImmediate := mImmediate.(minDistance := d);
        if mSource.Some? {
          SetAl(mSource.value.params.(referenceDistance := d));
        }
      }
      return DsOk;
    }

    /** Buffer3D::SetMaxDistance, src/buffer.cpp:1917-1943. */
    method SetMaxDistance(d: real, deferred: bool) returns (hr: HResult)
      requires Is3D() && Valid(Rolloff())
      modifies this`mImmediate, this`mDeferred, this`mDirty, this`mSource, this`pending
      ensures Valid(Rolloff()) && hr == if d < 0.0 then InvalidParam else DsOk
      ensures if hr == DsOk then Wrote(MaxDistance(d), deferred) else Kept()
      ensures hr == DsOk && !deferred ==>
                && mImmediate == old(mImmediate).(maxDistance := d)
                && (mSource.Some? ==> mSource.value.params.maxDistance == d)
    {
      if !(d >= 0.0) { return InvalidParam; }
      if deferred {
        Defer(MaxDistance(d));
      } else {
        mImmediate := mImmediate.(maxDistance := d);
        if mSource.Some? {
          SetAl(mSource.value.params.(maxDistance := d));
        }
      }
      return DsOk;
    }

    /** Buffer3D::SetMode, src/buffer.cpp:1977-2034; None is a mode number outside 0..2. */
    method SetMode3D(mode: Option<Mode>, deferred: bool) returns (hr: HResult)
      requires Is3D() && Valid(Rolloff())
      modifies this`mImmediate, this`mDeferred, this`mDirty, this`mSource, this`pending
      ensures Valid(Rolloff()) && hr == if mode.None? then InvalidParam else DsOk
      ensures if hr == DsOk then Wrote(SetMode(mode.value), deferred) else Kept()
      ensures hr == DsOk && !deferred ==>
                && mImmediate == old(mImmediate).(mode := mode.value)
                && (mSource.Some? ==> mSource.value.params.relative == (mode.value != Normal))
    {
      if mode.None? { return InvalidParam; }
      if deferred {
        Defer(SetMode(mode.value));
      } else {
        mImmediate := mImmediate.(mode := mode.value);
        if mSource.Some? {
          PushMode(mode.value);
        }
      }
      return DsOk;
    }

    /** The AL calls a change of mode makes, src/buffer.cpp:1521-1548 and 1987-2022. */
    method PushMode(mode: Mode)
      requires mSource.Some? && mode == mImmediate.mode
      modifies this`mSource
      ensures mSource.Some? && mSource.value.state == old(mSource.value.state)
      ensures var p, q := mSource.value.params, old(mSource.value.params);
              && ShowsPlacement(p, mParent.env, mImmediate, Rolloff()) && p.relative == (mode != Normal)
              && p == q.(position := p.position, velocity := p.velocity, direction := p.direction,
                         rolloff := p.rolloff, spatialize := p.spatialize, relative := p.relative)
    {
      var p := mSource.value.params;
      if mode == Disable {
        p := p.(position := AHEAD, velocity := ORIGIN, direction := ORIGIN, rolloff := 0.0);
        if mParent.env.hasSpatialize {
          p := p.(spatialize := Off);
        }
      } else {
        p := p.(position := Flip(mImmediate.position));
        p := p.(velocity := Flip(mImmediate.velocity));
        p := p.(direction := Flip(mImmediate.orientation));
        p := p.(rolloff := Rolloff());
        if mParent.env.hasSpatialize {
          p := p.(spatialize := On);
        }
      }
      SetAl(p.(relative := mode != Normal));
    }

    /** Buffer3D::SetAllParameters, src/buffer.cpp:1754-1814; the mode is `mode`, None for a number
        outside 0..2. */
    method SetAllParameters(others: Params, mode: Option<Mode>, deferred: bool) returns (hr: HResult)
      requires Is3D() && Valid(Rolloff())
      modifies this`mImmediate, this`mDeferred, this`mDirty, this`mSource, this`pending
      ensures Valid(Rolloff())
      ensures hr == if others.insideAngle > 360 || others.outsideAngle > 360 then InvalidParam
                    else if others.coneVolume > 0 || others.coneVolume < -10000 then InvalidParam
                    else if others.minDistance < 0.0 || others.maxDistance < 0.0 || mode.None? then InvalidParam
                    else DsOk
      ensures if hr == DsOk then Wrote(All(others.(mode := mode.value)), deferred) else Kept()
      ensures hr == DsOk && !deferred ==> mImmediate == others.(mode := mode.value)
    {
      if !ParamsInRange(others) || mode.None? { return InvalidParam; }
      var p := others.(mode := mode.value);
      if deferred {
        Defer(All(p));
      } else {
        SetParams(p, ALL_FLAGS);
      }
      return DsOk;
    }

    /** src/buffer.cpp:1473-1491 */
    static method CopyParams(before: Params, params: Params, flags: set<Flag>) returns (imm: Params)
      ensures imm == CopyFlagged(before, params, flags)
    {
      imm := before;
      imm := if FPosition in flags then imm.(position := params.position) else imm;
      imm := if FVelocity in flags then imm.(velocity := params.velocity) else imm;
      imm := if FConeAngles in flags
             then imm.(insideAngle := params.insideAngle, outsideAngle := params.outsideAngle) else imm;
      imm := if FConeOrientation in flags then imm.(orientation := params.orientation) else imm;
      imm := if FConeVolume in flags then imm.(coneVolume := params.coneVolume) else imm;
      imm := if FMinDistance in flags then imm.(minDistance := params.minDistance) else imm;
      imm := if FMaxDistance in flags then imm.(maxDistance := params.maxDistance) else imm;
      imm := if FMode in flags then imm.(mode := params.mode) else imm;
    }

    /** Buffer::setParams, src/buffer.cpp:1470-1549. */
    method SetParams(params: Params, flags: set<Flag>)
      requires Is3D() && Coherent(Rolloff())
      modifies this`mImmediate, this`mSource
      ensures Coherent(Rolloff())
      ensures mImmediate == CopyFlagged(old(mImmediate), params, flags)
      ensures mSource.Some? == old(mSource.Some?) && IsPlaying() == old(IsPlaying())
    {
      mImmediate := CopyParams(mImmediate, params, flags);

      if mSource.Some? {
        PushParams(old(mImmediate), params, flags);
      }
    }

    /** The AL calls of setParams, src/buffer.cpp:1493-1548: enough of them to take a source from
        showing the old settings to showing the new ones. */
    method PushParams(ghost before: Params, params: Params, flags: set<Flag>)
      requires Is3D() && mSource.Some? && mImmediate == CopyFlagged(before, params, flags)
      modifies this`mSource
      ensures mSource.Some? && mSource.value.state == old(mSource.value.state)
      ensures mSource.value.params.gain == old(mSource.value.params.gain)
      ensures mSource.value.params.pitch == old(mSource.value.params.pitch)
      ensures old(Shows3D(mSource.value.params, mParent.env, before, Rolloff())) ==>
                Shows3D(mSource.value.params, mParent.env, mImmediate, Rolloff())
    {
      if mImmediate.mode != Disable {
        PushMotion(params, flags);
      }
      PushShape(params, flags);
      if FMode in flags {
        PushMode(params.mode);
      }
    }

    /** src/buffer.cpp:1496-1506 */
    method PushMotion(params: Params, flags: set<Flag>)
      requires mSource.Some?
      modifies this`mSource
      ensures mSource == Some(old(mSource.value).(params := old(mSource.value.params).(
                position := if FPosition in flags then Flip(params.position) else old(mSource.value.params.position),
                velocity := if FVelocity in flags then Flip(params.velocity) else old(mSource.value.params.velocity),
                direction := if FConeOrientation in flags then Flip(params.orientation)
                             else old(mSource.value.params.direction))))
    {
      if FPosition in flags { SetAl(mSource.value.params.(position := Flip(params.position))); }
      if FVelocity in flags { SetAl(mSource.value.params.(velocity := Flip(params.velocity))); }
      if FConeOrientation in flags { SetAl(mSource.value.params.(direction := Flip(params.orientation))); }
    }

    /** src/buffer.cpp:1508-1521 */
    method PushShape(params: Params, flags: set<Flag>)
      requires mSource.Some?
      modifies this`mSource
      ensures mSource == Some(old(mSource.value).(params := old(mSource.value.params).(
                innerAngle := if FConeAngles in flags then params.insideAngle else old(mSource.value.params.innerAngle),
                outerAngle := if FConeAngles in flags then params.outsideAngle
                              else old(mSource.value.params.outerAngle),
                outerGain := if FConeVolume in flags then mParent.env.gainOf(params.coneVolume)
                             else old(mSource.value.params.outerGain),
                referenceDistance := if FMinDistance in flags then params.minDistance
                                     else old(mSource.value.params.referenceDistance),
                maxDistance := if FMaxDistance in flags then params.maxDistance
                               else old(mSource.value.params.maxDistance))))
    {
      if FConeAngles in flags {
        SetAl(mSource.value.params.(innerAngle := params.insideAngle, outerAngle := params.outsideAngle));
      }
      if FConeVolume in flags { SetAl(mSource.value.params.(outerGain := mParent.env.gainOf(params.coneVolume))); }
      if FMinDistance in flags { SetAl(mSource.value.params.(referenceDistance := params.minDistance)); }
      if FMaxDistance in flags { SetAl(mSource.value.params.(maxDistance := params.maxDistance)); }
    }

    /** Buffer::commit, src/buffer.h:284-288. */
    method Commit()
      requires Is3D() && Valid(Rolloff())
      modifies this`mImmediate, this`mSource, this`mDirty, this`pending, this`stale
      ensures Valid(Rolloff()) && pending == [] && mDirty == {}
      ensures mImmediate == Replay(old(mImmediate), old(pending))
      ensures mSource.Some? == old(mSource.Some?) && IsPlaying() == old(IsPlaying())
    {
      CopyIsReplay(mImmediate, stale, pending);
      var flags := mDirty;
      mDirty := {};
      if flags != {} {
        SetParams(mDeferred, flags);
      }
      pending, stale := [], mDeferred;
    }
  }

  /** The range checks of Buffer3D::SetAllParameters. */
  predicate ParamsInRange(p: Params) {
    && p.insideAngle <= 360 && p.outsideAngle <= 360
    && -10000 <= p.coneVolume <= 0
    && p.minDistance >= 0.0 && p.maxDistance >= 0.0
  }

  /** A counter after a place was given back, or not. */
  function Returned(n: nat, gave: bool): nat {
    if gave then (n + TWO_32 - 1) % TWO_32 else n
  }

  /** Hardware comes first, unless software is asked for, and software only if hardware has no room, unless it
      is asked for.  A buffer that has a place and moves asks for the other pool, so that it never matters
      whether its own place has been given back. */
  predicate FirstFit(loc: LocStatus, request: LocStatus, hwRoom: bool, swRoom: bool) {
    && (loc == Hardware <==> request != Software && hwRoom)
    && (loc == Software <==> request != Hardware && swRoom && (request == Software || !hwRoom))
  }

  /** A counter followed a buffer that held a place before, or after, or both. */
  predicate Moved(before: nat, after: nat, held: bool, holds: bool) {
    after == if held == holds then before else if held then Returned(before, true) else (before + 1) % TWO_32
  }

  /** A counter gains or loses the one place, in 32 bits, or stays. */
  lemma MovedIs(before: nat, after: nat, held: bool)
    ensures Moved(before, after, false, true) <==> after == (before + 1) % 0x1_0000_0000
    ensures Moved(before, after, true, false) <==> after == (before + 0xFFFF_FFFF) % 0x1_0000_0000
    ensures Moved(before, after, held, held) <==> after == before
  {
  }

  /** std::remove followed by erase: every occurrence goes. */
  function Removed(s: seq<Buffer>, b: Buffer): (r: seq<Buffer>)
    ensures (set x | x in r) == (set x | x in s) - {b}
    ensures b !in s ==> r == s
  {
    if s == [] then []
    else
      assert (set x | x in s) == {s[0]} + set x | x in s[1..];
      var rest := Removed(s[1..], b);
      if s[0] == b then rest
      else
        assert (set x | x in [s[0]] + rest) == {s[0]} + set x | x in rest;
        [s[0]] + rest
  }

  /** DSSCL_NORMAL to DSSCL_WRITEPRIMARY of dsound.h. */
  const NORMAL: nat := 1
  const PRIORITY: nat := 2
  const WRITEPRIMARY: nat := 4

  const NO_CAPS := Caps(false, false, false, false, false, false, false, false)

  /** Listener settings as OpenAL holds them. */
  datatype AlListener = AlListener(
    position: Vec, velocity: Vec, front: Vec, top: Vec, speedOfSound: real, metersPerUnit: real, doppler: real)

  /** 343.3 units a second for a distance factor of 1; no factor is 0. */
  function SpeedOfSound(factor: real): real {
    if factor == 0.0 then 0.0 else 343.3 / factor
  }

  lemma SpeedTimesFactor(factor: real)
    requires factor != 0.0
    ensures SpeedOfSound(factor) * factor == 343.3
  {
  }

  /** OpenAL's listener shows the settings: z is negated, and sound travels 343.3 meters a second, in units
      of the distance factor.  Without EXT_EFX OpenAL keeps its own number of meters per unit. */
  predicate ShowsListener(al: AlListener, p: Listener, hasEfx: bool) {
    && al.position == Vec(p.position.x, p.position.y, -p.position.z)
    && al.velocity == Vec(p.velocity.x, p.velocity.y, -p.velocity.z)
    && al.front == Vec(p.front.x, p.front.y, -p.front.z) && al.top == Vec(p.top.x, p.top.y, -p.top.z)
    && (p.distanceFactor != 0.0 ==> al.speedOfSound * p.distanceFactor == 343.3)
    && (hasEfx ==> al.metersPerUnit == p.distanceFactor) && al.doppler == p.dopplerFactor
  }

  /** OpenAL's listener after the calls of PrimaryBuffer::setParams for some flags. */
  function PushedListener(al: AlListener, params: Listener, flags: set<LFlag>, hasEfx: bool): AlListener {
    AlListener(
      if LPosition in flags then Flip(params.position) else al.position,
      if LVelocity in flags then Flip(params.velocity) else al.velocity,
      if LOrientation in flags then Flip(params.front) else al.front,
      if LOrientation in flags then Flip(params.top) else al.top,
      if LDistance in flags then SpeedOfSound(params.distanceFactor) else al.speedOfSound,
      if LDistance in flags && hasEfx then params.distanceFactor else al.metersPerUnit,
      if LDoppler in flags then params.dopplerFactor else al.doppler)
  }

  /** The calls are enough: a listener that shows the old settings shows the new ones, and after all of
      the calls any listener does. */
  lemma PushedShows(al: AlListener, before: Listener, params: Listener, flags: set<LFlag>, hasEfx: bool)
    requires ShowsListener(al, before, hasEfx) || flags == ALL_LFLAGS
    ensures ShowsListener(PushedListener(al, params, flags, hasEfx), LCopyFlagged(before, params, flags), hasEfx)
  {
    if params.distanceFactor != 0.0 { SpeedTimesFactor(params.distanceFactor); }
  }

  /** A source after the listener's rolloff was pushed to it, src/primarybuffer.cpp:701-708. */
  function Rolled(source: Option<AlSource>, mode: Mode, rolloff: real): Option<AlSource> {
    if source.Some? && mode != Disable
    then Some(source.value.(params := source.value.params.(rolloff := rolloff))) else source
  }

  class PrimaryBuffer {
    /** Whether the device has EXT_EFX. */
    const hasEfx: bool
    var mFlags: Option<Caps>
    var mFormat: Format
    var mImmediate: Listener
    var mDeferred: Listener
    var mDirty: set<LFlag>
    var mWriteEmu: Buffer?
    var mPlaying: bool
    var alListener: AlListener

    ghost var pending: seq<LWrite>
    ghost var stale: Listener

    /** mDirty and mDeferred stand for the pending writes, and once the buffer is initialized the
        OpenAL listener shows the current settings. */
    ghost predicate Valid()
      reads this`mDirty, this`mDeferred, this`pending, this`stale, this`mFlags, this`alListener, this`mImmediate
    {
      && mDirty == LWritten(pending) && mDeferred == LReplay(stale, pending)
      && (mFlags.Some? ==> ListenerShows())
    }

    ghost predicate ListenerShows()
      reads this`alListener, this`mImmediate
    {
      ShowsListener(alListener, mImmediate, hasEfx)
    }

    constructor (hasEfx: bool)
      ensures Valid() && mFlags.None? && mWriteEmu == null && !mPlaying
      ensures mFormat == Format(Pcm, 2, 44100, 4, 16, 176400, true)
      ensures this.hasEfx == hasEfx
    {
      this.hasEfx := hasEfx;
      mFlags, mWriteEmu, mPlaying := None, null, false;
      mFormat := Format(Pcm, 2, 44100, 4, 16, 176400, true);
      var zero := Listener(ORIGIN, ORIGIN, ORIGIN, ORIGIN, 0.0, 0.0, 0.0);
      mImmediate, mDeferred, mDirty, pending, stale := zero, zero, {}, [], zero;
      alListener := AlListener(ORIGIN, ORIGIN, ORIGIN, ORIGIN, 343.3, 1.0, 1.0);
    }

    /** The loop that pushes a new rolloff to every 3D buffer, src/primarybuffer.cpp:699-709 and
        1068-1077. */
    method PushRolloff(ds: DSound8OAL, rolloff: real)
      modifies (set b | b in ds.m3dBuffers)`mSource
      ensures forall b :: b in ds.m3dBuffers ==> b.mSource == Rolled(old(b.mSource), b.mImmediate.mode, rolloff)
    {
      for i := 0 to |ds.m3dBuffers|
        invariant forall b :: b in ds.m3dBuffers ==>
          b.mSource == if b in ds.m3dBuffers[..i] then Rolled(old(b.mSource), b.mImmediate.mode, rolloff)
                       else old(b.mSource)
      {
        var b := ds.m3dBuffers[i];
        if b.mImmediate.mode != Disable {
          if b.mSource.Some? {
            b.SetAl(b.mSource.value.params.(rolloff := rolloff));
          }
        }
      }
    }

    /** Every listed buffer is a 3D buffer of ds that shows the current rolloff. */
    ghost predicate Listens(ds: DSound8OAL)
      reads this`mImmediate, ds`m3dBuffers, ds.m3dBuffers
    {
      && ds.mPrimaryBuffer == this
      && forall b :: b in ds.m3dBuffers ==>
           b.mParent == ds && b.Is3D() && b.Valid(mImmediate.rolloffFactor)
    }

    /** Nothing but source parameters changed in the listed buffers. */
    twostate predicate OnlySources(ds: DSound8OAL)
      reads ds`m3dBuffers, ds.m3dBuffers`mSource
    {
      && ds.m3dBuffers == old(ds.m3dBuffers)
      && forall b :: b in ds.m3dBuffers ==>
           b.mSource.Some? == old(b.mSource.Some?) && b.IsPlaying() == old(b.IsPlaying())
    }

    /** src/primarybuffer.cpp:664-678 */
    static method CopyListener(before: Listener, params: Listener, flags: set<LFlag>) returns (imm: Listener)
      ensures imm == LCopyFlagged(before, params, flags)
    {
      imm := before;
      imm := if LPosition in flags then imm.(position := params.position) else imm;
      imm := if LVelocity in flags then imm.(velocity := params.velocity) else imm;
      imm := if LOrientation in flags then imm.(front := params.front, top := params.top) else imm;
      imm := if LDistance in flags then imm.(distanceFactor := params.distanceFactor) else imm;
      imm := if LRolloff in flags then imm.(rolloffFactor := params.rolloffFactor) else imm;
      imm := if LDoppler in flags then imm.(dopplerFactor := params.dopplerFactor) else imm;
    }

    /** src/primarybuffer.cpp:680-698, 710-711 */
    method PushListener(params: Listener, flags: set<LFlag>)
      modifies this`alListener
      ensures alListener == PushedListener(old(alListener), params, flags, hasEfx)
    {
      var al := alListener;
      al := if LPosition in flags then al.(position := Flip(params.position)) else al;
      al := if LVelocity in flags then al.(velocity := Flip(params.velocity)) else al;
      al := if LOrientation in flags then al.(front := Flip(params.front), top := Flip(params.top)) else al;
      if LDistance in flags {
        al := al.(speedOfSound := SpeedOfSound(params.distanceFactor));
        if hasEfx { al := al.(metersPerUnit := params.distanceFactor); }
      }
      al := if LDoppler in flags then al.(doppler := params.dopplerFactor) else al;
      alListener := al;
    }

    /** A 3D buffer that is given a new rolloff shows it. */
    twostate lemma Follows(b: Buffer, new before: real, new rolloff: real)
      requires old(b.Is3D() && b.Valid(before)) && b.mSource == Rolled(old(b.mSource), b.mImmediate.mode, rolloff)
      requires unchanged(b`mBuffer, b`mBufferLost, b`mVolume, b`mPan, b`mFrequency, b`mImmediate, b`mDeferred)
      requires unchanged(b`mDirty, b`mLocStatus, b`mIsInitialized, b`pending, b`stale)
      ensures b.Valid(rolloff) && b.mSource.Some? == old(b.mSource.Some?) && b.IsPlaying() == old(b.IsPlaying())
    {
    }

    /** PrimaryBuffer::setParams, src/primarybuffer.cpp:662-712. */
    method SetParams(ds: DSound8OAL, params: Listener, flags: set<LFlag>)
      requires Listens(ds)
      modifies this`mImmediate, this`alListener, (set b | b in ds.m3dBuffers)`mSource
      ensures mImmediate == LCopyFlagged(old(mImmediate), params, flags)
      ensures old(ListenerShows()) || flags == ALL_LFLAGS ==> ListenerShows()
      ensures Listens(ds) && OnlySources(ds)
    {
      if ListenerShows() || flags == ALL_LFLAGS {
        PushedShows(alListener, mImmediate, params, flags, hasEfx);
      }
      mImmediate := CopyListener(mImmediate, params, flags);
      PushListener(params, flags);
      if LRolloff in flags {
        PushRolloff(ds, params.rolloffFactor);
        forall b | b in ds.m3dBuffers {
          Follows(b, old(mImmediate.rolloffFactor), params.rolloffFactor);
        }
      }
    }

    /** PrimaryBuffer::commit, src/primarybuffer.cpp:714-725: the listener first, then every 3D
        buffer. */
    method Commit(ds: DSound8OAL)
      requires Listens(ds) && Valid()
      modifies this`mImmediate, this`alListener, this`mDirty, this`pending, this`stale
      modifies (set b | b in ds.m3dBuffers)`mSource, (set b | b in ds.m3dBuffers)`mImmediate
      modifies (set b | b in ds.m3dBuffers)`mDirty, (set b | b in ds.m3dBuffers)`pending
      modifies (set b | b in ds.m3dBuffers)`stale
      ensures Listens(ds) && Valid() && OnlySources(ds)
      ensures mImmediate == LReplay(old(mImmediate), old(pending)) && pending == []
      ensures forall b :: b in ds.m3dBuffers ==>
                b.mImmediate == Replay(old(b.mImmediate), old(b.pending)) && b.pending == []
    {
      LCopyIsReplay(mImmediate, stale, pending);
      var flags := mDirty;
      mDirty := {};
      if flags != {} {
        SetParams(ds, mDeferred, flags);
      }
      pending, stale := [], mDeferred;
      CommitBuffers(ds);
    }

    /** src/primarybuffer.cpp:722-724 */
    method CommitBuffers(ds: DSound8OAL)
      requires Listens(ds)
      modifies (set b | b in ds.m3dBuffers)`mSource, (set b | b in ds.m3dBuffers)`mImmediate
      modifies (set b | b in ds.m3dBuffers)`mDirty, (set b | b in ds.m3dBuffers)`pending
      modifies (set b | b in ds.m3dBuffers)`stale
      ensures Listens(ds) && OnlySources(ds)
      ensures forall b :: b in ds.m3dBuffers ==>
                b.mImmediate == Replay(old(b.mImmediate), old(b.pending)) && b.pending == []
    {
      for i := 0 to |ds.m3dBuffers|
        invariant Listens(ds) && OnlySources(ds)
        invariant forall b :: b in ds.m3dBuffers[..i] ==>
                    b.mImmediate == Replay(old(b.mImmediate), old(b.pending)) && b.pending == []
        invariant forall b :: b in ds.m3dBuffers && b !in ds.m3dBuffers[..i] ==> unchanged(b`mImmediate, b`pending)
      {
        var b := ds.m3dBuffers[i];
        assert b.mParent == ds && b.Is3D() && b.Valid(mImmediate.rolloffFactor);
        b.Commit();
        assert ds.m3dBuffers[..i + 1] == ds.m3dBuffers[..i] + [b];
      }
    }

    /** Listener3D::SetRolloffFactor, src/primarybuffer.cpp:1048-1083. */
    method SetRolloffFactor(ds: DSound8OAL, rolloff: real, deferred: bool) returns (hr: HResult)
      requires Listens(ds) && Valid()
      modifies this`mImmediate, this`mDeferred, this`mDirty, this`pending
      modifies (set b | b in ds.m3dBuffers)`mSource
      ensures Listens(ds) && Valid() && OnlySources(ds)
      ensures hr == if rolloff < 0.0 || rolloff > 10.0 then InvalidParam else DsOk
      ensures LWrote(LRolloffTo(rolloff), hr == DsOk && deferred, hr == DsOk && !deferred)
      ensures hr == DsOk && !deferred ==> mImmediate == old(mImmediate).(rolloffFactor := rolloff)
    {
      if rolloff < 0.0 || rolloff > 10.0 { return InvalidParam; }
      if deferred {
        Defer(LRolloffTo(rolloff));
      } else {
        mImmediate := mImmediate.(rolloffFactor := rolloff);
        PushRolloff(ds, rolloff);
        forall b | b in ds.m3dBuffers {
          Follows(b, old(mImmediate.rolloffFactor), rolloff);
        }
      }
      return DsOk;
    }

    /** Listener3D::SetPosition, src/primarybuffer.cpp:1020-1044. */
    method SetPosition(v: Vec, deferred: bool)
      requires Valid()
      modifies this`mImmediate, this`mDeferred, this`mDirty, this`pending, this`alListener
      ensures Valid() && LWrote(LPositionTo(v), deferred, !deferred)
      ensures !deferred ==>
                mImmediate == old(mImmediate).(position := v) && alListener.position == Vec(v.x, v.y, -v.z)
    {
      if deferred {
        Defer(LPositionTo(v));
      } else {
        mImmediate := mImmediate.(position := v);
        alListener := alListener.(position := Flip(v));
      }
    }

    /** Listener3D::SetVelocity, src/primarybuffer.cpp:1087-1111. */
    method SetVelocity(v: Vec, deferred: bool)
      requires Valid()
      modifies this`mImmediate, this`mDeferred, this`mDirty, this`pending, this`alListener
      ensures Valid() && LWrote(LVelocityTo(v), deferred, !deferred)
      ensures !deferred ==>
                mImmediate == old(mImmediate).(velocity := v) && alListener.velocity == Vec(v.x, v.y, -v.z)
    {
      if deferred {
        Defer(LVelocityTo(v));
      } else {
        mImmediate := mImmediate.(velocity := v);
        alListener := alListener.(velocity := Flip(v));
      }
    }

    /** Listener3D::SetOrientation, src/primarybuffer.cpp:984-1016. */
    method SetOrientation(front: Vec, top: Vec, deferred: bool)
      requires Valid()
      modifies this`mImmediate, this`mDeferred, this`mDirty, this`pending, this`alListener
      ensures Valid() && LWrote(LOrientationTo(front, top), deferred, !deferred)
      ensures !deferred ==>
                && mImmediate == old(mImmediate).(front := front, top := top)
                && alListener.front == Vec(front.x, front.y, -front.z) && alListener.top == Vec(top.x, top.y, -top.z)
    {
      if deferred {
        Defer(LOrientationTo(front, top));
      } else {
        mImmediate := mImmediate.(front := front, top := top);
        alListener := alListener.(front := Flip(front), top := Flip(top));
      }
    }

    /** Listener3D::SetDistanceFactor, src/primarybuffer.cpp:922-951. */
    method SetDistanceFactor(factor: real, deferred: bool) returns (hr: HResult)
      requires Valid()
      modifies this`mImmediate, this`mDeferred, this`mDirty, this`pending, this`alListener
      ensures Valid()
      ensures hr == if 0.0000000000000000000000000000000000000117549435 <= factor
                       <= 340282346638528859811704183484516925440.0 then DsOk else InvalidParam
      ensures LWrote(LDistanceTo(factor), hr == DsOk && deferred, hr == DsOk && !deferred)
      ensures hr == DsOk && !deferred ==>
                && mImmediate == old(mImmediate).(distanceFactor := factor)
                && alListener.speedOfSound * factor == 343.3 && (hasEfx ==> alListener.metersPerUnit == factor)
    {
      if factor < MIN_DISTANCE_FACTOR || factor > MAX_DISTANCE_FACTOR { return InvalidParam; }
      if deferred {
        Defer(LDistanceTo(factor));
      } else {
        mImmediate := mImmediate.(distanceFactor := factor);
        SpeedTimesFactor(factor);
        alListener := alListener.(speedOfSound := SpeedOfSound(factor));
        if hasEfx { alListener := alListener.(metersPerUnit := factor); }
      }
      return DsOk;
    }

    /** Listener3D::SetDopplerFactor, src/primarybuffer.cpp:955-980. */
    method SetDopplerFactor(factor: real, deferred: bool) returns (hr: HResult)
      requires Valid()
      modifies this`mImmediate, this`mDeferred, this`mDirty, this`pending, this`alListener
      ensures Valid() && hr == if 0.0 <= factor <= 10.0 then DsOk else InvalidParam
      ensures LWrote(LDopplerTo(factor), hr == DsOk && deferred, hr == DsOk && !deferred)
      ensures hr == DsOk && !deferred ==>
                mImmediate == old(mImmediate).(dopplerFactor := factor) && alListener.doppler == factor
    {
      if factor < 0.0 || factor > 10.0 { return InvalidParam; }
      if deferred {
        Defer(LDopplerTo(factor));
      } else {
        mImmediate := mImmediate.(dopplerFactor := factor);
        alListener := alListener.(doppler := factor);
      }
      return DsOk;
    }

    /** Listener3D::SetAllParameters, src/primarybuffer.cpp:871-918. */
    method SetAllParameters(ds: DSound8OAL, p: Listener, deferred: bool) returns (hr: HResult)
      requires Listens(ds) && Valid()
      modifies this`mImmediate, this`mDeferred, this`mDirty, this`pending, this`alListener
      modifies (set b | b in ds.m3dBuffers)`mSource
      ensures Listens(ds) && Valid() && OnlySources(ds)
      ensures hr == if p.distanceFactor < MIN_DISTANCE_FACTOR || p.distanceFactor > MAX_DISTANCE_FACTOR
                    then InvalidParam
                    else if p.dopplerFactor < 0.0 || p.dopplerFactor > 10.0 then InvalidParam
                    else if p.rolloffFactor < 0.0 || p.rolloffFactor > 10.0 then InvalidParam else DsOk
      ensures LWrote(LAll(p), hr == DsOk && deferred, hr == DsOk && !deferred)
      ensures hr == DsOk && !deferred ==> mImmediate == p
    {
      if !ListenerInRange(p) { return InvalidParam; }
      if deferred {
        Defer(LAll(p));
      } else {
        SetParams(ds, p, ALL_LFLAGS);
      }
      return DsOk;
    }

    /** A listener setter joins the log, or takes effect at once, or was refused. */
    twostate predicate LWrote(w: LWrite, joins: bool, applies: bool)
      reads this
    {
      && mImmediate == (if applies then LApply(old(mImmediate), w) else old(mImmediate))
      && pending == (if joins then old(pending) + [w] else old(pending))
    }

    /** The deferred half of every listener setter. */
    method Defer(w: LWrite)
      requires mDirty == LWritten(pending) && mDeferred == LReplay(stale, pending)
      modifies this`mDeferred, this`mDirty, this`pending
      ensures mDirty == LWritten(pending) && mDeferred == LReplay(stale, pending)
      ensures pending == old(pending) + [w]
    {
      mDeferred := LApply(mDeferred, w);
      mDirty := mDirty + w.Fields();
      assert (pending + [w])[..|pending|] == pending;
      pending := pending + [w];
    }

    // -------------------------------------------------------------------------------------
    // Writing to the primary buffer

    /** The emulation buffer ds owns while its level is DSSCL_WRITEPRIMARY; it is flat, so that it is
        valid whatever the listener's rolloff. */
    ghost predicate EmuOf(ds: DSound8OAL)
      reads this`mWriteEmu, mWriteEmu
    {
      || mWriteEmu == null
      || (mWriteEmu.mParent == ds && !mWriteEmu.mBufferLost
          && mWriteEmu.mIsInitialized && mWriteEmu.mBuffer != null && !mWriteEmu.Is3D()
          && !mWriteEmu.mBuffer.caps.locDefer && mWriteEmu.mLocStatus == Hardware
          && forall r :: mWriteEmu.Valid(r))
    }

    function Emu(): set<Buffer>
      reads this`mWriteEmu
    {
      if mWriteEmu == null then {} else {mWriteEmu}
    }

    predicate EmuAt(loc: LocStatus)
      reads this`mWriteEmu, Emu()`mLocStatus
    {
      mWriteEmu != null && mWriteEmu.mLocStatus == loc
    }

    /** The description of an emulation buffer, src/primarybuffer.cpp:41-45. */
    function EmuDesc(ctrlPan: bool): BufferDesc
      requires mFormat.blockAlign > 0
      reads this`mFormat
    {
      BufferDesc(NO_CAPS.(locHardware := true, ctrlPan := ctrlPan),
                 PRIMARY_SIZE - PRIMARY_SIZE % mFormat.blockAlign, Some(mFormat))
    }

    /** What comes of creating one: its description has to be accepted, and the hardware pool must have
        room for it. */
    function EmuStatus(ctrlPan: bool, room: bool): HResult
      requires mFormat.blockAlign > 0
      reads this`mFormat
    {
      if CreateStatus(EmuDesc(ctrlPan), mFormat) != DsOk then CreateStatus(EmuDesc(ctrlPan), mFormat)
      else if room then DsOk else Allocated
    }

    /** The size asked for is the greatest number of whole blocks in 32768 bytes. */
    lemma EmuSize(ctrlPan: bool)
      requires mFormat.blockAlign > 0
      ensures var n, align := EmuDesc(ctrlPan).bufferBytes, mFormat.blockAlign;
              n % align == 0 && n <= 32768 < n + align && (align <= 32768 ==> RoundedSize(n, align) == n)
    {
      FloorMultiple(PRIMARY_SIZE, mFormat.blockAlign);
      if mFormat.blockAlign <= 32768 {
        var n := EmuDesc(ctrlPan).bufferBytes;
        RoundedSizeExact(n, mFormat.blockAlign);
        assert RoundedSize(n, mFormat.blockAlign) <= n;
      }
    }

    /** The format fits an emulation buffer: whole bytes in every sample, one sample for each channel in a
        block, a rate DirectSound has, and at least one block in 32768 bytes. */
    predicate Emulable()
      reads this`mFormat
    {
      && mFormat.channels > 0 && mFormat.bitsPerSample > 0 && mFormat.bitsPerSample % 8 == 0
      && mFormat.blockAlign == mFormat.channels * (mFormat.bitsPerSample / 8) && mFormat.blockAlign <= 32768
      && 100 <= mFormat.samplesPerSec <= 200000 && mFormat.avgBytesPerSec > 0 && mFormat.convertible
    }

    /** It can be created if and only if the format fits and the hardware pool has room. */
    lemma EmuSucceedsIff(ctrlPan: bool, room: bool)
      requires mFormat.blockAlign > 0
      ensures EmuStatus(ctrlPan, room) == DsOk <==> Emulable() && room
    {
      EmuSize(ctrlPan);
      var f, desc := mFormat, EmuDesc(ctrlPan);
      if f.bitsPerSample > 0 && f.bitsPerSample % 8 == 0 && f.blockAlign == f.channels * (f.bitsPerSample / 8) {
        WholeSamples(desc, f, f.bitsPerSample / 8);
        if f.blockAlign > 32768 { NoBlockFits(PRIMARY_SIZE, f.blockAlign); }
      } else {
        forall n: nat {:trigger Blocks(f, n)} | 0 < n && f.bitsPerSample == 8 * n ensures !Blocks(f, n) {}
        BrokenSamples(desc, f);
      }
    }

    /** Whether the hardware pool has room once the emulation buffer is gone. */
    predicate EmuRoom(shared: SharedDevice)
      reads this`mWriteEmu, Emu()`mLocStatus, shared`hw
    {
      Returned(shared.hw, EmuAt(Hardware)) != shared.maxHw
    }

    /** The emulation buffer and its storage are the old ones, or new, or gone. */
    twostate predicate EmuRenewed()
      reads this`mWriteEmu, mWriteEmu
    {
      fresh(Emu() - old(Emu())) && fresh(Storage(mWriteEmu) - old(Storage(mWriteEmu)))
    }

    /** PrimaryBuffer::destroyWriteEmu, src/primarybuffer.cpp:57-58. */
    method DestroyWriteEmu(ds: DSound8OAL)
      requires ds.mPrimaryBuffer == this && EmuOf(ds)
      modifies this`mWriteEmu, mWriteEmu, ds.mShared, ds`m3dBuffers
      modifies Storage(mWriteEmu)`mRef
      ensures mWriteEmu == null && ds.m3dBuffers == old(ds.m3dBuffers)
      ensures ds.mShared.hw == Returned(old(ds.mShared.hw), old(EmuAt(Hardware)))
      ensures ds.mShared.sw == Returned(old(ds.mShared.sw), old(EmuAt(Software)))
    {
      if mWriteEmu != null {
        mWriteEmu.Destroy();
        mWriteEmu := null;
      }
    }

    /** PrimaryBuffer::createWriteEmu, src/primarybuffer.cpp:39-55. */
    method CreateWriteEmu(ds: DSound8OAL, ctrlPan: bool) returns (hr: HResult)
      requires ds.mPrimaryBuffer == this && mWriteEmu == null && mFormat.blockAlign > 0
      modifies this`mWriteEmu, ds.mShared, ds`m3dBuffers
      ensures EmuOf(ds) && ds.m3dBuffers == old(ds.m3dBuffers)
      ensures hr == EmuStatus(ctrlPan, old(EmuRoom(ds.mShared)))
      ensures if hr == DsOk then mWriteEmu != null && fresh(mWriteEmu) && fresh(mWriteEmu.mBuffer)
              else mWriteEmu == null
      ensures hr == DsOk <==> Emulable() && old(EmuRoom(ds.mShared))
      ensures hr == DsOk ==> var n, align := mWriteEmu.mBuffer.size, mFormat.blockAlign;
                             n % align == 0 && n <= 32768 < n + align
      ensures hr == DsOk ==> mWriteEmu.mBuffer.caps == Caps(false, ctrlPan, false, false, false, false, true, false)
    {
      EmuSize(ctrlPan);
      EmuSucceedsIff(ctrlPan, EmuRoom(ds.mShared));
      var emu := new Buffer(ds, 0, 0, null);
      hr := emu.FirstInitialize(Some(EmuDesc(ctrlPan)));
      if hr != DsOk {
        emu.Destroy();
      } else {
        emu.FlatAnyRolloff(emu.Rolloff());
        mWriteEmu := emu;
      }
    }

    /** Replace the emulation buffer, or lose it. */
    method RenewWriteEmu(ds: DSound8OAL, ctrlPan: bool) returns (hr: HResult)
      requires ds.mPrimaryBuffer == this && EmuOf(ds) && mFormat.blockAlign > 0
      modifies this`mWriteEmu, mWriteEmu, ds.mShared, ds`m3dBuffers
      modifies Storage(mWriteEmu)`mRef
      ensures EmuOf(ds) && ds.m3dBuffers == old(ds.m3dBuffers)
      ensures hr == EmuStatus(ctrlPan, old(EmuRoom(ds.mShared)))
      ensures if hr == DsOk then mWriteEmu != null && fresh(mWriteEmu) && fresh(mWriteEmu.mBuffer)
              else mWriteEmu == null
      ensures old(Listens(ds)) && old(mWriteEmu) !in ds.m3dBuffers ==> Listens(ds) && OnlySources(ds)
    {
      DestroyWriteEmu(ds);
      hr := CreateWriteEmu(ds, ctrlPan);
    }

    /** PrimaryBuffer::AddRef from no reference at all, src/primarybuffer.cpp:103-111: the buffer may
        be initialized again. */
    method FirstReference()
      requires Valid()
      modifies this`mFlags
      ensures Valid() && mFlags.None?
    {
      mFlags := None;
    }

    /** Nothing is deferred any more. */
    method ForgetDeferred(p: Listener)
      modifies this`mDeferred, this`mDirty, this`pending, this`stale
      ensures mDirty == LWritten(pending) && mDeferred == LReplay(stale, pending) && pending == []
    {
      mDeferred, mDirty, pending, stale := p, {}, [], p;
    }

    /** New settings and the push of all of them, src/primarybuffer.cpp:330-349. */
    method ResetListener(ds: DSound8OAL, p: Listener)
      requires Listens(ds)
      modifies this`mImmediate, this`mDeferred, this`mDirty, this`pending, this`stale, this`alListener
      modifies (set b | b in ds.m3dBuffers)`mSource
      ensures Valid() && mImmediate == p && pending == [] && Listens(ds) && OnlySources(ds)
    {
      ForgetDeferred(p);
      SetParams(ds, p, ALL_LFLAGS);
    }

    /** PrimaryBuffer::Initialize, src/primarybuffer.cpp:297-352; `badFlags` says whether the
        description asks for effects or notifications. */
    method Initialize(ds: DSound8OAL, desc: Option<BufferDesc>, badFlags: bool) returns (hr: HResult)
      requires Valid() && Listens(ds) && EmuOf(ds) && mFormat.blockAlign > 0 && mWriteEmu !in ds.m3dBuffers
      modifies this, mWriteEmu, ds.mShared, ds`m3dBuffers, (set b | b in ds.m3dBuffers)`mSource
      modifies Storage(mWriteEmu)`mRef
      ensures Valid() && Listens(ds) && EmuOf(ds) && mFormat == old(mFormat)
      ensures EmuRenewed() && (mWriteEmu != null && mWriteEmu != old(mWriteEmu) ==> ds.mPrioLevel == WRITEPRIMARY)
      ensures ds.mPrioLevel != WRITEPRIMARY ==> unchanged(ds.mShared)
      ensures hr == if desc.None? || desc.value.format.Some? || desc.value.bufferBytes != 0 || badFlags
                    then InvalidParam
                    else if old(mFlags).Some? then AlreadyInitialized
                    else if ds.mPrioLevel == WRITEPRIMARY
                    then EmuStatus(desc.value.caps.ctrlPan, old(EmuRoom(ds.mShared))) else DsOk
      ensures hr == DsOk ==> DefaultListener(mImmediate) && pending == []
                             && mFlags == Some(desc.value.caps.(locSoftware := false, locHardware := true))
      ensures hr != DsOk ==> mFlags == old(mFlags) && mImmediate == old(mImmediate) && pending == old(pending)
      ensures OnlySources(ds)
    {
      if BadPrimary(desc) || badFlags {
        hr := InvalidParam;
      } else if mFlags.Some? {
        hr := AlreadyInitialized;
      } else {
        hr := FirstInitialize(ds, desc.value.caps);
      }
    }

    /** src/primarybuffer.cpp:321-349 */
    method FirstInitialize(ds: DSound8OAL, caps: Caps) returns (hr: HResult)
      requires Valid() && Listens(ds) && EmuOf(ds) && mFormat.blockAlign > 0 && mWriteEmu !in ds.m3dBuffers
      modifies this, mWriteEmu, ds.mShared, ds`m3dBuffers, (set b | b in ds.m3dBuffers)`mSource
      modifies Storage(mWriteEmu)`mRef
      ensures Valid() && Listens(ds) && EmuOf(ds) && mFormat == old(mFormat) && OnlySources(ds)
      ensures EmuRenewed() && (mWriteEmu != null && mWriteEmu != old(mWriteEmu) ==> ds.mPrioLevel == WRITEPRIMARY)
      ensures ds.mPrioLevel != WRITEPRIMARY ==> unchanged(ds.mShared)
      ensures hr == if ds.mPrioLevel == WRITEPRIMARY then EmuStatus(caps.ctrlPan, old(EmuRoom(ds.mShared))) else DsOk
      ensures mFlags == if hr == DsOk then Some(caps.(locSoftware := false, locHardware := true)) else old(mFlags)
      ensures if hr == DsOk then DefaultListener(mImmediate) && pending == []
              else mImmediate == old(mImmediate) && pending == old(pending)
    {
      hr := RenewIfWriting(ds, caps.ctrlPan);
      if hr == DsOk {
        Accept(ds, caps);
      }
    }

    /** src/primarybuffer.cpp:329-349 */
    method Accept(ds: DSound8OAL, caps: Caps)
      requires Listens(ds) && EmuOf(ds)
      modifies this`mFlags, this`mImmediate, this`mDeferred, this`mDirty, this`pending, this`stale, this`alListener
      modifies (set b | b in ds.m3dBuffers)`mSource
      ensures Valid() && Listens(ds) && EmuOf(ds) && OnlySources(ds)
      ensures mFlags == Some(caps.(locSoftware := false, locHardware := true))
      ensures DefaultListener(mImmediate) && pending == []
    {
      mFlags := Some(caps.(locSoftware := false, locHardware := true));
      ResetListener(ds, LISTENER_DEFAULTS);
    }

    /** src/primarybuffer.cpp:321-327 */
    method RenewIfWriting(ds: DSound8OAL, ctrlPan: bool) returns (hr: HResult)
      requires Listens(ds) && EmuOf(ds) && mFormat.blockAlign > 0 && mWriteEmu !in ds.m3dBuffers
      modifies this`mWriteEmu, mWriteEmu, ds.mShared, ds`m3dBuffers
      modifies Storage(mWriteEmu)`mRef
      ensures Listens(ds) && EmuOf(ds) && OnlySources(ds)
      ensures EmuRenewed() && (mWriteEmu != null && mWriteEmu != old(mWriteEmu) ==> ds.mPrioLevel == WRITEPRIMARY)
      ensures hr == if ds.mPrioLevel == WRITEPRIMARY then EmuStatus(ctrlPan, old(EmuRoom(ds.mShared))) else DsOk
      ensures ds.mPrioLevel != WRITEPRIMARY ==> unchanged(ds.mShared)
    {
      hr := DsOk;
      if ds.mPrioLevel == WRITEPRIMARY {
        hr := RenewWriteEmu(ds, ctrlPan);
      }
    }

    /** PrimaryBuffer::SetFormat, src/primarybuffer.cpp:400-558, for a pointer that is not null. */
    method SetFormat(ds: DSound8OAL, format: Format) returns (hr: HResult)
      requires ds.mPrimaryBuffer == this && EmuOf(ds) && mFormat.blockAlign > 0
      modifies this`mFormat, this`mWriteEmu, mWriteEmu, ds.mShared, ds`m3dBuffers
      modifies Storage(mWriteEmu)`mRef
      ensures EmuOf(ds) && mFormat.blockAlign > 0 && ds.m3dBuffers == old(ds.m3dBuffers)
      ensures EmuRenewed() && (old(mWriteEmu) == null ==> mWriteEmu == null)
      ensures hr == if ds.mPrioLevel < 2 then PrioLevelNeeded
                    else if format.tag.Extensible? && format.tag.extraSize < 22 then DsOk
                    else if !PrimaryAccepts(format) then InvalidParam
                    else if old(mWriteEmu) == null then DsOk
                    else EmuStatus(mFlags.Some? && mFlags.value.ctrlPan, old(EmuRoom(ds.mShared)))
      ensures if ds.mPrioLevel < 2 || (format.tag.Extensible? && format.tag.extraSize < 22) || !PrimaryAccepts(format)
              then mFormat == old(mFormat)
              else if !format.tag.Extensible? then mFormat == format
              else mFormat == format.(tag := format.tag.(
                     extraSize := 22,
                     validBits := if format.tag.validBits == 0 then format.bitsPerSample else format.tag.validBits))
    {
      if ds.mPrioLevel < PRIORITY { return PrioLevelNeeded; }
      if TooShort(format) { return DsOk; }
      if !PrimaryAccepts(format) { return InvalidParam; }
      mFormat := Stored(format);
      hr := DsOk;
      if mWriteEmu != null {
        hr := RenewWriteEmu(ds, mFlags.Some? && mFlags.value.ctrlPan);
      }
    }

    /** PrimaryBuffer::Play, src/primarybuffer.cpp:369-388. */
    method Play(ds: DSound8OAL, looping: bool, priority: nat, locHardware: bool, locSoftware: bool, starts: bool)
      returns (hr: HResult)
      requires ds.mPrimaryBuffer == this && EmuOf(ds)
      modifies this`mPlaying, Emu()`mSource, Emu()`mLocStatus, ds.mShared
      ensures EmuOf(ds) && mPlaying == (old(mPlaying) || hr == DsOk)
      ensures hr == if !looping then InvalidParam
                    else if mWriteEmu == null then DsOk
                    else if priority != 0 then InvalidParam
                    else if old(mWriteEmu.IsPlaying()) || starts then DsOk else General
      ensures mWriteEmu != null ==> mWriteEmu.IsPlaying() == (hr == DsOk || old(mWriteEmu.IsPlaying()))
    {
      if !looping { return InvalidParam; }
      hr := DsOk;
      if mWriteEmu != null {
        hr := mWriteEmu.Play(priority, locHardware, locSoftware, starts);
        mWriteEmu.FlatAnyRolloff(mWriteEmu.Rolloff());
      }
      if hr == DsOk { mPlaying := true; }
    }

    /** PrimaryBuffer::Stop, src/primarybuffer.cpp:617-634. */
    method Stop(ds: DSound8OAL)
      requires ds.mPrimaryBuffer == this && EmuOf(ds)
      modifies this`mPlaying, Emu()`mSource
      ensures EmuOf(ds) && !mPlaying && (mWriteEmu != null ==> !mWriteEmu.IsPlaying())
    {
      if mWriteEmu != null {
        mWriteEmu.Stop();
        mWriteEmu.FlatAnyRolloff(mWriteEmu.Rolloff());
      }
      mPlaying := false;
    }
  }

  const LISTENER_DEFAULTS := Listener(ORIGIN, ORIGIN, Vec(0.0, 0.0, 1.0), Vec(0.0, 1.0, 0.0), 1.0, 1.0, 1.0)

  /** The settings PrimaryBuffer::Initialize gives the listener, src/primarybuffer.cpp:330-346: at the origin
      and at rest, facing along z with y up, and every factor 1. */
  predicate DefaultListener(p: Listener) {
    && p.position == Vec(0.0, 0.0, 0.0) && p.velocity == Vec(0.0, 0.0, 0.0)
    && p.front == Vec(0.0, 0.0, 1.0) && p.top == Vec(0.0, 1.0, 0.0)
    && p.distanceFactor == 1.0 && p.rolloffFactor == 1.0 && p.dopplerFactor == 1.0
  }

  /** The test of the description at the head of PrimaryBuffer::Initialize, src/primarybuffer.cpp:301-305. */
  predicate BadPrimary(desc: Option<BufferDesc>) {
    desc.None? || desc.value.format.Some? || desc.value.bufferBytes != 0
  }

  /** An extensible format without its extension, which SetFormat ignores, src/primarybuffer.cpp:416-424. */
  predicate TooShort(f: Format) {
    f.tag.Extensible? && f.tag.extraSize < EXTRA_SIZE
  }

  /** The checks of SetFormat, src/primarybuffer.cpp:459-532, in 32-bit arithmetic. */
  predicate PrimaryAccepts(f: Format) {
    && f.channels > 0 && FREQUENCY_MIN <= f.samplesPerSec <= FREQUENCY_MAX && f.blockAlign > 0
    && f.bitsPerSample > 0 && f.bitsPerSample % 8 == 0 && f.blockAlign == f.channels * f.bitsPerSample / 8
    && f.avgBytesPerSec == f.blockAlign * f.samplesPerSec % TWO_32
    && match f.tag {
         case Pcm => f.bitsPerSample <= 32
         case Float => f.bitsPerSample == 32
         case Extensible(_, validBits, sub) =>
           && validBits <= f.bitsPerSample
           && ((sub == PcmSub && f.bitsPerSample <= 32) || (sub == FloatSub && f.bitsPerSample == 32))
         case OtherTag => false
       }
  }

  /** In other words: samples of one to four whole bytes, of four if they are floats, one sample for each
      channel in a block, a rate DirectSound has, and as many bytes a second as that makes in 32 bits. */
  lemma PrimaryAcceptsIff(f: Format)
    ensures PrimaryAccepts(f) <==>
              && f.bitsPerSample in {8, 16, 24, 32} && f.channels > 0
              && f.blockAlign == f.channels * (f.bitsPerSample / 8)
              && 100 <= f.samplesPerSec <= 200000
              && f.avgBytesPerSec == f.blockAlign * f.samplesPerSec % 0x1_0000_0000
              && (f.tag == Pcm || (f.tag == Float && f.bitsPerSample == 32)
                  || (f.tag.Extensible? && f.tag.validBits <= f.bitsPerSample
                      && (f.tag.sub == PcmSub || (f.tag.sub == FloatSub && f.bitsPerSample == 32))))
  {
    if f.bitsPerSample % 8 == 0 {
      BytesOf(f.channels, f.bitsPerSample / 8);
    }
  }

  /** What SetFormat stores of a format it accepts. */
  function Stored(f: Format): Format {
    match f.tag
    case Extensible(_, validBits, sub) =>
      f.(tag := Extensible(EXTRA_SIZE, if validBits == 0 then f.bitsPerSample else validBits, sub))
    case _ => f
  }

  /** The fixed size of the primary buffer, src/primarybuffer.cpp:20. */
  const PRIMARY_SIZE: nat := 32768

  /** The range checks of Listener3D::SetAllParameters. */
  predicate ListenerInRange(p: Listener) {
    && MIN_DISTANCE_FACTOR <= p.distanceFactor <= MAX_DISTANCE_FACTOR
    && 0.0 <= p.dopplerFactor <= 10.0
    && 0.0 <= p.rolloffFactor <= 10.0
  }

  /** DS3D_MINDISTANCEFACTOR and DS3D_MAXDISTANCEFACTOR of dsound.h: FLT_MIN and FLT_MAX. */
  const MIN_DISTANCE_FACTOR: real := 0.0000000000000000000000000000000000000117549435
  const MAX_DISTANCE_FACTOR: real := 340282346638528859811704183484516925440.0

  /** The records creation and disposal of secondary buffers keep. */
  datatype Book = Book(
    buffers: map<nat, Buffer>, live: set<Buffer>, at: map<nat, nat>, listed: seq<Buffer>, hw: nat, sw: nat)
  {
    ghost predicate Lacks(b: Buffer) {
      b.mPlace !in buffers && b.mPlace !in at && b !in live
    }

    ghost function With(b: Buffer): Book {
      this.(buffers := buffers[b.mPlace := b], live := live + {b}, at := at[b.mPlace := b.mAddress])
    }

    lemma WithUndone(b: Buffer)
      requires Lacks(b)
      ensures With(b).buffers - {b.mPlace} == buffers && With(b).live - {b} == live
      ensures With(b).at - {b.mPlace} == at
    {
      MapUndo(buffers, b.mPlace, b);
      MapUndo(at, b.mPlace, b.mAddress);
    }
  }

  class DSound8OAL {
    const env: Env
    const mIs8: bool
    const mShared: SharedDevice
    const mPrimaryBuffer: PrimaryBuffer
    const mSecondaryBuffers: SlotTable
    var mPrioLevel: nat
    /** The objects constructed in the places in use, by global index. */
    var buffers: map<nat, Buffer>
    var m3dBuffers: seq<Buffer>
    /** The same objects, as a set. */
    ghost var live: set<Buffer>

    function Rolloff(): real
      reads mPrimaryBuffer`mImmediate
    {
      mPrimaryBuffer.mImmediate.rolloffFactor
    }

    /** The places in use are exactly those that hold a buffer, and each buffer knows where it is. */
    ghost predicate Placed()
      reads this`buffers, this`live, mSecondaryBuffers
    {
      PlacedBut({})
    }

    /** Placed, but for places in use that hold no buffer yet, or none any more. */
    ghost predicate PlacedBut(ks: set<nat>)
      reads this`buffers, this`live, mSecondaryBuffers
    {
      && mSecondaryBuffers.Valid()
      && (forall k :: k in mSecondaryBuffers.at ==> k in buffers || k in ks)
      && (forall k :: k in buffers ==>
            && k in mSecondaryBuffers.at && k !in ks
            && buffers[k] in live && buffers[k].mPlace == k
            && buffers[k].mAddress == mSecondaryBuffers.at[k])
      && (forall b :: b in live ==> b.mParent == this && b.mPlace in buffers && buffers[b.mPlace] == b)
    }

    /** Every live buffer is initialized, and the 3D list holds exactly the 3D buffers. */
    ghost predicate Listed()
      reads this`live, this`m3dBuffers, live`mIsInitialized, live`mBuffer
    {
      && (forall b :: b in live ==> b.mIsInitialized && b.mBuffer != null && (b.Is3D() <==> b in m3dBuffers))
      && (forall b :: b in m3dBuffers ==> b in live)
    }

    ghost predicate EmuValid()
      reads this`live, this`mPrioLevel, mPrimaryBuffer`mFormat, mPrimaryBuffer`mWriteEmu, mPrimaryBuffer.mWriteEmu
    {
      EmuWhile(mPrioLevel)
    }

    /** What holds of the emulation buffer while the level is this one. */
    ghost predicate EmuWhile(level: nat)
      reads this`live, mPrimaryBuffer`mFormat, mPrimaryBuffer`mWriteEmu, mPrimaryBuffer.mWriteEmu
    {
      && mPrimaryBuffer.mFormat.blockAlign > 0 && mPrimaryBuffer.EmuOf(this)
      && (mPrimaryBuffer.mWriteEmu == null || (level == WRITEPRIMARY && mPrimaryBuffer.mWriteEmu !in live))
    }

    ghost predicate BuffersValid()
      reads live, mPrimaryBuffer`mImmediate, this`live
    {
      forall b {:trigger b.Valid(Rolloff())} :: b in live ==> b.Valid(Rolloff())
    }

    /** What every public method keeps: there is an emulation buffer at DSSCL_WRITEPRIMARY only. */
    ghost predicate Valid()
      reads this, mSecondaryBuffers, mPrimaryBuffer, mPrimaryBuffer.mWriteEmu, live
    {
      || (mPrimaryBuffer.mWriteEmu == null && Placed() && Listed() && EmuValid() && mPrimaryBuffer.Valid()
          && BuffersValid())
      || (mPrioLevel == WRITEPRIMARY && Placed() && Listed() && EmuValid() && mPrimaryBuffer.Valid()
          && BuffersValid())
    }

    constructor (env: Env, is8: bool, shared: SharedDevice)
      ensures Valid() && buffers == map[] && mPrioLevel == 0 && m3dBuffers == []
      ensures this.env == env && mIs8 == is8 && mShared == shared && live == {}
      ensures fresh(mPrimaryBuffer) && fresh(mSecondaryBuffers) && mPrimaryBuffer.mWriteEmu == null
      ensures mSecondaryBuffers.groups == [] && mPrimaryBuffer.mFormat == Format(Pcm, 2, 44100, 4, 16, 176400, true)
    {
      this.env, mIs8, mShared := env, is8, shared;
      mPrimaryBuffer := new PrimaryBuffer(env.hasEfx);
      mSecondaryBuffers := new SlotTable();
      mPrioLevel, buffers, m3dBuffers, live := 0, map[], [], {};
    }

    /** src/dsoundoal.h:187-194 */
    method Add3dBuffer(b: Buffer)
      modifies this`m3dBuffers
      ensures m3dBuffers == old(m3dBuffers) + [b]
    {
      m3dBuffers := m3dBuffers + [b];
    }

    method Remove3dBuffer(b: Buffer)
      modifies this`m3dBuffers
      ensures m3dBuffers == Removed(old(m3dBuffers), b)
    {
      m3dBuffers := Removed(m3dBuffers, b);
    }

    // -------------------------------------------------------------------------------------
    // Creation and disposal

    /** DSound8OAL::createSecondaryBuffer, src/dsoundoal.cpp:397-429. */
    method CreateSecondaryBuffer(original: Buffer?, freshBase: nat) returns (b: Buffer)
      requires Placed() && mSecondaryBuffers.CanAllocate(freshBase)
      requires original != null ==> original.mBuffer != null && original.mBuffer.rate > 0
      modifies this`buffers, this`live, mSecondaryBuffers
      modifies Storage(original)`mRef
      ensures Placed() && fresh(b) && b.mParent == this
      ensures old(Books()).Lacks(b) && Books() == old(Books()).With(b)
      ensures forall i: nat :: i < b.mPlace ==> i in old(buffers)
      ensures b.Valid(Rolloff()) && b.mSource.None? && b.mLocStatus == Nowhere && !b.mIsInitialized
      ensures !b.mBufferLost && b.mBuffer == if original == null then null else original.mBuffer
      ensures original != null ==> old(original.mBuffer).mRef == old(original.mBuffer.mRef) + 1
      ensures |mSecondaryBuffers.groups| <= |old(mSecondaryBuffers.groups)| + 1
      ensures Kept(old(mSecondaryBuffers.groups), mSecondaryBuffers.groups)
    {
      var k, address := mSecondaryBuffers.Claim(freshBase);
      b := new Buffer(this, address, k, original);
      Enter(b);
    }

    /** Put a constructed buffer into its place. */
    method Enter(b: Buffer)
      requires PlacedBut({b.mPlace}) && b.mPlace in mSecondaryBuffers.at && b.mParent == this
      requires b.mAddress == mSecondaryBuffers.at[b.mPlace] && b.mPlace !in buffers
      modifies this`buffers, this`live
      ensures Placed() && buffers == old(buffers)[b.mPlace := b] && live == old(live) + {b}
    {
      buffers, live := buffers[b.mPlace := b], live + {b};
    }

    /** The final Release of a buffer: DSound8OAL::dispose, src/dsoundoal.cpp:939-954. */
    method Dispose(b: Buffer, ghost k: nat)
      requires Placed() && k in buffers && buffers[k] == b
      modifies this`buffers, this`live, this`m3dBuffers, mSecondaryBuffers, mShared, b
      modifies Storage(b)`mRef
      ensures Placed() && buffers == old(buffers) - {k} && live == old(live) - {b}
      ensures |mSecondaryBuffers.groups| == |old(mSecondaryBuffers.groups)|
      ensures Kept(old(mSecondaryBuffers.groups), mSecondaryBuffers.groups)
      ensures mSecondaryBuffers.at == old(mSecondaryBuffers.at) - {k}
      ensures m3dBuffers == if old(b.Is3D()) then Removed(old(m3dBuffers), b) else old(m3dBuffers)
      ensures mShared.hw == Returned(old(mShared.hw), old(b.mLocStatus) == Hardware)
      ensures mShared.sw == Returned(old(mShared.sw), old(b.mLocStatus) == Software)
      ensures old(b.mBuffer) != null ==> old(b.mBuffer).mRef == old(b.mBuffer.mRef) - 1
    {
      b.Destroy();
      var freed := mSecondaryBuffers.Dispose(b.mAddress, k);
      Leave(b, freed);
    }

    /** Placed, but for a place that holds a buffer although it is not in use any more. */
    ghost predicate PlacedApart(k: nat)
      reads this, mSecondaryBuffers
    {
      && mSecondaryBuffers.Valid()
      && k in buffers && k !in mSecondaryBuffers.at
      && (forall i :: i in mSecondaryBuffers.at ==> i in buffers)
      && (forall i :: i in buffers ==>
            && (i == k || (i in mSecondaryBuffers.at && buffers[i].mAddress == mSecondaryBuffers.at[i]))
            && buffers[i] in live && buffers[i].mPlace == i)
      && (forall b :: b in live ==> b.mParent == this && b.mPlace in buffers && buffers[b.mPlace] == b)
    }

    /** Forget the buffer of a place that has been given back. */
    method Leave(b: Buffer, k: nat)
      requires PlacedApart(k) && buffers[k] == b
      modifies this`buffers, this`live
      ensures Placed() && buffers == old(buffers) - {k} && live == old(live) - {b}
    {
      buffers, live := buffers - {k}, live - {b};
    }

    /** Everything creating a buffer may touch besides the groups and the buffer itself. */
    ghost function Books(): Book
      reads this, mSecondaryBuffers, mShared
    {
      Book(buffers, live, mSecondaryBuffers.at, m3dBuffers, mShared.hw, mShared.sw)
    }

    /** The end of CreateSoundBuffer and DuplicateSoundBuffer, src/dsoundoal.cpp:634-640, 732-739:
        initialize the new buffer, and let its ComPtr dispose of it if that fails.  `before` is
        what the books were before the buffer was constructed. */
    method InitializeOrDispose(b: Buffer, desc: Option<BufferDesc>, ghost before: Book) returns (hr: HResult)
      requires Placed() && b !in m3dBuffers && before.Lacks(b) && Books() == before.With(b)
      requires b.Valid(Rolloff()) && b.mLocStatus == Nowhere && b.mSource.None? && !b.mIsInitialized
      modifies this`buffers, this`live, this`m3dBuffers, mSecondaryBuffers, mShared, b
      modifies Storage(b)`mRef
      ensures Placed() && Kept(old(mSecondaryBuffers.groups), mSecondaryBuffers.groups)
      ensures |mSecondaryBuffers.groups| == |old(mSecondaryBuffers.groups)|
      ensures hr == old(b.InitStatus(desc))
      ensures hr == DsOk ==>
        && b.Valid(Rolloff()) && b.mIsInitialized && b.mBuffer != null && !b.IsPlaying()
        && b.mBufferLost == old(b.mBufferLost) && PoolsFollow(b)
        && Books() == before.With(b).(listed := before.listed + (if b.Is3D() then [b] else []),
                                      hw := mShared.hw, sw := mShared.sw)
      ensures hr == DsOk && old(b.mBuffer) != null ==>
                b.mBuffer == old(b.mBuffer) && b.mBuffer.mRef == old(b.mBuffer.mRef)
      ensures hr == DsOk && old(b.mBuffer) == null ==> fresh(b.mBuffer) && b.mBuffer.caps == desc.value.caps
      ensures hr != DsOk ==> Books() == before
      ensures hr != DsOk && old(b.mBuffer) != null ==> old(b.mBuffer).mRef == old(b.mBuffer.mRef) - 1
    {
      hr := b.FirstInitialize(desc);
      if hr != DsOk {
        Undo(b, before);
      }
    }

    /** Dispose of a buffer that could not be initialized. */
    method Undo(b: Buffer, ghost before: Book)
      requires Placed() && before.Lacks(b) && b !in before.listed && b.mLocStatus == Nowhere
      requires Books() == before.With(b).(listed := before.listed + if b.Is3D() then [b] else [])
      modifies this`buffers, this`live, this`m3dBuffers, mSecondaryBuffers, mShared, b
      modifies Storage(b)`mRef
      ensures Placed() && Kept(old(mSecondaryBuffers.groups), mSecondaryBuffers.groups)
      ensures |mSecondaryBuffers.groups| == |old(mSecondaryBuffers.groups)|
      ensures Books() == before
      ensures old(b.mBuffer) != null ==> old(b.mBuffer).mRef == old(b.mBuffer.mRef) - 1
    {
      RemovedAppended(before.listed, b);
      Dispose(b, b.mPlace);
      before.WithUndone(b);
    }

    /** A failed creation leaves the live buffers, the counters and the 3D list as they were, and
        at most one group more, which is then wholly free. */
    twostate predicate RolledBack()
      reads this, mShared, mSecondaryBuffers
    {
      && Books() == old(Books())
      && Kept(old(mSecondaryBuffers.groups), mSecondaryBuffers.groups)
      && |mSecondaryBuffers.groups| <= |old(mSecondaryBuffers.groups)| + 1
    }

    /** A successful creation adds one buffer at the least free place, and lists it if it is 3D. */
    twostate predicate Created(new b: Buffer)
      reads this, mShared, mSecondaryBuffers, b
    {
      && old(Books()).Lacks(b) && (forall i: nat :: i < b.mPlace ==> i in old(buffers))
      && Books() == old(Books()).With(b).(listed := old(m3dBuffers) + (if b.Is3D() then [b] else []),
                                          hw := mShared.hw, sw := mShared.sw)
      && PoolsFollow(b)
    }

    /** Each pool has lost the place the buffer has taken, and no other. */
    twostate predicate PoolsFollow(new b: Buffer)
      reads mShared, b`mLocStatus, b`mBuffer
    {
      && Moved(old(mShared.hw), mShared.hw, false, b.mLocStatus == Hardware)
      && Moved(old(mShared.sw), mShared.sw, false, b.mLocStatus == Software)
      && (b.mBuffer != null ==>
            var caps := b.mBuffer.caps;
            b.mLocStatus == if caps.locDefer then Nowhere else old(mShared.Located(FirstRequest(caps), Nowhere)))
    }

    /** The 3D list holds live buffers only. */
    ghost predicate ListedLive()
      reads this
    {
      forall b :: b in m3dBuffers ==> b in live
    }

    /** A buffer as a successful creation leaves it. */
    ghost predicate Made(b: Buffer)
      reads b, mPrimaryBuffer
    {
      && b.mParent == this && b.mIsInitialized && b.mBuffer != null && b.Valid(Rolloff())
      && !b.mBufferLost && !b.IsPlaying()
    }

    /** What comes of creating a buffer, by itself or as a duplicate. */
    function MakeStatus(original: Buffer?, desc: Option<BufferDesc>): HResult
      reads mShared, if original == null then {} else {original}
    {
      if original != null && original.mBuffer != null then mShared.PlaceStatus(original.mBuffer.caps)
      else if StorageStatus(desc, mIs8) != DsOk then StorageStatus(desc, mIs8)
      else mShared.PlaceStatus(desc.value.caps)
    }

    /** Claim a place, construct, initialize; undo all of it on failure. */
    method MakeBuffer(original: Buffer?, desc: Option<BufferDesc>, freshBase: nat) returns (hr: HResult, b: Buffer)
      requires Placed() && ListedLive() && mSecondaryBuffers.CanAllocate(freshBase)
      requires original != null ==> original.mBuffer != null && original.mBuffer.rate > 0
      modifies this`buffers, this`live, this`m3dBuffers, mSecondaryBuffers, mShared
      modifies Storage(original)`mRef
      ensures Placed() && fresh(b) && hr == old(MakeStatus(original, desc))
      ensures hr == DsOk ==> Made(b) && Created(b)
      ensures hr != DsOk ==> RolledBack()
      ensures hr == DsOk ==> if original == null then fresh(b.mBuffer) && b.mBuffer.caps == desc.value.caps
                             else b.mBuffer == original.mBuffer
      ensures original != null ==>
                old(original.mBuffer).mRef == old(original.mBuffer.mRef) + (if hr == DsOk then 1 else 0)
    {
      b := CreateSecondaryBuffer(original, freshBase);
      hr := InitializeOrDispose(b, desc, old(Books()));
    }

    /** DSound8OAL::CreateSoundBuffer for a secondary buffer, src/dsoundoal.cpp:614-641. */
    method CreateSoundBuffer(desc: BufferDesc, freshBase: nat) returns (hr: HResult, made: Buffer?)
      requires Placed() && ListedLive() && mSecondaryBuffers.CanAllocate(freshBase)
      modifies this`buffers, this`live, this`m3dBuffers, mSecondaryBuffers, mShared
      ensures Placed()
      ensures hr == DsOk <==> made != null
      ensures hr == if desc.caps.ctrl3D && desc.caps.ctrlPan && mIs8 then InvalidParam
                    else old(MakeStatus(null, Some(desc)))
      ensures made != null ==> fresh(made) && fresh(made.mBuffer) && Made(made) && Created(made)
      ensures made != null ==> made.mBuffer.caps == desc.caps
      ensures made == null ==> RolledBack()
    {
      made := null;
      if desc.caps.ctrl3D && desc.caps.ctrlPan && mIs8 { hr := InvalidParam; return; }
      var b;
      hr, b := MakeBuffer(null, Some(desc), freshBase);
      if hr == DsOk { made := b; }
    }

    /** DSound8OAL::DuplicateSoundBuffer, src/dsoundoal.cpp:695-740, for a live secondary buffer. */
    method DuplicateSoundBuffer(original: Buffer, freshBase: nat) returns (hr: HResult, made: Buffer?)
      requires Placed() && ListedLive() && mSecondaryBuffers.CanAllocate(freshBase)
      requires original.mBuffer != null && original.mBuffer.rate > 0
      modifies this`buffers, this`live, this`m3dBuffers, mSecondaryBuffers, mShared, original.mBuffer`mRef
      ensures Placed()
      ensures hr == DsOk <==> made != null
      ensures hr == if original.mBuffer.caps.ctrlFx then InvalidParam else old(MakeStatus(original, None))
      ensures made != null ==> fresh(made) && Made(made) && Created(made) && made.mBuffer == original.mBuffer
      ensures made == null ==> RolledBack()
      ensures old(original.mBuffer).mRef == old(original.mBuffer.mRef) + (if made != null then 1 else 0)
    {
      made := null;
      if original.mBuffer.caps.ctrlFx { hr := InvalidParam; return; }
      var b;
      hr, b := MakeBuffer(original, None, freshBase);
      if hr == DsOk { made := b; }
    }

    // -------------------------------------------------------------------------------------
    // The cooperative level

    /** Buffer::GetStatus as SetCooperativeLevel reads it, src/buffer.cpp:944-975: a lost buffer
        reports nothing but being lost. */
    static predicate ReportsPlaying(b: Buffer)
      reads b`mBufferLost, b`mSource
    {
      !b.mBufferLost && b.IsPlaying()
    }

    /** It reports that it is playing, and of the live buffers that do it is the first, in the order of
        their places. */
    ghost predicate FirstPlaying(b: Buffer)
      reads this`live, live`mBufferLost, live`mSource, b`mBufferLost, b`mSource
    {
      ReportsPlaying(b) && forall c :: c in live && ReportsPlaying(c) ==> b.mPlace <= c.mPlace
    }

    /** The places in use, in the order the scan over the masks visits them. */
    method PlacesInOrder() returns (order: seq<nat>)
      requires Placed()
      ensures forall k: nat :: k in order <==> k in buffers
      ensures forall i, j :: 0 <= i < j < |order| ==> order[i] < order[j]
    {
      order := Scan(mSecondaryBuffers.groups);
      AllLiveEnumerates(mSecondaryBuffers.groups);
      forall k: nat ensures k in order <==> k in buffers {
        assert k in order <==> Live(mSecondaryBuffers.groups, k);
      }
    }

    static method InPlaces(order: seq<nat>, at: map<nat, Buffer>) returns (bs: seq<Buffer>)
      requires forall k :: k in order ==> k in at
      ensures |bs| == |order| && forall j :: 0 <= j < |bs| ==> bs[j] == at[order[j]]
    {
      bs := [];
      for i := 0 to |order|
        invariant |bs| == i && forall j :: 0 <= j < i ==> bs[j] == at[order[j]]
      {
        bs := bs + [at[order[i]]];
      }
    }

    /** The live buffers in that order. */
    method LiveInOrder() returns (bs: seq<Buffer>)
      requires Placed()
      ensures forall b :: b in live <==> b in bs
      ensures forall i, j :: 0 <= i < j < |bs| ==> bs[i].mPlace < bs[j].mPlace
    {
      var order := PlacesInOrder();
      bs := InPlaces(order, buffers);
      forall b | b in live ensures b in bs {
        var i :| 0 <= i < |order| && order[i] == b.mPlace;
        assert bs[i] == b;
      }
    }

    /** PrimaryBuffer::GetStatus, src/primarybuffer.cpp:250-292: below DSSCL_WRITEPRIMARY the primary
        buffer plays if any secondary buffer does. */
    method PrimaryPlays() returns (playing: bool)
      requires Placed()
      ensures playing <==>
                mPrimaryBuffer.mPlaying || (mPrioLevel < WRITEPRIMARY && exists b :: b in live && b.IsPlaying())
    {
      playing := mPrimaryBuffer.mPlaying;
      if !playing && mPrioLevel < WRITEPRIMARY {
        var bs := LiveInOrder();
        for i := 0 to |bs|
          invariant forall j :: 0 <= j < i ==> !bs[j].IsPlaying()
        {
          if bs[i].IsPlaying() { return true; }
        }
      }
    }

    /** Every live buffer has its storage, as all have once they are initialized. */
    ghost predicate Stored()
      reads this`live, live`mBuffer
    {
      forall b :: b in live ==> b.mBuffer != null
    }

    ghost predicate AnyPlaying()
      reads this`live, live`mBufferLost, live`mSource
    {
      exists b :: b in live && ReportsPlaying(b)
    }

    /** The live buffers have been marked lost up to one of them, or all. */
    twostate predicate MarkedTo(new stop: Buffer?)
      reads this`live, live`mBufferLost
    {
      && live == old(live)
      && forall b :: b in live ==>
           b.mBufferLost == (old(b.mBufferLost) || stop == null || b.mPlace < stop.mPlace)
    }

    /** src/dsoundoal.cpp:766-784: mark the live buffers lost one by one, and stop at the first
        that is playing. */
    method MarkLost() returns (blocker: Buffer?)
      requires Placed() && BuffersValid() && Stored()
      modifies live`mBufferLost
      ensures BuffersValid()
      ensures MarkedTo(blocker) && (blocker == null <==> !old(AnyPlaying()))
      ensures blocker != null ==> blocker in live && old(FirstPlaying(blocker))
    {
      blocker := MarkUntil();
    }

    /** GetStatus looks at the storage of a buffer that is not lost, src/buffer.cpp:954-966: it fails for
        one that has been placed and not been initialized yet. */
    static predicate Faults(b: Buffer)
      reads b`mBufferLost, b`mBuffer
    {
      !b.mBufferLost && b.mBuffer == null
    }

    /** The scan gets no further than this buffer. */
    static predicate Halts(b: Buffer)
      reads b`mBufferLost, b`mBuffer, b`mSource
    {
      Faults(b) || ReportsPlaying(b)
    }

    /** The scan with no assumption on who is initialized: it stops at the first buffer that is playing or
        has no storage. */
    method MarkUntil() returns (stop: Buffer?)
      requires Placed() && BuffersValid()
      modifies live`mBufferLost
      ensures BuffersValid()
      ensures MarkedTo(stop)
      ensures forall b :: b in live && old(Halts(b)) ==> stop != null && stop.mPlace <= b.mPlace
      ensures stop != null ==> stop in live && old(Halts(stop))
    {
      var bs := LiveInOrder();
      stop := MarkEach(bs);
      forall b | b in live ensures b.Valid(Rolloff()) {
        LostValid(b, Rolloff());
      }
    }

    /** A buffer without storage comes before all that are playing. */
    ghost predicate FaultAhead()
      reads this`live, live`mBufferLost, live`mBuffer, live`mSource
    {
      exists b :: b in live && !b.mBufferLost && b.mBuffer == null
                  && forall c :: c in live && c.mSource.Some? && c.mSource.value.state == Playing ==>
                       b.mPlace < c.mPlace
    }

    /** While other threads are between the two steps of CreateSoundBuffer, the scan fails exactly if one of
        them has placed a new buffer before all that are playing. */
    method ScanUnfinished() returns (fails: bool)
      requires Placed() && BuffersValid()
      modifies live`mBufferLost
      ensures BuffersValid() && fails == old(FaultAhead())
    {
      var stop := MarkUntil();
      fails := stop != null && stop.mBuffer == null;
      if stop != null {
        StopTells(stop);
      }
    }

    /** Whether there is such a buffer can be seen from the first one that halts the scan. */
    twostate lemma StopTells(stop: Buffer)
      requires old(Placed() && BuffersValid()) && stop in old(live) && old(Halts(stop))
      requires forall b :: b in old(live) && old(Halts(b)) ==> stop.mPlace <= b.mPlace
      ensures old(FaultAhead()) <==> old(stop.mBuffer) == null
    {
      if old(stop.mBuffer) == null {
        assert old(Faults(stop));
        forall c | c in old(live) && old(c.IsPlaying()) ensures stop.mPlace < c.mPlace {
          assert old(c.Valid(Rolloff()) && Halts(c));
        }
      } else {
        assert old(ReportsPlaying(stop));
        forall b | b in old(live) && old(!b.mBufferLost && b.mBuffer == null) ensures stop.mPlace <= b.mPlace {
          assert old(Halts(b));
        }
      }
    }

    /** A buffer may be marked lost unless it is playing. */
    static twostate lemma LostValid(b: Buffer, new rolloff: real)
      requires old(b.Valid(rolloff)) && (b.mBufferLost ==> old(b.mBufferLost) || !old(b.IsPlaying()))
      requires unchanged(b`mBuffer, b`mSource, b`mVolume, b`mPan, b`mFrequency, b`mImmediate, b`mDeferred)
      requires unchanged(b`mDirty, b`mLocStatus, b`mIsInitialized, b`pending, b`stale)
      ensures b.Valid(rolloff)
    {
    }

    static method MarkEach(bs: seq<Buffer>) returns (stop: Buffer?)
      requires forall i, j :: 0 <= i < j < |bs| ==> bs[i].mPlace < bs[j].mPlace
      modifies (set b | b in bs)`mBufferLost
      ensures stop != null ==> stop in bs && old(Halts(stop))
      ensures forall b :: b in bs ==>
                && b.mBufferLost == (old(b.mBufferLost) || stop == null || b.mPlace < stop.mPlace)
                && (old(Halts(b)) ==> stop != null && stop.mPlace <= b.mPlace)
    {
      for i := 0 to |bs|
        invariant forall j :: 0 <= j < i ==> bs[j].mBufferLost && !old(Halts(bs[j]))
        invariant forall j :: i <= j < |bs| ==> bs[j].mBufferLost == old(bs[j].mBufferLost)
      {
        if Halts(bs[i]) { return bs[i]; }
        bs[i].mBufferLost := true;
      }
      return null;
    }

    /** src/dsoundoal.cpp:764-784; there is no emulation buffer below DSSCL_WRITEPRIMARY. */
    method ScanLive() returns (blocker: Buffer?)
      requires Placed() && BuffersValid() && Stored() && mPrimaryBuffer.mWriteEmu == null
      modifies mPrimaryBuffer`mWriteEmu, mShared, this`m3dBuffers, live`mBufferLost
      ensures BuffersValid() && mPrimaryBuffer.mWriteEmu == null && m3dBuffers == old(m3dBuffers)
      ensures mShared.hw == old(mShared.hw) && mShared.sw == old(mShared.sw)
      ensures MarkedTo(blocker) && (blocker == null <==> !old(AnyPlaying()))
      ensures blocker != null ==> blocker in live && old(FirstPlaying(blocker))
    {
      DestroyNoEmu();
      blocker := MarkLost();
    }

    /** src/dsoundoal.cpp:764, when there is none. */
    method DestroyNoEmu()
      requires mPrimaryBuffer.mWriteEmu == null
      modifies mPrimaryBuffer`mWriteEmu, mShared, this`m3dBuffers
      ensures unchanged(this) && unchanged(mPrimaryBuffer) && unchanged(mShared`hw, mShared`sw)
    {
      mPrimaryBuffer.DestroyWriteEmu(this);
    }

    /** What the last step of a switch to DSSCL_WRITEPRIMARY returns. */
    function EmulationStatus(): HResult
      requires mPrimaryBuffer.mFormat.blockAlign > 0
      reads mPrimaryBuffer`mFlags, mPrimaryBuffer`mFormat, mShared`hw
    {
      if mPrimaryBuffer.mFlags.None? then DsOk
      else mPrimaryBuffer.EmuStatus(mPrimaryBuffer.mFlags.value.ctrlPan, mShared.hw != mShared.maxHw)
    }

    /** Nothing plays, and an initialized primary buffer can have its emulation buffer: its format fits and
        the hardware pool is not full. */
    ghost predicate Enterable()
      reads this`live, live`mSource, mPrimaryBuffer`mFlags, mPrimaryBuffer`mFormat, mShared`hw
    {
      && (forall b :: b in live ==> b.mSource.None? || b.mSource.value.state != Playing)
      && (mPrimaryBuffer.mFlags.None? || (mPrimaryBuffer.Emulable() && mShared.hw != mShared.maxHw))
    }

    lemma EnterableIff()
      requires BuffersValid() && mPrimaryBuffer.mFormat.blockAlign > 0
      ensures Enterable() <==> !AnyPlaying() && EmulationStatus() == DsOk
    {
      if mPrimaryBuffer.mFlags.Some? {
        mPrimaryBuffer.EmuSucceedsIff(mPrimaryBuffer.mFlags.value.ctrlPan, mShared.hw != mShared.maxHw);
      }
      forall b | b in live ensures ReportsPlaying(b) <==> b.mSource.Some? && b.mSource.value.state == Playing {
        assert b.Valid(Rolloff());
      }
    }

    /** What a switch to DSSCL_WRITEPRIMARY comes to.  It succeeds exactly if the level can be entered, and
        an initialized primary buffer then has its emulation buffer in hardware.  If a buffer plays, the
        first one is named, and those before it are lost; otherwise all are. */
    twostate predicate Switched(hr: HResult, new blocker: Buffer?)
      requires old(mPrimaryBuffer.mFormat.blockAlign > 0)
      reads this`live, live`mBufferLost, mPrimaryBuffer`mFlags, mPrimaryBuffer`mWriteEmu
      reads mPrimaryBuffer.Emu()`mLocStatus
    {
      && (hr == DsOk <==> old(Enterable()))
      && hr == (if blocker != null then InvalidCall else old(EmulationStatus()))
      && (hr == DsOk && mPrimaryBuffer.mFlags.Some? ==> mPrimaryBuffer.EmuAt(Hardware))
      && (blocker != null <==> old(AnyPlaying()))
      && (blocker != null ==> blocker in old(live) && old(FirstPlaying(blocker)))
      && MarkedTo(blocker)
    }

    /** The switch to DSSCL_WRITEPRIMARY, src/dsoundoal.cpp:762-787, before the level is stored. */
    method EnterWritePrimary() returns (hr: HResult, blocker: Buffer?)
      requires Placed() && BuffersValid() && Stored()
      requires mPrimaryBuffer.mWriteEmu == null && mPrimaryBuffer.mFormat.blockAlign > 0
      modifies mPrimaryBuffer`mWriteEmu, mShared, this`m3dBuffers, live`mBufferLost
      ensures BuffersValid() && m3dBuffers == old(m3dBuffers) && mPrimaryBuffer.EmuOf(this)
      ensures mPrimaryBuffer.mWriteEmu != null ==>
                fresh(mPrimaryBuffer.mWriteEmu) && fresh(mPrimaryBuffer.mWriteEmu.mBuffer) && hr == DsOk
      ensures Switched(hr, blocker)
    {
      EnterableIff();
      blocker := ScanLive();
      if blocker != null { return InvalidCall, blocker; }
      hr := Emulate();
    }

    /** src/dsoundoal.cpp:786-787 */
    method Emulate() returns (hr: HResult)
      requires mPrimaryBuffer.mWriteEmu == null && mPrimaryBuffer.mFormat.blockAlign > 0
      modifies mPrimaryBuffer`mWriteEmu, mShared, this`m3dBuffers
      ensures m3dBuffers == old(m3dBuffers) && mPrimaryBuffer.EmuOf(this) && hr == old(EmulationStatus())
      ensures mPrimaryBuffer.mWriteEmu != null ==>
                fresh(mPrimaryBuffer.mWriteEmu) && fresh(mPrimaryBuffer.mWriteEmu.mBuffer) && hr == DsOk
      ensures hr == DsOk && mPrimaryBuffer.mFlags.Some? ==> mPrimaryBuffer.EmuAt(Hardware)
    {
      hr := DsOk;
      if mPrimaryBuffer.mFlags.Some? {
        hr := mPrimaryBuffer.CreateWriteEmu(this, mPrimaryBuffer.mFlags.value.ctrlPan);
      }
    }

    predicate Enters(level: nat)
      reads this`mPrioLevel
    {
      level == WRITEPRIMARY && mPrioLevel != WRITEPRIMARY
    }

    /** src/dsoundoal.cpp:762-794, before the level is stored. */
    method SwitchTo(level: nat) returns (hr: HResult, blocker: Buffer?)
      requires Valid() && NORMAL <= level <= WRITEPRIMARY
      modifies mPrimaryBuffer`mWriteEmu, mShared, this`m3dBuffers, live`mBufferLost
      modifies mPrimaryBuffer.mWriteEmu
      modifies Storage(mPrimaryBuffer.mWriteEmu)`mRef
      ensures EmuWhile(if hr == DsOk then level else mPrioLevel) && BuffersValid() && m3dBuffers == old(m3dBuffers)
      ensures mPrimaryBuffer.EmuRenewed()
      ensures if Enters(level) then Switched(hr, blocker)
              else && hr == DsOk && blocker == null && unchanged(live`mBufferLost)
                   && mPrimaryBuffer.mWriteEmu == if level < 4 then null else old(mPrimaryBuffer.mWriteEmu)
    {
      hr, blocker := DsOk, null;
      if level == WRITEPRIMARY && mPrioLevel != WRITEPRIMARY {
        hr, blocker := EnterWritePrimary();
      } else if level < WRITEPRIMARY && mPrioLevel == WRITEPRIMARY {
        mPrimaryBuffer.DestroyWriteEmu(this);
      }
    }

    /** DSound8OAL::SetCooperativeLevel, src/dsoundoal.cpp:744-798.  A switch to DSSCL_WRITEPRIMARY
        succeeds if and only if no live buffer reports playing and an emulation buffer is not needed or
        can be created.  After a refused switch the level is the old one; but if a buffer is playing,
        those whose places come before it have been marked lost, and if the emulation buffer cannot be
        created, all have. */
    method SetCooperativeLevel(level: nat) returns (hr: HResult, blocker: Buffer?)
      requires Valid()
      modifies this`mPrioLevel, mPrimaryBuffer`mWriteEmu, mShared, this`m3dBuffers, live`mBufferLost
      modifies mPrimaryBuffer.mWriteEmu
      modifies Storage(mPrimaryBuffer.mWriteEmu)`mRef
      ensures EmuValid() && BuffersValid() && m3dBuffers == old(m3dBuffers)
      ensures mPrimaryBuffer.EmuRenewed()
      ensures mPrioLevel == if hr == DsOk then level else old(mPrioLevel)
      ensures if level == 4 && old(mPrioLevel) != 4 then Switched(hr, blocker)
              else && hr == (if 1 <= level <= 4 then DsOk else InvalidParam) && blocker == null
                   && unchanged(live`mBufferLost)
                   && mPrimaryBuffer.mWriteEmu == if 1 <= level < 4 then null else old(mPrimaryBuffer.mWriteEmu)
    {
      blocker := null;
      if level > WRITEPRIMARY || level < NORMAL { hr := InvalidParam; return; }
      hr, blocker := SwitchTo(level);
      if hr == DsOk {
        mPrioLevel := level;
      }
    }
  }

  /** Buffers are removed one by one, and the others stay in order. */
  lemma {:induction false} RemovedInOrder(s: seq<Buffer>, t: seq<Buffer>, b: Buffer)
    ensures Removed([], b) == [] && Removed([b], b) == [] && Removed(s + t, b) == Removed(s, b) + Removed(t, b)
    ensures forall c :: c != b ==> Removed([c], b) == [c]
  {
    assert Removed([b], b) == Removed([b][1..], b);
    if s == [] {
      assert s + t == t;
    } else {
      RemovedInOrder(s[1..], t, b);
      assert (s + t)[1..] == s[1..] + t;
    }
  }

  lemma {:induction false} RemovedAppended(s: seq<Buffer>, b: Buffer)
    requires b !in s
    ensures Removed(s + [b], b) == s && Removed(s, b) == s
  {
    if s == [] {
      assert s + [b] == [b];
      assert Removed([b][1..], b) == [];
    } else {
      RemovedAppended(s[1..], b);
      assert (s + [b])[1..] == s[1..] + [b];
    }
  }
}
