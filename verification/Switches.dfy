/** The switch to DSSCL_WRITEPRIMARY that is refused, in both ways it can be, and the one that fails. */
module Switches {
  import opened Common
  import opened Sizes
  import opened AlSources
  import opened Slots
  import opened Sound
  import Runs

  /** A thousand frames of 16-bit stereo in software. */
  const PLAIN := BufferDesc(NO_CAPS.(locSoftware := true), 4000, Some(Format(Pcm, 2, 44100, 4, 16, 176400, true)))

  /** The format a primary buffer starts with: 16-bit stereo at 44100 Hz. */
  const CD := Format(Pcm, 2, 44100, 4, 16, 176400, true)

  lemma PlainAccepted()
    ensures StorageStatus(Some(PLAIN), false) == DsOk
  {
    assert RoundedSize(4000, 4) == 4000;
  }

  /** A new object on a device that has room in software, and its first buffer. */
  method FirstBuffer(env: Env, shared: SharedDevice, freshBase: nat) returns (ds: DSound8OAL, b: Buffer)
    requires shared.sw != shared.maxSw && InSpace(freshBase)
    modifies shared
    ensures fresh(ds) && fresh(ds.mPrimaryBuffer) && fresh(b) && ds.mShared == shared
    ensures ds.Valid() && ds.live == {b} && ds.mPrioLevel == 0 && ds.Made(b) && b.mBuffer.caps == PLAIN.caps
    ensures ds.mPrimaryBuffer.mFormat == CD && shared.hw == old(shared.hw)
  {
    ds := new DSound8OAL(env, false, shared);
    PlainAccepted();
    var made := Runs.CreateValid(ds, PLAIN, freshBase);
    b := made;
  }

  /** The state both refusals start from: that, with the primary buffer initialized. */
  method OneBuffer(env: Env, shared: SharedDevice, freshBase: nat) returns (ds: DSound8OAL, b: Buffer)
    requires shared.sw != shared.maxSw && InSpace(freshBase)
    modifies shared
    ensures fresh(ds) && fresh(ds.mPrimaryBuffer) && fresh(b) && ds.mShared == shared
    ensures ds.Valid() && ds.live == {b} && ds.mPrioLevel == 0 && ds.mPrimaryBuffer.mFlags.Some?
    ensures ds.Made(b) && b.mBuffer.caps == PLAIN.caps
    ensures ds.mPrimaryBuffer.mFormat == CD && shared.hw == old(shared.hw)
  {
    ds, b := FirstBuffer(env, shared, freshBase);
    assert b !in ds.m3dBuffers;
    Runs.InitializePrimaryValid(ds, Some(BufferDesc(NO_CAPS, 0, None)), false);
    assert b.Valid(ds.Rolloff());
  }

  /** It plays. */
  method PlayIt(ds: DSound8OAL, b: Buffer)
    requires ds.Valid() && b in ds.live && ds.Made(b) && !b.mBuffer.caps.locDefer
    modifies b`mSource, b`mLocStatus, ds.mShared
    ensures ds.Valid() && b.IsPlaying()
  {
    var _ := b.Play(0, false, false, true);
    Runs.OneCalled(ds, b);
  }

  /** Asked for while the one buffer plays, the switch is refused and names it. */
  method AskWhilePlaying(ds: DSound8OAL, b: Buffer) returns (hr: HResult, blocker: Buffer?)
    requires ds.Valid() && ds.live == {b} && b.IsPlaying() && ds.mPrioLevel == 0
    modifies ds`mPrioLevel, ds.mPrimaryBuffer`mWriteEmu, ds.mShared, ds`m3dBuffers, ds.live`mBufferLost
    ensures hr == InvalidCall && blocker == b && b.IsPlaying() && ds.mPrioLevel == 0
  {
    assert b.Valid(ds.Rolloff());
    assert DSound8OAL.ReportsPlaying(b);
    hr, blocker := ds.SetCooperativeLevel(WRITEPRIMARY);
  }

  /** A switch refused by a playing buffer. */
  method RefusedWhilePlaying(env: Env, maxHw: nat, maxSw: nat, freshBase: nat)
    returns (ds: DSound8OAL, b: Buffer, hr: HResult, blocker: Buffer?)
    requires 0 < maxSw && InSpace(freshBase)
    ensures hr == InvalidCall && blocker == b && b.IsPlaying() && ds.mPrioLevel == 0
  {
    var shared := new SharedDevice(maxHw, maxSw);
    ds, b := OneBuffer(env, shared, freshBase);
    PlayIt(ds, b);
    hr, blocker := AskWhilePlaying(ds, b);
  }

  /** Asked for when nothing plays and there is room in hardware, it succeeds, and the emulation buffer is in
      hardware. */
  method AskFreely(ds: DSound8OAL, b: Buffer) returns (hr: HResult)
    requires ds.Valid() && ds.live == {b} && !b.IsPlaying() && ds.mPrioLevel == 0 && ds.mPrimaryBuffer.mFlags.Some?
    requires ds.mPrimaryBuffer.mFormat == CD && ds.mShared.hw != ds.mShared.maxHw
    modifies ds`mPrioLevel, ds.mPrimaryBuffer`mWriteEmu, ds.mShared, ds`m3dBuffers, ds.live`mBufferLost
    ensures hr == DsOk && b.mBufferLost && ds.mPrioLevel == 4
    ensures ds.mPrimaryBuffer.mWriteEmu != null && ds.mPrimaryBuffer.mWriteEmu.mLocStatus == Hardware
  {
    var blocker;
    hr, blocker := ds.SetCooperativeLevel(4);
  }

  /** A switch that succeeds: the primary buffer is initialized and has the format it starts with, one buffer
      exists and does not play, and there is room in hardware. */
  method Entered(env: Env, maxHw: nat, maxSw: nat, freshBase: nat) returns (ds: DSound8OAL, b: Buffer, hr: HResult)
    requires 0 < maxHw && 0 < maxSw && InSpace(freshBase)
    ensures hr == DsOk && b in ds.live && b.mBufferLost && ds.mPrioLevel == 4
    ensures ds.mPrimaryBuffer.mWriteEmu != null && ds.mPrimaryBuffer.mWriteEmu.mLocStatus == Hardware
  {
    var shared := new SharedDevice(maxHw, maxSw);
    ds, b := OneBuffer(env, shared, freshBase);
    hr := AskFreely(ds, b);
  }

  /** Asked for when others have taken the whole hardware pool, it is refused and names nobody; and the
      buffer is lost. */
  method AskWithoutHardware(ds: DSound8OAL, b: Buffer) returns (hr: HResult, blocker: Buffer?)
    requires ds.Valid() && ds.live == {b} && !b.IsPlaying() && ds.mPrioLevel == 0
    requires ds.mPrimaryBuffer.mFlags.Some?
    modifies ds`mPrioLevel, ds.mPrimaryBuffer`mWriteEmu, ds.mShared, ds`m3dBuffers, ds.live`mBufferLost
    ensures hr != DsOk && blocker == null && b.mBufferLost && ds.mPrioLevel == 0
  {
    Runs.DoOthers(ds, ds.mShared.maxHw, ds.mShared.sw);
    hr, blocker := ds.SetCooperativeLevel(WRITEPRIMARY);
  }

  /** The buffer does not play, but other DirectSound objects of the process have all hardware sources,
      so that there can be no emulation buffer: the switch is refused and names nobody, and the buffer has
      become lost. */
  method RefusedWithoutHardware(env: Env, maxHw: nat, maxSw: nat, freshBase: nat)
    returns (ds: DSound8OAL, b: Buffer, hr: HResult, blocker: Buffer?)
    requires 0 < maxSw && InSpace(freshBase)
    ensures hr != DsOk && blocker == null && !b.IsPlaying() && b in ds.live && b.mBufferLost && ds.mPrioLevel == 0
  {
    var shared := new SharedDevice(maxHw, maxSw);
    ds, b := OneBuffer(env, shared, freshBase);
    hr, blocker := AskWithoutHardware(ds, b);
  }

  /** A thread has placed a buffer and not initialized it yet when another asks for the switch: the scan
      fails. */
  method FailsWhileCreating(env: Env, maxHw: nat, maxSw: nat, freshBase: nat)
    returns (ds: DSound8OAL, b: Buffer, fails: bool)
    requires InSpace(freshBase)
    ensures fails && ds.live == {b} && !b.mIsInitialized
  {
    var shared := new SharedDevice(maxHw, maxSw);
    ds := new DSound8OAL(env, false, shared);
    b := ds.CreateSecondaryBuffer(null, freshBase);
    assert DSound8OAL.Faults(b);
    fails := ds.ScanUnfinished();
  }
}
