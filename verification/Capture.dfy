/** The capture ring (src/capture.cpp:127-174, 255-280, 524-538, 573-609, 670-684). */
module Capture {
  import opened Common
  import opened Arith
  import opened Sizes
  import opened CyclicLock
  import opened NotifyCounts

  type Byte = bv8

  // ---------------------------------------------------------------------------------------
  // What the ring is for

  /** The oldest byte of a stream that a ring of this size still holds. */
  function Oldest(stream: seq<Byte>, size: nat): nat {
    if |stream| > size then |stream| - size else 0
  }

  /** The ring holds the last bytes of the stream, each in its place, and zeros where the stream
      has not been yet. */
  ghost predicate Holds(ring: seq<Byte>, stream: seq<Byte>) {
    && |ring| > 0
    && (forall j :: Oldest(stream, |ring|) <= j < |stream| ==> ring[j % |ring|] == stream[j])
    && (forall i :: |stream| <= i < |ring| ==> ring[i] == 0)
  }

  /** The stream determines the ring. */
  lemma HoldsDetermines(ring: seq<Byte>, ring': seq<Byte>, stream: seq<Byte>)
    requires Holds(ring, stream) && Holds(ring', stream) && |ring| == |ring'|
    ensures ring == ring'
  {
    var size, t := |ring|, |stream|;
    forall i | 0 <= i < size ensures ring[i] == ring'[i] {
      if i < t {
        var j := t - 1 - (t - 1 - i) % size;
        var q := (t - 1 - i) / size;
        assert j == i + q * size && j >= Oldest(stream, size);
        AddMultiple(i, q, size);
        DivModUnique(i, size, 0, i);
        assert j % size == i;
      }
    }
  }

  /** A region of the ring replaced by new data. */
  function Overwritten(ring: seq<Byte>, at: nat, data: seq<Byte>): (r: seq<Byte>)
    requires at + |data| <= |ring|
    ensures |r| == |ring|
  {
    ring[..at] + data + ring[at + |data|..]
  }

  /** Data written at the write position, up to the end of the ring at most, extends the stream. */
  lemma ChunkExtends(ring: seq<Byte>, stream: seq<Byte>, data: seq<Byte>)
    requires Holds(ring, stream) && |stream| % |ring| + |data| <= |ring|
    ensures Holds(Overwritten(ring, |stream| % |ring|, data), stream + data)
  {
    var size, t, n := |ring|, |stream|, |data|;
    var w := t % size;
    var newRing := Overwritten(ring, w, data);
    forall j | Oldest(stream + data, size) <= j < t + n ensures newRing[j % size] == (stream + data)[j] {
      if j >= t {
        AddMod(t, j - t, size);
      } else {
        OtherPlace(j, t, n, size);
      }
    }
    forall i | t + n <= i < size ensures newRing[i] == 0 {
      DivModUnique(t, size, 0, t);
    }
  }

  /** A byte that stays in the window is not where the new bytes go. */
  lemma OtherPlace(j: nat, t: nat, n: nat, size: nat)
    requires size > 0 && t + n - size <= j < t && t % size + n <= size
    ensures !(t % size <= j % size < t % size + n)
  {
    if t % size <= j % size < t % size + n {
      var k := j % size - t % size;
      AddMod(t, k, size);
      AddMod(j, t + k - j, size);
      assert false;
    }
  }

  // ---------------------------------------------------------------------------------------
  // The buffer

  /** After whole laps only the positions of the rest are signalled, although all were written. */
  lemma PollSignals(offset: nat, t: nat, n: nat, size: nat)
    requires 0 < size < OFFSET_STOP && (offset < size || offset == OFFSET_STOP)
    ensures Hit(offset, t % size, (t + n) % size) <==> Laps(offset, t, t + n % size, size) > 0
  {
    assert t + n == t + n % size + n / size * size;
    AddMultiple(t + n % size, n / size, size);
    ShortGap(offset, t, t + n % size, size);
  }

  /** A poll from t to t + n bytes signals a position exactly if the position was written. */
  ghost predicate SignalsWritten(offset: nat, t: nat, n: nat, size: nat)
    requires size > 0
  {
    Hit(offset, t % size, (t + n) % size) <==> Laps(offset, t, t + n, size) > 0
  }

  /** It does so for every position if, and only if, it covers less than one lap. */
  lemma WrittenIffShort(t: nat, n: nat, size: nat)
    requires 0 < size < OFFSET_STOP
    ensures (forall o: nat :: o < size ==> SignalsWritten(o, t, n, size)) <==> n < size
  {
    if n < size {
      forall o: nat | o < size ensures SignalsWritten(o, t, n, size) {
        ShortGap(o, t, t + n, size);
      }
    } else {
      // The next position to be written is the one that is missed.
      var o := (t + n) % size;
      LapsSplit(o, t, t + n - size, t + n, size);
      FullGap(o, t + n - size, size);
      assert !SignalsWritten(o, t, n, size);
    }
  }

  function Place(p: nat, size: nat): nat
    requires size > 0
  {
    p % size
  }

  class DSCBuffer {
    var mBuffer: array<Byte>
    var mBlockAlign: nat
    var mSamplesPerSec: nat
    var mOpen: bool
    var mCapturing: bool
    var mWritePos: nat
    var mNotifies: seq<nat>
    var mLocked: bool

    /** Everything the device has delivered. */
    ghost var stream: seq<Byte>

    ghost predicate Valid()
      reads this, mBuffer
    {
      if !mOpen then mWritePos == 0 && mNotifies == [] && !mCapturing
      else
        && 0 < mBlockAlign <= 4 && mSamplesPerSec <= FREQUENCY_MAX
        && 0 < mBuffer.Length <= 0x7FFF_FFFF && mBuffer.Length % mBlockAlign == 0
        && |stream| % mBlockAlign == 0
        && mWritePos == |stream| % mBuffer.Length
        && Holds(mBuffer[..], stream)
        && InRange(mNotifies)
    }

    predicate InRange(notifies: seq<nat>)
      reads this
    {
      forall i :: 0 <= i < |notifies| ==> notifies[i] < mBuffer.Length || notifies[i] == OFFSET_STOP
    }

    constructor ()
      ensures Valid() && !mOpen && !mCapturing && !mLocked
    {
      mBuffer := new Byte[0];
      mBlockAlign, mSamplesPerSec, mOpen, mCapturing, mWritePos, mNotifies, mLocked := 0, 0, false, false, 0, [], false;
      stream := [];
    }

    /** DSCBuffer::Initialize, src/capture.cpp:524-551, for a format whose block alignment has been
        checked; `opens` says whether the device can be opened. */
    method Initialize(bufferBytes: nat, blockAlign: nat, samplesPerSec: nat, opens: bool) returns (hr: HResult)
      requires Valid() && 0 < blockAlign <= 4 && samplesPerSec <= FREQUENCY_MAX
      modifies this
      ensures Valid()
      ensures hr == if old(mOpen) then AlreadyInitialized
                    else if blockAlign <= bufferBytes <= 0x7FFF_FFFF && bufferBytes % blockAlign == 0 && opens then DsOk
                    else InvalidParam
      ensures mOpen == (old(mOpen) || hr == DsOk)
      ensures hr == DsOk ==> mBuffer.Length == bufferBytes && stream == []
    {
      if mOpen { return AlreadyInitialized; }
      if bufferBytes < blockAlign || bufferBytes > 0x7FFF_FFFF || bufferBytes % blockAlign != 0 {
        return InvalidParam;
      }
      mBlockAlign, mSamplesPerSec := blockAlign, samplesPerSec;
      mBuffer := new Byte[bufferBytes](_ => 0);
      if !opens { return InvalidParam; }
      mOpen, stream := true, [];
      return DsOk;
    }

    /** alcCaptureSamples: the device writes samples at a place in the buffer. */
    method CaptureSamples(at: nat, data: seq<Byte>)
      requires at + |data| <= mBuffer.Length
      modifies mBuffer
      ensures mBuffer[..] == Overwritten(old(mBuffer[..]), at, data)
    {
      forall i | at <= i < at + |data| { mBuffer[i] := data[i - at]; }
    }

    /** One round of the capture thread, src/capture.cpp:134-171.  `avail` is what the device has
        ready; `signalled` says which notifications were signalled. */
    method Poll(avail: seq<Byte>) returns (signalled: set<nat>)
      requires Valid() && mOpen && |avail| % mBlockAlign == 0
      modifies this`mWritePos, this`stream, mBuffer
      ensures Valid() && stream == old(stream) + avail
      ensures forall i :: i in signalled <==>
                0 <= i < |mNotifies|
                && Laps(mNotifies[i], |old(stream)|, |old(stream)| + |avail| % mBuffer.Length, mBuffer.Length) > 0
    {
      signalled := {};
      if avail == [] { return; }
      var oldpos := mWritePos;
      Fill(avail);
      signalled := SignalNotifies(oldpos, mWritePos);
      forall i | 0 <= i < |mNotifies|
        ensures Hit(mNotifies[i], oldpos, mWritePos) <==>
                Laps(mNotifies[i], |old(stream)|, |old(stream)| + |avail| % mBuffer.Length, mBuffer.Length) > 0
      {
        PollSignals(mNotifies[i], |old(stream)|, |avail|, mBuffer.Length);
      }
    }

    /** src/capture.cpp:161-171 */
    method SignalNotifies(oldpos: nat, writepos: nat) returns (signalled: set<nat>)
      ensures forall i :: i in signalled <==> 0 <= i < |mNotifies| && Hit(mNotifies[i], oldpos, writepos)
    {
      signalled := {};
      for i := 0 to |mNotifies|
        invariant forall j :: j in signalled <==> 0 <= j < i && Hit(mNotifies[j], oldpos, writepos)
      {
        if oldpos > writepos {
          if mNotifies[i] != OFFSET_STOP && (mNotifies[i] >= oldpos || mNotifies[i] < writepos) {
            signalled := signalled + {i};
          }
        } else if mNotifies[i] >= oldpos && mNotifies[i] < writepos {
          signalled := signalled + {i};
        }
      }
    }

    /** The copying loop, src/capture.cpp:145-159, over any number of laps. */
    method Fill(avail: seq<Byte>)
      requires Valid() && mOpen && |avail| % mBlockAlign == 0
      modifies this`mWritePos, this`stream, mBuffer
      ensures Valid() && stream == old(stream) + avail
    {
      var availframes := |avail| / mBlockAlign;
      var writepos, rest := mWritePos, avail;
      while availframes > 0
        invariant |rest| == availframes * mBlockAlign && stream + rest == old(stream) + avail
        invariant |stream| % mBlockAlign == 0 && writepos == |stream| % mBuffer.Length
        invariant Holds(mBuffer[..], stream)
      {
        var toread;
        toread, writepos := FillChunk(writepos, availframes, rest);
        FramesFit(toread, availframes, mBuffer.Length, mBlockAlign);
        rest := rest[toread * mBlockAlign..];
        availframes := availframes - toread;
      }
      assert rest == [];
      mWritePos := writepos;
    }

    /** One turn of the copying loop: whole frames, up to the end of the ring at most.  `rest` is
        what the device still has. */
    method FillChunk(writepos: nat, availframes: nat, rest: seq<Byte>) returns (toread: nat, next: nat)
      requires 0 < mBlockAlign && 0 < mBuffer.Length && mBuffer.Length % mBlockAlign == 0
      requires |stream| % mBlockAlign == 0 && writepos == |stream| % mBuffer.Length
      requires availframes > 0 && |rest| == availframes * mBlockAlign && Holds(mBuffer[..], stream)
      modifies this`stream, mBuffer
      ensures 0 < toread <= availframes && 0 <= toread * mBlockAlign <= |rest|
      ensures stream == old(stream) + rest[..toread * mBlockAlign] && |stream| % mBlockAlign == 0
      ensures next == |stream| % mBuffer.Length && Holds(mBuffer[..], stream)
    {
      ghost var size := mBuffer.Length;
      ModOfMultiple(|stream|, size, mBlockAlign);
      RoomForAFrame(writepos, size, mBlockAlign);
      var room := (mBuffer.Length - writepos) / mBlockAlign;
      toread := if availframes <= room then availframes else room;
      FramesFit(toread, availframes, size - writepos, mBlockAlign);
      MultipleMod(toread, mBlockAlign);
      ChunkPosition(|stream|, toread * mBlockAlign, size, mBlockAlign);

      var data := rest[..toread * mBlockAlign];
      ChunkExtends(mBuffer[..], stream, data);
      CaptureSamples(writepos, data);
      stream := stream + data;
      next := writepos + toread * mBlockAlign;
      if next == mBuffer.Length { next := 0; }
    }

    /** DSCBuffer::Notify::SetNotificationPositions, src/capture.cpp:747-788, on an opened buffer.
        The code sorts the positions too, which nothing depends on. */
    method SetNotificationPositions(notifies: seq<nat>) returns (hr: HResult)
      requires Valid() && mOpen
      modifies this`mNotifies
      ensures Valid()
      ensures hr == if mCapturing then InvalidCall
                    else if forall i :: 0 <= i < |notifies| ==>
                              notifies[i] < mBuffer.Length || notifies[i] == 0xFFFF_FFFF
                    then DsOk else InvalidParam
      ensures mNotifies == if hr == DsOk then notifies else old(mNotifies)
    {
      if mCapturing { return InvalidCall; }
      for i := 0 to |notifies|
        invariant InRange(notifies[..i])
      {
        if notifies[i] >= mBuffer.Length && notifies[i] != OFFSET_STOP { return InvalidParam; }
      }
      assert notifies[..|notifies|] == notifies;
      mNotifies := notifies;
      return DsOk;
    }

    /** DSCBuffer::GetCurrentPosition, src/capture.cpp:260-281.  Neither cursor leaves the buffer,
        both stay on frame boundaries, and no sum exceeds 32 bits. */
    method GetCurrentPosition() returns (cappos: nat, readpos: nat)
      requires Valid() && mOpen
      ensures readpos == |stream| % mBuffer.Length
      ensures cappos < mBuffer.Length && cappos % mBlockAlign == 0 && readpos % mBlockAlign == 0
      ensures cappos == if mCapturing then Place(|stream| + mSamplesPerSec / 100 * mBlockAlign, mBuffer.Length)
                        else readpos
    {
      cappos := mWritePos;
      readpos := cappos;
      ghost var t, ahead := |stream|, mSamplesPerSec / 100 * mBlockAlign;
      ModOfMultiple(t, mBuffer.Length, mBlockAlign);
      if mCapturing {
        AheadFits(mSamplesPerSec, mBlockAlign);
        MultipleMod(mSamplesPerSec / 100, mBlockAlign);
        AheadStays(t, ahead, mBuffer.Length, mBlockAlign);
        cappos := (cappos + mSamplesPerSec / 100 * mBlockAlign) % TWO_32;
        cappos := cappos % mBuffer.Length;
      }
    }

    /** DSCBuffer::Lock, src/capture.cpp:555-610.  `pair1` and `pair2` say whether both pointers of a
        pair of out-parameters are given. */
    method Lock(readCursor: nat, readBytes: nat, pair1: bool, pair2: bool, entireBuffer: bool)
      returns (hr: HResult, r: Regions)
      requires Valid() && mOpen
      modifies this`mLocked
      ensures var size, n := mBuffer.Length, if entireBuffer then mBuffer.Length else readBytes;
              && hr == (if pair1 && readCursor <= size && n <= size && !old(mLocked) then DsOk else InvalidParam)
              && (hr == DsOk && pair2 ==> Locks(r, size, readCursor, n))
              && (hr == DsOk && !pair2 ==> LocksFirst(r, size, readCursor, n))
      ensures hr != DsOk ==> r == NO_REGIONS
      ensures mLocked == (old(mLocked) || hr == DsOk)
    {
      r := NO_REGIONS;
      if !pair1 { return InvalidParam, r; }
      if readCursor > mBuffer.Length { return InvalidParam, r; }
      var readBytes := readBytes;
      if entireBuffer {
        readBytes := mBuffer.Length;
      } else if readBytes > mBuffer.Length {
        return InvalidParam, r;
      }

      var was := mLocked;
      mLocked := true;
      if was { return InvalidParam, r; }

      var remain := 0;
      if readCursor > mBuffer.Length - readBytes {
        r := r.(bytes1 := mBuffer.Length - readCursor);
        remain := readBytes - r.bytes1;
      } else {
        r := r.(bytes1 := readBytes);
      }
      r := r.(ptr1 := Some(readCursor));
      if pair2 && remain != 0 {
        r := r.(ptr2 := Some(0), bytes2 := remain);
      }
      if pair2 { SplitLocks(mBuffer.Length, readCursor, readBytes, r); }
      return DsOk, r;
    }

    /** DSCBuffer::Unlock, src/capture.cpp:664-685. */
    method Unlock(ofs1: nat, bytes1: nat, ptr2: Option<nat>, bytes2: nat) returns (hr: HResult)
      modifies this`mLocked
      ensures !mLocked
      ensures hr == if old(mLocked) && ofs1 + bytes1 <= mBuffer.Length && bytes2 <= ofs1 && ptr2 in {None, Some(0)}
                    then DsOk else InvalidParam
    {
      var was := mLocked;
      mLocked := false;
      if !was { return InvalidParam; }
      var ofs2 := if ptr2.Some? then ptr2.value else 0;
      if ofs1 > mBuffer.Length || mBuffer.Length - ofs1 < bytes1 || bytes2 > ofs1 { return InvalidParam; }
      if ofs2 != 0 { return InvalidParam; }
      return DsOk;
    }

    /** A Lock with both pairs of out-parameters, and an Unlock of what it gave, or of less. */
    method LockThenUnlock(readCursor: nat, readBytes: nat, entireBuffer: bool, less1: nat, less2: nat)
      returns (hr: HResult, hr': HResult)
      requires Valid() && mOpen
      modifies this`mLocked
      ensures hr == DsOk ==> hr' == DsOk && !mLocked
    {
      var r;
      hr, r := Lock(readCursor, readBytes, true, true, entireBuffer);
      hr' := hr;
      if hr == DsOk {
        hr' := Unlock(r.ptr1.value, if less1 <= r.bytes1 then r.bytes1 - less1 else 0,
                      r.ptr2, if less2 <= r.bytes2 then r.bytes2 - less2 else 0);
      }
    }
  }

  /** The write-ahead of 10ms fits 32 bits along with any cursor. */
  lemma AheadFits(samplesPerSec: nat, align: nat)
    requires samplesPerSec <= FREQUENCY_MAX && align <= 4
    ensures 0 <= samplesPerSec / 100 * align <= 8000
  {
    assert samplesPerSec / 100 <= 2000;
    assert samplesPerSec / 100 * align <= 2000 * align;
  }

  /** A cursor moved ahead by whole frames is on a frame boundary. */
  lemma AheadStays(t: nat, ahead: nat, size: nat, align: nat)
    requires 0 < align && 0 < size && size % align == 0 && t % align == 0 && ahead % align == 0
    ensures (t % size + ahead) % size == Place(t + ahead, size) && Place(t + ahead, size) % align == 0
  {
    ModAdd(t, ahead, size);
    SumOfMultiples(t, ahead, align);
    ModOfMultiple(t + ahead, size, align);
  }

  /** A lock of the n bytes before the read position gives the last n bytes the device delivered,
      in order. */
  lemma LockedIsTail(ring: seq<Byte>, stream: seq<Byte>, n: nat, r: Regions)
    requires Holds(ring, stream) && n <= |stream| && n <= |ring|
    requires Locks(r, |ring|, Place(|stream| - n, |ring|), n)
    ensures forall k: nat :: k < n ==> ring[r.At(k)] == stream[|stream| - n + k]
  {
    var size, t := |ring|, |stream|;
    forall k: nat | k < n ensures ring[r.At(k)] == stream[t - n + k] {
      ModAdd(t - n, k, size);
      assert r.At(k) == Nth(size, Place(t - n, size), k);
      assert Nth(size, Place(t - n, size), k) == (t - n + k) % size;
    }
  }

  /** Between an aligned position and the end of the ring there is room for a frame. */
  lemma RoomForAFrame(w: nat, size: nat, align: nat)
    requires align > 0 && w < size && w % align == 0 && size % align == 0
    ensures (size - w) / align >= 1
  {
    MultiplesApart(w, size, align);
    assert size - w == (size - w) / align * align + (size - w) % align;
  }

  lemma FramesFit(toread: nat, avail: nat, room: nat, align: nat)
    requires align > 0 && toread <= avail
    ensures toread <= room / align ==> toread * align <= room
    ensures toread * align <= avail * align
    ensures (avail - toread) * align == avail * align - toread * align
  {
    if toread <= room / align { assert toread * align <= room / align * align; }
  }

  /** Where the next chunk goes. */
  lemma ChunkPosition(t: nat, n: nat, size: nat, align: nat)
    requires 0 < align && 0 < size && t % size + n <= size && t % align == 0 && n % align == 0
    ensures (t + n) % size == if t % size + n == size then 0 else t % size + n
    ensures (t + n) % align == 0
  {
    SumOfMultiples(t, n, align);
    if n < size {
      AddMod(t, n, size);
    } else {
      AddMultiple(t, 1, size);
    }
  }
}
