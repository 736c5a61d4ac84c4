/** Two-part locks on a cyclic buffer: Buffer::Lock and Buffer::Unlock, src/buffer.cpp:1042-1099 and
    1316-1343.  Capture buffers lock in the same way, see module Capture. */
module CyclicLock {
  import opened Common
  import opened Arith

  /** The four out-parameters of a Lock: a pointer is an offset into the data, None is null. */
  datatype Regions = Regions(ptr1: Option<nat>, bytes1: nat, ptr2: Option<nat>, bytes2: nat) {
    /** The offset of the k-th locked byte. */
    function At(k: nat): nat
      requires ptr1.Some? && k < bytes1 + bytes2 && (bytes2 > 0 ==> ptr2.Some?)
    {
      if k < bytes1 then ptr1.value + k else ptr2.value + (k - bytes1)
    }
  }

  const NO_REGIONS := Regions(None, 0, None, 0)

  /** The k-th byte of the cyclic interval from an offset. */
  function Nth(size: nat, offset: nat, k: nat): nat
    requires size > 0
  {
    (offset + k) % size
  }

  /** Both regions lie in the data and do not meet, and one after the other they are the n bytes
      of the cyclic interval that starts at the offset. */
  ghost predicate Locks(r: Regions, size: nat, offset: nat, n: nat) {
    && size > 0 && r.ptr1.Some? && r.ptr1.value == offset && r.bytes1 + r.bytes2 == n
    && offset + r.bytes1 <= size
    && (r.ptr2.Some? <==> r.bytes2 > 0) && (r.ptr2.Some? ==> r.ptr2.value == 0 && r.bytes2 <= offset)
    && forall k: nat :: k < n ==> r.At(k) == Nth(size, offset, k)
  }

  /** Without the second pair of out-parameters only the part up to the end is handed out. */
  ghost predicate LocksFirst(r: Regions, size: nat, offset: nat, n: nat) {
    && offset <= size
    && r == Regions(Some(offset), if offset + n <= size then n else size - offset, None, 0)
  }

  /** The offsets two lock calls compute are those of the cyclic interval. */
  lemma SplitLocks(size: nat, offset: nat, n: nat, r: Regions)
    requires size > 0 && offset <= size && n <= size
    requires r == if offset + n <= size then Regions(Some(offset), n, None, 0)
                  else Regions(Some(offset), size - offset, Some(0), n - (size - offset))
    ensures Locks(r, size, offset, n)
  {
    forall k: nat | k < n ensures r.At(k) == Nth(size, offset, k) {
      if offset + k < size {
        DivModUnique(offset + k, size, 0, offset + k);
      } else {
        DivModUnique(offset + k, size, 1, offset + k - size);
      }
    }
  }

  /** No byte is locked twice, and the locked bytes are exactly those of the interval. */
  lemma LocksExactly(r: Regions, size: nat, offset: nat, n: nat, i: nat)
    requires Locks(r, size, offset, n)
    ensures (r.ptr1.value <= i < r.ptr1.value + r.bytes1)
            || (r.ptr2.Some? && r.ptr2.value <= i < r.ptr2.value + r.bytes2)
            <==> exists k: nat :: k < n && Nth(size, offset, k) == i
    ensures forall k: nat, l: nat :: k < l < n ==> r.At(k) != r.At(l)
  {
    if r.ptr1.value <= i < r.ptr1.value + r.bytes1 {
      assert r.At(i - r.ptr1.value) == i;
    }
    if r.ptr2.Some? && r.ptr2.value <= i < r.ptr2.value + r.bytes2 {
      assert r.At(r.bytes1 + (i - r.ptr2.value)) == i;
    }
    if k: nat :| k < n && Nth(size, offset, k) == i {
      assert r.At(k) == i;
    }
  }

  /** The lock state of a playback buffer. */
  class PlaybackLock {
    /** mBuffer->mData.size(). */
    const size: nat
    var mLocked: bool

    constructor (size: nat)
      ensures this.size == size && !mLocked
    {
      this.size, mLocked := size, false;
    }

    /** Buffer::Lock.  `pair1` and `pair2` say whether both pointers of a pair of out-parameters are
        given; `writeCursor` is what GetCurrentPosition would report. */
    method Lock(offset: nat, bytes: nat, pair1: bool, pair2: bool, fromWriteCursor: bool, writeCursor: nat,
                entireBuffer: bool) returns (hr: HResult, r: Regions)
      requires size > 0 && writeCursor < size
      modifies this
      ensures var start, n := if fromWriteCursor then writeCursor else offset, if entireBuffer then size else bytes;
              && hr == (if pair1 && start < size && n <= size && !old(mLocked) then DsOk else InvalidParam)
              && (hr == DsOk && pair2 ==> Locks(r, size, start, n))
              && (hr == DsOk && !pair2 ==> LocksFirst(r, size, start, n))
      ensures hr != DsOk ==> r == NO_REGIONS
      ensures mLocked == (old(mLocked) || hr == DsOk)
    {
      r := NO_REGIONS;
      if !pair1 { return InvalidParam, r; }
      var offset, bytes := offset, bytes;
      if fromWriteCursor {
        offset := writeCursor;
      } else if offset >= size {
        return InvalidParam, r;
      }
      if entireBuffer {
        bytes := size;
      } else if bytes > size {
        return InvalidParam, r;
      }

      var was := mLocked;
      mLocked := true;
      if was { return InvalidParam, r; }

      var remain := 0;
      r := r.(ptr1 := Some(offset));
      if bytes > size - offset {
        r := r.(bytes1 := size - offset);
        remain := bytes - r.bytes1;
      } else {
        r := r.(bytes1 := bytes);
      }
      if pair2 && remain != 0 {
        r := r.(ptr2 := Some(0), bytes2 := remain);
      }
      if pair2 { SplitLocks(size, offset, bytes, r); }
      return DsOk, r;
    }

    /** Buffer::Unlock.  A pointer is its distance from the data, as an unsigned address; None is a
        null second pointer.  A refused Unlock clears the lock all the same. */
    method Unlock(ofs1: nat, bytes1: nat, ptr2: Option<nat>, bytes2: nat) returns (hr: HResult)
      modifies this
      ensures !mLocked
      ensures hr == if old(mLocked) && ofs1 < size && ofs1 + bytes1 <= size && ptr2 in {None, Some(0)}
                       && bytes2 <= ofs1 then DsOk else InvalidParam
    {
      var was := mLocked;
      mLocked := false;
      if !was { return InvalidParam; }
      var ofs2 := if ptr2.Some? then ptr2.value else 0;
      if ofs1 >= size || size - ofs1 < bytes1 || ofs2 != 0 || bytes2 > ofs1 { return InvalidParam; }
      return DsOk;
    }

    /** A Lock with both pairs of out-parameters, and an Unlock of what it gave, or of less: if the
        Lock succeeds, so does the Unlock, and the buffer is left unlocked. */
    method LockThenUnlock(offset: nat, bytes: nat, fromWriteCursor: bool, writeCursor: nat, entireBuffer: bool,
                          less1: nat, less2: nat) returns (hr: HResult, hr': HResult)
      requires size > 0 && writeCursor < size
      modifies this
      ensures hr == DsOk ==> hr' == DsOk && !mLocked
    {
      var r;
      hr, r := Lock(offset, bytes, true, true, fromWriteCursor, writeCursor, entireBuffer);
      hr' := hr;
      if hr == DsOk {
        hr' := Unlock(r.ptr1.value, if less1 <= r.bytes1 then r.bytes1 - less1 else 0,
                      r.ptr2, if less2 <= r.bytes2 then r.bytes2 - less2 else 0);
      }
    }
  }
}
