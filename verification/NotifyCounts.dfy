/** How often a cyclic play position passes a notification, and what one poll can tell about it
    (src/buffer.cpp:525-569; src/capture.cpp:161-172). */
module NotifyCounts {
  import opened Arith

  /** DSBPN_OFFSETSTOP and DSCBPN_OFFSET_STOP of dsound.h. */
  const OFFSET_STOP: nat := 0xFFFF_FFFF

  /** The number of absolute positions in [a, b) that are at this offset of the buffer. */
  function Laps(o: nat, a: nat, b: nat, size: nat): nat
    requires size > 0
  {
    if b <= a then 0 else Laps(o, a, b - 1, size) + if (b - 1) % size == o then 1 else 0
  }

  /** Buffer::updateNotify and the capture thread signal a position between the last offset they saw
      and the one they see now, src/buffer.cpp:539-556, src/capture.cpp:164-171. */
  predicate Hit(o: nat, last: nat, offset: nat) {
    if offset > last then last <= o < offset
    else if offset < last then (o >= last || o < offset) && o != OFFSET_STOP
    else false
  }

  lemma {:induction false} LapsSplit(o: nat, a: nat, m: nat, b: nat, size: nat)
    requires size > 0 && a <= m <= b
    ensures Laps(o, a, b, size) == Laps(o, a, m, size) + Laps(o, m, b, size)
  {
    if m < b { LapsSplit(o, a, m, b - 1, size); }
  }

  /** The next position of the buffer. */
  lemma NextPlace(p: nat, size: nat)
    requires size > 0
    ensures (p + 1) % size == if p % size + 1 == size then 0 else p % size + 1
  {
    if size > 1 { AddMod(p, 1, size); }
  }

  /** Between two polls less than a lap apart every position is passed at most once, and a hit says
      which ones were. */
  lemma {:induction false} ShortGap(o: nat, a: nat, b: nat, size: nat)
    requires 0 < size < OFFSET_STOP && (o < size || o == OFFSET_STOP) && a <= b < a + size
    ensures Laps(o, a, b, size) == if Hit(o, a % size, b % size) then 1 else 0
  {
    if a < b {
      ShortGap(o, a, b - 1, size);
      NextPlace(b - 1, size);
      AddMod(a, b - a, size);
      AddMod(a, b - 1 - a, size);
    }
  }

  /** A stopped source ended at a multiple of the size at most one lap on: exactly the positions
      from the last one to the end were passed, even for a full lap. */
  lemma LastGap(o: nat, a: nat, b: nat, size: nat)
    requires 0 < size < OFFSET_STOP && (o < size || o == OFFSET_STOP)
    requires a < b <= a + size && b % size == 0
    ensures b == a - a % size + size
    ensures Laps(o, a, b, size) == if Hit(o, a % size, size) then 1 else 0
  {
    NextPlace(b - 1, size);
    ShortGap(o, a, b - 1, size);
    if b == a + size {
      AddMultiple(a, 1, size);
    } else {
      AddMod(a, b - a, size);
    }
    AddMod(a, b - 1 - a, size);
  }

  /** A gap of exactly one lap signals nothing, although every position was passed once. */
  lemma FullGap(o: nat, a: nat, size: nat)
    requires 0 < size < OFFSET_STOP && o < size
    ensures Laps(o, a, a + size, size) == 1 && !Hit(o, a % size, (a + size) % size)
  {
    AddMultiple(a, 1, size);
    NextPlace(a + size - 1, size);
    ShortGap(o, a, a + size - 1, size);
    AddMod(a, size - 1, size);
  }

  /** A longer gap is under-counted: a poll never signals a position twice, and it signals exactly
      what the last incomplete lap passes. */
  lemma {:induction false} LongGap(o: nat, a: nat, d: nat, laps: nat, size: nat)
    requires 0 < size < OFFSET_STOP && o < size && d < size
    ensures laps * size >= 0
    ensures Laps(o, a, a + d + laps * size, size)
            == laps + if Hit(o, a % size, (a + d + laps * size) % size) then 1 else 0
  {
    if laps == 0 {
      ShortGap(o, a, a + d, size);
    } else {
      var m := a + d + (laps - 1) * size;
      assert a + d + laps * size == m + size;
      LongGap(o, a, d, laps - 1, size);
      LapsSplit(o, a, m, m + size, size);
      FullGap(o, m, size);
      AddMultiple(m, 1, size);
    }
  }

  /** A poll that goes from one offset to another signals position o as often as it was passed. */
  ghost predicate Right(o: nat, last: nat, offset: nat, a: nat, b: nat, size: nat)
    requires size > 0
  {
    Laps(o, a, b, size) == if Hit(o, last, offset) then 1 else 0
  }

  /** A poll by a buffer that knows where it was is right for a position, and so for all, if and
      only if less than a lap went by. */
  lemma PollExactIffShort(o: nat, a: nat, b: nat, size: nat)
    requires 0 < size < OFFSET_STOP && a <= b && o < size
    ensures b - a < size <==> Right(o, a % size, b % size, a, b, size)
  {
    var d, laps := (b - a) % size, (b - a) / size;
    assert b - a == d + laps * size;
    LongGap(o, a, d, laps, size);
    if b - a < size {
      DivModUnique(b - a, size, 0, b - a);
    }
  }

  /** No poll signals the position it sees. */
  lemma LateIsWrong(last: nat, a: nat, b: nat, size: nat)
    requires 0 < size < OFFSET_STOP && a + size <= b
    ensures !Right(b % size, last, b % size, a, b, size)
  {
    LapsSplit(b % size, a, b - size, b, size);
    AddMultiple(b - size, 1, size);
    FullGap(b % size, b - size, size);
  }

  /** Two starting points are told apart by one of them. */
  lemma StartsDiffer(last: nat, start: nat, offset: nat, size: nat)
    requires last < size && start < size && offset <= size < OFFSET_STOP && last != start
    ensures (Hit(last, last, offset) != Hit(last, start, offset))
            || (Hit(start, last, offset) != Hit(start, start, offset))
  {
  }

  /** While the source plays or is paused, a poll is right for every position if and only if less
      than a lap went by since the last one and mLastPos is where the source was then. */
  lemma PlayedPollRight(last: nat, a: nat, b: nat, size: nat)
    requires 0 < size < OFFSET_STOP && last < size && a <= b
    ensures (forall o: nat :: o < size ==> Right(o, last, b % size, a, b, size)) <==> b < a + size && a % size == last
  {
    if b >= a + size {
      LateIsWrong(last, a, b, size);
    } else {
      forall o: nat | o < size
        ensures Right(o, last, b % size, a, b, size) <==> (Hit(o, a % size, b % size) <==> Hit(o, last, b % size))
      {
        ShortGap(o, a, b, size);
      }
      if a % size != last {
        StartsDiffer(last, a % size, b % size, size);
        assert !Right(last, last, b % size, a, b, size) || !Right(a % size, last, b % size, a, b, size);
      }
    }
  }

  /** When the source has stopped by itself, at a lap's end unless the position was set afterwards, a
      poll is right for every position if and only if it stopped after the last poll, at most one lap
      on, and mLastPos is where the source was then. */
  lemma StoppedPollRight(last: nat, a: nat, b: nat, size: nat)
    requires 0 < size < OFFSET_STOP && last < size && a <= b && (b % size == 0 || a == b)
    ensures (forall o: nat :: o < size ==> Right(o, last, size, a, b, size)) <==> a < b <= a + size && a % size == last
  {
    if a == b {
      assert !Right(last, last, size, a, b, size);
    } else if b > a + size {
      AddMultiple(b - size, 1, size);
      LastGap(size - 1, b - size, b, size);
      LapsSplit(size - 1, a, b - size, b, size);
      NextPlace(b - size - 1, size);
      assert !Right(size - 1, last, size, a, b, size);
    } else {
      forall o: nat | o < size
        ensures Right(o, last, size, a, b, size) <==> (Hit(o, a % size, size) <==> Hit(o, last, size))
      {
        LastGap(o, a, b, size);
      }
      if a % size != last {
        StartsDiffer(last, a % size, size, size);
        assert !Right(last, last, size, a, b, size) || !Right(a % size, last, size, a, b, size);
      }
    }
  }

  /** Without a source, or with one that has never played, a poll sees offset 0.  Nothing was passed
      since the source was taken, so it is right for every position if and only if mLastPos is 0. */
  lemma UnplayedPollRight(last: nat, a: nat, size: nat)
    requires 0 < size < OFFSET_STOP && last < size
    ensures (forall o: nat :: o < size ==> Right(o, last, 0, a, a, size)) <==> last == 0
  {
    if last != 0 {
      assert !Right(last, last, 0, a, a, size);
    }
  }

  /** A source that stopped at its end before a poll saw it and starts over counts on from that end.
      The next poll, d bytes after the restart, is short by one lap exactly if d has caught up with
      mLastPos; with mLastPos 0 it always is. */
  lemma RestartedPollShort(o: nat, a: nat, end: nat, d: nat, size: nat)
    requires 0 < size < OFFSET_STOP && o < size && d < size
    requires a < end <= a + size && end % size == 0
    ensures Laps(o, a, end + d, size)
         == (if Hit(o, a % size, d) then 1 else 0) + (if d >= a % size then 1 else 0)
  {
    LastGap(o, a, end, size);
    ModAdd(end, d, size);
    DivModUnique(d, size, 0, d);
    if d >= a % size {
      LongGap(o, a, d - a % size, 1, size);
    } else {
      LongGap(o, a, size - a % size + d, 0, size);
    }
  }

  // ---------------------------------------------------------------------------------------
  // A whole registration

  /** The absolute positions at the registration and at the polls that follow, never a lap apart. */
  predicate Polls(ps: seq<nat>, size: nat) {
    |ps| > 0 && forall i :: 0 < i < |ps| ==> ps[i - 1] <= ps[i] < ps[i - 1] + size
  }

  /** How often the polls signal a position. */
  function Signals(o: nat, ps: seq<nat>, size: nat): nat
    requires |ps| > 0 && size > 0
  {
    var n := |ps| - 1;
    if n == 0 then 0
    else Signals(o, ps[..n], size) + if Hit(o, ps[n - 1] % size, ps[n] % size) then 1 else 0
  }

  /** After any number of polls a position has been signalled exactly as often as it was passed
      since the registration. */
  lemma {:induction false} PollsExact(o: nat, ps: seq<nat>, size: nat)
    requires 0 < size < OFFSET_STOP && (o < size || o == OFFSET_STOP) && Polls(ps, size)
    ensures ps[0] <= ps[|ps| - 1]
    ensures Signals(o, ps, size) == Laps(o, ps[0], ps[|ps| - 1], size)
  {
    var n := |ps| - 1;
    if n > 0 {
      PollsExact(o, ps[..n], size);
      LapsSplit(o, ps[0], ps[n - 1], ps[n], size);
      ShortGap(o, ps[n - 1], ps[n], size);
    }
  }

  /** And after the poll that finds the source stopped at the end, even if that poll has a full lap
      to account for. */
  lemma PollsToEndExact(o: nat, ps: seq<nat>, end: nat, size: nat)
    requires 0 < size < OFFSET_STOP && (o < size || o == OFFSET_STOP) && Polls(ps, size)
    requires ps[|ps| - 1] < end <= ps[|ps| - 1] + size && end % size == 0
    ensures Signals(o, ps, size) + (if Hit(o, ps[|ps| - 1] % size, size) then 1 else 0) == Laps(o, ps[0], end, size)
  {
    var last := ps[|ps| - 1];
    PollsExact(o, ps, size);
    LapsSplit(o, ps[0], last, end, size);
    LastGap(o, last, end, size);
  }
}
