/** Position notifications: the part of a buffer that polls its play position, and the list of
    buffers the notify thread polls (src/buffer.cpp:525-569, 1143-1200, 1286-1312, 2450-2507;
    src/dsoundoal.cpp:434-480; src/dsoundoal.h:196-216). */
module Notify {
  import opened Common
  import opened Arith
  import opened Sizes
  import opened NotifyCounts

  /** What OpenAL keeps: the state, the byte offset at which the source is or will next start, and
      whether it loops. */
  datatype Source = Source(state: AlState, next: nat, looping: bool)

  /** What a setLocation call inside Play does to the source. */
  datatype Located = SameSource | NewSource | LostSource | Refused

  /** How often each notification is passed while the position goes from a to b. */
  ghost function Passed(notifies: seq<nat>, a: nat, b: nat, size: nat): (r: seq<nat>)
    requires size > 0
    ensures |r| == |notifies|
  {
    seq(|notifies|, i requires 0 <= i < |notifies| => Laps(notifies[i], a, b, size))
  }

  ghost function Plus(s: seq<nat>, t: seq<nat>): (r: seq<nat>)
    requires |s| == |t|
    ensures |r| == |s|
  {
    seq(|s|, i requires 0 <= i < |s| => s[i] + t[i])
  }

  /** What a poll signals: once every position it hits. */
  ghost function Hits(notifies: seq<nat>, last: nat, offset: nat): (r: seq<nat>)
    ensures |r| == |notifies|
  {
    seq(|notifies|, i requires 0 <= i < |notifies| => if Hit(notifies[i], last, offset) then 1 else 0)
  }

  /** By how much the entries of s exceed those of t. */
  ghost function Excess(s: seq<nat>, t: seq<nat>): (r: seq<nat>)
    requires |s| == |t|
    ensures |r| == |s|
  {
    seq(|s|, i requires 0 <= i < |s| => if s[i] > t[i] then s[i] - t[i] else 0)
  }

  function Zeros(n: nat): (r: seq<nat>)
    ensures |r| == n
  {
    seq(n, _ => 0)
  }

  /** The fields of a buffer. */
  datatype View = View(
    source: Option<Source>, lastPos: nat, notifies: seq<nat>,
    signals: seq<nat>, due: seq<nat>, missed: seq<nat>, extra: seq<nat>, exact: bool,
    pos: nat, lastP: nat, rounds: nat)
  {
    /** The offset a poll sees: a source that stopped by itself is at the end, and one that does not
        play or pause is at 0. */
    function PollOffset(size: nat): nat {
      if source.None? || source.value.state == Initial then 0
      else if source.value.state == Stopped then size else source.value.next
    }

    /** Whether the next poll signals what was passed since the last one.  It does if the buffer knows
        where its source was then and less than a lap went by, or no more than one up to the end at
        which the source stopped; with no source that ever played, lastPos has to be 0. */
    predicate Trusted(size: nat)
      requires size > 0
    {
      if source.None? || source.value.state == Initial then lastPos == 0
      else if source.value.state == Stopped then lastP < pos <= lastP + size && lastP % size == lastPos
      else pos < lastP + size && lastP % size == lastPos
    }
  }

  /** What one poll does: it signals its hits, and the stop notifications if the source does not play;
      hits and passes that differ are booked; and then the buffer is up to date. */
  ghost predicate Polled(v: View, v': View, size: nat) {
    && size > 0 && |v.notifies| == |v.signals| == |v.missed| == |v.extra| == |v'.signals|
    && var hits := Hits(v.notifies, v.lastPos, v.PollOffset(size));
       var passes := Passed(v.notifies, v.lastP, v.pos, size);
       var plays := v.source.Some? && v.source.value.state == Playing;
       && v' == v.(signals := v'.signals, lastPos := v.PollOffset(size), lastP := v.pos,
                   missed := Plus(v.missed, Excess(passes, hits)), extra := Plus(v.extra, Excess(hits, passes)))
       && forall i :: 0 <= i < |v.notifies| ==>
            v'.signals[i] == v.signals[i] + hits[i] + if !plays && v.notifies[i] == OFFSET_STOP then 1 else 0
  }

  /** And the buffer stays exact only if the poll was trusted. */
  ghost predicate AfterPoll(v: View, v': View, size: nat) {
    size > 0 && Polled(v.(exact := v.exact && v.Trusted(size)), v', size)
  }

  /** A poll books something for a position if and only if it does not signal it as often as it was
      passed. */
  lemma BooksChange(v: View, v': View, size: nat)
    requires AfterPoll(v, v', size)
    ensures forall i :: 0 <= i < |v.notifies| ==>
              (v'.missed[i] == v.missed[i] && v'.extra[i] == v.extra[i]
               <==> Right(v.notifies[i], v.lastPos, v.PollOffset(size), v.lastP, v.pos, size))
  {
    var hits := Hits(v.notifies, v.lastPos, v.PollOffset(size));
    var passes := Passed(v.notifies, v.lastP, v.pos, size);
    forall i | 0 <= i < |v.notifies|
      ensures v'.missed[i] == v.missed[i] + Excess(passes, hits)[i]
      ensures v'.extra[i] == v.extra[i] + Excess(hits, passes)[i]
    {
    }
  }

  class Buffer {
    const mParent: DSound8OAL
    const size: nat
    const align: nat
    /** nSamplesPerSec. */
    const rate: nat
    /** DSBCAPS_CTRLPOSITIONNOTIFY. */
    const ctrlNotify: bool
    var mSource: Option<Source>
    var mLastPos: nat
    /** The offsets of the notifications. */
    var mNotifies: seq<nat>

    /** How often the event of each notification was signalled since the notifications were set. */
    ghost var signals: seq<nat>
    /** How often the play position passed each while the buffer was registered. */
    ghost var due: seq<nat>
    /** How many of those passes were never signalled, and how many signals were for no pass. */
    ghost var missed: seq<nat>
    ghost var extra: seq<nat>
    /** Every poll since the notifications were set was trusted, and no pass was dropped. */
    ghost var exact: bool
    /** The play position, counted without wrapping, and what it was when mLastPos was set. */
    ghost var pos: nat
    ghost var lastP: nat
    /** How many registrations there were since then. */
    ghost var rounds: nat

    predicate IsPlaying()
      reads this`mSource
    {
      mSource.Some? && mSource.value.state == Playing
    }

    /** AL_BYTE_OFFSET: 0 unless the source is playing or paused. */
    function Offset(): nat
      reads this`mSource
    {
      if mSource.Some? && mSource.value.state in {Playing, Paused} then mSource.value.next else 0
    }

    ghost predicate Shape()
      reads this
    {
      && 0 < align && Word(align) && 0 < size <= SIZE_MAX && size % align == 0 && rate <= FREQUENCY_MAX
      && mLastPos <= size && mLastPos % align == 0
      && (mSource.Some? ==> mSource.value.next < size && mSource.value.next % align == 0)
      && |signals| == |due| == |missed| == |extra| == |mNotifies|
      && forall i :: 0 <= i < |mNotifies| ==> mNotifies[i] < size || mNotifies[i] == OFFSET_STOP
    }

    /** Every stop notification has been signalled once for each registration that ended. */
    ghost predicate StopsCounted(registered: bool)
      requires |signals| == |mNotifies|
      reads this
    {
      forall i :: 0 <= i < |mNotifies| && mNotifies[i] == OFFSET_STOP ==>
        signals[i] + (if registered then 1 else 0) == rounds
    }

    /** The books: every position has been signalled as often as it was passed, but for what is booked
        as missed or extra, and for the passes since the last poll. */
    ghost predicate PassesCounted(registered: bool)
      requires size > 0 && |signals| == |due| == |missed| == |extra| == |mNotifies|
      reads this
    {
      forall i :: 0 <= i < |mNotifies| && mNotifies[i] < size ==>
        signals[i] + missed[i] + (if registered then Laps(mNotifies[i], lastP, pos, size) else 0) == due[i] + extra[i]
    }

    /** Where the play position is. */
    ghost predicate InPlace()
      requires size > 0
      reads this
    {
      && lastP <= pos
      && (mSource.None? || mSource.value.state == Initial ==> lastP == pos)
      && (mSource.Some? && mSource.value.state != Initial ==> pos % size == mSource.value.next)
      && (mSource.Some? && mSource.value.state == Stopped ==> mSource.value.next == 0 || lastP == pos)
    }

    /** Nothing is booked as missed or extra at any position. */
    ghost predicate Clean()
      requires |missed| == |extra| == |mNotifies|
      reads this`missed, this`extra, this`mNotifies
    {
      forall i :: 0 <= i < |mNotifies| && mNotifies[i] < size ==> missed[i] == 0 == extra[i]
    }

    /** As long as the buffer is exact, then, every position has been signalled exactly as often as it was
        passed, up to the last poll. */
    ghost predicate Accounted(registered: bool)
      reads this
    {
      && Shape() && InPlace() && StopsCounted(registered) && PassesCounted(registered)
      && (exact ==> Clean()) && (registered || mNotifies != [] ==> ctrlNotify)
    }

    predicate IsPaused()
      reads this`mSource
    {
      mSource.Some? && mSource.value.state == Paused
    }

    /** What holds between calls. */
    ghost predicate Valid(registered: bool)
      reads this
    {
      || (registered && Accounted(true) && mLastPos < size && !IsPaused())
      || (!registered && Accounted(false) && (IsPlaying() ==> mNotifies == [])
          && (IsPaused() ==> mLastPos == mSource.value.next))
    }

    /** What holds of a registered buffer when it is polled: it may just have been paused. */
    ghost predicate Pollable()
      reads this
    {
      Valid(true) || (IsPaused() && Accounted(true) && mLastPos < size)
    }

    /** All fields. */
    ghost function Snap(): View
      reads this
    {
      View(mSource, mLastPos, mNotifies, signals, due, missed, extra, exact, pos, lastP, rounds)
    }

    constructor (parent: DSound8OAL, size: nat, align: nat, rate: nat, ctrlNotify: bool)
      requires 0 < align && Word(align) && 0 < size <= SIZE_MAX && size % align == 0 && rate <= FREQUENCY_MAX
      ensures mParent == parent && this.size == size && this.align == align && this.rate == rate
      ensures this.ctrlNotify == ctrlNotify
      ensures Valid(false) && mSource.None? && mNotifies == [] && mLastPos == pos == lastP == 0 && exact
    {
      mParent := parent;
      this.size, this.align, this.rate, this.ctrlNotify := size, align, rate, ctrlNotify;
      mSource, mLastPos, mNotifies := None, 0, [];
      signals, due, missed, extra, exact, pos, lastP, rounds := [], [], [], [], true, 0, 0, 0;
    }

    // -------------------------------------------------------------------------------------
    // Polling

    /** The offset a poll sees: a source that stopped by itself is at the end. */
    function PollOffset(): nat
      reads this`mSource
    {
      if mSource.Some? && mSource.value.state == Stopped then size else Offset()
    }

    ghost predicate Trusted()
      requires size > 0
      reads this
    {
      Snap().Trusted(size)
    }

    /** The next poll signals every position of the buffer exactly as often as it was passed since the
        last poll, if and only if it is trusted. */
    lemma PollRightIffTrusted()
      requires 0 < size < OFFSET_STOP && mLastPos < size && InPlace()
      ensures PollRight() <==> Trusted()
    {
      if mSource.None? || mSource.value.state == Initial {
        UnplayedRight();
      } else if mSource.value.state == Stopped {
        StoppedRight();
      } else {
        PlayedRight();
      }
    }

    lemma StoppedRight()
      requires 0 < size < OFFSET_STOP && mLastPos < size && lastP <= pos && (pos % size == 0 || lastP == pos)
      requires mSource.Some? && mSource.value.state == Stopped
      ensures PollRight() <==> lastP < pos <= lastP + size && lastP % size == mLastPos
    {
      StoppedPollRight(mLastPos, lastP, pos, size);
      assert PollOffset() == size;
    }

    lemma PlayedRight()
      requires 0 < size < OFFSET_STOP && mLastPos < size && lastP <= pos
      requires mSource.Some? && mSource.value.state in {Playing, Paused} && mSource.value.next == pos % size
      ensures PollRight() <==> pos < lastP + size && lastP % size == mLastPos
    {
      PlayedPollRight(mLastPos, lastP, pos, size);
      assert PollOffset() == pos % size;
    }

    ghost predicate PollRight()
      requires size > 0
      reads this
    {
      forall o: nat :: o < size ==> Right(o, mLastPos, PollOffset(), lastP, pos, size)
    }

    lemma UnplayedRight()
      requires 0 < size < OFFSET_STOP && mLastPos < size && lastP == pos
      requires mSource.None? || mSource.value.state == Initial
      ensures PollRight() <==> mLastPos == 0
    {
      UnplayedPollRight(mLastPos, pos, size);
      assert PollOffset() == 0;
    }

    /** A trusted poll hits each position as often as it was passed. */
    lemma TrustedHits()
      requires Shape() && InPlace() && mLastPos < size && Trusted()
      ensures Foreseen()
    {
      PollRightIffTrusted();
      forall i | 0 <= i < |mNotifies| && mNotifies[i] < size
        ensures Right(mNotifies[i], mLastPos, PollOffset(), lastP, pos, size)
      {
      }
    }

    /** Buffer::updateNotify, src/buffer.cpp:525-569.  It signals every offset as often as it was passed
        if and only if the poll was trusted; and books are kept of exactly those that it does not. */
    method UpdateNotify() returns (more: bool)
      requires Pollable()
      modifies this`mLastPos, this`signals, this`lastP, this`missed, this`extra, this`exact
      ensures more == IsPlaying() && Valid(more) && AfterPoll(old(Snap()), Snap(), size)
      ensures old(Trusted()) <==> old(PollRight())
      ensures forall i :: 0 <= i < |mNotifies| ==>
                (missed[i] == old(missed[i]) && extra[i] == old(extra[i])
                 <==> old(Right(mNotifies[i], mLastPos, PollOffset(), lastP, pos, size)))
    {
      PollRightIffTrusted();
      Judge();
      more := Poll();
      BooksChange(old(Snap()), Snap(), size);
    }

    /** src/buffer.cpp:527-568 */
    method Poll() returns (more: bool)
      requires Pollable() && (exact ==> Foreseen())
      modifies this`mLastPos, this`signals, this`lastP, this`missed, this`extra
      ensures more == IsPlaying() && Valid(more) && Polled(old(Snap()), Snap(), size)
    {
      CatchUp();
      more := IsPlaying();
      if !more {
        SignalStops();
      }
    }

    /** Whether the buffer stays exact. */
    ghost method Judge()
      requires Pollable()
      modifies this`exact
      ensures Pollable() && exact == old(exact && Trusted()) && (exact ==> Foreseen())
    {
      if Trusted() { TrustedHits(); }
      exact := exact && Trusted();
    }

    /** The next poll hits each position as often as it was passed. */
    ghost predicate Foreseen()
      requires size > 0
      reads this
    {
      var hits, passes := Hits(mNotifies, mLastPos, PollOffset()), Passed(mNotifies, lastP, pos, size);
      forall i :: 0 <= i < |mNotifies| && mNotifies[i] < size ==> hits[i] == passes[i]
    }

    /** src/buffer.cpp:527-557 */
    method CatchUp()
      requires Pollable() && (exact ==> Foreseen())
      modifies this`mLastPos, this`signals, this`lastP, this`missed, this`extra
      ensures Shape() && StopsCounted(true) && PassesCounted(true) && InPlace() && (exact ==> Clean())
      ensures lastP == pos && mLastPos == PollOffset() && (IsPlaying() ==> mLastPos < size)
      ensures var hits := Hits(mNotifies, old(mLastPos), PollOffset());
              var passes := Passed(mNotifies, old(lastP), pos, size);
              && signals == Plus(old(signals), hits)
              && missed == Plus(old(missed), Excess(passes, hits)) && extra == Plus(old(extra), Excess(hits, passes))
    {
      SignalHits();
      Balanced();
    }

    /** A poll leaves the books balanced. */
    twostate lemma Balanced()
      requires old(Pollable()) && old(exact ==> Foreseen()) && exact == old(exact)
      requires unchanged(`mSource, `mNotifies, `due, `pos, `rounds) && |signals| == |missed| == |extra| == |mNotifies|
      requires lastP == pos && mLastPos == PollOffset()
      requires var hits := Hits(mNotifies, old(mLastPos), PollOffset());
               var passes := Passed(mNotifies, old(lastP), pos, size);
               && signals == Plus(old(signals), hits)
               && missed == Plus(old(missed), Excess(passes, hits)) && extra == Plus(old(extra), Excess(hits, passes))
      ensures Shape() && StopsCounted(true) && PassesCounted(true) && InPlace() && (exact ==> Clean())
    {
    }

    /** Signal, book and remember, src/buffer.cpp:539-557. */
    method SignalHits()
      requires Pollable()
      modifies this`mLastPos, this`signals, this`lastP, this`missed, this`extra
      ensures lastP == pos && mLastPos == PollOffset() && (IsPlaying() ==> mLastPos < size)
      ensures |signals| == |missed| == |extra| == |mNotifies|
      ensures var hits := Hits(mNotifies, old(mLastPos), PollOffset());
              var passes := Passed(mNotifies, old(lastP), pos, size);
              && signals == Plus(old(signals), hits)
              && missed == Plus(old(missed), Excess(passes, hits)) && extra == Plus(old(extra), Excess(hits, passes))
    {
      var offset := PollOffset();
      SignalPositions(offset);
      Book(Hits(mNotifies, mLastPos, offset), Passed(mNotifies, lastP, pos, size));
      mLastPos := offset;
      lastP := pos;
    }

    /** Book the hits of a poll that were for no pass, and the passes it did not hit. */
    ghost method Book(hits: seq<nat>, passes: seq<nat>)
      requires |hits| == |passes| == |missed| == |extra| == |mNotifies|
      modifies this`missed, this`extra
      ensures missed == Plus(old(missed), Excess(passes, hits)) && extra == Plus(old(extra), Excess(hits, passes))
    {
      missed, extra := Plus(missed, Excess(passes, hits)), Plus(extra, Excess(hits, passes));
    }

    /** src/buffer.cpp:539-556 */
    method SignalPositions(offset: nat)
      requires |signals| == |mNotifies|
      modifies this`signals
      ensures signals == Plus(old(signals), Hits(mNotifies, mLastPos, offset))
    {
      if offset > mLastPos {
        for i := 0 to |mNotifies|
          invariant |signals| == |mNotifies|
          invariant forall j :: 0 <= j < |mNotifies| ==>
            signals[j] == old(signals)[j] + if j < i && Hit(mNotifies[j], mLastPos, offset) then 1 else 0
        {
          if mNotifies[i] >= mLastPos && mNotifies[i] < offset {
            signals := signals[i := signals[i] + 1];
          }
        }
      } else if offset < mLastPos {
        for i := 0 to |mNotifies|
          invariant |signals| == |mNotifies|
          invariant forall j :: 0 <= j < |mNotifies| ==>
            signals[j] == old(signals)[j] + if j < i && Hit(mNotifies[j], mLastPos, offset) then 1 else 0
        {
          if (mNotifies[i] >= mLastPos || mNotifies[i] < offset) && mNotifies[i] != OFFSET_STOP {
            signals := signals[i := signals[i] + 1];
          }
        }
      }
    }

    /** src/buffer.cpp:559-566 */
    method SignalStops()
      requires |signals| == |mNotifies|
      modifies this`signals
      ensures |signals| == |mNotifies|
      ensures forall i :: 0 <= i < |mNotifies| ==>
                signals[i] == old(signals)[i] + if mNotifies[i] == OFFSET_STOP then 1 else 0
    {
      for i := 0 to |mNotifies|
        invariant |signals| == |mNotifies|
        invariant forall j :: 0 <= j < |mNotifies| ==>
          signals[j] == old(signals)[j] + if j < i && mNotifies[j] == OFFSET_STOP then 1 else 0
      {
        if mNotifies[i] == OFFSET_STOP {
          signals := signals[i := signals[i] + 1];
        }
      }
    }

    // -------------------------------------------------------------------------------------
    // What OpenAL does

    /** The source plays on, not past the end unless it loops. */
    method Advance(d: nat)
      requires mParent.Valid() && this in mParent.live && IsPlaying()
      requires d % align == 0 && (mSource.value.looping || mSource.value.next + d < size)
      modifies this`mSource, this`pos, this`due
      ensures mParent.Valid()
      ensures mSource == Some(old(mSource.value).(next := (old(mSource.value.next) + d) % size))
      ensures pos == old(pos) + d && due == Plus(old(due), Passed(mNotifies, old(pos), pos, size))
    {
      var next := (mSource.value.next + d) % size;
      AdvancedPlace(mSource.value.next, d, pos, size, align);
      SplitPasses(pos + d);
      Move(mSource.value.(next := next), pos + d);
      mParent.OneChanged(this);
    }

    /** A new play position, and what it passed on the way. */
    method Move(source: Source, ghost target: nat)
      requires size > 0 && |due| == |mNotifies|
      modifies this`mSource, this`pos, this`due
      ensures mSource == Some(source) && pos == target
      ensures due == Plus(old(due), Passed(mNotifies, old(pos), pos, size))
    {
      due := Plus(due, Passed(mNotifies, pos, target, size));
      mSource, pos := Some(source), target;
    }

    /** The source reaches the end of the buffer and stops. */
    method ReachEnd()
      requires mParent.Valid() && this in mParent.live && IsPlaying() && !mSource.value.looping
      modifies this`mSource, this`pos, this`due
      ensures mParent.Valid() && mSource == Some(Source(AlState.Stopped, 0, false))
      ensures pos == old(pos) + size - old(mSource.value.next)
      ensures due == Plus(old(due), Passed(mNotifies, old(pos), pos, size))
    {
      ghost var end := pos + size - mSource.value.next;
      EndPlace(pos, size);
      SplitPasses(end);
      Move(Source(AlState.Stopped, 0, false), end);
      mParent.OneChanged(this);
    }

    predicate Registered()
      reads mParent`mNotifyBuffers
    {
      this in mParent.mNotifyBuffers
    }

    lemma SplitPasses(target: nat)
      requires size > 0 && lastP <= pos <= target
      ensures forall i :: 0 <= i < |mNotifies| ==>
                Laps(mNotifies[i], lastP, target, size)
                == Laps(mNotifies[i], lastP, pos, size) + Laps(mNotifies[i], pos, target, size)
    {
      forall i | 0 <= i < |mNotifies|
        ensures Laps(mNotifies[i], lastP, target, size)
                == Laps(mNotifies[i], lastP, pos, size) + Laps(mNotifies[i], pos, target, size)
      {
        LapsSplit(mNotifies[i], lastP, pos, target, size);
      }
    }

    // -------------------------------------------------------------------------------------
    // The calls

    /** Passes since the last poll of a registered buffer can no longer be seen. */
    ghost function AllMissed(): (r: seq<nat>)
      requires size > 0 && |missed| == |mNotifies|
      reads this, mParent`mNotifyBuffers
    {
      if Registered() then Plus(missed, Passed(mNotifies, lastP, pos, size)) else missed
    }

    ghost predicate NoneDropped()
      requires size > 0
      reads this, mParent`mNotifyBuffers
    {
      Registered() ==> forall i :: 0 <= i < |mNotifies| && mNotifies[i] < size ==>
        Laps(mNotifies[i], lastP, pos, size) == 0
    }

    ghost method Miss(at: nat)
      requires size > 0 && |missed| == |mNotifies|
      modifies this`missed, this`exact, this`pos, this`lastP
      ensures missed == old(AllMissed()) && exact == old(exact && NoneDropped()) && pos == lastP == at
    {
      missed, exact := AllMissed(), exact && NoneDropped();
      pos, lastP := at, at;
    }

    /** A setLocation call, as far as the source goes. */
    method Relocate(located: Located)
      requires Valid(Registered()) && (located in {NewSource, LostSource} ==> !IsPlaying())
      modifies this`mSource, this`missed, this`exact, this`lastP, this`pos
      ensures Valid(Registered()) && pos == old(pos)
      ensures located == NewSource ==> mSource == Some(Source(Initial, 0, false))
      ensures located == LostSource ==> mSource == None
      ensures located in {NewSource, LostSource} ==>
                missed == old(AllMissed()) && exact == old(exact && NoneDropped()) && lastP == pos
      ensures located in {SameSource, Refused} ==> Snap() == old(Snap())
    {
      if located in {NewSource, LostSource} {
        mSource := if located == NewSource then Some(Source(Initial, 0, false)) else None;
        Miss(pos);
      }
    }

    /** The setLocation call of Buffer::AcquireResources, src/buffer.cpp:1450-1451. */
    method AcquireResources(located: Located) returns (hr: HResult)
      requires mParent.Valid() && this in mParent.live
      requires if IsPlaying() then located in {SameSource, Refused} else located == SameSource ==> mSource.Some?
      modifies this`mSource, this`missed, this`exact, this`lastP, this`pos
      ensures mParent.Valid() && pos == old(pos)
      ensures hr == if located in {LostSource, Refused} then Allocated else DsOk
      ensures if located in {NewSource, LostSource}
              then && missed == old(AllMissed()) && exact == old(exact && NoneDropped()) && lastP == pos
                   && mSource == if located == NewSource then Some(Source(Initial, 0, false)) else None
              else Snap() == old(Snap())
    {
      Relocate(located);
      mParent.OneChanged(this);
      hr := if located in {LostSource, Refused} then Allocated else DsOk;
    }

    /** The unmarked source of Prop::Set, src/buffer.cpp:2256-2260. */
    method EnsureSource()
      requires mParent.Valid() && this in mParent.live
      modifies this`mSource
      ensures mParent.Valid()
      ensures mSource == if old(mSource).None? then Some(Source(Initial, 0, false)) else old(mSource)
    {
      if mSource.None? {
        mSource := Some(Source(Initial, 0, false));
      }
      mParent.OneChanged(this);
    }

    /** Buffer::SetCurrentPosition, src/buffer.cpp:1178-1195.  The position jumps, and the passes since
        the last poll are missed. */
    method SetCurrentPosition(newPosition: nat) returns (hr: HResult)
      requires mParent.Valid() && this in mParent.live
      modifies this`mSource, this`mLastPos, this`missed, this`exact, this`pos, this`lastP
      ensures mParent.Valid()
      ensures hr == if newPosition < size then DsOk else InvalidParam
      ensures hr == DsOk ==>
                && pos == lastP == mLastPos == newPosition - newPosition % align
                && missed == old(AllMissed()) && exact == old(exact && NoneDropped())
                && mSource == if old(mSource).None? then None else Some(old(mSource).value.(next := mLastPos))
      ensures hr != DsOk ==> Snap() == old(Snap())
    {
      if newPosition >= size { return InvalidParam; }
      FloorMultiple(newPosition, align);
      Jump(newPosition - newPosition % align);
      mParent.OneChanged(this);
      return DsOk;
    }

    /** src/buffer.cpp:1186-1192 */
    method Jump(position: nat)
      requires Valid(Registered()) && position < size && position % align == 0
      modifies this`mSource, this`mLastPos, this`missed, this`exact, this`pos, this`lastP
      ensures Valid(Registered()) && pos == lastP == mLastPos == position
      ensures missed == old(AllMissed()) && exact == old(exact && NoneDropped())
      ensures mSource == if old(mSource).None? then None else Some(old(mSource).value.(next := position))
    {
      if mSource.Some? {
        mSource := Some(mSource.value.(next := position));
      }
      mLastPos := position;
      Miss(position);
      assert position % size == position by { DivModUnique(position, size, 0, position); }
    }

    /** How far the write cursor is ahead while the buffer plays: one update's worth of frames. */
    function Ahead(): nat
      requires mParent.mRefresh > 0
    {
      Product(rate / mParent.mRefresh, align)
    }

    /** Buffer::GetCurrentPosition, src/buffer.cpp:809-867, in 32-bit arithmetic: both cursors are
        inside the buffer and on block boundaries, and no sum wraps at 2^32. */
    method GetCurrentPosition() returns (playCursor: nat, writeCursor: nat)
      requires Shape() && 20 <= mParent.mRefresh <= 100
      ensures playCursor < size && playCursor % align == 0
      ensures writeCursor < size && writeCursor % align == 0
      ensures playCursor == if mSource.Some? && mSource.value.state in {Playing, Paused} then mSource.value.next
                            else if mSource.Some? && mSource.value.state == Stopped then 0 else Wrapped()
      ensures writeCursor == if IsPlaying() then (playCursor + rate / mParent.mRefresh * align) % size else playCursor
    {
      var pos := Position();
      writeCursor := pos;
      if IsPlaying() {
        writeCursor := OneUpdate();
        writeCursor := (writeCursor + pos) % TWO_32;
      }
      CursorsWrap(pos, if IsPlaying() then Ahead() else 0, size, align);
      WriteAhead(rate, mParent.mRefresh, align, size);
      playCursor := pos % size;
      writeCursor := writeCursor % size;
    }

    /** src/buffer.cpp:829 */
    method OneUpdate() returns (ahead: nat)
      requires Shape() && 20 <= mParent.mRefresh <= 100
      ensures ahead == Ahead() && ahead + size < TWO_32
    {
      WriteAhead(rate, mParent.mRefresh, align, size);
      ahead := (rate / mParent.mRefresh * align) % TWO_32;
    }

    /** src/buffer.cpp:826-851 */
    method Position() returns (pos: nat)
      requires Shape()
      ensures pos <= size && pos % align == 0
      ensures pos == if mSource.Some? && mSource.value.state in {Playing, Paused} then mSource.value.next
                     else if mSource.Some? && mSource.value.state == Stopped then size else mLastPos
    {
      match if mSource.None? then Initial else mSource.value.state
      case Stopped => pos := size;
      case Playing => pos := Offset();
      case Paused => pos := Offset();
      case Initial => pos := mLastPos;
    }

    /** mLastPos as Play leaves it: a position, where a stopped source may have left the size. */
    function Wrapped(): nat
      reads this`mLastPos
    {
      if mLastPos == size then 0 else mLastPos
    }

    /** Where the source starts when Play starts it. */
    function StartsAt(): nat
      requires mSource.Some?
      reads this`mSource, this`mLastPos
    {
      if mSource.value.state == Initial then Wrapped() else mSource.value.next
    }

    /** A registered buffer whose source stopped before a poll saw it counts on from there. */
    predicate CountsOn()
      requires mSource.Some?
      reads this`mSource, mParent`mNotifyBuffers
    {
      Registered() && mSource.value.state == Stopped
    }

    /** The part of Play after the test for a playing source, src/buffer.cpp:1157-1162. */
    method Prepare()
      requires Valid(Registered()) && mSource.Some? && !IsPlaying()
      modifies this`mSource, this`mLastPos
      ensures Valid(Registered()) && mLastPos == old(Wrapped()) < size && mLastPos % align == 0
      ensures mSource == Some(old(mSource).value.(next := old(StartsAt())))
    {
      LastPosWraps(mLastPos, size, align);
      mLastPos := mLastPos % size;
      if mSource.value.state == Initial {
        mSource := Some(mSource.value.(next := mLastPos));
      }
    }

    /** src/buffer.cpp:1163-1168.  A registered buffer goes on, any other is about to be registered. */
    method Start()
      requires Valid(Registered()) && mSource.Some? && !IsPlaying() && mLastPos < size
      modifies this`mSource, this`pos, this`lastP
      ensures mSource == Some(old(mSource).value.(state := Playing))
      ensures if old(CountsOn()) then pos == old(pos) && lastP == old(lastP) else pos == lastP == mSource.value.next
      ensures Accounted(Registered()) && mLastPos < size
    {
      if !CountsOn() {
        pos, lastP := mSource.value.next, mSource.value.next;
        DivModUnique(pos, size, 0, pos);
      }
      mSource := Some(mSource.value.(state := Playing));
    }

    /** What Play does once it has a source: where the source is, and what the buffer believes. */
    twostate predicate Started(looping: bool, atNew: bool)
      requires atNew || old(mSource).Some?
      reads this, mParent`mNotifyBuffers
    {
      && mLastPos == old(Wrapped())
      && mSource == Some(Source(Playing, if atNew then mLastPos else old(StartsAt()), looping))
      && Registered() == (old(Registered()) || mNotifies != [])
      && if !atNew && old(CountsOn()) then pos == old(pos) && lastP == old(lastP)
         else pos == lastP == mSource.value.next
    }

    /** Buffer::Play from its setLocation call on, src/buffer.cpp:1140-1171; module Sound has the
        checks before it. */
    method Play(located: Located, looping: bool, starts: bool) returns (hr: HResult)
      requires mParent.Valid() && this in mParent.live
      requires if IsPlaying() then located in {SameSource, Refused} else located == SameSource ==> mSource.Some?
      modifies this`mSource, this`mLastPos, this`missed, this`exact, this`pos, this`lastP, this`rounds
      modifies mParent`mNotifyBuffers
      ensures mParent.Valid()
      ensures hr == if located in {LostSource, Refused} then Allocated
                    else if old(IsPlaying()) || starts then DsOk else General
      ensures missed == if located in {NewSource, LostSource} then old(AllMissed()) else old(missed)
      ensures exact == if located in {NewSource, LostSource} then old(exact && NoneDropped()) else old(exact)
      ensures located in {NewSource, LostSource} ==> lastP == pos
      ensures located == Refused ==> Snap() == old(Snap())
      ensures hr == General && located == SameSource ==>
                && mSource == Some(old(mSource).value.(looping := looping, next := old(StartsAt())))
                && mLastPos == old(Wrapped()) && pos == old(pos) && lastP == old(lastP)
      ensures hr == DsOk && old(IsPlaying()) ==>
                && mSource == Some(old(mSource).value.(looping := looping)) && mLastPos == old(mLastPos)
                && pos == old(pos) && lastP == old(lastP) && mParent.mNotifyBuffers == old(mParent.mNotifyBuffers)
      ensures hr == DsOk && !old(IsPlaying()) ==> Started(looping, located == NewSource)
      ensures hr != DsOk ==> mParent.mNotifyBuffers == old(mParent.mNotifyBuffers)
      ensures mParent.mNotifyBuffers
              == old(mParent.mNotifyBuffers) + if Registered() && !old(Registered()) then [this] else []
      ensures rounds == old(rounds) + if Registered() && !old(Registered()) then 1 else 0
    {
      Relocate(located);
      if located in {LostSource, Refused} {
        hr := Allocated;
      } else {
        hr := Resume(looping, starts);
      }
      mParent.OneChanged(this);
    }

    /** src/buffer.cpp:1149-1173 */
    method Resume(looping: bool, starts: bool) returns (hr: HResult)
      requires Valid(Registered()) && mSource.Some?
      modifies this`mSource, this`mLastPos, this`pos, this`lastP, this`rounds, mParent`mNotifyBuffers
      ensures Valid(Registered()) && hr == if old(IsPlaying()) || starts then DsOk else General
      ensures hr == General ==>
                && mSource == Some(old(mSource).value.(looping := looping, next := old(StartsAt())))
                && mLastPos == old(Wrapped()) && pos == old(pos) && lastP == old(lastP)
      ensures old(IsPlaying()) ==>
                && mSource == Some(old(mSource).value.(looping := looping)) && mLastPos == old(mLastPos)
                && pos == old(pos) && lastP == old(lastP)
      ensures hr == DsOk && !old(IsPlaying()) ==> Started(looping, false)
      ensures hr != DsOk || old(IsPlaying()) ==> mParent.mNotifyBuffers == old(mParent.mNotifyBuffers)
      ensures mParent.mNotifyBuffers
              == old(mParent.mNotifyBuffers) + if Registered() && !old(Registered()) then [this] else []
      ensures rounds == old(rounds) + if Registered() && !old(Registered()) then 1 else 0
    {
      mSource := Some(mSource.value.(looping := looping));
      if mSource.value.state == Playing { return DsOk; }
      hr := Restart(starts);
    }

    /** src/buffer.cpp:1157-1173 */
    method Restart(starts: bool) returns (hr: HResult)
      requires Valid(Registered()) && mSource.Some? && !IsPlaying()
      modifies this`mSource, this`mLastPos, this`pos, this`lastP, this`rounds, mParent`mNotifyBuffers
      ensures Valid(Registered()) && hr == if starts then DsOk else General
      ensures hr == General ==>
                && mSource == Some(old(mSource).value.(next := old(StartsAt())))
                && mLastPos == old(Wrapped()) && pos == old(pos) && lastP == old(lastP)
      ensures hr == DsOk ==> Started(old(mSource).value.looping, false)
      ensures hr != DsOk ==> mParent.mNotifyBuffers == old(mParent.mNotifyBuffers)
      ensures mParent.mNotifyBuffers
              == old(mParent.mNotifyBuffers) + if Registered() && !old(Registered()) then [this] else []
      ensures rounds == old(rounds) + if Registered() && !old(Registered()) then 1 else 0
    {
      Prepare();
      if !starts { return General; }
      Start();
      if ctrlNotify && mNotifies != [] {
        Register();
      }
      return DsOk;
    }

    /** src/buffer.cpp:1170-1171 */
    method Register()
      requires IsPlaying() && Accounted(Registered()) && mLastPos < size && (!Registered() ==> pos == lastP)
      requires ctrlNotify
      modifies this`rounds, mParent`mNotifyBuffers
      ensures Registered() && Valid(true) && rounds == old(rounds) + if old(Registered()) then 0 else 1
      ensures mParent.mNotifyBuffers == old(mParent.mNotifyBuffers) + if old(Registered()) then [] else [this]
    {
      if !Registered() { rounds := rounds + 1; }
      mParent.AddNotifyBuffer(this);
    }

    /** Buffer::Stop, src/buffer.cpp:1286-1312.  With DSBCAPS_CTRLPOSITIONNOTIFY every listed buffer is
        polled, and those that play stay listed; this one is not among them, so that removing it finds
        nothing. */
    method Stop()
      requires mParent.Valid() && this in mParent.live
      modifies mParent`mNotifyBuffers, this`mSource, this`mLastPos
      modifies mParent.mNotifyBuffers`mLastPos, mParent.mNotifyBuffers`signals, mParent.mNotifyBuffers`lastP
      modifies mParent.mNotifyBuffers`missed, mParent.mNotifyBuffers`extra, mParent.mNotifyBuffers`exact
      ensures mParent.Valid()
      ensures old(mSource).None? ==> mSource == None
      ensures old(mSource).Some? ==>
                mSource == Some(Halt(old(mSource).value)) && !Registered() && mLastPos == PollOffset()
      ensures old(mSource).Some? && !old(IsPlaying()) ==> mSource == old(mSource)
      ensures old(IsPlaying()) ==> mSource == Some(old(mSource).value.(state := Paused))
      ensures if old(mSource).Some? && ctrlNotify
              then && mParent.mNotifyBuffers == StillPlaying(old(mParent.mNotifyBuffers))
                   && (old(Registered()) ==> AfterPoll(old(Snap()).(source := mSource), Snap(), size))
                   && forall b :: b in old(mParent.mNotifyBuffers) && b != this ==>
                        AfterPoll(old(b.Snap()), b.Snap(), b.size)
              else && mParent.mNotifyBuffers == old(mParent.mNotifyBuffers)
                   && forall b :: b in mParent.mNotifyBuffers ==> b.Snap() == old(b.Snap())
    {
      if mSource.None? { return; }
      if ctrlNotify {
        PauseSettled();
        KeepPosition();
      } else {
        Pause();
        KeepPosition();
        mParent.OneChanged(this);
      }
    }

    /** src/buffer.cpp:1300-1304 */
    method PauseSettled()
      requires mParent.Valid() && this in mParent.live && mSource.Some?
      modifies mParent`mNotifyBuffers, this`mSource
      modifies mParent.mNotifyBuffers`mLastPos, mParent.mNotifyBuffers`signals, mParent.mNotifyBuffers`lastP
      modifies mParent.mNotifyBuffers`missed, mParent.mNotifyBuffers`extra, mParent.mNotifyBuffers`exact
      ensures mParent.Listed() && Halted() && mSource == Some(Halt(old(mSource).value))
      ensures mParent.mNotifyBuffers == StillPlaying(old(mParent.mNotifyBuffers)) && !Registered()
      ensures forall b :: b in mParent.live && b != this ==> b.Valid(b in mParent.mNotifyBuffers)
      ensures old(Registered()) ==>
                AfterPoll(old(Snap()).(source := mSource), Snap(), size) && mLastPos == PollOffset()
      ensures forall b :: b in old(mParent.mNotifyBuffers) && b != this ==>
                AfterPoll(old(b.Snap()), b.Snap(), b.size)
    {
      Pause();
      Settle();
    }

    /** src/buffer.cpp:1303-1304 and 2478-2479, for a buffer that does not play: nothing is left for
        the removal to find. */
    method Settle()
      requires mParent.Listed() && (forall b :: b in mParent.mNotifyBuffers ==> b.Pollable()) && !IsPlaying()
      modifies mParent`mNotifyBuffers
      modifies mParent.mNotifyBuffers`mLastPos, mParent.mNotifyBuffers`signals, mParent.mNotifyBuffers`lastP
      modifies mParent.mNotifyBuffers`missed, mParent.mNotifyBuffers`extra, mParent.mNotifyBuffers`exact
      ensures mParent.Listed() && mParent.mNotifyBuffers == StillPlaying(old(mParent.mNotifyBuffers)) && !Registered()
      ensures forall b :: b in mParent.mNotifyBuffers ==> b in old(mParent.mNotifyBuffers)
      ensures forall b :: b in old(mParent.mNotifyBuffers) ==>
                b.Valid(b in mParent.mNotifyBuffers) && AfterPoll(old(b.Snap()), b.Snap(), b.size)
    {
      mParent.TriggerNotifies();
      StillPlayingMembers(old(mParent.mNotifyBuffers), this);
      assert this !in mParent.mNotifyBuffers;
      mParent.RemoveNotifyBuffer(this);
    }

    /** Buffer::Notify::SetNotificationPositions, src/buffer.cpp:2450-2507, for an array that is not
        null, of a buffer that has the interface (src/buffer.cpp:736-742).  A pending buffer that has
        stopped is polled first, along with all others, and is not listed afterwards.  The code sorts
        the positions too, which nothing depends on. */
    method SetNotificationPositions(notifies: seq<nat>) returns (hr: HResult)
      requires mParent.Valid() && this in mParent.live && ctrlNotify
      modifies mParent`mNotifyBuffers, this`mNotifies, this`due, this`rounds
      modifies this`signals, this`missed, this`extra, this`exact, this`lastP
      modifies mParent.mNotifyBuffers`mLastPos, mParent.mNotifyBuffers`signals, mParent.mNotifyBuffers`lastP
      modifies mParent.mNotifyBuffers`missed, mParent.mNotifyBuffers`extra, mParent.mNotifyBuffers`exact
      ensures mParent.Valid()
      ensures hr == if old(IsPlaying()) then InvalidCall else if InRange(notifies) then DsOk else InvalidParam
      ensures if mSource.Some? && !old(IsPlaying()) && old(Registered())
              then && !Registered() && mParent.mNotifyBuffers == StillPlaying(old(mParent.mNotifyBuffers))
                   && mLastPos == PollOffset()
                   && forall b :: b in old(mParent.mNotifyBuffers) && (b != this || hr != DsOk) ==>
                        AfterPoll(old(b.Snap()), b.Snap(), b.size)
              else && mParent.mNotifyBuffers == old(mParent.mNotifyBuffers) && mLastPos == old(mLastPos)
                   && (hr != DsOk ==> Snap() == old(Snap()))
                   && forall b :: b in mParent.mNotifyBuffers && b != this ==> b.Snap() == old(b.Snap())
      ensures mNotifies == if hr == DsOk then notifies else old(mNotifies)
      ensures hr == DsOk ==>
                && signals == due == missed == extra == Zeros(|notifies|)
                && rounds == (if Registered() then 1 else 0) && lastP == pos && exact
    {
      if mSource.Some? {
        if IsPlaying() { return InvalidCall; }
        if mParent.IsPendingNotify(this) {
          SettleStopped();
        }
      }
      hr := Accept(notifies);
    }

    /** src/buffer.cpp:2483-2504 */
    method Accept(notifies: seq<nat>) returns (hr: HResult)
      requires mParent.Valid() && this in mParent.live && ctrlNotify && !IsPlaying()
      requires Registered() ==> mSource.None?
      modifies this`mNotifies, this`signals, this`due, this`missed, this`extra, this`exact, this`lastP, this`rounds
      ensures mParent.Valid() && hr == if InRange(notifies) then DsOk else InvalidParam
      ensures hr == DsOk ==>
                && mNotifies == notifies && signals == due == missed == extra == Zeros(|notifies|)
                && rounds == (if Registered() then 1 else 0) && lastP == pos && exact
      ensures hr != DsOk ==> Snap() == old(Snap())
    {
      var fits := CheckRange(notifies);
      if !fits { return InvalidParam; }
      Replace(notifies);
      mParent.OneChanged(this);
      return DsOk;
    }

    /** src/buffer.cpp:2477-2480 */
    method SettleStopped()
      requires mParent.Valid() && this in mParent.live && !IsPlaying()
      modifies mParent`mNotifyBuffers
      modifies mParent.mNotifyBuffers`mLastPos, mParent.mNotifyBuffers`signals, mParent.mNotifyBuffers`lastP
      modifies mParent.mNotifyBuffers`missed, mParent.mNotifyBuffers`extra, mParent.mNotifyBuffers`exact
      ensures mParent.Valid() && mParent.mNotifyBuffers == StillPlaying(old(mParent.mNotifyBuffers)) && !Registered()
      ensures forall b :: b in old(mParent.mNotifyBuffers) ==> AfterPoll(old(b.Snap()), b.Snap(), b.size)
    {
      Settle();
    }

    predicate InRange(notifies: seq<nat>) {
      forall i :: 0 <= i < |notifies| ==> notifies[i] < size || notifies[i] == OFFSET_STOP
    }

    /** src/buffer.cpp:2486-2500 */
    method CheckRange(notifies: seq<nat>) returns (fits: bool)
      ensures fits == InRange(notifies)
      ensures fits <==> forall i :: 0 <= i < |notifies| ==> notifies[i] < size || notifies[i] == 0xFFFF_FFFF
    {
      for i := 0 to |notifies|
        invariant forall j :: 0 <= j < i ==> notifies[j] < size || notifies[j] == OFFSET_STOP
      {
        if notifies[i] >= size && notifies[i] != OFFSET_STOP { return false; }
      }
      return true;
    }

    /** New notifications, none of them signalled yet. */
    method Replace(notifies: seq<nat>)
      requires Valid(Registered()) && !IsPlaying() && InRange(notifies) && ctrlNotify
      requires Registered() ==> mSource.None?
      modifies this`mNotifies, this`signals, this`due, this`missed, this`extra, this`exact, this`lastP, this`rounds
      ensures Valid(Registered()) && mNotifies == notifies && lastP == pos && exact
      ensures signals == due == missed == extra == Zeros(|notifies|) && rounds == if Registered() then 1 else 0
    {
      mNotifies := notifies;
      var none := Zeros(|notifies|);
      signals, due, missed, extra, exact := none, none, none, none, true;
      lastP, rounds := pos, if Registered() then 1 else 0;
    }

    /** A stopped buffer that is not listed, but for its mLastPos. */
    ghost predicate Halted()
      reads this
    {
      Accounted(false) && !IsPlaying()
    }

    /** alSourcePause. */
    method Pause()
      requires Valid(Registered()) && mSource.Some?
      modifies this`mSource
      ensures !IsPlaying() && if Registered() then Pollable() else Halted()
      ensures mSource == Some(Halt(old(mSource).value))
    {
      if IsPlaying() { mSource := Some(mSource.value.(state := Paused)); }
    }

    /** src/buffer.cpp:1308-1309 */
    method KeepPosition()
      requires Halted()
      modifies this`mLastPos
      ensures Valid(false) && mLastPos == PollOffset()
    {
      DivModUnique(size, size, 1, 0);
      mLastPos := PollOffset();
    }
  }

  /** Pausing changes only a playing source. */
  function Halt(source: Source): Source {
    if source.state == Playing then source.(state := Paused) else source
  }

  /** The buffers of a list that play, in order. */
  function StillPlaying(list: seq<Buffer>): seq<Buffer>
    reads (set b | b in list)`mSource
  {
    if list == [] then []
    else StillPlaying(list[..|list| - 1]) + if list[|list| - 1].IsPlaying() then [list[|list| - 1]] else []
  }

  lemma {:induction false} StillPlayingMembers(list: seq<Buffer>, b: Buffer)
    ensures b in StillPlaying(list) <==> b in list && b.IsPlaying()
  {
    if list != [] {
      StillPlayingMembers(list[..|list| - 1], b);
      assert list == list[..|list| - 1] + [list[|list| - 1]];
    }
  }

  predicate NoDuplicates(list: seq<Buffer>) {
    forall i, j :: 0 <= i < j < |list| ==> list[i] != list[j]
  }

  lemma {:induction false} StillPlayingOnce(list: seq<Buffer>)
    requires NoDuplicates(list)
    ensures NoDuplicates(StillPlaying(list))
  {
    if list != [] {
      var front, last := list[..|list| - 1], list[|list| - 1];
      StillPlayingOnce(front);
      StillPlayingMembers(front, last);
    }
  }

  /** A list without a buffer, the others in their order. */
  function Without(list: seq<Buffer>, b: Buffer): (r: seq<Buffer>)
    ensures b !in r && (b !in list ==> r == list)
    ensures (forall c :: c in list && c != b ==> c in r) && (forall c :: c in r ==> c in list)
  {
    if list == [] then []
    else
      assert list == list[..|list| - 1] + [list[|list| - 1]];
      Without(list[..|list| - 1], b) + if list[|list| - 1] == b then [] else [list[|list| - 1]]
  }

  function Product(m: nat, n: nat): (r: nat)
    ensures n > 0 ==> r % n == 0
  {
    if n > 0 then MultipleMod(m, n); m * n else 0
  }

  /** The write cursor is at most a twentieth of a second ahead, which fits 32 bits along with any
      position. */
  lemma WriteAhead(rate: nat, refresh: nat, align: nat, pos: nat)
    requires rate <= FREQUENCY_MAX && 20 <= refresh <= 100 && 0 < align && Word(align) && pos <= SIZE_MAX
    ensures rate / refresh * align == Product(rate / refresh, align) && Product(rate / refresh, align) + pos < TWO_32
  {
    AtMost(rate, refresh);
    ProductAtMost(rate / refresh, align);
  }

  lemma AtMost(rate: nat, refresh: nat)
    requires rate <= FREQUENCY_MAX && 20 <= refresh
    ensures rate / refresh <= 10000
  {
    var q := rate / refresh;
    assert q * refresh <= rate;
    Grows(q, 20, refresh);
  }

  lemma Grows(q: nat, m: nat, n: nat)
    requires m <= n
    ensures q * m <= q * n
  {
  }

  lemma ProductAtMost(m: nat, n: nat)
    requires m <= 10000 && Word(n)
    ensures m * n <= 10000 * n
  {
  }

  /** A position up to the size, and one some frames ahead of it, reduced to the buffer. */
  lemma CursorsWrap(pos: nat, ahead: nat, size: nat, align: nat)
    requires 0 < align && 0 < size && size % align == 0 && pos <= size && pos % align == 0 && ahead % align == 0
    ensures pos % size == (if pos == size then 0 else pos) && pos % size % align == 0
    ensures (pos + ahead) % size == (pos % size + ahead) % size && (pos + ahead) % size % align == 0
  {
    LastPosWraps(pos, size, align);
    ModAdd(pos, ahead, size);
    SumOfMultiples(pos, ahead, align);
    ModOfMultiple(pos + ahead, size, align);
  }

  lemma LastPosWraps(lastPos: nat, size: nat, align: nat)
    requires 0 < align && 0 < size && size % align == 0 && lastPos % align == 0 && lastPos <= size
    ensures lastPos % size == (if lastPos == size then 0 else lastPos) && lastPos % size % align == 0
  {
    if lastPos < size {
      DivModUnique(lastPos, size, 0, lastPos);
    } else {
      DivModUnique(lastPos, size, 1, 0);
    }
  }

  /** A cyclic position moves on by whole frames. */
  lemma AdvancedPlace(next: nat, d: nat, pos: nat, size: nat, align: nat)
    requires 0 < align && 0 < size && size % align == 0 && next % align == 0 && d % align == 0
    ensures (next + d) % size < size && (next + d) % size % align == 0
    ensures next == pos % size ==> (next + d) % size == (pos + d) % size
  {
    SumOfMultiples(next, d, align);
    ModOfMultiple(next + d, size, align);
    ModAdd(pos, d, size);
  }

  lemma EndPlace(pos: nat, size: nat)
    requires size > 0
    ensures (pos + size - pos % size) % size == 0
  {
    FloorMultiple(pos, size);
    AddMultiple(pos - pos % size, 1, size);
  }

  class DSound8OAL {
    /** Updates a second, clamped by src/dsoundoal.cpp:292. */
    const mRefresh: nat
    var mNotifyBuffers: seq<Buffer>
    ghost var live: set<Buffer>

    /** No buffer is listed twice. */
    ghost predicate Listed()
      reads this, live
    {
      && 20 <= mRefresh <= 100 && NoDuplicates(mNotifyBuffers)
      && (forall b :: b in mNotifyBuffers ==> b in live)
      && (forall b :: b in live ==> b.mParent == this)
    }

    ghost predicate Valid()
      reads this, live
    {
      Listed() && forall b :: b in live ==> b.Valid(b in mNotifyBuffers)
    }

    constructor (refresh: nat)
      ensures Valid() && live == {} && mNotifyBuffers == []
      ensures mRefresh == if refresh <= 20 then 20 else if refresh >= 100 then 100 else refresh
    {
      mRefresh := if refresh < 20 then 20 else if refresh > 100 then 100 else refresh;
      mNotifyBuffers, live := [], {};
    }

    /** A new buffer has no notifications and is not listed. */
    method Create(size: nat, align: nat, rate: nat, ctrlNotify: bool) returns (b: Buffer)
      requires Valid() && 0 < align && Word(align) && 0 < size <= SIZE_MAX && size % align == 0
      requires rate <= FREQUENCY_MAX
      modifies this`live
      ensures Valid() && fresh(b) && live == old(live) + {b} && b.mParent == this
      ensures b.size == size && b.align == align && b.rate == rate && b.ctrlNotify == ctrlNotify && b.exact
      ensures b !in mNotifyBuffers && b.mNotifies == [] && b.mSource == None && b.mLastPos == 0
    {
      b := new Buffer(this, size, align, rate, ctrlNotify);
      live := live + {b};
    }

    /** The last Release of a buffer that is not registered. */
    method Release(b: Buffer)
      requires Valid() && b in live && b !in mNotifyBuffers
      modifies this`live
      ensures Valid() && live == old(live) - {b}
    {
      live := live - {b};
    }

    /** One round of the notify thread, src/dsoundoal.cpp:454-456: afterwards no registered buffer
        has anything left to signal. */
    method NotifyRound()
      requires Valid()
      modifies this`mNotifyBuffers, mNotifyBuffers`mLastPos, mNotifyBuffers`signals, mNotifyBuffers`lastP
      modifies mNotifyBuffers`missed, mNotifyBuffers`extra, mNotifyBuffers`exact
      ensures Valid() && mNotifyBuffers == StillPlaying(old(mNotifyBuffers))
      ensures forall b :: b in old(mNotifyBuffers) ==> AfterPoll(old(b.Snap()), b.Snap(), b.size)
    {
      TriggerNotifies();
      KeptMembers(old(mNotifyBuffers));
    }

    /** What one buffer does that leaves the others alone, but for listing itself, keeps everybody
        valid. */
    twostate lemma OneChanged(b: Buffer)
      requires old(Valid()) && live == old(live) && b in live && b.Valid(b in mNotifyBuffers)
      requires mNotifyBuffers
               == old(mNotifyBuffers) + if b in mNotifyBuffers && b !in old(mNotifyBuffers) then [b] else []
      requires forall c :: c in live && c != b ==> c.Snap() == old(c.Snap())
      ensures Valid()
    {
    }

    /** src/dsoundoal.cpp:470-480, apart from waking the thread. */
    method AddNotifyBuffer(b: Buffer)
      modifies this`mNotifyBuffers
      ensures mNotifyBuffers == old(mNotifyBuffers) + if b in old(mNotifyBuffers) then [] else [b]
      ensures b in mNotifyBuffers && (old(NoDuplicates(mNotifyBuffers)) ==> NoDuplicates(mNotifyBuffers))
    {
      if b !in mNotifyBuffers {
        mNotifyBuffers := mNotifyBuffers + [b];
      }
    }

    /** src/dsoundoal.h:205-209; std::remove takes every occurrence and leaves the others in order. */
    method RemoveNotifyBuffer(b: Buffer)
      modifies this`mNotifyBuffers
      ensures mNotifyBuffers == Without(old(mNotifyBuffers), b)
    {
      var kept := [];
      for i := 0 to |mNotifyBuffers|
        invariant kept == Without(mNotifyBuffers[..i], b)
      {
        assert mNotifyBuffers[..i + 1][..i] == mNotifyBuffers[..i];
        if mNotifyBuffers[i] != b { kept := kept + [mNotifyBuffers[i]]; }
      }
      assert mNotifyBuffers[..|mNotifyBuffers|] == mNotifyBuffers;
      mNotifyBuffers := kept;
    }

    /** DSound8OAL::triggerNotifies, src/dsoundoal.cpp:463-468, and each round of the notify thread,
        454-456: poll every listed buffer once, in order, and erase those that are not playing. */
    method TriggerNotifies()
      requires Listed() && forall b :: b in mNotifyBuffers ==> b.Pollable()
      modifies this`mNotifyBuffers, mNotifyBuffers`mLastPos, mNotifyBuffers`signals, mNotifyBuffers`lastP
      modifies mNotifyBuffers`missed, mNotifyBuffers`extra, mNotifyBuffers`exact
      ensures Listed() && mNotifyBuffers == StillPlaying(old(mNotifyBuffers))
      ensures forall b :: b in mNotifyBuffers ==> b in old(mNotifyBuffers)
      ensures forall b :: b in old(mNotifyBuffers) ==>
                b.Valid(b in mNotifyBuffers) && AfterPoll(old(b.Snap()), b.Snap(), b.size)
    {
      mNotifyBuffers := PollEach(mNotifyBuffers);
      ListKept();
    }

    /** Erasing keeps every buffer that plays listed, once. */
    twostate lemma ListKept()
      requires old(Listed()) && live == old(live) && mNotifyBuffers == StillPlaying(old(mNotifyBuffers))
      ensures Listed() && forall b :: b in mNotifyBuffers <==> b in old(mNotifyBuffers) && b.IsPlaying()
    {
      StillPlayingOnce(old(mNotifyBuffers));
      KeptMembers(old(mNotifyBuffers));
    }

    lemma KeptMembers(list: seq<Buffer>)
      ensures forall b :: b in StillPlaying(list) <==> b in list && b.IsPlaying()
    {
      forall b ensures b in StillPlaying(list) <==> b in list && b.IsPlaying() {
        StillPlayingMembers(list, b);
      }
    }

    /** src/dsoundoal.h:211-216 */
    predicate IsPendingNotify(b: Buffer)
      reads this`mNotifyBuffers
    {
      b in mNotifyBuffers
    }

    static method PollEach(list: seq<Buffer>) returns (kept: seq<Buffer>)
      requires NoDuplicates(list) && forall b :: b in list ==> b.Pollable()
      modifies list`mLastPos, list`signals, list`lastP, list`missed, list`extra, list`exact
      ensures kept == StillPlaying(list)
      ensures forall b :: b in list ==> b.Valid(b.IsPlaying()) && AfterPoll(old(b.Snap()), b.Snap(), b.size)
    {
      kept := [];
      for i := 0 to |list|
        invariant forall j :: i <= j < |list| ==> unchanged(list[j])
        invariant forall j :: 0 <= j < i ==> UpToDate(list[j], old(list[j].Snap()))
        invariant kept == old(StillPlaying(list[..i]))
      {
        assert list[..i + 1][..i] == list[..i];
        var b := list[i];
        assert forall j :: 0 <= j < |list| && j != i ==> list[j] != b;
        var more := PollOne(b);
        if more { kept := kept + [b]; }
      }
      assert list[..|list|] == list;
    }

    static method PollOne(b: Buffer) returns (more: bool)
      requires b.Pollable()
      modifies b`mLastPos, b`signals, b`lastP, b`missed, b`extra, b`exact
      ensures more == b.IsPlaying() && UpToDate(b, old(b.Snap()))
    {
      more := b.UpdateNotify();
    }

    /** A buffer after its poll. */
    static ghost predicate UpToDate(b: Buffer, before: View)
      reads b
    {
      b.Valid(b.IsPlaying()) && AfterPoll(before, b.Snap(), b.size)
    }
  }
}
