/** Whole runs of the position notifications: creations and releases of buffers, calls on them, what
    OpenAL does meanwhile, and rounds of the notify thread, in any order. */
module NotifyRuns {
  import opened Common
  import opened Arith
  import opened Sizes
  import opened NotifyCounts
  import opened Notify

  /** What can happen to the n-th live buffer, and the rounds of the notify thread. */
  datatype Event =
    | Create(size: nat, align: nat, rate: nat, ctrlNotify: bool) | Release(n: nat)
    | Acquire(n: nat, located: Located) | PropertySource(n: nat)
    | Play(n: nat, located: Located, looping: bool, starts: bool) | Stop(n: nat)
    | SetPosition(n: nat, position: nat) | SetNotifications(n: nat, notifies: seq<nat>)
    | PlaysOn(n: nat, d: nat) | Ends(n: nat) | Round

  predicate OfBuffer(event: Event) {
    !event.Create? && !event.Release? && !event.Round?
  }

  /** A playing buffer keeps its source, and one without a source cannot go on with it. */
  predicate Locatable(b: Buffer, located: Located)
    reads b`mSource
  {
    if b.IsPlaying() then located in {SameSource, Refused} else located == SameSource ==> b.mSource.Some?
  }

  /** Whether an event can happen to a buffer. */
  predicate Possible(b: Buffer, event: Event)
    requires b.align > 0
    reads b`mSource
  {
    match event
    case Acquire(_, located) => Locatable(b, located)
    case Play(_, located, _, _) => Locatable(b, located)
    case SetNotifications(_, _) => b.ctrlNotify
    case PlaysOn(_, d) =>
      b.IsPlaying() && d % b.align == 0 && (b.mSource.value.looping || b.mSource.value.next + d < b.size)
    case Ends(_) => b.IsPlaying() && !b.mSource.value.looping
    case _ => true
  }

  // ---------------------------------------------------------------------------------------
  // Runs without a mistake

  /** How far a playing source is ahead of mLastPos, cyclically. */
  function Lead(b: Buffer): nat
    requires b.mSource.Some? && b.mLastPos <= b.size && b.size > 0
    reads b`mSource, b`mLastPos
  {
    (b.mSource.value.next + b.size - b.mLastPos) % b.size
  }

  /** The events that the counts survive.  A registered buffer that plays must not come round to mLastPos
      before the next poll, nor reach its end when it has already come round that; its position may be
      set only when nothing has been played since the last poll, and its source stays; and if it has
      stopped by itself, it may be started again before the poll unless mLastPos is 0.  Any other buffer
      with notifications has to start at mLastPos. */
  predicate Careful(b: Buffer, event: Event)
    requires OfBuffer(event) && b.align > 0 && b.size > 0 && b.mLastPos <= b.size && Possible(b, event)
    reads b`mSource, b`mLastPos, b`mNotifies, b.mParent`mNotifyBuffers
  {
    if !b.Registered() then
      match event
      case Play(_, located, _, starts) =>
        located == SameSource && starts && !b.IsPlaying() && b.mNotifies != [] ==> b.StartsAt() == b.Wrapped()
      case _ => true
    else
      match event
      case PlaysOn(_, d) => Lead(b) + d < b.size
      case Ends(_) => b.mLastPos <= b.mSource.value.next
      case SetPosition(_, position) => position < b.size ==> b.IsPlaying() && Lead(b) == 0
      case Acquire(_, located) => located in {SameSource, Refused}
      case Play(_, located, _, starts) =>
        located == Refused || (located == SameSource && (b.IsPlaying() || !starts || b.mLastPos > 0))
      case _ => true
  }

  /** No poll has been wrong and no pass dropped, and of a registered buffer the next poll is trusted. */
  ghost predicate ReadyAt(v: View, size: nat, registered: bool) {
    v.exact && (registered ==>
      size > 0 && v.source.Some? && v.source.value.state in {Playing, Stopped} && v.Trusted(size))
  }

  ghost predicate AllReady(ds: DSound8OAL)
    reads ds, ds.live
  {
    forall b :: b in ds.live ==> ReadyAt(b.Snap(), b.size, b in ds.mNotifyBuffers)
  }

  /** Every position has been signalled exactly as often as it was passed while the buffer was registered,
      but for the passes since the last poll. */
  ghost predicate SignalledAsPassed(b: Buffer, registered: bool)
    reads b
  {
    && |b.signals| == |b.due| == |b.mNotifies| && b.size > 0
    && forall i :: 0 <= i < |b.mNotifies| && b.mNotifies[i] < b.size ==>
         b.signals[i] + (if registered then Laps(b.mNotifies[i], b.lastP, b.pos, b.size) else 0) == b.due[i]
  }

  lemma ReadyCounts(ds: DSound8OAL)
    requires ds.Valid() && AllReady(ds)
    ensures forall b :: b in ds.live ==> SignalledAsPassed(b, b in ds.mNotifyBuffers)
  {
    forall b | b in ds.live ensures SignalledAsPassed(b, b in ds.mNotifyBuffers) {
      assert b.Valid(b in ds.mNotifyBuffers);
    }
  }

  /** The next poll of the buffer will be wrong for some offset, or it was registered and passes that no
      poll has seen were dropped. */
  twostate predicate Upset(ds: DSound8OAL, new b: Buffer)
    requires b.size > 0
    reads ds`mNotifyBuffers, b
  {
    || (b in ds.mNotifyBuffers && !b.Trusted())
    || (b in old(ds.mNotifyBuffers) && old(b.lastP) < old(b.pos) && b.lastP == b.pos && b.signals == old(b.signals))
  }

  /** What an event is for has come about, unless something stood in its way. */
  twostate predicate Befell(b: Buffer, event: Event)
    reads b
  {
    match event
    case Acquire(_, located) =>
      && (located == NewSource ==> b.mSource == Some(Source(Initial, 0, false)))
      && (located == LostSource ==> b.mSource == None)
    case PropertySource(_) => b.mSource.Some?
    case Play(_, located, looping, starts) =>
      located in {SameSource, NewSource} && starts ==> b.IsPlaying() && b.mSource.value.looping == looping
    case Stop(_) => !b.IsPlaying()
    case SetPosition(_, position) => b.align > 0 && position < b.size ==> b.pos == position - position % b.align
    case SetNotifications(_, notifies) => !old(b.IsPlaying()) && b.InRange(notifies) ==> b.mNotifies == notifies
    case PlaysOn(_, d) => b.pos == old(b.pos) + d && b.IsPlaying()
    case Ends(_) => b.mSource == Some(Source(AlState.Stopped, 0, false)) && b.pos > old(b.pos)
    case _ => true
  }

  /** What an event of another buffer does to a buffer: nothing, or it polls it. */
  twostate predicate Spared(ds: DSound8OAL, c: Buffer)
    reads ds`mNotifyBuffers, c
  {
    || (c.Snap() == old(c.Snap()) && (c in ds.mNotifyBuffers <==> c in old(ds.mNotifyBuffers)))
    || (c in old(ds.mNotifyBuffers) && (c in ds.mNotifyBuffers <==> c.IsPlaying())
        && AfterPoll(old(c.Snap()), c.Snap(), c.size))
  }

  /** An event changes one buffer, and perhaps lists it. */
  twostate lemma OneReady(ds: DSound8OAL, new b: Buffer)
    requires old(AllReady(ds)) && ds.live == old(ds.live) && b in ds.live
    requires forall c :: c in ds.live && c != b ==>
               c.Snap() == old(c.Snap()) && (c in ds.mNotifyBuffers <==> c in old(ds.mNotifyBuffers))
    requires ReadyAt(b.Snap(), b.size, b in ds.mNotifyBuffers)
    ensures AllReady(ds)
  {
  }

  lemma Gap(a: nat, b: nat, size: nat)
    requires size > 0 && a <= b < a + size
    ensures (b % size + size - a % size) % size == b - a
  {
    AddMod(a, b - a, size);
    DivModUnique(b - a, size, 0, b - a);
    AddMultiple(b - a, 1, size);
  }

  /** From a point to a multiple of the size, at most one lap on. */
  lemma ToTheEnd(a: nat, b: nat, size: nat)
    requires size > 0 && a < b <= a + size && b % size == 0
    ensures b - a == size - a % size
  {
    if b == a + size {
      AddMultiple(a, 1, size);
    } else {
      AddMod(a, b - a, size);
    }
  }

  /** The cyclic lead of a trusted buffer is what it has played since the last poll. */
  lemma LeadIsGone(b: Buffer)
    requires b.Valid(true) && b.IsPlaying() && b.Trusted()
    ensures b.Shape() && Lead(b) == b.pos - b.lastP
  {
    Gap(b.lastP, b.pos, b.size);
  }

  method OnPlaysOn(ds: DSound8OAL, b: Buffer, event: Event)
    requires ds.Valid() && b in ds.live && event.PlaysOn? && b.Shape() && Possible(b, event)
    modifies b
    ensures ds.Valid() && Befell(b, event)
    ensures old(AllReady(ds)) ==> if old(Careful(b, event)) then AllReady(ds) else Upset(ds, b)
  {
    if b in ds.mNotifyBuffers && b.Trusted() { LeadIsGone(b); }
    b.Advance(event.d);
    if old(AllReady(ds)) && old(Careful(b, event)) {
      OneReady(ds, b);
    }
  }

  method OnEnds(ds: DSound8OAL, b: Buffer, event: Event)
    requires ds.Valid() && b in ds.live && event.Ends? && b.Shape() && Possible(b, event)
    modifies b
    ensures ds.Valid() && Befell(b, event)
    ensures old(AllReady(ds)) ==> if old(Careful(b, event)) then AllReady(ds) else Upset(ds, b)
  {
    if b in ds.mNotifyBuffers && b.Trusted() {
      LeadIsGone(b);
      LeadToEnd(b.mSource.value.next, b.mLastPos, b.size);
    }
    b.ReachEnd();
    if old(AllReady(ds)) && old(Careful(b, event)) {
      OneReady(ds, b);
    }
  }

  lemma LeadToEnd(next: nat, last: nat, size: nat)
    requires next < size && last < size
    ensures (next + size - last) % size == if last <= next then next - last else next + size - last
  {
    if last <= next {
      DivModUnique(next + size - last, size, 1, next - last);
    } else {
      DivModUnique(next + size - last, size, 0, next + size - last);
    }
  }

  method OnSetPosition(ds: DSound8OAL, b: Buffer, event: Event)
    requires ds.Valid() && b in ds.live && event.SetPosition? && b.Shape() && Possible(b, event)
    modifies b
    ensures ds.Valid() && Befell(b, event)
    ensures old(AllReady(ds)) ==> if old(Careful(b, event)) then AllReady(ds) else Upset(ds, b)
  {
    if b in ds.mNotifyBuffers && b.Trusted() && b.IsPlaying() { LeadIsGone(b); }
    var _ := b.SetCurrentPosition(event.position);
    if b.mLastPos < b.size { DivModUnique(b.mLastPos, b.size, 0, b.mLastPos); }
    if old(AllReady(ds)) && old(Careful(b, event)) {
      OneReady(ds, b);
    }
  }

  method OnAcquire(ds: DSound8OAL, b: Buffer, event: Event)
    requires ds.Valid() && b in ds.live && event.Acquire? && b.Shape() && Possible(b, event)
    modifies b
    ensures ds.Valid() && Befell(b, event)
    ensures old(AllReady(ds)) ==> if old(Careful(b, event)) then AllReady(ds) else Upset(ds, b)
  {
    var _ := b.AcquireResources(event.located);
    if old(AllReady(ds)) && old(Careful(b, event)) {
      OneReady(ds, b);
    }
  }

  method OnPropertySource(ds: DSound8OAL, b: Buffer)
    requires ds.Valid() && b in ds.live
    modifies b
    ensures ds.Valid() && (old(AllReady(ds)) ==> AllReady(ds)) && b.mSource.Some?
  {
    b.EnsureSource();
    if old(AllReady(ds)) {
      OneReady(ds, b);
    }
  }

  /** A start of a buffer that is not listed. */
  method PlayUnlisted(ds: DSound8OAL, b: Buffer, event: Event)
    requires ds.Valid() && b in ds.live && event.Play? && b.Shape() && Possible(b, event) && b !in ds.mNotifyBuffers
    modifies b, ds`mNotifyBuffers
    ensures ds.Valid() && OnlyListed(ds, b) && Befell(b, event)
    ensures old(ReadyAt(b.Snap(), b.size, false)) && old(Careful(b, event)) ==>
              ReadyAt(b.Snap(), b.size, b in ds.mNotifyBuffers)
    ensures !old(Careful(b, event)) ==> Upset(ds, b)
  {
    var _ := b.Play(event.located, event.looping, event.starts);
    if b.pos < b.size { DivModUnique(b.pos, b.size, 0, b.pos); }
  }

  /** A call on a buffer that is listed: playing on, or playing again after an end that no poll saw. */
  method PlayListed(ds: DSound8OAL, b: Buffer, event: Event)
    requires ds.Valid() && b in ds.live && event.Play? && b.Shape() && Possible(b, event) && b in ds.mNotifyBuffers
    modifies b, ds`mNotifyBuffers
    ensures ds.Valid() && OnlyListed(ds, b) && b in ds.mNotifyBuffers && Befell(b, event)
    ensures old(ReadyAt(b.Snap(), b.size, true)) ==>
              if old(Careful(b, event)) then ReadyAt(b.Snap(), b.size, true) else Upset(ds, b)
  {
    ghost var v := b.Snap();
    var hr := b.Play(event.located, event.looping, event.starts);
    if ReadyAt(v, b.size, true) && v.source.value.state == Stopped && hr == DsOk && event.located == SameSource {
      StartedAgain(v, b.Snap(), b.size);
    }
  }

  /** A source that stopped after the last poll and plays again. */
  lemma StartedAgain(v: View, v': View, size: nat)
    requires size > 0 && v.source.Some? && v.source.value.state == Stopped && v.Trusted(size) && v.pos % size == 0
    requires v'.source.Some? && v'.source.value.state == Playing
    requires v'.lastPos == v.lastPos && v'.pos == v.pos && v'.lastP == v.lastP
    ensures v'.Trusted(size) <==> v.lastPos > 0
  {
    ToTheEnd(v.lastP, v.pos, size);
  }

  twostate predicate OnlyListed(ds: DSound8OAL, new b: Buffer)
    reads ds`mNotifyBuffers
  {
    ds.mNotifyBuffers == old(ds.mNotifyBuffers)
                         + if b in ds.mNotifyBuffers && b !in old(ds.mNotifyBuffers) then [b] else []
  }

  method OnPlay(ds: DSound8OAL, b: Buffer, event: Event)
    requires ds.Valid() && b in ds.live && event.Play? && b.Shape() && Possible(b, event)
    modifies b, ds`mNotifyBuffers
    ensures ds.Valid() && OnlyListed(ds, b) && Befell(b, event)
    ensures old(AllReady(ds)) ==> if old(Careful(b, event)) then AllReady(ds) else Upset(ds, b)
  {
    if b in ds.mNotifyBuffers {
      PlayListed(ds, b, event);
    } else {
      PlayUnlisted(ds, b, event);
    }
    if old(AllReady(ds)) && old(Careful(b, event)) {
      OneReady(ds, b);
    }
  }

  /** A trusted poll leaves the buffer up to date, and listed only if it plays. */
  lemma PolledReady(v: View, b: Buffer, listed: bool)
    requires b.Valid(listed) && (listed ==> b.IsPlaying()) && AfterPoll(v, b.Snap(), b.size)
    requires v.exact && v.Trusted(b.size)
    ensures ReadyAt(b.Snap(), b.size, listed)
  {
  }

  /** A poll of all listed buffers; `b` may have done something else besides. */
  twostate lemma AllSpared(ds: DSound8OAL, new b: Buffer?)
    requires ds.live == old(ds.live) && ds.mNotifyBuffers == StillPlaying(old(ds.mNotifyBuffers))
    requires forall c :: c in old(ds.mNotifyBuffers) && c != b ==> AfterPoll(old(c.Snap()), c.Snap(), c.size)
    requires forall c :: c in ds.live && c !in old(ds.mNotifyBuffers) && c != b ==> c.Snap() == old(c.Snap())
    ensures forall c :: c in ds.live && c != b ==> Spared(ds, c)
  {
    ds.KeptMembers(old(ds.mNotifyBuffers));
  }

  /** What is spared stays ready. */
  twostate lemma SparedReady(ds: DSound8OAL, new b: Buffer?)
    requires old(AllReady(ds)) && ds.Valid() && ds.live == old(ds.live)
    requires forall c :: c in ds.live && c != b ==> Spared(ds, c)
    ensures forall c :: c in ds.live && c != b ==> ReadyAt(c.Snap(), c.size, c in ds.mNotifyBuffers)
  {
    forall c | c in ds.live && c != b ensures ReadyAt(c.Snap(), c.size, c in ds.mNotifyBuffers) {
      if c in old(ds.mNotifyBuffers) && AfterPoll(old(c.Snap()), c.Snap(), c.size) {
        PolledReady(old(c.Snap()), c, c in ds.mNotifyBuffers);
      }
    }
  }

  method OnRound(ds: DSound8OAL)
    requires ds.Valid()
    modifies ds`mNotifyBuffers, ds.live
    ensures ds.Valid() && (old(AllReady(ds)) ==> AllReady(ds))
    ensures forall c :: c in ds.live ==> Spared(ds, c) && (c in old(ds.mNotifyBuffers) ==> c.lastP == c.pos)
  {
    ds.NotifyRound();
    AllSpared(ds, null);
    if old(AllReady(ds)) {
      SparedReady(ds, null);
    }
  }

  method StopSparing(ds: DSound8OAL, b: Buffer)
    requires ds.Valid() && b in ds.live
    modifies ds`mNotifyBuffers, ds.live
    ensures ds.Valid() && !b.IsPlaying() && forall c :: c in ds.live && c != b ==> Spared(ds, c)
    ensures if b in old(ds.mNotifyBuffers) && old(b.mSource).Some?
            then && b !in ds.mNotifyBuffers && b.mSource == Some(Halt(old(b.mSource.value)))
                 && AfterPoll(old(b.Snap()).(source := b.mSource), b.Snap(), b.size)
            else && b.exact == old(b.exact) && (b in ds.mNotifyBuffers <==> b in old(ds.mNotifyBuffers))
                 && (b in ds.mNotifyBuffers ==> b.Snap() == old(b.Snap()))
  {
    b.Stop();
    if old(b.mSource).Some? && b.ctrlNotify {
      AllSpared(ds, b);
    }
  }

  method OnStop(ds: DSound8OAL, b: Buffer)
    requires ds.Valid() && b in ds.live
    modifies ds`mNotifyBuffers, ds.live
    ensures ds.Valid() && (old(AllReady(ds)) ==> AllReady(ds)) && !b.IsPlaying()
    ensures forall c :: c in ds.live && c != b ==> Spared(ds, c)
  {
    StopSparing(ds, b);
    if old(AllReady(ds)) {
      SparedReady(ds, b);
      if b in old(ds.mNotifyBuffers) && old(b.mSource).Some? {
        PolledReady(old(b.Snap()).(source := b.mSource), b, false);
      }
    }
  }

  method SetNotificationsSparing(ds: DSound8OAL, b: Buffer, notifies: seq<nat>)
    requires ds.Valid() && b in ds.live && b.ctrlNotify
    modifies ds`mNotifyBuffers, ds.live
    ensures ds.Valid() && forall c :: c in ds.live && c != b ==> Spared(ds, c)
    ensures Spared(ds, b) || Renewed(ds, b)
    ensures !old(b.IsPlaying()) && b.InRange(notifies) ==> b.mNotifies == notifies
  {
    var hr := b.SetNotificationPositions(notifies);
    if b.mSource.Some? && !old(b.IsPlaying()) && b in old(ds.mNotifyBuffers) {
      AllSpared(ds, b);
    }
  }

  /** New notifications, of a buffer that does not play. */
  twostate predicate Renewed(ds: DSound8OAL, b: Buffer)
    reads ds`mNotifyBuffers, b
  {
    b.exact && b.mSource == old(b.mSource) && b.lastP == b.pos == old(b.pos)
    && (b in ds.mNotifyBuffers ==> b in old(ds.mNotifyBuffers) && b.mSource.None?)
  }

  method OnSetNotifications(ds: DSound8OAL, b: Buffer, event: Event)
    requires ds.Valid() && b in ds.live && event.SetNotifications? && b.ctrlNotify
    modifies ds`mNotifyBuffers, ds.live
    ensures ds.Valid() && (old(AllReady(ds)) ==> AllReady(ds)) && Befell(b, event)
    ensures forall c :: c in ds.live && c != b ==> Spared(ds, c)
  {
    SetNotificationsSparing(ds, b, event.notifies);
    if old(AllReady(ds)) {
      SparedReady(ds, if Spared(ds, b) then null else b);
    }
  }

  /** An event of one buffer.  As long as everything is ready it stays so exactly if the event is
      careful: any other leaves the buffer upset. */
  method OnBuffer(ds: DSound8OAL, b: Buffer, event: Event)
    requires ds.Valid() && b in ds.live && OfBuffer(event) && b.Shape() && Possible(b, event)
    modifies ds`mNotifyBuffers, ds.live
    ensures ds.Valid() && Befell(b, event) && forall c :: c in ds.live && c != b ==> Spared(ds, c)
    ensures old(AllReady(ds)) ==> if old(Careful(b, event)) then AllReady(ds) else Upset(ds, b)
  {
    match event {
      case Acquire(_, _) => OnAcquire(ds, b, event);
      case PropertySource(_) => OnPropertySource(ds, b);
      case Play(_, _, _, _) => OnPlay(ds, b, event);
      case Stop(_) => OnStop(ds, b);
      case SetPosition(_, _) => OnSetPosition(ds, b, event);
      case SetNotifications(_, _) => OnSetNotifications(ds, b, event);
      case PlaysOn(_, _) => OnPlaysOn(ds, b, event);
      case Ends(_) => OnEnds(ds, b, event);
    }
  }

  /** An event of the i-th buffer. */
  predicate About(event: Event, i: nat) {
    (event.Release? || OfBuffer(event)) && event.n == i
  }

  /** Whether an application can create such a buffer. */
  predicate Creatable(event: Event)
    requires event.Create?
  {
    && 0 < event.align && Word(event.align) && 0 < event.size <= SIZE_MAX && event.size % event.align == 0
    && event.rate <= FREQUENCY_MAX
  }

  method DoCreate(ds: DSound8OAL, buffers: seq<Buffer>, event: Event) returns (left: seq<Buffer>)
    requires ds.Valid() && NoDuplicates(buffers) && (forall b :: b in buffers ==> b in ds.live) && event.Create?
    modifies ds`live
    ensures ds.Valid() && NoDuplicates(left) && forall b :: b in left ==> b in ds.live
    ensures fresh(ds.live - old(ds.live)) && (old(AllReady(ds)) ==> AllReady(ds))
    ensures |buffers| > 0 ==> |left| > 0 && left[0] == buffers[0]
    ensures Creatable(event) ==> |left| == |buffers| + 1 && left[..|buffers|] == buffers
  {
    left := buffers;
    if Creatable(event) {
      var b := ds.Create(event.size, event.align, event.rate, event.ctrlNotify);
      left := buffers + [b];
    }
  }

  /** The last Release of a buffer, unless it is registered. */
  method DoRelease(ds: DSound8OAL, buffers: seq<Buffer>, n: nat) returns (left: seq<Buffer>)
    requires ds.Valid() && NoDuplicates(buffers) && forall b :: b in buffers ==> b in ds.live
    modifies ds`live
    ensures ds.Valid() && NoDuplicates(left) && forall b :: b in left ==> b in ds.live
    ensures ds.live <= old(ds.live) && (old(AllReady(ds)) ==> AllReady(ds))
    ensures |buffers| > 0 && n != 0 ==> |left| > 0 && left[0] == buffers[0]
    ensures n < |buffers| && buffers[n] !in ds.mNotifyBuffers ==>
              ds.live == old(ds.live) - {buffers[n]} && left == buffers[..n] + buffers[n + 1..]
  {
    left := buffers;
    if n < |buffers| && buffers[n] !in ds.mNotifyBuffers {
      ds.Release(buffers[n]);
      left := buffers[..n] + buffers[n + 1..];
    }
  }

  /** It happens to a buffer, and is not careful. */
  predicate Careless(buffers: seq<Buffer>, event: Event)
    reads (set b | b in buffers)`mSource, (set b | b in buffers)`mLastPos, (set b | b in buffers)`mNotifies
    reads (set b | b in buffers :: b.mParent)`mNotifyBuffers
  {
    && OfBuffer(event) && event.n < |buffers|
    && var b := buffers[event.n];
       b.align > 0 && b.size > 0 && b.mLastPos <= b.size && Possible(b, event) && !Careful(b, event)
  }

  /** An event of one buffer has come about, if it was possible. */
  twostate predicate HappenedTo(buffers: seq<Buffer>, event: Event)
    requires OfBuffer(event)
    reads set b | b in buffers
  {
    event.n < |buffers| && old(buffers[event.n].align > 0 && Possible(buffers[event.n], event)) ==>
      Befell(buffers[event.n], event)
  }

  method DoBuffer(ds: DSound8OAL, buffers: seq<Buffer>, event: Event)
    requires ds.Valid() && NoDuplicates(buffers) && (forall b :: b in buffers ==> b in ds.live) && OfBuffer(event)
    modifies ds`mNotifyBuffers, ds.live
    ensures ds.Valid() && (old(AllReady(ds) && !Careless(buffers, event)) ==> AllReady(ds))
    ensures old(AllReady(ds) && Careless(buffers, event)) ==> Upset(ds, buffers[event.n])
    ensures |buffers| > 0 && event.n != 0 ==> Spared(ds, buffers[0])
    ensures HappenedTo(buffers, event)
  {
    if event.n < |buffers| {
      var b := buffers[event.n];
      assert b.Valid(b in ds.mNotifyBuffers);
      if Possible(b, event) { OnBuffer(ds, b, event); }
    }
  }

  /** Some event has come about, if it was possible. */
  twostate predicate Happened(ds: DSound8OAL, buffers: seq<Buffer>, new left: seq<Buffer>, event: Event)
    reads set b | b in buffers
  {
    match event
    case Round => forall b :: b in buffers && b in old(ds.mNotifyBuffers) ==> b.lastP == b.pos
    case Create(_, _, _, _) => Creatable(event) ==> |left| == |buffers| + 1
    case Release(n) =>
      n < |buffers| && buffers[n] !in old(ds.mNotifyBuffers) ==> left == buffers[..n] + buffers[n + 1..]
    case _ => HappenedTo(buffers, event)
  }

  /** Some event, if it is possible; otherwise nothing happens. */
  method Do(ds: DSound8OAL, buffers: seq<Buffer>, event: Event) returns (left: seq<Buffer>)
    requires ds.Valid() && NoDuplicates(buffers) && forall b :: b in buffers ==> b in ds.live
    modifies ds, ds.live
    ensures ds.Valid() && fresh(ds.live - old(ds.live))
    ensures NoDuplicates(left) && forall b :: b in left ==> b in ds.live
    ensures old(AllReady(ds) && !Careless(buffers, event)) ==> AllReady(ds)
    ensures old(AllReady(ds) && Careless(buffers, event)) ==> Upset(ds, buffers[event.n])
    ensures |buffers| > 0 && !About(event, 0) ==> |left| > 0 && left[0] == buffers[0] && Spared(ds, buffers[0])
    ensures Happened(ds, buffers, left, event)
  {
    left := buffers;
    match event {
      case Round => OnRound(ds);
      case Create(_, _, _, _) => left := DoCreate(ds, buffers, event);
      case Release(n) => left := DoRelease(ds, buffers, n);
      case _ => DoBuffer(ds, buffers, event);
    }
  }

  /** Every run from the start keeps its books: whatever happened, signals and missed passes balance
      passes and extra signals. */
  method Run(refresh: nat, events: seq<Event>) returns (ds: DSound8OAL, buffers: seq<Buffer>)
    ensures fresh(ds) && ds.Valid()
  {
    ds := new DSound8OAL(refresh);
    buffers := [];
    for i := 0 to |events|
      invariant fresh(ds) && fresh(ds.live) && ds.Valid()
      invariant NoDuplicates(buffers) && forall b :: b in buffers ==> b in ds.live
    {
      buffers := Do(ds, buffers, events[i]);
    }
  }

  /** A run up to its first event that is not careful: until then, every position of every buffer has been
      signalled exactly as often as it was passed while the buffer was registered, but for the passes since
      the last poll. */
  method CarefulRun(refresh: nat, events: seq<Event>) returns (ds: DSound8OAL, buffers: seq<Buffer>, n: nat)
    ensures fresh(ds) && ds.Valid() && n <= |events| && (n < |events| ==> Careless(buffers, events[n]))
    ensures forall b :: b in ds.live ==> SignalledAsPassed(b, b in ds.mNotifyBuffers)
  {
    ds := new DSound8OAL(refresh);
    buffers, n := [], 0;
    while n < |events| && !Careless(buffers, events[n])
      invariant fresh(ds) && fresh(ds.live) && ds.Valid() && AllReady(ds) && n <= |events|
      invariant NoDuplicates(buffers) && forall b :: b in buffers ==> b in ds.live
    {
      buffers := Do(ds, buffers, events[n]);
      n := n + 1;
    }
    ReadyCounts(ds);
  }

  // ---------------------------------------------------------------------------------------
  // One registration

  /** How far an event lets the first buffer play. */
  function Length(event: Event): nat {
    if event.PlaysOn? && event.n == 0 then event.d else 0
  }

  function Distance(events: seq<Event>): nat {
    if events == [] then 0 else Length(events[0]) + Distance(events[1..])
  }

  /** Less than a lap is played between rounds; `gone` bytes have been played since the last. */
  predicate Paced(events: seq<Event>, gone: nat, size: nat) {
    if events == [] then gone < size
    else if events[0].Round? then Paced(events[1..], 0, size)
    else gone + Length(events[0]) < size && Paced(events[1..], gone + Length(events[0]), size)
  }

  /** A poll in between does no harm. */
  lemma {:induction false} PacedSooner(events: seq<Event>, gone: nat, gone': nat, size: nat)
    requires Paced(events, gone, size) && gone' <= gone
    ensures Paced(events, gone', size)
  {
    if events != [] && !events[0].Round? {
      PacedSooner(events[1..], gone + Length(events[0]), gone' + Length(events[0]), size);
    }
  }

  /** The first buffer plays on in whole frames; everything may happen to the others. */
  predicate Meanwhile(events: seq<Event>, align: nat)
    requires align > 0
  {
    forall i :: 0 <= i < |events| && About(events[i], 0) ==> events[i].PlaysOn? && events[i].d % align == 0
  }

  /** Since it started at `start`, the buffer has been signalled as often as it passed each position, but
      for the passes since the last poll. */
  ghost predicate Follows(b: Buffer, before: seq<nat>, start: nat)
    reads b
  {
    && b.size > 0 && |b.signals| == |before| == |b.mNotifies| && start <= b.lastP <= b.pos && b.Trusted()
    && (forall i :: 0 <= i < |b.mNotifies| && b.mNotifies[i] < b.size ==>
          b.signals[i] + Laps(b.mNotifies[i], b.lastP, b.pos, b.size)
          == before[i] + Laps(b.mNotifies[i], start, b.pos, b.size))
    && forall i :: 0 <= i < |b.mNotifies| && b.mNotifies[i] == OFFSET_STOP ==> b.signals[i] == before[i]
  }

  /** Each position has been signalled as often as it was passed from `start` to `end`, and each stop
      notification once. */
  ghost predicate Settled(notifies: seq<nat>, before: seq<nat>, after: seq<nat>, start: nat, end: nat, size: nat)
    requires size > 0
  {
    && |before| == |after| == |notifies|
    && forall i :: 0 <= i < |notifies| ==>
         (notifies[i] < size ==> after[i] == before[i] + Laps(notifies[i], start, end, size))
         && (notifies[i] == OFFSET_STOP ==> after[i] == before[i] + 1)
  }

  /** A buffer that is not registered may be started where mLastPos says. */
  predicate Startable(b: Buffer, located: Located)
    reads b`mSource, b`mLastPos, b`mNotifies, b.mParent`mNotifyBuffers
  {
    && !b.Registered() && !b.IsPlaying() && b.mNotifies != []
    && (located == NewSource || (located == SameSource && b.mSource.Some? && b.StartsAt() == b.Wrapped()))
  }

  method StartAt(ds: DSound8OAL, b: Buffer, located: Located, looping: bool)
    requires ds.Valid() && b in ds.live && Startable(b, located)
    modifies b, ds`mNotifyBuffers
    ensures ds.Valid() && b in ds.mNotifyBuffers && Follows(b, old(b.signals), old(b.Wrapped()))
    ensures b.mSource == Some(Source(Playing, old(b.Wrapped()), looping)) && b.pos == b.lastP == old(b.Wrapped())
    ensures b.mNotifies == old(b.mNotifies) && b.signals == old(b.signals)
  {
    var hr := b.Play(located, looping, true);
    DivModUnique(b.pos, b.size, 0, b.pos);
  }

  method PlayTurn(ds: DSound8OAL, b: Buffer, d: nat, ghost before: seq<nat>, ghost start: nat)
    requires ds.Valid() && b in ds.mNotifyBuffers && b.IsPlaying() && Follows(b, before, start)
    requires b.Shape() && d % b.align == 0 && (b.mSource.value.looping || b.mSource.value.next + d < b.size)
    requires b.pos - b.lastP + d < b.size
    modifies b`mSource, b`pos, b`due
    ensures ds.Valid() && Follows(b, before, start) && b.pos == old(b.pos) + d && b.IsPlaying()
    ensures b.mSource.value.looping == old(b.mSource.value.looping)
    ensures b.mSource.value.next == (old(b.mSource.value.next) + d) % b.size
  {
    MorePasses(b.mNotifies, b.lastP, b.pos, b.pos + d, b.size);
    MorePasses(b.mNotifies, start, b.pos, b.pos + d, b.size);
    b.Advance(d);
  }

  lemma MorePasses(notifies: seq<nat>, a: nat, m: nat, b: nat, size: nat)
    requires size > 0 && a <= m <= b
    ensures forall i :: 0 <= i < |notifies| ==>
              Laps(notifies[i], a, b, size) == Laps(notifies[i], a, m, size) + Laps(notifies[i], m, b, size)
  {
    forall i | 0 <= i < |notifies|
      ensures Laps(notifies[i], a, b, size) == Laps(notifies[i], a, m, size) + Laps(notifies[i], m, b, size)
    {
      LapsSplit(notifies[i], a, m, b, size);
    }
  }

  /** A round. */
  method PollTurn(ds: DSound8OAL, b: Buffer, ghost before: seq<nat>, ghost start: nat)
    requires ds.Valid() && b in ds.mNotifyBuffers && Follows(b, before, start)
    modifies ds`mNotifyBuffers, ds.live
    ensures ds.Valid() && b.lastP == b.pos == old(b.pos) && b.mSource == old(b.mSource)
    ensures b.mNotifies == old(b.mNotifies)
    ensures if b.IsPlaying() then b in ds.mNotifyBuffers && Follows(b, before, start)
            else b !in ds.mNotifyBuffers && Settled(b.mNotifies, before, b.signals, start, b.pos, b.size)
  {
    assert b.Valid(true);
    b.TrustedHits();
    ds.NotifyRound();
    StillPlayingMembers(old(ds.mNotifyBuffers), b);
  }

  /** The buffer plays, listed, and not past its end unless it loops. */
  ghost predicate UnderWay(ds: DSound8OAL, b: Buffer, before: seq<nat>, start: nat, looping: bool)
    reads ds`mNotifyBuffers, b
  {
    && b in ds.mNotifyBuffers && b.IsPlaying() && b.mSource.value.looping == looping && Follows(b, before, start)
    && (looping || b.mSource.value.next == b.pos)
  }

  /** Live buffers, each once. */
  ghost predicate Known(ds: DSound8OAL, buffers: seq<Buffer>)
    reads ds`live
  {
    |buffers| > 0 && NoDuplicates(buffers) && forall b :: b in buffers ==> b in ds.live
  }

  /** An event of another buffer; the poll it may cause is one more. */
  method OtherEvent(ds: DSound8OAL, buffers: seq<Buffer>, event: Event,
                    ghost before: seq<nat>, ghost start: nat, looping: bool)
    returns (left: seq<Buffer>)
    requires ds.Valid() && Known(ds, buffers) && !About(event, 0) && !event.Round?
    requires UnderWay(ds, buffers[0], before, start, looping)
    modifies ds, ds.live
    ensures ds.Valid() && Known(ds, left) && left[0] == buffers[0] && fresh(ds.live - old(ds.live))
    ensures UnderWay(ds, left[0], before, start, looping) && left[0].mNotifies == old(buffers[0].mNotifies)
    ensures left[0].pos == old(buffers[0].pos) && left[0].lastP >= old(buffers[0].lastP)
  {
    var b := buffers[0];
    assert b.Valid(true);
    b.TrustedHits();
    left := Do(ds, buffers, event);
  }

  method OneEvent(ds: DSound8OAL, buffers: seq<Buffer>, event: Event,
                  ghost before: seq<nat>, ghost start: nat, looping: bool)
    returns (left: seq<Buffer>)
    requires ds.Valid() && Known(ds, buffers) && UnderWay(ds, buffers[0], before, start, looping)
    requires buffers[0].align > 0 && Meanwhile([event], buffers[0].align)
    requires buffers[0].pos - buffers[0].lastP + Length(event) < buffers[0].size
    requires looping || buffers[0].pos + Length(event) < buffers[0].size
    modifies ds, ds.live
    ensures ds.Valid() && Known(ds, left) && left[0] == buffers[0] && fresh(ds.live - old(ds.live))
    ensures UnderWay(ds, left[0], before, start, looping) && left[0].mNotifies == old(buffers[0].mNotifies)
    ensures left[0].pos == old(buffers[0].pos) + Length(event)
    ensures left[0].lastP >= if event.Round? then left[0].pos else old(buffers[0].lastP)
  {
    left := buffers;
    var b := buffers[0];
    assert b.Valid(true) && event == [event][0];
    if event.Round? {
      PollTurn(ds, b, before, start);
    } else if About(event, 0) {
      if b.pos + event.d < b.size { DivModUnique(b.pos + event.d, b.size, 0, b.pos + event.d); }
      PlayTurn(ds, b, event.d, before, start);
    } else {
      left := OtherEvent(ds, buffers, event, before, start, looping);
    }
  }

  /** The first buffer is started at mLastPos.  Whatever happens to the others then, as long as it plays
      less than a lap between rounds nothing is missed and nothing is signalled for no pass. */
  method PlayThrough(ds: DSound8OAL, buffers: seq<Buffer>, located: Located, looping: bool, events: seq<Event>)
    returns (left: seq<Buffer>)
    requires ds.Valid() && Known(ds, buffers) && Startable(buffers[0], located) && buffers[0].align > 0
    requires Meanwhile(events, buffers[0].align) && Paced(events, 0, buffers[0].size)
    requires looping || buffers[0].Wrapped() + Distance(events) < buffers[0].size
    modifies ds, ds.live
    ensures ds.Valid() && Known(ds, left) && left[0] == buffers[0] && fresh(ds.live - old(ds.live))
    ensures UnderWay(ds, left[0], old(buffers[0].signals), old(buffers[0].Wrapped()), looping)
    ensures left[0].mNotifies == old(buffers[0].mNotifies)
    ensures left[0].pos == old(buffers[0].Wrapped()) + Distance(events)
  {
    var b := buffers[0];
    ghost var before, start := b.signals, b.Wrapped();
    StartAt(ds, b, located, looping);
    left := PlayOnThrough(ds, buffers, looping, events, before, start);
  }

  method PlayOnThrough(ds: DSound8OAL, buffers: seq<Buffer>, looping: bool, events: seq<Event>,
                       ghost before: seq<nat>, ghost start: nat)
    returns (left: seq<Buffer>)
    requires ds.Valid() && Known(ds, buffers) && UnderWay(ds, buffers[0], before, start, looping)
    requires buffers[0].align > 0 && Meanwhile(events, buffers[0].align)
    requires Paced(events, buffers[0].pos - buffers[0].lastP, buffers[0].size)
    requires looping || buffers[0].pos + Distance(events) < buffers[0].size
    modifies ds, ds.live
    ensures ds.Valid() && Known(ds, left) && left[0] == buffers[0] && fresh(ds.live - old(ds.live))
    ensures UnderWay(ds, left[0], before, start, looping) && left[0].mNotifies == old(buffers[0].mNotifies)
    ensures left[0].pos == old(buffers[0].pos) + Distance(events)
    decreases |events|
  {
    if events == [] { return buffers; }
    assert About(events[0], 0) ==> events[0].d % buffers[0].align == 0;
    ghost var gone := if events[0].Round? then 0 else buffers[0].pos - buffers[0].lastP + Length(events[0]);
    left := OneEvent(ds, buffers, events[0], before, start, looping);
    PacedSooner(events[1..], gone, left[0].pos - left[0].lastP, left[0].size);
    left := PlayOnThrough(ds, left, looping, events[1..], before, start);
  }

  /** Played to its end, and polled after that, the buffer has signalled exactly the positions from its
      start on, once each, and the stop notifications, and is not registered any more. */
  method PlayToEnd(ds: DSound8OAL, buffers: seq<Buffer>, located: Located, events: seq<Event>)
    returns (left: seq<Buffer>)
    requires ds.Valid() && Known(ds, buffers) && Startable(buffers[0], located) && buffers[0].align > 0
    requires Meanwhile(events, buffers[0].align) && Paced(events, 0, buffers[0].size)
    requires buffers[0].Wrapped() + Distance(events) < buffers[0].size
    modifies ds, ds.live
    ensures ds.Valid() && Known(ds, left) && left[0] == buffers[0] && buffers[0] !in ds.mNotifyBuffers
    ensures var b := buffers[0];
            && b.mNotifies == old(b.mNotifies) && |b.signals| == |old(b.signals)| == |b.mNotifies|
            && forall i :: 0 <= i < |b.mNotifies| ==>
                 b.signals[i] == old(b.signals)[i] + if old(b.Wrapped()) <= b.mNotifies[i] then 1 else 0
  {
    var b := buffers[0];
    ghost var before, start := b.signals, b.Wrapped();
    left := PlayThrough(ds, buffers, located, false, events);
    EndAndPoll(ds, b, before, start);
  }

  /** The end, and the round that finds it. */
  method EndAndPoll(ds: DSound8OAL, b: Buffer, ghost before: seq<nat>, ghost start: nat)
    requires ds.Valid() && UnderWay(ds, b, before, start, false)
    modifies ds`mNotifyBuffers, ds.live
    ensures ds.Valid() && b !in ds.mNotifyBuffers && b.mNotifies == old(b.mNotifies)
    ensures |b.signals| == |before| == |b.mNotifies|
    ensures forall i :: 0 <= i < |b.mNotifies| ==>
              b.signals[i] == before[i] + if start <= b.mNotifies[i] then 1 else 0
  {
    End(ds, b, before, start);
    PollTurn(ds, b, before, start);
    assert b.Valid(false);
    forall i | 0 <= i < |b.mNotifies| && b.mNotifies[i] < b.size
      ensures Laps(b.mNotifies[i], start, b.size, b.size) == if start <= b.mNotifies[i] then 1 else 0
    {
      FirstLap(b.mNotifies[i], start, b.size, b.size);
    }
  }

  /** The rest of the buffer is played. */
  method End(ds: DSound8OAL, b: Buffer, ghost before: seq<nat>, ghost start: nat)
    requires ds.Valid() && UnderWay(ds, b, before, start, false)
    modifies b`mSource, b`pos, b`due
    ensures ds.Valid() && b in ds.mNotifyBuffers && !b.IsPlaying() && Follows(b, before, start) && b.pos == b.size
  {
    assert b.Valid(true);
    MorePasses(b.mNotifies, b.lastP, b.pos, b.size, b.size);
    MorePasses(b.mNotifies, start, b.pos, b.size, b.size);
    b.ReachEnd();
  }

  lemma {:induction false} FirstLap(o: nat, a: nat, b: nat, size: nat)
    requires a <= b <= size && size > 0
    ensures Laps(o, a, b, size) == if a <= o < b then 1 else 0
  {
    if a < b {
      FirstLap(o, a, b - 1, size);
      DivModUnique(b - 1, size, 0, b - 1);
    }
  }

  /** Stopped by a call, however many laps on, the buffer has signalled every position as often as it was
      passed from the start to where it stopped, and the stop notifications, and is not registered. */
  method PlayToStop(ds: DSound8OAL, buffers: seq<Buffer>, located: Located, looping: bool, events: seq<Event>)
    returns (left: seq<Buffer>)
    requires ds.Valid() && Known(ds, buffers) && Startable(buffers[0], located) && buffers[0].align > 0
    requires Meanwhile(events, buffers[0].align) && Paced(events, 0, buffers[0].size)
    requires looping || buffers[0].Wrapped() + Distance(events) < buffers[0].size
    modifies ds, ds.live
    ensures ds.Valid() && Known(ds, left) && left[0] == buffers[0] && buffers[0] !in ds.mNotifyBuffers
    ensures var b := buffers[0];
            && b.mNotifies == old(b.mNotifies) && b.size > 0
            && Settled(b.mNotifies, old(b.signals), b.signals, old(b.Wrapped()),
                       old(b.Wrapped()) + Distance(events), b.size)
  {
    var b := buffers[0];
    ghost var before, start := b.signals, b.Wrapped();
    left := PlayThrough(ds, buffers, located, looping, events);
    StopIt(ds, b, before, start);
  }

  method StopIt(ds: DSound8OAL, b: Buffer, ghost before: seq<nat>, ghost start: nat)
    requires ds.Valid() && b in ds.mNotifyBuffers && b.IsPlaying() && Follows(b, before, start)
    modifies ds`mNotifyBuffers, ds.live
    ensures ds.Valid() && b !in ds.mNotifyBuffers && b.mNotifies == old(b.mNotifies)
    ensures Settled(b.mNotifies, before, b.signals, start, old(b.pos), b.size)
  {
    assert b.Valid(true);
    b.TrustedHits();
    b.Stop();
  }

  // ---------------------------------------------------------------------------------------
  // A run that goes wrong

  /** A start that no poll sees through: the buffer played to its end from 1000 without notifications,
      which left mLastPos behind; it plays again from 0, and at 200 the position 2000 is signalled,
      which nothing ever passed. */
  method StaleStart() returns (b: Buffer)
    ensures fresh(b) && b.mNotifies == [2000] && b.signals == [1] && b.due == [0] && b.extra == [1]
  {
    var ds;
    ds, b := EndedUnlisted();
    PlayAgain(ds, b);
    PlayOn(ds, b);
    ghost var before := b.Snap();
    ds.NotifyRound();
    StalePoll(before, b.Snap());
  }

  lemma StalePoll(v: View, v': View)
    requires v.notifies == [2000] && v.source == Some(Source(Playing, 200, false)) && v.lastPos == 1000
    requires v.lastP == 0 && v.pos == 200 && v.signals == v.missed == v.extra == [0] && AfterPoll(v, v', 4000)
    ensures v'.signals == [1] && v'.extra == [1]
  {
    PollsAt200();
  }

  /** A buffer that played to its end from 1000, with no notifications. */
  method EndedUnlisted() returns (ds: DSound8OAL, b: Buffer)
    ensures fresh(ds) && fresh(b) && ds.Valid() && b in ds.live && b.size == 4000 && b.align == 1 && b.ctrlNotify
    ensures b.mSource == Some(Source(Stopped, 0, false)) && b.mLastPos == 1000 && ds.mNotifyBuffers == []
  {
    ds := new DSound8OAL(20);
    b := ds.Create(4000, 1, 44100, true);
    var hr := b.SetCurrentPosition(1000);
    PlayOut(ds, b);
  }

  method PlayOut(ds: DSound8OAL, b: Buffer)
    requires ds.Valid() && b in ds.live && b.mSource == None && b.mLastPos == 1000 && b.size == 4000
    requires ds.mNotifyBuffers == [] && b.mNotifies == []
    modifies ds`mNotifyBuffers, b
    ensures ds.Valid() && b.mSource == Some(Source(Stopped, 0, false)) && b.mLastPos == 1000
    ensures ds.mNotifyBuffers == []
  {
    var hr := b.Play(NewSource, false, true);
    b.ReachEnd();
  }

  /** It is given a notification at 2000 and plays from the start. */
  method PlayAgain(ds: DSound8OAL, b: Buffer)
    requires ds.Valid() && b in ds.live && b.size == 4000 && b.align == 1 && ds.mNotifyBuffers == []
    requires b.mSource == Some(Source(Stopped, 0, false)) && b.mLastPos == 1000 && b.ctrlNotify
    modifies ds`mNotifyBuffers, b
    ensures ds.Valid() && ds.mNotifyBuffers == [b] && b.mNotifies == [2000]
    ensures b.mSource == Some(Source(Playing, 0, false)) && b.mLastPos == 1000 && b.lastP == b.pos == 0
    ensures b.signals == b.due == b.missed == b.extra == [0]
  {
    var hr := b.SetNotificationPositions([2000]);
    hr := b.Play(SameSource, false, true);
  }

  /** It plays to 200, past no notification. */
  method PlayOn(ds: DSound8OAL, b: Buffer)
    requires ds.Valid() && b in ds.live && b.size == 4000 && b.align == 1 && b.mNotifies == [2000] && b.due == [0]
    requires b.mSource == Some(Source(Playing, 0, false)) && b.pos == 0
    modifies b`mSource, b`pos, b`due
    ensures ds.Valid() && b.mSource == Some(Source(Playing, 200, false)) && b.pos == 200 && b.due == [0]
  {
    PollsAt200();
    b.Advance(200);
  }

  lemma Nothing(o: nat, a: nat, b: nat, size: nat)
    requires a <= b < o < size
    ensures Laps(o, a, b, size) == 0
  {
  }

  lemma PollsAt200()
    ensures Hits([2000], 1000, 200) == [1] && Passed([2000], 0, 200, 4000) == [0]
  {
    Nothing(2000, 0, 200, 4000);
  }
}
