/** The two bounded source pools that the buffers of every DirectSound object on one device share
    (src/dsoundoal.h:82-107), taken by Buffer::setLocation (src/buffer.cpp:573-619, 688-689) and
    given back there and by ~Buffer (src/buffer.cpp:509-514).  Each atomic operation is one step,
    and steps of different buffers interleave freely. */
module SourcePools {
  import opened Common
  import opened Sizes
  import Traces

  /** One setLocation call: what it asks for and when it began. */
  datatype Call = Call(request: LocStatus, since: nat)

  /** How the last setLocation of a buffer ended: with the place it had, with a new one, or with none.
      A call says when it saw each pool full. */
  datatype Outcome =
    | NoCall
    | Kept(call: Call)
    | Got(call: Call, hwAt: Option<nat>)
    | Full(call: Call, hwAt: Option<nat>, swAt: Option<nat>)

  /** Where a buffer is between two atomic operations. */
  datatype Pc =
    | Idle(last: Outcome)
    | Returning(call: Call)
    | Unmarking(call: Call)
    | LoadHw(call: Call)
    | TryHw(call: Call, cur: nat, at: nat)
    | LoadSw(call: Call, hwAt: Option<nat>)
    | TrySw(call: Call, hwAt: Option<nat>, cur: nat, at: nat)
    | Marking(call: Call, hwAt: Option<nat>, loc: LocStatus)
    | Leaving
    | Left
    | Gone

  datatype Buf = Buf(loc: LocStatus, pc: Pc)

  datatype State = State(maxHw: nat, maxSw: nat, hw: nat, sw: nat, bufs: seq<Buf>, now: nat)

  /** A new buffer, a new call, the next operation of a buffer, or its destruction.  `spurious`
      makes a compare_exchange_weak fail although the value matched. */
  datatype Action = Create | Begin(i: nat, request: LocStatus) | Next(i: nat, spurious: bool) | Destroy(i: nat)

  function Start(maxHw: nat, maxSw: nat): State {
    State(maxHw, maxSw, 0, 0, [], 0)
  }

  /** The early returns of setLocation, src/buffer.cpp:575-590, and what follows them. */
  function BeginCall(b: Buf, call: Call): Buf {
    if call.request != Nowhere && b.loc == call.request then b.(pc := Idle(Kept(call)))
    else if call.request == Nowhere && b.loc != Nowhere then b.(pc := Idle(Kept(call)))
    else if b.loc != Nowhere then b.(pc := Returning(call))
    else b.(pc := FirstPool(call))
  }

  /** The pool asked first, src/buffer.cpp:601, 606. */
  function FirstPool(call: Call): Pc {
    if call.request != Software then LoadHw(call) else LoadSw(call, None)
  }

  /** incHwSources found its pool full at time `at`, src/buffer.cpp:603-619. */
  function HwFull(call: Call, at: nat): Pc {
    if call.request != Hardware then LoadSw(call, Some(at)) else Idle(Full(call, Some(at), None))
  }

  function Increment(n: nat): nat { (n + 1) % TWO_32 }
  function Decrement(n: nat): nat { (n + TWO_32 - 1) % TWO_32 }

  /** Give the place of a location back: decHwSources or decSwSources. */
  function GiveBack(s: State, loc: LocStatus): State {
    match loc
    case Hardware => s.(hw := Decrement(s.hw))
    case Software => s.(sw := Decrement(s.sw))
    case Nowhere => s
  }

  function Put(s: State, i: nat, b: Buf): State
    requires i < |s.bufs|
  {
    s.(bufs := s.bufs[i := b])
  }

  /** The next atomic operation of buffer i. */
  function Advance(s: State, i: nat, spurious: bool): State
    requires i < |s.bufs|
  {
    var b := s.bufs[i];
    match b.pc
    case Idle(_) => s
    case Returning(call) => Put(GiveBack(s, b.loc), i, b.(pc := Unmarking(call)))
    case Unmarking(call) => Put(s, i, Buf(Nowhere, FirstPool(call)))
    case LoadHw(call) => Put(s, i, b.(pc := TryHw(call, s.hw, s.now)))
    case TryHw(call, cur, at) =>
      if cur == s.maxHw then Put(s, i, b.(pc := HwFull(call, at)))
      else if s.hw == cur && !spurious then Put(s.(hw := Increment(cur)), i, b.(pc := Marking(call, None, Hardware)))
      else Put(s, i, b.(pc := TryHw(call, s.hw, s.now)))
    case LoadSw(call, hwAt) => Put(s, i, b.(pc := TrySw(call, hwAt, s.sw, s.now)))
    case TrySw(call, hwAt, cur, at) =>
      if cur == s.maxSw then Put(s, i, b.(pc := Idle(Full(call, hwAt, Some(at)))))
      else if s.sw == cur && !spurious then Put(s.(sw := Increment(cur)), i, b.(pc := Marking(call, hwAt, Software)))
      else Put(s, i, b.(pc := TrySw(call, hwAt, s.sw, s.now)))
    case Marking(call, hwAt, loc) => Put(s, i, Buf(loc, Idle(Got(call, hwAt))))
    case Leaving => Put(GiveBack(s, b.loc), i, b.(pc := Left))
    case Left => Put(s, i, Buf(Nowhere, Gone))
    case Gone => s
  }

  /** One step of the system; an action that is not enabled does nothing. */
  function Step(s: State, a: Action): State {
    var t := match a
      case Create => s.(bufs := s.bufs + [Buf(Nowhere, Idle(NoCall))])
      case Begin(i, request) =>
        if i < |s.bufs| && s.bufs[i].pc.Idle? then Put(s, i, BeginCall(s.bufs[i], Call(request, s.now))) else s
      case Next(i, spurious) => if i < |s.bufs| then Advance(s, i, spurious) else s
      case Destroy(i) =>
        if i < |s.bufs| && s.bufs[i].pc.Idle? then Put(s, i, s.bufs[i].(pc := Leaving)) else s;
    t.(now := s.now + 1)
  }

  function Run(maxHw: nat, maxSw: nat, acts: seq<Action>): (run: seq<State>)
    ensures |run| == |acts| + 1
  {
    Traces.Run(Step, Start(maxHw, maxSw), acts)
  }

  // ---------------------------------------------------------------------------------------
  // Conservation

  /** The pool a buffer has a place in: its location, adjusted for the call in flight. */
  function Held(b: Buf): LocStatus {
    match b.pc
    case Unmarking(_) | Left | Gone => Nowhere
    case Marking(_, _, loc) => loc
    case _ => b.loc
  }

  /** How many buffers have a place in a pool. */
  function Holders(bufs: seq<Buf>, loc: LocStatus): nat {
    if bufs == [] then 0
    else Holders(bufs[..|bufs| - 1], loc) + if Held(bufs[|bufs| - 1]) == loc then 1 else 0
  }

  lemma {:induction false} HoldersPut(bufs: seq<Buf>, i: nat, b: Buf, loc: LocStatus)
    requires i < |bufs|
    ensures Holders(bufs[i := b], loc) + (if Held(bufs[i]) == loc then 1 else 0)
         == Holders(bufs, loc) + (if Held(b) == loc then 1 else 0)
  {
    var n := |bufs| - 1;
    if i < n {
      assert bufs[i := b][..n] == bufs[..n][i := b];
      HoldersPut(bufs[..n], i, b, loc);
    } else {
      assert bufs[i := b][..n] == bufs[..n];
    }
  }

  /** What a program counter says about the location and the request. */
  predicate Sane(b: Buf) {
    match b.pc
    case Idle(Kept(call)) => b.loc != Nowhere && (call.request == Nowhere || b.loc == call.request)
    case Idle(Got(call, hwAt)) =>
      && b.loc != Nowhere && (call.request == Nowhere || b.loc == call.request)
      && (b.loc == Software && call.request != Software ==> hwAt.Some?)
    case Idle(Full(call, hwAt, swAt)) =>
      b.loc == Nowhere && (call.request != Software ==> hwAt.Some?) && (call.request != Hardware ==> swAt.Some?)
    case Idle(NoCall) => b.loc == Nowhere
    case Returning(_) => b.loc != Nowhere
    case Unmarking(_) => b.loc != Nowhere
    case LoadHw(call) => b.loc == Nowhere && call.request != Software
    case TryHw(call, _, _) => b.loc == Nowhere && call.request != Software
    case LoadSw(call, hwAt) =>
      b.loc == Nowhere && call.request != Hardware && (call.request == Nowhere ==> hwAt.Some?)
    case TrySw(call, hwAt, _, _) =>
      b.loc == Nowhere && call.request != Hardware && (call.request == Nowhere ==> hwAt.Some?)
    case Marking(call, hwAt, loc) =>
      && b.loc == Nowhere && loc != Nowhere && (call.request == Nowhere || loc == call.request)
      && (loc == Software && call.request != Software ==> hwAt.Some?)
    case Gone => b.loc == Nowhere
    case _ => true
  }

  /** The counters are the numbers of buffers with a place, and neither pool is overdrawn. */
  predicate Conserved(s: State) {
    && s.hw == Holders(s.bufs, Hardware) <= s.maxHw < TWO_32
    && s.sw == Holders(s.bufs, Software) <= s.maxSw < TWO_32
    && forall i :: 0 <= i < |s.bufs| ==> Sane(s.bufs[i])
  }

  /** A step of one buffer that moves the counters as it moves that buffer's place. */
  lemma OneBufConserves(s: State, t: State, i: nat, b: Buf)
    requires Conserved(s) && i < |s.bufs| && t.bufs == s.bufs[i := b] && Sane(b)
    requires t.maxHw == s.maxHw && t.maxSw == s.maxSw && t.hw <= s.maxHw && t.sw <= s.maxSw
    requires t.hw + (if Held(s.bufs[i]) == Hardware then 1 else 0) == s.hw + (if Held(b) == Hardware then 1 else 0)
    requires t.sw + (if Held(s.bufs[i]) == Software then 1 else 0) == s.sw + (if Held(b) == Software then 1 else 0)
    ensures Conserved(t)
  {
    HoldersPut(s.bufs, i, b, Hardware);
    HoldersPut(s.bufs, i, b, Software);
  }

  /** A pool somebody has a place in is not empty, so a decrement never underflows. */
  lemma HolderCounted(s: State, i: nat)
    requires Conserved(s) && i < |s.bufs|
    ensures Held(s.bufs[i]) == Hardware ==> s.hw >= 1 && Decrement(s.hw) == s.hw - 1
    ensures Held(s.bufs[i]) == Software ==> s.sw >= 1 && Decrement(s.sw) == s.sw - 1
  {
    HoldersPut(s.bufs, i, Buf(Nowhere, Gone), Hardware);
    HoldersPut(s.bufs, i, Buf(Nowhere, Gone), Software);
  }

  lemma AdvanceConserves(s: State, i: nat, spurious: bool)
    requires Conserved(s) && i < |s.bufs|
    ensures Conserved(Advance(s, i, spurious))
  {
    var t, b := Advance(s, i, spurious), s.bufs[i];
    assert Sane(b);
    if !b.pc.Idle? && !b.pc.Gone? {
      HolderCounted(s, i);
      OneBufConserves(s, t, i, t.bufs[i]);
    }
  }

  lemma StepConserves(s: State, a: Action)
    requires Conserved(s)
    ensures Conserved(Step(s, a))
  {
    match a {
      case Create =>
        CreateConserves(s);
      case Begin(i, request) =>
        if i < |s.bufs| && s.bufs[i].pc.Idle? {
          assert Sane(s.bufs[i]);
          OneBufConserves(s, Step(s, a), i, BeginCall(s.bufs[i], Call(request, s.now)));
        }
      case Next(i, spurious) =>
        if i < |s.bufs| { AdvanceConserves(s, i, spurious); }
      case Destroy(i) =>
        if i < |s.bufs| && s.bufs[i].pc.Idle? {
          OneBufConserves(s, Step(s, a), i, s.bufs[i].(pc := Leaving));
        }
    }
  }

  lemma CreateConserves(s: State)
    requires Conserved(s)
    ensures Conserved(Step(s, Create))
  {
    assert Step(s, Create).bufs[..|s.bufs|] == s.bufs;
  }

  /** In every interleaving each counter is the number of buffers that have a place in its pool,
      and never exceeds its maximum, although the guard tests for equality only. */
  lemma {:induction false} RunConserves(maxHw: nat, maxSw: nat, acts: seq<Action>, t: nat)
    requires DWord(maxHw) && DWord(maxSw) && t <= |acts|
    ensures var s := Run(maxHw, maxSw, acts)[t];
            Conserved(s) && s.maxHw == maxHw && s.maxSw == maxSw && s.now == t
  {
    if t > 0 {
      Traces.RunStep(Step, Start(maxHw, maxSw), acts, t - 1);
      RunConserves(maxHw, maxSw, acts, t - 1);
      StepConserves(Run(maxHw, maxSw, acts)[t - 1], acts[t - 1]);
    } else {
      Traces.RunStart(Step, Start(maxHw, maxSw), acts);
    }
  }

  /** How many buffers are marked with a location. */
  function Marked(bufs: seq<Buf>, loc: LocStatus): nat {
    if bufs == [] then 0
    else Marked(bufs[..|bufs| - 1], loc) + if bufs[|bufs| - 1].loc == loc then 1 else 0
  }

  /** No call is in flight. */
  predicate AtRest(bufs: seq<Buf>) {
    forall i :: 0 <= i < |bufs| ==> bufs[i].pc.Idle? || bufs[i].pc.Gone?
  }

  lemma {:induction false} HoldersAtRest(bufs: seq<Buf>, loc: LocStatus)
    requires loc != Nowhere && AtRest(bufs) && forall i :: 0 <= i < |bufs| ==> Sane(bufs[i])
    ensures Holders(bufs, loc) == Marked(bufs, loc)
  {
    if bufs != [] {
      HoldersAtRest(bufs[..|bufs| - 1], loc);
      assert Sane(bufs[|bufs| - 1]) && (bufs[|bufs| - 1].pc.Idle? || bufs[|bufs| - 1].pc.Gone?);
    }
  }

  /** Whenever no call is in flight, the counters are the numbers of buffers marked with each
      location. */
  lemma RestConserves(maxHw: nat, maxSw: nat, acts: seq<Action>, t: nat)
    requires DWord(maxHw) && DWord(maxSw) && t <= |acts|
    requires AtRest(Run(maxHw, maxSw, acts)[t].bufs)
    ensures var s := Run(maxHw, maxSw, acts)[t];
            s.hw == Marked(s.bufs, Hardware) <= maxHw && s.sw == Marked(s.bufs, Software) <= maxSw
  {
    RunConserves(maxHw, maxSw, acts, t);
    HoldersAtRest(Run(maxHw, maxSw, acts)[t].bufs, Hardware);
    HoldersAtRest(Run(maxHw, maxSw, acts)[t].bufs, Software);
  }

  // ---------------------------------------------------------------------------------------
  // What a call returns

  /** At some time of the call, a counter was n. */
  ghost predicate SawHw(run: seq<State>, call: Call, at: nat, n: nat) {
    call.since <= at < |run| && run[at].hw == n
  }

  ghost predicate SawSw(run: seq<State>, call: Call, at: nat, n: nat) {
    call.since <= at < |run| && run[at].sw == n
  }

  /** Everything a buffer remembers having read was there when it says it was. */
  ghost predicate Remembers(run: seq<State>, maxHw: nat, maxSw: nat, pc: Pc) {
    match pc
    case Idle(Full(call, hwAt, swAt)) =>
      && (hwAt.Some? ==> SawHw(run, call, hwAt.value, maxHw))
      && (swAt.Some? ==> SawSw(run, call, swAt.value, maxSw))
    case Idle(Got(call, hwAt)) => hwAt.Some? ==> SawHw(run, call, hwAt.value, maxHw)
    case Marking(call, hwAt, _) => hwAt.Some? ==> SawHw(run, call, hwAt.value, maxHw)
    case TryHw(call, cur, at) => SawHw(run, call, at, cur)
    case LoadSw(call, hwAt) =>
      call.since < |run| && (hwAt.Some? ==> SawHw(run, call, hwAt.value, maxHw))
    case TrySw(call, hwAt, cur, at) =>
      SawSw(run, call, at, cur) && (hwAt.Some? ==> SawHw(run, call, hwAt.value, maxHw))
    case Returning(call) => call.since < |run|
    case Unmarking(call) => call.since < |run|
    case LoadHw(call) => call.since < |run|
    case _ => true
  }

  /** A step leads from what a run supports to what the run supports: what a buffer learns in its
      operation it learns from the current counters. */
  lemma StepRemembers(run: seq<State>, a: Action, i: nat)
    requires run != [] && run[|run| - 1].now == |run| - 1
    requires i < |Step(run[|run| - 1], a).bufs|
    requires i < |run[|run| - 1].bufs| ==>
               Remembers(run, run[|run| - 1].maxHw, run[|run| - 1].maxSw, run[|run| - 1].bufs[i].pc)
    ensures Remembers(run, run[|run| - 1].maxHw, run[|run| - 1].maxSw, Step(run[|run| - 1], a).bufs[i].pc)
  {
  }

  lemma {:induction false} AllRemember(maxHw: nat, maxSw: nat, acts: seq<Action>, t: nat, i: nat)
    requires DWord(maxHw) && DWord(maxSw) && t <= |acts|
    requires i < |Run(maxHw, maxSw, acts)[t].bufs|
    ensures Remembers(Run(maxHw, maxSw, acts)[..t + 1], maxHw, maxSw, Run(maxHw, maxSw, acts)[t].bufs[i].pc)
  {
    var run := Run(maxHw, maxSw, acts);
    if t > 0 {
      Traces.RunStep(Step, Start(maxHw, maxSw), acts, t - 1);
      RunConserves(maxHw, maxSw, acts, t - 1);
      if i < |run[t - 1].bufs| {
        AllRemember(maxHw, maxSw, acts, t - 1, i);
      }
      StepRemembers(run[..t], acts[t - 1], i);
      RemembersLonger(run[..t], run[..t + 1], maxHw, maxSw, run[t].bufs[i].pc);
    } else {
      Traces.RunStart(Step, Start(maxHw, maxSw), acts);
    }
  }

  lemma RemembersLonger(run: seq<State>, longer: seq<State>, maxHw: nat, maxSw: nat, pc: Pc)
    requires run <= longer && Remembers(run, maxHw, maxSw, pc)
    ensures Remembers(longer, maxHw, maxSw, pc)
  {
  }

  /** At some moment of the call every place of the pool was taken. */
  ghost predicate WasFull(run: seq<State>, call: Call, pool: LocStatus, max: nat) {
    exists t: nat :: call.since <= t < |run| && Holders(run[t].bufs, pool) == max
  }

  /** How the last call of a buffer ended.  DS_OK comes with the location asked for, and with a new place
      in software that was not asked for only if there was a moment during the call at which all places in
      hardware were taken; a failure leaves the buffer at None, and for every pool the call was allowed to
      use there was such a moment. */
  ghost predicate Honest(run: seq<State>, maxHw: nat, maxSw: nat, b: Buf) {
    match b.pc
    case Idle(Kept(call)) => b.loc != Nowhere && (call.request == Nowhere || b.loc == call.request)
    case Idle(Got(call, _)) =>
      && b.loc != Nowhere && (call.request == Nowhere || b.loc == call.request)
      && (b.loc == Software && call.request != Software ==> WasFull(run, call, Hardware, maxHw))
    case Idle(Full(call, _, _)) =>
      && b.loc == Nowhere
      && (call.request != Software ==> WasFull(run, call, Hardware, maxHw))
      && (call.request != Hardware ==> WasFull(run, call, Software, maxSw))
    case _ => true
  }

  lemma EveryOutcomeIsHonest(maxHw: nat, maxSw: nat, acts: seq<Action>, t: nat, i: nat)
    requires DWord(maxHw) && DWord(maxSw) && t <= |acts|
    requires i < |Run(maxHw, maxSw, acts)[t].bufs|
    ensures Honest(Run(maxHw, maxSw, acts)[..t + 1], maxHw, maxSw, Run(maxHw, maxSw, acts)[t].bufs[i])
  {
    var run := Run(maxHw, maxSw, acts);
    RunConserves(maxHw, maxSw, acts, t);
    var b := run[t].bufs[i];
    assert Sane(b);
    AllRemember(maxHw, maxSw, acts, t, i);
    if b.pc.Idle? && (b.pc.last.Full? || b.pc.last.Got?) && b.pc.last.hwAt.Some? {
      var at := b.pc.last.hwAt.value;
      RunConserves(maxHw, maxSw, acts, at);
      assert Holders(run[..t + 1][at].bufs, Hardware) == maxHw;
    }
    if b.pc.Idle? && b.pc.last.Full? && b.pc.last.swAt.Some? {
      var at := b.pc.last.swAt.value;
      RunConserves(maxHw, maxSw, acts, at);
      assert Holders(run[..t + 1][at].bufs, Software) == maxSw;
    }
  }

  /** A call is over as soon as it begins exactly if the buffer has a place and asks for that or for any;
      and then nothing moves. */
  lemma StaysIfItWill(maxHw: nat, maxSw: nat, acts: seq<Action>, t: nat, i: nat, request: LocStatus)
    requires DWord(maxHw) && DWord(maxSw) && t < |acts| && acts[t] == Begin(i, request)
    requires i < |Run(maxHw, maxSw, acts)[t].bufs| && Run(maxHw, maxSw, acts)[t].bufs[i].pc.Idle?
    ensures var s, s' := Run(maxHw, maxSw, acts)[t], Run(maxHw, maxSw, acts)[t + 1];
            && s'.hw == s.hw && s'.sw == s.sw && |s'.bufs| == |s.bufs| && s'.bufs[i].loc == s.bufs[i].loc
            && (s'.bufs[i].pc.Idle? <==> s.bufs[i].loc != Nowhere && (request == Nowhere || request == s.bufs[i].loc))
            && (s'.bufs[i].pc.Idle? ==> s'.bufs[i].pc.last == Kept(Call(request, t)))
  {
    Traces.RunStep(Step, Start(maxHw, maxSw), acts, t);
    RunConserves(maxHw, maxSw, acts, t);
    assert Sane(Run(maxHw, maxSw, acts)[t].bufs[i]);
  }

  // ---------------------------------------------------------------------------------------
  // A call that nobody disturbs

  /** Buffer i takes n operations, none of which fails spuriously. */
  function Alone(s: State, i: nat, n: nat): (t: State)
    ensures |t.bufs| == |s.bufs|
    decreases n
  {
    if n == 0 then s else Alone(Step(s, Next(i, false)), i, n - 1)
  }

  /** What such a call comes to: hardware first, unless software is asked for. */
  predicate Settles(b: Buf, request: LocStatus, hwRoom: bool, swRoom: bool) {
    && b.pc.Idle?
    && (b.loc == Hardware <==> request != Software && hwRoom)
    && (b.loc == Software <==> request != Hardware && swRoom && (request == Software || !hwRoom))
  }

  lemma {:induction false} IdleAlone(s: State, i: nat, n: nat)
    requires i < |s.bufs| && s.bufs[i].pc.Idle?
    ensures Alone(s, i, n).bufs[i] == s.bufs[i]
    decreases n
  {
    if n > 0 { IdleAlone(Step(s, Next(i, false)), i, n - 1); }
  }

  lemma SwAlone(s: State, i: nat, n: nat)
    requires i < |s.bufs| && s.bufs[i].loc == Nowhere && s.bufs[i].pc.LoadSw? && n >= 3
    ensures var b := Alone(s, i, n).bufs[i];
            b.pc.Idle? && b.loc == if s.sw != s.maxSw then Software else Nowhere
  {
    var s1 := Step(s, Next(i, false));
    var s2 := Step(s1, Next(i, false));
    var s3 := Step(s2, Next(i, false));
    assert Alone(s, i, n) == Alone(s1, i, n - 1) == Alone(s2, i, n - 2) == Alone(s3, i, n - 3);
    IdleAlone(s3, i, n - 3);
  }

  lemma HwAlone(s: State, i: nat, n: nat)
    requires i < |s.bufs| && s.bufs[i].loc == Nowhere && s.bufs[i].pc.LoadHw? && n >= 5
    requires s.bufs[i].pc.call.request != Software
    ensures Settles(Alone(s, i, n).bufs[i], s.bufs[i].pc.call.request, s.hw != s.maxHw, s.sw != s.maxSw)
  {
    var s1 := Step(s, Next(i, false));
    var s2 := Step(s1, Next(i, false));
    var s3 := Step(s2, Next(i, false));
    assert Alone(s, i, n) == Alone(s1, i, n - 1) == Alone(s2, i, n - 2);
    if s2.bufs[i].pc.LoadSw? {
      SwAlone(s2, i, n - 2);
    } else {
      assert Alone(s2, i, n - 2) == Alone(s3, i, n - 3);
      IdleAlone(s3, i, n - 3);
    }
  }

  /** The pools of an unlocated buffer's call, one after the other. */
  lemma PoolsAlone(s: State, i: nat, call: Call, n: nat)
    requires i < |s.bufs| && s.bufs[i] == Buf(Nowhere, FirstPool(call)) && n >= 5
    ensures Settles(Alone(s, i, n).bufs[i], call.request, s.hw != s.maxHw, s.sw != s.maxSw)
  {
    if call.request != Software {
      HwAlone(s, i, n);
    } else {
      SwAlone(s, i, n);
    }
  }

  /** The operations of a call that has to look for a place, without any of other buffers between them: it
      is over after at most seven, in hardware if that may be and has room, or else in software if that may be
      and has room, or else nowhere. */
  lemma UndisturbedCall(s: State, i: nat, request: LocStatus, n: nat)
    requires Conserved(s) && i < |s.bufs| && s.bufs[i].pc.Idle? && n >= 7
    requires s.bufs[i].loc == Nowhere || (request != Nowhere && request != s.bufs[i].loc)
    ensures var b := Alone(Step(s, Begin(i, request)), i, n).bufs[i];
            Settles(b, request, s.hw != s.maxHw, s.sw != s.maxSw)
  {
    assert Sane(s.bufs[i]);
    var s0 := Step(s, Begin(i, request));
    var call := Call(request, s.now);
    if s.bufs[i].loc == Nowhere {
      PoolsAlone(s0, i, call, n);
    } else {
      HolderCounted(s, i);
      var s1 := Step(s0, Next(i, false));
      var s2 := Step(s1, Next(i, false));
      assert Alone(s0, i, n) == Alone(s1, i, n - 1) == Alone(s2, i, n - 2);
      PoolsAlone(s2, i, call, n - 2);
    }
  }
}
