/** The reference counts of one secondary buffer: five interface counts and the total that decides
    its disposal (src/buffer.h:199-200; src/buffer.cpp:760-777, 1559-1578, 2107-2126, 2427-2446,
    2518-2537).  Every fetch_add and fetch_sub is one step, counts wrap at 2^32, and the calls of
    any number of threads interleave freely. */
module RefCounts {
  import opened Common
  import Traces

  datatype Iface = DsIface | Ds3dIface | PropIface | NotIface | UnkIface

  /** mDsRef, mDs3dRef, mPropRef, mNotRef and mUnkRef: a number for each interface. */
  type Counts = multiset<Iface>

  /** Adding0 and Releasing0 are about to take their first step, Adding1 and Releasing1 are between
      their two steps. */
  datatype Pc = Idle | Adding0(x: Iface) | Adding1(x: Iface) | Releasing0(x: Iface) | Releasing1

  /** A thread and the interface references it owns. */
  datatype Thread = Thread(refs: Counts, pc: Pc)

  const IDLE := Thread(multiset{}, Idle)

  /** `disposals` counts the calls of DSound8OAL::dispose for this buffer. */
  datatype State = State(total: nat, ifaces: Counts, threads: seq<Thread>, disposals: nat)

  /** A thread calls AddRef (or QueryInterface) for an interface, or Release of a reference it
      owns, takes its next step, or hands a reference to another thread. */
  datatype Action = AddRef(t: nat, x: Iface) | Release(t: nat, x: Iface) | Next(t: nat) | Give(t: nat, u: nat, x: Iface)

  /** A new buffer: its creator owns the one reference, on the IDirectSoundBuffer interface. */
  function Start(others: nat): State {
    State(1, multiset{DsIface}, [Thread(multiset{DsIface}, Idle)] + seq(others, i => IDLE), 0)
  }

  function Up(n: nat): nat { (n + 1) % TWO_32 }
  function Down(n: nat): nat { (n + TWO_32 - 1) % TWO_32 }

  function Put(s: State, t: nat, th: Thread): State
    requires t < |s.threads|
  {
    s.(threads := s.threads[t := th])
  }

  /** One atomic operation of a thread inside a call. */
  function Advance(s: State, t: nat): State
    requires t < |s.threads|
  {
    var th := s.threads[t];
    match th.pc
    case Idle => s
    case Adding0(x) => Put(s.(total := Up(s.total)), t, th.(pc := Adding1(x)))
    case Adding1(x) =>
      Put(s.(ifaces := s.ifaces[x := Up(s.ifaces[x])]), t, Thread(th.refs + multiset{x}, Idle))
    case Releasing0(x) =>
      Put(s.(ifaces := s.ifaces[x := Down(s.ifaces[x])]), t, th.(pc := Releasing1))
    case Releasing1 =>
      Put(s.(total := Down(s.total), disposals := s.disposals + if s.total == 1 then 1 else 0),
          t, th.(pc := Idle))
  }

  /** One step of the system; an action that is not enabled does nothing.  A caller owns a
      reference: to add one it keeps some reference during the call, and only a reference it owns
      can a thread release. */
  function Step(s: State, a: Action): State {
    match a
    case AddRef(t, x) =>
      if t < |s.threads| && s.threads[t].pc.Idle? && s.threads[t].refs != multiset{}
      then Put(s, t, s.threads[t].(pc := Adding0(x))) else s
    case Release(t, x) =>
      if t < |s.threads| && s.threads[t].pc.Idle? && s.threads[t].refs[x] > 0
      then Put(s, t, Thread(s.threads[t].refs - multiset{x}, Releasing0(x))) else s
    case Next(t) => if t < |s.threads| then Advance(s, t) else s
    case Give(t, u, x) =>
      if t < |s.threads| && u < |s.threads| && t != u
         && s.threads[t].pc.Idle? && s.threads[t].refs[x] > 0
      then Put(Put(s, t, s.threads[t].(refs := s.threads[t].refs - multiset{x})),
               u, s.threads[u].(refs := s.threads[u].refs + multiset{x}))
      else s
  }

  // ---------------------------------------------------------------------------------------
  // What the counts mean

  /** References to x that the count of x includes: those owned, and one being released. */
  function Owned(th: Thread, x: Iface): nat {
    th.refs[x] + if th.pc == Releasing0(x) then 1 else 0
  }

  /** The thread is between the two steps of a call: the total counts it, no interface does. */
  function Between(th: Thread): nat {
    if th.pc.Adding1? || th.pc.Releasing1? then 1 else 0
  }

  function AllOwned(ts: seq<Thread>, x: Iface): nat {
    if ts == [] then 0 else AllOwned(ts[..|ts| - 1], x) + Owned(ts[|ts| - 1], x)
  }

  function AllBetween(ts: seq<Thread>): nat {
    if ts == [] then 0 else AllBetween(ts[..|ts| - 1]) + Between(ts[|ts| - 1])
  }

  /** What a thread adds to the total. */
  function Weight(th: Thread): nat {
    |th.refs| + if th.pc.Idle? || th.pc.Adding0? then 0 else 1
  }

  /** All references to the buffer, and the calls between their two steps. */
  function Live(ts: seq<Thread>): nat {
    if ts == [] then 0 else Live(ts[..|ts| - 1]) + Weight(ts[|ts| - 1])
  }

  lemma {:induction false} OwnedPut(ts: seq<Thread>, t: nat, th: Thread, x: Iface)
    requires t < |ts|
    ensures AllOwned(ts[t := th], x) + Owned(ts[t], x) == AllOwned(ts, x) + Owned(th, x)
    ensures AllBetween(ts[t := th]) + Between(ts[t]) == AllBetween(ts) + Between(th)
  {
    var n := |ts| - 1;
    if t < n {
      assert ts[t := th][..n] == ts[..n][t := th];
      OwnedPut(ts[..n], t, th, x);
    } else {
      assert ts[t := th][..n] == ts[..n];
    }
  }

  lemma {:induction false} LivePut(ts: seq<Thread>, t: nat, th: Thread)
    requires t < |ts|
    ensures Live(ts[t := th]) + Weight(ts[t]) == Live(ts) + Weight(th)
  {
    var n := |ts| - 1;
    if t < n {
      assert ts[t := th][..n] == ts[..n][t := th];
      LivePut(ts[..n], t, th);
    } else {
      assert ts[t := th][..n] == ts[..n];
    }
  }

  function AllIfaces(ts: seq<Thread>): nat {
    AllOwned(ts, DsIface) + AllOwned(ts, Ds3dIface) + AllOwned(ts, PropIface) + AllOwned(ts, NotIface)
    + AllOwned(ts, UnkIface)
  }

  lemma SizeIsSum(c: Counts)
    ensures |c| == c[DsIface] + c[Ds3dIface] + c[PropIface] + c[NotIface] + c[UnkIface]
  {
    var d := c[DsIface := 0];
    var e := d[Ds3dIface := 0];
    var f := e[PropIface := 0];
    var g := f[NotIface := 0];
    var none := g[UnkIface := 0];
    assert |c| == c[DsIface] + d[Ds3dIface] + e[PropIface] + f[NotIface] + g[UnkIface] + |none|;
    forall x ensures none[x] == 0 {
      match x case DsIface => case Ds3dIface => case PropIface => case NotIface => case UnkIface =>
    }
  }

  lemma WeightIsSum(th: Thread)
    ensures Weight(th) == Owned(th, DsIface) + Owned(th, Ds3dIface) + Owned(th, PropIface) + Owned(th, NotIface)
                          + Owned(th, UnkIface) + Between(th)
  {
    SizeIsSum(th.refs);
    if th.pc.Releasing0? {
      match th.pc.x case DsIface => case Ds3dIface => case PropIface => case NotIface => case UnkIface =>
    }
  }

  lemma {:induction false} LiveIsSum(ts: seq<Thread>)
    ensures Live(ts) == AllIfaces(ts) + AllBetween(ts)
  {
    if ts != [] {
      LiveIsSum(ts[..|ts| - 1]);
      WeightIsSum(ts[|ts| - 1]);
    }
  }

  /** Nothing is live exactly when no thread owns a reference or is inside a call. */
  lemma LiveZero(ts: seq<Thread>, t: nat)
    requires t < |ts| && Live(ts) == 0
    ensures Weight(ts[t]) == 0
  {
    LivePut(ts, t, IDLE);
  }

  /** The 32-bit counts count what they should, wrapped at 2^32; and who is adding a reference
      owns one. */
  predicate Counted(s: State) {
    && s.total == Live(s.threads) % TWO_32
    && (forall x :: s.ifaces[x] == AllOwned(s.threads, x) % TWO_32)
    && forall i :: 0 <= i < |s.threads| ==> s.threads[i].pc.Adding0? ==> s.threads[i].refs != multiset{}
  }

  /** The total is the sum of the five interface counts plus the number of threads between the two
      steps of an AddRef or a Release, in the arithmetic of the counts. */
  lemma TotalIsSum(s: State)
    requires Counted(s)
    ensures s.total == (|s.ifaces| + AllBetween(s.threads)) % TWO_32
  {
    SizeIsSum(s.ifaces);
    LiveIsSum(s.threads);
    WrapSum(AllOwned(s.threads, DsIface), AllOwned(s.threads, Ds3dIface), AllOwned(s.threads, PropIface),
            AllOwned(s.threads, NotIface), AllOwned(s.threads, UnkIface), AllBetween(s.threads));
  }

  lemma TotalIsExactSum(s: State)
    requires Counted(s) && Live(s.threads) < TWO_32
    ensures s.total == |s.ifaces| + AllBetween(s.threads)
  {
    SizeIsSum(s.ifaces);
    LiveIsSum(s.threads);
    forall x ensures s.ifaces[x] == AllOwned(s.threads, x) {
      assert AllOwned(s.threads, x) <= AllIfaces(s.threads) by {
        match x case DsIface => case Ds3dIface => case PropIface => case NotIface => case UnkIface =>
      }
      Small(AllOwned(s.threads, x));
    }
    Small(Live(s.threads));
  }

  lemma Small(n: nat)
    requires n < TWO_32
    ensures n % TWO_32 == n
  {}

  lemma Wrap(a: nat, b: nat)
    ensures (a % TWO_32 + b) % TWO_32 == (a + b) % TWO_32
  {}

  lemma WrapSum(a: nat, b: nat, c: nat, d: nat, e: nat, f: nat)
    ensures (a % TWO_32 + b % TWO_32 + c % TWO_32 + d % TWO_32 + e % TWO_32 + f) % TWO_32
         == (a + b + c + d + e + f) % TWO_32
  {
    Wrap(a, b % TWO_32 + c % TWO_32 + d % TWO_32 + e % TWO_32 + f);
    Wrap(b, a + c % TWO_32 + d % TWO_32 + e % TWO_32 + f);
    Wrap(c, a + b + d % TWO_32 + e % TWO_32 + f);
    Wrap(d, a + b + c + e % TWO_32 + f);
    Wrap(e, a + b + c + d + f);
  }

  /** A wrapped count moves as a thread's share of it moves, by one at most. */
  predicate Follows(count: nat, count': nat, share: nat, share': nat) {
    && share' <= share + 1 && share <= share' + 1
    && count' == if share' == share then count else if share' > share then Up(count) else Down(count)
  }

  lemma FollowsSum(count: nat, count': nat, share: nat, share': nat, n: nat, n': nat)
    requires count == n % TWO_32 && n' + share == n + share' && Follows(count, count', share, share')
    ensures count' == n' % TWO_32
  {
  }

  /** A step of one thread that moves the counts as it moves that thread's references. */
  predicate OneThread(s: State, s': State, t: nat, th: Thread)
    requires t < |s.threads|
  {
    && s'.threads == s.threads[t := th] && (th.pc.Adding0? ==> th.refs != multiset{})
    && Follows(s.total, s'.total, Weight(s.threads[t]), Weight(th))
    && forall x :: Follows(s.ifaces[x], s'.ifaces[x], Owned(s.threads[t], x), Owned(th, x))
  }

  lemma OneThreadCounted(s: State, s': State, t: nat, th: Thread)
    requires Counted(s) && t < |s.threads| && OneThread(s, s', t, th)
    ensures Counted(s')
  {
    LivePut(s.threads, t, th);
    FollowsSum(s.total, s'.total, Weight(s.threads[t]), Weight(th), Live(s.threads), Live(s'.threads));
    forall x ensures s'.ifaces[x] == AllOwned(s'.threads, x) % TWO_32 {
      OwnedPut(s.threads, t, th, x);
      FollowsSum(s.ifaces[x], s'.ifaces[x], Owned(s.threads[t], x), Owned(th, x),
                 AllOwned(s.threads, x), AllOwned(s'.threads, x));
    }
  }

  lemma AdvanceOneThread(s: State, t: nat)
    requires Counted(s) && t < |s.threads|
    ensures !s.threads[t].pc.Idle? ==> OneThread(s, Advance(s, t), t, Advance(s, t).threads[t])
  {
  }

  lemma StepCounted(s: State, a: Action)
    requires Counted(s)
    ensures Counted(Step(s, a))
  {
    var s' := Step(s, a);
    if s' == s {
    } else if a.Next? {
      AdvanceOneThread(s, a.t);
      OneThreadCounted(s, s', a.t, s'.threads[a.t]);
    } else if a.AddRef? {
      OneThreadCounted(s, s', a.t, s.threads[a.t].(pc := Adding0(a.x)));
    } else if a.Release? {
      OneThreadCounted(s, s', a.t, Thread(s.threads[a.t].refs - multiset{a.x}, Releasing0(a.x)));
    } else {
      GiveKeeps(s, a.t, a.u, a.x);
    }
  }

  lemma GiveLive(s: State, t: nat, u: nat, x: Iface)
    ensures Live(Step(s, Give(t, u, x)).threads) == Live(s.threads)
  {
    var s' := Step(s, Give(t, u, x));
    if s' != s {
      var mid := s.threads[t := s'.threads[t]];
      assert s'.threads == mid[u := s'.threads[u]];
      LivePut(s.threads, t, s'.threads[t]);
      LivePut(mid, u, s'.threads[u]);
    }
  }

  /** Handing a reference over changes nothing in the sums. */
  lemma GiveKeeps(s: State, t: nat, u: nat, x: Iface)
    requires Counted(s)
    ensures Counted(Step(s, Give(t, u, x)))
  {
    var s' := Step(s, Give(t, u, x));
    GiveLive(s, t, u, x);
    if s' != s {
      var giver, taker := s'.threads[t], s'.threads[u];
      var mid := s.threads[t := giver];
      assert s'.threads == mid[u := taker];
      forall y ensures AllOwned(s'.threads, y) == AllOwned(s.threads, y) {
        OwnedPut(s.threads, t, giver, y);
        OwnedPut(mid, u, taker, y);
      }
    }
  }

  // ---------------------------------------------------------------------------------------
  // Every run

  function Run(others: nat, acts: seq<Action>): (run: seq<State>)
    ensures |run| == |acts| + 1
  {
    Traces.Run(Step, Start(others), acts)
  }

  lemma {:induction false} IdleThreads(n: nat, x: Iface)
    ensures var ts := [Thread(multiset{DsIface}, Idle)] + seq(n, i => IDLE);
            AllOwned(ts, x) == multiset{DsIface}[x] && Live(ts) == 1
  {
    var ts := [Thread(multiset{DsIface}, Idle)] + seq(n, i => IDLE);
    if n > 0 {
      IdleThreads(n - 1, x);
      assert ts[..n] == [Thread(multiset{DsIface}, Idle)] + seq(n - 1, i => IDLE);
    } else {
      assert ts[..0] == [];
    }
  }

  lemma StartCounted(others: nat)
    ensures Counted(Start(others)) && Live(Start(others).threads) == 1
  {
    forall x ensures AllOwned(Start(others).threads, x) == multiset{DsIface}[x] && Live(Start(others).threads) == 1 {
      IdleThreads(others, x);
    }
    assert Live(Start(others).threads) == 1 by { IdleThreads(others, DsIface); }
  }

  lemma RunSteps(others: nat, acts: seq<Action>, k: nat)
    requires k < |acts|
    ensures Run(others, acts)[k + 1] == Step(Run(others, acts)[k], acts[k])
  {
    Traces.RunStep(Step, Start(others), acts, k);
  }

  lemma RunStarts(others: nat, acts: seq<Action>)
    ensures Run(others, acts)[0] == Start(others)
  {
    Traces.RunStart(Step, Start(others), acts);
  }

  /** At first the creator owns one reference to IDirectSoundBuffer, and that is all. */
  lemma StartOwnsOne(others: nat, acts: seq<Action>)
    ensures var s := Run(others, acts)[0];
            && s.total == 1 && s.disposals == 0 && |s.threads| == 1 + others
            && (forall x :: s.ifaces[x] == s.threads[0].refs[x] == if x == DsIface then 1 else 0)
            && forall t :: 0 < t < |s.threads| ==> forall x :: s.threads[t].refs[x] == 0
  {
    RunStarts(others, acts);
  }

  /** In every interleaving of any number of threads the counts stay right. */
  lemma {:induction false} RunCounted(others: nat, acts: seq<Action>, k: nat)
    requires k <= |acts|
    ensures Counted(Run(others, acts)[k])
  {
    if k > 0 {
      RunSteps(others, acts, k - 1);
      RunCounted(others, acts, k - 1);
      StepCounted(Run(others, acts)[k - 1], acts[k - 1]);
    } else {
      StartCounted(others);
      RunStarts(others, acts);
    }
  }

  /** mTotalRef at any time of any run: the sum of the interface counts and the calls between
      their two steps. */
  lemma RunTotal(others: nat, acts: seq<Action>, k: nat)
    requires k <= |acts|
    ensures var s := Run(others, acts)[k];
            && s.total == (|s.ifaces| + AllBetween(s.threads)) % TWO_32
            && (Live(s.threads) < TWO_32 ==> s.total == |s.ifaces| + AllBetween(s.threads))
  {
    RunCounted(others, acts, k);
    var s := Run(others, acts)[k];
    TotalIsSum(s);
    if Live(s.threads) < TWO_32 { TotalIsExactSum(s); }
  }

  // ---------------------------------------------------------------------------------------
  // One call

  /** Between two times the thread does nothing of its own. */
  predicate Waits(acts: seq<Action>, t: nat, a: nat, b: nat)
    requires b <= |acts|
  {
    forall k :: a <= k < b ==> acts[k].t != t
  }

  /** And nobody hands it anything. */
  predicate NoGift(acts: seq<Action>, t: nat, a: nat, b: nat)
    requires b <= |acts|
  {
    forall k :: a <= k < b ==> acts[k].Give? ==> acts[k].u != t
  }

  lemma OthersStep(s: State, a: Action, t: nat)
    requires t < |s.threads| && a.t != t
    ensures t < |Step(s, a).threads| && Step(s, a).threads[t].pc == s.threads[t].pc
    ensures !(a.Give? && a.u == t) ==> Step(s, a).threads[t] == s.threads[t]
  {
  }

  /** A thread that waits stays where it is in its call, with its references. */
  lemma {:induction false} Waiting(others: nat, acts: seq<Action>, t: nat, a: nat, b: nat)
    requires a <= b <= |acts| && Waits(acts, t, a, b) && t < |Run(others, acts)[a].threads|
    ensures t < |Run(others, acts)[b].threads|
    ensures Run(others, acts)[b].threads[t].pc == Run(others, acts)[a].threads[t].pc
    ensures NoGift(acts, t, a, b) ==> Run(others, acts)[b].threads[t] == Run(others, acts)[a].threads[t]
  {
    if a < b {
      Waiting(others, acts, t, a, b - 1);
      RunSteps(others, acts, b - 1);
      OthersStep(Run(others, acts)[b - 1], acts[b - 1], t);
    }
  }

  /** Thread t begins a call at time a and takes its two steps at b and c; other threads do what they like
      in between. */
  predicate Call(acts: seq<Action>, t: nat, a: nat, b: nat, c: nat) {
    && a < b < c < |acts| && acts[b] == acts[c] == Next(t) && Waits(acts, t, a + 1, b) && Waits(acts, t, b + 1, c)
  }

  /** A step changed no thread but t. */
  predicate OnlyThread(s: State, s': State, t: nat) {
    t < |s.threads| == |s'.threads| && forall u :: 0 <= u < |s.threads| && u != t ==> s'.threads[u] == s.threads[u]
  }

  /** It moved no count. */
  predicate NoneMoved(s: State, s': State, t: nat) {
    OnlyThread(s, s', t) && s'.total == s.total && s'.ifaces == s.ifaces
  }

  /** It moved the total only, in 32 bits. */
  predicate TotalMoved(s: State, s': State, t: nat, n: nat) {
    OnlyThread(s, s', t) && s'.ifaces == s.ifaces && s'.total == (s.total + n) % 0x1_0000_0000
  }

  /** It moved the count of x only, in 32 bits. */
  predicate IfaceMoved(s: State, s': State, t: nat, x: Iface, n: nat) {
    && OnlyThread(s, s', t) && s'.total == s.total
    && forall y :: s'.ifaces[y] == if y == x then (s.ifaces[y] + n) % 0x1_0000_0000 else s.ifaces[y]
  }

  /** A thread came to own one more, or one less, of x and as many as before of the others. */
  predicate Gained(th: Thread, th': Thread, x: Iface, n: int) {
    forall y :: th'.refs[y] == th.refs[y] + if y == x then n else 0
  }

  lemma AddBegins(s: State, t: nat, x: Iface)
    requires t < |s.threads| && s.threads[t].pc == Idle && s.threads[t].refs != multiset{}
    ensures var s' := Step(s, AddRef(t, x));
            NoneMoved(s, s', t) && s'.threads[t] == s.threads[t].(pc := Adding0(x))
  {
  }

  lemma AddRaises(s: State, t: nat, x: Iface)
    requires t < |s.threads| && s.threads[t].pc == Adding0(x)
    ensures var s' := Step(s, Next(t));
            TotalMoved(s, s', t, 1) && s'.threads[t] == s.threads[t].(pc := Adding1(x))
  {
  }

  lemma AddEnds(s: State, t: nat, x: Iface)
    requires t < |s.threads| && s.threads[t].pc == Adding1(x)
    ensures var s' := Step(s, Next(t));
            IfaceMoved(s, s', t, x, 1) && s'.threads[t].pc == Idle && Gained(s.threads[t], s'.threads[t], x, 1)
  {
  }

  /** The steps of a whole AddRef for one interface, with any steps of other threads between them: the first
      adds one to the total, the second one to the count of that interface and of no other; and the thread
      owns one more reference to that interface and to no other. */
  lemma AddRefCounts(others: nat, acts: seq<Action>, t: nat, x: Iface, a: nat, b: nat, c: nat)
    requires Call(acts, t, a, b, c) && acts[a] == AddRef(t, x)
    requires var s := Run(others, acts)[a];
             t < |s.threads| && s.threads[t].pc == Idle && s.threads[t].refs != multiset{}
    ensures var run := Run(others, acts);
            && NoneMoved(run[a], run[a + 1], t) && TotalMoved(run[b], run[b + 1], t, 1)
            && IfaceMoved(run[c], run[c + 1], t, x, 1) && run[c + 1].threads[t].pc == Idle
            && (NoGift(acts, t, a, c) ==> Gained(run[a].threads[t], run[c + 1].threads[t], x, 1))
  {
    RunSteps(others, acts, a);
    AddBegins(Run(others, acts)[a], t, x);
    Waiting(others, acts, t, a + 1, b);
    RunSteps(others, acts, b);
    AddRaises(Run(others, acts)[b], t, x);
    Waiting(others, acts, t, b + 1, c);
    RunSteps(others, acts, c);
    AddEnds(Run(others, acts)[c], t, x);
  }

  lemma ReleaseBegins(s: State, t: nat, x: Iface)
    requires t < |s.threads| && s.threads[t].pc == Idle && s.threads[t].refs[x] > 0
    ensures var s' := Step(s, Release(t, x));
            && NoneMoved(s, s', t) && s'.threads[t].pc == Releasing0(x)
            && Gained(s.threads[t], s'.threads[t], x, -1)
  {
  }

  lemma ReleaseLowers(s: State, t: nat, x: Iface)
    requires t < |s.threads| && s.threads[t].pc == Releasing0(x)
    ensures var s' := Step(s, Next(t));
            IfaceMoved(s, s', t, x, 0xFFFF_FFFF) && s'.threads[t] == s.threads[t].(pc := Releasing1)
  {
  }

  lemma ReleaseEnds(s: State, t: nat)
    requires t < |s.threads| && s.threads[t].pc == Releasing1
    ensures var s' := Step(s, Next(t));
            TotalMoved(s, s', t, 0xFFFF_FFFF) && s'.threads[t] == s.threads[t].(pc := Idle)
  {
  }

  /** And those of a whole Release: the thread owns one reference to the interface less; the first step takes
      one from the count of that interface and of no other, the second one from the total. */
  lemma ReleaseCounts(others: nat, acts: seq<Action>, t: nat, x: Iface, a: nat, b: nat, c: nat)
    requires Call(acts, t, a, b, c) && acts[a] == Release(t, x)
    requires var s := Run(others, acts)[a]; t < |s.threads| && s.threads[t].pc == Idle && s.threads[t].refs[x] > 0
    ensures var run := Run(others, acts);
            && NoneMoved(run[a], run[a + 1], t) && IfaceMoved(run[b], run[b + 1], t, x, 0xFFFF_FFFF)
            && TotalMoved(run[c], run[c + 1], t, 0xFFFF_FFFF) && run[c + 1].threads[t].pc == Idle
            && (NoGift(acts, t, a, c) ==> Gained(run[a].threads[t], run[c + 1].threads[t], x, -1))
  {
    RunSteps(others, acts, a);
    ReleaseBegins(Run(others, acts)[a], t, x);
    Waiting(others, acts, t, a + 1, b);
    RunSteps(others, acts, b);
    ReleaseLowers(Run(others, acts)[b], t, x);
    Waiting(others, acts, t, b + 1, c);
    RunSteps(others, acts, c);
    ReleaseEnds(Run(others, acts)[c], t);
  }

  /** A reference handed over goes from the one to the other, and no count moves. */
  lemma GiveMoves(s: State, t: nat, u: nat, x: Iface)
    requires t < |s.threads| && u < |s.threads| && t != u && s.threads[t].pc == Idle && s.threads[t].refs[x] > 0
    ensures var s' := Step(s, Give(t, u, x));
            && s'.total == s.total && s'.ifaces == s.ifaces && |s'.threads| == |s.threads|
            && Gained(s.threads[t], s'.threads[t], x, -1) && Gained(s.threads[u], s'.threads[u], x, 1)
  {
  }

  // ---------------------------------------------------------------------------------------
  // Disposal

  /** No reference is owned and no thread is inside a call. */
  predicate Unused(s: State) {
    forall i :: 0 <= i < |s.threads| ==> s.threads[i] == IDLE
  }

  /** dispose has been called once if nothing is live, and not at all otherwise. */
  predicate DisposedOnce(s: State) {
    s.disposals == if Live(s.threads) == 0 then 1 else 0
  }

  lemma NothingLive(s: State)
    requires Counted(s)
    ensures Live(s.threads) == 0 ==> Unused(s)
  {
    if Live(s.threads) == 0 {
      forall i | 0 <= i < |s.threads| ensures s.threads[i] == IDLE {
        LiveZero(s.threads, i);
      }
    }
  }

  /** Only the first step of AddRef and the second of Release change what is live. */
  lemma AdvanceLive(s: State, t: nat)
    requires t < |s.threads|
    ensures Live(Advance(s, t).threads)
         == match s.threads[t].pc
            case Adding0(_) => Live(s.threads) + 1
            case Releasing1 => Live(s.threads) - 1
            case _ => Live(s.threads)
  {
    LivePut(s.threads, t, Advance(s, t).threads[t]);
  }

  /** The second step of a Release that finds mTotalRef at 1. */
  predicate Disposing(s: State, a: Action) {
    && a.Next? && a.t < |s.threads| && s.threads[a.t].pc == Releasing1
    && Live(s.threads) % TWO_32 == 1
  }

  /** The count has wrapped: it is at 1 although references or calls remain. */
  predicate Early(s: State, a: Action) {
    Disposing(s, a) && Live(s.threads) > 1
  }

  /** Exactly the disposing steps call dispose. */
  lemma StepDisposals(s: State, a: Action)
    requires Counted(s)
    ensures Step(s, a).disposals == s.disposals + if Disposing(s, a) then 1 else 0
  {
  }

  /** Only the last step of a Release lowers what is live. */
  lemma StepLive(s: State, a: Action)
    ensures var n, n' := Live(s.threads), Live(Step(s, a).threads);
            if a.Next? && a.t < |s.threads| && s.threads[a.t].pc == Releasing1 then n' == n - 1 else n' >= n
  {
    match a {
      case Next(t) =>
        if t < |s.threads| { AdvanceLive(s, t); }
      case AddRef(t, x) =>
        if t < |s.threads| { LivePut(s.threads, t, Step(s, a).threads[t]); }
      case Release(t, x) =>
        if t < |s.threads| { LivePut(s.threads, t, Step(s, a).threads[t]); }
      case Give(t, u, x) =>
        GiveLive(s, t, u, x);
    }
  }

  /** Once nothing is live, no action is enabled. */
  lemma DeadStays(s: State, a: Action)
    requires Counted(s) && Live(s.threads) == 0
    ensures Step(s, a) == s && !Disposing(s, a)
  {
    NothingLive(s);
  }

  /** A step of a run that went right so far goes right unless it disposes early. */
  lemma StepDisposes(s: State, a: Action)
    requires Counted(s) && DisposedOnce(s)
    ensures DisposedOnce(Step(s, a)) <==> !Early(s, a)
  {
    if Live(s.threads) == 0 {
      DeadStays(s, a);
    } else {
      StepDisposals(s, a);
      StepLive(s, a);
    }
  }

  lemma {:induction false} UnusedLive(ts: seq<Thread>)
    requires forall i :: 0 <= i < |ts| ==> ts[i] == IDLE
    ensures Live(ts) == 0
  {
    if ts != [] { UnusedLive(ts[..|ts| - 1]); }
  }

  /** How many of the first k steps of a run dispose of the buffer. */
  function DisposingSteps(others: nat, acts: seq<Action>, k: nat): nat
    requires k <= |acts|
  {
    if k == 0 then 0
    else DisposingSteps(others, acts, k - 1) + if Disposing(Run(others, acts)[k - 1], acts[k - 1]) then 1 else 0
  }

  /** In every run dispose is called once for each Release whose second step finds that the number of
      references and calls is one more than a multiple of 2^32. */
  lemma {:induction false} DisposalsAreSteps(others: nat, acts: seq<Action>, k: nat)
    requires k <= |acts|
    ensures Run(others, acts)[k].disposals == DisposingSteps(others, acts, k)
  {
    if k > 0 {
      RunSteps(others, acts, k - 1);
      RunCounted(others, acts, k - 1);
      DisposalsAreSteps(others, acts, k - 1);
      StepDisposals(Run(others, acts)[k - 1], acts[k - 1]);
    } else {
      RunStarts(others, acts);
    }
  }

  predicate RightUpTo(run: seq<State>, k: nat)
    requires k < |run|
  {
    forall i :: 0 <= i <= k ==> DisposedOnce(run[i])
  }

  predicate NeverEarly(run: seq<State>, acts: seq<Action>, k: nat)
    requires k <= |acts| <= |run|
  {
    forall j :: 0 <= j < k ==> !Early(run[j], acts[j])
  }

  /** At all times of a run dispose has been called exactly once if no reference is left and no call is
      in flight, and never otherwise, if and only if no step of the run disposes early. */
  lemma {:induction false} DisposedRightIffNeverEarly(others: nat, acts: seq<Action>, k: nat)
    requires k <= |acts|
    ensures RightUpTo(Run(others, acts), k) <==> NeverEarly(Run(others, acts), acts, k)
  {
    var run := Run(others, acts);
    if k > 0 {
      DisposedRightIffNeverEarly(others, acts, k - 1);
      RunSteps(others, acts, k - 1);
      RunCounted(others, acts, k - 1);
      OneMore(run, acts, k - 1);
    } else {
      StartCounted(others);
      RunStarts(others, acts);
    }
  }

  lemma OneMore(run: seq<State>, acts: seq<Action>, k: nat)
    requires k < |acts| < |run| && run[k + 1] == Step(run[k], acts[k]) && Counted(run[k])
    requires RightUpTo(run, k) <==> NeverEarly(run, acts, k)
    ensures RightUpTo(run, k + 1) <==> NeverEarly(run, acts, k + 1)
  {
    if RightUpTo(run, k) {
      StepDisposes(run[k], acts[k]);
    }
  }

  /** If no step disposed early, dispose has been called once if nothing is left, and not at all
      otherwise: never early, never twice, never forgotten. */
  lemma DisposedExactlyOnce(others: nat, acts: seq<Action>, k: nat)
    requires k <= |acts|
    requires NeverEarly(Run(others, acts), acts, k)
    ensures Run(others, acts)[k].disposals == if Unused(Run(others, acts)[k]) then 1 else 0
  {
    var s := Run(others, acts)[k];
    DisposedRightIffNeverEarly(others, acts, k);
    RunCounted(others, acts, k);
    NothingLive(s);
    assert DisposedOnce(s);
    if Unused(s) { UnusedLive(s.threads); }
  }

  /** So it is over every run that never has more than 2^32 references and calls at once. */
  lemma DisposedOnceIfFew(others: nat, acts: seq<Action>, k: nat)
    requires k <= |acts| && forall j :: 0 <= j < k ==> Live(Run(others, acts)[j].threads) <= TWO_32
    ensures Run(others, acts)[k].disposals == if Unused(Run(others, acts)[k]) then 1 else 0
  {
    var run := Run(others, acts);
    forall j | 0 <= j < k ensures !Early(run[j], acts[j]) {
      if Live(run[j].threads) % TWO_32 == 1 { OnlyOne(Live(run[j].threads)); }
    }
    DisposedExactlyOnce(others, acts, k);
  }

  lemma OnlyOne(n: nat)
    requires n <= TWO_32 && n % TWO_32 == 1
    ensures n == 1
  {
  }

  // ---------------------------------------------------------------------------------------
  // A run that disposes early

  function End(others: nat, acts: seq<Action>): State {
    Run(others, acts)[|acts|]
  }

  lemma EndStep(others: nat, acts: seq<Action>, a: Action)
    ensures End(others, acts + [a]) == Step(End(others, acts), a)
  {
    assert (acts + [a])[..|acts|] == acts;
  }

  /** The first thread adds n references. */
  function Adds(n: nat): seq<Action> {
    if n == 0 then [] else ((Adds(n - 1) + [AddRef(0, DsIface)]) + [Next(0)]) + [Next(0)]
  }

  lemma {:induction false} AddsAdd(others: nat, n: nat)
    ensures var s := End(others, Adds(n));
            && s.threads != [] && s.threads[0].pc == Idle && s.threads[0].refs[DsIface] == n + 1
            && Live(s.threads) == n + 1 && s.disposals == 0
  {
    if n == 0 {
      StartCounted(others);
    } else {
      AddsAdd(others, n - 1);
      EndStep(others, Adds(n - 1), AddRef(0, DsIface));
      EndStep(others, Adds(n - 1) + [AddRef(0, DsIface)], Next(0));
      EndStep(others, (Adds(n - 1) + [AddRef(0, DsIface)]) + [Next(0)], Next(0));
      AddSteps(End(others, Adds(n - 1)));
    }
  }

  lemma AddSteps(s: State)
    requires s.threads != [] && s.threads[0].pc == Idle && s.threads[0].refs[DsIface] > 0
    ensures var s' := Step(Step(Step(s, AddRef(0, DsIface)), Next(0)), Next(0));
            && s'.threads != [] && s'.threads[0].pc == Idle && s'.disposals == s.disposals
            && s'.threads[0].refs[DsIface] == s.threads[0].refs[DsIface] + 1 && Live(s'.threads) == Live(s.threads) + 1
  {
    var s1 := Step(s, AddRef(0, DsIface));
    LivePut(s.threads, 0, s1.threads[0]);
    AdvanceLive(s1, 0);
    AdvanceLive(Advance(s1, 0), 0);
  }

  /** 2^32 references are added and one is released: the buffer is disposed of with 2^32 references
      left. */
  lemma EarlyRun(others: nat)
    ensures var s := End(others, Adds(TWO_32) + [Release(0, DsIface)] + [Next(0)] + [Next(0)]);
            s.disposals == 1 && Live(s.threads) == TWO_32
  {
    AddsAdd(others, TWO_32);
    ReleaseOne(others, Adds(TWO_32), TWO_32);
  }

  /** A Release when there are n more references than one, for n a multiple of 2^32. */
  lemma ReleaseOne(others: nat, acts: seq<Action>, n: nat)
    requires var s := End(others, acts);
             && s.threads != [] && s.threads[0].pc == Idle && s.threads[0].refs[DsIface] > 0
             && Live(s.threads) == n + 1 && n % TWO_32 == 0
    ensures var s, s' := End(others, acts), End(others, acts + [Release(0, DsIface)] + [Next(0)] + [Next(0)]);
            s'.disposals == s.disposals + 1 && Live(s'.threads) == n
  {
    EndStep(others, acts, Release(0, DsIface));
    EndStep(others, acts + [Release(0, DsIface)], Next(0));
    EndStep(others, acts + [Release(0, DsIface)] + [Next(0)], Next(0));
    RunCounted(others, acts, |acts|);
    ReleaseSteps(End(others, acts), n);
  }

  lemma ReleaseSteps(s: State, n: nat)
    requires Counted(s) && s.threads != [] && s.threads[0].pc == Idle && s.threads[0].refs[DsIface] > 0
    requires Live(s.threads) == n + 1 && n % TWO_32 == 0
    ensures var s' := Step(Step(Step(s, Release(0, DsIface)), Next(0)), Next(0));
            s'.disposals == s.disposals + 1 && Live(s'.threads) == n
  {
    var s1 := Step(s, Release(0, DsIface));
    var s2 := Step(s1, Next(0));
    StepCounted(s, Release(0, DsIface));
    StepCounted(s1, Next(0));
    FirstStep(s);
    AdvanceLive(s1, 0);
    AdvanceLive(s2, 0);
    OneOver(n);
    StepDisposals(s2, Next(0));
  }

  lemma FirstStep(s: State)
    requires s.threads != [] && s.threads[0].pc == Idle && s.threads[0].refs[DsIface] > 0
    ensures var s2 := Step(Step(s, Release(0, DsIface)), Next(0));
            s2.disposals == s.disposals && s2.threads[0].pc == Releasing1
    ensures Live(Step(s, Release(0, DsIface)).threads) == Live(s.threads)
  {
    LivePut(s.threads, 0, Step(s, Release(0, DsIface)).threads[0]);
  }

  lemma OneOver(n: nat)
    requires n % TWO_32 == 0
    ensures (n + 1) % TWO_32 == 1
  {}
}
