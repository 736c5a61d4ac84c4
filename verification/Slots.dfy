/** The slot allocator for secondary buffers (src/dsoundoal.cpp:356-429, 766-784, 939-954;
    src/buffer.h:318-334).  Buffers live in groups of 64 places.  A group's 64-bit mask has a
    bit set for every FREE place; it is modelled as the list of its 64 bits, lowest first, so
    that `mask &= ~(1 << i)` and `mask |= 1 << i` are updates of bit i.

    Addresses are counted in places and lie below 2^64; the difference of two pointers, read as
    unsigned, is their difference modulo 2^64. */
module Slots {

  type Mask = m: seq<bool> | |m| == 64 witness seq(64, i => true)

  /** A group of 64 places. */
  datatype Group = Group(freeMask: Mask, base: nat)

  /** The global index of bit b in group g: places are ordered by it. */
  function Index(g: nat, b: nat): nat {
    64 * g + b
  }

  const ALL_FREE: Mask := seq(64, i => true)

  predicate AnyBit(m: Mask) {
    exists k :: 0 <= k < 64 && m[k]
  }

  function Complement(m: Mask): (c: Mask)
    ensures forall k :: 0 <= k < 64 ==> c[k] == !m[k]
  {
    seq(64, k requires 0 <= k < 64 => !m[k])
  }

  function LowestFrom(m: Mask, from: nat): (i: nat)
    requires exists k :: from <= k < 64 && m[k]
    ensures from <= i < 64 && m[i]
    ensures forall k :: from <= k < i ==> !m[k]
    decreases 64 - from
  {
    if m[from] then from else LowestFrom(m, from + 1)
  }

  /** std::countr_zero of a non-zero mask: the number of its lowest set bit. */
  function CountrZero(m: Mask): (i: nat)
    requires AnyBit(m)
    ensures i < 64 && m[i]
    ensures forall k :: 0 <= k < i ==> !m[k]
  {
    LowestFrom(m, 0)
  }

  // ---------------------------------------------------------------------------------------
  // What a list of groups says

  /** The place with global index k is in use. */
  predicate Live(gs: seq<Group>, k: nat) {
    k / 64 < |gs| && !gs[k / 64].freeMask[k % 64]
  }

  const TWO_64: int := 0x1_0000_0000_0000_0000

  /** The address of the place with global index k. */
  function Address(gs: seq<Group>, k: nat): nat
    requires k / 64 < |gs|
  {
    gs[k / 64].base + k % 64
  }

  /** as_unsigned(buffer - group.mBuffers->data()) */
  function Offset(address: nat, base: nat): nat {
    (address - base) % TWO_64
  }

  /** The allocator returns 64 places inside the address space. */
  predicate InSpace(base: nat) {
    base + 64 <= TWO_64
  }

  predicate Apart(a: nat, b: nat) {
    a + 64 <= b || b + 64 <= a
  }

  /** The allocator never hands out overlapping groups. */
  ghost predicate Disjoint(gs: seq<Group>) {
    && (forall g :: 0 <= g < |gs| ==> InSpace(gs[g].base))
    && (forall g, h {:trigger Apart(gs[g].base, gs[h].base)} :: 0 <= g < h < |gs| ==>
          Apart(gs[g].base, gs[h].base))
  }

  /** The places in use that come before global index n, in order. */
  function LiveBelow(gs: seq<Group>, n: nat): seq<nat>
  {
    if n == 0 then []
    else LiveBelow(gs, n - 1) + if Live(gs, n - 1) then [n - 1] else []
  }

  /** All places in use, in ascending order. */
  function AllLive(gs: seq<Group>): seq<nat> {
    LiveBelow(gs, 64 * |gs|)
  }

  /** A list in strictly ascending order that holds exactly the places in use below n. */
  ghost predicate Enumerates(ks: seq<nat>, gs: seq<Group>, n: nat) {
    && (forall i :: 0 <= i < |ks| ==> ks[i] < n && Live(gs, ks[i]))
    && (forall i, j :: 0 <= i < j < |ks| ==> ks[i] < ks[j])
    && (forall k: nat :: k < n && Live(gs, k) ==> k in ks)
  }

  lemma {:induction false} LiveBelowEnumerates(gs: seq<Group>, n: nat)
    ensures Enumerates(LiveBelow(gs, n), gs, n)
  {
    if n > 0 {
      LiveBelowEnumerates(gs, n - 1);
      var ks, all := LiveBelow(gs, n - 1), LiveBelow(gs, n);
      forall k: nat | k < n && Live(gs, k) ensures k in all {
        if k < n - 1 {
          assert k in ks;
        } else {
          assert all[|ks|] == k;
        }
      }
    }
  }

  /** Each scan visits every place in use exactly once, in ascending order. */
  lemma AllLiveEnumerates(gs: seq<Group>)
    ensures Enumerates(AllLive(gs), gs, 64 * |gs|)
    ensures forall k: nat :: Live(gs, k) <==> k in AllLive(gs)
  {
    LiveBelowEnumerates(gs, 64 * |gs|);
  }

  /** Groups stay where they are, and so does everything in them. */
  ghost predicate Kept(gs: seq<Group>, hs: seq<Group>) {
    && |gs| <= |hs|
    && (forall g :: 0 <= g < |gs| ==> hs[g].base == gs[g].base)
    && (forall k: nat :: k / 64 < |gs| ==> Address(hs, k) == Address(gs, k))
  }

  /** Exactly one group answers to the address of a place: the group the place is in. */
  lemma UniqueOwner(gs: seq<Group>, k: nat, g: nat)
    requires Disjoint(gs) && k / 64 < |gs| && g < |gs|
    ensures Offset(Address(gs, k), gs[g].base) < 64 <==> g == k / 64
    ensures Offset(Address(gs, k), gs[k / 64].base) == k % 64
  {
    var a, h := Address(gs, k), k / 64;
    assert InSpace(gs[g].base) && InSpace(gs[h].base);
    if g < h {
      assert Apart(gs[g].base, gs[h].base);
    } else if h < g {
      assert Apart(gs[h].base, gs[g].base);
    }
  }

  lemma MapUndo<V>(m: map<nat, V>, k: nat, v: V)
    requires k !in m
    ensures m[k := v] - {k} == m
  {}

  /** Marking one place of one group, used or free, changes the state of that place only. */
  lemma MarkOne(gs: seq<Group>, g: nat, b: nat, free: bool)
    requires g < |gs| && b < 64
    ensures var hs := gs[g := gs[g].(freeMask := gs[g].freeMask[b := free])];
            && Kept(gs, hs) && (Disjoint(gs) ==> Disjoint(hs))
            && (forall k: nat :: Live(hs, k) <==> if k == Index(g, b) then !free else Live(gs, k))
  {
    assert Index(g, b) / 64 == g && Index(g, b) % 64 == b;
  }

  /** A new, wholly free group adds no place in use. */
  lemma FreeGroupAdded(gs: seq<Group>, base: nat)
    ensures var hs := gs + [Group(ALL_FREE, base)];
            Kept(gs, hs) && forall k: nat :: Live(hs, k) <==> Live(gs, k)
  {}

  /** The search for a group with a free place, src/dsoundoal.cpp:398-406. */
  method FirstOpen(gs: seq<Group>) returns (g: nat)
    ensures g <= |gs| && (g < |gs| ==> AnyBit(gs[g].freeMask))
    ensures forall i: nat :: i < 64 * g ==> Live(gs, i)
  {
    g := 0;
    while g < |gs| && !AnyBit(gs[g].freeMask)
      invariant 0 <= g <= |gs|
      invariant forall i: nat :: i < 64 * g ==> Live(gs, i)
    {
      g := g + 1;
    }
  }

  // ---------------------------------------------------------------------------------------
  // The secondary-buffer groups of one DSound8OAL

  class SlotTable {
    var groups: seq<Group>
    /** The places in use, by global index, with their addresses. */
    ghost var at: map<nat, nat>

    ghost predicate Valid()
      reads this
    {
      && Disjoint(groups)
      && forall k: nat {:trigger Live(groups, k)} ::
           (k in at <==> Live(groups, k)) && (k in at ==> at[k] == Address(groups, k))
    }

    constructor ()
      ensures Valid() && groups == [] && at == map[]
    {
      groups, at := [], map[];
    }

    /** What the allocator promises about a new group. */
    ghost predicate CanAllocate(base: nat)
      reads this`groups
    {
      InSpace(base) && forall g :: 0 <= g < |groups| ==> Apart(groups[g].base, base)
    }

    /** Whether an allocator could return this address. */
    method Fits(base: nat) returns (ok: bool)
      ensures ok == CanAllocate(base)
    {
      ok := InSpace(base);
      for g := 0 to |groups|
        invariant ok == (InSpace(base) && forall h :: 0 <= h < g ==> Apart(groups[h].base, base))
      {
        ok := ok && Apart(groups[g].base, base);
      }
    }

    /** src/dsoundoal.cpp:398-416: the first group with a free place, a new one if there is none. */
    method OpenGroup(freshBase: nat) returns (g: nat)
      requires Valid() && CanAllocate(freshBase)
      modifies this`groups
      ensures Valid() && g < |groups| && AnyBit(groups[g].freeMask) && Kept(old(groups), groups)
      ensures |groups| == |old(groups)| + if g == |old(groups)| then 1 else 0
      ensures forall i: nat :: i < 64 * g ==> Live(groups, i)
      ensures g == |old(groups)| ==> groups[g].freeMask == ALL_FREE
    {
      g := FirstOpen(groups);
      if g == |groups| {
        FreeGroupAdded(groups, freshBase);
        groups := groups + [Group(ALL_FREE, freshBase)];
        assert groups[g].freeMask[0];
      }
    }

    /** DSound8OAL::createSecondaryBuffer, src/dsoundoal.cpp:397-429: the least place that is not
        in use.  `freshBase` is the address the allocator would return for one more group, which
        is taken only if all places of the others are in use. */
    method Claim(freshBase: nat) returns (k: nat, address: nat)
      requires Valid() && CanAllocate(freshBase)
      modifies this
      ensures Valid()
      ensures k !in old(at) && (forall i: nat :: i < k ==> i in old(at)) && at == old(at)[k := address]
      ensures |groups| == |old(groups)| + if k == 64 * |old(groups)| then 1 else 0
      ensures k / 64 < |groups| && address == groups[k / 64].base + k % 64
      ensures Kept(old(groups), groups)
    {
      var g := OpenGroup(freshBase);
      var idx := CountrZero(groups[g].freeMask);
      assert !Live(groups, Index(g, idx)) && forall i: nat :: i < Index(g, idx) ==> Live(groups, i);
      forall i: nat | i < Index(g, idx) ensures i in at {
        assert Live(groups, i);
      }
      MarkOne(groups, g, idx, false);
      groups := groups[g := groups[g].(freeMask := groups[g].freeMask[idx := false])];
      k, address := Index(g, idx), groups[g].base + idx;
      at := at[k := address];
      assert Address(groups, k) == address;
    }

    /** DSound8OAL::dispose, src/dsoundoal.cpp:939-954: find the group the address belongs to
        and mark the place free. */
    method Dispose(address: nat, ghost k: nat) returns (freed: nat)
      requires Valid() && k in at && at[k] == address
      modifies this
      ensures Valid() && freed == k && at == old(at) - {k}
      ensures |groups| == |old(groups)| && Kept(old(groups), groups)
    {
      assert Live(groups, k);
      UniqueOwner(groups, k, k / 64);
      freed := 0;
      var g := 0;
      while g < |groups|
        invariant 0 <= g <= k / 64
        invariant groups == old(groups) && at == old(at)
      {
        UniqueOwner(groups, k, g);
        var idx := Offset(address, groups[g].base);
        if idx < 64 {
          MarkOne(groups, g, idx, true);
          groups := groups[g := groups[g].(freeMask := groups[g].freeMask[idx := true])];
          at := at - {k};
          return Index(g, idx);
        }
        g := g + 1;
      }
    }
  }

  /** The clear bits of a free mask below n, lowest first. */
  function UsedBits(m: Mask, n: nat): seq<nat>
    requires n <= 64
  {
    if n == 0 then [] else UsedBits(m, n - 1) + if m[n - 1] then [] else [n - 1]
  }

  lemma {:induction false} NoUsedBits(m: Mask, b: nat, c: nat)
    requires b <= c <= 64
    requires forall k :: b <= k < c ==> m[k]
    ensures UsedBits(m, c) == UsedBits(m, b)
  {
    if b < c {
      NoUsedBits(m, b, c - 1);
    }
  }

  /** One group of the scan: visit the places in use, lowest bit first, clearing each bit of
      the working mask as it is visited. */
  method ScanMask(freeMask: Mask) returns (visited: seq<nat>)
    ensures visited == UsedBits(freeMask, 64)
  {
    visited := [];
    var useMask := Complement(freeMask);
    ghost var next := 0;
    while AnyBit(useMask)
      invariant 0 <= next <= 64
      invariant forall k :: 0 <= k < next ==> !useMask[k]
      invariant forall k :: next <= k < 64 ==> useMask[k] == !freeMask[k]
      invariant visited == UsedBits(freeMask, next)
      decreases 64 - next
    {
      var idx := CountrZero(useMask);
      NoUsedBits(freeMask, next, idx);
      useMask := useMask[idx := false];
      visited := visited + [idx];
      next := idx + 1;
    }
    NoUsedBits(freeMask, next, 64);
  }

  /** The global indices of bits of group g. */
  function InGroup(g: nat, bits: seq<nat>): seq<nat> {
    seq(|bits|, i requires 0 <= i < |bits| => Index(g, bits[i]))
  }

  lemma {:induction false} UsedBitsAreLive(gs: seq<Group>, g: nat, n: nat)
    requires g < |gs| && n <= 64
    ensures LiveBelow(gs, 64 * g + n) == LiveBelow(gs, 64 * g) + InGroup(g, UsedBits(gs[g].freeMask, n))
  {
    if n > 0 {
      UsedBitsAreLive(gs, g, n - 1);
      var k := 64 * g + n - 1;
      assert k / 64 == g && k % 64 == n - 1;
      var before := UsedBits(gs[g].freeMask, n - 1);
      assert InGroup(g, before + [n - 1]) == InGroup(g, before) + [k];
    }
  }

  /** The scan that src/dsoundoal.cpp:361-367 and 768-784 and src/primarybuffer.cpp:261-278 make
      over every buffer in use. */
  method Scan(gs: seq<Group>) returns (visited: seq<nat>)
    ensures visited == AllLive(gs)
  {
    visited := [];
    for g := 0 to |gs|
      invariant visited == LiveBelow(gs, 64 * g)
    {
      var bits := ScanMask(gs[g].freeMask);
      UsedBitsAreLive(gs, g, 64);
      visited := visited + InGroup(g, bits);
    }
  }
}
