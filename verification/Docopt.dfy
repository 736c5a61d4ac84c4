/** docopt's worklist that flattens a pattern tree into one list of alternatives
    (fmt-11.2.0/support/docopt.py:72-96). */
module Docopt {

  datatype Kind = Required | Optional | OptionsShortcut | OneOrMore | Either

  /** A leaf is what repr() makes of it, and so is the equality of patterns. */
  datatype Pattern = Leaf(repr: string) | Branch(kind: Kind, children: seq<Pattern>)

  /** The leaves of one alternative. */
  type Bag = multiset<string>

  // ---------------------------------------------------------------------------------------
  // What the expansion means

  /** m joined to every alternative. */
  function Shift(m: Bag, b: seq<Bag>): (r: seq<Bag>) {
    seq(|b|, i requires 0 <= i < |b| => m + b[i])
  }

  /** Every alternative of one list joined to every alternative of another. */
  function Times(a: seq<Bag>, b: seq<Bag>): seq<Bag> {
    if a == [] then [] else Shift(a[0], b) + Times(a[1..], b)
  }

  /** The alternatives of a pattern: those of all children for an Either, one of each child joined
      for the rest, and twice that for a OneOrMore. */
  function Expand(p: Pattern): seq<Bag> {
    match p
    case Leaf(repr) => [multiset{repr}]
    case Branch(Either, children) => Union(children)
    case Branch(OneOrMore, children) => Times(Product(children), Product(children))
    case Branch(_, children) => Product(children)
  }

  function Union(ps: seq<Pattern>): seq<Bag> {
    if ps == [] then [] else Expand(ps[0]) + Union(ps[1..])
  }

  function Product(ps: seq<Pattern>): seq<Bag> {
    if ps == [] then [multiset{}] else Times(Expand(ps[0]), Product(ps[1..]))
  }

  lemma UnionTwo(p: Pattern, q: Pattern)
    ensures Union([p, q]) == Expand(p) + Expand(q)
  {
    assert [p, q][1..] == [q] && [q][1..] == [];
    assert Union([q]) == Expand(q) + Union([]) == Expand(q);
  }

  lemma ProductOne(p: Pattern)
    ensures Product([p]) == Expand(p)
  {
    assert [p][1..] == [];
    TimesUnit(Expand(p));
  }

  lemma ProductTwo(p: Pattern, q: Pattern)
    ensures Product([p, q]) == Times(Expand(p), Expand(q))
  {
    assert [p, q][1..] == [q];
    ProductOne(q);
  }

  lemma TimesTwo(a: Bag, b: Bag, c: seq<Bag>)
    ensures Times([a, b], c) == Shift(a, c) + Shift(b, c)
  {
    assert [a, b][1..] == [b];
    TimesOne(b, c);
  }

  /** The example the program gives, docopt.py:75: two choices between two make four alternatives. */
  lemma OwnExample()
    ensures var p, q := Branch(Either, [Leaf("-a"), Leaf("-b")]), Branch(Either, [Leaf("-c"), Leaf("-d")]);
            Expand(Branch(Required, [p, q]))
            == [multiset{"-a", "-c"}, multiset{"-a", "-d"}, multiset{"-b", "-c"}, multiset{"-b", "-d"}]
  {
    var p, q := Branch(Either, [Leaf("-a"), Leaf("-b")]), Branch(Either, [Leaf("-c"), Leaf("-d")]);
    UnionTwo(Leaf("-a"), Leaf("-b"));
    UnionTwo(Leaf("-c"), Leaf("-d"));
    assert Expand(p) == [multiset{"-a"}, multiset{"-b"}] && Expand(q) == [multiset{"-c"}, multiset{"-d"}];
    ProductTwo(p, q);
    assert Expand(Branch(Required, [p, q])) == Product([p, q]);
    TimesTwo(multiset{"-a"}, multiset{"-b"}, [multiset{"-c"}, multiset{"-d"}]);
    ShiftTwo("-a", "-c", "-d");
    ShiftTwo("-b", "-c", "-d");
  }

  lemma ShiftTwo(a: string, c: string, d: string)
    ensures Shift(multiset{a}, [multiset{c}, multiset{d}]) == [multiset{a, c}, multiset{a, d}]
  {
    assert multiset{a} + multiset{c} == multiset{a, c} && multiset{a} + multiset{d} == multiset{a, d};
  }

  /** And its quirks, docopt.py:76: what is optional is taken, and one or more is two. */
  lemma OwnQuirks(a: string)
    ensures Expand(Branch(Optional, [Leaf(a)])) == [multiset{a}]
    ensures Expand(Branch(OneOrMore, [Leaf(a)])) == [multiset{a, a}]
  {
    ProductOne(Leaf(a));
    TimesOne(multiset{a}, [multiset{a}]);
    assert multiset{a} + multiset{a} == multiset{a, a};
  }

  // ---------------------------------------------------------------------------------------
  // Products

  lemma ShiftNothing(b: seq<Bag>)
    ensures Shift(multiset{}, b) == b
  {
    assert forall i :: 0 <= i < |b| ==> Shift(multiset{}, b)[i] == b[i];
  }

  lemma ShiftTwice(m: Bag, n: Bag, b: seq<Bag>)
    ensures Shift(m, Shift(n, b)) == Shift(m + n, b) == Shift(n, Shift(m, b))
  {
    forall i | 0 <= i < |b|
      ensures Shift(m, Shift(n, b))[i] == Shift(m + n, b)[i] == Shift(n, Shift(m, b))[i]
    {
      assert m + (n + b[i]) == (m + n) + b[i] == n + (m + b[i]);
    }
  }

  lemma ShiftAppend(m: Bag, a: seq<Bag>, b: seq<Bag>)
    ensures Shift(m, a + b) == Shift(m, a) + Shift(m, b)
  {
  }

  lemma {:induction false} TimesAppend(a: seq<Bag>, a': seq<Bag>, b: seq<Bag>)
    ensures Times(a + a', b) == Times(a, b) + Times(a', b)
  {
    if a == [] {
      assert a + a' == a';
    } else {
      TimesAppend(a[1..], a', b);
      assert (a + a')[0] == a[0] && (a + a')[1..] == a[1..] + a';
      assert Times(a + a', b) == Shift(a[0], b) + (Times(a[1..], b) + Times(a', b));
    }
  }

  lemma {:induction false} TimesShift(m: Bag, a: seq<Bag>, b: seq<Bag>)
    ensures Times(Shift(m, a), b) == Shift(m, Times(a, b)) == Times(a, Shift(m, b))
  {
    if a != [] {
      TimesShift(m, a[1..], b);
      assert Shift(m, a)[1..] == Shift(m, a[1..]);
      ShiftTwice(m, a[0], b);
      ShiftAppend(m, Shift(a[0], b), Times(a[1..], b));
    }
  }

  lemma {:induction false} TimesAssociates(a: seq<Bag>, b: seq<Bag>, c: seq<Bag>)
    ensures Times(Times(a, b), c) == Times(a, Times(b, c))
  {
    if a != [] {
      TimesAssociates(a[1..], b, c);
      TimesAppend(Shift(a[0], b), Times(a[1..], b), c);
      TimesShift(a[0], b, c);
    }
  }

  lemma TimesOne(m: Bag, b: seq<Bag>)
    ensures Times([m], b) == Shift(m, b)
  {
    assert [m][1..] == [];
    assert Times([], b) == [];
  }

  lemma {:induction false} ProductAppend(ps: seq<Pattern>, qs: seq<Pattern>)
    ensures Product(ps + qs) == Times(Product(ps), Product(qs))
  {
    if ps == [] {
      assert ps + qs == qs;
      TimesOne(multiset{}, Product(qs));
      ShiftNothing(Product(qs));
    } else {
      assert (ps + qs)[1..] == ps[1..] + qs;
      ProductAppend(ps[1..], qs);
      TimesAssociates(Expand(ps[0]), Product(ps[1..]), Product(qs));
    }
  }

  /** What joins to a union joins to each part. */
  lemma {:induction false} UnionTimes(cs: seq<Pattern>, rest: seq<Pattern>)
    ensures Times(Union(cs), Product(rest)) == AllAlternatives(seq(|cs|, i requires 0 <= i < |cs| => [cs[i]] + rest))
  {
    var groups := seq(|cs|, i requires 0 <= i < |cs| => [cs[i]] + rest);
    if cs != [] {
      UnionTimes(cs[1..], rest);
      TimesAppend(Expand(cs[0]), Union(cs[1..]), Product(rest));
      assert groups[1..] == seq(|cs| - 1, i requires 0 <= i < |cs| - 1 => [cs[1..][i]] + rest);
      assert ([cs[0]] + rest)[1..] == rest;
    }
  }

  // ---------------------------------------------------------------------------------------
  // Groups of the worklist

  /** The alternatives that all groups stand for. */
  function AllAlternatives(groups: seq<seq<Pattern>>): seq<Bag> {
    if groups == [] then [] else Product(groups[0]) + AllAlternatives(groups[1..])
  }

  lemma {:induction false} AlternativesAppend(gs: seq<seq<Pattern>>, hs: seq<seq<Pattern>>)
    ensures AllAlternatives(gs + hs) == AllAlternatives(gs) + AllAlternatives(hs)
  {
    if gs == [] {
      assert gs + hs == hs;
    } else {
      assert (gs + hs)[1..] == gs[1..] + hs;
      AlternativesAppend(gs[1..], hs);
    }
  }

  predicate Leaves(ps: seq<Pattern>) { forall i :: 0 <= i < |ps| ==> ps[i].Leaf? }

  /** The leaves of a group that has nothing left to expand. */
  function LeafBag(ps: seq<Pattern>): Bag
    requires Leaves(ps)
  {
    if ps == [] then multiset{} else multiset{ps[0].repr} + LeafBag(ps[1..])
  }

  lemma {:induction false} LeavesAreOneAlternative(ps: seq<Pattern>)
    requires Leaves(ps)
    ensures Product(ps) == [LeafBag(ps)]
  {
    if ps != [] {
      LeavesAreOneAlternative(ps[1..]);
      TimesOne(multiset{ps[0].repr}, Product(ps[1..]));
    }
  }

  /** A pattern behind leaves can be expanded first. */
  lemma PickFirst(front: seq<Pattern>, p: Pattern, back: seq<Pattern>)
    requires Leaves(front)
    ensures Product(front + [p] + back) == Times(Expand(p), Product(front + back))
  {
    var m := LeafBag(front);
    LeavesAreOneAlternative(front);
    assert front + [p] + back == front + ([p] + back);
    ProductAppend(front, [p] + back);
    ProductAppend(front, back);
    assert ([p] + back)[1..] == back;
    TimesOne(m, Product([p] + back));
    TimesOne(m, Product(back));
    TimesShift(m, Expand(p), Product(back));
  }

  /** What a group is replaced by when its first branch is expanded. */
  function Successors(p: Pattern, rest: seq<Pattern>): seq<seq<Pattern>>
    requires p.Branch?
  {
    match p.kind
    case Either => seq(|p.children|, i requires 0 <= i < |p.children| => [p.children[i]] + rest)
    case OneOrMore => [p.children + p.children + rest]
    case _ => [p.children + rest]
  }

  lemma OneGroup(g: seq<Pattern>)
    ensures AllAlternatives([g]) == Product(g)
  {
    assert [g][1..] == [];
  }

  /** The replacement keeps the alternatives. */
  lemma SuccessorsKeep(p: Pattern, rest: seq<Pattern>)
    requires p.Branch?
    ensures AllAlternatives(Successors(p, rest)) == Times(Expand(p), Product(rest))
  {
    var cs := p.children;
    match p.kind {
      case Either =>
        UnionTimes(cs, rest);
      case OneOrMore =>
        OneGroup(cs + cs + rest);
        ProductAppend(cs + cs, rest);
        ProductAppend(cs, cs);
      case _ =>
        OneGroup(cs + rest);
        ProductAppend(cs, rest);
    }
  }

  // ---------------------------------------------------------------------------------------
  // Termination: how many groups a group will ever become

  function Cost(p: Pattern): (n: nat)
    ensures n >= 1
  {
    match p
    case Leaf(_) => 1
    case Branch(Either, children) => 1 + SumCost(children)
    case Branch(OneOrMore, children) => 1 + GroupCost(children) * GroupCost(children)
    case Branch(_, children) => 1 + GroupCost(children)
  }

  function SumCost(ps: seq<Pattern>): nat {
    if ps == [] then 0 else Cost(ps[0]) + SumCost(ps[1..])
  }

  function GroupCost(ps: seq<Pattern>): (n: nat)
    ensures n >= 1
  {
    if ps == [] then 1 else MulPositive(Cost(ps[0]), GroupCost(ps[1..])); Cost(ps[0]) * GroupCost(ps[1..])
  }

  lemma MulAssociates(a: nat, b: nat, c: nat)
    ensures a * (b * c) == a * b * c && a * (b * c) == b * (a * c)
  {
  }

  lemma MulPositive(m: nat, n: nat)
    requires m >= 1 && n >= 1
    ensures m * n >= 1
  {
  }

  function Work(groups: seq<seq<Pattern>>): nat {
    if groups == [] then 0 else GroupCost(groups[0]) + Work(groups[1..])
  }

  lemma {:induction false} WorkAppend(gs: seq<seq<Pattern>>, hs: seq<seq<Pattern>>)
    ensures Work(gs + hs) == Work(gs) + Work(hs)
  {
    if gs == [] {
      assert gs + hs == hs;
    } else {
      assert (gs + hs)[1..] == gs[1..] + hs;
      WorkAppend(gs[1..], hs);
    }
  }

  lemma {:induction false} CostAppend(ps: seq<Pattern>, qs: seq<Pattern>)
    ensures GroupCost(ps + qs) == GroupCost(ps) * GroupCost(qs)
  {
    if ps == [] {
      assert ps + qs == qs;
    } else {
      assert (ps + qs)[1..] == ps[1..] + qs;
      CostAppend(ps[1..], qs);
      MulAssociates(Cost(ps[0]), GroupCost(ps[1..]), GroupCost(qs));
    }
  }

  lemma {:induction false} UnionCost(cs: seq<Pattern>, rest: seq<Pattern>)
    ensures Work(seq(|cs|, i requires 0 <= i < |cs| => [cs[i]] + rest)) == SumCost(cs) * GroupCost(rest)
  {
    var groups := seq(|cs|, i requires 0 <= i < |cs| => [cs[i]] + rest);
    if cs != [] {
      UnionCost(cs[1..], rest);
      assert groups[1..] == seq(|cs| - 1, i requires 0 <= i < |cs| - 1 => [cs[1..][i]] + rest);
      FirstCost(cs[0], rest);
      MulDistributes(Cost(cs[0]), SumCost(cs[1..]), GroupCost(rest));
    }
  }

  lemma FirstCost(p: Pattern, rest: seq<Pattern>)
    ensures GroupCost([p] + rest) == Cost(p) * GroupCost(rest)
  {
    assert ([p] + rest)[1..] == rest;
  }

  lemma MulDistributes(a: nat, b: nat, c: nat)
    ensures (a + b) * c == a * c + b * c
  {
  }

  lemma WorkOne(g: seq<Pattern>)
    ensures Work([g]) == GroupCost(g)
  {
    assert [g][1..] == [];
  }

  lemma OneMore(c: nat, x: nat, r: nat)
    requires c == 1 + x
    ensures (c - 1) * r == x * r
  {
  }

  lemma SuccessorsCost(p: Pattern, rest: seq<Pattern>)
    requires p.Branch?
    ensures Work(Successors(p, rest)) == (Cost(p) - 1) * GroupCost(rest)
  {
    var cs := p.children;
    match p.kind {
      case Either =>
        UnionCost(cs, rest);
        OneMore(Cost(p), SumCost(cs), GroupCost(rest));
      case OneOrMore =>
        WorkOne(cs + cs + rest);
        CostAppend(cs + cs, rest);
        CostAppend(cs, cs);
        OneMore(Cost(p), GroupCost(cs) * GroupCost(cs), GroupCost(rest));
      case _ =>
        WorkOne(cs + rest);
        CostAppend(cs, rest);
        OneMore(Cost(p), GroupCost(cs), GroupCost(rest));
    }
  }

  lemma PickedCost(front: seq<Pattern>, p: Pattern, back: seq<Pattern>)
    ensures GroupCost(front + [p] + back) == Cost(p) * GroupCost(front + back)
  {
    CostAppend(front, [p] + back);
    CostAppend(front, back);
    assert front + [p] + back == front + ([p] + back) && ([p] + back)[1..] == back;
    MulAssociates(GroupCost(front), Cost(p), GroupCost(back));
  }

  lemma OneLess(c: nat, r: nat)
    requires c >= 1 && r >= 1
    ensures (c - 1) * r < c * r
  {
    assert (c - 1) * r == c * r - r;
  }

  /** Expanding a branch leaves strictly less work, for all the doubling and the fan-out. */
  lemma SuccessorsCostLess(front: seq<Pattern>, p: Pattern, back: seq<Pattern>)
    requires p.Branch?
    ensures Work(Successors(p, front + back)) < GroupCost(front + [p] + back)
  {
    SuccessorsCost(p, front + back);
    PickedCost(front, p, back);
    OneLess(Cost(p), GroupCost(front + back));
  }

  // ---------------------------------------------------------------------------------------
  // The program

  /** list.remove: the first element that is equal goes. */
  method Remove(ps: seq<Pattern>, p: Pattern) returns (r: seq<Pattern>, at: nat)
    requires p in ps
    ensures at < |ps| && ps[at] == p && p !in ps[..at] && r == ps[..at] + ps[at + 1..]
  {
    var i := 0;
    while ps[i] != p
      invariant i < |ps| && p !in ps[..i]
      decreases |ps| - i
    {
      i := i + 1;
    }
    return ps[..i] + ps[i + 1..], i;
  }

  /** The first child that is a branch, if there is one. */
  method FirstBranch(ps: seq<Pattern>) returns (found: bool, at: nat)
    ensures found ==> at < |ps| && ps[at].Branch? && Leaves(ps[..at])
    ensures !found ==> Leaves(ps)
  {
    for i := 0 to |ps|
      invariant Leaves(ps[..i])
    {
      if ps[i].Branch? { return true, i; }
    }
    assert ps[..|ps|] == ps;
    return false, 0;
  }

  predicate AllLeaves(groups: seq<seq<Pattern>>) { forall i :: 0 <= i < |groups| ==> Leaves(groups[i]) }

  /** The leaves of each group of the result. */
  function Bags(groups: seq<seq<Pattern>>): seq<Bag>
    requires AllLeaves(groups)
  {
    seq(|groups|, i requires 0 <= i < |groups| => LeafBag(groups[i]))
  }

  /** One turn of the loop for a group with something to expand. */
  method ExpandOne(children: seq<Pattern>, at: nat) returns (next: seq<seq<Pattern>>)
    requires at < |children| && children[at].Branch? && Leaves(children[..at])
    ensures AllAlternatives(next) == Product(children) && Work(next) < GroupCost(children)
  {
    var child := children[at];
    var rest, removed := Remove(children, child);
    assert removed == at;
    ghost var front, back := children[..at], children[at + 1..];
    assert children == front + [child] + back;
    PickFirst(front, child, back);
    SuccessorsKeep(child, rest);
    SuccessorsCostLess(front, child, back);
    next := Replace(child, rest);
  }

  /** docopt.py:88-93 */
  method Replace(child: Pattern, rest: seq<Pattern>) returns (next: seq<seq<Pattern>>)
    requires child.Branch?
    ensures next == Successors(child, rest)
  {
    next := [];
    if child.kind == Either {
      for i := 0 to |child.children|
        invariant next == Successors(child, rest)[..i]
      {
        next := next + [[child.children[i]] + rest];
      }
    } else if child.kind == OneOrMore {
      next := [child.children + child.children + rest];
    } else {
      next := [child.children + rest];
    }
  }

  lemma {:induction false} TimesUnit(a: seq<Bag>)
    ensures Times(a, [multiset{}]) == a
  {
    if a != [] {
      TimesUnit(a[1..]);
      assert a[0] + multiset{} == a[0];
      assert Shift(a[0], [multiset{}]) == [a[0]];
    }
  }

  /** One pattern is a group of its own. */
  lemma StartingGroup(p: Pattern)
    ensures AllAlternatives([[p]]) == Expand(p)
  {
    OneGroup([p]);
    assert [p][1..] == [];
    TimesUnit(Expand(p));
  }

  /** The alternatives found so far and those still to come. */
  ghost function Found(result: seq<seq<Pattern>>, groups: seq<seq<Pattern>>): multiset<Bag>
    requires AllLeaves(result)
  {
    multiset(Bags(result)) + multiset(AllAlternatives(groups))
  }

  lemma FoundFirst(p: Pattern)
    ensures Found([], [[p]]) == multiset(Expand(p))
  {
    StartingGroup(p);
  }

  lemma FoundLast(result: seq<seq<Pattern>>)
    requires AllLeaves(result)
    ensures Found(result, []) == multiset(Bags(result))
  {
  }

  lemma FoundLater(result: seq<seq<Pattern>>, groups: seq<seq<Pattern>>, next: seq<seq<Pattern>>)
    requires AllLeaves(result) && groups != []
    requires AllAlternatives(next) == Product(groups[0]) && Work(next) < GroupCost(groups[0])
    ensures Found(result, groups[1..] + next) == Found(result, groups) && Work(groups[1..] + next) < Work(groups)
  {
    AlternativesAppend(groups[1..], next);
    WorkAppend(groups[1..], next);
  }

  lemma FoundNow(result: seq<seq<Pattern>>, groups: seq<seq<Pattern>>)
    requires AllLeaves(result) && groups != [] && Leaves(groups[0])
    ensures Found(result + [groups[0]], groups[1..]) == Found(result, groups) && Work(groups[1..]) < Work(groups)
  {
    LeavesAreOneAlternative(groups[0]);
    assert Bags(result + [groups[0]]) == Bags(result) + [LeafBag(groups[0])];
  }

  /** One turn of the loop: the first group is done, or its first branch is expanded. */
  method Turn(result: seq<seq<Pattern>>, groups: seq<seq<Pattern>>)
    returns (result': seq<seq<Pattern>>, groups': seq<seq<Pattern>>)
    requires AllLeaves(result) && groups != []
    ensures AllLeaves(result') && Found(result', groups') == Found(result, groups) && Work(groups') < Work(groups)
  {
    var children := groups[0];
    var found, at := FirstBranch(children);
    if found {
      var next := ExpandOne(children, at);
      FoundLater(result, groups, next);
      result', groups' := result, groups[1..] + next;
    } else {
      FoundNow(result, groups);
      result', groups' := result + [children], groups[1..];
    }
  }

  /** transform: the groups of leaves it returns are exactly the alternatives of the pattern, each
      as often as it occurs among them. */
  method Transform(pattern: Pattern) returns (result: seq<seq<Pattern>>)
    ensures AllLeaves(result)
    ensures multiset(Bags(result)) == multiset(Expand(pattern))
  {
    result := [];
    var groups := [[pattern]];
    FoundFirst(pattern);
    while groups != []
      invariant AllLeaves(result)
      invariant Found(result, groups) == multiset(Expand(pattern))
      decreases Work(groups)
    {
      result, groups := Turn(result, groups);
    }
    FoundLast(result);
  }
}
