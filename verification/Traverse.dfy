/** The capped breadth-first search over the atom graph. */
module Traverse {
  import opened Ids
  import opened AtomGraph
  import opened Seqs

  const MAX_TRAVERSE_DEPTH := 5
  const MAX_TRAVERSE_ATOMS := 50

  datatype Outcome = Ok | LinkError

  function ClampDepth(depth: int): nat {
    if depth > MAX_TRAVERSE_DEPTH then MAX_TRAVERSE_DEPTH else if depth < 1 then 1 else depth
  }

  /** How far the search goes: one link at least, five at most. */
  ghost function Reach(depth: int): nat {
    if depth <= 1 then 1 else if depth <= 5 then depth else 5
  }

  /** Links of nodes up to this depth are followed. */
  ghost function LinkReach(depth: int): nat {
    Reach(depth) - 1
  }

  function IdsOf(atoms: seq<Atom>): (r: seq<Uuid>)
    ensures |r| == |atoms| && forall i :: 0 <= i < |r| ==> r[i] == atoms[i].id
  {
    seq(|atoms|, i requires 0 <= i < |atoms| => atoms[i].id)
  }

  lemma {:induction false} DistinctFits(s: seq<Uuid>, bound: set<Uuid>)
    requires Distinct(s) && forall x :: x in s ==> x in bound
    ensures |s| <= |bound|
    decreases |s|
  {
    if |s| > 0 {
      var init, x := s[..|s| - 1], s[|s| - 1];
      forall y | y in init ensures y in bound - {x} {
        var i :| 0 <= i < |init| && init[i] == y;
        assert s[i] == y;
      }
      DistinctFits(init, bound - {x});
    }
  }

  /** Everything nearer than `h` links. */
  ghost function Before(g: Graph, start: Uuid, h: nat): set<Uuid> {
    if h == 0 then {} else Within(g, start, h - 1)
  }

  ghost function Frontier(g: Graph, start: Uuid, h: nat): set<Uuid> {
    Within(g, start, h) - Before(g, start, h)
  }

  /** A node first met at `h` links is in no nearer level. */
  lemma {:induction false} FrontierIsNearest(g: Graph, start: Uuid, h: nat, n: nat, x: Uuid)
    requires x in Frontier(g, start, h) && x in Within(g, start, n)
    ensures Within(g, start, h) <= Within(g, start, n)
  {
    if n < h {
      WithinMonotone(g, start, n, h - 1);
    } else {
      WithinMonotone(g, start, h, n);
    }
  }

  /** A fetchable node in reach whose link query fails. */
  ghost predicate Breaks(g: Graph, start: Uuid, n: nat, x: Uuid) {
    x in Within(g, start, n) && Fetchable(g, x) && x in g.broken
  }

  ghost predicate BrokenWithin(g: Graph, start: Uuid, n: nat) {
    exists x :: Breaks(g, start, n, x)
  }

  /** The next level is what the frontier reaches and is not known yet. */
  lemma {:induction false} NextFrontier(g: Graph, start: Uuid, h: nat)
    ensures Frontier(g, start, h + 1) == Targets(g, Frontier(g, start, h)) - Within(g, start, h)
    ensures Targets(g, Frontier(g, start, h)) <= Within(g, start, h + 1)
  {
    forall y | y in Targets(g, Within(g, start, h)) && y !in Within(g, start, h)
      ensures y in Targets(g, Frontier(g, start, h))
    {
      var x := TargetHasSource(g, Within(g, start, h), y);
      if x in Before(g, start, h) {
        TargetsAreSteps(g, Before(g, start, h), x, y);
      }
      TargetsAreSteps(g, Frontier(g, start, h), x, y);
    }
    forall y | y in Targets(g, Frontier(g, start, h)) ensures y in Targets(g, Within(g, start, h)) {
      var x := TargetHasSource(g, Frontier(g, start, h), y);
      TargetsAreSteps(g, Within(g, start, h), x, y);
    }
  }

  /** Whatever depth reaches `y` reaches `x`. */
  ghost predicate NoFarther(g: Graph, start: Uuid, x: Uuid, y: Uuid) {
    forall n: nat :: y in Within(g, start, n) ==> x in Within(g, start, n)
  }

  /** Earlier entries are at least as near as later ones. */
  ghost predicate NearestFirst(g: Graph, start: Uuid, ids: seq<Uuid>) {
    forall i, j :: 0 <= i < j < |ids| ==> NoFarther(g, start, ids[i], ids[j])
  }

  lemma {:induction false} FrontierIsLast(g: Graph, start: Uuid, y: Uuid, x: Uuid, h: nat)
    requires x in Frontier(g, start, h) && y in Within(g, start, h)
    ensures NoFarther(g, start, y, x)
  {
    forall n: nat | x in Within(g, start, n) ensures y in Within(g, start, n) { FrontierIsNearest(g, start, h, n, x); }
  }

  lemma {:induction false} NearestFirstPush(g: Graph, start: Uuid, ids: seq<Uuid>, x: Uuid, h: nat)
    requires NearestFirst(g, start, ids) && x in Frontier(g, start, h)
    requires forall y :: y in ids ==> y in Within(g, start, h)
    ensures NearestFirst(g, start, ids + [x])
  {
    var all := ids + [x];
    forall i, j | 0 <= i < j < |all| ensures NoFarther(g, start, all[i], all[j]) {
      if j < |ids| {
        assert NoFarther(g, start, ids[i], ids[j]);
      } else {
        assert ids[i] in ids;
        FrontierIsLast(g, start, ids[i], x, h);
      }
    }
  }

  function TargetSet(ls: seq<Link>): set<Uuid> {
    if |ls| == 0 then {} else TargetSet(ls[..|ls| - 1]) + {ls[|ls| - 1].target}
  }

  lemma {:induction false} TargetSetMembers(ls: seq<Link>)
    ensures forall y :: y in TargetSet(ls) <==> exists l :: l in ls && l.target == y
    decreases |ls|
  {
    if |ls| > 0 {
      var init, last := ls[..|ls| - 1], ls[|ls| - 1];
      TargetSetMembers(init);
      assert ls == init + [last];
      forall y ensures y in TargetSet(ls) <==> exists l :: l in ls && l.target == y {
        if y == last.target { assert last in ls; }
        if l :| l in init && l.target == y { assert l in ls; }
      }
    }
  }

  lemma {:induction false} TargetSetNext(ls: seq<Link>, j: nat, reached: set<Uuid>)
    requires j < |ls|
    ensures reached + TargetSet(ls[..j]) + {ls[j].target} == reached + TargetSet(ls[..j + 1])
    ensures ls[j] in ls
  {
    TakeNext(ls, j);
  }

  lemma MoveHead(ids: seq<Uuid>, x: Uuid, rest: seq<Uuid>, next: seq<Uuid>)
    ensures ids + ([x] + rest) + next == ids + [x] + rest + next
    ensures ids + ([x] + rest) == ids + [x] + rest
  {
  }

  lemma IdsOfPush(atoms: seq<Atom>, a: Atom)
    ensures IdsOf(atoms + [a]) == IdsOf(atoms) + [a.id]
  {
  }

  lemma SetOfPush(s: seq<Uuid>, y: Uuid)
    ensures SetOf(s + [y]) == SetOf(s) + {y}
  {
  }

  /** The start leaves the queue first and is not queued again. */
  ghost predicate StartsRight(g: Graph, start: Uuid, ids: seq<Uuid>, visited: set<Uuid>, rest: seq<Uuid>,
                              next: seq<Uuid>) {
    && start in visited && start !in next
    && (start in rest ==> rest == [start] && ids == [])
    && (Fetchable(g, start) ==> start in ids || start in rest)
  }

  /** The nodes the search has met: the start and the targets of its links. */
  function Met(start: Uuid, links: seq<Link>): set<Uuid> {
    {start} + TargetSet(links)
  }

  ghost predicate IsSound(g: Graph, start: Uuid, atoms: seq<Atom>, links: seq<Link>, visited: set<Uuid>, h: nat,
                          rest: seq<Uuid>, next: seq<Uuid>) {
    var ids := IdsOf(atoms);
    && Distinct(ids + rest + next)
    && (forall x :: x in ids + rest + next ==> x in Met(start, links))
    && Met(start, links) <= Within(g, start, h + 1)
    && (forall x :: x in ids + rest + next ==> x in visited)
    && (forall x :: x in ids + rest ==> x in Within(g, start, h))
    && (forall x :: x in next ==> x in Within(g, start, h + 1))
    && |ids| <= MAX_TRAVERSE_ATOMS
    && (forall i :: 0 <= i < |atoms| ==> GetAtomByID(g, atoms[i].id) == Some(atoms[i]))
    && (forall l :: l in links ==> l in g.links && l.source in ids && OfWorkspace(g, l.target))
  }

  /** What holds on every graph while hop `h` works through its queue:
      `rest` is still to do, `next` is queued for the hop after. */
  ghost predicate IsSafe(g: Graph, start: Uuid, atoms: seq<Atom>, links: seq<Link>, visited: set<Uuid>, h: nat,
                         rest: seq<Uuid>, next: seq<Uuid>) {
    IsSound(g, start, atoms, links, visited, h, rest, next) && StartsRight(g, start, IdsOf(atoms), visited, rest, next)
  }

  /** What holds besides as long as the nodes met fit under the cap. `reached` are the targets
      of the part of the frontier that is done. */
  ghost predicate IsExact(g: Graph, start: Uuid, ids: seq<Uuid>, visited: set<Uuid>, h: nat, rest: seq<Uuid>,
                          next: seq<Uuid>, reached: set<Uuid>) {
    && visited == Within(g, start, h) + SetOf(next)
    && SetOf(next) == reached - Within(g, start, h)
    && (forall x :: x in rest ==> x in Frontier(g, start, h))
    && (forall x {:trigger x in ids} :: x in ids <==> Fetchable(g, x) && x in Within(g, start, h) && x !in rest)
    && NearestFirst(g, start, ids)
  }

  ghost predicate Fits(start: Uuid, links: seq<Link>) {
    |Met(start, links)| <= 50
  }

  lemma {:induction false} MetGrows(start: Uuid, links: seq<Link>, l: Link)
    ensures Met(start, links + [l]) == Met(start, links) + {l.target}
    ensures Fits(start, links + [l]) ==> Fits(start, links)
  {
    assert (links + [l])[..|links|] == links;
    SubsetSize(Met(start, links), Met(start, links + [l]));
  }

  /** Whether the links of every returned atom could be read. */
  ghost predicate AreRead(g: Graph, ids: seq<Uuid>, links: seq<Link>) {
    links == LinksOf(g, ids) && forall x :: x in ids ==> x !in g.broken
  }

  lemma AreReadPush(g: Graph, ids: seq<Uuid>, links: seq<Link>, x: Uuid)
    requires AreRead(g, ids, links)
    ensures x !in g.broken ==> AreRead(g, ids + [x], links + LinksFrom(g, x))
  {
    assert (ids + [x])[..|ids|] == ids;
  }

  /** Between two levels: everything nearer is done, `queue` is the next level. */
  ghost predicate IsLevel(g: Graph, start: Uuid, atoms: seq<Atom>, links: seq<Link>, visited: set<Uuid>, h: nat,
                          queue: seq<Uuid>) {
    && IsSafe(g, start, atoms, links, visited, h, queue, []) && AreRead(g, IdsOf(atoms), links)
    && Met(start, links) <= Within(g, start, h)
    && (Fits(start, links) ==>
          IsExact(g, start, IdsOf(atoms), visited, h, queue, [], {}) && SetOf(queue) == Frontier(g, start, h))
  }

  predicate GoesTo(h: nat, limit: nat) {
    h <= limit
  }

  class TraverseResult {
    const g: Graph
    const start: Uuid
    var atoms: seq<Atom>
    var links: seq<Link>
    var visited: set<Uuid>

    constructor (g: Graph, start: Uuid)
      ensures this.g == g && this.start == start
      ensures atoms == [] && links == [] && visited == {start}
    {
      this.g, this.start := g, start;
      atoms, links, visited := [], [], {start};
    }

    ghost predicate Safe(h: nat, rest: seq<Uuid>, next: seq<Uuid>)
      reads this
    {
      IsSafe(g, start, atoms, links, visited, h, rest, next)
    }

    ghost predicate Exact(h: nat, rest: seq<Uuid>, next: seq<Uuid>, reached: set<Uuid>)
      reads this
    {
      IsExact(g, start, IdsOf(atoms), visited, h, rest, next, reached)
    }

    ghost predicate Roomy()
      reads this`links
    {
      Fits(start, links)
    }

    /** Both, while part of a queue entry is done. */
    ghost predicate Doing(h: nat, rest: seq<Uuid>, next: seq<Uuid>, reached: set<Uuid>)
      reads this
    {
      Safe(h, rest, next) && (Roomy() ==> Exact(h, rest, next, reached))
    }

    lemma LinkKeepsSound(l: Link, h: nat, rest: seq<Uuid>, next: seq<Uuid>)
      requires IsSound(g, start, atoms, links, visited, h, rest, next)
      requires && l.source in IdsOf(atoms) && l in g.links && OfWorkspace(g, l.target)
               && l.target in Within(g, start, h + 1)
      ensures IsSound(g, start, atoms, links + [l], visited, h, rest, next)
    {
      MetGrows(start, links, l);
    }

    method AppendLink(l: Link, ghost queued: seq<Uuid>, ghost h: nat, ghost rest: seq<Uuid>, ghost reached: set<Uuid>)
      requires Doing(h, rest, queued, reached) && l.source in IdsOf(atoms) && l in g.links && OfWorkspace(g, l.target)
      requires l.target in Within(g, start, h + 1)
      modifies this`links
      ensures Doing(h, rest, queued, reached) && links == old(links) + [l] && l.target in Met(start, links)
      ensures Roomy() ==> old(Roomy())
    {
      MetGrows(start, links, l);
      LinkKeepsSound(l, h, rest, queued);
      links := links + [l];
    }

    /** Marks a new node as visited and queues it. */
    method Push(y: Uuid, queued: seq<Uuid>, ghost h: nat, ghost rest: seq<Uuid>, ghost reached: set<Uuid>)
      returns (next: seq<Uuid>)
      requires Doing(h, rest, queued, reached) && y in Met(start, links) && y !in visited
      modifies this`visited
      ensures Doing(h, rest, next, reached + {y})
    {
      visited := visited + {y};
      next := queued + [y];
      Associative(IdsOf(atoms) + rest, queued, [y]);
      SetOfPush(queued, y);
    }

    lemma {:induction false} DropMiddle(a: seq<Uuid>, b: seq<Uuid>, c: seq<Uuid>)
      requires Distinct(a + b + c)
      ensures Distinct(a + c)
    {
      var all, s := a + b + c, a + c;
      forall i, j | 0 <= i < j < |s| ensures s[i] != s[j] {
        var i' := if i < |a| then i else i + |b|;
        var j' := if j < |a| then j else j + |b|;
        assert all[i'] == s[i] && all[j'] == s[j];
      }
    }

    /** When all nodes met fit under the cap, a new target does. */
    lemma {:induction false} RoomFor(y: Uuid, rest: seq<Uuid>, next: seq<Uuid>, h: nat)
      requires Safe(h, rest, next) && Roomy() && y in Met(start, links) && y !in visited
      ensures |atoms| + |next| < MAX_TRAVERSE_ATOMS
    {
      var ids := IdsOf(atoms);
      DropMiddle(ids, rest, next);
      DistinctFits(ids + next + [y], Met(start, links));
    }

    lemma {:induction false} AlreadyReached(y: Uuid, queued: seq<Uuid>, h: nat, rest: seq<Uuid>, reached: set<Uuid>)
      requires Safe(h, rest, queued) && Roomy() && Exact(h, rest, queued, reached) && y in Met(start, links)
      requires y in visited || |atoms| + |queued| >= MAX_TRAVERSE_ATOMS
      ensures Exact(h, rest, queued, reached + {y})
    {
      if y !in visited { RoomFor(y, rest, queued, h); }
      assert y in Within(g, start, h) || y in SetOf(queued);
      assert reached + {y} - Within(g, start, h) == reached - Within(g, start, h);
    }

    /** Queues a link's target if it is new and fits. */
    method Enqueue(y: Uuid, queued: seq<Uuid>, ghost h: nat, ghost rest: seq<Uuid>, ghost reached: set<Uuid>)
      returns (next: seq<Uuid>)
      requires Doing(h, rest, queued, reached) && y in Met(start, links)
      modifies this`visited
      ensures Doing(h, rest, next, reached + {y})
    {
      next := queued;
      if y !in visited && |atoms| + |next| < MAX_TRAVERSE_ATOMS {
        next := Push(y, queued, h, rest, reached);
      } else if Roomy() {
        AlreadyReached(y, queued, h, rest, reached);
      }
    }

    /** Records one link and queues its target if it is new and fits. */
    method FollowLink(l: Link, queued: seq<Uuid>, ghost h: nat, ghost rest: seq<Uuid>, ghost reached: set<Uuid>)
      returns (next: seq<Uuid>)
      requires Doing(h, rest, queued, reached)
      requires && l.source in IdsOf(atoms) && l in g.links && OfWorkspace(g, l.target)
               && l.target in Within(g, start, h + 1)
      modifies this`links, this`visited
      ensures Doing(h, rest, next, reached + {l.target}) && links == old(links) + [l] && (Roomy() ==> old(Roomy()))
    {
      AppendLink(l, queued, h, rest, reached);
      next := Enqueue(l.target, queued, h, rest, reached);
    }

    lemma {:induction false} TargetsOfOne(x: Uuid, found: seq<Link>)
      requires found == LinksFrom(g, x) && Fetchable(g, x)
      ensures TargetSet(found) == Targets(g, {x})
    {
      TargetSetMembers(found);
      forall y | y in Targets(g, {x}) ensures y in TargetSet(found) {
        var z := TargetHasSource(g, {x}, y);
      }
      forall y | y in TargetSet(found) ensures y in Targets(g, {x}) {
        var l :| l in found && l.target == y;
        assert Steps(g, x, y);
        TargetsAreSteps(g, {x}, x, y);
      }
    }

    lemma {:induction false} TargetsAreWithin(x: Uuid, h: nat, found: seq<Link>)
      requires found == LinksFrom(g, x) && Fetchable(g, x) && x in Within(g, start, h)
      ensures forall l :: l in found ==> l.target in Within(g, start, h + 1)
    {
      forall l | l in found ensures l.target in Within(g, start, h + 1) {
        assert Steps(g, x, l.target);
        TargetsAreSteps(g, Within(g, start, h), x, l.target);
      }
    }

    lemma {:induction false} TargetSetEnds(x: Uuid, found: seq<Link>, reached: set<Uuid>)
      requires found == LinksFrom(g, x) && Fetchable(g, x)
      ensures reached + TargetSet(found[..0]) == reached && links + found[..0] == links
      ensures found[..|found|] == found && TargetSet(found[..|found|]) == Targets(g, {x})
    {
      TargetsOfOne(x, found);
      assert found[..|found|] == found;
    }

    /** Follows link `j` of the atom's links. */
    method FollowNext(found: seq<Link>, j: nat, queued: seq<Uuid>, ghost h: nat, ghost rest: seq<Uuid>,
                      ghost reached: set<Uuid>)
      returns (next: seq<Uuid>)
      requires j < |found| && Doing(h, rest, queued, reached + TargetSet(found[..j]))
      requires var l := found[j];
               && l.source in IdsOf(atoms) && l in g.links && OfWorkspace(g, l.target)
               && l.target in Within(g, start, h + 1)
      modifies this`links, this`visited
      ensures Doing(h, rest, next, reached + TargetSet(found[..j + 1])) && links == old(links) + [found[j]]
      ensures Roomy() ==> old(Roomy())
    {
      TargetSetNext(found, j, reached);
      next := FollowLink(found[j], queued, h, rest, reached + TargetSet(found[..j]));
    }

    /** Appends the links of the atom just added and queues their new targets. */
    method FollowLinks(x: Uuid, found: seq<Link>, queued: seq<Uuid>, ghost h: nat, ghost rest: seq<Uuid>,
                       ghost reached: set<Uuid>)
      returns (next: seq<Uuid>)
      requires Doing(h, rest, queued, reached)
      requires x in IdsOf(atoms) && found == LinksFrom(g, x) && Fetchable(g, x) && x in Within(g, start, h)
      modifies this`links, this`visited
      ensures Doing(h, rest, next, reached + Targets(g, {x})) && links == old(links) + found
      ensures Roomy() ==> old(Roomy())
    {
      next := queued;
      var j := 0;
      TargetsAreWithin(x, h, found);
      TargetSetEnds(x, found, reached);
      while j < |found|
        invariant 0 <= j <= |found|
        invariant Doing(h, rest, next, reached + TargetSet(found[..j]))
        invariant links == old(links) + found[..j] && (Roomy() ==> old(Roomy()))
      {
        ExtendTake(old(links), found, j);
        assert found[j] in found;
        next := FollowNext(found, j, next, h, rest, reached);
        j := j + 1;
      }
    }

    /** The targets of the part of the frontier that is done. */
    ghost function Reached(h: nat, rest: seq<Uuid>): set<Uuid> {
      Targets(g, Frontier(g, start, h) - SetOf(rest))
    }

    lemma {:induction false} ReachedPop(h: nat, x: Uuid, rest: seq<Uuid>)
      requires x in Frontier(g, start, h) && x !in rest
      ensures Reached(h, rest) == Reached(h, [x] + rest) + Targets(g, {x})
    {
      var done := Frontier(g, start, h) - SetOf([x] + rest);
      assert Frontier(g, start, h) - SetOf(rest) == done + {x} by {
        forall y ensures y in SetOf([x] + rest) <==> y == x || y in SetOf(rest) {}
      }
      TargetsUnion(g, done, {x}, |g.links|);
    }

    lemma {:induction false} UnfetchableReachesNothing(x: Uuid)
      requires !Fetchable(g, x)
      ensures Targets(g, {x}) == {}
    {
      NoTargets(g, {x}, |g.links|);
    }

    lemma {:induction false} FullMeansCapped(x: Uuid, rest: seq<Uuid>, next: seq<Uuid>, h: nat)
      requires Safe(h, [x] + rest, next) && |atoms| >= MAX_TRAVERSE_ATOMS
      ensures !Roomy()
    {
      var ids := IdsOf(atoms);
      var all := ids + ([x] + rest) + next;
      var some := ids + [x];
      forall i, j | 0 <= i < j < |some| ensures some[i] != some[j] {
        assert all[i] == some[i] && all[j] == some[j];
      }
      forall y | y in some ensures y in Met(start, links) { assert y in all; }
      DistinctFits(some, Met(start, links));
    }

    lemma {:induction false} PopSound(x: Uuid, rest: seq<Uuid>, next: seq<Uuid>, h: nat)
      requires IsSound(g, start, atoms, links, visited, h, [x] + rest, next)
      ensures IsSound(g, start, atoms, links, visited, h, rest, next)
      ensures x !in rest && x !in IdsOf(atoms) && x !in next && x in Within(g, start, h) && x in visited
    {
      var ids := IdsOf(atoms);
      var all := ids + ([x] + rest) + next;
      assert all == ids + [x] + (rest + next);
      DropMiddle(ids, [x], rest + next);
      assert ids + (rest + next) == ids + rest + next;
      assert all[|ids|] == x;
      forall i | 0 <= i < |all| && i != |ids| ensures all[i] != x {}
      forall y | y in ids ensures y != x { var k :| 0 <= k < |ids| && ids[k] == y; assert all[k] == y; }
      forall y | y in rest ensures y != x { var k :| 0 <= k < |rest| && rest[k] == y; assert all[|ids| + 1 + k] == y; }
      forall y | y in next ensures y != x {
        var k :| 0 <= k < |next| && next[k] == y;
        assert all[|ids| + 1 + |rest| + k] == y;
      }
      forall y | y in ids + rest ensures y in ids + ([x] + rest) {}
    }

    /** Taking `x` off the queue, to be added or to be skipped. */
    lemma {:induction false} PopFacts(x: Uuid, rest: seq<Uuid>, next: seq<Uuid>, h: nat)
      requires Safe(h, [x] + rest, next)
      ensures IsSound(g, start, atoms, links, visited, h, rest, next)
      ensures x !in rest && x !in IdsOf(atoms) && x !in next && x in Within(g, start, h) && x in visited
      ensures StartsRight(g, start, IdsOf(atoms) + [x], visited, rest, next)
      ensures !Fetchable(g, x) ==> Safe(h, rest, next)
    {
      PopSound(x, rest, next, h);
      assert start in [x] + rest <==> start == x || start in rest;
      if start in [x] + rest { assert [x] + rest == [start] && |rest| == 0; }
    }

    /** Adds the atom at the head of the queue. */
    method AddAtom(a: Atom, ghost rest: seq<Uuid>, ghost next: seq<Uuid>, ghost h: nat, ghost reached: set<Uuid>)
      requires Safe(h, [a.id] + rest, next) && GetAtomByID(g, a.id) == Some(a) && |atoms| < MAX_TRAVERSE_ATOMS
      requires Roomy() ==> Exact(h, [a.id] + rest, next, reached)
      modifies this`atoms
      ensures IdsOf(atoms) == old(IdsOf(atoms)) + [a.id] && Safe(h, rest, next)
      ensures Roomy() ==> Exact(h, rest, next, reached)
    {
      ghost var ids := IdsOf(atoms);
      PopFacts(a.id, rest, next, h);
      if Roomy() { NearestFirstPush(g, start, ids, a.id, h); }
      MoveHead(ids, a.id, rest, next);
      IdsOfPush(atoms, a);
      atoms := atoms + [a];
    }

    lemma {:induction false} HopDoneSafe(rest: seq<Uuid>, next: seq<Uuid>, h: nat)
      requires Safe(h, rest, next) && (rest == [] || |atoms| > 0)
      ensures Safe(h + 1, next, [])
    {
      var ids := IdsOf(atoms);
      DropMiddle(ids, rest, next);
      assert ids + next + [] == ids + next;
      WithinMonotone(g, start, h, h + 1);
    }

    lemma {:induction false} HopDoneExact(next: seq<Uuid>, h: nat)
      requires Exact(h, [], next, Reached(h, []))
      ensures Exact(h + 1, next, [], {}) && SetOf(next) == Frontier(g, start, h + 1)
    {
      assert SetOf<Uuid>([]) == {};
      assert Frontier(g, start, h) - SetOf([]) == Frontier(g, start, h);
      NextFrontier(g, start, h);
      WithinMonotone(g, start, h, h + 1);
      assert Within(g, start, h + 1) == Within(g, start, h) + Frontier(g, start, h + 1);
      forall x ensures x in next <==> x in Frontier(g, start, h + 1) { assert x in next <==> x in SetOf(next); }
    }

    ghost predicate LinksRead()
      reads this
    {
      AreRead(g, IdsOf(atoms), links)
    }

    /** A level of a search that may go on to any depth from here. */
    ghost predicate Level(h: nat, queue: seq<Uuid>)
      reads this
    {
      forall limit: nat :: GoesTo(h, limit) ==> IsLevel(g, start, atoms, links, visited, h, queue)
    }

    ghost predicate Going(h: nat, rest: seq<Uuid>, next: seq<Uuid>)
      reads this
    {
      Safe(h, rest, next) && LinksRead() && (Roomy() ==> Exact(h, rest, next, Reached(h, rest)))
    }

    /** What the head of the queue adds to what is reached. */
    lemma {:induction false} HeadReaches(x: Uuid, rest: seq<Uuid>, next: seq<Uuid>, h: nat)
      requires Going(h, [x] + rest, next)
      ensures x in Within(g, start, h)
      ensures Roomy() ==> Reached(h, rest) == Reached(h, [x] + rest) + Targets(g, {x})
    {
      PopFacts(x, rest, next, h);
      if Roomy() {
        assert x in [x] + rest;
        ReachedPop(h, x, rest);
      }
    }

    /** An entry that cannot be fetched is skipped: nothing is behind it. */
    lemma {:induction false} SkipEntry(x: Uuid, rest: seq<Uuid>, next: seq<Uuid>, h: nat)
      requires Going(h, [x] + rest, next) && !Fetchable(g, x)
      ensures Going(h, rest, next)
    {
      PopFacts(x, rest, next, h);
      HeadReaches(x, rest, next, h);
      UnfetchableReachesNothing(x);
    }

    /** Adds the atom at the head of the queue and follows its links. */
    method Expand(a: Atom, ghost rest: seq<Uuid>, queued: seq<Uuid>, ghost h: nat)
      returns (r: Outcome, next: seq<Uuid>)
      requires Going(h, [a.id] + rest, queued) && GetAtomByID(g, a.id) == Some(a) && |atoms| < MAX_TRAVERSE_ATOMS
      modifies this
      ensures r == Ok ==> Going(h, rest, next)
      ensures r == LinkError ==> Breaks(g, start, h, a.id)
    {
      ghost var reached := Reached(h, [a.id] + rest);
      HeadReaches(a.id, rest, queued, h);
      AreReadPush(g, IdsOf(atoms), links, a.id);
      AddAtom(a, rest, queued, h, reached);
      next := queued;
      if a.id in g.broken {
        r := LinkError;
      } else {
        assert a.id in IdsOf(atoms);
        next := FollowLinks(a.id, LinksFrom(g, a.id), queued, h, rest, reached);
        r := Ok;
      }
    }

    /** One queue entry: fetch it, add it, follow its links. */
    method Visit(x: Uuid, ghost rest: seq<Uuid>, queued: seq<Uuid>, ghost h: nat)
      returns (r: Outcome, next: seq<Uuid>)
      requires Going(h, [x] + rest, queued) && |atoms| < MAX_TRAVERSE_ATOMS
      modifies this
      ensures r == Ok ==> Going(h, rest, next)
      ensures r == LinkError ==> Breaks(g, start, h, x)
    {
      var a := GetAtomByID(g, x);
      if a.Some? {
        r, next := Expand(a.value, rest, queued, h);
      } else {
        SkipEntry(x, rest, queued, h);
        r, next := Ok, queued;
      }
    }

    /** One queue entry of the last level: fetched without its links. */
    method Fetch(x: Uuid, ghost rest: seq<Uuid>, ghost h: nat)
      requires Doing(h, [x] + rest, [], {}) && |atoms| < MAX_TRAVERSE_ATOMS
      modifies this`atoms
      ensures Doing(h, rest, [], {}) && old(IdsOf(atoms)) <= IdsOf(atoms)
    {
      PopFacts(x, rest, [], h);
      var a := GetAtomByID(g, x);
      if a.Some? { AddAtom(a.value, rest, [], h, {}); }
    }

    /** Works through the last level until it is done or the cap is reached. */
    method FetchQueue(queue: seq<Uuid>, ghost h: nat) returns (ghost rest: seq<Uuid>)
      requires Doing(h, queue, [], {})
      modifies this`atoms
      ensures Doing(h, rest, [], {}) && (rest == [] || |atoms| >= MAX_TRAVERSE_ATOMS)
      ensures old(IdsOf(atoms)) <= IdsOf(atoms)
    {
      var i := 0;
      rest := queue;
      while i < |queue| && |atoms| < MAX_TRAVERSE_ATOMS
        invariant 0 <= i <= |queue| && rest == queue[i..]
        invariant Doing(h, rest, [], {})
        invariant old(IdsOf(atoms)) <= IdsOf(atoms)
      {
        DropNext(queue, i);
        rest := queue[i + 1..];
        Fetch(queue[i], rest, h);
        i := i + 1;
      }
    }

    lemma {:induction false} HopStarts(queue: seq<Uuid>, h: nat)
      requires Level(h, queue)
      ensures Going(h, queue, [])
    {
      assert GoesTo(h, h);
      if Roomy() {
        assert Frontier(g, start, h) - SetOf(queue) == {};
        NoTargets(g, {}, |g.links|);
      }
    }

    /** When the queue is done or the cap is reached, the next level stands. */
    lemma {:induction false} HopDone(rest: seq<Uuid>, next: seq<Uuid>, h: nat)
      requires Going(h, rest, next) && (rest == [] || |atoms| >= MAX_TRAVERSE_ATOMS)
      ensures Level(h + 1, next) && start !in next
    {
      HopDoneSafe(rest, next, h);
      if |rest| > 0 {
        DropNext(rest, 0);
        FullMeansCapped(rest[0], rest[1..], next, h);
      }
      if Roomy() { HopDoneExact(next, h); }
    }

    /** Works through the queue until it is done or the cap is reached. */
    method VisitQueue(queue: seq<Uuid>, ghost h: nat)
      returns (r: Outcome, next: seq<Uuid>, ghost rest: seq<Uuid>, ghost at: Uuid)
      requires Going(h, queue, [])
      modifies this
      ensures r == Ok ==> Going(h, rest, next) && (rest == [] || |atoms| >= MAX_TRAVERSE_ATOMS)
      ensures r == LinkError ==> Breaks(g, start, h, at)
    {
      r, next, rest, at := Ok, [], queue, start;
      var i := 0;
      while r == Ok && i < |queue| && |atoms| < MAX_TRAVERSE_ATOMS
        invariant 0 <= i <= |queue| && rest == queue[i..]
        invariant r == Ok ==> Going(h, rest, next)
        invariant r == LinkError ==> Breaks(g, start, h, at)
      {
        DropNext(queue, i);
        rest, at := queue[i + 1..], queue[i];
        r, next := Visit(queue[i], rest, next, h);
        i := i + 1;
      }
    }

    /** One BFS level; the atoms of `queue` that can be fetched are added with
        their links, and the targets not seen before are returned. */
    method TraverseHop(queue: seq<Uuid>, ghost h: nat)
      returns (r: Outcome, next: seq<Uuid>, ghost at: Uuid)
      requires Level(h, queue)
      modifies this
      ensures r == Ok ==> Level(h + 1, next) && start !in next
      ensures r == LinkError ==> Breaks(g, start, h, at)
    {
      HopStarts(queue, h);
      ghost var rest;
      r, next, rest, at := VisitQueue(queue, h);
      if r == Ok { HopDone(rest, next, h); }
    }
  }

  lemma {:induction false} StartIsFirst(g: Graph, start: Uuid)
    ensures start in Frontier(g, start, 0)
  {
  }

  lemma {:induction false} FirstIsSafe(g: Graph, start: Uuid)
    ensures IsSafe(g, start, [], [], {start}, 0, [start], []) && AreRead(g, IdsOf([]), [])
  {
    assert IdsOf([]) == [];
  }

  lemma {:induction false} FirstIsExact(g: Graph, start: Uuid)
    ensures IsExact(g, start, IdsOf([]), {start}, 0, [start], [], {}) && SetOf([start]) == Frontier(g, start, 0)
  {
    assert IdsOf([]) == [];
    assert SetOf([start]) == {start} && SetOf<Uuid>([]) == {};
    StartIsFirst(g, start);
  }

  lemma {:induction false} FirstLevel(result: TraverseResult)
    requires result.atoms == [] && result.links == [] && result.visited == {result.start}
    ensures result.Level(0, [result.start])
  {
    FirstIsSafe(result.g, result.start);
    FirstIsExact(result.g, result.start);
  }

  lemma {:induction false} BreaksFarther(g: Graph, start: Uuid, h: nat, n: nat, x: Uuid)
    requires h <= n && Breaks(g, start, h, x)
    ensures Breaks(g, start, n, x)
  {
    WithinMonotone(g, start, h, n);
  }

  /** One level; a link query that fails does so for a node within reach. */
  method NextLevel(result: TraverseResult, queue: seq<Uuid>, ghost h: nat, ghost last: nat)
    returns (r: Outcome, next: seq<Uuid>, ghost at: Uuid)
    requires h <= last && result.Level(h, queue)
    modifies result
    ensures r == Ok ==> result.Level(h + 1, next) && result.start !in next
    ensures r == LinkError ==> Breaks(result.g, result.start, last, at)
  {
    r, next, at := result.TraverseHop(queue, h);
    if r == LinkError { BreaksFarther(result.g, result.start, h, last, at); }
  }

  method LevelsFrom(result: TraverseResult, first: seq<Uuid>, limit: nat, ghost last: nat)
    returns (r: Outcome, queue: seq<Uuid>, ghost hop: nat, ghost at: Uuid)
    requires result.Level(0, first) && limit == last + 1 && |first| > 0 && |result.atoms| == 0
    modifies result
    ensures 0 < hop <= limit
    ensures r == Ok ==> result.Level(hop, queue) && result.start !in queue
    ensures r == Ok && hop < limit && |queue| > 0 ==> |result.atoms| >= MAX_TRAVERSE_ATOMS
    ensures r == LinkError ==> Breaks(result.g, result.start, last, at)
  {
    r, queue, at := Ok, first, result.start;
    var h := 0;
    while r == Ok && h < limit && |queue| > 0 && |result.atoms| < MAX_TRAVERSE_ATOMS
      invariant h <= limit
      invariant r == Ok ==> result.Level(h, queue)
      invariant h == 0 ==> r == Ok && |queue| > 0 && |result.atoms| == 0
      invariant h > 0 && r == Ok ==> result.start !in queue
      invariant r == LinkError ==> Breaks(result.g, result.start, last, at)
      decreases limit - h
    {
      r, queue, at := NextLevel(result, queue, h, last);
      h := h + 1;
    }
    hop := h;
  }

  lemma {:induction false} CappedQueue(result: TraverseResult, queue: seq<Uuid>, h: nat)
    requires |queue| > 0 && result.Level(h, queue) && |result.atoms| >= MAX_TRAVERSE_ATOMS
    ensures !result.Roomy()
  {
    assert GoesTo(h, h);
    DropNext(queue, 0);
    result.FullMeansCapped(queue[0], queue[1..], [], h);
  }

  /** The level loop: hop after hop until the depth, the queue or the cap ends it. */
  method SearchLevels(result: TraverseResult, limit: nat, ghost last: nat)
    returns (r: Outcome, queue: seq<Uuid>, ghost hop: nat)
    requires result.atoms == [] && result.links == [] && result.visited == {result.start} && limit == last + 1
    modifies result
    ensures hop <= limit
    ensures r == Ok ==> result.Level(hop, queue) && result.start !in queue
    ensures r == Ok && result.Roomy() && hop < limit ==> queue == []
    ensures r == LinkError ==> BrokenWithin(result.g, result.start, last)
  {
    FirstLevel(result);
    ghost var at;
    r, queue, hop, at := LevelsFrom(result, [result.start], limit, last);
    if r == Ok && hop < limit && |queue| > 0 { CappedQueue(result, queue, hop); }
  }

  lemma {:induction false} EmptyFrontier(g: Graph, start: Uuid, h: nat)
    requires Frontier(g, start, h) == {}
    ensures h > 0 && Within(g, start, h) <= Within(g, start, h - 1)
  {
    StartIsFirst(g, start);
    forall x | x in Within(g, start, h) ensures x in Before(g, start, h) { assert x !in Frontier(g, start, h); }
  }

  /** When the search stops early for lack of queue, deeper levels add nothing. */
  lemma {:induction false} Settled(g: Graph, start: Uuid, hop: nat, n: nat)
    requires Frontier(g, start, hop) == {} && n >= hop - 1
    ensures Within(g, start, n) == Within(g, start, hop)
  {
    EmptyFrontier(g, start, hop);
    var m := hop - 1;
    assert m + 1 == hop;
    WithinFixpoint(g, start, m, n);
    WithinMonotone(g, start, m, n);
    WithinMonotone(g, start, m, hop);
  }

  lemma {:induction false} OuterLevel(g: Graph, start: Uuid, hop: nat, queue: seq<Uuid>)
    requires hop > 0 && SetOf(queue) == Frontier(g, start, hop)
    ensures forall x :: x in Within(g, start, hop) && x !in queue <==> x in Within(g, start, hop - 1)
  {
    WithinMonotone(g, start, hop - 1, hop);
    forall x ensures x in queue <==> x in Frontier(g, start, hop) { assert x in queue <==> x in SetOf(queue); }
  }

  /** A readable row of the table, of the store's workspace if it has one. */
  ghost predicate IsRow(g: Graph, a: Atom) {
    && a.id in g.atoms && a.row == g.atoms[a.id] && a.id !in g.unreadable
    && (g.ws.Some? ==> a.row.ws == g.ws)
  }

  /** Exactly the fetchable nodes within `n` links. */
  ghost predicate IsReach(g: Graph, start: Uuid, n: nat, ids: seq<Uuid>) {
    forall x {:trigger x in ids} :: x in ids <==> Fetchable(g, x) && x in Within(g, start, n)
  }

  /** Before the last level is fetched. */
  lemma {:induction false} InnerAtoms(g: Graph, start: Uuid, ids: seq<Uuid>, queue: seq<Uuid>, hop: nat, limit: nat,
                                      last: nat)
    requires hop <= limit == last + 1 && SetOf(queue) == Frontier(g, start, hop) && (hop < limit ==> queue == [])
    requires forall x {:trigger x in ids} :: x in ids <==> Fetchable(g, x) && x in Within(g, start, hop) && x !in queue
    ensures Within(g, start, hop) == Within(g, start, limit)
    ensures IsReach(g, start, last, ids)
  {
    if hop < limit {
      assert SetOf<Uuid>([]) == {};
      Settled(g, start, hop, limit);
      Settled(g, start, hop, last);
    } else {
      OuterLevel(g, start, hop, queue);
    }
  }

  lemma {:induction false} Collect(result: TraverseResult, hop: nat, limit: nat, rest: seq<Uuid>)
    requires hop <= limit && result.Safe(hop, rest, [])
    ensures Distinct(IdsOf(result.atoms))
    ensures forall a :: a in result.atoms ==>
              a.id in Within(result.g, result.start, limit) && IsRow(result.g, a)
  {
    var ids := IdsOf(result.atoms);
    WithinMonotone(result.g, result.start, hop, limit);
    assert ids + rest + [] == ids + rest;
    forall i, j | 0 <= i < j < |ids| ensures ids[i] != ids[j] {
      assert (ids + rest)[i] == ids[i] && (ids + rest)[j] == ids[j];
    }
    forall a | a in result.atoms
      ensures a.id in Within(result.g, result.start, limit) && IsRow(result.g, a)
    {
      var k :| 0 <= k < |result.atoms| && result.atoms[k] == a;
      assert ids[k] in ids + rest;
    }
  }

  /** Adds the queued atoms of the last level, without their links. */
  method FetchRemaining(result: TraverseResult, queue: seq<Uuid>, ghost hop: nat)
    returns (ghost rest: seq<Uuid>)
    requires result.Doing(hop, queue, [], {})
    modifies result`atoms
    ensures old(IdsOf(result.atoms)) <= IdsOf(result.atoms)
    ensures result.Doing(hop, rest, [], {}) && (result.Roomy() ==> rest == [])
  {
    rest := result.FetchQueue(queue, hop);
    if |rest| > 0 {
      DropNext(rest, 0);
      result.FullMeansCapped(rest[0], rest[1..], [], hop);
    }
  }

  /** The rest of the search: the last level is fetched, the result collected. */
  method FinishSearch(result: TraverseResult, queue: seq<Uuid>, ghost hop: nat, ghost limit: nat,
                      ghost inner: seq<Uuid>)
    returns (atoms: seq<Atom>)
    requires hop <= limit && result.Doing(hop, queue, [], {}) && inner == IdsOf(result.atoms)
    requires result.Roomy() ==> Within(result.g, result.start, hop) == Within(result.g, result.start, limit)
    modifies result`atoms
    ensures |atoms| <= MAX_TRAVERSE_ATOMS && Distinct(IdsOf(atoms)) && inner <= IdsOf(atoms)
    ensures forall a :: a in atoms ==>
              a.id in Within(result.g, result.start, limit) && IsRow(result.g, a)
    ensures result.Roomy() ==>
              IsReach(result.g, result.start, limit, IdsOf(atoms)) && NearestFirst(result.g, result.start, IdsOf(atoms))
  {
    ghost var rest := FetchRemaining(result, queue, hop);
    atoms := result.atoms;
    Collect(result, hop, limit, rest);
  }

  // ----- links whose target is not returned -----

  /** Every recorded link leads to a returned atom. */
  ghost predicate AllTargetsReturned(atoms: seq<Atom>, links: seq<Link>) {
    forall l :: l in links ==> l.target in IdsOf(atoms)
  }

  /** Every node found by following a link can be fetched. */
  ghost predicate LinkedNodesFetchable(g: Graph, start: Uuid, n: nat) {
    forall x :: x in Within(g, start, n) && x != start ==> Fetchable(g, x)
  }

  lemma {:induction false} LinksOfMembers(g: Graph, ids: seq<Uuid>, l: Link)
    ensures l in LinksOf(g, ids) <==> exists i :: 0 <= i < |ids| && l in LinksFrom(g, ids[i])
    decreases |ids|
  {
    if |ids| > 0 {
      var init, last := ids[..|ids| - 1], ids[|ids| - 1];
      LinksOfMembers(g, init, l);
      if l in LinksFrom(g, last) { assert l in LinksFrom(g, ids[|ids| - 1]); }
      if i :| 0 <= i < |init| && l in LinksFrom(g, init[i]) { assert l in LinksFrom(g, ids[i]); }
      if i :| 0 <= i < |ids| && l in LinksFrom(g, ids[i]) {
        if i < |init| { assert l in LinksFrom(g, init[i]); }
      }
    }
  }

  /** The links of the table out of these atoms, except those that lead nowhere or
      into another workspace. */
  ghost predicate AreTheLinks(g: Graph, ids: seq<Uuid>, links: seq<Link>) {
    forall l :: l in links <==>
      && l in g.links && l.source in ids
      && l.target in g.atoms && (g.ws.Some? ==> g.atoms[l.target].ws == g.ws)
  }

  lemma {:induction false} LinksOfAreTheLinks(g: Graph, ids: seq<Uuid>)
    ensures AreTheLinks(g, ids, LinksOf(g, ids))
  {
    forall l ensures l in LinksOf(g, ids) <==> l in g.links && l.source in ids && OfWorkspace(g, l.target) {
      LinksOfMembers(g, ids, l);
    }
  }

  /** A node in reach other than the start is one step behind a nearer one. */
  lemma {:induction false} HasPredecessor(g: Graph, start: Uuid, n: nat, x: Uuid) returns (y: Uuid)
    requires n > 0 && x in Within(g, start, n) && x != start
    ensures y in Within(g, start, n - 1) && Steps(g, y, x)
    decreases n
  {
    if x in Within(g, start, n - 1) {
      y := HasPredecessor(g, start, n - 1, x);
      WithinMonotone(g, start, n - 2, n - 1);
    } else {
      y := TargetHasSource(g, Within(g, start, n - 1), x);
    }
  }

  lemma {:induction false} UnfetchableStartIsAlone(g: Graph, start: Uuid, n: nat)
    requires !Fetchable(g, start)
    ensures Within(g, start, n) == {start}
    decreases n
  {
    if n > 0 {
      UnfetchableStartIsAlone(g, start, n - 1);
      NoTargets(g, {start}, |g.links|);
    }
  }

  /** Below the caps, with `ids` returned and those of `inner` expanded: every
      recorded link leads to a returned atom exactly when every linked node
      within the depth can be fetched. */
  lemma {:induction false} TargetsReturnedIff(g: Graph, start: Uuid, limit: nat, last: nat, ids: seq<Uuid>,
                                              inner: seq<Uuid>)
    requires limit == last + 1 && IsReach(g, start, limit, ids) && IsReach(g, start, last, inner)
    ensures (forall l :: l in LinksOf(g, inner) ==> l.target in ids) <==> LinkedNodesFetchable(g, start, limit)
  {
    if forall l :: l in LinksOf(g, inner) ==> l.target in ids {
      forall x | x in Within(g, start, limit) && x != start ensures Fetchable(g, x) {
        var y := HasPredecessor(g, start, limit, x);
        assert y in inner;
        var l :| l in LinksFrom(g, y) && l.target == x;
        var i :| 0 <= i < |inner| && inner[i] == y;
        LinksOfMembers(g, inner, l);
      }
    }
    if LinkedNodesFetchable(g, start, limit) {
      forall l | l in LinksOf(g, inner) ensures l.target in ids {
        LinksOfMembers(g, inner, l);
        var i :| 0 <= i < |inner| && l in LinksFrom(g, inner[i]);
        assert inner[i] in inner && Steps(g, inner[i], l.target);
        TargetsAreSteps(g, Within(g, start, last), inner[i], l.target);
        if !Fetchable(g, start) { UnfetchableStartIsAlone(g, start, last); }
      }
    }
  }

  lemma {:induction false} LinkTargetsMet(start: Uuid, links: seq<Link>, l: Link)
    requires l in links
    ensures l.target in Met(start, links)
  {
    TargetSetMembers(links);
  }

  /** More nodes met than the cap: some recorded link has lost its target. */
  lemma {:induction false} CapLosesTargets(start: Uuid, atoms: seq<Atom>, links: seq<Link>)
    requires |atoms| <= MAX_TRAVERSE_ATOMS && start in IdsOf(atoms) && !Fits(start, links)
    ensures !AllTargetsReturned(atoms, links)
  {
    var ids := IdsOf(atoms);
    if AllTargetsReturned(atoms, links) {
      TargetSetMembers(links);
      forall y | y in Met(start, links) ensures y in SetOf(ids) {
        if y != start { var l :| l in links && l.target == y; }
      }
      SubsetSize(Met(start, links), SetOf(ids));
      SetOfSize(ids);
    }
  }

  ghost predicate CapsDoNotBind(g: Graph, start: Uuid, depth: int) {
    |Within(g, start, Reach(depth))| <= 50
  }

  /** Everything in reach has been met when the nearer nodes were all expanded. */
  lemma {:induction false} AllMet(g: Graph, start: Uuid, limit: nat, last: nat, inner: seq<Uuid>)
    requires limit == last + 1 && IsReach(g, start, last, inner)
    ensures Within(g, start, limit) <= Met(start, LinksOf(g, inner))
  {
    forall x | x in Within(g, start, limit) && x != start ensures x in Met(start, LinksOf(g, inner)) {
      var y := HasPredecessor(g, start, limit, x);
      assert y in inner;
      var l :| l in LinksFrom(g, y) && l.target == x;
      var i :| 0 <= i < |inner| && inner[i] == y;
      LinksOfMembers(g, inner, l);
      LinkTargetsMet(start, LinksOf(g, inner), l);
    }
  }

  /** The nodes met fit under the cap exactly when the nodes in reach do. */
  lemma {:induction false} MetIsReach(g: Graph, start: Uuid, limit: nat, last: nat, inner: seq<Uuid>)
    requires limit == last + 1 && Met(start, LinksOf(g, inner)) <= Within(g, start, limit)
    requires Fits(start, LinksOf(g, inner)) ==> IsReach(g, start, last, inner)
    ensures Fits(start, LinksOf(g, inner)) <==> |Within(g, start, limit)| <= 50
  {
    SubsetSize(Met(start, LinksOf(g, inner)), Within(g, start, limit));
    if Fits(start, LinksOf(g, inner)) {
      AllMet(g, start, limit, last, inner);
      SubsetSize(Within(g, start, limit), Met(start, LinksOf(g, inner)));
    }
  }

  lemma {:induction false} NoneBroken(g: Graph, start: Uuid, last: nat, inner: seq<Uuid>)
    requires IsReach(g, start, last, inner) && forall x :: x in inner ==> x !in g.broken
    ensures !BrokenWithin(g, start, last)
  {
    forall x ensures !Breaks(g, start, last, x) {
      assert x in inner <==> Fetchable(g, x) && x in Within(g, start, last);
    }
  }

  /** When every recorded link leads to a returned atom, whatever the caps do. */
  lemma {:induction false} TargetsIff(g: Graph, start: Uuid, limit: nat, last: nat, atoms: seq<Atom>, inner: seq<Uuid>)
    requires limit == last + 1 && |atoms| <= MAX_TRAVERSE_ATOMS && (Fetchable(g, start) ==> start in IdsOf(atoms))
    requires Fits(start, LinksOf(g, inner)) <==> |Within(g, start, limit)| <= 50
    requires Fits(start, LinksOf(g, inner)) ==>
               IsReach(g, start, limit, IdsOf(atoms)) && IsReach(g, start, last, inner)
    ensures AllTargetsReturned(atoms, LinksOf(g, inner))
       <==> |Within(g, start, limit)| <= 50 && LinkedNodesFetchable(g, start, limit)
  {
    if Fits(start, LinksOf(g, inner)) {
      TargetsReturnedIff(g, start, limit, last, IdsOf(atoms), inner);
    } else if Fetchable(g, start) {
      CapLosesTargets(start, atoms, LinksOf(g, inner));
    } else {
      UnfetchableStartIsAlone(g, start, limit);
    }
  }

  /** The search. On every graph it returns at most fifty atoms, all different,
      none further than the clamped depth, with the links of a leading part of
      them. The start and the targets of those links number at most fifty if and
      only if the nodes in reach do. If so, it returns every fetchable one, nearest
      first, with exactly the links of those nearer than the depth, and fails
      exactly when one of those link queries fails. Every link leads to a returned
      atom if and only if no more than fifty nodes are in reach and all of them
      that a link leads to can be fetched. */
  method Traverse(g: Graph, start: Uuid, depth: int)
    returns (r: Outcome, atoms: seq<Atom>, links: seq<Link>, ghost expanded: nat)
    ensures |atoms| <= 50 && Distinct(IdsOf(atoms)) && expanded <= |atoms|
    ensures forall a :: a in atoms ==> a.id in Within(g, start, Reach(depth)) && IsRow(g, a)
    ensures links == LinksOf(g, IdsOf(atoms)[..expanded])
    ensures AreTheLinks(g, IdsOf(atoms)[..expanded], links)
    ensures CapsDoNotBind(g, start, depth) && r == Ok ==>
              && IsReach(g, start, Reach(depth), IdsOf(atoms))
              && IsReach(g, start, LinkReach(depth), IdsOf(atoms)[..expanded])
              && NearestFirst(g, start, IdsOf(atoms))
    ensures CapsDoNotBind(g, start, depth) ==> (r == LinkError <==> BrokenWithin(g, start, LinkReach(depth)))
    ensures r == Ok ==> (Fits(start, links) <==> CapsDoNotBind(g, start, depth))
    ensures r == Ok ==>
              (AllTargetsReturned(atoms, links)
               <==> CapsDoNotBind(g, start, depth) && LinkedNodesFetchable(g, start, Reach(depth)))
  {
    var limit := ClampDepth(depth);
    ghost var last := LinkReach(depth);
    var result := new TraverseResult(g, start);
    var queue;
    ghost var hop;
    r, queue, hop := SearchLevels(result, limit, last);
    if r == LinkError { return LinkError, [], [], 0; }
    assert GoesTo(hop, limit);
    links, expanded := result.links, |result.atoms|;
    ghost var inner := IdsOf(result.atoms);
    WithinMonotone(g, start, hop, limit);
    if result.Roomy() { InnerAtoms(g, start, inner, queue, hop, limit, last); }
    MetIsReach(g, start, limit, last, inner);
    if result.Roomy() { NoneBroken(g, start, last, inner); }
    atoms := FinishSearch(result, queue, hop, limit, inner);
    TakePrefix(inner, IdsOf(atoms));
    TargetsIff(g, start, limit, last, atoms, inner);
    LinksOfAreTheLinks(g, inner);
  }
}
