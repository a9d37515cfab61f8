/** The memory-atom graph as a store sees it: two tables, one workspace, and the
    reads that may fail. */
module AtomGraph {
  import opened Ids

  datatype AtomRow = AtomRow(ws: Option<Uuid>, content: string, createdAt: int)
  datatype Atom = Atom(id: Uuid, row: AtomRow)
  datatype Link = Link(source: Uuid, target: Uuid, linkType: string, createdAt: int)

  /** `unreadable` are the atoms whose read fails, `broken` those whose link
      query fails; both stay fixed for the length of one traversal. */
  datatype Graph = Graph(atoms: map<Uuid, AtomRow>, links: seq<Link>, ws: Option<Uuid>, unreadable: set<Uuid>,
                         broken: set<Uuid>)

  /** The row exists and is of the store's workspace, or of any for a store
      without one. */
  ghost predicate OfWorkspace(g: Graph, id: Uuid) {
    id in g.atoms && (g.ws.Some? ==> g.atoms[id].ws == g.ws)
  }

  ghost predicate Fetchable(g: Graph, id: Uuid) {
    OfWorkspace(g, id) && id !in g.unreadable
  }

  function GetAtomByID(g: Graph, id: Uuid): (r: Option<Atom>)
    ensures r == if Fetchable(g, id) then Some(Atom(id, g.atoms[id])) else None
  {
    if id in g.atoms && (g.ws == None || g.atoms[id].ws == g.ws) && id !in g.unreadable
    then Some(Atom(id, g.atoms[id]))
    else None
  }

  /** The outgoing links, joined with their targets. */
  function Select(links: seq<Link>, g: Graph, id: Uuid): (r: seq<Link>)
    ensures forall l {:trigger l in r} :: l in r <==> l in links && l.source == id && OfWorkspace(g, l.target)
  {
    if |links| == 0 then []
    else
      var init := Select(links[..|links| - 1], g, id);
      var l := links[|links| - 1];
      assert links == links[..|links| - 1] + [l];
      if l.source == id && l.target in g.atoms && (g.ws == None || g.atoms[l.target].ws == g.ws)
      then init + [l]
      else init
  }

  function LinksFrom(g: Graph, id: Uuid): seq<Link> {
    Select(g.links, g, id)
  }

  /** One step of the search: a link out of an atom that can be fetched, to one
      of the store's workspace. */
  ghost predicate Steps(g: Graph, x: Uuid, y: Uuid) {
    Fetchable(g, x) && OfWorkspace(g, y) && exists l :: l in g.links && l.source == x && l.target == y
  }

  ghost predicate LeadsFrom(g: Graph, s: set<Uuid>, l: Link) {
    l.source in s && Fetchable(g, l.source) && OfWorkspace(g, l.target)
  }

  /** The targets of the first `k` links. */
  ghost function TargetsUpTo(g: Graph, s: set<Uuid>, k: nat): set<Uuid>
    requires k <= |g.links|
  {
    if k == 0 then {}
    else TargetsUpTo(g, s, k - 1) + (if LeadsFrom(g, s, g.links[k - 1]) then {g.links[k - 1].target} else {})
  }

  /** What one step of the search reaches from a set of nodes. */
  ghost function Targets(g: Graph, s: set<Uuid>): set<Uuid> {
    TargetsUpTo(g, s, |g.links|)
  }

  lemma {:induction false} TargetsMembers(g: Graph, s: set<Uuid>, k: nat, y: Uuid)
    requires k <= |g.links|
    ensures y in TargetsUpTo(g, s, k) <==>
              exists i :: 0 <= i < k && LeadsFrom(g, s, g.links[i]) && g.links[i].target == y
    decreases k
  {
    if k > 0 {
      TargetsMembers(g, s, k - 1, y);
    }
  }

  lemma {:induction false} TargetsUnion(g: Graph, a: set<Uuid>, b: set<Uuid>, k: nat)
    requires k <= |g.links|
    ensures TargetsUpTo(g, a + b, k) == TargetsUpTo(g, a, k) + TargetsUpTo(g, b, k)
    decreases k
  {
    if k > 0 { TargetsUnion(g, a, b, k - 1); }
  }

  /** Nodes that cannot be fetched lead nowhere. */
  lemma {:induction false} NoTargets(g: Graph, s: set<Uuid>, k: nat)
    requires k <= |g.links| && forall x :: x in s ==> !Fetchable(g, x)
    ensures TargetsUpTo(g, s, k) == {}
    decreases k
  {
    if k > 0 { NoTargets(g, s, k - 1); }
  }

  lemma {:induction false} TargetsAreSteps(g: Graph, s: set<Uuid>, x: Uuid, y: Uuid)
    requires x in s && Steps(g, x, y)
    ensures y in Targets(g, s)
  {
    var l :| l in g.links && l.source == x && l.target == y;
    var i :| 0 <= i < |g.links| && g.links[i] == l;
    assert LeadsFrom(g, s, g.links[i]);
    TargetsMembers(g, s, |g.links|, y);
  }

  lemma {:induction false} TargetHasSource(g: Graph, s: set<Uuid>, y: Uuid) returns (x: Uuid)
    requires y in Targets(g, s)
    ensures x in s && Steps(g, x, y)
  {
    TargetsMembers(g, s, |g.links|, y);
    var i :| 0 <= i < |g.links| && LeadsFrom(g, s, g.links[i]) && g.links[i].target == y;
    x := g.links[i].source;
    assert g.links[i] in g.links;
  }

  /** Everything at most `n` links away from `start`. */
  ghost function Within(g: Graph, start: Uuid, n: nat): set<Uuid> {
    if n == 0 then {start} else Within(g, start, n - 1) + Targets(g, Within(g, start, n - 1))
  }

  /** A walk along links, from its first node to its last. */
  ghost predicate Walk(g: Graph, p: seq<Uuid>) {
    |p| > 0 && forall i :: 0 <= i < |p| - 1 ==> Steps(g, p[i], p[i + 1])
  }

  lemma {:induction false} WithinMonotone(g: Graph, start: Uuid, m: nat, n: nat)
    requires m <= n
    ensures Within(g, start, m) <= Within(g, start, n)
    decreases n
  {
    if m < n { WithinMonotone(g, start, m, n - 1); }
  }

  lemma WalkExtends(g: Graph, p: seq<Uuid>, x: Uuid)
    requires Walk(g, p) && Steps(g, p[|p| - 1], x)
    ensures Walk(g, p + [x])
  {
    var q := p + [x];
    forall i | 0 <= i < |q| - 1 ensures Steps(g, q[i], q[i + 1]) {
      if i < |p| - 1 { assert Steps(g, p[i], p[i + 1]); }
    }
  }

  lemma {:induction false} WalkTo(g: Graph, start: Uuid, n: nat, x: Uuid) returns (p: seq<Uuid>)
    requires x in Within(g, start, n)
    ensures Walk(g, p) && p[0] == start && p[|p| - 1] == x && |p| <= n + 1
    decreases n
  {
    if n == 0 {
      p := [start];
    } else if x in Within(g, start, n - 1) {
      p := WalkTo(g, start, n - 1, x);
    } else {
      var y := TargetHasSource(g, Within(g, start, n - 1), x);
      var q := WalkTo(g, start, n - 1, y);
      p := q + [x];
      WalkExtends(g, q, x);
    }
  }

  lemma {:induction false} WalkStays(g: Graph, start: Uuid, p: seq<Uuid>)
    requires Walk(g, p) && p[0] == start
    ensures p[|p| - 1] in Within(g, start, |p| - 1)
    decreases |p|
  {
    if |p| > 1 {
      var q := p[..|p| - 1];
      assert forall i :: 0 <= i < |q| - 1 ==> Steps(g, q[i], q[i + 1]) by {
        forall i | 0 <= i < |q| - 1 ensures Steps(g, q[i], q[i + 1]) { assert Steps(g, p[i], p[i + 1]); }
      }
      WalkStays(g, start, q);
      assert Steps(g, p[|p| - 2], p[|p| - 2 + 1]);
      TargetsAreSteps(g, Within(g, start, |p| - 2), p[|p| - 2], p[|p| - 1]);
    }
  }

  /** `Within` is distance: the nodes it holds are the ends of the walks of at
      most that many links. */
  lemma {:induction false} WithinIsWalkable(g: Graph, start: Uuid, n: nat, x: Uuid)
    ensures x in Within(g, start, n) <==>
            exists p :: Walk(g, p) && p[0] == start && p[|p| - 1] == x && |p| <= n + 1
    decreases n
  {
    if x in Within(g, start, n) {
      var p := WalkTo(g, start, n, x);
    }
    if exists p :: Walk(g, p) && p[0] == start && p[|p| - 1] == x && |p| <= n + 1 {
      var p :| Walk(g, p) && p[0] == start && p[|p| - 1] == x && |p| <= n + 1;
      WalkStays(g, start, p);
      WithinMonotone(g, start, |p| - 1, n);
    }
  }

  /** Once a level adds nothing, no later level does. */
  lemma {:induction false} WithinFixpoint(g: Graph, start: Uuid, m: nat, n: nat)
    requires m <= n && Within(g, start, m + 1) <= Within(g, start, m)
    ensures Within(g, start, n) <= Within(g, start, m)
    decreases n
  {
    if m < n {
      WithinFixpoint(g, start, m, n - 1);
      forall y | y in Targets(g, Within(g, start, n - 1)) ensures y in Within(g, start, m) {
        var x := TargetHasSource(g, Within(g, start, n - 1), y);
        TargetsAreSteps(g, Within(g, start, m), x, y);
      }
    }
  }

  /** The links of a list of atoms, in order. */
  function LinksOf(g: Graph, ids: seq<Uuid>): seq<Link> {
    if |ids| == 0 then [] else LinksOf(g, ids[..|ids| - 1]) + LinksFrom(g, ids[|ids| - 1])
  }
}
