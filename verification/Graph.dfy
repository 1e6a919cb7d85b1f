/** The knowledge graph's reads and writes: backend/core/graph/service.py. */
module Graph {
  import opened Prelude
  import opened GraphSchema

  datatype Origin = ByUser | ByAi | BySystem | Backfill
  datatype Node = Node(kind: NodeType, id: string)

  /** A row of the relationships table. */
  datatype Edge = Edge(
    id: nat, tenant: int, src: Node, relation: Relation, dst: Node,
    attributes: Option<string>, origin: Origin, deletedAt: Option<int>)

  datatype Outcome = Failed(error: GraphError) | Returned(edge: Edge)

  const MAX_DEPTH := 3

  // ---- The table ---------------------------------------------------------

  /** What a tenant's query of live edges sees. */
  predicate Live(e: Edge, tenant: int) {
    e.tenant == tenant && e.deletedAt.None?
  }

  predicate Matches(e: Edge, tenant: int, src: Node, r: Relation, dst: Node) {
    Live(e, tenant) && e.src == src && e.relation == r && e.dst == dst
  }

  /** The position of the live edge src --r--> dst, if there is one. */
  function FindLive(edges: seq<Edge>, tenant: int, src: Node, r: Relation, dst: Node): (i: Option<nat>)
    ensures i.Some? ==> i.value < |edges| && Matches(edges[i.value], tenant, src, r, dst)
    ensures i.None? ==> forall k :: 0 <= k < |edges| ==> !Matches(edges[k], tenant, src, r, dst)
  {
    if edges == [] then None
    else if Matches(edges[|edges| - 1], tenant, src, r, dst) then Some(|edges| - 1)
    else FindLive(edges[..|edges| - 1], tenant, src, r, dst)
  }

  /** The table after a permitted `link`; a new edge takes the next id. */
  function Stored(
      edges: seq<Edge>, tenant: int, src: Node, r: Relation, dst: Node, origin: Origin,
      attributes: Option<string>): seq<Edge>
  {
    var i := FindLive(edges, tenant, src, r, dst);
    if i.Some? then
      if attributes.Some? && attributes != edges[i.value].attributes
      then edges[i.value := edges[i.value].(attributes := attributes)] else edges
    else edges + [Edge(|edges|, tenant, src, r, dst, attributes, origin, None)]
  }

  function Linked(
      edges: seq<Edge>, tenant: Option<int>, src: Node, r: Relation, dst: Node, origin: Origin,
      attributes: Option<string>): seq<Edge>
  {
    if !Permitted(src.kind, r, dst.kind) || tenant.None? then edges
    else Stored(edges, tenant.value, src, r, dst, origin, attributes)
  }

  function Unlinked(edges: seq<Edge>, tenant: int, src: Node, r: Relation, dst: Node, now: int): seq<Edge> {
    var i := FindLive(edges, tenant, src, r, dst);
    if i.Some? then edges[i.value := edges[i.value].(deletedAt := Some(now))] else edges
  }

  /** At most one live edge per tenant and triple. */
  ghost predicate LiveUnique(edges: seq<Edge>) {
    forall i, j :: 0 <= i < j < |edges| && edges[i].deletedAt.None? && edges[j].deletedAt.None? ==>
      !SameTriple(edges[i], edges[j])
  }

  predicate SameTriple(a: Edge, b: Edge) {
    a.tenant == b.tenant && a.src == b.src && a.relation == b.relation && a.dst == b.dst
  }

  ghost predicate AllPermitted(edges: seq<Edge>) {
    forall i :: 0 <= i < |edges| ==> Permitted(edges[i].src.kind, edges[i].relation, edges[i].dst.kind)
  }

  ghost predicate IdsArePositions(edges: seq<Edge>) {
    forall i :: 0 <= i < |edges| ==> edges[i].id == i
  }

  ghost predicate TableOk(edges: seq<Edge>) {
    LiveUnique(edges) && AllPermitted(edges) && IdsArePositions(edges)
  }

  /** Rows are never lost, and a soft-deleted row never changes. */
  ghost predicate History(before: seq<Edge>, after: seq<Edge>) {
    |before| <= |after| && forall i :: 0 <= i < |before| ==>
      && SameTriple(before[i], after[i]) && before[i].id == after[i].id
      && (before[i].deletedAt.Some? ==> after[i] == before[i])
  }

  lemma StoredKeeps(
      edges: seq<Edge>, tenant: int, src: Node, r: Relation, dst: Node, origin: Origin, attributes: Option<string>)
    requires LiveUnique(edges) && IdsArePositions(edges)
    ensures var after := Stored(edges, tenant, src, r, dst, origin, attributes);
            LiveUnique(after) && IdsArePositions(after) && History(edges, after)
  {
  }

  lemma StoredPermitted(
      edges: seq<Edge>, tenant: int, src: Node, r: Relation, dst: Node, origin: Origin, attributes: Option<string>)
    requires AllPermitted(edges) && Permitted(src.kind, r, dst.kind)
    ensures AllPermitted(Stored(edges, tenant, src, r, dst, origin, attributes))
  {
    var after := Stored(edges, tenant, src, r, dst, origin, attributes);
    forall k | 0 <= k < |after| ensures Permitted(after[k].src.kind, after[k].relation, after[k].dst.kind) {
      assert k < |edges| ==> SameTriple(after[k], edges[k]);
    }
  }

  lemma LinkKeeps(
      edges: seq<Edge>, tenant: Option<int>, src: Node, r: Relation, dst: Node, origin: Origin,
      attributes: Option<string>)
    requires TableOk(edges)
    ensures TableOk(Linked(edges, tenant, src, r, dst, origin, attributes))
    ensures History(edges, Linked(edges, tenant, src, r, dst, origin, attributes))
  {
    if tenant.Some? && Permitted(src.kind, r, dst.kind) {
      StoredKeeps(edges, tenant.value, src, r, dst, origin, attributes);
      StoredPermitted(edges, tenant.value, src, r, dst, origin, attributes);
    }
  }

  lemma UnlinkKeeps(edges: seq<Edge>, tenant: int, src: Node, r: Relation, dst: Node, now: int)
    requires TableOk(edges)
    ensures TableOk(Unlinked(edges, tenant, src, r, dst, now))
    ensures History(edges, Unlinked(edges, tenant, src, r, dst, now))
    ensures FindLive(Unlinked(edges, tenant, src, r, dst, now), tenant, src, r, dst).None?
  {
    var i := FindLive(edges, tenant, src, r, dst);
    var after := Unlinked(edges, tenant, src, r, dst, now);
    if i.Some? {
      forall k | 0 <= k < |after| ensures !Matches(after[k], tenant, src, r, dst) {
        if k != i.value {
          assert after[k] == edges[k];
        }
      }
    }
  }

  /** A live match is the one the query finds. */
  lemma FindLiveFinds(edges: seq<Edge>, k: nat, tenant: int, src: Node, r: Relation, dst: Node)
    requires LiveUnique(edges) && k < |edges| && Matches(edges[k], tenant, src, r, dst)
    ensures FindLive(edges, tenant, src, r, dst) == Some(k)
  {
    var i := FindLive(edges, tenant, src, r, dst);
    assert SameTriple(edges[k], edges[i.value]) && SameTriple(edges[i.value], edges[k]);
  }

  /** Linking again changes nothing. */
  lemma LinkIdempotent(
      edges: seq<Edge>, tenant: Option<int>, src: Node, r: Relation, dst: Node, origin: Origin,
      attributes: Option<string>)
    requires TableOk(edges)
    ensures var once := Linked(edges, tenant, src, r, dst, origin, attributes);
            Linked(once, tenant, src, r, dst, origin, attributes) == once
  {
    LinkKeeps(edges, tenant, src, r, dst, origin, attributes);
    if tenant.Some? && Permitted(src.kind, r, dst.kind) {
      StoredIdempotent(edges, tenant.value, src, r, dst, origin, attributes);
    }
  }

  lemma StoredIdempotent(
      edges: seq<Edge>, tenant: int, src: Node, r: Relation, dst: Node, origin: Origin, attributes: Option<string>)
    requires LiveUnique(Stored(edges, tenant, src, r, dst, origin, attributes))
    ensures var once := Stored(edges, tenant, src, r, dst, origin, attributes);
            Stored(once, tenant, src, r, dst, origin, attributes) == once
  {
    var once, i := Stored(edges, tenant, src, r, dst, origin, attributes), FindLive(edges, tenant, src, r, dst);
    FindLiveFinds(once, if i.Some? then i.value else |edges|, tenant, src, r, dst);
  }

  datatype Action =
    | DoLink(src: Node, relation: Relation, dst: Node, origin: Origin, attributes: Option<string>, within: Option<int>)
    | DoUnlink(src: Node, relation: Relation, dst: Node, tenant: int, now: int)

  function Apply(edges: seq<Edge>, a: Action): seq<Edge> {
    match a
    case DoLink(src, r, dst, origin, attributes, within) => Linked(edges, within, src, r, dst, origin, attributes)
    case DoUnlink(src, r, dst, tenant, now) => Unlinked(edges, tenant, src, r, dst, now)
  }

  function Run(actions: seq<Action>): seq<Edge> {
    if actions == [] then [] else Apply(Run(actions[..|actions| - 1]), actions[|actions| - 1])
  }

  /** Over every run of links and unlinks the table keeps one live edge per triple, holds
      permitted triples only, and never rewrites history. */
  lemma {:induction false} RunKeeps(actions: seq<Action>, n: nat)
    requires n <= |actions|
    ensures TableOk(Run(actions)) && History(Run(actions[..n]), Run(actions))
  {
    if n == |actions| {
      assert actions[..n] == actions;
    }
    if actions != [] {
      var front, a := actions[..|actions| - 1], actions[|actions| - 1];
      RunKeeps(front, if n == |actions| then 0 else n);
      match a {
        case DoLink(src, r, dst, origin, attributes, within) =>
            LinkKeeps(Run(front), within, src, r, dst, origin, attributes);
        case DoUnlink(src, r, dst, tenant, now) => UnlinkKeeps(Run(front), tenant, src, r, dst, now);
      }
      if n < |actions| {
        assert front[..n] == actions[..n];
        HistoryChains(Run(actions[..n]), Run(front), Run(actions));
      }
    }
  }

  lemma HistoryChains(a: seq<Edge>, b: seq<Edge>, c: seq<Edge>)
    requires History(a, b) && History(b, c)
    ensures History(a, c)
  {
  }

  // ---- Neighbours --------------------------------------------------------

  datatype Side = Outward | Inward
  datatype Neighbor = Neighbor(node: Node, relation: Relation, side: Side, origin: Origin, attributes: Option<string>)

  function FromSrc(e: Edge): Neighbor {
    Neighbor(e.dst, e.relation, Outward, e.origin, e.attributes)
  }

  /** An inbound edge under its inverse name. */
  function FromDst(e: Edge): Neighbor
    requires InverseOf(e.relation).Some?
  {
    Neighbor(e.src, InverseOf(e.relation).value, Inward, e.origin, e.attributes)
  }

  predicate Wanted(relations: set<Relation>, r: Relation) {
    relations == {} || r in relations
  }

  function OutNeighbors(edges: seq<Edge>, tenant: int, n: Node, relations: set<Relation>): seq<Neighbor> {
    if edges == [] then []
    else
      var e := edges[|edges| - 1];
      OutNeighbors(edges[..|edges| - 1], tenant, n, relations)
      + (if Live(e, tenant) && e.src == n && Wanted(relations, e.relation) then [FromSrc(e)] else [])
  }

  function InNeighbors(edges: seq<Edge>, tenant: int, n: Node, relations: set<Relation>): seq<Neighbor>
    requires forall e :: e in edges ==> InverseOf(e.relation).Some?
  {
    if edges == [] then []
    else
      var e := edges[|edges| - 1];
      InNeighbors(edges[..|edges| - 1], tenant, n, relations)
      + (if Live(e, tenant) && e.dst == n && Wanted(relations, e.relation) then [FromDst(e)] else [])
  }

  lemma {:induction false} NeighborsAre(edges: seq<Edge>, tenant: int, n: Node, relations: set<Relation>)
    requires forall e :: e in edges ==> InverseOf(e.relation).Some?
    ensures forall x :: x in OutNeighbors(edges, tenant, n, relations) <==>
              exists e ::
                  e in edges && Live(e, tenant) && e.src == n && Wanted(relations, e.relation) && x == FromSrc(e)
    ensures forall x :: x in InNeighbors(edges, tenant, n, relations) <==>
              exists e ::
                  e in edges && Live(e, tenant) && e.dst == n && Wanted(relations, e.relation) && x == FromDst(e)
  {
    if edges != [] {
      var front, e := edges[..|edges| - 1], edges[|edges| - 1];
      NeighborsAre(front, tenant, n, relations);
      assert edges == front + [e];
    }
  }

  /** One stored edge reads correctly from both ends: m is an out-neighbour of n under r exactly
      when n is an in-neighbour of m under the inverse of r. */
  lemma BothEndsAgree(
      edges: seq<Edge>, tenant: int, n: Node, m: Node, r: Relation, origin: Origin, attributes: Option<string>)
    requires AllPermitted(edges) && InverseOf(r).Some?
    requires forall e :: e in edges ==> InverseOf(e.relation).Some?
    ensures Neighbor(m, r, Outward, origin, attributes) in OutNeighbors(edges, tenant, n, {}) <==>
              Neighbor(n, InverseOf(r).value, Inward, origin, attributes) in InNeighbors(edges, tenant, m, {})
  {
    NeighborsAre(edges, tenant, n, {});
    NeighborsAre(edges, tenant, m, {});
    var x, y :=
        Neighbor(m, r, Outward, origin, attributes), Neighbor(n, InverseOf(r).value, Inward, origin, attributes);
    InversePointsBack(r);
    if x in OutNeighbors(edges, tenant, n, {}) {
      var e :| e in edges && Live(e, tenant) && e.src == n && Wanted({}, e.relation) && x == FromSrc(e);
      assert y == FromDst(e);
    }
    if y in InNeighbors(edges, tenant, m, {}) {
      var e :| e in edges && Live(e, tenant) && e.dst == m && Wanted({}, e.relation) && y == FromDst(e);
      InversePointsBack(e.relation);
      assert x == FromSrc(e);
    }
  }

  lemma PermittedIsKnown(edges: seq<Edge>)
    requires AllPermitted(edges)
    ensures forall e :: e in edges ==> InverseOf(e.relation).Some?
  {
  }

  // ---- The bounded neighbourhood -----------------------------------------

  ghost function LiveSet(edges: seq<Edge>, tenant: int): set<Edge> {
    set e | e in edges && Live(e, tenant)
  }

  ghost function Incident(live: set<Edge>, nodes: set<Node>): set<Edge> {
    set e | e in live && (e.src in nodes || e.dst in nodes)
  }

  /** An edge, followed in either direction from some node of the set, arrives at x. */
  ghost predicate Leads(e: Edge, nodes: set<Node>, x: Node) {
    (e.src in nodes && e.dst == x) || (e.dst in nodes && e.src == x)
  }

  ghost function Lead(e: Edge, nodes: set<Node>): set<Node> {
    if e.src in nodes && e.dst in nodes then {e.src, e.dst}
    else if e.src in nodes then {e.dst}
    else if e.dst in nodes then {e.src}
    else {}
  }

  ghost function Pick(live: set<Edge>): (e: Edge)
    requires live != {}
    ensures e in live
  {
    var e :| e in live;
    e
  }

  /** The nodes together with everything one edge away, in either direction, gathered edge by edge. */
  ghost function Reach(live: set<Edge>, nodes: set<Node>): set<Node> {
    if live == {} then nodes
    else
      Reach(live - {Pick(live)}, nodes) + Lead(Pick(live), nodes)
  }

  lemma {:induction false} ReachIs(live: set<Edge>, nodes: set<Node>, x: Node)
    ensures x in Reach(live, nodes) <==> x in nodes || exists e :: e in live && Leads(e, nodes, x)
  {
    if live != {} {
      var e := Pick(live);
      ReachIs(live - {e}, nodes, x);
      assert x in Reach(live, nodes) <==> x in Reach(live - {e}, nodes) || Leads(e, nodes, x);
    }
  }

  /** The nodes at distance at most `radius` from `center`. */
  ghost function Ball(live: set<Edge>, center: Node, radius: nat): set<Node> {
    if radius == 0 then {center} else Reach(live, Ball(live, center, radius - 1))
  }

  ghost predicate Adjacent(live: set<Edge>, path: seq<Node>, i: nat)
    requires i + 1 < |path|
  {
    exists e :: e in live && Leads(e, {path[i]}, path[i + 1])
  }

  ghost predicate IsPath(live: set<Edge>, path: seq<Node>) {
    path != [] && forall i {:trigger Adjacent(live, path, i)} :: 0 <= i < |path| - 1 ==> Adjacent(live, path, i)
  }

  /** The ball is what paths of at most `radius` edges reach. */
  lemma {:induction false} PathStaysInBall(live: set<Edge>, path: seq<Node>)
    requires IsPath(live, path)
    ensures path[|path| - 1] in Ball(live, path[0], |path| - 1)
  {
    if |path| > 1 {
      var front, x := path[..|path| - 1], path[|path| - 1];
      forall i | 0 <= i < |front| - 1 ensures Adjacent(live, front, i) {
        assert Adjacent(live, path, i);
      }
      PathStaysInBall(live, front);
      var near := Ball(live, path[0], |path| - 2);
      assert Adjacent(live, path, |path| - 2);
      var e :| e in live && Leads(e, {path[|path| - 2]}, x);
      assert Leads(e, near, x);
      ReachIs(live, near, x);
    }
  }

  lemma {:induction false} BallHasPaths(live: set<Edge>, center: Node, radius: nat, x: Node) returns (path: seq<Node>)
    requires x in Ball(live, center, radius)
    ensures IsPath(live, path) && |path| <= radius + 1 && path[0] == center && path[|path| - 1] == x
  {
    if radius == 0 {
      return [x];
    }
    var near := Ball(live, center, radius - 1);
    ReachIs(live, near, x);
    if x in near {
      path := BallHasPaths(live, center, radius - 1, x);
    } else {
      var e :| e in live && Leads(e, near, x);
      var y := if e.src in near && e.dst == x then e.src else e.dst;
      var front := BallHasPaths(live, center, radius - 1, y);
      path := front + [x];
      assert Leads(e, {y}, x);
      forall i | 0 <= i < |path| - 1 ensures Adjacent(live, path, i) {
        assert i < |front| - 1 ==> Adjacent(live, front, i);
      }
    }
  }

  lemma {:induction false} BallGrows(small: set<Edge>, live: set<Edge>, center: Node, k: nat, n: nat)
    requires small <= live && k <= n
    ensures Ball(small, center, k) <= Ball(live, center, n)
    decreases n
  {
    if n > 0 {
      BallGrows(small, live, center, if k == 0 then 0 else k - 1, n - 1);
      ReachGrows(small, live, Ball(small, center, if k == 0 then 0 else k - 1), Ball(live, center, n - 1));
    }
  }

  /** A ball that reaches nothing new has stopped growing. */
  lemma {:induction false} BallStops(live: set<Edge>, center: Node, k: nat, n: nat)
    requires k <= n && Ball(live, center, k + 1) == Ball(live, center, k)
    ensures Ball(live, center, n) == Ball(live, center, k)
  {
    if k < n {
      BallStops(live, center, k, n - 1);
    }
  }

  lemma ReachUnion(live: set<Edge>, a: set<Node>, b: set<Node>)
    ensures Reach(live, a + b) == Reach(live, a) + Reach(live, b)
  {
    forall x ensures x in Reach(live, a + b) <==> x in Reach(live, a) || x in Reach(live, b) {
      ReachIs(live, a, x);
      ReachIs(live, b, x);
      ReachIs(live, a + b, x);
      assert forall e :: Leads(e, a + b, x) <==> Leads(e, a, x) || Leads(e, b, x);
    }
  }

  lemma ReachNothing(live: set<Edge>)
    ensures Reach(live, {}) == {}
  {
    forall x ensures x !in Reach(live, {}) {
      ReachIs(live, {}, x);
    }
  }

  lemma ReachGrows(small: set<Edge>, live: set<Edge>, a: set<Node>, b: set<Node>)
    requires small <= live && a <= b
    ensures a <= Reach(small, a) <= Reach(live, b)
  {
    forall x ensures (x in a ==> x in Reach(small, a)) && (x in Reach(small, a) ==> x in Reach(live, b)) {
      ReachIs(small, a, x);
      ReachIs(live, b, x);
      assert forall e :: Leads(e, a, x) ==> Leads(e, b, x);
    }
  }

  lemma IncidentSplits(live: set<Edge>, a: set<Node>, n: Node)
    ensures Incident(live, a + {n}) == Incident(live, a) + Incident(live, {n})
  {
  }

  predicate Touches(e: Edge, n: Node) {
    e.src == n || e.dst == n
  }

  function OtherEnd(e: Edge, n: Node): Node {
    if e.src == n then e.dst else e.src
  }

  ghost function Elements(rows: seq<Edge>): set<Edge> {
    set e | e in rows
  }

  /** The far ends of some edges touching n. */
  ghost function Ends(rows: seq<Edge>, n: Node): set<Node> {
    set e | e in rows :: OtherEnd(e, n)
  }

  lemma EndsSnoc(rows: seq<Edge>, i: nat, n: Node)
    requires i < |rows|
    ensures Ends(rows[..i + 1], n) == Ends(rows[..i], n) + {OtherEnd(rows[i], n)}
    ensures Elements(rows[..i + 1]) == Elements(rows[..i]) + {rows[i]}
    ensures Ends(rows[..i + 1], n) <= Ends(rows, n)
  {
    assert rows[..i + 1] == rows[..i] + [rows[i]];
    assert forall e :: e in rows[..i + 1] ==> e in rows;
  }

  /** One step from n is n and the far ends of its edges. */
  lemma ReachIsEnds(live: set<Edge>, rows: seq<Edge>, n: Node)
    requires Elements(rows) == Incident(live, {n})
    ensures Reach(live, {n}) == {n} + Ends(rows, n)
  {
    forall x ensures x in Reach(live, {n}) <==> x in {n} + Ends(rows, n) {
      ReachIs(live, {n}, x);
      assert forall e :: e in live && Leads(e, {n}, x) ==> e in Elements(rows) && (x == n || OtherEnd(e, n) == x);
      assert forall e :: e in rows ==> e in Elements(rows) && Leads(e, {n}, OtherEnd(e, n));
    }
  }

  function Clamped(depth: int): (d: nat)
    ensures 1 <= d <= MAX_DEPTH && (1 <= depth <= MAX_DEPTH ==> d == depth)
  {
    if depth < 1 then 1 else if depth > MAX_DEPTH then MAX_DEPTH else depth
  }

  function Cap(maxNodes: int): (cap: nat)
    ensures cap >= 1 && (maxNodes >= 1 ==> cap == maxNodes)
  {
    if maxNodes < 1 then 1 else maxNodes
  }

  lemma SubsetSmaller<T>(a: set<T>, b: set<T>)
    requires a <= b
    ensures |a| <= |b| && (|a| == |b| ==> a == b)
  {
    assert b == a + (b - a);
    assert a !! (b - a);
  }

  /** A Python slice from the start: a negative bound counts from the end. */
  function Upto<T>(s: seq<T>, limit: int): seq<T> {
    if limit >= |s| then s
    else if limit >= 0 then s[..limit]
    else if limit + |s| >= 0 then s[..limit + |s|]
    else []
  }

  /** The queue grew by exactly the nodes that were newly seen. */
  ghost predicate Queued(next: seq<Node>, seen: set<Node>, next': seq<Node>, seen': set<Node>) {
    forall x :: x in next' <==> x in next || x in seen' - seen
  }

  ghost function Nodes(s: seq<Node>): set<Node> {
    set x | x in s
  }

  /** The walk after `k` rounds: `done` has been expanded, the frontier not yet. */
  ghost predicate Walked(
      live: set<Edge>, center: Node, cap: nat, k: nat, seen: set<Node>, frontier: seq<Node>, kept: set<Edge>,
      done: set<Node>)
  {
    && (forall x :: x in seen <==> x in done || x in frontier) && center in seen && |seen| <= cap
    && kept == Incident(live, done)
    && seen <= Ball(kept, center, k)
  }

  /** Nothing was turned away: the nodes seen are the ball of radius k, those expanded the ball before. */
  ghost predicate Exact(live: set<Edge>, center: Node, k: nat, seen: set<Node>, done: set<Node>) {
    seen == Ball(live, center, k) && done == (if k == 0 then {} else Ball(live, center, k - 1))
  }

  /** What one expansion adds lies one step further out, through the edges kept by then. */
  lemma ExpansionStays(live: set<Edge>, rows: seq<Edge>, center: Node, k: nat, n: Node, kept: set<Edge>)
    requires Elements(rows) == Incident(live, {n}) && kept <= live && n in Ball(kept, center, k)
    ensures Ends(rows, n) <= Ball(kept + Elements(rows), center, k + 1)
    ensures Ball(kept, center, k + 1) <= Ball(kept + Elements(rows), center, k + 1) <= Ball(live, center, k + 1)
  {
    var more := kept + Elements(rows);
    BallGrows(kept, more, center, k + 1, k + 1);
    BallGrows(more, live, center, k + 1, k + 1);
    assert forall e :: e in rows ==> e in Elements(rows);
    StepOut(rows, center, k, n, kept, more);
  }

  lemma StepOut(rows: seq<Edge>, center: Node, k: nat, n: Node, kept: set<Edge>, more: set<Edge>)
    requires kept <= more && Elements(rows) <= more && n in Ball(kept, center, k)
    requires forall e :: e in rows ==> Touches(e, n)
    ensures Ends(rows, n) <= Ball(more, center, k + 1)
  {
    BallGrows(kept, more, center, k, k);
    forall x | x in Ends(rows, n) ensures x in Ball(more, center, k + 1) {
      var e :| e in rows && x == OtherEnd(e, n);
      assert e in Elements(rows);
      ReachIs(more, Ball(more, center, k), x);
      assert Leads(e, Ball(more, center, k), x);
    }
  }

  /** A frontier that came back empty: the ball has stopped growing. */
  lemma WalkEnds(live: set<Edge>, center: Node, depth: nat, k: nat)
    requires 0 < k <= depth && (k == depth || Ball(live, center, k) == Ball(live, center, k - 1))
    ensures Ball(live, center, k) == Ball(live, center, depth)
    ensures Ball(live, center, k - 1) == Ball(live, center, depth - 1)
  {
    if k < depth {
      BallStops(live, center, k - 1, depth);
      BallStops(live, center, k - 1, depth - 1);
    }
  }

  lemma WalkStarts(live: set<Edge>, center: Node, cap: nat)
    requires cap >= 1
    ensures Walked(live, center, cap, 0, {center}, [center], {}, {}) && Exact(live, center, 0, {center}, {})
  {
    assert Incident(live, {}) == {};
  }

  lemma NodesSnoc(s: seq<Node>, i: nat)
    requires i < |s|
    ensures Nodes(s[..i + 1]) == Nodes(s[..i]) + {s[i]} && s[i] in Nodes(s)
  {
    assert s[..i + 1] == s[..i] + [s[i]];
  }

  /** What the walk promises of its answer: it lies inside the ball and hangs together through
      its own edges, holds as many nodes as fit, and is exact when the ball fits. */
  ghost predicate IsStory(live: set<Edge>, center: Node, depth: nat, cap: nat, nodes: set<Node>, kept: set<Edge>)
    requires depth >= 1
  {
    var ball := Ball(live, center, depth);
    && center in nodes && kept <= live && nodes <= Ball(kept, center, depth) && nodes <= ball
    && |nodes| == (if |ball| <= cap then |ball| else cap)
    && (forall e :: e in kept ==> e.src in nodes || e.dst in nodes)
    && (|ball| <= cap ==> nodes == ball && kept == Incident(live, Ball(live, center, depth - 1)))
  }

  /** The walk's state after each round so far. */
  datatype Walk = Walk(seen: set<Node>, frontier: seq<Node>, kept: set<Edge>)

  /** The nodes expanded in the first k rounds are those seen before the last of them. */
  ghost function Expanded(trail: seq<Walk>, k: nat): set<Node>
    requires k <= |trail|
  {
    if k == 0 then {} else trail[k - 1].seen
  }

  ghost predicate WalkedAt(live: set<Edge>, center: Node, cap: nat, ball: set<Node>, trail: seq<Walk>, k: nat)
    requires k < |trail|
  {
    var w := trail[k];
    && Walked(live, center, cap, k, w.seen, w.frontier, w.kept, Expanded(trail, k))
    && (|ball| <= cap || |w.seen| < cap ==> Exact(live, center, k, w.seen, Expanded(trail, k)))
  }

  ghost predicate Trail(live: set<Edge>, center: Node, cap: nat, ball: set<Node>, trail: seq<Walk>) {
    forall k {:trigger WalkedAt(live, center, cap, ball, trail, k)} :: 0 <= k < |trail| ==>
        WalkedAt(live, center, cap, ball, trail, k)
  }

  lemma TrailSnoc(live: set<Edge>, center: Node, cap: nat, ball: set<Node>, trail: seq<Walk>, w: Walk)
    requires Trail(live, center, cap, ball, trail)
    requires Walked(live, center, cap, |trail|, w.seen, w.frontier, w.kept, Expanded(trail, |trail|))
    requires |ball| <= cap || |w.seen| < cap ==> Exact(live, center, |trail|, w.seen, Expanded(trail, |trail|))
    ensures Trail(live, center, cap, ball, trail + [w])
  {
    forall k | 0 <= k < |trail + [w]| ensures WalkedAt(live, center, cap, ball, trail + [w], k) {
      assert Expanded(trail + [w], k) == Expanded(trail, k);
      assert k < |trail| ==> WalkedAt(live, center, cap, ball, trail, k) && (trail + [w])[k] == trail[k];
    }
  }

  lemma RoundStarts(live: set<Edge>, center: Node, k: nat, w: Walk, done: set<Node>)
    requires w.kept == Incident(live, done) && w.seen <= Ball(w.kept, center, k)
    ensures w.kept <= live && w.seen <= Ball(w.kept, center, k + 1)
    ensures Nodes(w.frontier[..0]) == {} && Reach(live, {}) == {} && done + Nodes(w.frontier[..0]) == done
  {
    BallGrows(w.kept, w.kept, center, k, k + 1);
    ReachNothing(live);
  }

  lemma RoundEnds(live: set<Edge>, center: Node, cap: nat, ball: set<Node>, trail: seq<Walk>, w': Walk)
    requires trail != [] && Trail(live, center, cap, ball, trail)
    requires var k := |trail| - 1;
             var w := trail[k];
             && w'.kept == Incident(live, w.seen) && w.seen <= w'.seen <= Ball(w'.kept, center, k + 1)
             && |w.seen| <= |w'.seen| <= cap && Queued([], w.seen, w'.frontier, w'.seen)
             && (|ball| <= cap || |w'.seen| < cap ==> Reach(live, Nodes(w.frontier)) <= w'.seen)
    ensures Trail(live, center, cap, ball, trail + [w'])
  {
    var k := |trail| - 1;
    var w, done := trail[k], Expanded(trail, k);
    assert WalkedAt(live, center, cap, ball, trail, k);
    if |ball| <= cap || |w'.seen| < cap {
      RoundIsExact(live, center, k, w.seen, done, w.frontier, w'.seen, w'.kept);
    }
    TrailSnoc(live, center, cap, ball, trail, w');
  }

  lemma RoundIsExact(
      live: set<Edge>, center: Node, k: nat, seen: set<Node>, done: set<Node>, frontier: seq<Node>, seen': set<Node>,
      kept': set<Edge>)
    requires (forall x :: x in seen <==> x in done || x in frontier) && kept' <= live
        && seen <= seen' <= Ball(kept', center, k + 1)
    requires Exact(live, center, k, seen, done) && Reach(live, Nodes(frontier)) <= seen'
    ensures Exact(live, center, k + 1, seen', seen)
  {
    BallGrows(kept', live, center, k + 1, k + 1);
    assert seen == done + Nodes(frontier);
    ReachUnion(live, done, Nodes(frontier));
    ReachNothing(live);
    assert Reach(live, done) <= seen;
  }

  lemma TrailStarts(live: set<Edge>, center: Node, cap: nat, ball: set<Node>)
    requires cap >= 1
    ensures Trail(live, center, cap, ball, [Walk({center}, [center], {})])
  {
    WalkStarts(live, center, cap);
  }

  lemma WalkResult(live: set<Edge>, center: Node, cap: nat, depth: nat, trail: seq<Walk>, k: nat)
    requires 0 < k <= depth && k < |trail| && (k == depth || trail[k].frontier == [])
    requires Trail(live, center, cap, Ball(live, center, depth), trail)
    ensures IsStory(live, center, depth, cap, trail[k].seen, trail[k].kept)
  {
    var ball := Ball(live, center, depth);
    assert WalkedAt(live, center, cap, ball, trail, k);
    var seen, kept, done := trail[k].seen, trail[k].kept, Expanded(trail, k);
    BallGrows(kept, kept, center, k, depth);
    BallGrows(kept, live, center, depth, depth);
    SubsetSmaller(seen, ball);
    if |ball| <= cap || |seen| < cap {
      assert k == depth || seen == done;
      WalkEnds(live, center, depth, k);
    }
  }

  datatype Direction = OutOnly | InOnly | Both
  datatype NeighborsResult = NoNeighbors(error: GraphError) | Neighbors(found: seq<Neighbor>)
  datatype Story = NoStory(error: GraphError) | Story(nodes: set<Node>, edges: set<Edge>)

  class GraphStore {
    var edges: seq<Edge>

    ghost predicate Valid() reads this { TableOk(edges) }

    method Link(tenant: Option<int>, src: Node, r: Relation, dst: Node, origin: Origin, attributes: Option<string>)
      returns (outcome: Outcome)
      requires Valid()
      modifies this
      ensures Valid() && History(old(edges), edges)
      ensures edges == Linked(old(edges), tenant, src, r, dst, origin, attributes)
      ensures !Permitted(src.kind, r, dst.kind) ==> outcome == Failed(ValidateEdge(src.kind, r, dst.kind).value)
      ensures Permitted(src.kind, r, dst.kind) && tenant.None? ==> outcome == Failed(NoTenant)
      ensures Permitted(src.kind, r, dst.kind) && tenant.Some? ==>
                outcome.Returned? && outcome.edge in edges && Matches(outcome.edge, tenant.value, src, r, dst)
      ensures outcome.Returned? && attributes.Some? ==> outcome.edge.attributes == attributes
    {
      LinkKeeps(edges, tenant, src, r, dst, origin, attributes);
      var error := ValidateEdge(src.kind, r, dst.kind);
      if error.Some? {
        return Failed(error.value);
      }
      if tenant.None? {
        return Failed(NoTenant);
      }
      var edge := Store(tenant.value, src, r, dst, origin, attributes);
      return Returned(edge);
    }

    /** The live edge if there is one, refreshed with any new attributes; otherwise a new row. */
    method Store(tenant: int, src: Node, r: Relation, dst: Node, origin: Origin, attributes: Option<string>)
      returns (edge: Edge)
      modifies this
      ensures edges == Stored(old(edges), tenant, src, r, dst, origin, attributes)
      ensures edge in edges && Matches(edge, tenant, src, r, dst)
          && (attributes.Some? ==> edge.attributes == attributes)
    {
      var i := FindLive(edges, tenant, src, r, dst);
      if i.Some? {
        if attributes.Some? && attributes != edges[i.value].attributes {
          edges := edges[i.value := edges[i.value].(attributes := attributes)];
        }
        return edges[i.value];
      }
      edge := Edge(|edges|, tenant, src, r, dst, attributes, origin, None);
      edges := edges + [edge];
    }

    method Unlink(tenant: Option<int>, src: Node, r: Relation, dst: Node, now: int) returns (removed: Option<bool>)
      requires Valid()
      modifies this
      ensures Valid() && History(old(edges), edges)
      ensures tenant.None? ==> removed == None && edges == old(edges)
      ensures tenant.Some? ==>
                && removed == Some(exists e :: e in old(edges) && Matches(e, tenant.value, src, r, dst))
                && edges == Unlinked(old(edges), tenant.value, src, r, dst, now)
                && !exists e :: e in edges && Matches(e, tenant.value, src, r, dst)
    {
      if tenant.None? {
        return None;
      }
      UnlinkKeeps(edges, tenant.value, src, r, dst, now);
      var i := FindLive(edges, tenant.value, src, r, dst);
      if i.None? {
        return Some(false);
      }
      assert edges[i.value] in edges;
      edges := edges[i.value := edges[i.value].(deletedAt := Some(now))];
      return Some(true);
    }

    static method Outbound(rows: seq<Edge>, tenant: int, node: Node, relations: set<Relation>)
      returns (out: seq<Neighbor>)
      ensures out == OutNeighbors(rows, tenant, node, relations)
    {
      out := [];
      for i := 0 to |rows|
        invariant out == OutNeighbors(rows[..i], tenant, node, relations)
      {
        assert rows[..i + 1][..i] == rows[..i];
        var e := rows[i];
        if Live(e, tenant) && e.src == node && Wanted(relations, e.relation) {
          out := out + [FromSrc(e)];
        }
      }
      assert rows[..|rows|] == rows;
    }

    static method Inbound(rows: seq<Edge>, tenant: int, node: Node, relations: set<Relation>)
      returns (out: seq<Neighbor>)
      requires forall e :: e in rows ==> InverseOf(e.relation).Some?
      ensures out == InNeighbors(rows, tenant, node, relations)
    {
      out := [];
      for i := 0 to |rows|
        invariant out == InNeighbors(rows[..i], tenant, node, relations)
      {
        assert rows[..i + 1][..i] == rows[..i];
        var e := rows[i];
        if Live(e, tenant) && e.dst == node && Wanted(relations, e.relation) {
          out := out + [FromDst(e)];
        }
      }
      assert rows[..|rows|] == rows;
    }

    method NeighborsOf(tenant: Option<int>, node: Node, relations: set<Relation>, direction: Direction, limit: int)
      returns (r: NeighborsResult)
      requires Valid()
      ensures tenant.None? ==> r == NoNeighbors(NoTenant)
      ensures forall e :: e in edges ==> InverseOf(e.relation).Some?
      ensures tenant.Some? ==>
                r == Neighbors(Upto(
                  (if direction != InOnly then OutNeighbors(edges, tenant.value, node, relations) else [])
                  + (if direction != OutOnly then InNeighbors(edges, tenant.value, node, relations) else []), limit))
    {
      PermittedIsKnown(edges);
      if tenant.None? {
        return NoNeighbors(NoTenant);
      }
      var rows := edges;
      var outbound, inbound := [], [];
      if direction != InOnly {
        outbound := Outbound(rows, tenant.value, node, relations);
      }
      if direction != OutOnly {
        inbound := Inbound(rows, tenant.value, node, relations);
      }
      return Neighbors(Upto(outbound + inbound, limit));
    }

    method Query(tenant: int, n: Node) returns (rows: seq<Edge>)
      ensures Elements(rows) == Incident(LiveSet(edges, tenant), {n})
    {
      rows := [];
      for i := 0 to |edges|
        invariant forall e :: e in rows <==> e in edges[..i] && Live(e, tenant) && Touches(e, n)
      {
        assert forall e :: e in edges[..i + 1] <==> e in edges[..i] || e == edges[i];
        if Live(edges[i], tenant) && Touches(edges[i], n) {
          rows := rows + [edges[i]];
        }
      }
      assert edges[..|edges|] == edges;
    }

    /** One node of the frontier: its rows are kept, its unseen neighbours queued while there
        is room. `bound` is any set the walk must stay inside. */
    static method Expand(
        rows: seq<Edge>, n: Node, maxNodes: int, seen: set<Node>, next: seq<Node>, kept: set<Edge>,
        ghost bound: set<Node>)
      returns (seen': set<Node>, next': seq<Node>, kept': set<Edge>)
      requires |seen| <= Cap(maxNodes) && seen != {} && seen + Ends(rows, n) <= bound
      ensures kept' == kept + Elements(rows)
      ensures seen <= seen' <= seen + Ends(rows, n) && |seen| <= |seen'| <= Cap(maxNodes)
      ensures Queued(next, seen, next', seen')
      ensures |bound| <= Cap(maxNodes) || |seen'| < Cap(maxNodes) ==> Ends(rows, n) <= seen'
    {
      seen', next', kept' := seen, next, kept;
      ghost var ends: set<Node> := {};
      for i := 0 to |rows|
        invariant ends == Ends(rows[..i], n) && ends <= Ends(rows, n)
        invariant kept' == kept + Elements(rows[..i])
        invariant seen <= seen' <= seen + ends && |seen| <= |seen'| <= Cap(maxNodes)
        invariant Queued(next, seen, next', seen')
        invariant |bound| <= Cap(maxNodes) || |seen'| < Cap(maxNodes) ==> ends <= seen'
      {
        var e := rows[i];
        EndsSnoc(rows, i, n);
        ends := ends + {OtherEnd(e, n)};
        kept' := kept' + {e};
        seen', next' := Offer(OtherEnd(e, n), maxNodes, seen', next', bound, next, seen);
      }
      assert rows[..|rows|] == rows;
    }

    /** One breadth-first round over the whole frontier. */
    method ExpandAll(
        tenant: int, maxNodes: int, w: Walk, ghost center: Node, ghost k: nat, ghost ball: set<Node>,
        ghost done: set<Node>)
      returns (w': Walk)
      requires Ball(LiveSet(edges, tenant), center, k + 1) <= ball
      requires Walked(LiveSet(edges, tenant), center, Cap(maxNodes), k, w.seen, w.frontier, w.kept, done)
      ensures w'.kept == Incident(LiveSet(edges, tenant), w.seen) && w.seen <= w'.seen <= Ball(w'.kept, center, k + 1)
      ensures |w.seen| <= |w'.seen| <= Cap(maxNodes) && Queued([], w.seen, w'.frontier, w'.seen)
      ensures |ball| <= Cap(maxNodes) || |w'.seen| < Cap(maxNodes) ==>
          Reach(LiveSet(edges, tenant), Nodes(w.frontier)) <= w'.seen
    {
      ghost var live := LiveSet(edges, tenant);
      ghost var expanded := done;
      var frontier, seen, next, kept := w.frontier, w.seen, [], w.kept;
      RoundStarts(live, center, k, w, done);
      for i := 0 to |frontier|
        invariant expanded == done + Nodes(frontier[..i])
        invariant w.kept <= kept && kept == Incident(live, expanded)
        invariant w.seen <= seen && |w.seen| <= |seen| <= Cap(maxNodes)
        invariant Queued([], w.seen, next, seen)
        invariant seen <= Ball(kept, center, k + 1)
        invariant |ball| <= Cap(maxNodes) || |seen| < Cap(maxNodes) ==> Reach(live, Nodes(frontier[..i])) <= seen
      {
        var n := frontier[i];
        NodesSnoc(frontier, i);
        IncidentSplits(live, expanded, n);
        ReachUnion(live, Nodes(frontier[..i]), {n});
        var rows := Query(tenant, n);
        BallGrows(w.kept, kept, center, k, k);
        ExpansionStays(live, rows, center, k, n, kept);
        ReachIsEnds(live, rows, n);
        seen, next, kept := Expand(rows, n, maxNodes, seen, next, kept, ball);
        expanded := expanded + {n};
      }
      assert frontier[..|frontier|] == frontier;
      assert expanded == w.seen;
      w' := Walk(seen, next, kept);
    }

    method Round(tenant: int, maxNodes: int, w: Walk, ghost center: Node, ghost depth: nat, ghost trail: seq<Walk>)
      returns (w': Walk)
      requires 0 < |trail| <= depth && trail[|trail| - 1] == w
      requires Trail(LiveSet(edges, tenant), center, Cap(maxNodes), Ball(LiveSet(edges, tenant), center, depth), trail)
      ensures Trail(LiveSet(edges, tenant), center, Cap(maxNodes), Ball(LiveSet(edges, tenant), center, depth),
          trail + [w'])
    {
      ghost var live := LiveSet(edges, tenant);
      ghost var ball, k := Ball(live, center, depth), |trail| - 1;
      BallGrows(live, live, center, k + 1, depth);
      assert WalkedAt(live, center, Cap(maxNodes), ball, trail, k);
      w' := ExpandAll(tenant, maxNodes, w, center, k, ball, Expanded(trail, k));
      RoundEnds(live, center, Cap(maxNodes), ball, trail, w');
    }

    /** The bounded breadth-first walk around a node. */
    method Subgraph(tenant: Option<int>, node: Node, depth: int, maxNodes: int) returns (r: Story)
      ensures tenant.None? ==> r == NoStory(NoTenant)
      ensures tenant.Some? ==>
          r.Story? && IsStory(LiveSet(edges, tenant.value), node, Clamped(depth), Cap(maxNodes), r.nodes, r.edges)
    {
      if tenant.None? {
        return NoStory(NoTenant);
      }
      ghost var live := LiveSet(edges, tenant.value);
      var w := Walk({node}, [node], {});
      ghost var trail := [w];
      TrailStarts(live, node, Cap(maxNodes), Ball(live, node, Clamped(depth)));
      var k := 0;
      while k < Clamped(depth)
        invariant k <= Clamped(depth) && |trail| == k + 1 && trail[k] == w
        invariant Trail(live, node, Cap(maxNodes), Ball(live, node, Clamped(depth)), trail)
      {
        w := Round(tenant.value, maxNodes, w, node, Clamped(depth), trail);
        k, trail := k + 1, trail + [w];
        if w.frontier == [] {
          break;
        }
      }
      WalkResult(live, node, Cap(maxNodes), Clamped(depth), trail, k);
      return Story(w.seen, w.kept);
    }

    /** Queue a neighbour unless it was seen or the node set is full. */
    static method Offer(
        other: Node, maxNodes: int, seen: set<Node>, next: seq<Node>, ghost bound: set<Node>, ghost next0: seq<Node>,
        ghost seen0: set<Node>)
      returns (seen': set<Node>, next': seq<Node>)
      requires |seen| <= Cap(maxNodes) && seen != {} && seen <= bound && other in bound
      requires seen0 <= seen && Queued(next0, seen0, next, seen)
      ensures seen <= seen' <= seen + {other} && |seen| <= |seen'| <= Cap(maxNodes)
      ensures Queued(next0, seen0, next', seen')
      ensures |bound| <= Cap(maxNodes) || |seen'| < Cap(maxNodes) ==> other in seen'
    {
      seen', next' := seen, next;
      if other !in seen && |seen| < maxNodes {
        seen', next' := seen + {other}, next + [other];
      } else if other !in seen {
        SubsetSmaller(seen + {other}, bound);
      }
    }
  }
}
