/** What single requests to the knowledge graph do and read: backend/core/graph/service.py, row by
    row. */
module GraphEffects {
  import opened Prelude
  import opened GraphSchema
  import opened Graph

  /** The row is the tenant's live edge of the triple. */
  predicate IsLiveEdge(e: Edge, tenant: int, src: Node, r: Relation, dst: Node) {
    e.tenant == tenant && e.src == src && e.relation == r && e.dst == dst && e.deletedAt == None
  }

  /** A permitted link adds one live row as it was asked for; when the triple has a live row already
      that row takes the new attributes, if any, and keeps its origin. Nothing else changes. */
  lemma LinkEffects(
      edges: seq<Edge>, tenant: int, src: Node, r: Relation, dst: Node, origin: Origin, attributes: Option<string>)
    requires TableOk(edges) && Permitted(src.kind, r, dst.kind)
    ensures var after := Linked(edges, Some(tenant), src, r, dst, origin, attributes);
            && ((forall k :: 0 <= k < |edges| ==> !IsLiveEdge(edges[k], tenant, src, r, dst)) ==>
                  after == edges + [Edge(|edges|, tenant, src, r, dst, attributes, origin, None)])
            && (forall k :: 0 <= k < |edges| && IsLiveEdge(edges[k], tenant, src, r, dst) ==>
                  var newest := if attributes.Some? then attributes else edges[k].attributes;
                  after == edges[k := edges[k].(attributes := newest)])
  {
    forall k | 0 <= k < |edges| && IsLiveEdge(edges[k], tenant, src, r, dst)
      ensures FindLive(edges, tenant, src, r, dst) == Some(k)
    {
      FindLiveFinds(edges, k, tenant, src, r, dst);
    }
  }

  /** Without a tenant, or for a triple that is not permitted, a link changes nothing. */
  lemma LinkRefused(
      edges: seq<Edge>, tenant: Option<int>, src: Node, r: Relation, dst: Node, origin: Origin,
      attributes: Option<string>)
    requires tenant.None? || ValidateEdge(src.kind, r, dst.kind).Some?
    ensures Linked(edges, tenant, src, r, dst, origin, attributes) == edges
  {
  }

  /** An unlink stamps the live row with the time of its deletion and changes nothing else. */
  lemma UnlinkEffects(edges: seq<Edge>, tenant: int, src: Node, r: Relation, dst: Node, now: int)
    requires TableOk(edges)
    ensures var after := Unlinked(edges, tenant, src, r, dst, now);
            && ((forall k :: 0 <= k < |edges| ==> !IsLiveEdge(edges[k], tenant, src, r, dst)) ==> after == edges)
            && (forall k :: 0 <= k < |edges| && IsLiveEdge(edges[k], tenant, src, r, dst) ==>
                  after == edges[k := edges[k].(deletedAt := Some(now))])
  {
    forall k | 0 <= k < |edges| && IsLiveEdge(edges[k], tenant, src, r, dst)
      ensures FindLive(edges, tenant, src, r, dst) == Some(k)
    {
      FindLiveFinds(edges, k, tenant, src, r, dst);
    }
  }

  /** Without a choice of relations every relation is asked for. */
  predicate IsAsked(relations: set<Relation>, r: Relation) {
    relations == {} || r in relations
  }

  /** Outward neighbours come in the order of the rows, one for each live row of the tenant from the
      node whose stored relation is asked for: the far end, under that relation. */
  lemma {:induction false} OutwardAre(
      edges: seq<Edge>, more: seq<Edge>, tenant: int, n: Node, relations: set<Relation>)
    ensures OutNeighbors(edges + more, tenant, n, relations) ==
              OutNeighbors(edges, tenant, n, relations) + OutNeighbors(more, tenant, n, relations)
    ensures |edges| == 1 ==>
              var e := edges[0];
              OutNeighbors(edges, tenant, n, relations) ==
                if e.tenant == tenant && e.deletedAt == None && e.src == n && IsAsked(relations, e.relation)
                then [Neighbor(e.dst, e.relation, Outward, e.origin, e.attributes)] else []
  {
    if |edges| == 1 {
      assert edges[..0] == [];
    }
    if more == [] {
      assert edges + more == edges;
    } else {
      var front := more[..|more| - 1];
      OutwardAre(edges, front, tenant, n, relations);
      assert (edges + more)[..|edges + more| - 1] == edges + front;
    }
  }

  /** Inward neighbours likewise: the near end, under the inverse of the stored relation. */
  lemma {:induction false} InwardAre(
      edges: seq<Edge>, more: seq<Edge>, tenant: int, n: Node, relations: set<Relation>)
    requires forall e :: e in edges ==> InverseOf(e.relation).Some?
    requires forall e :: e in more ==> InverseOf(e.relation).Some?
    ensures forall e :: e in edges + more ==> InverseOf(e.relation).Some?
    ensures InNeighbors(edges + more, tenant, n, relations) ==
              InNeighbors(edges, tenant, n, relations) + InNeighbors(more, tenant, n, relations)
    ensures |edges| == 1 ==>
              var e := edges[0];
              InNeighbors(edges, tenant, n, relations) ==
                if e.tenant == tenant && e.deletedAt == None && e.dst == n && IsAsked(relations, e.relation)
                then [Neighbor(e.src, InverseOf(e.relation).value, Inward, e.origin, e.attributes)] else []
  {
    if |edges| == 1 {
      assert edges[..0] == [];
    }
    if more == [] {
      assert edges + more == edges;
    } else {
      var front := more[..|more| - 1];
      InwardAre(edges, front, tenant, n, relations);
      assert (edges + more)[..|edges + more| - 1] == edges + front;
    }
  }

  /** A limit takes that many from the front; below zero it leaves that many off the end. */
  lemma LimitIs<T>(s: seq<T>, t: seq<T>)
    ensures Upto(s + t, |s|) == s
    ensures Upto(s, |s| + |t|) == s
    ensures t != [] ==> Upto(s + t, -|t|) == s
    ensures s != [] ==> Upto(s, -|s| - |t|) == []
  {
  }

  /** The depth is brought into one to three, and at least the node itself has room. */
  lemma DepthAndRoom(depth: int, maxNodes: int)
    ensures depth <= 1 ==> Clamped(depth) == 1
    ensures depth == 2 ==> Clamped(depth) == 2
    ensures depth >= 3 ==> Clamped(depth) == 3
    ensures maxNodes <= 1 ==> Cap(maxNodes) == 1
    ensures maxNodes >= 1 ==> Cap(maxNodes) == maxNodes
  {
  }

  /** Two nodes are one step apart exactly when a live row of the tenant joins them, either way. */
  lemma OneStepIs(edges: seq<Edge>, tenant: int, n: Node, m: Node)
    ensures m in Ball(LiveSet(edges, tenant), n, 1) <==>
              m == n || exists e :: e in edges && Joins(e, tenant, n, m)
  {
    var live := LiveSet(edges, tenant);
    assert Ball(live, n, 0) == {n};
    ReachIs(live, {n}, m);
    forall e ensures e in live && Leads(e, {n}, m) <==> e in edges && Joins(e, tenant, n, m) {}
  }

  predicate Joins(e: Edge, tenant: int, n: Node, m: Node) {
    e.tenant == tenant && e.deletedAt == None && ((e.src == n && e.dst == m) || (e.src == m && e.dst == n))
  }
}
