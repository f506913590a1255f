/** `simple_merge(kg1, kg2)`: a deep copy of kg1 to which every attribute
    triple of kg2 is added, then every relation quadruple of kg2. */
module Merge {

  import opened Types
  import opened Counter
  import opened Multigraph
  import opened Ontology
  import opened KG

  // ---------------------------------------------------------------------
  // What a merge produces

  /** The triples ts list exactly the attributes of the node map n. */
  ghost predicate Lists(ts: seq<AttributeTriple>, n: map<Entity, Attrs>)
  {
    forall t :: t in ts <==> t.entity in n && t.attr in n[t.entity] && n[t.entity][t.attr] == t.value
  }

  /** e is an entity of the merge: an entity of kg1, or an entity of kg2
      that carries at least one attribute (an entity of kg2 without
      attributes yields no triple). */
  ghost predicate InMerge(n1: map<Entity, Attrs>, n2: map<Entity, Attrs>, e: Entity)
  {
    e in n1 || (e in n2 && n2[e] != map[])
  }

  /** Both ends of every edge of kg2 are entities of the merge. */
  ghost predicate EndsMerged(n1: map<Entity, Attrs>, g2: Graph)
  {
    forall k :: k in g2.edges ==> InMerge(n1, g2.nodes, k.head) && InMerge(n1, g2.nodes, k.tail)
  }

  /** r holds the merged entities, each with kg1's attributes overridden by
      kg2's where both have one. */
  ghost predicate MergedNodesOf(r: map<Entity, Attrs>, n1: map<Entity, Attrs>, n2: map<Entity, Attrs>)
  {
    && (forall e :: e in r <==> InMerge(n1, n2, e))
    && (forall e :: e in r ==> r[e] == AttrsAt(n1, e) + AttrsAt(n2, e))
  }

  /** r holds the union of both edge sets, kg2's attributes overriding
      kg1's on an edge slot the two share. */
  ghost predicate MergedEdgesOf(r: map<EdgeKey, Attrs>, e1: map<EdgeKey, Attrs>, e2: map<EdgeKey, Attrs>)
  {
    && (forall k :: k in r <==> k in e1 || k in e2)
    && (forall k :: k in r ==> r[k] == AttrsAt(e1, k) + AttrsAt(e2, k))
  }

  /** A canonical listing of a set, used to name the merge's ontology
      without fixing the order in which the source iterates the set. */
  ghost function SeqOf(s: set<AttributeTriple>): (r: seq<AttributeTriple>)
    ensures multiset(r) == multiset(s)
    decreases s
  {
    if s == {} then []
    else
      var x :| x in s;
      var r := SeqOf(s - {x}) + [x];
      assert multiset(s) == multiset(s - {x}) + multiset{x};
      r
  }

  /** The ontology of the merge: kg1's, plus the type moves kg2's triples
      cause on kg1's graph, plus one count per kg2 edge under the types of
      the merged nodes. */
  ghost function MergedOntology(g1: Graph, c1: Counter, g2: Graph, nodes: map<Entity, Attrs>): Counter
  {
    AddAll(Update(c1, TypeDelta(g1, SeqOf(TriplesOf(g2.nodes)))), QuadPatterns(nodes, QuadsAt(g2, g2.order)))
  }

  // ---------------------------------------------------------------------
  // The merge

  /** Iterating a set: each element once, in an order left open. */
  method Enumerate(s: set<AttributeTriple>) returns (xs: seq<AttributeTriple>)
    ensures multiset(xs) == multiset(s)
  {
    xs := [];
    var rest := s;
    while rest != {}
      invariant rest <= s
      invariant multiset(xs) + multiset(rest) == multiset(s)
      decreases |rest|
    {
      var x :| x in rest;
      assert multiset(rest) == multiset(rest - {x}) + multiset{x};
      xs := xs + [x];
      rest := rest - {x};
    }
  }

  /** `simple_merge(kg1, kg2)`. Neither argument is modified. The result is
      a new graph; LookupError is raised when some edge of kg2 has an end
      that carries no attribute in kg2 and is not an entity of kg1. */
  method SimpleMerge(kg1: KnowledgeGraph, kg2: KnowledgeGraph) returns (r: Result<KnowledgeGraph>)
    requires kg1.Valid() && kg2.Valid()
    ensures r.Ok? <==> EndsMerged(kg1.mdg.nodes, kg2.mdg)
    ensures r.Err? ==> r.error.EntityNotFound? && r.error.entity in kg2.mdg.nodes
                       && !InMerge(kg1.mdg.nodes, kg2.mdg.nodes, r.error.entity)
    ensures r.Ok? ==> fresh(r.value) && r.value.Valid()
    ensures r.Ok? ==> MergedNodesOf(r.value.mdg.nodes, kg1.mdg.nodes, kg2.mdg.nodes)
    ensures r.Ok? ==> MergedEdgesOf(r.value.mdg.edges, kg1.mdg.edges, kg2.mdg.edges)
    ensures r.Ok? ==> r.value.ontology == MergedOntology(kg1.mdg, kg1.ontology, kg2.mdg, r.value.mdg.nodes)
    ensures r.Ok? ==> Total(r.value.ontology) == Total(kg1.ontology) + |kg2.mdg.edges|
    ensures r.Ok? ==> r.value.Relations() == kg1.Relations() + kg2.Relations()
  {
    ghost var g1, c1, g2, c2 := kg1.mdg, kg1.ontology, kg2.mdg, kg2.ontology;
    var merged := new KnowledgeGraph.Copy(kg1);
    assert merged != kg1 && merged != kg2;
    var trips := kg2.AttributeTriples(None).value;
    var quads := kg2.RelationQuadruples(None, None);
    assert trips == TriplesOf(g2.nodes);
    assert quads == QuadsAt(g2, g2.order);
    var tripSeq := Enumerate(trips);
    Replay(g1, c1, g2, tripSeq);
    merged.AddAttributeTriples(tripSeq);
    assert kg2.mdg == g2 && kg2.ontology == c2;
    var outcome := merged.AddRelationQuadruples(quads);
    assert kg1.mdg == g1 && kg1.ontology == c1 && kg2.mdg == g2 && kg2.ontology == c2;
    if outcome.Fail? {
      return Err(outcome.error);
    }
    return Ok(merged);
  }

  /** Merging is not re-ingesting. A store built from a quadruple batch that
      lists the same quadruple twice keeps one edge but counts its pattern
      twice; merging that store into an empty one replays the single stored
      edge and counts it once. So `simple_merge(KnowledgeGraph(), kgB)`
      differs from kgB although both hold the same facts. */
  lemma MergeUndercountsReAdded(trips: seq<AttributeTriple>, q: RelationQuadruple, nodes: map<Entity, Attrs>)
    requires q.head in AddNodesFrom(Empty(), NodesOf(trips)).nodes
    requires q.tail in AddNodesFrom(Empty(), NodesOf(trips)).nodes
    ensures var g0 := AddNodesFrom(Empty(), NodesOf(trips));
            var gB := AddEdgesFrom(g0, EdgesOf([q, q]));
            var built := AddAll(map[], QuadPatterns(g0.nodes, [q, q]));
            && gB.order == [EdgeKey(q.head, q.tail, q.rel)]
            && Get(built, QuadPattern(g0.nodes, q)) == 2
            && Total(built) == 2
            && Total(MergedOntology(Empty(), map[], gB, nodes)) == 1
  {
    var g0 := AddNodesFrom(Empty(), NodesOf(trips));
    var gB := AddEdgesFrom(g0, EdgesOf([q, q]));
    SameEdgeTwice(g0, q);
    SameQuadTwice(g0.nodes, q);
    MergedTotalOnEmpty(gB, nodes);
  }

  /** A batch listing one quadruple twice adds one edge to a graph with
      none. */
  lemma SameEdgeTwice(g0: Graph, q: RelationQuadruple)
    requires g0.edges == map[] && g0.order == []
    ensures AddEdgesFrom(g0, EdgesOf([q, q])).order == [EdgeKey(q.head, q.tail, q.rel)]
  {
    var e: (Entity, Entity, Relation, Attrs) := (q.head, q.tail, q.rel, q.attrs);
    var none: seq<(Entity, Entity, Relation, Attrs)> := [];
    var k := EdgeKey(q.head, q.tail, q.rel);
    assert EdgesOf([q, q]) == [e, e];
    assert [e][..0] == none;
    assert [e, e][..1] == [e];
    assert AddEdgesFrom(g0, none) == g0;
    var g1 := AddEdgesFrom(g0, [e]);
    assert g1 == AddEdge(g0, e.0, e.1, e.2, e.3);
    assert k !in g0.edges;
    assert g1.order == g0.order + [k];
    assert g1.order == [k] && k in g1.edges;
    assert AddEdgesFrom(g0, [e, e]).order == g1.order;
  }

  /** Counting a quadruple listed twice counts its pattern twice. */
  lemma SameQuadTwice(nodes: map<Entity, Attrs>, q: RelationQuadruple)
    ensures Get(AddAll(map[], QuadPatterns(nodes, [q, q])), QuadPattern(nodes, q)) == 2
    ensures Total(AddAll(map[], QuadPatterns(nodes, [q, q]))) == 2
  {
    var p := QuadPattern(nodes, q);
    assert [q, q][..1] == [q];
    assert QuadPatterns(nodes, [q, q]) == [p, p];
    AddAllGet(map[], [p, p], p);
    assert multiset([p, p])[p] == 2;
    TotalAddAll(map[], [p, p]);
    assert Total(map[]) == 0;
  }

  /** Merging a valid store into an empty one counts one per edge. */
  lemma MergedTotalOnEmpty(g2: Graph, nodes: map<Entity, Attrs>)
    ensures Total(MergedOntology(Empty(), map[], g2, nodes)) == |g2.order|
  {
    TypeMovesOnEmpty(SeqOf(TriplesOf(g2.nodes)));
    assert Update(map[], map[]) == map[];
    TotalAddAll(map[], QuadPatterns(nodes, QuadsAt(g2, g2.order)));
    assert Total(map[]) == 0;
  }

  /** What replaying kg2 onto a copy of kg1 yields, stated on values: the
      batch of kg2's quadruples fails exactly on an end that is in neither
      graph's merged entities, and otherwise the nodes, edges, ontology,
      total and relation labels are the merged ones. */
  lemma Replay(g1: Graph, c1: Counter, g2: Graph, ts: seq<AttributeTriple>)
    requires Valid(g1) && Valid(g2)
    requires multiset(ts) == multiset(TriplesOf(g2.nodes))
    ensures var mid := AddNodesFrom(g1, NodesOf(ts));
            var qs := QuadsAt(g2, g2.order);
            var fm := FirstMissing(mid.nodes, qs);
            && mid.edges == g1.edges
            && (fm.None? <==> EndsMerged(g1.nodes, g2))
            && (fm.Some? ==> fm.value in g2.nodes && !InMerge(g1.nodes, g2.nodes, fm.value))
            && (fm.None? ==> AddEdgesFrom(mid, EdgesOf(qs)).nodes == mid.nodes)
            && MergedNodesOf(mid.nodes, g1.nodes, g2.nodes)
            && MergedEdgesOf(AddEdgesFrom(mid, EdgesOf(qs)).edges, g1.edges, g2.edges)
            && Update(c1, TypeDelta(g1, ts)) == Update(c1, TypeDelta(g1, SeqOf(TriplesOf(g2.nodes))))
            && QuadRels(qs) == EdgeRels(g2)
            && |qs| == |g2.edges|
  {
    var mid := AddNodesFrom(g1, NodesOf(ts));
    var qs := QuadsAt(g2, g2.order);
    ListsOfSet(ts, g2.nodes);
    MergedNodes(g1, g2.nodes, ts);
    ReplayOrderFree(g1, c1, g2.nodes, ts);
    MergeEndpoints(mid.nodes, g2, g1.nodes);
    if FirstMissing(mid.nodes, qs).None? {
      QuadEndsKept(mid.nodes, qs);
      AddEdgesKeepNodes(mid, EdgesOf(qs));
    }
    MergedEdges(mid, g2);
    QuadRelsOfGraph(g2);
    EdgeCount(g2);
  }

  /** Replaying kg2's triples in any order updates the ontology as the
      canonical listing does. */
  lemma ReplayOrderFree(g1: Graph, c1: Counter, n2: map<Entity, Attrs>, ts: seq<AttributeTriple>)
    requires multiset(ts) == multiset(TriplesOf(n2))
    ensures Update(c1, TypeDelta(g1, ts)) == Update(c1, TypeDelta(g1, SeqOf(TriplesOf(n2))))
  {
    var us := SeqOf(TriplesOf(n2));
    assert multiset(ts) == multiset(us);
    TypeDeltaPermutation(g1, ts, us);
  }

  /** The order in which kg2's triples are visited changes neither the
      merged nodes nor the merged ontology. */
  lemma MergeOrderFree(g1: Graph, c1: Counter, n2: map<Entity, Attrs>, ts: seq<AttributeTriple>, us: seq<AttributeTriple>)
    requires multiset(ts) == multiset(TriplesOf(n2)) && multiset(us) == multiset(TriplesOf(n2))
    ensures AddNodesFrom(g1, NodesOf(ts)) == AddNodesFrom(g1, NodesOf(us))
    ensures Update(c1, TypeDelta(g1, ts)) == Update(c1, TypeDelta(g1, us))
  {
    ListsOfSet(ts, n2);
    ListsOfSet(us, n2);
    MergedNodes(g1, n2, ts);
    MergedNodes(g1, n2, us);
    MergedNodesUnique(AddNodesFrom(g1, NodesOf(ts)).nodes, AddNodesFrom(g1, NodesOf(us)).nodes, g1.nodes, n2);
    TypeDeltaPermutation(g1, ts, us);
  }


  /** When no end of qs is missing from nodes, every edge tuple built from
      qs joins two nodes of nodes. */
  lemma QuadEndsKept(nodes: map<Entity, Attrs>, qs: seq<RelationQuadruple>)
    requires FirstMissing(nodes, qs).None?
    ensures forall i :: 0 <= i < |qs| ==> EdgesOf(qs)[i].0 in nodes && EdgesOf(qs)[i].1 in nodes
  {
  }

  /** MergedNodesOf determines the merged node map. */
  lemma MergedNodesUnique(a: map<Entity, Attrs>, b: map<Entity, Attrs>, n1: map<Entity, Attrs>, n2: map<Entity, Attrs>)
    requires MergedNodesOf(a, n1, n2) && MergedNodesOf(b, n1, n2)
    ensures a == b
  {
    assert a.Keys == b.Keys;
  }

  // ---------------------------------------------------------------------
  // Nodes

  /** The attributes the triples ts give e, a later triple overriding an
      earlier one for the same attribute. */
  function TripleAttrs(ts: seq<AttributeTriple>, e: Entity): Attrs
    decreases |ts|
  {
    if ts == [] then map[]
    else
      var t := ts[|ts| - 1];
      var prev := TripleAttrs(ts[..|ts| - 1], e);
      if t.entity == e then prev[t.attr := t.value] else prev
  }

  /** Replaying triples merges, per entity, the attributes they give into
      the attributes the entity had. */
  lemma {:induction false} NodesAfterTriples(g: Graph, ts: seq<AttributeTriple>, e: Entity)
    ensures AttrsAt(AddNodesFrom(g, NodesOf(ts)).nodes, e) == AttrsAt(g.nodes, e) + TripleAttrs(ts, e)
    decreases |ts|
  {
    if ts == [] {
      assert AttrsAt(g.nodes, e) + map[] == AttrsAt(g.nodes, e);
    } else {
      var init, t := ts[..|ts| - 1], ts[|ts| - 1];
      var p := AddNodesFrom(g, NodesOf(init));
      var one := map[t.attr := t.value];
      assert AddNodesFrom(g, NodesOf(ts)) == AddNode(p, t.entity, one) by {
        assert NodesOf(ts)[..|ts| - 1] == NodesOf(init);
      }
      if t.entity == e {
        calc {
          AttrsAt(AddNode(p, e, one).nodes, e);
          AttrsAt(p.nodes, e) + one;
          { NodesAfterTriples(g, init, e); }
          (AttrsAt(g.nodes, e) + TripleAttrs(init, e)) + one;
          { MergeOne(AttrsAt(g.nodes, e), TripleAttrs(init, e), t.attr, t.value); }
          AttrsAt(g.nodes, e) + TripleAttrs(init, e)[t.attr := t.value];
          AttrsAt(g.nodes, e) + TripleAttrs(ts, e);
        }
      } else {
        calc {
          AttrsAt(AddNode(p, t.entity, one).nodes, e);
          AttrsAt(p.nodes, e);
          { NodesAfterTriples(g, init, e); }
          AttrsAt(g.nodes, e) + TripleAttrs(init, e);
          AttrsAt(g.nodes, e) + TripleAttrs(ts, e);
        }
      }
    }
  }

  lemma {:induction false} TripleAttrsIn(ts: seq<AttributeTriple>, e: Entity)
    ensures forall a :: a in TripleAttrs(ts, e) ==> AttributeTriple(e, a, TripleAttrs(ts, e)[a]) in ts
    ensures forall t :: t in ts && t.entity == e ==> t.attr in TripleAttrs(ts, e)
    decreases |ts|
  {
    if ts != [] {
      var init, t := ts[..|ts| - 1], ts[|ts| - 1];
      TripleAttrsIn(init, e);
      assert ts == init + [t];
    }
  }

  /** Triples listing every attribute of n2 give each entity exactly its
      attributes in n2. */
  lemma TripleAttrsOfListing(ts: seq<AttributeTriple>, n2: map<Entity, Attrs>, e: Entity)
    requires Lists(ts, n2)
    ensures TripleAttrs(ts, e) == AttrsAt(n2, e)
  {
    TripleAttrsIn(ts, e);
    var m := TripleAttrs(ts, e);
    forall a ensures a in m <==> a in AttrsAt(n2, e) {
      if a in AttrsAt(n2, e) {
        assert AttributeTriple(e, a, n2[e][a]) in ts;
      }
    }
    forall a | a in m ensures m[a] == AttrsAt(n2, e)[a] {
      assert AttributeTriple(e, a, m[a]) in ts;
    }
  }


  /** Adding a listing of n2's triples to g1 yields the merged nodes. */
  lemma MergedNodes(g1: Graph, n2: map<Entity, Attrs>, ts: seq<AttributeTriple>)
    requires Lists(ts, n2)
    ensures MergedNodesOf(AddNodesFrom(g1, NodesOf(ts)).nodes, g1.nodes, n2)
  {
    var r := AddNodesFrom(g1, NodesOf(ts)).nodes;
    MergedNodeKeys(g1, n2, ts);
    forall e | e in r ensures r[e] == AttrsAt(g1.nodes, e) + AttrsAt(n2, e) {
      NodesAfterTriples(g1, ts, e);
      TripleAttrsOfListing(ts, n2, e);
    }
  }


  /** Any listing of the set of n's triples lists n's attributes. */
  lemma ListsOfSet(ts: seq<AttributeTriple>, n: map<Entity, Attrs>)
    requires multiset(ts) == multiset(TriplesOf(n))
    ensures Lists(ts, n)
  {
    forall t ensures t in ts <==> t in TriplesOf(n) {
      assert t in ts <==> t in multiset(ts);
      assert t in TriplesOf(n) <==> t in multiset(TriplesOf(n));
    }
  }


  lemma MergedNodeKeys(g1: Graph, n2: map<Entity, Attrs>, ts: seq<AttributeTriple>)
    requires Lists(ts, n2)
    ensures forall e :: e in AddNodesFrom(g1, NodesOf(ts)).nodes <==> InMerge(g1.nodes, n2, e)
  {
    NodesOfEntities(ts);
    ListedEntities(ts, n2);
  }

  /** A listing of n2's attributes names exactly the entities of n2 that
      have an attribute. */
  lemma ListedEntities(ts: seq<AttributeTriple>, n2: map<Entity, Attrs>)
    requires Lists(ts, n2)
    ensures forall e :: e in (set t | t in ts :: t.entity) <==> e in n2 && n2[e] != map[]
  {
    forall e | e in n2 && n2[e] != map[] ensures e in (set t | t in ts :: t.entity) {
      var a :| a in n2[e];
      assert AttributeTriple(e, a, n2[e][a]) in ts;
    }
  }

  // ---------------------------------------------------------------------
  // Edges

  /** The attributes the edge tuples es give slot k, merged in order. */
  function EdgeAttrsOf(es: seq<(Entity, Entity, Relation, Attrs)>, k: EdgeKey): Attrs
    decreases |es|
  {
    if es == [] then map[]
    else
      var last := es[|es| - 1];
      var prev := EdgeAttrsOf(es[..|es| - 1], k);
      if KeyOf(last) == k then prev + last.3 else prev
  }

  /** Replaying edge tuples merges, per slot, the attributes they give into
      the attributes the slot had. */
  lemma {:induction false} EdgesAfter(g: Graph, es: seq<(Entity, Entity, Relation, Attrs)>, k: EdgeKey)
    ensures AttrsAt(AddEdgesFrom(g, es).edges, k) == AttrsAt(g.edges, k) + EdgeAttrsOf(es, k)
    decreases |es|
  {
    if es == [] {
      assert AttrsAt(g.edges, k) + map[] == AttrsAt(g.edges, k);
    } else {
      var init, last := es[..|es| - 1], es[|es| - 1];
      var p := AddEdgesFrom(g, init);
      EdgesAfter(g, init, k);
      AddEdgeAttrsAt(p, last.0, last.1, last.2, last.3, k);
      if KeyOf(last) == k {
        MergeAssoc(AttrsAt(g.edges, k), EdgeAttrsOf(init, k), last.3);
      }
    }
  }

  /** The attributes `add_edge` leaves on slot k. */
  lemma AddEdgeAttrsAt(g: Graph, h: Entity, t: Entity, rel: Relation, attrs: Attrs, k: EdgeKey)
    ensures AttrsAt(AddEdge(g, h, t, rel, attrs).edges, k)
            == if k == EdgeKey(h, t, rel) then AttrsAt(g.edges, k) + attrs else AttrsAt(g.edges, k)
  {
  }



  /** The edge tuples that re-add g2's slots ks with their attributes. */
  function SlotTuples(g2: Graph, ks: seq<EdgeKey>): (es: seq<(Entity, Entity, Relation, Attrs)>)
  {
    seq(|ks|, i requires 0 <= i < |ks| => (ks[i].head, ks[i].tail, ks[i].rel, AttrsAt(g2.edges, ks[i])))
  }

  /** The edge list the batch of g2's quadruples hands to networkx re-adds
      g2's slots with their attributes, and fills exactly those slots. */
  lemma EdgesOfGraph(g2: Graph, ks: seq<EdgeKey>)
    ensures EdgesOf(QuadsAt(g2, ks)) == SlotTuples(g2, ks)
    ensures KeysOf(SlotTuples(g2, ks)) == ks
  {
  }

  /** Re-adding the edges of a graph, each slot once, gives each slot the
      attributes it has in that graph. */
  lemma {:induction false} EdgeAttrsOfGraph(g2: Graph, ks: seq<EdgeKey>, k: EdgeKey)
    requires Distinct(ks)
    ensures EdgeAttrsOf(SlotTuples(g2, ks), k) == if k in ks then AttrsAt(g2.edges, k) else map[]
    decreases |ks|
  {
    if ks != [] {
      var init, last := ks[..|ks| - 1], ks[|ks| - 1];
      DistinctInit(ks);
      EdgeAttrsOfGraph(g2, init, k);
      var es := SlotTuples(g2, ks);
      assert es[..|es| - 1] == SlotTuples(g2, init);
      if last == k {
        assert map[] + AttrsAt(g2.edges, k) == AttrsAt(g2.edges, k);
      }
    }
  }

  /** Adding all of g2's edges to g1 yields the merged edges. */
  lemma MergedEdges(g1: Graph, g2: Graph)
    requires Valid(g2)
    ensures MergedEdgesOf(AddEdgesFrom(g1, EdgesOf(QuadsAt(g2, g2.order))).edges, g1.edges, g2.edges)
  {
    EdgesOfGraph(g2, g2.order);
    var es := SlotTuples(g2, g2.order);
    var r := AddEdgesFrom(g1, es).edges;
    forall k | k in r ensures r[k] == AttrsAt(g1.edges, k) + AttrsAt(g2.edges, k) {
      EdgesAfter(g1, es, k);
      EdgeAttrsOfGraph(g2, g2.order, k);
    }
  }


  /** The relation labels of all of a graph's quadruples are its edges'
      labels. */
  lemma QuadRelsOfGraph(g: Graph)
    requires Valid(g)
    ensures QuadRels(QuadsAt(g, g.order)) == EdgeRels(g)
  {
    QuadRelsOfGraphSub(g);
    QuadRelsOfGraphSup(g);
  }

  lemma QuadRelsOfGraphSub(g: Graph)
    requires Valid(g)
    ensures QuadRels(QuadsAt(g, g.order)) <= EdgeRels(g)
  {
    var qs := QuadsAt(g, g.order);
    forall rel | rel in QuadRels(qs) ensures rel in EdgeRels(g) {
      var q :| q in qs && q.rel == rel;
      var i :| 0 <= i < |qs| && qs[i] == q;
      assert g.order[i] in g.edges;
    }
  }

  lemma QuadRelsOfGraphSup(g: Graph)
    requires Valid(g)
    ensures EdgeRels(g) <= QuadRels(QuadsAt(g, g.order))
  {
    var qs := QuadsAt(g, g.order);
    forall rel | rel in EdgeRels(g) ensures rel in QuadRels(qs) {
      var k :| k in g.edges && k.rel == rel;
      var i :| 0 <= i < |g.order| && g.order[i] == k;
      assert qs[i] in qs;
    }
  }


  /** The batch of kg2's quadruples fails on the merged nodes exactly when
      some edge of kg2 has an end missing from them. */
  lemma MergeEndpoints(nodes: map<Entity, Attrs>, g2: Graph, n1: map<Entity, Attrs>)
    requires Valid(g2)
    requires forall e :: e in nodes <==> InMerge(n1, g2.nodes, e)
    ensures var fm := FirstMissing(nodes, QuadsAt(g2, g2.order));
            && (fm.None? <==> EndsMerged(n1, g2))
            && (fm.Some? ==> fm.value in g2.nodes && !InMerge(n1, g2.nodes, fm.value))
  {
    if FirstMissing(nodes, QuadsAt(g2, g2.order)).None? {
      AllEndsPresent(nodes, g2, n1);
    } else {
      SomeEndMissing(nodes, g2, n1);
    }
  }

  lemma AllEndsPresent(nodes: map<Entity, Attrs>, g2: Graph, n1: map<Entity, Attrs>)
    requires Valid(g2)
    requires forall e :: e in nodes <==> InMerge(n1, g2.nodes, e)
    requires FirstMissing(nodes, QuadsAt(g2, g2.order)).None?
    ensures EndsMerged(n1, g2)
  {
    var qs := QuadsAt(g2, g2.order);
    forall k | k in g2.edges ensures k.head in nodes && k.tail in nodes {
      var i :| 0 <= i < |g2.order| && g2.order[i] == k;
      assert qs[i] == QuadAt(g2, k);
    }
  }

  lemma SomeEndMissing(nodes: map<Entity, Attrs>, g2: Graph, n1: map<Entity, Attrs>)
    requires Valid(g2)
    requires forall e :: e in nodes <==> InMerge(n1, g2.nodes, e)
    requires FirstMissing(nodes, QuadsAt(g2, g2.order)).Some?
    ensures var e := FirstMissing(nodes, QuadsAt(g2, g2.order)).value;
            e in g2.nodes && !InMerge(n1, g2.nodes, e) && !EndsMerged(n1, g2)
  {
    var qs := QuadsAt(g2, g2.order);
    var e := FirstMissing(nodes, qs).value;
    var i :| 0 <= i < |qs| && (e == qs[i].head || e == qs[i].tail);
    var k := g2.order[i];
    assert k in g2.edges && qs[i] == QuadAt(g2, k);
  }


}
