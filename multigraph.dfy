/** The part of a networkx MultiDiGraph the knowledge graph relies on, as a
    value: an attribute map per node, an attribute map per directed edge
    keyed by (head, tail, key), and the edges in the order they were first
    added. */
module Multigraph {

  import opened Types

  /** An edge slot: at most one edge per (head, tail, relation). */
  datatype EdgeKey = EdgeKey(head: Entity, tail: Entity, rel: Relation)

  datatype Graph = Graph(nodes: map<Entity, Attrs>, edges: map<EdgeKey, Attrs>, order: seq<EdgeKey>)

  /** `order` lists every edge slot exactly once, and both ends of every edge
      are nodes. */
  ghost predicate Valid(g: Graph)
  {
    && Distinct(g.order)
    && (forall k :: k in g.edges <==> k in g.order)
    && (forall k :: k in g.edges ==> k.head in g.nodes && k.tail in g.nodes)
  }

  ghost predicate Distinct(ks: seq<EdgeKey>)
  {
    forall i, j :: 0 <= i < j < |ks| ==> ks[i] != ks[j]
  }

  function Empty(): (g: Graph)
    ensures Valid(g) && g.nodes == map[] && g.edges == map[]
  {
    Graph(map[], map[], [])
  }

  /** `add_node(e, **attrs)`: creates e if it is new, then merges attrs into
      its attribute map. */
  function AddNode(g: Graph, e: Entity, attrs: Attrs): (r: Graph)
    ensures Valid(g) ==> Valid(r)
    ensures r.edges == g.edges && r.order == g.order
    ensures r.nodes.Keys == g.nodes.Keys + {e}
    ensures r.nodes[e] == AttrsAt(g.nodes, e) + attrs
    ensures forall x :: x in g.nodes && x != e ==> r.nodes[x] == g.nodes[x]
  {
    g.(nodes := g.nodes[e := AttrsAt(g.nodes, e) + attrs])
  }

  /** Every (entity, attribute, value) of a node map: what
      `attribute_triples()` reports. */
  function TriplesOf(nodes: map<Entity, Attrs>): (r: set<AttributeTriple>)
    ensures forall t :: t in r <==> t.entity in nodes && t.attr in nodes[t.entity] && nodes[t.entity][t.attr] == t.value
  {
    set x, a | x in nodes && a in nodes[x] :: AttributeTriple(x, a, nodes[x][a])
  }

  /** Adding (e, a, v) makes v the only value of attribute a of e and leaves
      every other triple of every entity as it was. */
  lemma SetAttribute(g: Graph, t: AttributeTriple)
    ensures var r := TriplesOf(AddNode(g, t.entity, map[t.attr := t.value]).nodes);
      && t in r
      && (forall v :: AttributeTriple(t.entity, t.attr, v) in r ==> v == t.value)
      && (forall u: AttributeTriple :: u.entity != t.entity || u.attr != t.attr ==> (u in r <==> u in TriplesOf(g.nodes)))
  {
  }

  /** Adding the same node attributes a second time changes nothing. */
  lemma AddNodeTwice(g: Graph, e: Entity, attrs: Attrs)
    ensures AddNode(AddNode(g, e, attrs), e, attrs) == AddNode(g, e, attrs)
  {
    var a := AttrsAt(g.nodes, e) + attrs;
    assert a + attrs == a;
  }

  /** `add_nodes_from([(e, attrs), ...])`: `add_node` for each pair in turn. */
  function AddNodesFrom(g: Graph, ns: seq<(Entity, Attrs)>): (r: Graph)
    ensures Valid(g) ==> Valid(r)
    ensures r.edges == g.edges && r.order == g.order
    ensures r.nodes.Keys == g.nodes.Keys + set n | n in ns :: n.0
    decreases |ns|
  {
    if ns == [] then g
    else
      var last := ns[|ns| - 1];
      var r := AddNode(AddNodesFrom(g, ns[..|ns| - 1]), last.0, last.1);
      InLast(ns);
      r
  }

  /** `add_edge(h, t, key=rel, **attrs)`: creates missing end nodes with no
      attributes; merges attrs into the edge (h, t, rel) if it exists, and
      otherwise adds it as a new edge. Never adds a parallel edge with the
      same key. */
  function AddEdge(g: Graph, h: Entity, t: Entity, rel: Relation, attrs: Attrs): (r: Graph)
    ensures r.nodes.Keys == g.nodes.Keys + {h, t}
    ensures forall x :: x in g.nodes ==> r.nodes[x] == g.nodes[x]
    ensures r.edges.Keys == g.edges.Keys + {EdgeKey(h, t, rel)}
    ensures r.edges[EdgeKey(h, t, rel)] == AttrsAt(g.edges, EdgeKey(h, t, rel)) + attrs
    ensures forall k :: k in g.edges && k != EdgeKey(h, t, rel) ==> r.edges[k] == g.edges[k]
    ensures r.order == if EdgeKey(h, t, rel) in g.edges then g.order else g.order + [EdgeKey(h, t, rel)]
  {
    var k := EdgeKey(h, t, rel);
    Graph(WithNode(WithNode(g.nodes, h), t), WithEdge(g.edges, k, attrs),
          if k in g.edges then g.order else g.order + [k])
  }

  /** The edge map with attrs merged into slot k, created if missing. */
  function WithEdge(edges: map<EdgeKey, Attrs>, k: EdgeKey, attrs: Attrs): (r: map<EdgeKey, Attrs>)
    ensures r.Keys == edges.Keys + {k}
    ensures r[k] == AttrsAt(edges, k) + attrs
    ensures forall j :: j in edges && j != k ==> r[j] == edges[j]
  {
    edges[k := AttrsAt(edges, k) + attrs]
  }

  /** The node map with e added, without attributes, if it was missing. */
  function WithNode(nodes: map<Entity, Attrs>, e: Entity): (r: map<Entity, Attrs>)
    ensures r.Keys == nodes.Keys + {e}
    ensures forall x :: x in nodes ==> r[x] == nodes[x]
    ensures e !in nodes ==> r[e] == map[]
  {
    if e in nodes then nodes else nodes[e := map[]]
  }

  /** Adding an edge to an existing (head, tail, relation) slot creates no
      parallel edge: the slot keeps its place and its attributes are
      merged. */
  lemma AddEdgeTwice(g: Graph, h: Entity, t: Entity, rel: Relation, a1: Attrs, a2: Attrs)
    ensures var g1 := AddEdge(g, h, t, rel, a1);
      var g2 := AddEdge(g1, h, t, rel, a2);
      && g2.nodes == g1.nodes
      && g2.order == g1.order
      && g2.edges.Keys == g1.edges.Keys
      && g2.edges[EdgeKey(h, t, rel)] == AttrsAt(g.edges, EdgeKey(h, t, rel)) + a1 + a2
  {
    var g1 := AddEdge(g, h, t, rel, a1);
    assert WithNode(WithNode(g1.nodes, h), t) == g1.nodes;
  }

  /** `add_edge` adds its relation label to the graph's labels. */
  lemma EdgeRelsAddEdge(g: Graph, h: Entity, t: Entity, rel: Relation, attrs: Attrs)
    ensures EdgeRels(AddEdge(g, h, t, rel, attrs)) == EdgeRels(g) + {rel}
  {
    assert EdgeKey(h, t, rel) in AddEdge(g, h, t, rel, attrs).edges;
  }

  /** An end node `add_edge` creates starts with no attributes. */
  lemma AddEdgeNewNodes(g: Graph, h: Entity, t: Entity, rel: Relation, attrs: Attrs)
    ensures forall x :: x in AddEdge(g, h, t, rel, attrs).nodes && x !in g.nodes ==> AddEdge(g, h, t, rel, attrs).nodes[x] == map[]
  {
  }

  lemma AddEdgeValid(g: Graph, h: Entity, t: Entity, rel: Relation, attrs: Attrs)
    requires Valid(g)
    ensures Valid(AddEdge(g, h, t, rel, attrs))
  {
    var k := EdgeKey(h, t, rel);
    if k !in g.edges {
      DistinctSnoc(g.order, k);
    }
  }

  /** Appending a new slot keeps a list without repetitions. */
  lemma DistinctSnoc(ks: seq<EdgeKey>, k: EdgeKey)
    requires Distinct(ks) && k !in ks
    ensures Distinct(ks + [k])
    ensures forall x :: x in ks + [k] <==> x in ks || x == k
  {
  }


  /** `add_edges_from([(h, t, rel, attrs), ...])`: `add_edge` for each tuple
      in turn. */
  function AddEdgesFrom(g: Graph, es: seq<(Entity, Entity, Relation, Attrs)>): (r: Graph)
    ensures g.nodes.Keys <= r.nodes.Keys
    ensures forall x :: x in g.nodes ==> r.nodes[x] == g.nodes[x]
    ensures forall k :: k in r.edges <==> k in g.edges || k in KeysOf(es)
    decreases |es|
  {
    if es == [] then g
    else
      var last := es[|es| - 1];
      var p := AddEdgesFrom(g, es[..|es| - 1]);
      var r := AddEdge(p, last.0, last.1, last.2, last.3);
      r
  }

  lemma {:induction false} AddEdgesFromValid(g: Graph, es: seq<(Entity, Entity, Relation, Attrs)>)
    requires Valid(g)
    ensures Valid(AddEdgesFrom(g, es))
    decreases |es|
  {
    if es != [] {
      var last := es[|es| - 1];
      AddEdgesFromValid(g, es[..|es| - 1]);
      AddEdgeValid(AddEdgesFrom(g, es[..|es| - 1]), last.0, last.1, last.2, last.3);
    }
  }

  /** Adding edges between nodes that all exist creates no node and changes
      no node's attributes. */
  lemma {:induction false} AddEdgesKeepNodes(g: Graph, es: seq<(Entity, Entity, Relation, Attrs)>)
    requires forall i :: 0 <= i < |es| ==> es[i].0 in g.nodes && es[i].1 in g.nodes
    ensures AddEdgesFrom(g, es).nodes == g.nodes
    decreases |es|
  {
    if es != [] {
      var init, last := es[..|es| - 1], es[|es| - 1];
      AddEdgesKeepNodes(g, init);
      var p := AddEdgesFrom(g, init);
      assert AddEdgesFrom(g, es) == AddEdge(p, last.0, last.1, last.2, last.3);
      assert AddEdgesFrom(g, es).nodes.Keys == p.nodes.Keys;
    }
  }

  /** The slot an edge tuple fills. */
  function KeyOf(e: (Entity, Entity, Relation, Attrs)): EdgeKey
  {
    EdgeKey(e.0, e.1, e.2)
  }

  function KeysOf(es: seq<(Entity, Entity, Relation, Attrs)>): (r: seq<EdgeKey>)
    ensures |r| == |es| && forall i :: 0 <= i < |es| ==> r[i] == KeyOf(es[i])
    decreases |es|
  {
    if es == [] then [] else KeysOf(es[..|es| - 1]) + [KeyOf(es[|es| - 1])]
  }

  /** The edges leaving h, in edge order (`edges(h)`). */
  function OutEdges(g: Graph, h: Entity): (r: seq<EdgeKey>)
    ensures forall k :: k in r <==> k in g.order && k.head == h
  {
    HeadedAt(g.order, h)
  }

  function HeadedAt(ks: seq<EdgeKey>, h: Entity): (r: seq<EdgeKey>)
    ensures forall k :: k in r <==> k in ks && k.head == h
    decreases |ks|
  {
    if ks == [] then []
    else
      var last := ks[|ks| - 1];
      var r := HeadedAt(ks[..|ks| - 1], h) + (if last.head == h then [last] else []);
      InLast(ks);
      r
  }

  /** The edges among ks that end at t, in the order of ks. */
  function TailedAt(ks: seq<EdgeKey>, t: Entity): (r: seq<EdgeKey>)
    ensures forall k :: k in r <==> k in ks && k.tail == t
    decreases |ks|
  {
    if ks == [] then []
    else
      var last := ks[|ks| - 1];
      var r := TailedAt(ks[..|ks| - 1], t) + (if last.tail == t then [last] else []);
      InLast(ks);
      r
  }

  /** An edge slot with its attributes, reported as a quadruple (head,
      relation, tail, attributes). */
  function QuadAt(g: Graph, k: EdgeKey): RelationQuadruple
  {
    RelationQuadruple(k.head, k.rel, k.tail, AttrsAt(g.edges, k))
  }

  function QuadsAt(g: Graph, ks: seq<EdgeKey>): (r: seq<RelationQuadruple>)
    ensures |r| == |ks|
    ensures forall i :: 0 <= i < |ks| ==> r[i] == QuadAt(g, ks[i])
    decreases |ks|
  {
    if ks == [] then [] else QuadsAt(g, ks[..|ks| - 1]) + [QuadAt(g, ks[|ks| - 1])]
  }

  /** A quadruple is reported for ks exactly when its slot is among ks and
      it carries that slot's attributes. */
  lemma {:induction false} QuadsAtIn(g: Graph, ks: seq<EdgeKey>)
    ensures forall q :: q in QuadsAt(g, ks) <==>
      EdgeKey(q.head, q.tail, q.rel) in ks && q.attrs == AttrsAt(g.edges, EdgeKey(q.head, q.tail, q.rel))
    decreases |ks|
  {
    if ks != [] {
      var init, k := ks[..|ks| - 1], ks[|ks| - 1];
      QuadsAtIn(g, init);
      assert ks == init + [k];
      assert QuadsAt(g, ks) == QuadsAt(g, init) + [QuadAt(g, k)];
    }
  }

  /** Labels of all edges. */
  function EdgeRels(g: Graph): set<Relation>
  {
    set k | k in g.edges :: k.rel
  }

  /** An edge list without repetitions is as long as the set of its
      elements. */
  lemma {:induction false} DistinctLength(ks: seq<EdgeKey>)
    requires Distinct(ks)
    ensures |set k | k in ks| == |ks|
    decreases |ks|
  {
    if ks != [] {
      var init, last := ks[..|ks| - 1], ks[|ks| - 1];
      DistinctLength(init);
      assert ks == init + [last];
      assert (set k | k in ks) == (set k | k in init) + {last};
      assert last !in init;
    }
  }

  /** One edge slot per element of `order`: the number of edges is the length
      of the edge order. */
  lemma EdgeCount(g: Graph)
    requires Valid(g)
    ensures |g.edges| == |g.order|
  {
    DistinctLength(g.order);
    assert g.edges.Keys == set k | k in g.order;
  }

  /** Adding edges whose slots are all new and pairwise distinct, between
      nodes that exist, leaves the nodes alone and appends the slots to the
      edge order. */
  lemma {:induction false} AddNewEdges(g: Graph, es: seq<(Entity, Entity, Relation, Attrs)>)
    requires forall i :: 0 <= i < |es| ==> es[i].0 in g.nodes && es[i].1 in g.nodes
    requires forall i :: 0 <= i < |es| ==> KeyOf(es[i]) !in g.edges
    requires Distinct(KeysOf(es))
    ensures AddEdgesFrom(g, es).nodes == g.nodes
    ensures AddEdgesFrom(g, es).order == g.order + KeysOf(es)
    decreases |es|
  {
    if es != [] {
      var init := es[..|es| - 1];
      KeysOfInit(es);
      DistinctInit(KeysOf(es));
      AddNewEdges(g, init);
      AddNewEdgeLast(g, es);
    }
  }

  /** The last step of AddNewEdges: one more new edge between existing
      nodes. */
  lemma AddNewEdgeLast(g: Graph, es: seq<(Entity, Entity, Relation, Attrs)>)
    requires es != []
    requires es[|es| - 1].0 in g.nodes && es[|es| - 1].1 in g.nodes && KeyOf(es[|es| - 1]) !in g.edges
    requires KeyOf(es[|es| - 1]) !in KeysOf(es[..|es| - 1])
    requires AddEdgesFrom(g, es[..|es| - 1]).nodes == g.nodes
    requires AddEdgesFrom(g, es[..|es| - 1]).order == g.order + KeysOf(es[..|es| - 1])
    ensures AddEdgesFrom(g, es).nodes == g.nodes
    ensures AddEdgesFrom(g, es).order == g.order + KeysOf(es)
  {
    var init, last := es[..|es| - 1], es[|es| - 1];
    var ks := KeysOf(init);
    var p := AddEdgesFrom(g, init);
    assert KeyOf(last) !in p.edges;
    AddNewEdge(p, last);
    assert (g.order + ks) + [KeyOf(last)] == g.order + (ks + [KeyOf(last)]);
  }


  lemma KeysOfInit(es: seq<(Entity, Entity, Relation, Attrs)>)
    requires es != []
    ensures KeysOf(es)[..|es| - 1] == KeysOf(es[..|es| - 1])
    ensures KeysOf(es)[|es| - 1] == KeyOf(es[|es| - 1])
  {
  }

  /** Dropping the last slot of a list without repetitions leaves a list
      without repetitions that does not hold that slot. */
  /** The edges of a list without repetitions that leave h are listed
      without repetitions. */
  lemma {:induction false} HeadedAtDistinct(ks: seq<EdgeKey>, h: Entity)
    requires Distinct(ks)
    ensures Distinct(HeadedAt(ks, h))
    decreases |ks|
  {
    if ks != [] {
      var init, last := ks[..|ks| - 1], ks[|ks| - 1];
      DistinctInit(ks);
      HeadedAtDistinct(init, h);
      if last.head == h {
        DistinctSnoc(HeadedAt(init, h), last);
      } else {
        assert HeadedAt(ks, h) == HeadedAt(init, h);
      }
    }
  }

  /** The edges of a list without repetitions that end at t are listed
      without repetitions. */
  lemma {:induction false} TailedAtDistinct(ks: seq<EdgeKey>, t: Entity)
    requires Distinct(ks)
    ensures Distinct(TailedAt(ks, t))
    decreases |ks|
  {
    if ks != [] {
      var init, last := ks[..|ks| - 1], ks[|ks| - 1];
      DistinctInit(ks);
      TailedAtDistinct(init, t);
      if last.tail == t {
        DistinctSnoc(TailedAt(init, t), last);
      } else {
        assert TailedAt(ks, t) == TailedAt(init, t);
      }
    }
  }

  /** Distinct slots are reported as distinct quadruples. */
  lemma QuadsAtDistinct(g: Graph, ks: seq<EdgeKey>)
    requires Distinct(ks)
    ensures forall i, j :: 0 <= i < j < |ks| ==> QuadsAt(g, ks)[i] != QuadsAt(g, ks)[j]
  {
  }

  lemma DistinctInit(ks: seq<EdgeKey>)
    requires Distinct(ks) && ks != []
    ensures Distinct(ks[..|ks| - 1])
    ensures ks[|ks| - 1] !in ks[..|ks| - 1]
    ensures forall k :: k in ks <==> k in ks[..|ks| - 1] || k == ks[|ks| - 1]
  {
    assert ks == ks[..|ks| - 1] + [ks[|ks| - 1]];
  }
  lemma AddNewEdge(g: Graph, e: (Entity, Entity, Relation, Attrs))
    requires e.0 in g.nodes && e.1 in g.nodes && KeyOf(e) !in g.edges
    ensures AddEdge(g, e.0, e.1, e.2, e.3).nodes == g.nodes
    ensures AddEdge(g, e.0, e.1, e.2, e.3).order == g.order + [KeyOf(e)]
  {
  }
}
