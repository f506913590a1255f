/** The knowledge-graph store: a directed multigraph of entities and typed
    relations, plus an ontology Counter of (head type, relation, tail type)
    patterns that is maintained incrementally as facts are added. */
module KG {

  import opened Types
  import opened Counter
  import opened Multigraph
  import opened Ontology

  class KnowledgeGraph {

    var mdg: Graph
    var ontology: Counter

    /** The graph is well formed, and the ontology has a key for exactly the
        relation labels of the graph's edges. */
    ghost predicate Valid()
      reads this
    {
      Multigraph.Valid(mdg) && Rels(ontology) == EdgeRels(mdg)
    }

    /** `KnowledgeGraph()`: an empty graph and an empty ontology. */
    constructor()
      ensures Valid()
      ensures mdg == Empty() && ontology == map[]
    {
      mdg := Empty();
      ontology := map[];
    }

    /** `deepcopy(other)`: a new graph holding equal values and sharing
        nothing with other. */
    constructor Copy(other: KnowledgeGraph)
      ensures mdg == other.mdg && ontology == other.ontology
      ensures Valid() <==> other.Valid()
    {
      mdg := other.mdg;
      ontology := other.ontology;
    }

    /** `KnowledgeGraph(attr_trips, rel_quads)`: the triples are added, then
        the quadruples; a quadruple whose endpoint no triple named raises
        LookupError and no graph is built. */
    static method Create(trips: seq<AttributeTriple>, quads: seq<RelationQuadruple>) returns (r: Result<KnowledgeGraph>)
      ensures var nodes := AddNodesFrom(Empty(), NodesOf(trips)).nodes;
              r.Ok? <==> FirstMissing(nodes, quads).None?
      ensures r.Err? ==> r.error == EntityNotFound(FirstMissing(AddNodesFrom(Empty(), NodesOf(trips)).nodes, quads).value)
      ensures r.Ok? ==> fresh(r.value) && r.value.Valid()
      ensures r.Ok? ==> r.value.mdg == AddEdgesFrom(AddNodesFrom(Empty(), NodesOf(trips)), EdgesOf(quads))
      ensures r.Ok? ==> r.value.ontology == AddAll(map[], QuadPatterns(AddNodesFrom(Empty(), NodesOf(trips)).nodes, quads))
    {
      var kg := new KnowledgeGraph();
      if trips != [] {
        kg.AddAttributeTriples(trips);
        TypeMovesOnEmpty(trips);
        assert Update(map[], map[]) == map[];
      }
      if quads != [] {
        var outcome := kg.AddRelationQuadruples(quads);
        if outcome.Fail? {
          return Err(outcome.error);
        }
      } else {
        assert AddAll(map[], QuadPatterns(kg.mdg.nodes, quads)) == map[];
      }
      return Ok(kg);
    }

    // -------------------------------------------------------------------
    // Reading the graph

    /** `entities()`: the node set. */
    function Entities(): (r: set<Entity>)
      reads this
      ensures forall e :: e in r <==> e in mdg.nodes
    {
      mdg.nodes.Keys
    }

    /** `ontology()`: the maintained Counter, whose keys name exactly the
        relations of the graph's edges. */
    function Ontology(): (r: Counter)
      reads this
      ensures Valid() ==> Rels(r) == EdgeRels(mdg)
    {
      ontology
    }

    /** `relations()`: the relation labels of the ontology's keys, which are
        the labels of the graph's edges. */
    function Relations(): (r: set<Relation>)
      reads this
      ensures Valid() ==> r == EdgeRels(mdg)
    {
      Rels(ontology)
    }

    /** `attribute_triples(entity)`: every (entity, attribute, value) of one
        entity, or of all entities when none is given; LookupError for an
        entity that is not in the graph. */
    function AttributeTriples(e: Option<Entity>): (r: Result<set<AttributeTriple>>)
      reads this
      ensures r.Err? <==> e.Some? && e.value !in mdg.nodes
      ensures r.Err? ==> r.error == EntityNotFound(e.value)
      ensures r.Ok? ==> forall t :: t in r.value <==>
        && t.entity in mdg.nodes
        && t.attr in mdg.nodes[t.entity]
        && mdg.nodes[t.entity][t.attr] == t.value
        && (e.Some? ==> t.entity == e.value)
    {
      if e.Some? then
        if e.value !in mdg.nodes then Err(EntityNotFound(e.value))
        else
          var attrs := mdg.nodes[e.value];
          Ok(set a | a in attrs :: AttributeTriple(e.value, a, attrs[a]))
      else
        Ok(TriplesOf(mdg.nodes))
    }

    /** The type the ontology maintenance reads for an entity: the value of
        its `type` triple, or "unknown" when it has none; LookupError for an
        entity that is not in the graph. */
    function ResolveType(e: Entity): (r: Result<Value>)
      reads this
      ensures r.Err? <==> e !in mdg.nodes
      ensures r.Err? ==> r.error == EntityNotFound(e)
      ensures r.Ok? ==> r.value == TypeOf(mdg.nodes, e)
      ensures r.Ok? ==> forall v :: AttributeTriple(e, TYPE, v) in AttributeTriples(Some(e)).value ==> v == r.value
      ensures r.Ok? && (forall v :: AttributeTriple(e, TYPE, v) !in AttributeTriples(Some(e)).value) ==> r.value == UNKNOWN
    {
      match AttributeTriples(Some(e))
      case Err(err) => Err(err)
      case Ok(_) =>
        if TYPE in mdg.nodes[e] then
          assert AttributeTriple(e, TYPE, mdg.nodes[e][TYPE]) in AttributeTriples(Some(e)).value;
          Ok(mdg.nodes[e][TYPE])
        else Ok(UNKNOWN)
    }

    /** `relation_quadruples(head, tail)`: with both ends given, the edges
        from head to tail; with only head, the edges leaving head; otherwise,
        and in particular when only tail is given, every edge. Each edge is
        reported once, as (head, relation, tail, attributes). */
    function RelationQuadruples(head: Option<Entity>, tail: Option<Entity>): (r: seq<RelationQuadruple>)
      reads this
      ensures forall q :: q in r <==>
        && EdgeKey(q.head, q.tail, q.rel) in mdg.order
        && q.attrs == AttrsAt(mdg.edges, EdgeKey(q.head, q.tail, q.rel))
        && (head.Some? ==> q.head == head.value)
        && (head.Some? && tail.Some? ==> q.tail == tail.value)
      ensures head.None? ==> |r| == |mdg.order|
      ensures Multigraph.Valid(mdg) ==> forall i, j :: 0 <= i < j < |r| ==> r[i] != r[j]
    {
      var ks :=
        if head.Some? && tail.Some? then TailedAt(HeadedAt(mdg.order, head.value), tail.value)
        else if head.Some? then HeadedAt(mdg.order, head.value)
        else mdg.order;
      QuadsAtIn(mdg, ks);
      FilteredDistinct(mdg, ks, head, tail);
      QuadsAt(mdg, ks)
    }

    // -------------------------------------------------------------------
    // Adding facts

    /** `add_attribute_triples(trips)`: the ontology is updated first, with
        every type change resolved against the graph before the batch; then
        each triple's attribute is merged into its entity, creating it if
        needed. */
    method AddAttributeTriples(trips: seq<AttributeTriple>)
      requires Valid()
      modifies this
      ensures Valid()
      ensures mdg == AddNodesFrom(old(mdg), NodesOf(trips))
      ensures ontology == Update(old(ontology), TypeDelta(old(mdg), trips))
      ensures Entities() == old(Entities()) + set t | t in trips :: t.entity
      ensures Total(ontology) == old(Total(ontology))
      ensures Relations() == old(Relations())
    {
      var nodes := NodesOf(trips);
      ghost var g, c := mdg, ontology;
      MaintainOntoAddingTrips(trips);
      mdg := AddNodesFrom(mdg, nodes);
      NodesOfEntities(trips);
      RelsAfterTriples(g, c, trips);
      TotalAfterTriples(g, c, trips);
    }

    /** `add_attribute_triple(trip)`: the one-triple form of
        `add_attribute_triples`, except that the attribute is passed to
        `add_node` as a keyword argument. One named like a parameter of
        `add_node` raises TypeError; the maintenance step before it moves
        nothing for such an attribute, so nothing changes. */
    method AddAttributeTriple(t: AttributeTriple) returns (r: Outcome)
      requires Valid()
      modifies this
      ensures Valid()
      ensures r.Fail? <==> t.attr in ADD_NODE_PARAMS
      ensures r.Fail? ==> r.error == ArgumentClash(t.attr)
      ensures r.Fail? ==> mdg == old(mdg) && ontology == old(ontology)
      ensures r.Pass? ==> mdg == AddNode(old(mdg), t.entity, map[t.attr := t.value])
      ensures r.Pass? ==> ontology == Update(old(ontology), TypeDelta(old(mdg), [t]))
      ensures Total(ontology) == old(Total(ontology))
      ensures Relations() == old(Relations())
    {
      ghost var g, c := mdg, ontology;
      MaintainOntoAddingTrips([t]);
      if t.attr in ADD_NODE_PARAMS {
        NoTypeMoves(g, [t]);
        UpdateEmpty(c);
        return Fail(ArgumentClash(t.attr));
      }
      mdg := AddNode(mdg, t.entity, map[t.attr := t.value]);
      RelsAfterTriples(g, c, [t]);
      TotalAfterTriples(g, c, [t]);
      return Pass;
    }

    /** `add_relation_quadruples(quads)`: the ontology is updated first; if
        any endpoint is not yet an entity this raises LookupError and nothing
        changes; otherwise each quadruple's edge is added, or its attributes
        merged into the existing edge with the same head, tail and relation. */
    method AddRelationQuadruples(quads: seq<RelationQuadruple>) returns (r: Outcome)
      requires Valid()
      modifies this
      ensures Valid()
      ensures r == if FirstMissing(old(mdg).nodes, quads).Some?
                   then Fail(EntityNotFound(FirstMissing(old(mdg).nodes, quads).value)) else Pass
      ensures r.Fail? ==> mdg == old(mdg) && ontology == old(ontology)
      ensures r.Pass? ==> mdg == AddEdgesFrom(old(mdg), EdgesOf(quads))
      ensures r.Pass? ==> ontology == AddAll(old(ontology), QuadPatterns(old(mdg).nodes, quads))
      ensures r.Pass? ==> Total(ontology) == old(Total(ontology)) + |quads|
      ensures r.Pass? ==> Relations() == old(Relations()) + QuadRels(quads)
    {
      var edges := EdgesOf(quads);
      ghost var g, c := mdg, ontology;
      r := MaintainOntoAddingQuads(quads);
      if r.Pass? {
        mdg := AddEdgesFrom(mdg, edges);
        AddEdgesFromValid(g, edges);
        RelsAfterQuads(c, g.nodes, quads);
        EdgeRelsAfterQuads(g, quads);
        TotalAddAll(c, QuadPatterns(g.nodes, quads));
      }
    }

    /** `add_relation_quadruple(quad)`: the quadruple's attributes are
        passed to `add_edge` as keyword arguments, so one named like a
        parameter of `add_edge` raises TypeError before anything changes.
        Otherwise, unlike the batch form, the edge is added first, creating
        any missing endpoint with no attributes, so no LookupError can
        arise; the quadruple is then counted once, under the types its
        endpoints had before. */
    method AddRelationQuadruple(q: RelationQuadruple) returns (r: Outcome)
      requires Valid()
      modifies this
      ensures Valid()
      ensures r.Fail? <==> q.attrs.Keys * ADD_EDGE_PARAMS != {}
      ensures r.Fail? ==> r.error.ArgumentClash? && r.error.attr in q.attrs && r.error.attr in ADD_EDGE_PARAMS
      ensures r.Fail? ==> mdg == old(mdg) && ontology == old(ontology)
      ensures r.Pass? ==> mdg == AddEdge(old(mdg), q.head, q.tail, q.rel, q.attrs)
      ensures r.Pass? ==> ontology == Bump(old(ontology), QuadPattern(old(mdg).nodes, q), 1)
      ensures r.Pass? ==> Total(ontology) == old(Total(ontology)) + 1
      ensures r.Pass? ==> Relations() == old(Relations()) + {q.rel}
    {
      if q.attrs.Keys * ADD_EDGE_PARAMS != {} {
        var a :| a in q.attrs.Keys * ADD_EDGE_PARAMS;
        return Fail(ArgumentClash(a));
      }
      AddOneQuad(mdg, ontology, q);
      mdg := AddEdge(mdg, q.head, q.tail, q.rel, q.attrs);
      var outcome := MaintainOntoAddingQuads([q]);
      return Pass;
    }

    // -------------------------------------------------------------------
    // Ontology maintenance

    /** `_maintain_onto_adding_trips`: the `onto_update` Counter of the
        batch is added to the ontology; the graph is left alone. */
    method MaintainOntoAddingTrips(trips: seq<AttributeTriple>)
      requires Valid()
      modifies this
      ensures mdg == old(mdg)
      ensures ontology == Update(old(ontology), TypeDelta(old(mdg), trips))
    {
      var update := OntoUpdate(trips);
      ontology := Update(ontology, update);
    }

    /** The `onto_update` loop of `_maintain_onto_adding_trips`: for each
        `type` triple naming an existing entity, and for each edge leaving
        that entity, one count moves from (old type, relation, tail type) to
        (new type, relation, tail type) unless the two coincide. All lookups
        read the graph as it was before the batch. */
    method OntoUpdate(trips: seq<AttributeTriple>) returns (update: Counter)
      requires Valid()
      ensures update == TypeDelta(mdg, trips)
    {
      var typeTrips := TypeTriples(trips);
      update := map[];
      for i := 0 to |typeTrips|
        invariant update == ApplyMoves(map[], TypeMoves(mdg, typeTrips[..i]))
      {
        var t := typeTrips[i];
        assert typeTrips[..i + 1] == typeTrips[..i] + [t];
        assert t in typeTrips;
        ApplyMovesAppend(map[], TypeMoves(mdg, typeTrips[..i]), TripleMoves(mdg, t));
        if t.entity in Entities() {
          var oldType := ResolveType(t.entity).value;
          update := MoveOutEdges(update, t.entity, oldType, t.value);
        }
      }
      assert typeTrips[..|typeTrips|] == typeTrips;
      TypeMovesOfTypeTriples(mdg, trips);
    }

    /** The inner loop over the quadruples leaving e when its type goes from
        oldType to newType. */
    method MoveOutEdges(update: Counter, e: Entity, oldType: Value, newType: Value) returns (r: Counter)
      requires forall k :: k in OutEdges(mdg, e) ==> k.tail in mdg.nodes
      ensures r == ApplyMoves(update, EdgeMoves(mdg.nodes, oldType, newType, OutEdges(mdg, e)))
    {
      var out := RelationQuadruples(Some(e), None);
      ghost var ks := OutEdges(mdg, e);
      assert out == QuadsAt(mdg, ks);
      r := update;
      for j := 0 to |out|
        invariant r == ApplyMoves(update, EdgeMoves(mdg.nodes, oldType, newType, ks[..j]))
      {
        var q := out[j];
        assert q == QuadAt(mdg, ks[j]);
        assert ks[j] in ks;
        var tailType := ResolveType(q.tail).value;
        var oldP := Pattern(oldType, q.rel, tailType);
        var newP := Pattern(newType, q.rel, tailType);
        ghost var before := r;
        if oldP != newP {
          r := Update(r, map[oldP := -1, newP := 1]);
        }
        MoveStep(update, before, r, mdg.nodes, oldType, newType, ks, j, oldP, newP);
      }
      assert ks[..|out|] == ks;
    }

    /** `_maintain_onto_adding_quads`: each quadruple is counted once under
        (head type, relation, tail type), read from the graph before the
        batch; the first endpoint that is not an entity raises LookupError
        and leaves the ontology untouched. */
    method MaintainOntoAddingQuads(quads: seq<RelationQuadruple>) returns (r: Outcome)
      modifies this
      ensures mdg == old(mdg)
      ensures r == if FirstMissing(mdg.nodes, quads).Some?
                   then Fail(EntityNotFound(FirstMissing(mdg.nodes, quads).value)) else Pass
      ensures r.Pass? ==> ontology == AddAll(old(ontology), QuadPatterns(mdg.nodes, quads))
      ensures r.Fail? ==> ontology == old(ontology)
    {
      var ontoTriples: seq<Pattern> := [];
      for i := 0 to |quads|
        invariant ontoTriples == QuadPatterns(mdg.nodes, quads[..i])
        invariant FirstMissing(mdg.nodes, quads) == FirstMissing(mdg.nodes, quads[i..])
      {
        var q := quads[i];
        assert quads[i..][0] == q && quads[i..][1..] == quads[i + 1..];
        var headType := ResolveType(q.head);
        if headType.Err? {
          return Fail(headType.error);
        }
        var tailType := ResolveType(q.tail);
        if tailType.Err? {
          return Fail(tailType.error);
        }
        assert quads[..i + 1][..i] == quads[..i];
        ontoTriples := ontoTriples + [Pattern(headType.value, q.rel, tailType.value)];
      }
      assert quads[..|quads|] == quads;
      ontology := AddAll(ontology, ontoTriples);
      return Pass;
    }

    /** `_generate_onto_from_mdg`: recounts the ontology from scratch, one
        count per edge under its endpoints' `type` attributes; an endpoint
        without one raises KeyError (reported here with that endpoint) and
        the ontology is left as it was. */
    method GenerateOntoFromMdg() returns (r: Outcome)
      requires Valid()
      modifies this
      ensures mdg == old(mdg)
      ensures Valid()
      ensures r.Pass? <==> AllTyped(mdg)
      ensures r.Pass? ==> ontology == Generated(mdg) && Consistent(mdg, ontology)
      ensures r.Pass? ==> Total(ontology) == |mdg.edges|
      ensures r.Fail? ==> ontology == old(ontology)
      ensures r.Fail? ==> r.error.MissingType? && r.error.entity in mdg.nodes && TYPE !in mdg.nodes[r.error.entity]
    {
      EndsOfOrder(mdg);
      var counted := CountEdgePatterns(mdg.nodes, mdg.order);
      TypedOrder(mdg);
      if counted.Err? {
        return Fail(counted.error);
      }
      ontology := counted.value;
      GeneratedRels(mdg);
      GeneratedTotal(mdg);
      return Pass;
    }
  }

  /** The loop of `_generate_onto_from_mdg`: one count per edge in edge
      order, stopping at the first endpoint without a type. */
  method CountEdgePatterns(nodes: map<Entity, Attrs>, order: seq<EdgeKey>) returns (r: Result<Counter>)
    requires forall j :: 0 <= j < |order| ==> order[j].head in nodes && order[j].tail in nodes
    ensures r.Ok? <==> AllEndsTyped(nodes, order)
    ensures r.Ok? ==> r.value == AddAll(map[], EdgePatterns(nodes, order))
    ensures r.Err? ==> r.error.MissingType? && r.error.entity in nodes && TYPE !in nodes[r.error.entity]
  {
    var onto: Counter := map[];
    for i := 0 to |order|
      invariant onto == AddAll(map[], EdgePatterns(nodes, order[..i]))
      invariant AllEndsTyped(nodes, order[..i])
    {
      var k := order[i];
      if TYPE !in nodes[k.head] {
        UntypedEdge(nodes, order, i);
        return Err(MissingType(k.head));
      }
      if TYPE !in nodes[k.tail] {
        UntypedEdge(nodes, order, i);
        return Err(MissingType(k.tail));
      }
      TypedEdge(nodes, order, i);
      onto := Bump(onto, Pattern(nodes[k.head][TYPE], k.rel, nodes[k.tail][TYPE]), 1);
    }
    assert order[..|order|] == order;
    return Ok(onto);
  }

  /** Filtering the edge order of a well-formed graph by head, and then by
      tail, reports no quadruple twice. */
  lemma FilteredDistinct(g: Graph, ks: seq<EdgeKey>, head: Option<Entity>, tail: Option<Entity>)
    requires ks == if head.Some? && tail.Some? then TailedAt(HeadedAt(g.order, head.value), tail.value)
                   else if head.Some? then HeadedAt(g.order, head.value)
                   else g.order
    ensures Multigraph.Valid(g) ==> forall i, j :: 0 <= i < j < |ks| ==> QuadsAt(g, ks)[i] != QuadsAt(g, ks)[j]
  {
    if Multigraph.Valid(g) {
      if head.Some? {
        HeadedAtDistinct(g.order, head.value);
        if tail.Some? {
          TailedAtDistinct(HeadedAt(g.order, head.value), tail.value);
        }
      }
      QuadsAtDistinct(g, ks);
    }
  }

  /** An edge of order with an untyped end makes the audit fail. */
  lemma UntypedEdge(nodes: map<Entity, Attrs>, order: seq<EdgeKey>, i: nat)
    requires i < |order| && !EndsTyped(nodes, order[i])
    ensures !AllEndsTyped(nodes, order)
  {
    assert order[i] in order;
  }

  /** One more typed edge of order: the prefix stays typed, and its count is
      one more for the edge's pattern. */
  lemma TypedEdge(nodes: map<Entity, Attrs>, order: seq<EdgeKey>, i: nat)
    requires i < |order| && AllEndsTyped(nodes, order[..i]) && EndsTyped(nodes, order[i])
    ensures AllEndsTyped(nodes, order[..i + 1])
    ensures var k := order[i];
            AddAll(map[], EdgePatterns(nodes, order[..i + 1]))
            == Bump(AddAll(map[], EdgePatterns(nodes, order[..i])), Pattern(nodes[k.head][TYPE], k.rel, nodes[k.tail][TYPE]), 1)
  {
    assert order[..i + 1] == order[..i] + [order[i]];
    EdgePatternsStep(nodes, order, i);
  }

  /** The edges in `order` join nodes of the graph. */
  lemma EndsOfOrder(g: Graph)
    requires Multigraph.Valid(g)
    ensures forall j :: 0 <= j < |g.order| ==> g.order[j].head in g.nodes && g.order[j].tail in g.nodes
  {
  }

  /** A graph is fully typed exactly when every edge in its order has typed
      ends. */
  lemma TypedOrder(g: Graph)
    requires Multigraph.Valid(g)
    ensures AllTyped(g) <==> AllEndsTyped(g.nodes, g.order)
  {
  }
}
