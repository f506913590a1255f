/** The ontology of a knowledge graph: a Counter of (head type, relation,
    tail type) patterns, kept up to date by explicit deltas. This module
    defines, on graph values, the deltas the graph store applies when
    attribute triples and relation quadruples are added, the from-scratch
    audit count, and what is proved about them. */
module Ontology {

  import opened Types
  import opened Counter
  import opened Multigraph

  /** The node list `add_attribute_triples` hands to networkx: one
      single-attribute map per triple. */
  function NodesOf(ts: seq<AttributeTriple>): (ns: seq<(Entity, Attrs)>)
    ensures |ns| == |ts|
    ensures forall i :: 0 <= i < |ts| ==> ns[i] == (ts[i].entity, map[ts[i].attr := ts[i].value])
    decreases |ts|
  {
    if ts == [] then []
    else
      var t := ts[|ts| - 1];
      NodesOf(ts[..|ts| - 1]) + [(t.entity, map[t.attr := t.value])]
  }

  /** The edge list `add_relation_quadruples` hands to networkx: (head, tail,
      key, attributes) per quadruple. */
  function EdgesOf(qs: seq<RelationQuadruple>): (es: seq<(Entity, Entity, Relation, Attrs)>)
    ensures |es| == |qs|
    ensures forall i :: 0 <= i < |qs| ==> es[i] == (qs[i].head, qs[i].tail, qs[i].rel, qs[i].attrs)
    decreases |qs|
  {
    if qs == [] then []
    else
      var q := qs[|qs| - 1];
      EdgesOf(qs[..|qs| - 1]) + [(q.head, q.tail, q.rel, q.attrs)]
  }

  /** The type an entity is counted under: its `type` attribute, or
      "unknown" when it has none. */
  function TypeOf(nodes: map<Entity, Attrs>, e: Entity): Value
  {
    if e in nodes && TYPE in nodes[e] then nodes[e][TYPE] else UNKNOWN
  }

  /** The pattern of edge k when its head is counted under type ht. */
  function EdgePatternAs(nodes: map<Entity, Attrs>, ht: Value, k: EdgeKey): Pattern
  {
    Pattern(ht, k.rel, TypeOf(nodes, k.tail))
  }

  // ---------------------------------------------------------------------
  // Type changes

  /** The update for one outgoing edge when its head's type goes from oldT to
      newT: one count moves from the old pattern to the new one, and nothing
      happens when the two patterns coincide. */
  function EdgeMove(nodes: map<Entity, Attrs>, oldT: Value, newT: Value, k: EdgeKey): seq<(Pattern, int)>
  {
    var o, n := EdgePatternAs(nodes, oldT, k), EdgePatternAs(nodes, newT, k);
    if o != n then [(o, -1), (n, 1)] else []
  }

  function EdgeMoves(nodes: map<Entity, Attrs>, oldT: Value, newT: Value, ks: seq<EdgeKey>): seq<(Pattern, int)>
    decreases |ks|
  {
    if ks == [] then []
    else EdgeMoves(nodes, oldT, newT, ks[..|ks| - 1]) + EdgeMove(nodes, oldT, newT, ks[|ks| - 1])
  }

  /** The moves one attribute triple causes: only a `type` triple for an
      entity that already exists moves anything, and then only along that
      entity's outgoing edges, all resolved in the graph g as it was before
      the batch. */
  function TripleMoves(g: Graph, t: AttributeTriple): seq<(Pattern, int)>
  {
    if t.attr == TYPE && t.entity in g.nodes then
      EdgeMoves(g.nodes, TypeOf(g.nodes, t.entity), t.value, OutEdges(g, t.entity))
    else []
  }

  /** The moves of a batch of attribute triples, every one resolved against
      the pre-batch graph g. */
  function TypeMoves(g: Graph, ts: seq<AttributeTriple>): seq<(Pattern, int)>
    decreases |ts|
  {
    if ts == [] then [] else TypeMoves(g, ts[..|ts| - 1]) + TripleMoves(g, ts[|ts| - 1])
  }

  /** The `onto_update` Counter a batch of attribute triples produces. */
  function TypeDelta(g: Graph, ts: seq<AttributeTriple>): Counter
  {
    ApplyMoves(map[], TypeMoves(g, ts))
  }

  /** Only `type` triples matter: filtering them out first changes nothing. */
  function TypeTriples(ts: seq<AttributeTriple>): (r: seq<AttributeTriple>)
    ensures forall t :: t in r <==> t in ts && t.attr == TYPE
    decreases |ts|
  {
    if ts == [] then []
    else
      var last := ts[|ts| - 1];
      var r := TypeTriples(ts[..|ts| - 1]) + (if last.attr == TYPE then [last] else []);
      InLast(ts);
      r
  }

  // ---------------------------------------------------------------------
  // Relation quadruples

  /** The pattern a new quadruple is counted under: both ends resolved with
      the current types, "unknown" for an end without one. */
  function QuadPattern(nodes: map<Entity, Attrs>, q: RelationQuadruple): Pattern
  {
    Pattern(TypeOf(nodes, q.head), q.rel, TypeOf(nodes, q.tail))
  }

  function QuadPatterns(nodes: map<Entity, Attrs>, qs: seq<RelationQuadruple>): (ps: seq<Pattern>)
    ensures |ps| == |qs|
    decreases |qs|
  {
    if qs == [] then [] else QuadPatterns(nodes, qs[..|qs| - 1]) + [QuadPattern(nodes, qs[|qs| - 1])]
  }

  /** The first endpoint, in batch order and head before tail, that is not
      yet an entity: the one a batch's LookupError names. */
  function FirstMissing(nodes: map<Entity, Attrs>, qs: seq<RelationQuadruple>): (r: Option<Entity>)
    ensures r.None? <==> forall i :: 0 <= i < |qs| ==> qs[i].head in nodes && qs[i].tail in nodes
    ensures r.Some? ==> r.value !in nodes && exists i :: 0 <= i < |qs| && (r.value == qs[i].head || r.value == qs[i].tail)
    decreases |qs|
  {
    if qs == [] then None
    else if qs[0].head !in nodes then Some(qs[0].head)
    else if qs[0].tail !in nodes then Some(qs[0].tail)
    else
      var r := FirstMissing(nodes, qs[1..]);
      assert forall i :: 1 <= i < |qs| ==> qs[i] == qs[1..][i - 1];
      r
  }

  /** A batch of one quadruple fails on its first missing end, and
      otherwise counts its one pattern. */
  lemma OneQuad(nodes: map<Entity, Attrs>, c: Counter, q: RelationQuadruple)
    ensures FirstMissing(nodes, [q]) == if q.head !in nodes then Some(q.head) else if q.tail !in nodes then Some(q.tail) else None
    ensures AddAll(c, QuadPatterns(nodes, [q])) == Bump(c, QuadPattern(nodes, q), 1)
  {
    assert [q][1..] == [];
    assert [q][..0] == [];
    assert QuadPatterns(nodes, [q]) == [QuadPattern(nodes, q)];
    var ps := [QuadPattern(nodes, q)];
    assert ps[..0] == [];
  }

  /** `add_relation_quadruple` on values: the edge is added first, so both
      ends exist when the quadruple is counted, under the types its ends had
      before; the total grows by one and the relation label is recorded. */
  lemma AddOneQuad(g: Graph, c: Counter, q: RelationQuadruple)
    requires Valid(g) && Rels(c) == EdgeRels(g)
    ensures var g' := AddEdge(g, q.head, q.tail, q.rel, q.attrs);
            && Valid(g')
            && FirstMissing(g'.nodes, [q]).None?
            && AddAll(c, QuadPatterns(g'.nodes, [q])) == Bump(c, QuadPattern(g.nodes, q), 1)
            && Total(Bump(c, QuadPattern(g.nodes, q), 1)) == Total(c) + 1
            && Rels(Bump(c, QuadPattern(g.nodes, q), 1)) == EdgeRels(g')
            && Rels(Bump(c, QuadPattern(g.nodes, q), 1)) == Rels(c) + {q.rel}
  {
    var g' := AddEdge(g, q.head, q.tail, q.rel, q.attrs);
    AddEdgeValid(g, q.head, q.tail, q.rel, q.attrs);
    AddEdgeNewNodes(g, q.head, q.tail, q.rel, q.attrs);
    OneQuad(g'.nodes, c, q);
    AddEdgeTypes(g, q.head, q.tail, q.rel, q.attrs, q.head);
    AddEdgeTypes(g, q.head, q.tail, q.rel, q.attrs, q.tail);
    TotalBump(c, QuadPattern(g.nodes, q), 1);
    RelsBump(c, QuadPattern(g.nodes, q), 1);
    EdgeRelsAddEdge(g, q.head, q.tail, q.rel, q.attrs);
  }

  /** `add_edge` changes no entity's type: an end it creates has no
      attributes and counts as "unknown", as it did before. */
  lemma AddEdgeTypes(g: Graph, h: Entity, t: Entity, rel: Relation, attrs: Attrs, e: Entity)
    ensures TypeOf(AddEdge(g, h, t, rel, attrs).nodes, e) == TypeOf(g.nodes, e)
  {
    AddEdgeNewNodes(g, h, t, rel, attrs);
  }

  /** The entities a batch of triples names. */
  lemma NodesOfEntities(ts: seq<AttributeTriple>)
    ensures (set n | n in NodesOf(ts) :: n.0) == set t | t in ts :: t.entity
  {
    var ns := NodesOf(ts);
    var named, given := set n | n in ns :: n.0, set t | t in ts :: t.entity;
    forall e | e in named ensures e in given {
      var n :| n in ns && n.0 == e;
      var i :| 0 <= i < |ns| && ns[i] == n;
      assert ts[i] in ts;
    }
    forall e | e in given ensures e in named {
      var t :| t in ts && t.entity == e;
      var i :| 0 <= i < |ts| && ts[i] == t;
      assert ns[i] in ns;
    }
  }

  /** The relation labels of a batch of quadruples. */
  function QuadRels(qs: seq<RelationQuadruple>): set<Relation>
  {
    set q | q in qs :: q.rel
  }

  // ---------------------------------------------------------------------
  // The from-scratch audit

  /** Both ends of every edge carry a `type` attribute: the audit's
      precondition, without which it raises KeyError. */
  ghost predicate AllTyped(g: Graph)
  {
    forall k :: k in g.edges ==> EndsTyped(g.nodes, k)
  }

  /** Both ends of every edge among ks are entities with a `type`
      attribute. */
  predicate AllEndsTyped(nodes: map<Entity, Attrs>, ks: seq<EdgeKey>)
  {
    forall k :: k in ks ==> EndsTyped(nodes, k)
  }

  /** Both ends of edge k are entities with a `type` attribute. */
  predicate EndsTyped(nodes: map<Entity, Attrs>, k: EdgeKey)
  {
    && k.head in nodes && TYPE in nodes[k.head]
    && k.tail in nodes && TYPE in nodes[k.tail]
  }

  function EdgePatterns(nodes: map<Entity, Attrs>, ks: seq<EdgeKey>): (ps: seq<Pattern>)
    ensures |ps| == |ks|
    decreases |ks|
  {
    if ks == [] then []
    else EdgePatterns(nodes, ks[..|ks| - 1]) + [EdgePatternAs(nodes, TypeOf(nodes, ks[|ks| - 1].head), ks[|ks| - 1])]
  }

  /** Counting one more edge of ks adds one to that edge's pattern. */
  lemma EdgePatternsStep(nodes: map<Entity, Attrs>, ks: seq<EdgeKey>, i: nat)
    requires i < |ks|
    ensures AddAll(map[], EdgePatterns(nodes, ks[..i + 1]))
            == Bump(AddAll(map[], EdgePatterns(nodes, ks[..i])), EdgePatternAs(nodes, TypeOf(nodes, ks[i].head), ks[i]), 1)
  {
    assert ks[..i + 1][..i] == ks[..i];
  }

  /** The audit's count: one per distinct edge, under the current types. */
  function Generated(g: Graph): Counter
  {
    AddAll(map[], EdgePatterns(g.nodes, g.order))
  }

  /** The incremental ontology c agrees exactly with the audit of g. */
  ghost predicate Consistent(g: Graph, c: Counter)
  {
    AllTyped(g) && c == Generated(g)
  }

  /** Some edge starts at e. */
  ghost predicate Heads(g: Graph, e: Entity)
  {
    exists k :: k in g.order && k.head == e
  }

  /** Some edge starts or ends at e. */
  ghost predicate Touches(g: Graph, e: Entity)
  {
    exists k :: k in g.edges && (k.head == e || k.tail == e)
  }

  // ---------------------------------------------------------------------
  // Counting helpers

  /** How many of the edges ks fall under pattern p when their head is
      counted under type ht. */
  function CountAs(nodes: map<Entity, Attrs>, ht: Value, ks: seq<EdgeKey>, p: Pattern): nat
    decreases |ks|
  {
    if ks == [] then 0
    else CountAs(nodes, ht, ks[..|ks| - 1], p) + (if EdgePatternAs(nodes, ht, ks[|ks| - 1]) == p then 1 else 0)
  }

  // ---------------------------------------------------------------------
  // Lemmas

  /** For each outgoing edge, a type change from oldT to newT takes one count
      from the edge's old pattern and gives one to its new pattern: the count
      of any pattern p changes by (edges now under p) - (edges formerly under
      p). */
  lemma {:induction false} EdgeMovesCount(nodes: map<Entity, Attrs>, oldT: Value, newT: Value, ks: seq<EdgeKey>, c: Counter, p: Pattern)
    ensures Get(ApplyMoves(c, EdgeMoves(nodes, oldT, newT, ks)), p)
         == Get(c, p) + CountAs(nodes, newT, ks, p) - CountAs(nodes, oldT, ks, p)
    decreases |ks|
  {
    if ks != [] {
      var init, k := ks[..|ks| - 1], ks[|ks| - 1];
      EdgeMovesCount(nodes, oldT, newT, init, c, p);
      ApplyMovesAppend(c, EdgeMoves(nodes, oldT, newT, init), EdgeMove(nodes, oldT, newT, k));
      var c' := ApplyMoves(c, EdgeMoves(nodes, oldT, newT, init));
      var o, n := EdgePatternAs(nodes, oldT, k), EdgePatternAs(nodes, newT, k);
      if o != n {
        ApplyTwoMoves(c', (o, -1), (n, 1));
      }
    }
  }

  /** A type change moves counts between patterns but never changes the
      total. */
  lemma {:induction false} EdgeMovesBalanced(nodes: map<Entity, Attrs>, oldT: Value, newT: Value, ks: seq<EdgeKey>)
    ensures SumMoves(EdgeMoves(nodes, oldT, newT, ks)) == 0
    decreases |ks|
  {
    if ks != [] {
      var init, k := ks[..|ks| - 1], ks[|ks| - 1];
      EdgeMovesBalanced(nodes, oldT, newT, init);
      SumMovesAppend(EdgeMoves(nodes, oldT, newT, init), EdgeMove(nodes, oldT, newT, k));
      var o, n := EdgePatternAs(nodes, oldT, k), EdgePatternAs(nodes, newT, k);
      if o != n {
        var m := [(o, -1), (n, 1)];
        assert SumMoves([(o, -1)]) == -1 by { assert [(o, -1)][..0] == []; }
        assert m[..|m| - 1] == [(o, -1)];
      }
    }
  }

  lemma {:induction false} TypeMovesAppend(g: Graph, a: seq<AttributeTriple>, b: seq<AttributeTriple>)
    ensures TypeMoves(g, a + b) == TypeMoves(g, a) + TypeMoves(g, b)
    decreases |b|
  {
    if b == [] {
      assert a + b == a;
    } else {
      assert (a + b)[..|a + b| - 1] == a + b[..|b| - 1];
      TypeMovesAppend(g, a, b[..|b| - 1]);
    }
  }

  /** Attribute triples never change the sum of the ontology's counts. */
  lemma TotalAfterTriples(g: Graph, c: Counter, ts: seq<AttributeTriple>)
    ensures Total(Update(c, TypeDelta(g, ts))) == Total(c)
  {
    TypeMovesBalanced(g, ts);
    UpdateApplyMoves(c, TypeMoves(g, ts));
    TotalApplyMoves(c, TypeMoves(g, ts));
  }


  lemma {:induction false} TypeMovesBalanced(g: Graph, ts: seq<AttributeTriple>)
    ensures SumMoves(TypeMoves(g, ts)) == 0
    decreases |ts|
  {
    if ts != [] {
      var init, t := ts[..|ts| - 1], ts[|ts| - 1];
      TypeMovesBalanced(g, init);
      SumMovesAppend(TypeMoves(g, init), TripleMoves(g, t));
      if t.attr == TYPE && t.entity in g.nodes {
        EdgeMovesBalanced(g.nodes, TypeOf(g.nodes, t.entity), t.value, OutEdges(g, t.entity));
      }
    }
  }

  /** A type change is a no-op when the type does not change. */
  lemma {:induction false} EdgeMovesSameType(nodes: map<Entity, Attrs>, ty: Value, ks: seq<EdgeKey>)
    ensures EdgeMoves(nodes, ty, ty, ks) == []
    decreases |ks|
  {
    if ks != [] {
      EdgeMovesSameType(nodes, ty, ks[..|ks| - 1]);
    }
  }

  /** A triple moves nothing when it is not a `type` triple, when its entity
      is new, when it repeats the entity's current type, or when the entity
      has no outgoing edge, whatever edges end at it. */
  lemma TripleMovesNoOp(g: Graph, t: AttributeTriple)
    requires || t.attr != TYPE
             || t.entity !in g.nodes
             || TypeOf(g.nodes, t.entity) == t.value
             || (forall k :: k in g.order ==> k.head != t.entity)
    ensures TripleMoves(g, t) == []
  {
    if t.attr == TYPE && t.entity in g.nodes {
      var out := OutEdges(g, t.entity);
      if TypeOf(g.nodes, t.entity) == t.value {
        EdgeMovesSameType(g.nodes, t.value, out);
      } else {
        NoneHeadedAt(g.order, t.entity);
      }
    }
  }

  lemma {:induction false} NoneHeadedAt(ks: seq<EdgeKey>, h: Entity)
    requires forall k :: k in ks ==> k.head != h
    ensures HeadedAt(ks, h) == []
    decreases |ks|
  {
    if ks != [] {
      assert ks[|ks| - 1] in ks;
      assert forall k :: k in ks[..|ks| - 1] ==> k in ks;
      NoneHeadedAt(ks[..|ks| - 1], h);
    }
  }

  /** On a graph with no entities yet, no triple moves anything. */
  lemma {:induction false} TypeMovesOnEmpty(ts: seq<AttributeTriple>)
    ensures TypeMoves(Empty(), ts) == []
    decreases |ts|
  {
    if ts != [] {
      TypeMovesOnEmpty(ts[..|ts| - 1]);
    }
  }

  /** One step of the inner loop of the type-change maintenance: the update
      after j + 1 outgoing edges is the update after j edges plus the pair
      of moves of edge j, added as one Counter. */
  lemma StepEdgeMove(c: Counter, nodes: map<Entity, Attrs>, oldT: Value, newT: Value, ks: seq<EdgeKey>, j: nat)
    requires j < |ks|
    ensures var u := ApplyMoves(c, EdgeMoves(nodes, oldT, newT, ks[..j]));
            var o, n := EdgePatternAs(nodes, oldT, ks[j]), EdgePatternAs(nodes, newT, ks[j]);
            ApplyMoves(c, EdgeMoves(nodes, oldT, newT, ks[..j + 1]))
            == if o != n then Update(u, map[o := -1, n := 1]) else u
  {
    assert ks[..j + 1][..j] == ks[..j];
    var front := EdgeMoves(nodes, oldT, newT, ks[..j]);
    var m := EdgeMove(nodes, oldT, newT, ks[j]);
    ApplyMovesAppend(c, front, m);
    var o, n := EdgePatternAs(nodes, oldT, ks[j]), EdgePatternAs(nodes, newT, ks[j]);
    if o != n {
      UpdatePair(ApplyMoves(c, front), o, n);
    } else {
      assert front + m == front;
    }
  }

  /** One step of the loop over the edges leaving an entity: moving the
      count of edge ks[j] extends the moves of ks[..j] to ks[..j + 1]. */
  lemma MoveStep(c: Counter, r: Counter, r': Counter, nodes: map<Entity, Attrs>, oldT: Value, newT: Value,
                 ks: seq<EdgeKey>, j: nat, o: Pattern, n: Pattern)
    requires j < |ks|
    requires r == ApplyMoves(c, EdgeMoves(nodes, oldT, newT, ks[..j]))
    requires o == EdgePatternAs(nodes, oldT, ks[j]) && n == EdgePatternAs(nodes, newT, ks[j])
    requires r' == if o != n then Update(r, map[o := -1, n := 1]) else r
    ensures r' == ApplyMoves(c, EdgeMoves(nodes, oldT, newT, ks[..j + 1]))
  {
    StepEdgeMove(c, nodes, oldT, newT, ks, j);
  }

  /** Every pattern a type change touches names the relation of an existing
      edge, so `relations()` is unchanged by attribute triples. */
  lemma {:induction false} EdgeMovesRels(nodes: map<Entity, Attrs>, oldT: Value, newT: Value, ks: seq<EdgeKey>)
    ensures forall m :: m in EdgeMoves(nodes, oldT, newT, ks) ==> exists k :: k in ks && m.0.rel == k.rel
    decreases |ks|
  {
    if ks != [] {
      var init, k := ks[..|ks| - 1], ks[|ks| - 1];
      EdgeMovesRels(nodes, oldT, newT, init);
      assert forall x :: x in init ==> x in ks;
      assert k in ks;
    }
  }

  lemma {:induction false} TypeMovesRels(g: Graph, ts: seq<AttributeTriple>)
    requires Valid(g)
    ensures forall m :: m in TypeMoves(g, ts) ==> m.0.rel in EdgeRels(g)
    decreases |ts|
  {
    if ts != [] {
      var init, t := ts[..|ts| - 1], ts[|ts| - 1];
      TypeMovesRels(g, init);
      if t.attr == TYPE && t.entity in g.nodes {
        EdgeMovesRels(g.nodes, TypeOf(g.nodes, t.entity), t.value, OutEdges(g, t.entity));
      }
    }
  }

  /** Dropping the non-`type` triples first gives the same moves. */
  lemma {:induction false} TypeMovesOfTypeTriples(g: Graph, ts: seq<AttributeTriple>)
    ensures TypeMoves(g, TypeTriples(ts)) == TypeMoves(g, ts)
    decreases |ts|
  {
    if ts != [] {
      var init, t := ts[..|ts| - 1], ts[|ts| - 1];
      if t.attr == TYPE {
        calc {
          TypeMoves(g, TypeTriples(ts));
          { assert TypeTriples(ts) == TypeTriples(init) + [t]; }
          TypeMoves(g, TypeTriples(init) + [t]);
          { TypeMovesAppend(g, TypeTriples(init), [t]); assert [t][..0] == []; }
          TypeMoves(g, TypeTriples(init)) + TripleMoves(g, t);
          { TypeMovesOfTypeTriples(g, init); }
          TypeMoves(g, ts);
        }
      } else {
        calc {
          TypeMoves(g, TypeTriples(ts));
          { assert TypeTriples(ts) == TypeTriples(init); }
          TypeMoves(g, TypeTriples(init));
          { TypeMovesOfTypeTriples(g, init); }
          TypeMoves(g, init);
          TypeMoves(g, init) + TripleMoves(g, t);
        }
      }
    }
  }


  lemma {:induction false} TypeMovesPermutation(g: Graph, ts: seq<AttributeTriple>, us: seq<AttributeTriple>)
    requires multiset(ts) == multiset(us)
    ensures multiset(TypeMoves(g, ts)) == multiset(TypeMoves(g, us))
    decreases |ts|
  {
    if ts != [] {
      var init, t := ts[..|ts| - 1], ts[|ts| - 1];
      assert t in multiset(us) by { assert t in ts; }
      var i :| 0 <= i < |us| && us[i] == t;
      var a, b := us[..i], us[i + 1..];
      assert us == a + [t] + b;
      var m := TripleMoves(g, t);
      calc {
        multiset(TypeMoves(g, ts));
        multiset(TypeMoves(g, init) + m);
        multiset(TypeMoves(g, init)) + multiset(m);
        { TripleCancel(ts, a, t, b, us); TypeMovesPermutation(g, init, a + b); }
        multiset(TypeMoves(g, a + b)) + multiset(m);
        { TypeMovesAppend(g, a, b); }
        multiset(TypeMoves(g, a)) + multiset(TypeMoves(g, b)) + multiset(m);
        multiset(TypeMoves(g, a) + m + TypeMoves(g, b));
        { TypeMovesAppend(g, a, [t]); assert [t][..0] == []; }
        multiset(TypeMoves(g, a + [t]) + TypeMoves(g, b));
        { TypeMovesAppend(g, a + [t], b); }
        multiset(TypeMoves(g, us));
      }
    }
  }


  lemma TripleCancel(ts: seq<AttributeTriple>, a: seq<AttributeTriple>, t: AttributeTriple, b: seq<AttributeTriple>, us: seq<AttributeTriple>)
    requires |ts| > 0 && ts[|ts| - 1] == t && us == a + [t] + b
    requires multiset(ts) == multiset(us)
    ensures multiset(ts[..|ts| - 1]) == multiset(a + b)
  {
    var init := ts[..|ts| - 1];
    assert ts == init + [t];
    assert multiset(ts) == multiset(init) + multiset{t};
    assert multiset(us) == multiset(a) + multiset{t} + multiset(b);
    assert multiset(a + b) == multiset(a) + multiset(b);
    forall x ensures multiset(init)[x] == multiset(a + b)[x] {
      assert multiset(ts)[x] == multiset(init)[x] + multiset{t}[x];
      assert multiset(us)[x] == multiset(a)[x] + multiset{t}[x] + multiset(b)[x];
    }
  }

  /** The ontology update of a batch does not depend on the order of its
      triples: every delta is resolved against the pre-batch graph. */
  lemma TypeDeltaPermutation(g: Graph, ts: seq<AttributeTriple>, us: seq<AttributeTriple>)
    requires multiset(ts) == multiset(us)
    ensures TypeDelta(g, ts) == TypeDelta(g, us)
  {
    TypeMovesPermutation(g, ts, us);
    ApplyMovesPermutation(map[], TypeMoves(g, ts), TypeMoves(g, us));
  }

  /** Each quadruple adds exactly one count, to the pattern resolved from its
      endpoints' current types, whether or not its edge already existed. */
  lemma {:induction false} QuadPatternsCount(nodes: map<Entity, Attrs>, qs: seq<RelationQuadruple>, c: Counter)
    ensures Total(AddAll(c, QuadPatterns(nodes, qs))) == Total(c) + |qs|
    ensures forall p :: Get(AddAll(c, QuadPatterns(nodes, qs)), p) == Get(c, p) + multiset(QuadPatterns(nodes, qs))[p]
    ensures forall p :: p in AddAll(c, QuadPatterns(nodes, qs)) <==> p in c || exists q :: q in qs && p == QuadPattern(nodes, q)
  {
    TotalAddAll(c, QuadPatterns(nodes, qs));
    QuadPatternsAt(nodes, qs);
    forall p ensures Get(AddAll(c, QuadPatterns(nodes, qs)), p) == Get(c, p) + multiset(QuadPatterns(nodes, qs))[p] {
      AddAllGet(c, QuadPatterns(nodes, qs), p);
    }
  }

  lemma {:induction false} QuadPatternsAt(nodes: map<Entity, Attrs>, qs: seq<RelationQuadruple>)
    ensures forall p :: p in QuadPatterns(nodes, qs) <==> exists q :: q in qs && p == QuadPattern(nodes, q)
    decreases |qs|
  {
    if qs != [] {
      var init, q := qs[..|qs| - 1], qs[|qs| - 1];
      QuadPatternsAt(nodes, init);
      assert qs == init + [q];
      forall p ensures p in QuadPatterns(nodes, qs) <==> exists x :: x in qs && p == QuadPattern(nodes, x) {
        if p == QuadPattern(nodes, q) {
          assert q in qs;
        }
        if exists x :: x in qs && p == QuadPattern(nodes, x) {
          var x :| x in qs && p == QuadPattern(nodes, x);
          if x != q { assert x in init; }
        }
      }
    }
  }

  lemma {:induction false} EdgePatternsAppend(nodes: map<Entity, Attrs>, a: seq<EdgeKey>, b: seq<EdgeKey>)
    ensures EdgePatterns(nodes, a + b) == EdgePatterns(nodes, a) + EdgePatterns(nodes, b)
    decreases |b|
  {
    if b == [] {
      assert a + b == a;
    } else {
      assert (a + b)[..|a + b| - 1] == a + b[..|b| - 1];
      EdgePatternsAppend(nodes, a, b[..|b| - 1]);
    }
  }

  /** The audit's patterns of newly added edges are the patterns the
      incremental path counted for their quadruples. */
  lemma {:induction false} EdgePatternsOfQuads(nodes: map<Entity, Attrs>, qs: seq<RelationQuadruple>)
    ensures EdgePatterns(nodes, KeysOf(EdgesOf(qs))) == QuadPatterns(nodes, qs)
    decreases |qs|
  {
    if qs != [] {
      EdgePatternsOfQuads(nodes, qs[..|qs| - 1]);
      assert EdgesOf(qs)[..|qs| - 1] == EdgesOf(qs[..|qs| - 1]);
    }
  }

  /** The audit's patterns only depend on the types of the edges' ends. */
  lemma {:induction false} EdgePatternsFrame(nodes: map<Entity, Attrs>, nodes': map<Entity, Attrs>, ks: seq<EdgeKey>)
    requires forall k :: k in ks ==> TypeOf(nodes, k.head) == TypeOf(nodes', k.head) && TypeOf(nodes, k.tail) == TypeOf(nodes', k.tail)
    ensures EdgePatterns(nodes, ks) == EdgePatterns(nodes', ks)
    decreases |ks|
  {
    if ks != [] {
      assert forall k :: k in ks[..|ks| - 1] ==> k in ks;
      EdgePatternsFrame(nodes, nodes', ks[..|ks| - 1]);
      assert ks[|ks| - 1] in ks;
    }
  }

  /** The audit counts one per distinct edge: its total is the number of
      edges. */
  lemma GeneratedTotal(g: Graph)
    requires Valid(g)
    ensures Total(Generated(g)) == |g.edges|
  {
    TotalAddAll(map[], EdgePatterns(g.nodes, g.order));
    assert Total(map[]) == 0;
    EdgeCount(g);
  }

  /** Both the audit and the incremental path start from an empty count on an
      empty graph. */
  lemma ConsistentEmpty()
    ensures Consistent(Empty(), map[])
  {
  }

  /** Replaying attribute triples keeps each entity's type when every `type`
      triple for it repeats that type. */
  lemma {:induction false} TypeKeptByTriples(g: Graph, ts: seq<AttributeTriple>, e: Entity)
    requires e in g.nodes && TYPE in g.nodes[e]
    requires forall i :: 0 <= i < |ts| && ts[i].entity == e && ts[i].attr == TYPE ==> ts[i].value == g.nodes[e][TYPE]
    ensures e in AddNodesFrom(g, NodesOf(ts)).nodes
    ensures TYPE in AddNodesFrom(g, NodesOf(ts)).nodes[e]
    ensures AddNodesFrom(g, NodesOf(ts)).nodes[e][TYPE] == g.nodes[e][TYPE]
    decreases |ts|
  {
    if ts != [] {
      var init := ts[..|ts| - 1];
      assert NodesOf(ts)[..|ts| - 1] == NodesOf(init);
      TypeKeptByTriples(g, init, e);
    }
  }

  /** The incremental ontology stays equal to the audit under attribute
      triples, provided no `type` triple changes the type of an entity that
      some edge touches. */
  lemma AddTriplesKeepsConsistent(g: Graph, c: Counter, ts: seq<AttributeTriple>)
    requires Valid(g) && Consistent(g, c)
    requires forall i :: 0 <= i < |ts| && ts[i].attr == TYPE && Touches(g, ts[i].entity) ==> ts[i].value == TypeOf(g.nodes, ts[i].entity)
    ensures Consistent(AddNodesFrom(g, NodesOf(ts)), Update(c, TypeDelta(g, ts)))
  {
    forall e | Heads(g, e) ensures Touches(g, e) {
      var k :| k in g.order && k.head == e;
      assert k in g.edges;
    }
    NoTypeMoves(g, ts);
    assert Update(c, map[]) == c;
    var g' := AddNodesFrom(g, NodesOf(ts));
    forall k | k in g.order
      ensures TypeOf(g.nodes, k.head) == TypeOf(g'.nodes, k.head) && TypeOf(g.nodes, k.tail) == TypeOf(g'.nodes, k.tail)
      ensures TYPE in g'.nodes[k.head] && TYPE in g'.nodes[k.tail]
    {
      assert Touches(g, k.head) && Touches(g, k.tail);
      TypeKeptByTriples(g, ts, k.head);
      TypeKeptByTriples(g, ts, k.tail);
    }
    EdgePatternsFrame(g.nodes, g'.nodes, g.order);
  }

  /** A batch whose `type` triples retype no entity that heads an edge
      moves nothing, whatever it does to entities that only receive edges. */
  lemma {:induction false} NoTypeMoves(g: Graph, ts: seq<AttributeTriple>)
    requires forall i :: 0 <= i < |ts| && ts[i].attr == TYPE && Heads(g, ts[i].entity) ==> ts[i].value == TypeOf(g.nodes, ts[i].entity)
    ensures TypeMoves(g, ts) == []
    decreases |ts|
  {
    if ts != [] {
      var t := ts[|ts| - 1];
      NoTypeMoves(g, ts[..|ts| - 1]);
      if !Heads(g, t.entity) {
        assert forall k :: k in g.order ==> k.head != t.entity;
      }
      TripleMovesNoOp(g, t);
    }
  }

  /** The incremental ontology stays equal to the audit under relation
      quadruples, provided every endpoint already exists with a type and
      every quadruple fills a new, distinct edge slot. */
  lemma AddQuadsKeepsConsistent(g: Graph, c: Counter, qs: seq<RelationQuadruple>)
    requires Valid(g) && Consistent(g, c)
    requires forall i :: 0 <= i < |qs| ==> qs[i].head in g.nodes && TYPE in g.nodes[qs[i].head]
    requires forall i :: 0 <= i < |qs| ==> qs[i].tail in g.nodes && TYPE in g.nodes[qs[i].tail]
    requires forall i :: 0 <= i < |qs| ==> EdgeKey(qs[i].head, qs[i].tail, qs[i].rel) !in g.edges
    requires Distinct(KeysOf(EdgesOf(qs)))
    ensures Consistent(AddEdgesFrom(g, EdgesOf(qs)), AddAll(c, QuadPatterns(g.nodes, qs)))
  {
    var es := EdgesOf(qs);
    AddNewEdges(g, es);
    GeneratedAfterNewEdges(g, qs);
    NewEdgesTyped(g, qs);
  }

  /** Re-adding a quadruple whose slot already exists counts its pattern a
      second time while the graph keeps a single edge: the incremental
      ontology counts additions, the audit counts distinct edges. */
  lemma ReAddCountsTwice(g: Graph, c: Counter, q: RelationQuadruple)
    requires Valid(g) && Consistent(g, c)
    requires EdgeKey(q.head, q.tail, q.rel) in g.edges
    ensures var g' := AddEdge(g, q.head, q.tail, q.rel, q.attrs);
      && g'.order == g.order
      && Generated(g') == c
      && Bump(c, QuadPattern(g.nodes, q), 1) != Generated(g')
  {
    var g' := AddEdge(g, q.head, q.tail, q.rel, q.attrs);
    assert g'.nodes == g.nodes;
    var p := QuadPattern(g.nodes, q);
    assert Get(Bump(c, p, 1), p) != Get(c, p);
  }

  /** A `type` triple for an entity that only receives edges moves nothing,
      so the incremental ontology stops agreeing with the audit: with one
      edge a -rel-> b, retyping b from y to z keeps (x, rel, y) counted where
      the audit now counts (x, rel, z). */
  lemma TailRetypeNotTracked(a: Entity, b: Entity, rel: Relation, x: Value, y: Value, z: Value,
                             g: Graph, c: Counter, t: AttributeTriple)
    requires a != b && y != z
    requires g == Graph(map[a := map[TYPE := x], b := map[TYPE := y]], map[EdgeKey(a, b, rel) := map[]], [EdgeKey(a, b, rel)])
    requires c == map[Pattern(x, rel, y) := 1]
    requires t == AttributeTriple(b, TYPE, z)
    ensures Valid(g) && Consistent(g, c)
    ensures Update(c, TypeDelta(g, [t])) == c
    ensures Generated(AddNodesFrom(g, NodesOf([t]))) != Update(c, TypeDelta(g, [t]))
  {
    var k := EdgeKey(a, b, rel);
    SingleEdgeConsistent(g, k);
    assert EdgePatternAs(g.nodes, TypeOf(g.nodes, a), k) == Pattern(x, rel, y);
    NoOutEdgesNoMoves(g, t);
    UpdateEmpty(c);
    RetypeTail(g, k, t);
    assert Pattern(x, rel, y) !in map[Pattern(x, rel, z) := 1];
  }

  /** A graph with a single edge between typed entities agrees with the
      count of that edge's pattern. */
  lemma SingleEdgeConsistent(g: Graph, k: EdgeKey)
    requires g.order == [k] && g.edges.Keys == {k}
    requires k.head in g.nodes && TYPE in g.nodes[k.head] && k.tail in g.nodes && TYPE in g.nodes[k.tail]
    ensures Valid(g) && Consistent(g, map[EdgePatternAs(g.nodes, TypeOf(g.nodes, k.head), k) := 1])
  {
    OneEdgeGenerated(g, k);
  }

  /** Retyping the tail of the only edge of a graph changes the pattern the
      audit counts for it. */
  lemma RetypeTail(g: Graph, k: EdgeKey, t: AttributeTriple)
    requires g.order == [k] && k.head in g.nodes && k.head != t.entity
    requires k.tail == t.entity && t.attr == TYPE
    ensures Generated(AddNodesFrom(g, NodesOf([t]))) == map[Pattern(TypeOf(g.nodes, k.head), k.rel, t.value) := 1]
  {
    OneTriple(g, t);
    var g' := AddNode(g, t.entity, map[TYPE := t.value]);
    assert g'.nodes[k.head] == g.nodes[k.head];
    assert g'.nodes[t.entity] == AttrsAt(g.nodes, t.entity) + map[TYPE := t.value];
    OneEdgeGenerated(g', k);
  }

  /** The audit of a graph with a single edge counts that edge's pattern
      once. */
  lemma OneEdgeGenerated(g: Graph, k: EdgeKey)
    requires g.order == [k]
    ensures Generated(g) == map[EdgePatternAs(g.nodes, TypeOf(g.nodes, k.head), k) := 1]
  {
    var p := EdgePatternAs(g.nodes, TypeOf(g.nodes, k.head), k);
    assert [k][..0] == [];
    assert EdgePatterns(g.nodes, [k]) == [p];
    assert [p][..0] == [];
    assert Bump(map[], p, 1) == map[p := 1];
  }

  /** A triple for an entity without outgoing edges moves nothing. */
  lemma NoOutEdgesNoMoves(g: Graph, t: AttributeTriple)
    requires forall k :: k in g.order ==> k.head != t.entity
    ensures TypeDelta(g, [t]) == map[]
  {
    assert [t][..0] == [];
    var out := OutEdges(g, t.entity);
    assert forall j :: 0 <= j < |out| ==> out[j] in out;
    assert TypeMoves(g, [t]) == [];
  }

  /** Adding one triple is `add_node` with one attribute. */
  lemma OneTriple(g: Graph, t: AttributeTriple)
    ensures AddNodesFrom(g, NodesOf([t])) == AddNode(g, t.entity, map[t.attr := t.value])
  {
    assert NodesOf([t]) == [(t.entity, map[t.attr := t.value])];
    assert NodesOf([t])[..0] == [];
  }

  lemma GeneratedAfterNewEdges(g: Graph, qs: seq<RelationQuadruple>)
    requires AddEdgesFrom(g, EdgesOf(qs)).nodes == g.nodes
    requires AddEdgesFrom(g, EdgesOf(qs)).order == g.order + KeysOf(EdgesOf(qs))
    ensures Generated(AddEdgesFrom(g, EdgesOf(qs))) == AddAll(Generated(g), QuadPatterns(g.nodes, qs))
  {
    var ks := KeysOf(EdgesOf(qs));
    EdgePatternsAppend(g.nodes, g.order, ks);
    EdgePatternsOfQuads(g.nodes, qs);
    AddAllAppend(map[], EdgePatterns(g.nodes, g.order), QuadPatterns(g.nodes, qs));
  }

  lemma NewEdgesTyped(g: Graph, qs: seq<RelationQuadruple>)
    requires AllTyped(g)
    requires AddEdgesFrom(g, EdgesOf(qs)).nodes == g.nodes
    requires forall i :: 0 <= i < |qs| ==> qs[i].head in g.nodes && TYPE in g.nodes[qs[i].head]
    requires forall i :: 0 <= i < |qs| ==> qs[i].tail in g.nodes && TYPE in g.nodes[qs[i].tail]
    ensures AllTyped(AddEdgesFrom(g, EdgesOf(qs)))
  {
    var g' := AddEdgesFrom(g, EdgesOf(qs));
    forall k | k in g'.edges
      ensures k.head in g.nodes && TYPE in g.nodes[k.head] && k.tail in g.nodes && TYPE in g.nodes[k.tail]
    {
      if k !in g.edges {
        var i := NewEdgeEnds(qs, k);
      }
    }
  }

  lemma NewEdgeEnds(qs: seq<RelationQuadruple>, k: EdgeKey) returns (i: nat)
    requires k in KeysOf(EdgesOf(qs))
    ensures i < |qs| && k == EdgeKey(qs[i].head, qs[i].tail, qs[i].rel)
  {
    var es := EdgesOf(qs);
    i :| 0 <= i < |es| && KeysOf(es)[i] == k;
  }



  // ---------------------------------------------------------------------
  // Relation labels

  /** Counting a batch adds exactly the batch's relation labels to the
      ontology's keys. */
  lemma RelsAfterQuads(c: Counter, nodes: map<Entity, Attrs>, qs: seq<RelationQuadruple>)
    ensures Rels(AddAll(c, QuadPatterns(nodes, qs))) == Rels(c) + QuadRels(qs)
  {
    QuadPatternsAt(nodes, qs);
    RelsAfterQuadsSub(c, nodes, qs);
    RelsAfterQuadsSup(c, nodes, qs);
  }

  lemma RelsAfterQuadsSub(c: Counter, nodes: map<Entity, Attrs>, qs: seq<RelationQuadruple>)
    requires forall p :: p in QuadPatterns(nodes, qs) <==> exists q :: q in qs && p == QuadPattern(nodes, q)
    ensures Rels(AddAll(c, QuadPatterns(nodes, qs))) <= Rels(c) + QuadRels(qs)
  {
    var c' := AddAll(c, QuadPatterns(nodes, qs));
    forall r | r in Rels(c') ensures r in Rels(c) + QuadRels(qs) {
      var p :| p in c' && p.rel == r;
      if p !in c {
        var q :| q in qs && p == QuadPattern(nodes, q);
      }
    }
  }

  lemma RelsAfterQuadsSup(c: Counter, nodes: map<Entity, Attrs>, qs: seq<RelationQuadruple>)
    requires forall p :: p in QuadPatterns(nodes, qs) <==> exists q :: q in qs && p == QuadPattern(nodes, q)
    ensures Rels(c) + QuadRels(qs) <= Rels(AddAll(c, QuadPatterns(nodes, qs)))
  {
    var c' := AddAll(c, QuadPatterns(nodes, qs));
    forall r | r in QuadRels(qs) ensures r in Rels(c') {
      var q :| q in qs && q.rel == r;
      assert QuadPattern(nodes, q) in QuadPatterns(nodes, qs);
      AddAllHas(c, QuadPatterns(nodes, qs), QuadPattern(nodes, q));
    }
    RelsKeptByAddAll(c, QuadPatterns(nodes, qs));
  }


  /** Adding a batch's edges adds exactly the batch's relation labels to the
      graph's. */
  lemma EdgeRelsAfterQuads(g: Graph, qs: seq<RelationQuadruple>)
    ensures EdgeRels(AddEdgesFrom(g, EdgesOf(qs))) == EdgeRels(g) + QuadRels(qs)
  {
    EdgeRelsAfterQuadsSub(g, qs);
    EdgeRelsAfterQuadsSup(g, qs);
  }

  lemma EdgeRelsAfterQuadsSub(g: Graph, qs: seq<RelationQuadruple>)
    ensures EdgeRels(AddEdgesFrom(g, EdgesOf(qs))) <= EdgeRels(g) + QuadRels(qs)
  {
    var g' := AddEdgesFrom(g, EdgesOf(qs));
    forall r | r in EdgeRels(g') ensures r in EdgeRels(g) + QuadRels(qs) {
      var k :| k in g'.edges && k.rel == r;
      if k !in g.edges {
        var i := NewEdgeEnds(qs, k);
        assert qs[i] in qs;
      }
    }
  }

  /** Every quadruple of a batch fills its edge slot. */
  lemma QuadSlotAdded(g: Graph, qs: seq<RelationQuadruple>, i: nat)
    requires i < |qs|
    ensures EdgeKey(qs[i].head, qs[i].tail, qs[i].rel) in AddEdgesFrom(g, EdgesOf(qs)).edges
  {
    var ks := KeysOf(EdgesOf(qs));
    assert ks[i] == EdgeKey(qs[i].head, qs[i].tail, qs[i].rel);
    assert ks[i] in ks;
  }

  lemma EdgeRelsAfterQuadsSup(g: Graph, qs: seq<RelationQuadruple>)
    ensures EdgeRels(g) + QuadRels(qs) <= EdgeRels(AddEdgesFrom(g, EdgesOf(qs)))
  {
    QuadRelsAdded(g, qs);
    EdgeRelsKept(g, EdgesOf(qs));
  }

  lemma QuadRelsAdded(g: Graph, qs: seq<RelationQuadruple>)
    ensures QuadRels(qs) <= EdgeRels(AddEdgesFrom(g, EdgesOf(qs)))
  {
    forall r | r in QuadRels(qs) ensures r in EdgeRels(AddEdgesFrom(g, EdgesOf(qs))) {
      var q :| q in qs && q.rel == r;
      var i :| 0 <= i < |qs| && qs[i] == q;
      QuadSlotAdded(g, qs, i);
    }
  }

  /** Adding edges keeps every relation label the graph had. */
  lemma EdgeRelsKept(g: Graph, es: seq<(Entity, Entity, Relation, Attrs)>)
    ensures EdgeRels(g) <= EdgeRels(AddEdgesFrom(g, es))
  {
    forall r | r in EdgeRels(g) ensures r in EdgeRels(AddEdgesFrom(g, es)) {
      var k :| k in g.edges && k.rel == r;
      assert k in AddEdgesFrom(g, es).edges;
    }
  }



  /** A batch of attribute triples leaves the ontology's relation labels
      equal to the graph's. */
  lemma RelsAfterTriples(g: Graph, c: Counter, ts: seq<AttributeTriple>)
    requires Valid(g) && Rels(c) == EdgeRels(g)
    ensures Rels(Update(c, TypeDelta(g, ts))) == EdgeRels(g)
  {
    TypeMovesRels(g, ts);
    var c' := Update(c, TypeDelta(g, ts));
    forall r | r in Rels(c') ensures r in EdgeRels(g) {
      var p :| p in c' && p.rel == r;
      if p !in c {
        var m :| m in TypeMoves(g, ts) && m.0 == p;
      }
    }
    forall r | r in EdgeRels(g) ensures r in Rels(c') {
      var p :| p in c && p.rel == r;
      assert p in c';
    }
  }

  lemma {:induction false} EdgePatternsAt(nodes: map<Entity, Attrs>, ks: seq<EdgeKey>)
    ensures forall p :: p in EdgePatterns(nodes, ks) <==> exists k :: k in ks && p == EdgePatternAs(nodes, TypeOf(nodes, k.head), k)
    decreases |ks|
  {
    if ks != [] {
      var init, k := ks[..|ks| - 1], ks[|ks| - 1];
      EdgePatternsAt(nodes, init);
      assert ks == init + [k];
      forall p ensures p in EdgePatterns(nodes, ks) <==> exists x :: x in ks && p == EdgePatternAs(nodes, TypeOf(nodes, x.head), x) {
        if p == EdgePatternAs(nodes, TypeOf(nodes, k.head), k) {
          assert k in ks;
        }
        if exists x :: x in ks && p == EdgePatternAs(nodes, TypeOf(nodes, x.head), x) {
          var x :| x in ks && p == EdgePatternAs(nodes, TypeOf(nodes, x.head), x);
          if x != k { assert x in init; }
        }
      }
    }
  }

  /** The audit's keys carry exactly the graph's relation labels. */
  lemma GeneratedRels(g: Graph)
    requires Valid(g)
    ensures Rels(Generated(g)) == EdgeRels(g)
  {
    EdgePatternsAt(g.nodes, g.order);
    var c := Generated(g);
    forall r | r in Rels(c) ensures r in EdgeRels(g) {
      var p :| p in c && p.rel == r;
      var k :| k in g.order && p == EdgePatternAs(g.nodes, TypeOf(g.nodes, k.head), k);
    }
    forall r | r in EdgeRels(g) ensures r in Rels(c) {
      var k :| k in g.edges && k.rel == r;
      assert EdgePatternAs(g.nodes, TypeOf(g.nodes, k.head), k) in c;
    }
  }
}
