# Knowledge-graph store with an incrementally maintained ontology

This project models the `KnowledgeGraph` class of kg-manage and its
`simple_merge` function. A knowledge graph holds two kinds of facts:

- attribute triples `(entity, attribute, value)`, stored as node attributes;
- relation quadruples `(head, relation, tail, attributes)`, stored as directed
  edges keyed by relation in a multigraph.

Next to the graph, the store keeps an *ontology*: a Counter of
`(head type, relation, tail type)` patterns. An entity's type is the value of
its `type` attribute, or `"unknown"` when it has none. The store updates the
ontology as facts arrive, without recounting:

- a `type` triple for an existing entity moves one count per outgoing edge,
  from the old pattern to the new one;
- every quadruple adds one count to its pattern.

A from-scratch recount, `_generate_onto_from_mdg`, serves as the audit.

The model has six modules:

- `Types`: entities, values, triples, quadruples, patterns and errors.
- `Counter`: Python's `Counter` as a map from pattern to integer. Keys stay
  when their count reaches zero, as in Python.
- `Multigraph`: the part of a networkx `MultiDiGraph` the store uses, as a
  value. It keeps attributes per node, attributes per `(head, tail, key)`
  edge slot, and the order in which slots were first added.
- `Ontology`: the pure definitions of the incremental moves and of the audit,
  and the lemmas that relate them.
- `KG`: the class `KnowledgeGraph`. Its fields `mdg` and `ontology` are
  updated by methods whose loops follow the source's loops.
- `Merge`: `simple_merge`.

Exceptions become values:

- `EntityNotFound` is the `LookupError` raised by `attribute_triples`, and
  hence by the quadruple maintenance.
- `MissingType` is the `KeyError` the audit raises when it reads `type` from
  an endpoint that has none. The source's error carries only the key
  `'type'`; the model also names the endpoint.
- `ArgumentClash` is the `TypeError` Python raises when a keyword argument
  is passed twice. `add_attribute_triple` spreads its attribute into
  networkx's `add_node`, whose parameters are `self` and `node_for_adding`.
  `add_relation_quadruple` spreads its edge attributes into `add_edge`,
  whose parameters are `self`, `u_for_edge`, `v_for_edge` and `key`.

The invariant `Valid()` of the class says two things. The graph is well
formed. The ontology has a key for exactly the relation labels of the
graph's edges, which is what `relations()` reports.

For the batch operations `add_attribute_triples` and
`add_relation_quadruples`, the incremental ontology and the audit are proved
to keep agreeing (`AddTriplesKeepsConsistent`, `AddQuadsKeepsConsistent`) as
long as the following hold:

- every edge endpoint is typed;
- every quadruple fills a new edge slot;
- no `type` triple retypes an entity that some edge touches.

No separate lemma states this for the single-fact operations
`add_attribute_triple` and `add_relation_quadruple`.

Outside these conditions the two drift apart, as the source's design
accepts. Re-adding a quadruple counts it again although the graph keeps one
edge (`ReAddCountsTwice`). Retyping an entity that only receives edges moves
nothing (`TailRetypeNotTracked`). For the same reason `simple_merge` is not
re-ingestion: a store built from a batch that lists a quadruple twice counts
it twice, while merging that store into an empty one counts its single edge
once (`MergeUndercountsReAdded`).

## Model

| member | source | states |
|---|---|---|
| KG.KnowledgeGraph.constructor | src/kg.py:16-22 | A new store has an empty graph and an empty ontology and satisfies the invariant. |
| KG.KnowledgeGraph.Create | src/kg.py:16-26 | Building from triples and quadruples is adding the triples, then the quadruples. It fails with LookupError exactly when the first quadruple endpoint that no triple named exists, and then names that endpoint. Otherwise the graph and the ontology are the batch results and the invariant holds. |
| KG.KnowledgeGraph.Copy | src/merge.py:6 | The deep copy holds values equal to the original's, and satisfies the invariant exactly when the original does. |
| KG.KnowledgeGraph.Entities | src/kg.py:62-63 | The entities are exactly the graph's nodes. |
| KG.KnowledgeGraph.Ontology | src/kg.py:65-66 | The returned Counter has keys for exactly the relation labels of the graph's edges. |
| KG.KnowledgeGraph.Relations | src/kg.py:68-69 | The relations are exactly the labels of the graph's edges. |
| KG.KnowledgeGraph.AttributeTriples | src/kg.py:71-83 | LookupError exactly for a named entity that is not a node. Otherwise the result is exactly the (entity, attribute, value) facts stored on the graph's nodes, restricted to the named entity when one is given. |
| KG.KnowledgeGraph.ResolveType | src/kg.py:115-117 | LookupError for a missing entity. Otherwise the type is the value of the entity's `type` triple, or "unknown" when it has none. |
| KG.KnowledgeGraph.RelationQuadruples | src/kg.py:85-103 | The result lists exactly the stored edges with their attributes. With a head it is limited to edges leaving that head (for a head that is not an entity the model reports none, unlike networkx); with a head and a tail, to edges from head to tail. Without a head (including when only a tail is given) it lists every edge. In every case no quadruple is listed twice. |
| KG.KnowledgeGraph.AddAttributeTriples | src/kg.py:30-38 | The ontology is updated by the moves resolved against the graph before the batch. Each triple's attribute is then merged into its entity, creating the entity if needed. The entities grow by exactly the triples' entities. The ontology total and the relations are unchanged, and the invariant is kept. |
| KG.KnowledgeGraph.AddAttributeTriple | src/kg.py:40-42 | TypeError exactly when the attribute is named like a parameter of `add_node`; it names that attribute and changes nothing. Otherwise, as for a batch of one: moves first, then the attribute is set on the entity. The total and the relations are unchanged either way, and the invariant is kept. |
| KG.KnowledgeGraph.AddRelationQuadruples | src/kg.py:44-52 | LookupError exactly when some endpoint is not an entity; it names the first such endpoint and changes nothing. Otherwise the edges are added, each quadruple's pattern (under the pre-batch types) is counted once, the total grows by the batch length, the relations grow by the batch's labels, and the invariant is kept. |
| KG.KnowledgeGraph.AddRelationQuadruple | src/kg.py:54-58 | TypeError exactly when an edge attribute is named like a parameter of `add_edge`; it names that attribute and changes nothing. Otherwise the edge is added first, so missing endpoints are created untyped and no LookupError can arise. The pattern is counted once under the types from before the call, the total grows by one, the relation joins the relations, and the invariant is kept. |
| KG.KnowledgeGraph.MaintainOntoAddingTrips | src/kg.py:108-132 | The graph is unchanged. The ontology becomes the old one plus the batch's type delta. |
| KG.KnowledgeGraph.OntoUpdate | src/kg.py:109-130 | The loop over the batch's `type` triples builds exactly the type delta of the batch against the current graph. |
| KG.KnowledgeGraph.MoveOutEdges | src/kg.py:119-130 | The inner loop over an entity's outgoing edges applies exactly the moves of those edges from the old type to the new. |
| KG.KnowledgeGraph.MaintainOntoAddingQuads | src/kg.py:134-146 | The graph is unchanged. On the first endpoint that is not an entity it raises LookupError and leaves the ontology as it was. Otherwise it counts one pattern per quadruple. |
| KG.KnowledgeGraph.GenerateOntoFromMdg | src/kg.py:151-159 | The invariant is kept either way. Succeeds exactly when every edge endpoint is typed. It then sets the ontology to the audit count, which agrees with the graph and totals the number of edges. Otherwise it raises KeyError, reported with an untyped endpoint, and leaves the ontology as it was. |
| KG.CountEdgePatterns | src/kg.py:152-158 | The counting loop succeeds exactly when all endpoints are typed. It then returns one count per edge under its pattern; otherwise it fails, reporting an untyped endpoint. |
| Merge.SimpleMerge | src/merge.py:5-10 | Neither argument changes. LookupError exactly when some edge of kg2 has an end that is not a merged entity. Otherwise the result is fresh and satisfies the invariant. Its nodes are the union with kg2's attributes overriding, its edges the union with kg2's edge attributes overriding, and its ontology is kg1's plus kg2's type moves plus one count per kg2 edge. Its total is kg1's plus kg2's edge count, and its relations are the union. |
| Merge.MergeUndercountsReAdded | src/merge.py:5-10 | A store built from a batch listing one quadruple twice has one edge and counts the pattern twice (total 2), while merging it into an empty store counts one (total 1): merging is not re-ingestion. |
| Merge.Enumerate | src/merge.py:7-8 | Iterating kg2's triple set yields each triple exactly once. |
| Merge.MergeOrderFree | src/merge.py:7-8 | The merged nodes and ontology do not depend on the order in which kg2's triple set is iterated. |
| Merge.Replay | src/merge.py:6-9 | Replaying kg2 onto kg1, stated on values: the quadruple batch fails exactly on an end outside the merged entities. Otherwise the nodes, edges, ontology, total and relations are the merged ones. |
| Merge.MergedNodes | src/merge.py:8 | Adding a listing of kg2's triples yields the union of entities, with kg2's attributes overriding kg1's. |
| Merge.MergedEdges | src/merge.py:9 | Adding kg2's quadruples yields the union of edge slots, with kg2's attributes merged over kg1's. |
| Merge.MergeEndpoints | src/merge.py:9 | The first missing endpoint of kg2's quadruples exists exactly when some edge end of kg2 is not a merged entity. It is then a kg2 node without attributes that is not in kg1. |
| Multigraph.AddNode | src/kg.py:42 | `add_node` creates the entity if it is new and merges the attributes over its old ones. Other entities and all edges are untouched. |
| Multigraph.AddNodesFrom | src/kg.py:38 | `add_nodes_from` keeps the graph well formed and the edges unchanged, and adds exactly the named entities. |
| Multigraph.AddEdge | src/kg.py:55-57 | `add_edge` creates missing endpoints without attributes and merges the attributes into the (head, tail, relation) slot. A new slot is appended to the edge order; nothing else changes. |
| Multigraph.AddEdgesFrom | src/kg.py:52 | `add_edges_from` keeps existing nodes and their attributes, and has exactly the old slots plus the new ones. |
| Multigraph.SetAttribute | src/kg.py:40-42 | After adding (e, a, v), v is the only value of attribute a of e, and every other triple is as before. |
| Multigraph.AddNodeTwice | src/kg.py:40-42 | Adding the same attributes twice changes nothing more than adding them once. |
| Multigraph.AddEdgeTwice | src/kg.py:54-57 | Re-adding a (head, tail, relation) slot creates no parallel edge: the order and the set of slots stay, and the attributes are merged. |
| Multigraph.AddEdgesFromValid | src/kg.py:52 | Adding any edges keeps the graph well formed. |
| Multigraph.QuadsAtIn | src/kg.py:99-102 | Each reported quadruple is a listed slot with its stored attributes, and conversely. |
| Ontology.TripleMovesNoOp | src/kg.py:110-130 | No count moves for a triple that is not a `type` triple, names a new entity, repeats the current type, or names an entity with no outgoing edge. |
| Ontology.EdgeMovesCount | src/kg.py:119-130 | A retype changes the count of every pattern p by the number of edges now under p minus the number formerly under p. |
| Ontology.EdgeMovesBalanced | src/kg.py:128-130 | Each move takes one count and gives one, so a retype never changes the total. |
| Ontology.TotalAfterTriples | src/kg.py:108-132 | Attribute triples never change the ontology's total. |
| Ontology.TypeMovesOnEmpty | src/kg.py:23-24 | On an empty graph no triple moves anything, so construction starts from the empty count. |
| Ontology.TypeDeltaPermutation | src/kg.py:108-132 | The update of a batch does not depend on the order of its triples, since every lookup reads the pre-batch graph. |
| Ontology.QuadPatternsCount | src/kg.py:134-146 | A quadruple batch raises the total by its length, and each pattern's count by the number of quadruples resolved to it. The new keys are exactly the patterns of the batch, under the endpoints' current types. |
| Ontology.GeneratedTotal | src/kg.py:151-159 | The audit counts one per distinct edge: its total is the number of edges. |
| Ontology.GeneratedRels | src/kg.py:151-159 | The audit's keys carry exactly the graph's relation labels. |
| Ontology.ConsistentEmpty | src/kg.py:21-22 | The empty store agrees with its audit. |
| Ontology.AddTriplesKeepsConsistent | src/kg.py:108-132 | If no `type` triple retypes an entity some edge touches, agreement with the audit survives a batch of triples. |
| Ontology.AddQuadsKeepsConsistent | src/kg.py:134-146 | If all endpoints are typed entities and every quadruple fills a new, distinct slot, agreement with the audit survives a batch of quadruples. |
| Ontology.TypeKeptByTriples | src/kg.py:38 | Triples that repeat an entity's type leave that type in place. |
| Ontology.ReAddCountsTwice | src/kg.py:54-58 | Re-adding an existing slot keeps the edge order and leaves the audit count as it was, so the incremental count, one higher, no longer equals the audit. |
| Ontology.TailRetypeNotTracked | src/kg.py:119-130 | Concrete case: with one edge a -r-> b, retyping b moves nothing, so the incremental count no longer equals the audit. |
| Ontology.RelsAfterQuads | src/kg.py:146 | Counting a batch adds exactly the batch's relation labels to the ontology's keys. |
| Ontology.RelsAfterTriples | src/kg.py:108-132 | After a batch of triples, the ontology's relation labels still equal the graph's. |
| Ontology.EdgeRelsAfterQuads | src/kg.py:52 | Adding a batch's edges adds exactly the batch's labels to the graph's labels. |
| Ontology.NoTypeMoves | src/kg.py:113-130 | When no `type` triple retypes an entity that heads an edge, the batch has no moves, whatever it does to entities that only receive edges. |
| Counter.Bump | src/kg.py:158 | Adding to one key leaves the other counts as they were. |
| Counter.Update | src/kg.py:132 | `Counter.update` with a mapping adds the counts pointwise and keeps the keys of both. |
| Counter.AddAll | src/kg.py:146 | `Counter.update` with a list grows the keys by exactly the listed patterns. |
| Counter.AddAllGet | src/kg.py:146 | `Counter.update` with a list adds to each key exactly its number of occurrences in the list. |
| Counter.ApplyMovesPermutation | src/kg.py:129 | Applying the same moves in any order gives the same Counter. |
| Counter.UpdateApplyMoves | src/kg.py:129-132 | Collecting the moves in `onto_update` and then applying it equals applying the moves one by one. |
| Counter.TotalApplyMoves | src/kg.py:129 | Applying moves changes the total by the sum of their deltas. |
| Counter.TotalAddAll | src/kg.py:146 | Counting a list of patterns raises the total by the list's length. |

## Left out

- Integer entity and relation identifiers are not modelled. Entities are non-empty strings, so Python's truthiness test on an entity argument coincides with "an argument was given". A falsy identifier (`0`, `""`) is not modelled.
- Attribute values are dynamically typed in the source. They are modelled as a tagged `Value`, with equality as the only operation the core uses.
- Value: the model's equality differs from Python's across tags. Python has `True == 1` and `False == 0` with equal hashes, so `(1, r, t)` and `(True, r, t)` are one Counter key, and retyping an entity from `1` to `True` moves nothing at src/kg.py:129. In the model `Int(1) != Bool(true)`, so that retype moves counts between two distinct keys. The same holds for `0` and `False`.
- networkx's iteration order is not modelled. It groups edges by head, in node insertion order. The model keeps edges in first-insertion order, and the contracts of `KG.KnowledgeGraph.RelationQuadruples` state membership, filtering and multiplicity, not position.
- KG.KnowledgeGraph.GenerateOntoFromMdg: walks the edges in slot order instead of networkx's head/tail/key adjacency order. Its `MissingType` error reports an untyped endpoint, which the source's KeyError does not: that error carries only the key `'type'`. When several endpoints lack a type, the contract says only that the reported one is untyped.
- KG.KnowledgeGraph.RelationQuadruples: the result for a head that is not in the graph is not modelled; the model reports no edges. networkx's `edges(nbunch)` treats a string that is not a node as a sequence of nodes and reports the edges leaving those of its characters that are nodes. The ontology maintenance only passes existing entities, so the maintained ontology is not affected.
- KG.KnowledgeGraph.Ontology and KG.KnowledgeGraph.RelationQuadruples: the source returns its live Counter and the live edge-attribute dictionaries, so a caller who mutates them changes the store. The model returns values, so this aliasing is not captured.
- KG.KnowledgeGraph.AddRelationQuadruple: when several edge attributes clash with `add_edge`'s parameters, which one the TypeError names is left open. The parameter names of `add_node` and `add_edge` are those of networkx 2 and 3; the networkx version is not pinned.
- KG.KnowledgeGraph.Copy: `deepcopy` is modelled as a copy of the two values. Values do not alias, so no sharing can arise.
- Merge.Enumerate: the order in which Python iterates a set is left open. Every contract of `Merge.SimpleMerge` is proved for all orders.
- Only the networkx operations the core calls (`add_node`, `add_nodes_from`, `add_edge` with an explicit key, `add_edges_from` with 4-tuples, `edges`, `nodes`, `adjacency`) are modelled. The rest of networkx is not part of this model.
- The command-line and example scripts of the repository are not part of this model.
