/** Vocabulary shared by the knowledge-graph model: identifiers, attribute
    values, the two kinds of facts a graph is built from, and the errors
    its operations can raise. */
module Types {

  /** Entity identifiers. The source accepts any truthy or falsy string or
      integer; this model takes non-empty strings, for which "an entity
      argument was given" and "the argument is truthy" coincide. */
  type Entity = s: string | s != "" witness "e"

  type Relation = string

  type AttrName = string

  /** Attribute values are dynamically typed in the source; a tagged value
      keeps equality well defined. */
  datatype Value = Str(s: string) | Int(i: int) | Bool(b: bool) | Null

  type Attrs = map<AttrName, Value>

  /** (entity, attribute-name, value) */
  datatype AttributeTriple = AttributeTriple(entity: Entity, attr: AttrName, value: Value)

  /** (head, relation, tail, edge attributes) */
  datatype RelationQuadruple = RelationQuadruple(head: Entity, rel: Relation, tail: Entity, attrs: Attrs)

  /** An ontology pattern: (head type, relation, tail type). */
  datatype Pattern = Pattern(headType: Value, rel: Relation, tailType: Value)

  /** EntityNotFound is the LookupError of `attribute_triples`.
      MissingType is the KeyError the from-scratch audit raises when it
      reads `type` from an endpoint that has none; the source's KeyError
      carries only the missing key `type`, while this model also names the
      endpoint. ArgumentClash is the TypeError of a call to `add_node` or
      `add_edge` whose spread attributes repeat one of the callee's own
      parameter names. */
  datatype Error = EntityNotFound(entity: Entity) | MissingType(entity: Entity) | ArgumentClash(attr: AttrName)

  datatype Result<T> = Ok(value: T) | Err(error: Error)

  datatype Outcome = Pass | Fail(error: Error)

  datatype Option<T> = None | Some(value: T)

  /** The attribute that carries an entity's type. */
  const TYPE: AttrName := "type"

  /** The parameter names of networkx's `add_node(self, node_for_adding,
      **attr)`: an attribute spread into its keyword arguments under one of
      these names is passed twice. */
  const ADD_NODE_PARAMS: set<AttrName> := {"self", "node_for_adding"}

  /** The parameter names of networkx's `add_edge(self, u_for_edge,
      v_for_edge, key=None, **attr)`: an attribute spread into its keyword
      arguments under one of these names is passed twice. */
  const ADD_EDGE_PARAMS: set<AttrName> := {"self", "u_for_edge", "v_for_edge", "key"}

  /** The type an entity without a `type` attribute is counted under. */
  const UNKNOWN: Value := Str("unknown")

  /** The attribute map stored under k, or the empty map an entity or
      edge starts with. */
  function AttrsAt<K>(m: map<K, Attrs>, k: K): Attrs
  {
    if k in m then m[k] else map[]
  }

  /** Merging attribute maps is associative. */
  lemma MergeAssoc(a: Attrs, b: Attrs, c: Attrs)
    ensures (a + b) + c == a + (b + c)
  {
    var l, r := (a + b) + c, a + (b + c);
    assert l.Keys == r.Keys;
    forall x | x in l ensures l[x] == r[x] {
    }
  }

  /** Merging in a single attribute is setting it. */
  lemma MergeOne(a: Attrs, b: Attrs, n: AttrName, v: Value)
    ensures (a + b) + map[n := v] == a + b[n := v]
  {
    var l, r := (a + b) + map[n := v], a + b[n := v];
    assert l.Keys == r.Keys;
    forall x | x in l ensures l[x] == r[x] {
    }
  }

  /** An element of a non-empty sequence is in its front or is its last
      element. */
  lemma InLast<T>(xs: seq<T>)
    requires xs != []
    ensures forall x :: x in xs <==> x in xs[..|xs| - 1] || x == xs[|xs| - 1]
  {
    assert xs == xs[..|xs| - 1] + [xs[|xs| - 1]];
  }
}
