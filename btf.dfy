/** The read-only type graph the generator queries (`btf__type_by_id`,
    `btf_is_*`, `btf_array`), reduced to what the JSON generator looks at. */
module Btf {

  type TypeId = nat

  /** The kind of a type node. `Array` carries `btf_array`'s element type and
      element count; every kind the generator does not single out (void,
      typedef, enum, function, ...) is `Other`. */
  datatype Kind =
    | Int
    | Float
    | Ptr
    | Array(elem: TypeId, nelems: nat)
    | Struct
    | Union
    | Other

  /** A `btf_type`: its kind, and `slot`, the shared `size`/`type` word of the
      node header. For an array node that word is unused and is 0; the element
      type lives in the `btf_array` record instead. */
  datatype TypeNode = TypeNode(kind: Kind, slot: nat)

  /** The type section of one BTF object. `dims` records, for every type, how
      many array dimensions it has (0 for a non-array); it witnesses that no
      chain of array element types loops back on itself. */
  datatype TypeGraph = TypeGraph(types: map<TypeId, TypeNode>, dims: map<TypeId, nat>)

  const Void: TypeId := 0

  /** The shape of type information the libbpf loader hands out: id 0 is void,
      array element ids resolve, element counts are `__u32`, an array's header
      word is 0, and an array has one dimension more than its element type. */
  ghost predicate WellFormed(g: TypeGraph)
  {
    && Void in g.types && g.types[Void].kind == Other
    && g.dims.Keys == g.types.Keys
    && forall id {:trigger ArrayNodeOk(g, id)} | id in g.types :: ArrayNodeOk(g, id)
  }

  ghost predicate ArrayNodeOk(g: TypeGraph, id: TypeId)
    requires id in g.types && g.dims.Keys == g.types.Keys
  {
    match g.types[id].kind
    case Array(e, n) =>
      e in g.types && n < 0x1_0000_0000 && g.types[id].slot == 0 && g.dims[id] == g.dims[e] + 1
    case _ => g.dims[id] == 0
  }

  predicate IsArray(g: TypeGraph, id: TypeId)
  {
    id in g.types && g.types[id].kind.Array?
  }

  /** The kinds an array may hold for the generator to expand it. */
  predicate IsScalar(k: Kind)
  {
    k.Int? || k.Float? || k.Ptr?
  }

  /** The id of an array's element type, `btf_array(t)->type`; it resolves. */
  function ElemId(g: TypeGraph, id: TypeId): (e: TypeId)
    requires WellFormed(g) && IsArray(g, id)
    ensures e in g.types
  {
    assert ArrayNodeOk(g, id);
    g.types[id].kind.elem
  }

  /** An array's element count, `btf_array(t)->nelems`, a `__u32`. */
  function Nelems(g: TypeGraph, id: TypeId): (n: nat)
    requires WellFormed(g) && IsArray(g, id)
    ensures n < 0x1_0000_0000
  {
    assert ArrayNodeOk(g, id);
    g.types[id].kind.nelems
  }

  /** The element type of an array node, resolved. */
  function ElemNode(g: TypeGraph, id: TypeId): TypeNode
    requires WellFormed(g) && IsArray(g, id)
  {
    g.types[ElemId(g, id)]
  }

  /** The innermost array on the element chain starting at `id`: the one whose
      element type is no longer an array. */
  function InnermostArray(g: TypeGraph, id: TypeId): (r: TypeId)
    requires WellFormed(g) && IsArray(g, id)
    ensures IsArray(g, r) && !ElemNode(g, r).kind.Array?
    decreases g.dims[id]
  {
    assert ArrayNodeOk(g, id);
    var e := g.types[id].kind.elem;
    if g.types[e].kind.Array? then (assert ArrayNodeOk(g, e); InnermostArray(g, e)) else id
  }

  /** The kind of what an n-dimensional array ultimately holds. */
  function BaseKind(g: TypeGraph, id: TypeId): Kind
    requires WellFormed(g) && IsArray(g, id)
  {
    ElemNode(g, InnermostArray(g, id)).kind
  }

  /** An array type has at least one dimension. */
  lemma ArrayHasDims(g: TypeGraph, id: TypeId)
    requires WellFormed(g) && IsArray(g, id)
    ensures g.dims[id] >= 1
  {
    assert ArrayNodeOk(g, id);
  }
}
