/** Two places where `marshal_json_array` (lines 253-299 of
    `src/gen-json-binding.cpp`) does not do what it evidently means to.

    The container-creation call passes three arguments to a format with four
    conversions. The generator fills the fourth with the enclosing object,
    and the gap is exhibited here.

    The nested call recurses on the element node's header word instead of
    the element's id. The generator (`JsonBinding.ExpandArray`) recurses as
    written. `ExpandArrayCorrected` below is the expansion the design
    intends, with its properties proved, as the reference the as-written one
    is compared with. */
module Findings {
  import opened Printing
  import opened Btf
  import opened JsonTemplates
  import opened JsonBinding

  // ---------------------------------------------------------------------------
  // Lines 278-286: the container-creation format has four `%s` conversions,
  // the last in the commented-out cleanup line, but the call supplies three.

  /** The arguments the source passes to the container-creation format. */
  function ArrayCreateArgsAsWritten(objectName: string, field: string): (args: seq<string>)
    ensures |args| == 3
  {
    [objectName, field, objectName]
  }

  /** As written, the format reads one argument more than the call supplies,
      so `printf` fetches a fourth string pointer that was never passed: no
      text is defined for any field. */
  lemma ArrayCreateArgsShort(objectName: string, field: string)
    ensures |ArrayCreateArgsAsWritten(objectName, field)| == Holes(ArrayCreateFormat) - 1
    ensures !(Holes(ArrayCreateFormat) <= |ArrayCreateArgsAsWritten(objectName, field)|)
  {
  }

  lemma CleanupRegroup(x: string, y: string, base: string, z: string, w: string)
    ensures (x + y) + (base + (z + w)) == x + ((y + base + z) + w)
  {
  }

  /** With the enclosing container `base` as the fourth argument, the
      commented-out cleanup line names the object an error path would free. */
  lemma ArrayCreateNamesCleanup(objectName: string, field: string, base: string)
    ensures Contains(ArrayCreateText(objectName, field, base), "// cJSON_Delete(" + base + ");")
  {
    var t := ArrayCreateFormat;
    var a := [objectName, field, objectName, base];
    var s := "// cJSON_Delete(" + base + ");";
    assert RenderFrom(t, a, 4) == t[4];
    assert RenderFrom(t, a, 3) == t[3] + (base + t[4]);
    assert t[3] == ") {\n        " + "// cJSON_Delete(";
    assert t[4] == ");" + "\n        return NULL;\n    }\n\n";
    CleanupRegroup(") {\n        ", "// cJSON_Delete(", base, ");", "\n        return NULL;\n    }\n\n");
    ContainsAt(") {\n        ", s, "\n        return NULL;\n    }\n\n");
    RenderFromContains(t, a, 0, 3, s);
  }

  // ---------------------------------------------------------------------------
  // Line 288: the recursion into a nested dimension passes `elem_type->type`,
  // the header word of the element node, instead of `array_info->type`.

  /** The corrected expansion: the nested call is made on the element's id,
      `ElemId`. Otherwise as `JsonBinding.ExpandArray`. */
  function ExpandArrayCorrected(g: TypeGraph, field: string, id: TypeId, base: string, dim: nat): (r: Emission)
    requires WellFormed(g) && IsArray(g, id)
    ensures r.status.Thrown? ==> r.appended == "" && r.status.error == StructArrayUnsupported
    decreases g.dims[id]
  {
    assert ArrayNodeOk(g, id);
    var e := ElemId(g, id);
    var ek := g.types[e].kind;
    if ek.Array? then
      assert ArrayNodeOk(g, e);
      var inner := ExpandArrayCorrected(g, field, e, ContainerName(field, dim), dim + 1);
      if inner.status.Thrown? then inner
      else
        var b := inner.buffer + CloseBrace;
        Emission(inner.appended + b, b, Completed)
    else
      var h := LevelHeader(field, dim, Nelems(g, id), base);
      if IsScalar(ek) then Emission(h + CloseBrace, h + CloseBrace, Completed)
      else Emission("", h, Thrown(StructArrayUnsupported))
  }

  /** Recursing on `array_info->type` visits the next dimension: an array
      with one dimension fewer. */
  lemma NestedRecursionDescends(g: TypeGraph, id: TypeId)
    requires WellFormed(g) && IsArray(g, id) && IsArray(g, ElemId(g, id))
    ensures g.dims[ElemId(g, id)] + 1 == g.dims[id] && g.dims[ElemId(g, id)] >= 1
  {
    assert ArrayNodeOk(g, id);
    ArrayHasDims(g, ElemId(g, id));
  }

  /** One level of `ExpandArrayCorrected`, component by component: a nested
      array is entered at `dim + 1` on this level's container and its failure
      propagates; a scalar element closes the level; any other element throws
      with the header left in the buffer. */
  lemma CorrectedLevel(g: TypeGraph, field: string, id: TypeId, base: string, dim: nat)
    requires WellFormed(g) && IsArray(g, id)
    ensures var ek := ElemNode(g, id).kind;
      var r := ExpandArrayCorrected(g, field, id, base, dim);
      var h := LevelHeader(field, dim, Nelems(g, id), base);
      && (ek.Array? ==>
            IsArray(g, ElemId(g, id)) && g.dims[ElemId(g, id)] < g.dims[id] &&
            var inner := ExpandArrayCorrected(g, field, ElemId(g, id), ContainerName(field, dim), dim + 1);
            && (inner.status.Thrown? ==> r == inner)
            && (inner.status.Completed? ==>
                  r.appended == inner.appended + (inner.buffer + CloseBrace)
                  && r.buffer == inner.buffer + CloseBrace && r.status == Completed))
      && (IsScalar(ek) ==> r.appended == h + CloseBrace && r.buffer == h + CloseBrace && r.status == Completed)
      && (!ek.Array? && !IsScalar(ek) ==> r.appended == "" && r.buffer == h && r.status == Thrown(StructArrayUnsupported))
  {
    assert ArrayNodeOk(g, id);
    assert ArrayNodeOk(g, ElemId(g, id));
  }

  /** One level of an array of arrays in the corrected expansion: the nested
      call's result, closed once. */
  lemma CorrectedNested(g: TypeGraph, field: string, id: TypeId, base: string, dim: nat)
    requires WellFormed(g) && IsArray(g, id) && IsArray(g, ElemId(g, id))
    ensures ExpandArrayCorrected(g, field, id, base, dim)
         == Nest(ExpandArrayCorrected(g, field, ElemId(g, id), ContainerName(field, dim), dim + 1))
  {
    assert ArrayNodeOk(g, id);
    assert ArrayNodeOk(g, ElemId(g, id));
  }

  /** The corrected expansion throws exactly when the innermost element type
      is not a scalar (int, float or pointer), whatever the number of
      dimensions. */
  lemma {:induction false} CorrectedExpansionFails(g: TypeGraph, field: string, id: TypeId, base: string, dim: nat)
    requires WellFormed(g) && IsArray(g, id)
    ensures ExpandArrayCorrected(g, field, id, base, dim).status.Thrown? <==> !IsScalar(BaseKind(g, id))
    decreases g.dims[id]
  {
    assert ArrayNodeOk(g, id);
    var e := ElemId(g, id);
    if g.types[e].kind.Array? {
      assert ArrayNodeOk(g, e);
      CorrectedExpansionFails(g, field, e, ContainerName(field, dim), dim + 1);
    }
  }

  /** The header of the innermost level: the only one the shared printer
      still holds when the corrected expansion completes. */
  function InnerHeader(g: TypeGraph, field: string, id: TypeId, base: string, dim: nat): string
    requires WellFormed(g) && IsArray(g, id)
    decreases g.dims[id]
  {
    assert ArrayNodeOk(g, id);
    var e := ElemId(g, id);
    if g.types[e].kind.Array? then
      assert ArrayNodeOk(g, e);
      InnerHeader(g, field, e, ContainerName(field, dim), dim + 1)
    else
      LevelHeader(field, dim, Nelems(g, id), base)
  }

  /** `k` closing braces. */
  function Closers(k: nat): string
  {
    if k == 0 then "" else Closers(k - 1) + CloseBrace
  }

  /** `(h + Closers(1)) + (h + Closers(2)) + ... + (h + Closers(k))`. */
  function Staircase(h: string, k: nat): string
  {
    if k == 0 then "" else Staircase(h, k - 1) + (h + Closers(k))
  }

  /** The shared-buffer effect of the corrected expansion in closed form. For
      an array of `k` dimensions the printer ends up holding only the
      innermost header followed by `k` closing braces, and `output` receives
      the staircase of the buffer's states level by level, innermost first. */
  lemma {:induction false} CorrectedClosedForm(g: TypeGraph, field: string, id: TypeId, base: string, dim: nat)
    requires WellFormed(g) && IsArray(g, id) && IsScalar(BaseKind(g, id))
    ensures var r := ExpandArrayCorrected(g, field, id, base, dim);
      var h := InnerHeader(g, field, id, base, dim);
      && r.status == Completed
      && r.buffer == h + Closers(g.dims[id])
      && r.appended == Staircase(h, g.dims[id])
    decreases g.dims[id]
  {
    CorrectedExpansionFails(g, field, id, base, dim);
    assert ArrayNodeOk(g, id);
    var e := ElemId(g, id);
    var h := InnerHeader(g, field, id, base, dim);
    assert ArrayNodeOk(g, e);
    if g.types[e].kind.Array? {
      var obj := ContainerName(field, dim);
      var inner := ExpandArrayCorrected(g, field, e, obj, dim + 1);
      CorrectedClosedForm(g, field, e, obj, dim + 1);
      StaircaseStep(h, inner.buffer, inner.appended, g.dims[e]);
    } else {
      StaircaseBase(h);
    }
  }

  /** One more level around a closed form: the buffer gains a brace and the
      staircase gains a step. */
  lemma StaircaseStep(h: string, buffer: string, appended: string, k: nat)
    requires buffer == h + Closers(k) && appended == Staircase(h, k)
    ensures buffer + CloseBrace == h + Closers(k + 1)
    ensures appended + (buffer + CloseBrace) == Staircase(h, k + 1)
  {
    AppendAssoc(h, Closers(k), CloseBrace);
  }

  lemma StaircaseBase(h: string)
    ensures h + CloseBrace == h + Closers(1) == Staircase(h, 1)
  {
    assert Closers(1) == "" + CloseBrace == CloseBrace;
    assert Staircase(h, 1) == "" + (h + CloseBrace) == h + CloseBrace;
  }

  /** What a level of an array of arrays yields around its nested call's
      result `inner`: the failure unchanged, or the inner text followed by the
      buffer closed with `}\n`. */
  function Nest(inner: Emission): Emission
  {
    if inner.status.Thrown? then inner
    else
      var b := inner.buffer + CloseBrace;
      Emission(inner.appended + b, b, Completed)
  }

  /** What a call `k` levels above a call with result `inner` yields. */
  function Wrapped(inner: Emission, k: nat): Emission
  {
    if k == 0 then inner else Nest(Wrapped(inner, k - 1))
  }

  /** `k` levels around `inner` in closed form: the inner failure unchanged,
      or the inner buffer with one closing brace per level, after one
      staircase step per level appended to the output. */
  lemma {:induction false} WrappedClosedForm(inner: Emission, k: nat)
    ensures inner.status.Thrown? ==> Wrapped(inner, k) == inner
    ensures inner.status.Completed? ==>
      Wrapped(inner, k) == Emission(inner.appended + Staircase(inner.buffer, k), inner.buffer + Closers(k), Completed)
  {
    if k == 0 {
      assert inner.buffer + Closers(0) == inner.buffer;
      assert inner.appended + Staircase(inner.buffer, 0) == inner.appended;
    } else {
      WrappedClosedForm(inner, k - 1);
      if inner.status.Completed? {
        var b := inner.buffer;
        AppendAssoc(b, Closers(k - 1), CloseBrace);
        AppendAssoc(inner.appended, Staircase(b, k - 1), b + Closers(k));
      }
    }
  }

  /** The array type `i` element steps below `id`. */
  function Descend(g: TypeGraph, id: TypeId, i: nat): (d: TypeId)
    requires WellFormed(g) && IsArray(g, id) && i < g.dims[id]
    ensures IsArray(g, d) && g.dims[d] + i == g.dims[id]
    decreases i
  {
    assert ArrayNodeOk(g, id);
    if i == 0 then id
    else
      var e := ElemId(g, id);
      assert ArrayNodeOk(g, e);
      Descend(g, e, i - 1)
  }

  /** The base object of the level `i` steps below a call on `base` at
      dimension `dim`: each nested call is made on the container of the level
      above it. */
  function LevelBase(field: string, base: string, dim: nat, i: nat): string
    decreases i
  {
    if i == 0 then base else LevelBase(field, ContainerName(field, dim), dim + 1, i - 1)
  }

  /** Below the top, a level's base object is the container built at the
      dimension just above it. */
  lemma {:induction false} LevelBaseAbove(field: string, base: string, dim: nat, i: nat)
    requires i >= 1
    ensures LevelBase(field, base, dim, i) == ContainerName(field, dim + i - 1)
    decreases i
  {
    if i > 1 {
      LevelBaseAbove(field, ContainerName(field, dim), dim + 1, i - 1);
      assert dim + 1 + (i - 1) - 1 == dim + i - 1;
    }
  }

  /** The corrected expansion reaches the level `i` steps down as the call on
      `Descend(g, id, i)` at dimension `at == dim + i`, and wraps that call's
      result once per enclosing level. */
  lemma {:induction false} LevelChain(g: TypeGraph, field: string, id: TypeId, base: string, dim: nat, i: nat, at: nat)
    requires WellFormed(g) && IsArray(g, id) && i < g.dims[id] && at == dim + i
    ensures ExpandArrayCorrected(g, field, id, base, dim)
         == Wrapped(ExpandArrayCorrected(g, field, Descend(g, id, i), LevelBase(field, base, dim, i), at), i)
    decreases i
  {
    if i > 0 {
      var e := ElemId(g, id);
      var obj := ContainerName(field, dim);
      assert ArrayNodeOk(g, id);
      assert ArrayNodeOk(g, e);
      CorrectedNested(g, field, id, base, dim);
      LevelChain(g, field, e, obj, dim + 1, i - 1, at);
    }
  }

  /** Every level the corrected expansion reaches, `i` steps down, is the
      call at dimension `dim + i` on the container built at dimension
      `dim + i - 1`, wrapped once per enclosing level; its loop index and
      container name differ from those of every enclosing level. */
  lemma NestedLevel(g: TypeGraph, field: string, id: TypeId, base: string, dim: nat, i: nat)
    requires WellFormed(g) && IsArray(g, id) && i < g.dims[id]
    ensures ExpandArrayCorrected(g, field, id, base, dim)
         == Wrapped(ExpandArrayCorrected(g, field, Descend(g, id, i), LevelBase(field, base, dim, i), dim + i), i)
    ensures i >= 1 ==> LevelBase(field, base, dim, i) == ContainerName(field, dim + i - 1)
    ensures forall k :: dim <= k < dim + i ==>
      LoopVar(k) != LoopVar(dim + i) && ContainerName(field, k) != ContainerName(field, dim + i)
  {
    LevelChain(g, field, id, base, dim, i, dim + i);
    if i >= 1 {
      LevelBaseAbove(field, base, dim, i);
    }
    LevelNamesDistinct(field, dim, i);
  }

  /** The level at dimension `dim + i` has a loop index and a container name
      of its own: none of the `i` levels above it uses them. */
  lemma LevelNamesDistinct(field: string, dim: nat, i: nat)
    ensures forall k :: dim <= k < dim + i ==>
      LoopVar(k) != LoopVar(dim + i) && ContainerName(field, k) != ContainerName(field, dim + i)
  {
    forall k | dim <= k < dim + i
      ensures LoopVar(k) != LoopVar(dim + i) && ContainerName(field, k) != ContainerName(field, dim + i)
    {
      LoopVarsDistinct(k, dim + i);
      ContainerNamesDistinct(field, k, dim + i);
    }
  }

  /** The loop the printer still holds at the end of the corrected expansion
      runs over the innermost dimension, `dim + k - 1` for a `k`-dimensional
      array. */
  lemma {:induction false} InnerHeaderLoopsInnermost(g: TypeGraph, field: string, id: TypeId, base: string, dim: nat)
    requires WellFormed(g) && IsArray(g, id)
    ensures g.dims[id] >= 1
    ensures Contains(InnerHeader(g, field, id, base, dim), "for(int " + LoopVar(dim + g.dims[id] - 1) + " = 0; ")
    decreases g.dims[id]
  {
    assert ArrayNodeOk(g, id);
    var e := ElemId(g, id);
    if g.types[e].kind.Array? {
      assert ArrayNodeOk(g, e);
      InnerHeaderLoopsInnermost(g, field, e, ContainerName(field, dim), dim + 1);
    } else {
      assert ArrayNodeOk(g, e);
      var n := Nelems(g, id);
      var s := "for(int " + LoopVar(dim) + " = 0; ";
      LoopHeaderDeclares(dim, n);
      var p, q :| LoopHeader(dim, n) == p + s + q;
      var tail := ArrayCreateText(ContainerName(field, dim), field, base);
      assert LevelHeader(field, dim, n, base) == ("{\n" + p) + (s + (q + tail));
      ContainsAt("{\n" + p, s, q + tail);
    }
  }

  /** On a one-dimensional array the expansion as written and the corrected
      one are equal: the two recursions part only below the first level. */
  lemma OneDimAsWrittenAgrees(g: TypeGraph, field: string, id: TypeId, base: string, dim: nat, held: string)
    requires WellFormed(g) && IsArray(g, id) && !IsArray(g, ElemId(g, id))
    ensures ExpandArray(g, field, id, base, dim, held) == ExpandArrayCorrected(g, field, id, base, dim)
  {
    ExpandArrayOutcome(g, field, id, base, dim, held);
    CorrectedLevel(g, field, id, base, dim);
  }

  /** The type graph of a field declared `int f[2][3]`: void, `int`, `int[3]`
      and `int[2][3]`. */
  const IntArray2x3: TypeGraph :=
    TypeGraph(map[0 := TypeNode(Other, 0), 1 := TypeNode(Int, 4),
                  2 := TypeNode(Array(1, 3), 0), 3 := TypeNode(Array(2, 2), 0)],
              map[0 := 0, 1 := 0, 2 := 1, 3 := 2])

  /** `int f[2][3]` is a well-formed two-dimensional array of scalars: the
      corrected expansion completes, while the expansion as written targets
      void in its nested call and fails, and with it the unmarshal pass. */
  lemma IntArray2x3ShowsIt()
    ensures WellFormed(IntArray2x3) && IsArray(IntArray2x3, 3) && IsArray(IntArray2x3, ElemId(IntArray2x3, 3))
    ensures RecursionTarget(IntArray2x3, 3) == Void
    ensures ExpandArrayCorrected(IntArray2x3, "f", 3, "object", 0).status == Completed
    ensures ExpandArray(IntArray2x3, "f", 3, "object", 0, "").status == Thrown(NotAnArray)
    ensures UnmarshalFieldEmission(IntArray2x3, FieldInfo("f", "int", 3, 0, 0)).status == Thrown(NotAnArray)
  {
    var g := IntArray2x3;
    forall id | id in g.types
      ensures ArrayNodeOk(g, id)
    {
      assert id == 0 || id == 1 || id == 2 || id == 3;
    }
    NestedRecursionHitsVoid(g, 3);
    ExpandArrayOutcome(g, "f", 3, "object", 0, "");
    assert InnermostArray(g, 3) == 2 by {
      assert InnermostArray(g, 2) == 2;
    }
    CorrectedExpansionFails(g, "f", 3, "object", 0);
  }
}
