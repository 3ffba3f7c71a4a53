/** `c_struct_json_generator`: the pass-driven generator that writes, for every
    struct of a BTF object, a C function serializing it to JSON text (pass 0)
    and one parsing it back (every later pass), using cJSON.

    Each emitting operation is specified by a function returning an `Emission`:
    the text appended to `output`, the contents the shared `default_printer`
    buffer is left with, and whether the call completed or threw. */
module JsonBinding {
  import opened Printing
  import opened Btf
  import opened JsonTemplates

  // ---------------------------------------------------------------------------
  // Data model

  /** `walk_count == 0` generates marshal functions; any other value unmarshal
      functions. */
  datatype Pass = Marshal | Unmarshal

  function PassOf(walkCount: int): Pass
  {
    if walkCount == 0 then Marshal else Unmarshal
  }

  /** The `std::runtime_error`s the generator throws, plus the failure of the
      `assert` at the top of `marshal_json_array`. */
  datatype GenError =
    | UnionUnsupported        // "union is not supported"
    | UnknownType             // "unknown type"
    | BitfieldUnsupported     // "bitfield not supported"
    | StructArrayUnsupported  // "Support for struct arrays is WIP"
    | NotAnArray              // `assert(btf_is_array(type_info))` fails

  datatype Status = Completed | Thrown(error: GenError)

  /** `field_info`: what the struct walker reports for one member. */
  datatype FieldInfo = FieldInfo(fieldName: string, fieldTypeName: string, typeId: TypeId,
                                 bitOff: nat, bitSz: nat)

  /** `struct_info`: what the struct walker reports for one struct. */
  datatype StructInfo = StructInfo(structName: string)

  /** The effect of one emitting call: `appended` is added to `output`,
      `buffer` is what `default_printer` holds afterwards. */
  datatype Emission = Emission(appended: string, buffer: string, status: Status)

  // ---------------------------------------------------------------------------
  // Struct prologue and epilogue (lines 42-97)

  function StructPrologue(p: Pass, name: string): string
  {
    match p
    case Marshal => MarshalPrologue(name)
    case Unmarshal => UnmarshalPrologue(name)
  }

  /** The return statement that ends a generated function of pass `p`. */
  function ReturnStatement(p: Pass): string
  {
    match p
    case Marshal => MarshalReturn
    case Unmarshal => UnmarshalReturn
  }

  function StructEpilogue(p: Pass): string
  {
    ReturnStatement(p) + CloseBrace
  }

  /** The prologue of each pass declares the function the other pass's
      callers expect: `marshal_struct_<name>__to_json_str(const struct <name>
      *src)` on pass 0, `unmarshal_struct_<name>__from_json_str(struct <name>
      *dst, ...)` returning `struct <name> *` otherwise. */
  lemma PrologueDeclares(p: Pass, name: string)
    ensures p == Marshal ==>
      Contains(StructPrologue(p, name), MarshalFunctionName(name) + "(const struct " + name + " *src)")
    ensures p == Unmarshal ==>
      Contains(StructPrologue(p, name),
               "static struct " + name + " *\n" + UnmarshalFunctionName(name) + "(struct " + name + " *dst")
  {
    if p == Marshal {
      MarshalPrologueSignature(name);
    } else {
      UnmarshalPrologueSignature(name);
    }
  }

  /** The epilogue is the pass's return statement followed by the one brace
      that closes the function: the return statement holds no brace, and the
      epilogue ends in `}\n`. */
  lemma EpilogueClosesOnce(p: Pass)
    ensures StructEpilogue(p)[..|StructEpilogue(p)| - 2] == ReturnStatement(p)
    ensures '}' !in ReturnStatement(p)
    ensures StructEpilogue(p)[|StructEpilogue(p)| - 2..] == "}\n"
  {
    ReturnsHaveNoBrace();
  }

  // ---------------------------------------------------------------------------
  // Scalar and struct fields (lines 99-202)

  /** The text `marshal_field` prints for a field of kind `k`, or the error it
      throws instead. */
  function MarshalFieldEmission(k: Kind, f: FieldInfo): (r: Emission)
    ensures r.status.Thrown? <==> k.Union? || k.Other?
    ensures r.status.Thrown? ==> r.appended == "" && r.buffer == ""
    ensures r.status.Completed? ==> r.appended == r.buffer
    ensures k.Array? ==> r.appended == ""
  {
    match k
    case Int | Float =>
      var text := MarshalTypeText(f.fieldName, "Number", "", "object", false);
      Emission(text, text, Completed)
    case Ptr =>
      var text := MarshalTypeText(f.fieldName, "Number", "(long long int)", "object", false);
      Emission(text, text, Completed)
    case Array(_, _) => Emission("", "", Completed)
    case Struct =>
      var text := MarshalStructText(f.fieldName, f.fieldTypeName, "object");
      Emission(text, text, Completed)
    case Union => Emission("", "", Thrown(UnionUnsupported))
    case Other => Emission("", "", Thrown(UnknownType))
  }

  /** The text `unmarshal_field` prints for a field of type `f.typeId`, or the
      error it throws instead. An array field appends what the array expansion
      appended and then, once more, the printer's buffer. */
  function UnmarshalFieldEmission(g: TypeGraph, f: FieldInfo): (r: Emission)
    requires WellFormed(g) && f.typeId in g.types
    ensures r.status.Thrown? <==>
      var k := g.types[f.typeId].kind;
      || k.Union? || k.Other?
      || (k.Array? && (g.dims[f.typeId] >= 2 || !IsScalar(ElemNode(g, f.typeId).kind)))
    ensures IsArray(g, f.typeId) && g.dims[f.typeId] >= 2 ==> r.status == Thrown(NotAnArray)
    ensures r.status.Thrown? ==> r.appended == ""
  {
    match g.types[f.typeId].kind
    case Int =>
      var text := UnmarshalTypeText(f.fieldName, "Number", "", "valueint");
      Emission(text, text, Completed)
    case Float =>
      var text := UnmarshalTypeText(f.fieldName, "Number", "", "valuedouble");
      Emission(text, text, Completed)
    case Ptr =>
      var text := UnmarshalTypeText(f.fieldName, "Number", "(void *)", "valueint");
      Emission(text, text, Completed)
    case Array(_, _) =>
      var x := ExpandArray(g, f.fieldName, f.typeId, "object", 0, "");
      ExpandArrayOutcome(g, f.fieldName, f.typeId, "object", 0, "");
      if x.status.Thrown? then x else Emission(x.appended + x.buffer, x.buffer, Completed)
    case Struct => Emission("", "", Completed)
    case Union => Emission("", "", Thrown(UnionUnsupported))
    case Other => Emission("", "", Thrown(UnknownType))
  }

  /** An array field's unmarshal text is the expansion's text followed by
      the buffer it leaves behind; a failed expansion is passed on as is. */
  lemma UnmarshalArrayEmission(g: TypeGraph, f: FieldInfo)
    requires WellFormed(g) && f.typeId in g.types && g.types[f.typeId].kind.Array?
    ensures var x := ExpandArray(g, f.fieldName, f.typeId, "object", 0, "");
      UnmarshalFieldEmission(g, f)
        == if x.status.Thrown? then x else Emission(x.appended + x.buffer, x.buffer, Completed)
  {
  }

  /** Both passes reject exactly the same non-array kinds, so a struct whose
      marshal function was generated also gets an unmarshal function. */
  lemma PassesRejectSameKinds(g: TypeGraph, f: FieldInfo)
    requires WellFormed(g) && f.typeId in g.types && !g.types[f.typeId].kind.Array?
    ensures MarshalFieldEmission(g.types[f.typeId].kind, f).status
         == UnmarshalFieldEmission(g, f).status
  {
  }

  /** For a scalar field the two passes agree on the JSON key: what the
      marshal function stores under `"<field>"` the unmarshal function looks
      up under `"<field>"`. */
  lemma ScalarFieldRoundTripKey(g: TypeGraph, f: FieldInfo)
    requires WellFormed(g) && f.typeId in g.types && IsScalar(g.types[f.typeId].kind)
    ensures Contains(MarshalFieldEmission(g.types[f.typeId].kind, f).appended, JsonKey(f.fieldName))
    ensures Contains(UnmarshalFieldEmission(g, f).appended, JsonKey(f.fieldName))
  {
    var k := g.types[f.typeId].kind;
    var conversion := if k.Ptr? then "(long long int)" else "";
    var cast := if k.Ptr? then "(void *)" else "";
    var value := if k.Float? then "valuedouble" else "valueint";
    ScalarFieldKeysAgree(f.fieldName, "Number", conversion, cast, "object", false, value);
  }

  /** A struct-typed field serializes by calling the marshal function that
      the marshal prologue of its own struct type declares. */
  lemma StructFieldCallsNestedMarshal(f: FieldInfo)
    ensures Contains(MarshalFieldEmission(Struct, f).appended,
                     MarshalFunctionName(f.fieldTypeName) + "(&src->" + f.fieldName + ")")
    ensures Contains(StructPrologue(Marshal, f.fieldTypeName),
                     MarshalFunctionName(f.fieldTypeName) + "(const struct " + f.fieldTypeName + " *src)")
  {
    MarshalStructCallsNestedMarshal(f.fieldName, f.fieldTypeName, "object");
    MarshalPrologueSignature(f.fieldTypeName);
  }

  // ---------------------------------------------------------------------------
  // Array expansion (lines 253-299)

  /** What one level of `marshal_json_array` prints before it looks at the
      element type: an opening brace, the loop over this dimension and the
      creation of this dimension's container. */
  function LevelHeader(field: string, dim: nat, nelems: nat, base: string): string
    requires nelems < 0x1_0000_0000
  {
    "{\n" + LoopHeader(dim, nelems) + ArrayCreateText(ContainerName(field, dim), field, base)
  }

  /** The type id line 288 recurses on for an array of arrays:
      `elem_type->type`, the header word of the element node, where the
      element's own id is `ElemId`. */
  function RecursionTarget(g: TypeGraph, id: TypeId): TypeId
    requires WellFormed(g) && IsArray(g, id)
  {
    ElemNode(g, id).slot
  }

  /** The header word of an array node is 0, so for an array of arrays the
      recursion looks up void: a type that is not an array and has no
      dimensions. */
  lemma NestedRecursionHitsVoid(g: TypeGraph, id: TypeId)
    requires WellFormed(g) && IsArray(g, id) && IsArray(g, ElemId(g, id))
    ensures RecursionTarget(g, id) == Void && !IsArray(g, Void)
    ensures g.dims[Void] == 0 && g.dims[id] >= 2
  {
    assert ArrayNodeOk(g, id);
    assert ArrayNodeOk(g, ElemId(g, id));
    assert ArrayNodeOk(g, Void);
  }

  /** What the recursion at line 288 needs to end: its target resolves and
      has no dimensions. */
  lemma RecursionTargetHasNoDims(g: TypeGraph, id: TypeId)
    requires WellFormed(g) && IsArray(g, id) && IsArray(g, ElemId(g, id))
    ensures RecursionTarget(g, id) in g.types && g.dims[RecursionTarget(g, id)] == 0 && g.dims[id] >= 1
  {
    NestedRecursionHitsVoid(g, id);
  }

  /** `marshal_json_array(output, field, id, base, _, dim)` on the shared
      printer, entered while the printer holds `held`. A type that is not an
      array fails the assertion at line 262 before anything is printed.
      Otherwise the level resets the printer and prints its header; an array
      element is entered on `RecursionTarget` at `dim + 1` with this level's
      container as base; a scalar element closes the level; any other
      element throws with the header left in the buffer. After a nested call
      completes, the level prints its `}\n` onto what the nested call left
      and appends the buffer to `output`. */
  function ExpandArray(g: TypeGraph, field: string, id: TypeId, base: string, dim: nat, held: string): (r: Emission)
    requires WellFormed(g) && id in g.types
    ensures r.status.Thrown? ==> r.appended == ""
    decreases g.dims[id]
  {
    if !IsArray(g, id) then Emission("", held, Thrown(NotAnArray))
    else
      var ek := ElemNode(g, id).kind;
      var h := LevelHeader(field, dim, Nelems(g, id), base);
      if ek.Array? then
        RecursionTargetHasNoDims(g, id);
        var inner := ExpandArray(g, field, RecursionTarget(g, id), ContainerName(field, dim), dim + 1, h);
        if inner.status.Thrown? then inner
        else
          var b := inner.buffer + CloseBrace;
          Emission(inner.appended + b, b, Completed)
      else if IsScalar(ek) then Emission(h + CloseBrace, h + CloseBrace, Completed)
      else Emission("", h, Thrown(StructArrayUnsupported))
  }

  /** One level of an array of arrays, stated without what the recursion
      target is. */
  lemma ExpandArrayNested(g: TypeGraph, field: string, id: TypeId, base: string, dim: nat, held: string)
    requires WellFormed(g) && IsArray(g, id) && IsArray(g, ElemId(g, id))
    ensures RecursionTarget(g, id) in g.types
    ensures var h := LevelHeader(field, dim, Nelems(g, id), base);
      var r := ExpandArray(g, field, id, base, dim, held);
      var inner := ExpandArray(g, field, RecursionTarget(g, id), ContainerName(field, dim), dim + 1, h);
      && (inner.status.Thrown? ==> r == inner)
      && (inner.status.Completed? ==>
            r == Emission(inner.appended + (inner.buffer + CloseBrace), inner.buffer + CloseBrace, Completed))
  {
    RecursionTargetHasNoDims(g, id);
  }

  /** The outcome of the expansion as written, for every array type. A type
      has two or more dimensions exactly when its element is an array, and
      then the nested call looks up void and fails, leaving this level's
      header in the printer. Otherwise the level completes, appending its
      header and `}\n`, exactly when the element is an int, float or
      pointer, and throws the struct-array error otherwise. */
  lemma ExpandArrayOutcome(g: TypeGraph, field: string, id: TypeId, base: string, dim: nat, held: string)
    requires WellFormed(g) && IsArray(g, id)
    ensures var r := ExpandArray(g, field, id, base, dim, held);
      var ek := ElemNode(g, id).kind;
      var h := LevelHeader(field, dim, Nelems(g, id), base);
      && (g.dims[id] >= 2 <==> ek.Array?)
      && (ek.Array? ==> r == Emission("", h, Thrown(NotAnArray)))
      && (IsScalar(ek) ==> r == Emission(h + CloseBrace, h + CloseBrace, Completed))
      && (!ek.Array? && !IsScalar(ek) ==> r == Emission("", h, Thrown(StructArrayUnsupported)))
  {
    var e := ElemId(g, id);
    assert ArrayNodeOk(g, id);
    assert ArrayNodeOk(g, e);
    if g.types[e].kind.Array? {
      NestedRecursionHitsVoid(g, id);
    }
  }

  /** A one-dimensional array of scalars: `unmarshal_field` appends the level's
      text twice, once from `marshal_json_array` and once more from its own
      final append. */
  lemma OneDimArrayAppendedTwice(g: TypeGraph, f: FieldInfo)
    requires WellFormed(g) && IsArray(g, f.typeId) && g.dims[f.typeId] == 1
    requires IsScalar(ElemNode(g, f.typeId).kind)
    ensures var b := LevelHeader(f.fieldName, 0, Nelems(g, f.typeId), "object") + CloseBrace;
      UnmarshalFieldEmission(g, f) == Emission(b + b, b, Completed)
  {
    ExpandArrayOutcome(g, f.fieldName, f.typeId, "object", 0, "");
  }

  /** `object_name` is a `char[512]`: the container name of level `dim` must
      fit it. */
  predicate ObjectNameFits(field: string, dim: nat)
  {
    |ContainerName(field, dim)| < 512
  }

  // ---------------------------------------------------------------------------
  // The generator

  class JsonGenerator {
    /** The BTF object whose structs are walked (`btf_data`). */
    const btf: TypeGraph
    /** What `get_c_file_header()` and `get_c_file_footer()` return. */
    const fileHeader: string
    const fileFooter: string
    /** The pass counter the struct walker advances. */
    var walkCount: int
    const printer: SprintfPrinter

    constructor (btf: TypeGraph, fileHeader: string, fileFooter: string)
      ensures this.btf == btf && this.fileHeader == fileHeader && this.fileFooter == fileFooter
      ensures walkCount == 0 && fresh(printer) && printer.buffer == ""
    {
      this.btf := btf;
      this.fileHeader := fileHeader;
      this.fileFooter := fileFooter;
      walkCount := 0;
      printer := new SprintfPrinter();
    }

    /** Only appends: the file header, then the `#include` block. */
    method StartGenerate(output: string) returns (out: string)
      ensures out == output + fileHeader + IncludeBlock
    {
      var header := fileHeader;
      header := header + IncludeBlock;
      out := output + header;
    }

    /** Only appends: the file footer. */
    method EndGenerate(output: string) returns (out: string)
      ensures out == output + fileFooter
    {
      out := output + fileFooter;
    }

    method EnterStructDef(output: string, info: StructInfo) returns (out: string)
      requires |StructPrologue(PassOf(walkCount), info.structName)| < 1024
      ensures out == output + StructPrologue(PassOf(walkCount), info.structName)
    {
      if walkCount == 0 {
        var structDef := Render(MarshalProto, [info.structName, info.structName]);
        out := output + structDef;
      } else {
        var structDef := Render(UnmarshalProto, [info.structName, info.structName, info.structName]);
        out := output + structDef;
      }
    }

    method ExitStructDef(output: string, info: StructInfo) returns (out: string)
      ensures out == output + StructEpilogue(PassOf(walkCount))
    {
      if walkCount == 0 {
        out := output + MarshalReturn;
      } else {
        out := output + UnmarshalReturn;
      }
      out := out + CloseBrace;
    }

    method MarshalJsonStruct(info: FieldInfo, base: string)
      modifies printer
      ensures printer.buffer == old(printer.buffer) + MarshalStructText(info.fieldName, info.fieldTypeName, base)
    {
      var f := info.fieldName;
      printer.Printf(MarshalStructFormat, [f, info.fieldTypeName, f, f, base, f, f, f, base, f, f, base]);
    }

    method MarshalJsonType(info: FieldInfo, jsonType: string, conversion: string, base: string, isArray: bool)
      modifies printer
      ensures printer.buffer == old(printer.buffer) + MarshalTypeText(info.fieldName, jsonType, conversion, base, isArray)
    {
      var addTo := if isArray then "Array" else "Object";
      var f := info.fieldName;
      printer.Printf(MarshalTypeFormat, [f, jsonType, conversion, f, f, base, addTo, f, f, base]);
    }

    method UnmarshalJsonType(info: FieldInfo, jsonType: string, conversion: string, base: string, valueField: string)
      modifies printer
      ensures printer.buffer == old(printer.buffer) + UnmarshalTypeText(info.fieldName, jsonType, conversion, valueField)
    {
      var f := info.fieldName;
      printer.Printf(UnmarshalTypeFormat, [f, f, jsonType, f, f, conversion, f, valueField]);
    }

    /** Resets the printer, so what it appends is this field's text alone,
        whatever an earlier field left in the buffer. */
    method MarshalField(output: string, info: FieldInfo) returns (out: string, status: Status)
      requires WellFormed(btf) && info.typeId in btf.types
      modifies printer
      ensures var e := MarshalFieldEmission(btf.types[info.typeId].kind, info);
        out == output + e.appended && printer.buffer == e.buffer && status == e.status
    {
      printer.Reset();
      match btf.types[info.typeId].kind {
        case Int | Float =>
          MarshalJsonType(info, "Number", "", "object", false);
        case Ptr =>
          MarshalJsonType(info, "Number", "(long long int)", "object", false);
        case Array(_, _) =>
        case Struct =>
          MarshalJsonStruct(info, "object");
        case Union =>
          return output, Thrown(UnionUnsupported);
        case Other =>
          return output, Thrown(UnknownType);
      }
      out := output + printer.buffer;
      status := Completed;
    }

    /** Resets the printer, so what it appends is this field's text alone,
        whatever an earlier field left in the buffer. */
    method UnmarshalField(output: string, info: FieldInfo) returns (out: string, status: Status)
      requires WellFormed(btf) && info.typeId in btf.types
      requires IsArray(btf, info.typeId) ==> ObjectNameFits(info.fieldName, 0)
      modifies printer
      ensures var e := UnmarshalFieldEmission(btf, info);
        out == output + e.appended && printer.buffer == e.buffer && status == e.status
    {
      printer.Reset();
      out := output;
      match btf.types[info.typeId].kind {
        case Int =>
          UnmarshalJsonType(info, "Number", "", "object", "valueint");
        case Float =>
          UnmarshalJsonType(info, "Number", "", "object", "valuedouble");
        case Ptr =>
          UnmarshalJsonType(info, "Number", "(void *)", "object", "valueint");
        case Array(_, _) =>
          ghost var x := ExpandArray(btf, info.fieldName, info.typeId, "object", 0, "");
          UnmarshalArrayEmission(btf, info);
          out, status := MarshalJsonArray(output, info.fieldName, info.typeId, "object", false, 0);
          if status.Completed? {
            AppendAssoc(output, x.appended, x.buffer);
            out := out + printer.buffer;
          }
          return;
        case Struct =>
        case Union =>
          return output, Thrown(UnionUnsupported);
        case Other =>
          return output, Thrown(UnknownType);
      }
      out := out + printer.buffer;
      status := Completed;
    }

    /** A bitfield throws before the printer or `output` is touched; any other
        field goes to the current pass's field generator. */
    method EnterStructField(output: string, info: FieldInfo) returns (out: string, status: Status)
      requires WellFormed(btf) && info.typeId in btf.types
      requires IsArray(btf, info.typeId) ==> ObjectNameFits(info.fieldName, 0)
      modifies printer
      ensures info.bitSz != 0 ==>
        out == output && status == Thrown(BitfieldUnsupported) && printer.buffer == old(printer.buffer)
      ensures info.bitSz == 0 ==>
        var e := if walkCount == 0 then MarshalFieldEmission(btf.types[info.typeId].kind, info)
                 else UnmarshalFieldEmission(btf, info);
        out == output + e.appended && printer.buffer == e.buffer && status == e.status
    {
      if info.bitSz != 0 {
        return output, Thrown(BitfieldUnsupported);
      }
      if walkCount == 0 {
        out, status := MarshalField(output, info);
      } else {
        out, status := UnmarshalField(output, info);
      }
    }

    /** Lines 267-286: reset the shared printer, then print the level's
        brace, loop header and container creation. Returns `object_name`. */
    method PrintLevelHeader(field: string, dim: nat, nelems: nat, base: string) returns (objectName: string)
      requires nelems < 0x1_0000_0000
      modifies printer
      ensures objectName == ContainerName(field, dim)
      ensures printer.buffer == LevelHeader(field, dim, nelems, base)
    {
      BraceFormats();
      printer.Reset();
      printer.Printf(OpenBrace, []);
      assert "" + "{\n" == "{\n";
      assert printer.buffer == "{\n";
      objectName := Render(ObjectNameFormat, [field, NatText(dim)]);
      var d := NatText(dim);
      printer.Printf(LoopFormat, [d, d, IntText(AsCInt(nelems)), d]);
      assert printer.buffer == "{\n" + LoopHeader(dim, nelems);
      printer.Printf(ArrayCreateFormat, [objectName, field, objectName, base]);
    }

    /** `marshal_json_array`, recursing as line 288 does; `baseIsArray` is
        accepted and not used, as in the source. An array type's container
        name must fit `object_name`. */
    method MarshalJsonArray(output: string, field: string, typeId: TypeId, base: string,
                            baseIsArray: bool, dim: nat)
      returns (out: string, status: Status)
      requires WellFormed(btf) && typeId in btf.types
      requires btf.dims[typeId] >= 1 ==> ObjectNameFits(field, dim)
      modifies printer
      ensures var e := ExpandArray(btf, field, typeId, base, dim, old(printer.buffer));
        out == output + e.appended && printer.buffer == e.buffer && status == e.status
      decreases btf.dims[typeId]
    {
      if !IsArray(btf, typeId) {
        return output, Thrown(NotAnArray);
      }
      ArrayHasDims(btf, typeId);
      var elem := ElemId(btf, typeId);
      var nelems := Nelems(btf, typeId);
      var objectName := PrintLevelHeader(field, dim, nelems, base);
      ghost var h := printer.buffer;
      ghost var r := ExpandArray(btf, field, typeId, base, dim, old(printer.buffer));
      var elemType := btf.types[elem];
      if elemType.kind.Array? {
        var target := elemType.slot;
        RecursionTargetHasNoDims(btf, typeId);
        ghost var inner := ExpandArray(btf, field, target, objectName, dim + 1, h);
        assert r == if inner.status.Thrown? then inner
                    else Emission(inner.appended + (inner.buffer + CloseBrace), inner.buffer + CloseBrace, Completed) by {
          ExpandArrayNested(btf, field, typeId, base, dim, old(printer.buffer));
        }
        out, status := MarshalJsonArray(output, field, target, objectName, true, dim + 1);
        if status.Thrown? {
          return;
        }
        out := CloseLevel(out);
        AppendAssoc(output, inner.appended, inner.buffer + CloseBrace);
      } else if IsScalar(elemType.kind) {
        assert r == Emission(h + CloseBrace, h + CloseBrace, Completed) by {
          ExpandArrayOutcome(btf, field, typeId, base, dim, old(printer.buffer));
        }
        out := CloseLevel(output);
      } else {
        assert r == Emission("", h, Thrown(StructArrayUnsupported)) by {
          ExpandArrayOutcome(btf, field, typeId, base, dim, old(printer.buffer));
        }
        return output, Thrown(StructArrayUnsupported);
      }
      status := Completed;
    }

    /** Lines 297-298: close the level's brace and append the buffer. */
    method CloseLevel(output: string) returns (out: string)
      modifies printer
      ensures printer.buffer == old(printer.buffer) + CloseBrace
      ensures out == output + printer.buffer
    {
      BraceFormats();
      printer.Printf(CloseBraceFormat, []);
      out := output + printer.buffer;
    }
  }
}
