/** The C text the JSON binding generator emits: each printf format of
    `src/gen-json-binding.cpp`, cut at its `%s`/`%d` conversions, and the fills
    the generator makes of them. A literal run written as a sum of two string
    literals is one run of the source's format, split where a lemma names part
    of it. */
module JsonTemplates {
  import opened Printing

  // ---------------------------------------------------------------------------
  // File prologue and the struct function frames (lines 27-32, 47-56, 64-73,
  // 86-96)

  const IncludeBlock: string :=
    "\n#include <assert.h>\n#include <string.h>\n#include <stdint.h>\n#include \"cJSON.h\"\n"

  const MarshalProto: Template :=
    ["\nstatic char *\n" + "marshal_struct_",
     "__to_json_str" + "(const struct ",
     " *src)" + "\n{\n    assert(src);\n    cJSON *object = cJSON_CreateObject();\n    if (!object) {\n        return NULL;\n    }\n"]

  const UnmarshalProto: Template :=
    ["\n" + "static struct ",
     " *\n" + "unmarshal_struct_",
     "__from_json_str" + "(struct ",
     " *dst" + ", const char *src)\n{\n    assert(dst && src);\n    cJSON *object = cJSON_Parse(src);\n    if (!object) {\n        return NULL;\n    }\n"]

  const MarshalReturn: string := "\n    return cJSON_PrintUnformatted(object);\n"
  const UnmarshalReturn: string := "\n    return dst;\n"
  const CloseBrace: string := "}\n"

  /** The name of the function that serializes `struct name`. */
  function MarshalFunctionName(name: string): string
  {
    "marshal_struct_" + name + "__to_json_str"
  }

  /** The name of the function that deserializes `struct name`. */
  function UnmarshalFunctionName(name: string): string
  {
    "unmarshal_struct_" + name + "__from_json_str"
  }

  function MarshalPrologue(name: string): string
  {
    Render(MarshalProto, [name, name])
  }

  function UnmarshalPrologue(name: string): string
  {
    Render(UnmarshalProto, [name, name, name])
  }

  lemma MarshalProtoRegroup(h: string, m: string, n: string, j: string, c: string, k: string, body: string)
    ensures (h + m) + (n + ((j + c) + (n + (k + body)))) == h + ((m + n + j + c + n + k) + body)
  {
  }

  /** The marshal prologue declares `marshal_struct_<name>__to_json_str`, taking
      a `const struct <name> *src`. */
  lemma MarshalPrologueSignature(name: string)
    ensures Contains(MarshalPrologue(name), MarshalFunctionName(name) + "(const struct " + name + " *src)")
  {
    var t, a := MarshalProto, [name, name];
    var body := "\n{\n    assert(src);\n    cJSON *object = cJSON_CreateObject();\n    if (!object) {\n        return NULL;\n    }\n";
    assert RenderFrom(t, a, 1) == t[1] + (name + t[2]);
    MarshalProtoRegroup("\nstatic char *\n", "marshal_struct_", name, "__to_json_str", "(const struct ", " *src)", body);
    ContainsAt("\nstatic char *\n", MarshalFunctionName(name) + "(const struct " + name + " *src)", body);
  }


  lemma UnmarshalProtoRegroup(h: string, b: string, n: string, c: string, d: string, e: string, f: string, g: string, rest: string)
    ensures (h + b) + (n + ((c + d) + (n + ((e + f) + (n + (g + rest))))))
         == h + ((b + n + c + (d + n + e) + f + n + g) + rest)
  {
  }

  /** The unmarshal prologue names the struct three times: as the return type,
      in `unmarshal_struct_<name>__from_json_str`, and as the `dst` parameter. */
  lemma UnmarshalPrologueSignature(name: string)
    ensures Contains(UnmarshalPrologue(name),
                     "static struct " + name + " *\n" + UnmarshalFunctionName(name) + "(struct " + name + " *dst")
  {
    var t, a := UnmarshalProto, [name, name, name];
    var rest := ", const char *src)\n{\n    assert(dst && src);\n    cJSON *object = cJSON_Parse(src);\n    if (!object) {\n        return NULL;\n    }\n";
    assert RenderFrom(t, a, 2) == t[2] + (name + t[3]);
    assert RenderFrom(t, a, 1) == t[1] + (name + RenderFrom(t, a, 2));
    UnmarshalProtoRegroup("\n", "static struct ", name, " *\n", "unmarshal_struct_", "__from_json_str", "(struct ", " *dst", rest);
    ContainsAt("\n", "static struct " + name + " *\n" + UnmarshalFunctionName(name) + "(struct " + name + " *dst", rest);
  }


  // ---------------------------------------------------------------------------
  // Field templates (lines 104-119, 134-144, 160-167)

  /** `"<field>"`: the key a field is stored under in the JSON object. */
  function JsonKey(field: string): string
  {
    "\"" + field + "\""
  }

  const MarshalStructFormat: Template :=
    ["\n    char *",
     "_object_str = " + "marshal_struct_",
     "__to_json_str" + "(&src->",
     ")" + ";\n    if (!",
     "_object_str) {\n        cJSON_Delete(",
     ");\n        return NULL;\n    }\n    cJSON *",
     "_object = cJSON_Parse(",
     "_object_str);\n    if (!",
     "_object) {\n        cJSON_Delete(",
     ");\n        return NULL;\n    }\n    if (!cJSON_AddItemToObject(object, \"",
     "\", ",
     "_object)) {\n        cJSON_Delete(",
     ");\n        return NULL;\n    }\n"]

  const MarshalTypeFormat: Template :=
    ["\n    cJSON *",
     "_object = cJSON_Create",
     "(",
     "src->",
     ");\n    if (!",
     "_object) {\n        cJSON_Delete(",
     ");\n        return NULL;\n    }\n    if (!cJSON_AddItemTo",
     "(object, " + "\"",
     "\"" + ", ",
     "_object)) {\n        cJSON_Delete(",
     ");\n        return NULL;\n    }\n"]

  const UnmarshalTypeFormat: Template :=
    ["\n    cJSON *",
     "_object = cJSON_GetObjectItemCaseSensitive(object, " + "\"",
     "\"" + ");\n    if (!cJSON_Is",
     "(",
     "_object)) {\n        cJSON_Delete(object);\n        return NULL;\n    }\n    dst->",
     " = ",
     "",
     "_object->",
     ";\n"]

  /** `marshal_json_struct`: call the nested struct's marshal function, parse its
      text and attach the result under the field's key. */
  function MarshalStructText(field: string, typeName: string, base: string): string
  {
    Render(MarshalStructFormat,
           [field, typeName, field, field, base, field, field, field, base, field, field, base])
  }

  /** `marshal_json_type`: create a JSON value of `jsonType` from the
      (converted) field and add it to the container, as an array element when
      `isArray`. */
  function MarshalTypeText(field: string, jsonType: string, conversion: string, base: string, isArray: bool): string
  {
    var addTo := if isArray then "Array" else "Object";
    Render(MarshalTypeFormat,
           [field, jsonType, conversion, field, field, base, addTo, field, field, base])
  }

  /** `unmarshal_json_type`: look the field's key up, check its JSON type and
      store the (converted) value into `dst`. The source also passes a
      `base_json_name`, which no conversion of the format uses. */
  function UnmarshalTypeText(field: string, jsonType: string, conversion: string, valueField: string): string
  {
    Render(UnmarshalTypeFormat,
           [field, field, jsonType, field, field, conversion, field, valueField])
  }

  lemma MarshalStructRegroup(p0: string, f: string, a1: string, b1: string, tn: string, a2: string, b2: string,
                  a3: string, b3: string, rest: string)
    ensures p0 + (f + ((a1 + b1) + (tn + ((a2 + b2) + (f + ((a3 + b3) + rest))))))
         == (p0 + f + a1) + ((b1 + tn + a2 + b2 + f + a3) + (b3 + rest))
  {
  }

  /** The fragment of a struct-typed field calls the nested struct's marshal
      function, `marshal_struct_<type>__to_json_str`, on the field's address. */
  lemma MarshalStructCallsNestedMarshal(field: string, typeName: string, base: string)
    ensures Contains(MarshalStructText(field, typeName, base),
                     MarshalFunctionName(typeName) + "(&src->" + field + ")")
  {
    var t := MarshalStructFormat;
    var a := [field, typeName, field, field, base, field, field, field, base, field, field, base];
    var rest := RenderFrom(t, a, 4);
    assert RenderFrom(t, a, 3) == t[3] + (field + rest);
    assert RenderFrom(t, a, 2) == t[2] + (field + RenderFrom(t, a, 3));
    assert RenderFrom(t, a, 1) == t[1] + (typeName + RenderFrom(t, a, 2));
    assert RenderFrom(t, a, 0) == t[0] + (field + RenderFrom(t, a, 1));
    assert t[1] == "_object_str = " + "marshal_struct_";
    assert t[2] == "__to_json_str" + "(&src->";
    assert t[3] == ")" + ";\n    if (!";
    MarshalStructRegroup(t[0], field, "_object_str = ", "marshal_struct_", typeName, "__to_json_str", "(&src->",
              ")", ";\n    if (!", field + rest);
    ContainsAt(t[0] + field + "_object_str = ", MarshalFunctionName(typeName) + "(&src->" + field + ")",
               ";\n    if (!" + (field + rest));
  }

  lemma KeyBetweenRuns(x: string, k: string, f: string, y: string, q: string)
    ensures Contains((x + k) + (f + ((k + y) + q)), k + f + k)
  {
    assert (x + k) + (f + ((k + y) + q)) == x + (k + f + k) + (y + q);
  }

  /** Both passes address a scalar field by the same JSON key: the marshal
      fragment adds it under `"<field>"` and the unmarshal fragment looks up
      `"<field>"`. */
  lemma ScalarFieldKeysAgree(field: string, jsonType: string, c1: string, c2: string, base: string,
                             isArray: bool, valueField: string)
    ensures Contains(MarshalTypeText(field, jsonType, c1, base, isArray), JsonKey(field))
    ensures Contains(UnmarshalTypeText(field, jsonType, c2, valueField), JsonKey(field))
  {
    var addTo := if isArray then "Array" else "Object";
    var t := MarshalTypeFormat;
    var a := [field, jsonType, c1, field, field, base, addTo, field, field, base];
    assert RenderFrom(t, a, 8) == t[8] + (field + RenderFrom(t, a, 9));
    assert RenderFrom(t, a, 7) == t[7] + (field + RenderFrom(t, a, 8));
    assert t[7] == "(object, " + "\"" && t[8] == "\"" + ", ";
    assert RenderFrom(t, a, 7) == ("(object, " + "\"") + (field + (("\"" + ", ") + (field + RenderFrom(t, a, 9))));
    KeyBetweenRuns("(object, ", "\"", field, ", ", field + RenderFrom(t, a, 9));
    assert JsonKey(field) == "\"" + field + "\"";
    RenderFromContains(t, a, 0, 7, JsonKey(field));

    var u := UnmarshalTypeFormat;
    var b := [field, field, jsonType, field, field, c2, field, valueField];
    assert RenderFrom(u, b, 1) == u[1] + (field + RenderFrom(u, b, 2));
    assert RenderFrom(u, b, 2) == u[2] + (jsonType + RenderFrom(u, b, 3));
    assert RenderFrom(u, b, 1) == ("_object = cJSON_GetObjectItemCaseSensitive(object, " + "\"") + (field + (("\"" + ");\n    if (!cJSON_Is") + (jsonType + RenderFrom(u, b, 3))));
    KeyBetweenRuns("_object = cJSON_GetObjectItemCaseSensitive(object, ", "\"", field,
                   ");\n    if (!cJSON_Is", jsonType + RenderFrom(u, b, 3));
    RenderFromContains(u, b, 0, 1, JsonKey(field));
  }


  // ---------------------------------------------------------------------------
  // Array expansion templates (lines 269-285)

  const OpenBrace: Template := ["{\n"]
  const CloseBraceFormat: Template := ["}\n"]

  const ObjectNameFormat: Template := ["", "_object_dim_", ""]

  const LoopFormat: Template :=
    ["for(int " + "var_dim_",
     " = 0; " + "var_dim_",
     " < ",
     "; var_dim_",
     " ++) {\n"]

  /** The array-creation fragment: four conversions, the last inside the
      commented-out cleanup line. */
  const ArrayCreateFormat: Template :=
    ["\n    cJSON *",
     " = cJSON_CreateArray(src->",
     ");\n    if (! ",
     ") {\n        " + "// cJSON_Delete(",
     ");" + "\n        return NULL;\n    }\n\n"]

  /** The two formats without conversions print themselves, after whatever
      the buffer holds. */
  lemma BraceFormats()
    ensures Render(OpenBrace, []) == "{\n"
    ensures Render(CloseBraceFormat, []) == CloseBrace
  {
  }

  /** The index variable of the loop over dimension `dim`. */
  function LoopVar(dim: nat): string
  {
    "var_dim_" + NatText(dim)
  }

  /** `<field>_object_dim_<dim>`: the container built at dimension `dim`. */
  function ContainerName(field: string, dim: nat): string
  {
    Render(ObjectNameFormat, [field, NatText(dim)])
  }

  /** `for(int var_dim_<dim> = 0; var_dim_<dim> < <nelems>; var_dim_<dim> ++) {`,
      the count printed by `%d` from a `__u32`. */
  function LoopHeader(dim: nat, nelems: nat): string
    requires nelems < 0x1_0000_0000
  {
    var d := NatText(dim);
    Render(LoopFormat, [d, d, IntText(AsCInt(nelems)), d])
  }

  function ArrayCreateText(objectName: string, field: string, base: string): string
  {
    Render(ArrayCreateFormat, [objectName, field, objectName, base])
  }

  lemma LoopRegroup(f: string, v: string, d: string, z: string, rest: string)
    ensures (f + v) + (d + ((z + v) + rest)) == "" + ((f + (v + d) + z) + (v + rest))
  {
  }

  /** The loop header declares the loop's index variable. */
  lemma LoopHeaderDeclares(dim: nat, nelems: nat)
    requires nelems < 0x1_0000_0000
    ensures Contains(LoopHeader(dim, nelems), "for(int " + LoopVar(dim) + " = 0; ")
  {
    var d := NatText(dim);
    var t, a := LoopFormat, [d, d, IntText(AsCInt(nelems)), d];
    var rest := RenderFrom(t, a, 2);
    assert RenderFrom(t, a, 1) == t[1] + (d + rest);
    assert LoopVar(dim) == "var_dim_" + d;
    assert Render(t, a) == ("for(int " + "var_dim_") + (d + ((" = 0; " + "var_dim_") + (d + rest)));
    LoopRegroup("for(int ", "var_dim_", d, " = 0; ", d + rest);
    ContainsAt("", "for(int " + LoopVar(dim) + " = 0; ", "var_dim_" + (d + rest));
  }


  /** Different dimensions get different index variables. */
  lemma LoopVarsDistinct(d1: nat, d2: nat)
    requires d1 != d2
    ensures LoopVar(d1) != LoopVar(d2)
  {
    if LoopVar(d1) == LoopVar(d2) {
      assert NatText(d1) == LoopVar(d1)[8..];
      NatTextInjective(d1, d2);
    }
  }

  /** `<field>_object_dim_<dim>` spelled out. */
  lemma ContainerNameSpelled(field: string, dim: nat)
    ensures ContainerName(field, dim) == field + "_object_dim_" + NatText(dim)
  {
    var t, a := ObjectNameFormat, [field, NatText(dim)];
    assert RenderFrom(t, a, 1) == "_object_dim_" + (NatText(dim) + "");
  }

  /** Different dimensions of one field get different container names. */
  lemma ContainerNamesDistinct(field: string, d1: nat, d2: nat)
    requires d1 != d2
    ensures ContainerName(field, d1) != ContainerName(field, d2)
  {
    ContainerNameSpelled(field, d1);
    ContainerNameSpelled(field, d2);
    var k := |field| + 12;
    if ContainerName(field, d1) == ContainerName(field, d2) {
      assert NatText(d1) == ContainerName(field, d1)[k..];
      NatTextInjective(d1, d2);
    }
  }

  /** The return statements that end an emitted function hold no brace, so
      the `}` after them is the function's only closing one. */
  lemma ReturnsHaveNoBrace()
    ensures '}' !in MarshalReturn && '}' !in UnmarshalReturn
  {
  }
}
