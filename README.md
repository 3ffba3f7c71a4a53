# JSON binding generator of c-struct-bindgen, in Dafny

This project models `c_struct_json_generator` from `src/gen-json-binding.cpp`.
The struct walker drives it over every struct of a BTF object. For each struct
it writes a C function that serializes the struct to JSON with cJSON (pass 0,
`walk_count == 0`). On every later pass it writes a function that parses the
struct back instead.

The model is imperative, like the source:

- `JsonBinding.JsonGenerator` is a class holding the type graph, the file
  header and footer, `walk_count` and the shared `default_printer`.
- `Printing.SprintfPrinter` is that printer, a mutable buffer that `Reset`
  clears and `Printf` appends a filled format to.
- Every `std::string &output` parameter is an in-parameter returned as `out`.
- A thrown `std::runtime_error` is a `Status` of `Thrown(error)`. `output` is
  then unchanged, because every append in the source comes after its throw
  points.

The field and array methods (`MarshalField`, `UnmarshalField`,
`EnterStructField`, `MarshalJsonArray`) are proved against specification
functions returning an `Emission`:

- the text appended to `output`;
- the contents of the printer's buffer afterwards;
- whether the call completed.

The properties of those methods are lemmas about these functions. The
other methods state their exact effect directly: the text they append to
`output` or print onto the buffer, as a filled format.

The printf formats are `Printing.Template`s: the literal runs of the format,
cut at each conversion. `Render` fills a format's conversions left to right.
It requires at least as many arguments as conversions, since fewer is
undefined behaviour in C. `%d` prints `NatText`/`IntText`. A `__u32` element
count passed to `%d` is reinterpreted as a C `int` by `AsCInt`.

The BTF accessors are replaced by `Btf.TypeGraph`, a map from type ids to
nodes. `WellFormed` states what libbpf guarantees:

- id 0 is void;
- array element ids resolve;
- element counts are 32-bit;
- the unused header word of an array node is 0;
- a dimension count `dims` strictly decreases along array element chains.

`MarshalJsonArray` follows the source as written, including the nested call
at line 288. That call passes the element node's header word, which is 0
for an array node, so it looks up void and fails the assertion at line 262.
The model reports that as `Thrown(NotAnArray)`. `ExpandArray` specifies the
as-written expansion. `ExpandArrayOutcome` states its result for every
array type: an array of two or more dimensions fails, and a one-dimensional
array completes or throws according to its element type.

Module `Findings` defines `ExpandArrayCorrected`. It is the expansion with
the nested call made on the element's id, the corrected reference. The
shared buffer's consequences are proved about it:

- every level resets the printer, so a nested level discards its enclosing
  level's header (`CorrectedClosedForm`);
- the level `i` steps down runs at dimension `dim + i` on the container of
  the level above it, with names of its own (`NestedLevel`).

Both expansions agree on one-dimensional arrays (`OneDimAsWrittenAgrees`).
On those, every level appends the buffer to `output`, and `unmarshal_field`
appends it once more (`OneDimArrayAppendedTwice`).

`dim` has a default argument declared in a header. Here it is an explicit
argument, and `unmarshal_field` passes 0.

Two defects of `marshal_json_array` are logged under "## Findings". For the
container-creation call, which passes one argument fewer than its format
reads, the generator prints the enclosing object as the fourth argument.
For the nested call the generator keeps the recursion as written.

## Model

| member | source | states |
|---|---|---|
| JsonBinding.JsonGenerator.StartGenerate | src/gen-json-binding.cpp:23-34 | only appends: the new output is the old output followed by the file header and then the fixed `#include` block (assert, string, stdint, cJSON) |
| JsonBinding.JsonGenerator.EndGenerate | src/gen-json-binding.cpp:36-40 | only appends: the new output is the old output followed by the file footer |
| JsonBinding.JsonGenerator.EnterStructDef | src/gen-json-binding.cpp:42-79 | appends exactly the prologue of the pass selected by `walk_count` (marshal when 0, unmarshal otherwise) with the struct name filled in |
| JsonBinding.PrologueDeclares | src/gen-json-binding.cpp:45-78 | the marshal prologue declares `marshal_struct_<name>__to_json_str(const struct <name> *src)`; the unmarshal prologue declares `static struct <name> *` `unmarshal_struct_<name>__from_json_str(struct <name> *dst` |
| JsonTemplates.MarshalPrologueSignature | src/gen-json-binding.cpp:47-59 | the marshal prologue contains the struct name at both conversions, as function name and parameter type |
| JsonTemplates.UnmarshalPrologueSignature | src/gen-json-binding.cpp:64-76 | the unmarshal prologue contains the struct name at all three conversions: return type, function name, `dst` parameter type |
| JsonBinding.JsonGenerator.ExitStructDef | src/gen-json-binding.cpp:81-97 | appends the pass's return statement (`return cJSON_PrintUnformatted(object);` on pass 0, `return dst;` otherwise) and then `}\n`, keeping the old output as a prefix |
| JsonBinding.EpilogueClosesOnce | src/gen-json-binding.cpp:84-96 | the epilogue is the return statement followed by `}\n`, and the return statement holds no `}`, so the function is closed exactly once |
| JsonTemplates.ReturnsHaveNoBrace | src/gen-json-binding.cpp:86-94 | neither return statement contains a closing brace |
| JsonBinding.JsonGenerator.MarshalJsonStruct | src/gen-json-binding.cpp:99-125 | appends to the printer the struct-field fragment filled with the field name, nested type name and base object, in the source's argument order |
| JsonTemplates.MarshalStructCallsNestedMarshal | src/gen-json-binding.cpp:104-124 | the struct-field fragment calls `marshal_struct_<type>__to_json_str(&src-><field>)` |
| JsonBinding.JsonGenerator.MarshalJsonType | src/gen-json-binding.cpp:127-150 | appends to the printer the scalar fragment, adding to an `Array` when `is_array` and to an `Object` otherwise |
| JsonBinding.JsonGenerator.UnmarshalJsonType | src/gen-json-binding.cpp:152-171 | appends to the printer the scalar-reading fragment filled with field, JSON type, cast and value member |
| JsonTemplates.ScalarFieldKeysAgree | src/gen-json-binding.cpp:134-170 | the marshal fragment stores the field under the JSON key `"<field>"`, and the unmarshal fragment reads it under that same key |
| JsonBinding.MarshalFieldEmission | src/gen-json-binding.cpp:173-202 | throws exactly for unions and unknown kinds, then appending nothing; otherwise appends exactly what the printer holds; an array field appends nothing |
| JsonBinding.JsonGenerator.MarshalField | src/gen-json-binding.cpp:173-202 | resets the printer and dispatches on the field's kind: int/float take the `Number` fragment with no cast, a pointer takes `(long long int)`, a struct the nested call, an array nothing, and a union or unknown kind throws with the output unchanged; the appended text never depends on an earlier field's buffer |
| JsonBinding.UnmarshalFieldEmission | src/gen-json-binding.cpp:204-235 | throws exactly for unions, unknown kinds and arrays that have two or more dimensions or a non-scalar element, then appending nothing; an array of two or more dimensions throws `NotAnArray` from the nested call on void |
| JsonBinding.JsonGenerator.UnmarshalField | src/gen-json-binding.cpp:204-235 | resets the printer and dispatches: int reads `valueint`, float `valuedouble`, a pointer `valueint` through `(void *)`, an array goes to the as-written expansion at dimension 0 on base `object` and the buffer is appended once more, a struct appends nothing, and a union or unknown kind throws with the output unchanged |
| JsonBinding.PassesRejectSameKinds | src/gen-json-binding.cpp:194-232 | for every non-array field the two passes throw on exactly the same kinds with the same error |
| JsonBinding.ScalarFieldRoundTripKey | src/gen-json-binding.cpp:180-219 | for an int, float or pointer field both passes' appended text contains the key `"<field>"` |
| JsonBinding.StructFieldCallsNestedMarshal | src/gen-json-binding.cpp:191-193 | a struct field's text calls the nested type's marshal function, the one that the nested type's marshal prologue declares |
| JsonBinding.JsonGenerator.EnterStructField | src/gen-json-binding.cpp:237-251 | a bitfield throws leaving output and printer untouched; any other field goes to marshal_field on pass 0 and to unmarshal_field otherwise |
| JsonBinding.JsonGenerator.PrintLevelHeader | src/gen-json-binding.cpp:267-286 | after the reset the printer holds exactly `{`, the loop over `var_dim_<dim>` up to `nelems`, and the creation of `<field>_object_dim_<dim>`, which is returned as the object name |
| JsonBinding.JsonGenerator.CloseLevel | src/gen-json-binding.cpp:297-298 | prints `}\n` onto the buffer and appends the whole buffer to the output |
| JsonBinding.JsonGenerator.MarshalJsonArray | src/gen-json-binding.cpp:253-299 | as written, with the nested call on `elem_type->type`: output, buffer and status are exactly those of `ExpandArray`; a type that is not an array fails the assertion with the output unchanged |
| JsonBinding.ExpandArray | src/gen-json-binding.cpp:253-299 | the as-written expansion; a failed expansion appends nothing |
| JsonBinding.ExpandArrayOutcome | src/gen-json-binding.cpp:261-296 | for every array type: it has two or more dimensions exactly when its element is an array, and then the expansion fails with `NotAnArray`, appending nothing and leaving this level's header in the buffer; a scalar element completes, appending the header and `}\n`; any other element throws the struct-array error with the header left in the buffer |
| JsonBinding.ExpandArrayNested | src/gen-json-binding.cpp:287-298 | one level of an array of arrays: the nested call's failure propagates unchanged, and otherwise the level closes its brace on the nested buffer and appends it |
| JsonBinding.NestedRecursionHitsVoid | src/gen-json-binding.cpp:287-289 | for every array of arrays the id the nested call receives is void, which is not an array, and the array has at least two dimensions |
| JsonBinding.OneDimArrayAppendedTwice | src/gen-json-binding.cpp:221-234 | for a one-dimensional array of scalars the unmarshal pass appends the level's text `b` twice (`b + b`), with `b` left in the buffer |
| JsonTemplates.LoopHeaderDeclares | src/gen-json-binding.cpp:274-276 | the loop header declares `for(int var_dim_<dim> = 0; ` |
| JsonTemplates.LoopVarsDistinct | src/gen-json-binding.cpp:274-276 | different dimensions give different loop index names |
| JsonTemplates.ContainerNameSpelled | src/gen-json-binding.cpp:270-272 | the container name is `<field>_object_dim_<dim>` |
| JsonTemplates.ContainerNamesDistinct | src/gen-json-binding.cpp:270-272 | different dimensions of one field give different container names |
| JsonTemplates.BraceFormats | src/gen-json-binding.cpp:269-297 | the two conversion-free formats print `{\n` and `}\n` |
| Printing.SprintfPrinter.Printf | src/gen-json-binding.cpp:120-124 | appends the filled format to the buffer, given at least as many arguments as conversions |
| Printing.SprintfPrinter.Reset | src/gen-json-binding.cpp:177 | empties the buffer |
| Printing.RenderShowsArg | src/gen-json-binding.cpp:120-124 | every argument a conversion consumes appears in the printed text |
| Printing.RenderLength | src/gen-json-binding.cpp:120-124 | the printed length is the literal length plus the consumed arguments' lengths |
| Printing.RenderIgnoresSurplus | src/gen-json-binding.cpp:120-124 | arguments beyond the last conversion do not affect the text |
| Printing.NatText | src/gen-json-binding.cpp:271-276 | `%d` of a non-negative number is a non-empty string of decimal digits |
| Printing.ParseNatText | src/gen-json-binding.cpp:271-276 | reading back the printed digits gives the number |
| Printing.NatTextInjective | src/gen-json-binding.cpp:271-276 | distinct numbers print differently |
| Printing.AsCInt | src/gen-json-binding.cpp:275-276 | a `__u32` printed by `%d` is the signed 32-bit int with the same bits |
| Findings.ArrayCreateArgsAsWritten | src/gen-json-binding.cpp:286 | the call passes three arguments |
| Findings.ArrayCreateArgsShort | src/gen-json-binding.cpp:278-286 | the container-creation format has one conversion more than the call supplies |
| Findings.ArrayCreateNamesCleanup | src/gen-json-binding.cpp:278-286 | with the enclosing object as fourth argument, the cleanup line reads `// cJSON_Delete(<base>);` |
| Findings.ExpandArrayCorrected | src/gen-json-binding.cpp:253-299 | corrected reference (line 288 recursing on the element id): a failed expansion appends nothing and fails with the struct-array error, never with `NotAnArray` |
| Findings.NestedRecursionDescends | src/gen-json-binding.cpp:263-265 | corrected reference: recursing on the element id visits an array with exactly one dimension fewer |
| Findings.CorrectedLevel | src/gen-json-binding.cpp:287-298 | corrected reference, one level: a nested array is entered at `dim + 1` on this level's container with one dimension fewer, and its failure propagates; a scalar element closes the level; any other element throws with the header left in the buffer |
| Findings.CorrectedExpansionFails | src/gen-json-binding.cpp:287-296 | corrected reference: the expansion throws if and only if the innermost element type is not an int, float or pointer |
| Findings.CorrectedClosedForm | src/gen-json-binding.cpp:267-298 | corrected reference: for a `k`-dimensional array of scalars the printer ends holding only the innermost level's header and `k` closing braces, and the output receives the staircase of those states, one per level |
| Findings.WrappedClosedForm | src/gen-json-binding.cpp:297-298 | `k` enclosing levels around a nested result pass a failure on unchanged, and otherwise add `k` closing braces to the buffer and append one staircase step per level |
| Findings.LevelBaseAbove | src/gen-json-binding.cpp:270-289 | every level below the top is called on the container built at the dimension just above it |
| Findings.LevelChain | src/gen-json-binding.cpp:287-298 | corrected reference: the expansion is the call `i` levels down, at dimension `dim + i`, wrapped once per enclosing level |
| Findings.NestedLevel | src/gen-json-binding.cpp:270-298 | corrected reference: the level `i` steps down is the call at dimension `dim + i` on the container of dimension `dim + i - 1`, wrapped once per enclosing level, and its loop index and container name differ from those of every enclosing level |
| Findings.LevelNamesDistinct | src/gen-json-binding.cpp:270-276 | the level at dimension `dim + i` shares neither its loop index nor its container name with any of the `i` levels above it |
| Findings.InnerHeaderLoopsInnermost | src/gen-json-binding.cpp:267-289 | corrected reference: the header left in the printer declares the loop over the innermost dimension, `var_dim_<dim + k - 1>` |
| Findings.OneDimAsWrittenAgrees | src/gen-json-binding.cpp:253-299 | on a one-dimensional array the as-written expansion, whatever the printer held before, equals the corrected one |
| Findings.IntArray2x3ShowsIt | src/gen-json-binding.cpp:261-289 | for `int f[2][3]` the nested call receives void; the corrected expansion completes, while the as-written one and with it the unmarshal pass fail with `NotAnArray` |

## Left out

- The libbpf accessors (`btf__type_by_id`, `btf_is_*`, `btf_array`) are foreign calls. They are replaced by a well-formed `TypeGraph` given to the generator.
- `get_c_file_header()` and `get_c_file_footer()` are defined in a header that is not part of this model. They are opaque strings fixed when the generator is built.
- The walker that advances `walk_count` is not part of this model. `walkCount` is a field that nothing here changes.
- `sprintf_printer` is defined in a header that is not part of this model. It is modelled as an unbounded text buffer.
- What the emitted C and cJSON code does when run is not modelled, nor the round trip `unmarshal(marshal(x)) == x`. Only the emitted text is. The key agreement of `ScalarFieldRoundTripKey` is the text-level part of that round trip.
- JsonBinding.JsonGenerator.EnterStructDef: requires the filled prologue to fit the 1024-byte buffer. `snprintf` truncation of a longer prologue is not modelled.
- JsonBinding.JsonGenerator.MarshalJsonArray: requires an array level's container name to fit the 512-byte `object_name`. `snprintf` truncation is not modelled. `UnmarshalField` and `EnterStructField` inherit this for array fields.
- The `std::cerr` message before the bitfield throw is not modelled. Neither are the unused `offset` locals of `marshal_field` and `unmarshal_field`.
- The `output` parameter of `marshal_json_struct`, `marshal_json_type` and `unmarshal_json_type` is never used by the source, so those methods have none. The unused `base_json_is_array` flag is kept but ignored, as in the source. The unused `base_json_name` of `unmarshal_json_type` is kept likewise.
- A failing `assert` aborts the process. The model reports it as `Thrown(NotAnArray)` with nothing appended.
- C `int` overflow of `dim + 1` would need more than 2^31 nested dimensions, which BTF cannot describe, so `dim` is a `nat`.
- test/src/marshal_struct_test.cpp tests the binary backend, which is not part of this model.

## Findings

| source | as written | input that shows it | evidently intended | confidence | as-written member | corrected member |
|---|---|---|---|---|---|---|
| src/gen-json-binding.cpp:278-286 | the container-creation format has four `%s` conversions, but `printf` gets three arguments, so the fourth reads an argument that was never passed (undefined behaviour) | any array field, e.g. `int f[3]` | pass `base_json_name` as the fourth argument, so the commented cleanup line names the enclosing object | high; not executed | Findings.ArrayCreateArgsShort | Findings.ArrayCreateNamesCleanup |
| src/gen-json-binding.cpp:288 | the nested call receives `elem_type->type`, which is 0 for an array node, so it looks up void and the `btf_is_array` assertion at line 262 fails | a field `int f[2][3]` | recurse on `array_info->type`, the element array's id | high; not executed | JsonBinding.ExpandArrayOutcome | Findings.CorrectedExpansionFails |
