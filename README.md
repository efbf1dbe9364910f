# json-mapper in Dafny

A model of `json-mapper.js`, the declarative object-to-object mapper
`jsonMapper.map(source, spec)`. Each key of the spec is an output path. Each value is a
rule: either a dotted path into the source, or a rule object with `key`, `default`,
`custom` and `map`. The model covers these pieces:

- the helpers `isNone`, `typeOf`/`isObject` and `keys`;
- the dotted-path reader `get`/`_getPath` and `getWithDefaults`;
- the strict or tolerant writer `set`/`_setPath`;
- the auto-vivifying writer `setPath`;
- the rule resolver `getFromObject`;
- the mapper itself, including its recursion into arrays that carry a nested `map`.

JavaScript values are the datatype `JsonValues.Json`. A plain object is the ordered list
of its own properties. `undefined` is `Option.None`. A thrown `Error` is `Result.Err`, and
its tag says which check threw. A function value is a handle `JFunc(id)`. What a handle
does when called is the parameter `call: Callbacks`.

The pure parts of the library are Dafny functions. The parts that work step by step are
methods proved against those functions:

- `keys` is `JsonValues.Keys`;
- the loop of `setPath` is `AutoVivify.SetPath`;
- the loop of the mapper over `keys(map)` is `Mapper.Map`;
- `Array.prototype.map` is `Mapper.MapArray`.

In JavaScript these write into the object graph in place. Here a write returns the tree
as it stands after the assignment.

Modules:

- `JsonValues` (json.dfy): values, property lookup and assignment, `keys`, and dotted-path
  splitting.
- `PathAccess` (paths.dfy): `get`, `_getPath`, `getWithDefaults`, `set`, `_setPath`.
- `AutoVivify` (setpath.dfy): `setPath`, and its reference definition `Vivify`.
- `Mapper` (mapper.dfy): `getFromObject` and `jsonMapper.map`.
- `MapperExamples` (examples.dfy): the cases of the library's test suite, each stated as
  a lemma.

## Model

| member | source | states |
|---|---|---|
| JsonValues.TypeOf | json-mapper.js:172-181 | the tag is `undefined` exactly for undefined, `object` exactly for a plain object, `array` exactly for an array |
| JsonValues.IsObject | json-mapper.js:9-11 | a value is an object exactly when it is a plain object: not undefined, null, an array, a function or a primitive |
| JsonValues.IsNone | json-mapper.js:19-21 | null and undefined are none, and neither is truthy |
| JsonValues.Truthy | json-mapper.js:145 | only a defined, non-null value can be truthy, and every plain object, array and function is |
| JsonValues.Lookup | json-mapper.js:84 | `obj[k]` is undefined exactly when no own property is named `k`; otherwise it is the value of such a property |
| JsonValues.Put | json-mapper.js:123 | after `obj[k] = v`, reading `k` gives `v` and every other name reads as before; an existing property keeps its place and a new one goes last |
| JsonValues.PutSame | json-mapper.js:123 | writing a property back with the value it holds leaves the object unchanged |
| JsonValues.PutPut | json-mapper.js:123 | a second assignment to the same name replaces the first, in place |
| JsonValues.PutCommutes | json-mapper.js:123 | assignments to two different existing names commute |
| JsonValues.PutUnique | json-mapper.js:123 | assignment never creates a second property with the same name |
| JsonValues.Keys | json-mapper.js:29-37 | the loop returns the names of the object's own properties, in order |
| JsonValues.Split | json-mapper.js:95 | `split('.')` gives at least one segment, none holding a dot, and a path without a dot gives itself |
| JsonValues.JoinSplit | json-mapper.js:95 | joining the segments of a split with dots gives the path back |
| JsonValues.SplitJoin | json-mapper.js:136-139 | splitting a join of dot-free segments gives the segments back, so `_setPath`'s leaf and parent are the last segment and the ones before it |
| JsonValues.SplitConcat | json-mapper.js:95 | splitting `a + "." + b` is splitting `a` followed by splitting `b` |
| JsonValues.JoinSnoc | json-mapper.js:231-236 | appending `'.' + segment` to a joined path is the join with that segment added |
| PathAccess.Prop | json-mapper.js:84 | reading a property of null throws; on a plain object it is the lookup of that name |
| PathAccess.Get | json-mapper.js:76-85 | an empty key name or an undefined object fails the assertion |
| PathAccess.GetPath | json-mapper.js:94-103 | `_getPath` from null or undefined returns that value; on a path without a dot it is the one property read |
| PathAccess.Walk | json-mapper.js:99-102 | the loop returns its start when no segment is left or the start is null or undefined, and fails only when it takes a step |
| PathAccess.GetByKey | json-mapper.js:76-85 | a string key behaves as `get`; a key that is not a string fails |
| PathAccess.GetWithDefaults | json-mapper.js:61-67 | fails exactly when `get` fails; gives the default exactly when `get` gives undefined, and otherwise what `get` gives |
| PathAccess.WalkConcat | json-mapper.js:99-101 | walking `p + q` walks `p` and then walks `q` from where it stopped |
| PathAccess.WalkStopsAtNone | json-mapper.js:99 | once the walk reaches null or undefined it returns that value, whatever segments remain |
| PathAccess.EmptySegmentFails | json-mapper.js:94-103 | an empty segment fails exactly when the walk reaches it with a value that is neither null nor undefined |
| PathAccess.GetIsWalk | json-mapper.js:76-103 | `get` on a value that is neither null nor undefined is the walk over the path's segments |
| PathAccess.WalkErrors | json-mapper.js:76-103 | a walk fails only with a failed assertion or a read of a property of null |
| PathAccess.ReadErrors | json-mapper.js:76-85 | reading by key fails only with a failed assertion or a type error |
| PathAccess.GetDotted | json-mapper.js:94-103 | a dotted read takes the first segment, then reads the rest of the path from there; it stops at null or undefined |
| PathAccess.WalkPutOther | json-mapper.js:99-101 | a walk whose first segment differs from the assigned name does not see the assignment |
| PathAccess.WalkLeaf | json-mapper.js:99-101 | one more segment after a walk that reached a plain object reads that object's property |
| PathAccess.AssignKey | json-mapper.js:123 | on a plain object the name then reads the value and every other name reads as before; on any other truthy value the write is silently dropped and the value is unchanged |
| PathAccess.AssignAt | json-mapper.js:144-154 | the write below `parent` keeps the root a plain object exactly when it was one |
| PathAccess.Set | json-mapper.js:114-125 | a successful write keeps the root defined exactly when it was, and a plain object exactly when it was |
| PathAccess.SetDotted | json-mapper.js:136-155 | as `Set`, for a path that holds a dot |
| PathAccess.SetOwnProperty | json-mapper.js:114-125 | the non-dotted `set` succeeds exactly on a truthy object, returns the value, and on a plain object writes exactly that property |
| PathAccess.SetEmptyLeaf | json-mapper.js:137-143 | a path ending in a dot, `.` itself included, throws before anything is read |
| PathAccess.SetMissingParent | json-mapper.js:144-152 | a falsy parent makes a tolerant write return undefined and change nothing, and a strict write throw |
| PathAccess.AssignAtReads | json-mapper.js:144-154 | after the write, the parent reads as the parent with the leaf assigned |
| PathAccess.AssignAtFrame | json-mapper.js:136-155 | every path that leaves `parent + [leaf]` before its end reads the same before and after the write |
| PathAccess.SetWrites | json-mapper.js:114-155 | with a plain-object parent, `set` returns the value, assigns exactly the leaf of that parent, and the full path then reads the value |
| PathAccess.SetAssigns | json-mapper.js:114-155 | with a plain-object parent, `set` succeeds and its tree is the assignment at the parent |
| AutoVivify.SetPathFrom | json-mapper.js:229-244 | the loop keeps a plain-object root a plain object |
| AutoVivify.SetPath | json-mapper.js:226-245 | the loop leaves the tree and the error given by the specification function `SetPathSpec` |
| AutoVivify.EnsureWalk | json-mapper.js:241-243 | after the passes over the intermediate segments, walking them reaches a plain object |
| AutoVivify.EnsureStep | json-mapper.js:241-243 | one pass writes `{}` under the segment exactly when the value there is null or undefined |
| AutoVivify.EnsureThenAssign | json-mapper.js:237-239 | the last pass writes the value where `Vivify` puts it |
| AutoVivify.ReadAfterEnsure | json-mapper.js:241 | `get` of the accumulated path reads the segment in the object the earlier passes left |
| AutoVivify.SubPathStep | json-mapper.js:231-236 | the accumulated `sub_path` is the join of the segments so far |
| AutoVivify.PassNonFinal | json-mapper.js:229-243 | a pass over an intermediate segment of a clear path moves the loop to `Ensure` of one more segment |
| AutoVivify.PassFinal | json-mapper.js:237-239 | the pass over the last segment finishes with `Vivify` and no error |
| AutoVivify.SetPathFromVivifies | json-mapper.js:229-244 | from any pass on, the loop over a clear path with no empty segment ends with `Vivify` |
| AutoVivify.SetPathVivifies | json-mapper.js:226-245 | `setPath` on a plain object, with no empty segment and a clear path, creates the missing intermediate objects and writes the value |
| AutoVivify.SetPathFromFails | json-mapper.js:230 | an empty segment at or after the current pass makes the loop end with an error |
| AutoVivify.SetPathFailsOnEmptySegment | json-mapper.js:227-230 | an empty segment anywhere in the path (`d..e`, `.d`, `d.`) makes `setPath` fail |
| AutoVivify.VivifyReads | json-mapper.js:226-245 | after `Vivify`, walking the full path reads the value |
| AutoVivify.VivifyTop | json-mapper.js:241-243 | `Vivify` writes only its first segment at the top level |
| AutoVivify.SiblingAtTop | json-mapper.js:226-245 | a path whose first segment differs reads the same after `Vivify` |
| AutoVivify.SiblingBelow | json-mapper.js:241 | when the first segment already holds a plain object, walks below it stay below it after `Vivify` |
| AutoVivify.VivifySibling | json-mapper.js:226-245 | a path that leaves the written one below existing objects reads the same after `Vivify`, so sibling output paths share their common parent |
| AutoVivify.ClearPrefix | json-mapper.js:241-243 | a prefix of a clear path is clear |
| Mapper.GetFromObject | json-mapper.js:193-216 | fails the assertion exactly when `custom`, `default` and `key` are all null or undefined; without `custom`, a `default` always yields a defined value |
| Mapper.Call | json-mapper.js:213 | calling a function value runs its callback on the source; calling anything else throws a type error |
| Mapper.ResolveRule | json-mapper.js:258-259 | a string rule is `get` of that path; a rule that is neither an object nor a string fails |
| Mapper.Nested | json-mapper.js:264 | the nested spec is a strict part of the rule |
| Mapper.MapObject | json-mapper.js:249-275 | fails unless the source and the spec are both plain objects; a result is always a plain object |
| Mapper.MapFields | json-mapper.js:257-272 | every field written keeps the result a plain object |
| Mapper.MapValue | json-mapper.js:261-268 | a value that is not an array, or a rule without `map`, passes unchanged; an array stays an array of the same length |
| Mapper.MapItems | json-mapper.js:263-267 | the mapped array has one element per element |
| Mapper.MapArray | json-mapper.js:263-267 | the element-by-element loop gives `MapItems` |
| Mapper.Map | json-mapper.js:249-275 | the loop over `keys(map)` gives `MapObject` |
| Mapper.CustomTakesPrecedence | json-mapper.js:199-214 | with a `custom`, the value is what the function returns for the source, whatever `key` and `default` say; a `custom` that is not a function throws |
| Mapper.DefaultWithoutKey | json-mapper.js:204-205 | a `default` without `key` or `custom` is the value, whatever the source |
| Mapper.KeyWithoutDefault | json-mapper.js:200-201 | a `key` without `default` or `custom` is a plain `get`, undefined included |
| Mapper.DefaultIsFallback | json-mapper.js:207-209 | adding a `default` changes the value only where the lookup is undefined; a null from the lookup stays null |
| Mapper.KeyedRule | json-mapper.js:199-210 | a rule with `key` and no `custom` reads the key, through `getWithDefaults` when it also has `default` |
| Mapper.MapItemsElementwise | json-mapper.js:263-267 | the array mapping succeeds exactly when every element maps; each output element is its element mapped by the nested spec; a failure is the error of the first element that fails |
| Mapper.ArrayValue | json-mapper.js:262-268 | an array value passes unchanged without `map`, and with `map` becomes the array of its elements mapped by it, with the source and spec checks applied to every element |
| Mapper.FieldSkipped | json-mapper.js:261 | a field whose value is undefined writes nothing |
| Mapper.FieldWritten | json-mapper.js:257-272 | a field that resolves to a value and whose `setPath` succeeds moves the loop on with the object that `setPath` left |
| Mapper.FieldAppended | json-mapper.js:261-270 | a field with a plain, unwritten output name appends its resolved value (after the array mapping), null included, whether its rule is a path or a rule object |
| Mapper.FieldFails | json-mapper.js:257-272 | a field whose rule, array mapping or `setPath` fails makes the whole mapping fail with that error |
| Mapper.SetPathPlainName | json-mapper.js:237-239 | `setPath` with a plain name writes that one property |
| Mapper.PathFields | json-mapper.js:257-272 | the loop over a spec of bare paths, from any field on, appends the selected fields to those written so far |
| Mapper.PathSpecSelects | json-mapper.js:249-275 | a spec of bare paths under distinct plain names maps to its fields in spec order, those reading undefined left out, null, 0, false and "" kept |
| Mapper.SelectedIdentity | json-mapper.js:257-272 | the spec that names each property by its own path selects every property, in order |
| Mapper.IdentityMapping | json-mapper.js:249-275 | mapping an object by the spec `{name: 'name', ...}` of its own properties gives the object back |
| MapperExamples.RejectsNonObjects | test/spec/test.js:14-69 | an array, null, a string or a function as the source or as the spec fails |
| MapperExamples.EmptySpec | test/spec/test.js:71-77 | an empty spec gives `{}` |
| MapperExamples.PermutesKeys | test/spec/test.js:79-85 | `{a: 'b', b: 'c', c: 'a'}` on `{a: 1, b: 2, c: 3}` gives `{a: 2, b: 3, c: 1}` |
| MapperExamples.SkipsMissingKeys | test/spec/test.js:87-93 | `{a: 'a', d: 'd'}` on `{a: 1}` gives `{a: 1}`, with no `d` at all |
| MapperExamples.SkipsMissingKeyRule | test/spec/test.js:95-101 | `{a: 'a', d: {key: 'd'}}` on `{a: 1}` gives `{a: 1}` |
| MapperExamples.ReadsNestedKey | test/spec/test.js:103-109 | `{a: 'a', d: 'b.d'}` on `{a: 1, b: {d: 2}}` gives `{a: 1, d: 2}` |
| MapperExamples.SkipsMissingNestedKey | test/spec/test.js:111-117 | `{a: 'a', d: 'b.d'}` on `{a: 1, b: 2}` gives `{a: 1}` |
| MapperExamples.NullIntermediate | json-mapper.js:99-102 | `{d: 'b.c'}` on `{b: null}` gives `{d: null}`: the walk returns the null it stopped at |
| MapperExamples.TwoFields | json-mapper.js:257-272 | two fields under distinct plain names that both resolve give an object of the two values, in spec order |
| MapperExamples.FieldThenSkipped | json-mapper.js:257-272 | of two fields, one resolving and one undefined, only the first is written |
| MapperExamples.EmptyRuleFails | test/spec/test.js:125-131 | `{a: 'a', d: {}}` fails with the invalid-rule error |
| MapperExamples.UsesKey | test/spec/test.js:133-139 | `{a: 'a', d: {key: 'b'}}` on `{a: 1, b: 2}` gives `{a: 1, d: 2}` |
| MapperExamples.UsesNestedKey | test/spec/test.js:141-147 | `{a: 'a', d: {key: 'b.c'}}` on `{a: 1, b: {c: 2}}` gives `{a: 1, d: 2}` |
| MapperExamples.ReadsBC | test/spec/test.js:141-147 | the rule `{key: 'b.c'}` resolves to `c` under `b` |
| MapperExamples.WritesSubObject | test/spec/test.js:149-155 | output key `'d.e'` builds `{d: {e: 2}}` after what is written already |
| MapperExamples.VivifiesDE | test/spec/test.js:149-155 | `Vivify` of `['d', 'e']` appends `d: {e: 2}` |
| MapperExamples.KeyWithSubObject | test/spec/test.js:149-155 | `{a: 'a', 'd.e': {key: 'b.c'}}` gives `{a: 1, d: {e: 2}}` |
| MapperExamples.WritesDeepSubObject | test/spec/test.js:157-163 | output key `'d.e.f'` creates both intermediate objects |
| MapperExamples.KeyWithDeepSubObject | test/spec/test.js:157-163 | `{a: 'a', 'd.e.f': {key: 'b.c'}}` gives `{a: 1, d: {e: {f: 2}}}` |
| MapperExamples.WritesSibling | test/spec/test.js:181-187 | `'d.f'` after `'d.e'` writes into the object `'d.e'` created |
| MapperExamples.SiblingOutputPaths | test/spec/test.js:181-187 | `{a: 'a', 'd.e': {key: 'b.c'}, 'd.f': 'b.z'}` gives `{a: 1, d: {e: 2, f: 3}}` |
| MapperExamples.DotsWithoutName | test/spec/test.js:189-195 | `setPath` with output key `'d...e'` fails |
| MapperExamples.MalformedOutputKeyFails | test/spec/test.js:189-195 | `{a: 'a', 'd...e': {key: 'b'}}` fails |
| MapperExamples.UsesDefault | test/spec/test.js:201-207 | `{a: 'a', d: {key: 'b.c', default: 2}}` on `{a: 1, b: {}}` gives `{a: 1, d: 2}` |
| MapperExamples.IgnoresDefault | test/spec/test.js:209-215 | `{a: 'a', d: {key: 'b.c', default: 4}}` on `{a: 1, b: {c: 2}}` gives `{a: 1, d: 2}` |
| MapperExamples.DefaultOnly | test/spec/test.js:221-227 | `{a: 'a', d: {default: 4}}` gives `{a: 1, d: 4}` |
| MapperExamples.UsesCustom | test/spec/test.js:233-241 | `{a: 'a', b: {custom: f}}` with `f` returning `source.b.c + 1` gives `{a: 1, b: 3}` |
| MapperExamples.PassesArray | test/spec/test.js:249-261 | without `map`, the array is written as it is |
| MapperExamples.ArrayField | json-mapper.js:262-269 | a rule `{key: 'b', map: sub}` over a two-element array writes the array of the elements mapped by `sub` |
| MapperExamples.MapsArray | test/spec/test.js:263-275 | `{a: 'a', d: {key: 'b', map: {c: 'c'}}}` gives `{a: 1, d: [{c: 1}, {c: 2}]}` |
| MapperExamples.KeepsC | test/spec/test.js:263-275 | `{c: 'c'}` keeps only `c` of an element |
| MapperExamples.MapsArrayWithRules | test/spec/test.js:277-289 | a nested spec holding the rule `{default: 2}` gives `{a: 1, d: [{c: 1, f: 2}, {c: 2, f: 2}]}` |
| MapperExamples.MiddleElement | test/spec/test.js:291-311 | an element whose `d` is an array is mapped with the array mapped one level further down |
| MapperExamples.MapsNestedArrays | test/spec/test.js:291-311 | arrays nested in mapped elements are mapped too, to the expected object |
| MapperExamples.CustomOnElement | test/spec/test.js:313-335 | a nested `custom` receives the element as its source |
| MapperExamples.CustomInNested | test/spec/test.js:313-335 | with a `custom` in the innermost spec, each innermost element gives its own `f + 1` |

## Left out

- The AMD/CommonJS/`window` export at json-mapper.js:277-288. It is module plumbing with no behaviour.
- How `typeOf` is built from `Object.prototype.toString` and `instanceof` (json-mapper.js:157-181). It is a tag match on the datatype here. Date, RegExp and Error values are not modelled.
- `assert` (json-mapper.js:46-50) is not a member of its own. Each failed assertion is an `Err` with a tag, and the message text is not modelled.
- The bodies of `custom` functions are a parameter (`Callbacks`). Exceptions they throw are not modelled.
- Numbers are unbounded integers. NaN, fractions and other floating point behaviour are not modelled. The mapper never computes on values.
- Property reads on strings, arrays and functions (`'abc'.length`, a segment `"0"` into an array) read undefined in the model. `keys`' `hasOwnProperty` and the prototype chain are not modelled. An object holds only its own properties.
- GetByKey: a truthy array key fails with a type error. In JavaScript `keyName.indexOf('.')` at json-mapper.js:81 is then `Array.prototype.indexOf`. Unless an element is `'.'`, no walk happens and the read is of the property named by the array's string form. Number, boolean, object and function keys throw the type error in both.
- AssignKey: assignment on an array or a function parent is dropped, like assignment on a truthy primitive. JavaScript would add a property to the array or function.
- Integer-like property names are kept in insertion order. JavaScript enumerates them first, in numeric order.
- A property explicitly holding `undefined` is not representable. An entry always holds a value, and `undefined` is its absence.
- Objects are values: every write returns the new tree. Aliasing is not modelled. In JavaScript, a field that copies an object out of the source by reference and a later `setPath` below that field write into the source itself; here the source never changes.
- Duplicate property names cannot arise from the writers (`PutUnique`), and a JavaScript object cannot hold them. The model's entry lists can, so the input domain is objects with `UniqueNames`: on such a list lookups read the first entry of a name, and `MapFields` and `Map`, which walk the spec's entries by position, would map a duplicated output name twice.
- AutoVivify.SetPathVivifies: the result is stated only for a clear path, one where no earlier write left a primitive at an intermediate segment. Off that path the loop is still modelled exactly by `SetPathFrom`: a falsy primitive throws and a truthy one silently drops the write.
- Mapper.PathSpecSelects and Mapper.IdentityMapping state the whole result only for specs of bare paths under distinct plain output names. Specs with rule objects, dotted output keys or arrays are described field by field: `FieldSkipped`, `FieldWritten`, `FieldAppended` and `FieldFails` for one step of the loop, `ArrayValue` for the array mapping and `SetPathVivifies` for the write. The test-case lemmas put these together into whole results.
- The test cases at test/spec/test.js:165-179 (a three-segment `key`, and a two-segment output key over a plain `key`) have no lemma of their own. `KeyWithDeepSubObject`, `KeyWithSubObject`, `GetDotted` and `SetPathVivifies` cover their behaviour.
- A note on reads through null: `_getPath` stops at a null intermediate and returns that null, not undefined (json-mapper.js:99-102). The model follows the code, so `{d: 'b.c'}` on `{b: null}` gives `{d: null}` (`NullIntermediate`), and a `default` is not applied there.
