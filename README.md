# polystruct in Dafny

A model of the converter in `main.ts`. It takes a JSON-Schema-like object
description and writes equivalent type declarations for three targets:

- TypeScript types;
- Zod validation schemas (`typescript-zod`);
- Go structs.

The model covers:

- the capitaliser `c`;
- the three emission strategies;
- the recursive walker `StructStrategizer`, which turns every nested object
  into a struct of its own, named after its path (`RootSomeObjectSubobj`);
- the `Polystruct.convert` facade.

Modules, in dependency order:

- `Results`: `Option`, `Result`, and the two errors the converter throws.
- `Text`: the capitaliser, `join('')` and `join(sep)`, `map`, and the
  decimal rendering of integer enum literals.
- `Schema`: the already-parsed schema tree.
  - A node's `type` picks the constructor.
  - `enum`, `items` and `properties` become its arguments.
  - An object's properties keep their insertion order.
  - It also holds the size measure that the recursion decreases.
- `Strategies`: the three strategies as functions over a `Target`.
  - The Go enum emitter is a method with its loop.
  - The Zod reference is kept in two versions: as written, and corrected
    (see Findings).
- `Walker`: what one walk produces, as functions, with the lemmas about it.
  - `Fragment` is what one property contributes.
  - `Fields` and `StructText` give the text of one struct.
  - `Defs` and `Pushed` give the structs pushed onto `content`, in push order.
  - `Output` is the returned string.
- `Strategizer`: the class `StructStrategizer`.
  - Its `content` field is a `seq<string>` that `CreateStruct` appends to
    in place while it recurses.
  - Each method is proved against the `Walker` functions.
- `Engine`: the target-name dispatch `Conversion` and the class
  `Polystruct`, whose `Convert` builds a fresh walker for each call.

## Model

| member | source | states |
|---|---|---|
| Text.Capitalize | main.ts:1-3 | the result has the same length; its first character is the upper-cased first character and is not lower case; every other character is unchanged; `c("")` is `""` |
| Text.CapitalizeIdempotent | main.ts:1-3 | capitalising twice is the same as capitalising once |
| Text.IntToString | main.ts:53 | an integer literal renders as an optional `-` and at least one digit; the `-` appears exactly when the value is negative |
| Text.IntRoundTrip | main.ts:53 | reading the rendered digits back gives the integer, so different literals render differently |
| Schema.LitText | main.ts:53 | a string literal renders as itself; an integer literal renders as decimal text that reads back as its value |
| Strategies.PreText | main.ts:23-25 | TypeScript writes no preamble; Zod and Go write a non-empty one that ends in a blank line |
| Strategies.PrimitiveName | main.ts:32 | every primitive is named by one of the three names `boolean`, `integer`, `string` |
| Strategies.ParsePrimitive | main.ts:133-141 | a type name is recognised exactly when it is one of the three names, and it maps back to that name |
| Strategies.PrimitiveNameRoundTrip | main.ts:32 | parsing a primitive's name gives back the primitive |
| Strategies.TsType | main.ts:38-46 | TypeScript keeps the JSON Schema name of booleans and strings (integers become `number`) |
| Strategies.ZodType | main.ts:82-90 | every Zod type is a `z.` validator call ending in `()` |
| Strategies.GoType | main.ts:133-138 | every Go type is a prefix of the JSON Schema primitive name (`bool`, `int`, `string`) |
| Strategies.TypeMappingsInjective | main.ts:38-46 | each target maps the three primitives to three different types |
| Strategies.KeyValue | main.ts:48-142 | the scalar-field emitters of the three strategies (main.ts:48-50, 92-94, 132-142): a scalar field opens with a tab and the key and ends the line; Zod also ends the entry with a comma |
| Strategies.KeyArray | main.ts:57-175 | the array-field emitters of the three strategies (main.ts:57-59, 101-104, 165-175): an array field has the same field shape as a scalar field |
| Strategies.GoKeyValue | main.ts:132-142 | Go's scalar emitter succeeds exactly on the three primitive names and otherwise throws `UnsupportedPrimitiveType`; on success it returns a field |
| Strategies.GoKeyArray | main.ts:165-175 | Go's array emitter succeeds exactly on the three primitive names and otherwise throws `UnsupportedPrimitiveType`; on success it returns a field |
| Strategies.GoAcceptsWalkerNames | main.ts:236 | for each name the walker passes, Go's string-typed emitters agree with the emitters on primitives, so a walk never reaches Go's throw |
| Strategies.ArrayIsNotScalar | main.ts:245-252 | for every target, an array field differs from the scalar field of its item type |
| Strategies.EnumElements | main.ts:97 | the joined list of quoted literals is empty exactly when there are no literals, and otherwise starts with a quote |
| Strategies.EnumElementsSnoc | main.ts:53 | enum elements are each literal quoted, in input order, with exactly one separator between neighbours |
| Strategies.ThreeStringElements | main.ts:53 | three string literals, such as the sample's `a`, `b`, `c`, are listed as `'a'`, separator, `'b'`, separator, `'c'` |
| Strategies.KeyEnum | main.ts:52-160 | the enum-field emitters of the three strategies (main.ts:52-55, 96-99, 144-160): an enum field has the field shape for every target |
| Strategies.EnumFieldCarriesLiterals | main.ts:96-99 | TypeScript and Zod enum fields determine their joined literal list: equal fields mean equal lists |
| Strategies.GoEnumIgnoresLiterals | main.ts:160 | the Go enum field is `<key> <key>Struct` whatever the literals are (for `wha`, `\twha whaStruct\n`) |
| Strategies.GoConstLine | main.ts:152 | a constant line starts with a tab and the capitalised value and ends with `"` and a newline |
| Strategies.GoConstBlock | main.ts:146-157 | the block the Go enum emitter builds starts with the `type <key>Struct string` and `const (` header and ends with `)` and a newline |
| Strategies.GoConstLinesAccount | main.ts:149-156 | every enum literal gives either one constant line (a string) or one warning (anything else), never both |
| Strategies.GoCreateStructKeyEnum | main.ts:144-163 | the loop builds the whole constant block, one line per string literal in order, and counts one warning per other literal; the method returns only the field line |
| Strategies.StructStart | main.ts:61-178 | the struct openers of the three strategies (main.ts:61-63, 106-108, 177-179): the opening line holds the struct name and ends with `{` and a newline |
| Strategies.StructStartInjective | main.ts:61-63 | different struct names give different opening lines |
| Strategies.ZodStructRefAsWritten | main.ts:110-112 | the Zod reference as written ends in the target name and a newline, with no comma |
| Strategies.ZodStructRefMissesComma | main.ts:110-112 | for the sample property `subobj`, the as-written Zod reference is not a valid Zod entry |
| Strategies.StructRef | main.ts:65-183 | the reference emitters of the three strategies (main.ts:65-67, 110-112 corrected, 181-183): a reference field has the field shape and ends with the referenced struct's name; Zod ends it with a comma |
| Strategies.ZodStructRefSample | output/struct2.ts:10 | the corrected Zod reference writes the sample output's line `\tsubobj: RootSomeObjectSubobj,\n` |
| Strategies.StructEnd | main.ts:69-187 | the struct closers of the three strategies (main.ts:69-71, 114-116, 185-187): the closing text starts with `}` and ends with a blank line |
| Strategies.ZodRefAddsOnlyComma | main.ts:110-112 | the corrected Zod reference the walk uses is the as-written one with only a comma added before the newline; the as-written one is the TypeScript template |
| Walker.ChildName | main.ts:254 | a nested struct's name has the combined length of its parts, starts with the capitalised parent name, and is already capitalised |
| Walker.ChildNameExtends | main.ts:254 | going one level deeper only appends the capitalised member name |
| Walker.NestedNameExample | main.ts:254 | `subobj` inside `someObject` inside the root is named `RootSomeObjectSubobj` |
| Walker.Fragment | main.ts:233-262 | a property contributes a fragment exactly when it is a primitive, an object, or an array of a primitive; any fragment is a field that declares the property's name |
| Walker.FragmentDispatch | main.ts:233-255 | a primitive goes to the enum emitter when it has an enum and to the scalar emitter otherwise; an array of a primitive goes to the array emitter (never the scalar one); an object goes to a reference to `c(parent)+c(member)` |
| Walker.Fields | main.ts:232-263 | the fields a struct's loop appends, at most one per property |
| Walker.FieldsOnePerProperty | main.ts:232-263 | a struct has exactly one field per contributing property, in property order, each declaring that property |
| Walker.FlatStruct | main.ts:232-263 | when every property contributes, the fields are those properties' fragments, one for one |
| Walker.StructText | main.ts:230-266 | a struct's text opens with the struct start and closes with the struct end |
| Walker.Defs | main.ts:232-262 | the structs pushed onto `content` while walking a property list; there are at most as many as the list has schema nodes |
| Walker.Pushed | main.ts:253-261 | one property pushes something exactly when it is an object, and at most as many structs as its schema has nodes |
| Walker.DefsNamedUnder | main.ts:254-261 | every struct pushed while walking `structName`'s properties has `c(structName)` as a prefix of its name |
| Walker.TextsAt | main.ts:261 | the i-th pushed text is the text of the i-th struct in push order |
| Walker.Output | main.ts:273 | the returned string starts with the strategy's preamble |
| Walker.OutputShape | main.ts:269-274 | the output is the preamble, then the nested structs' texts in push order, and ends with the root struct's text |
| Walker.DefsCount | main.ts:253-262 | a walk pushes one nested struct per object-typed property anywhere in the tree |
| Walker.AllDefsCount | main.ts:269-272 | `content` ends up one longer than the number of object-typed properties, and its last struct is the root |
| Walker.ChildrenBeforeParents | main.ts:257-261 | every nested struct comes before the struct that references it; the root comes last of all |
| Walker.FlatSchemaOneStruct | main.ts:269-274 | a schema without objects yields the root struct alone, with one field per property in order |
| Walker.NoObjectsNoDefs | main.ts:253-262 | properties without objects push nothing |
| Walker.NoObjectsOutput | main.ts:269-274 | without object-typed properties, the output is the preamble followed by the root struct alone |
| Walker.BooleanAndEnumExample | main.ts:269-274 | for a boolean property followed by a string enum (the sample's `someBoolean` and `someStringEnum`), every target gives one `Root` struct whose fields are the scalar boolean field and then the enum field |
| Strategizer.StructStrategizer.constructor | main.ts:223-225 | a new walker holds its strategy and an empty `content` |
| Strategizer.StructStrategizer.CreateStructKeyEnum | main.ts:234-243 | the enum emitter the walker calls returns the strategy's enum field; for Go it runs the constant-block loop |
| Strategizer.StructStrategizer.CreateField | main.ts:233-252 | the if-chain for a non-object property appends that property's fragment, or nothing |
| Strategizer.StructStrategizer.CreateStruct | main.ts:227-267 | returns the struct's text, and appends to `content` the texts of all structs nested in it, in push order |
| Strategizer.StructStrategizer.CreateMember | main.ts:253-262 | an object property appends a reference to the buffer, and first pushes its nested structs and then its own struct |
| Strategizer.StructStrategizer.Process | main.ts:269-274 | `content` gains every struct of the walk with the root last; it grows by one plus the number of object-typed properties; the result is the preamble plus `content` joined |
| Engine.TargetOf | main.ts:284-293 | each of the three live target names selects its own strategy; `python` and every other name select none |
| Engine.Conversion | main.ts:284-301 | `convert` fails with `UnsupportedTarget` exactly for names outside the four accepted ones; `python` gives `""`; a live target gives that target's output |
| Engine.Polystruct.constructor | main.ts:280-282 | the facade keeps the root properties |
| Engine.Polystruct.Convert | main.ts:284-301 | `convert` returns exactly `Conversion(properties, name)`, so repeated calls on one schema give the same result |
| Engine.Polystruct.Run | main.ts:286-287 | a fresh walker's `process` returns `Output` for its target |

## Left out

- The command-line block (main.ts:304-319) is not part of this model: reading the schema file, `JSON.parse`, creating `output/` and writing files. The model starts from the parsed root `properties`.
- A schema without `properties`, an array without `items`, a property whose value is `null` (main.ts:233 reads `null.type`), `items: null` (main.ts:246) and `properties: null` (`Object.entries(null)` at main.ts:232) are not modelled. JavaScript raises a `TypeError` on each. The model has no `null` value, and a property whose `type` is missing or unknown is `Other`, which the walker skips as the code does.
- `console.warn` and `console.log` are left out. The Go enum emitter instead returns the constant block it logs and the number of warnings, so that what is dropped can be stated.
- The commented-out Python strategy is not modelled; `convert('python')` returns `""`, as the code does.
- The strategy base class's `text` field and `getText`, and Go's `#variant` field, are not modelled. No part of the output reads them.
- Text.Capitalize: upper-cases ASCII `a`-`z` only. JavaScript's `toUpperCase` covers all of Unicode and can lengthen a string.
- Text.IntToString: renders integers only. A fractional or exponent-form JSON number, and JavaScript's own number formatting, are not modelled.
- Schema.LitText: covers boolean, integer and string literals. Other literal kinds (`null`, objects, fractions) are not modelled.
- Schema.Property: properties are an ordered sequence in insertion order. JavaScript's reordering of integer-like keys in `Object.entries` is not modelled.
- `memberObject.enum ?` tests JavaScript truthiness. The model treats a present `enum` (even an empty list) as taken and a missing one as not taken. A present but falsy non-list value is not modelled.
- Strategies.KeyValue: takes a `Primitive` rather than a type-name string. The TypeScript and Zod emitters are declared over the three primitive names only. Go's string-typed versions, with their throw, are `GoKeyValue` and `GoKeyArray`.
- Walker.Fragment: for `typescript-zod`, an object property yields the corrected reference `\t<key>: <Child>,\n` (see Findings). main.ts:111 writes `\t<key>: <Child>\n`, without the comma. `Strategies.ZodRefAddsOnlyComma` states the exact difference.
- Walker.FragmentDispatch: an object goes to the corrected `StructRef`; for Zod that differs from main.ts:110-112 by the one comma.
- Walker.Output: for `typescript-zod` on a schema with object properties, the text is the corrected program's, with one more comma per object property than main.ts:273 returns.
- Strategizer.StructStrategizer.CreateMember: appends the corrected Zod reference where main.ts:255 appends the comma-less one.
- Strategizer.StructStrategizer.CreateStruct: same difference, through CreateMember.
- Strategizer.StructStrategizer.Process: same difference, through CreateStruct.
- Engine.Conversion: for `typescript-zod`, the `Ok` text is the corrected program's output. For TypeScript, Go and `python` it is the code's output.
- Engine.Polystruct.Convert: same difference, through Conversion.
- Cyclic schemas cannot be built from a finite datatype value. Two properties whose capitalised paths collide (for example `a_b` and `A_b`) produce duplicate struct names in the code. The model states the naming rule but claims nothing about uniqueness.
- The model follows the code on these points:
  - the Go enum field returns only `<key> <key>Struct`, and the constant block is built and dropped;
  - `c("")` is `""`;
  - an array of anything other than a primitive contributes nothing rather than failing.

## Findings

| source | as written | input that shows it | evidently intended | confidence | as-written member | corrected member |
|---|---|---|---|---|---|---|
| main.ts:110-112 | Zod `createStructRef` ends the entry with `\n` only. Every other Zod field ends with `,\n`. | an object property followed by another property, e.g. `subobj` before a later key in the same `z.object({...})`, gives two entries with no comma between them | `\t<key>: <Target>,\n`, the ending of every other Zod field (main.ts:93, 98, 103); the sample output output/struct2.ts:10 also shows the comma | not executed | Strategies.ZodStructRefMissesComma | Strategies.StructRef |
