/** The three emission strategies: what each target writes for a primitive
    field, an enum field, an array field, the start and end of a struct and a
    reference to another struct. The walker only ever talks to these. */
module Strategies {
  import opened Results
  import opened Text
  import opened Schema

  /** The live strategies: TypeScript types, Zod schemas and Go structs. */
  datatype Target = TypeScript | Zod | Go

  /** A field fragment of `t` declaring `key`: it opens with a tab and the
      key, ends the line, and in a Zod object also ends the entry with a
      comma so that the next entry may follow. */
  predicate IsField(t: Target, f: string, key: string)
  {
    |f| >= |key| + 3 &&
    "\t" + key <= f &&
    EndsWith(f, if t == Zod then ",\n" else "\n")
  }

  /** The text written once before all structs. */
  function PreText(t: Target): (r: string)
    ensures r == "" <==> t == TypeScript
    ensures r != "" ==> EndsWith(r, "\n\n")
  {
    match t
    case TypeScript => ""
    case Zod => "import { z } from 'z'\n\n"
    case Go => "package main\n\n"
  }

  /** `supportedPrimitives`: the primitive names the emitters map. */
  datatype Primitive = Boolean | Integer | String

  /** The `type` string of a primitive. */
  function PrimitiveName(p: Primitive): (r: string)
    ensures r in PrimitiveNames
  {
    match p
    case Boolean => "boolean"
    case Integer => "integer"
    case String => "string"
  }

  /** The if-chain on a `typeName` string: one of the three names, or none. */
  function ParsePrimitive(typeName: string): (r: Option<Primitive>)
    ensures r.Some? <==> typeName in PrimitiveNames
    ensures r.Some? ==> PrimitiveName(r.value) == typeName
  {
    if typeName == "boolean" then Some(Boolean)
    else if typeName == "integer" then Some(Integer)
    else if typeName == "string" then Some(String)
    else None
  }

  lemma PrimitiveNameRoundTrip(p: Primitive)
    ensures ParsePrimitive(PrimitiveName(p)) == Some(p)
  {
  }

  /** `t` of the TypeScript strategy. */
  function TsType(p: Primitive): (r: string)
    ensures p != Integer ==> r == PrimitiveName(p)
  {
    match p
    case Boolean => "boolean"
    case Integer => "number"
    case String => "string"
  }

  /** `t` of the Zod strategy. */
  function ZodType(p: Primitive): (r: string)
    ensures "z." <= r && EndsWith(r, "()")
  {
    match p
    case Boolean => "z.boolean()"
    case Integer => "z.number().int()"
    case String => "z.string()"
  }

  /** The Go scalar type of a primitive. */
  function GoType(p: Primitive): (r: string)
    ensures r <= PrimitiveName(p)
  {
    match p
    case Boolean => "bool"
    case Integer => "int"
    case String => "string"
  }

  /** Each target maps the three primitives to three different types. */
  lemma TypeMappingsInjective(p: Primitive, q: Primitive)
    requires p != q
    ensures TsType(p) != TsType(q) && ZodType(p) != ZodType(q) && GoType(p) != GoType(q)
  {
    assert TsType(p)[0] != TsType(q)[0];
    assert ZodType(p)[2] != ZodType(q)[2];
    assert GoType(p)[0] != GoType(q)[0];
  }

  /** `createStructKeyValue`: a scalar field of a primitive type. */
  function KeyValue(t: Target, keyName: string, p: Primitive): (r: string)
    ensures IsField(t, r, keyName)
  {
    match t
    case TypeScript => "\t" + keyName + ": " + TsType(p) + "\n"
    case Zod => "\t" + keyName + ": " + ZodType(p) + ",\n"
    case Go => "\t" + keyName + " " + GoType(p) + "\n"
  }

  /** `createStructKeyArray`: a field holding a sequence of a primitive. */
  function KeyArray(t: Target, keyName: string, p: Primitive): (r: string)
    ensures IsField(t, r, keyName)
  {
    match t
    case TypeScript => "\t" + keyName + ": Array<" + TsType(p) + ">\n"
    case Zod => "\t" + keyName + ": z.array(" + ZodType(p) + "),\n"
    case Go => "\t" + keyName + " []" + GoType(p) + "\n"
  }

  /** The Go `createStructKeyValue` on its `typeName: string` parameter: it
      throws on any name outside the three primitives. */
  function GoKeyValue(keyName: string, typeName: string): (r: Result<string>)
    ensures r.Ok? <==> typeName in PrimitiveNames
    ensures r.Err? ==> r.error == UnsupportedPrimitiveType
    ensures r.Ok? ==> IsField(Go, r.value, keyName)
  {
    match ParsePrimitive(typeName)
    case Some(p) => Ok(KeyValue(Go, keyName, p))
    case None => Err(UnsupportedPrimitiveType)
  }

  /** The Go `createStructKeyArray` on its `typeName: string` parameter, with
      the same throw. */
  function GoKeyArray(keyName: string, typeName: string): (r: Result<string>)
    ensures r.Ok? <==> typeName in PrimitiveNames
    ensures r.Err? ==> r.error == UnsupportedPrimitiveType
    ensures r.Ok? ==> IsField(Go, r.value, keyName)
  {
    match ParsePrimitive(typeName)
    case Some(p) => Ok(KeyArray(Go, keyName, p))
    case None => Err(UnsupportedPrimitiveType)
  }

  /** The names the walker passes are exactly the ones Go accepts, so the
      walk never reaches Go's throw: the string-typed emitters then agree with
      the ones on primitives. */
  lemma GoAcceptsWalkerNames(keyName: string, p: Primitive)
    ensures GoKeyValue(keyName, PrimitiveName(p)) == Ok(KeyValue(Go, keyName, p))
    ensures GoKeyArray(keyName, PrimitiveName(p)) == Ok(KeyArray(Go, keyName, p))
  {
    PrimitiveNameRoundTrip(p);
  }

  /** An array field is never mistaken for the scalar field of its item. */
  lemma ArrayIsNotScalar(t: Target, keyName: string, p: Primitive)
    ensures KeyArray(t, keyName, p) != KeyValue(t, keyName, p)
  {
    assert |KeyArray(t, keyName, p)| > |KeyValue(t, keyName, p)|;
  }


  /** An enum literal as the TypeScript and Zod strategies quote it. */
  function Quote(l: Lit): string
  {
    "'" + LitText(l) + "'"
  }

  /** `enumList.map(item => `'${item}'`).join(sep)`. */
  function EnumElements(enumList: seq<Lit>, sep: string): (r: string)
    ensures r == "" <==> enumList == []
    ensures enumList != [] ==> r[0] == '\''
  {
    Join(seq(|enumList|, i requires 0 <= i < |enumList| => Quote(enumList[i])), sep)
  }

  /** Every literal is listed, quoted, in input order: one more literal adds
      exactly one separator and that literal at the end. */
  lemma EnumElementsSnoc(enumList: seq<Lit>, l: Lit, sep: string)
    ensures EnumElements(enumList + [l], sep) ==
            if enumList == [] then Quote(l) else EnumElements(enumList, sep) + sep + Quote(l)
  {
    var qs := seq(|enumList|, i requires 0 <= i < |enumList| => Quote(enumList[i]));
    var ls := enumList + [l];
    assert seq(|ls|, i requires 0 <= i < |ls| => Quote(ls[i])) == qs + [Quote(l)];
    JoinSnoc(qs, Quote(l), sep);
  }

  /** Three string literals (the sample schema's `a`, `b`, `c`) are listed
      quoted, in order, with one separator between neighbours. */
  lemma ThreeStringElements(a: string, b: string, c: string, sep: string)
    ensures EnumElements([StrLit(a), StrLit(b), StrLit(c)], sep) ==
            ("'" + a + "'") + sep + ("'" + b + "'") + sep + ("'" + c + "'")
  {
    var l0, l1, l2 := StrLit(a), StrLit(b), StrLit(c);
    EnumElementsSnoc([], l0, sep);
    assert [] + [l0] == [l0];
    EnumElementsSnoc([l0], l1, sep);
    assert [l0] + [l1] == [l0, l1];
    EnumElementsSnoc([l0, l1], l2, sep);
    assert [l0, l1] + [l2] == [l0, l1, l2];
  }

  /** `createStructKeyEnum`. TypeScript and Zod constrain the field to the
      quoted literals; Go names a `<key>Struct` type and nothing else (the
      constant block it builds is only logged, see `GoCreateStructKeyEnum`). */
  function KeyEnum(t: Target, keyName: string, enumList: seq<Lit>): (r: string)
    ensures IsField(t, r, keyName)
  {
    match t
    case TypeScript => "\t" + keyName + ": Array<" + EnumElements(enumList, " | ") + ">\n"
    case Zod => "\t" + keyName + ": z.enum([" + EnumElements(enumList, ", ") + "]),\n"
    case Go => "\t" + keyName + " " + keyName + "Struct\n"
  }

  /** The Go enum field does not depend on the literals at all: for the
      sample property `wha` it is the line the sample Go output shows. */
  lemma GoEnumIgnoresLiterals(keyName: string, a: seq<Lit>, b: seq<Lit>)
    ensures KeyEnum(Go, keyName, a) == KeyEnum(Go, keyName, b)
    ensures EndsWith(KeyEnum(Go, keyName, a), " " + keyName + "Struct\n")
    ensures KeyEnum(Go, "wha", a) == "\twha whaStruct\n"
  {
  }

  /** The TypeScript and Zod enum fields carry the literal list between fixed
      brackets, so different literal lists give different fields. */
  lemma EnumFieldCarriesLiterals(t: Target, keyName: string, a: seq<Lit>, b: seq<Lit>)
    requires t != Go
    requires KeyEnum(t, keyName, a) == KeyEnum(t, keyName, b)
    ensures EnumElements(a, if t == TypeScript then " | " else ", ") ==
            EnumElements(b, if t == TypeScript then " | " else ", ")
  {
    var sep := if t == TypeScript then " | " else ", ";
    var open := if t == TypeScript then "\t" + keyName + ": Array<" else "\t" + keyName + ": z.enum([";
    var close := if t == TypeScript then ">\n" else "]),\n";
    var ra, rb := KeyEnum(t, keyName, a), KeyEnum(t, keyName, b);
    assert ra == open + EnumElements(a, sep) + close;
    assert rb == open + EnumElements(b, sep) + close;
    assert EnumElements(a, sep) == ra[|open|..|ra| - |close|];
    assert EnumElements(b, sep) == rb[|open|..|rb| - |close|];
  }

  /** One line of the Go constant block: `\t<c(v)> <enumName> = "<v>"\n`. */
  function GoConstLine(enumName: string, v: string): (r: string)
    ensures "\t" + Capitalize(v) <= r && EndsWith(r, "\"\n")
  {
    "\t" + Capitalize(v) + " " + enumName + " = \"" + v + "\"\n"
  }

  /** The constant lines, one per string literal in order; other literals are
      skipped. */
  function GoConstLines(enumName: string, enumList: seq<Lit>): seq<string>
  {
    if enumList == [] then []
    else
      var last := enumList[|enumList| - 1];
      GoConstLines(enumName, enumList[..|enumList| - 1]) +
      (if last.StrLit? then [GoConstLine(enumName, last.s)] else [])
  }

  /** The number of literals skipped with a "Not supported" warning. */
  function SkippedCount(enumList: seq<Lit>): nat
  {
    if enumList == [] then 0
    else SkippedCount(enumList[..|enumList| - 1]) + (if enumList[|enumList| - 1].StrLit? then 0 else 1)
  }

  /** Every literal either yields a constant line or a warning, never both. */
  lemma {:induction false} GoConstLinesAccount(enumName: string, enumList: seq<Lit>)
    ensures |GoConstLines(enumName, enumList)| + SkippedCount(enumList) == |enumList|
  {
    if enumList != [] {
      var init := enumList[..|enumList| - 1];
      assert enumList == init + [enumList[|enumList| - 1]];
      GoConstLinesAccount(enumName, init);
    }
  }

  lemma GoConstBlockSnoc(enumName: string, enumList: seq<Lit>, l: Lit)
    ensures Concat(GoConstLines(enumName, enumList + [l])) ==
            Concat(GoConstLines(enumName, enumList)) + (if l.StrLit? then GoConstLine(enumName, l.s) else "")
  {
    var ls := enumList + [l];
    assert ls[..|ls| - 1] == enumList;
    var tail := if l.StrLit? then [GoConstLine(enumName, l.s)] else [];
    assert GoConstLines(enumName, ls) == GoConstLines(enumName, enumList) + tail;
    ConcatAppend(GoConstLines(enumName, enumList), tail);
  }

  /** The block built so far grows by the line of the next literal, if any. */
  lemma GoConstStep(enumName: string, enumList: seq<Lit>, i: int)
    requires 0 <= i < |enumList|
    ensures GoConstHeader(enumName) + Concat(GoConstLines(enumName, enumList[..i + 1])) ==
            GoConstHeader(enumName) + Concat(GoConstLines(enumName, enumList[..i])) +
            (if enumList[i].StrLit? then GoConstLine(enumName, enumList[i].s) else "")
    ensures SkippedCount(enumList[..i + 1]) == SkippedCount(enumList[..i]) + (if enumList[i].StrLit? then 0 else 1)
  {
    var l := enumList[i];
    assert enumList[..i + 1] == enumList[..i] + [l];
    GoConstBlockSnoc(enumName, enumList[..i], l);
    AppendAssoc(GoConstHeader(enumName), Concat(GoConstLines(enumName, enumList[..i])),
                if l.StrLit? then GoConstLine(enumName, l.s) else "");
  }

  function GoConstHeader(enumName: string): string
  {
    "type " + enumName + " string\n\nconst (\n"
  }

  /** The block the Go enum emitter builds, logs and then drops. */
  function GoConstBlock(enumName: string, enumList: seq<Lit>): (r: string)
    ensures GoConstHeader(enumName) <= r
    ensures EndsWith(r, ")\n")
  {
    GoConstHeader(enumName) + Concat(GoConstLines(enumName, enumList)) + ")\n"
  }

  /** The Go `createStructKeyEnum` as it runs: it builds the constant block
      literal by literal, warning once per non-string literal, and returns
      only the field line. The block and the warning count are returned here
      so that what is dropped can be stated. */
  method GoCreateStructKeyEnum(keyName: string, enumList: seq<Lit>)
    returns (field: string, constBlock: string, warnings: nat)
    ensures field == KeyEnum(Go, keyName, enumList)
    ensures constBlock == GoConstBlock(keyName + "Struct", enumList)
    ensures warnings == SkippedCount(enumList)
  {
    var enumName := keyName + "Struct";
    var buf := "";
    buf := buf + "type " + enumName + " string\n\n";
    buf := buf + "const (\n";
    warnings := 0;
    assert enumList[..0] == [];
    for i := 0 to |enumList|
      invariant buf == GoConstHeader(enumName) + Concat(GoConstLines(enumName, enumList[..i]))
      invariant warnings == SkippedCount(enumList[..i])
    {
      GoConstStep(enumName, enumList, i);
      if enumList[i].StrLit? {
        var v := enumList[i].s;
        buf := buf + GoConstLine(enumName, v);
      } else {
        warnings := warnings + 1;
      }
    }
    assert enumList[..|enumList|] == enumList;
    buf := buf + ")\n";
    constBlock := buf;
    field := "\t" + keyName + " " + enumName + "\n";
  }

  /** `createStructStart`: opens the block of the named struct. */
  function StructStart(t: Target, structName: string): (r: string)
    ensures |r| > |structName| + 2 && EndsWith(r, "{\n")
  {
    match t
    case TypeScript => "type " + structName + " = {\n"
    case Zod => "const " + structName + " = z.object({\n"
    case Go => "type " + structName + " struct {\n"
  }

  /** Different struct names give different opening lines. */
  lemma StructStartInjective(t: Target, a: string, b: string)
    requires StructStart(t, a) == StructStart(t, b)
    ensures a == b
  {
    var open := if t == Zod then "const " else "type ";
    var close := match t
      case TypeScript => " = {\n"
      case Zod => " = z.object({\n"
      case Go => " struct {\n";
    var ra, rb := StructStart(t, a), StructStart(t, b);
    assert ra == open + a + close && rb == open + b + close;
    assert a == ra[|open|..|ra| - |close|];
    assert b == rb[|open|..|rb| - |close|];
  }

  /** `createStructRef` of the Zod strategy as written: unlike every other
      Zod field it ends the entry without a comma. */
  function ZodStructRefAsWritten(keyName: string, targetStruct: string): (r: string)
    ensures "\t" + keyName <= r
    ensures EndsWith(r, targetStruct + "\n")
  {
    "\t" + keyName + ": " + targetStruct + "\n"
  }

  /** The as-written Zod reference is not a Zod field: for the nested object
      `subobj` it emits no separating comma, so an entry after it in the
      same `z.object({...})` is a syntax error. */
  lemma ZodStructRefMissesComma()
    ensures !IsField(Zod, ZodStructRefAsWritten("subobj", "RootSomeObjectSubobj"), "subobj")
  {
    var r := ZodStructRefAsWritten("subobj", "RootSomeObjectSubobj");
    assert r[|r| - 2] == 'j';
  }

  /** The corrected Zod reference to the sample's nested object. */
  lemma ZodStructRefSample()
    ensures StructRef(Zod, "subobj", "RootSomeObjectSubobj") == "\tsubobj: RootSomeObjectSubobj,\n"
  {
    var key, target := "subobj", "RootSomeObjectSubobj";
    assert StructRef(Zod, key, target) == "\t" + key + ": " + target + ",\n";
    assert "\t" + key == "\tsubobj";
    assert "\tsubobj" + ": " == "\tsubobj: ";
    assert "\tsubobj: " + target == "\tsubobj: RootSomeObjectSubobj";
  }

  /** `createStructRef`: a field whose type is the named struct. The Zod
      entry ends with the comma its object literal needs (see
      `ZodStructRefAsWritten` for the code as written). */
  function StructRef(t: Target, keyName: string, targetStruct: string): (r: string)
    ensures IsField(t, r, keyName)
    ensures EndsWith(r, targetStruct + if t == Zod then ",\n" else "\n")
  {
    match t
    case TypeScript => "\t" + keyName + ": " + targetStruct + "\n"
    case Zod => "\t" + keyName + ": " + targetStruct + ",\n"
    case Go => "\t" + keyName + " " + targetStruct + "\n"
  }

  /** The corrected Zod reference is the as-written one with only a comma
      added before the newline, and the as-written Zod reference is the
      TypeScript reference template. */
  lemma ZodRefAddsOnlyComma(keyName: string, targetStruct: string)
    ensures var w := ZodStructRefAsWritten(keyName, targetStruct);
      StructRef(Zod, keyName, targetStruct) == w[..|w| - 1] + ",\n"
    ensures ZodStructRefAsWritten(keyName, targetStruct) == StructRef(TypeScript, keyName, targetStruct)
  {
    var entry := "\t" + keyName + ": " + targetStruct;
    var w := ZodStructRefAsWritten(keyName, targetStruct);
    assert w == entry + "\n";
    assert w[..|w| - 1] == entry;
  }

  /** `createStructEnd`: closes the block and leaves a blank line. */
  function StructEnd(t: Target, structName: string): (r: string)
    ensures "}" <= r && EndsWith(r, "\n\n")
  {
    match t
    case TypeScript => "}\n\n"
    case Zod => "})\n\n"
    case Go => "}\n\n"
  }
}
