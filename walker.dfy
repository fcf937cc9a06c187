/** The recursive walker `StructStrategizer`. The functions describe what
    one walk produces; the class below is the walker itself, a `content` list
    appended in place during the recursion, proved to produce exactly that. */
module Walker {
  import opened Results
  import opened Text
  import opened Schema
  import opened Strategies

  /** The name of the struct for member `member` of struct `parent`. */
  function ChildName(parent: string, member: string): (r: string)
    ensures |r| == |parent| + |member|
    ensures Capitalize(parent) <= r
    ensures Capitalize(r) == r
  {
    Capitalize(parent) + Capitalize(member)
  }

  /** Going one level deeper only appends the capitalised member name: the
      name of a nested struct is the capitalised path from its root. */
  lemma ChildNameExtends(parent: string, a: string, b: string)
    ensures ChildName(ChildName(parent, a), b) == ChildName(parent, a) + Capitalize(b)
  {
  }

  lemma NestedNameExample()
    ensures ChildName(ChildName("Root", "someObject"), "subobj") == "RootSomeObjectSubobj"
  {
    ChildNameExtends("Root", "someObject", "subobj");
    assert Upper('R') == 'R' && Upper('s') == 'S';
    assert Capitalize("Root") == "Root";
    assert Capitalize("someObject") == ['S'] + "omeObject" == "SomeObject";
    assert Capitalize("subobj") == ['S'] + "ubobj" == "Subobj";
  }

  /** The primitive a primitive node declares. */
  function PrimOf(s: Schema): Primitive
    requires IsPrimitive(s)
  {
    if s.Bool? then Boolean else if s.Int? then Integer else String
  }

  /** The enum emitter the walker calls, whatever the target. */
  function EnumField(t: Target, keyName: string, enumList: Option<seq<Lit>>): string
    requires enumList.Some?
  {
    KeyEnum(t, keyName, enumList.value)
  }

  /** What the walker appends to the struct's buffer for one property, the
      empty string when it appends nothing. */
  function Fragment(t: Target, structName: string, member: Property): (r: string)
    ensures r != "" <==> Contributes(member.schema)
    ensures r != "" ==> IsField(t, r, member.name)
  {
    var memberName, memberObject := member.name, member.schema;
    if memberObject.Bool? then
      if memberObject.enum.Some? then EnumField(t, memberName, memberObject.enum)
      else KeyValue(t, memberName, Boolean)
    else if memberObject.Int? then
      if memberObject.enum.Some? then EnumField(t, memberName, memberObject.enum)
      else KeyValue(t, memberName, Integer)
    else if memberObject.Str? then
      if memberObject.enum.Some? then EnumField(t, memberName, memberObject.enum)
      else KeyValue(t, memberName, String)
    else if memberObject.Arr? then
      if memberObject.items.Bool? then KeyArray(t, memberName, Boolean)
      else if memberObject.items.Int? then KeyArray(t, memberName, Integer)
      else if memberObject.items.Str? then KeyArray(t, memberName, String)
      else ""
    else if memberObject.Obj? then
      StructRef(t, memberName, ChildName(structName, memberName))
    else ""
  }

  /** Which emitter a property reaches: a primitive with an enum goes to the
      enum emitter, one without to the scalar emitter with its own primitive;
      an array of a primitive always goes to the array emitter with the item's
      primitive, whatever enum the item declares; an object to a reference
      to the struct named after it. */
  lemma FragmentDispatch(t: Target, structName: string, member: Property)
    ensures IsPrimitive(member.schema) && member.schema.enum.Some? ==>
      Fragment(t, structName, member) == KeyEnum(t, member.name, member.schema.enum.value)
    ensures IsPrimitive(member.schema) && member.schema.enum.None? ==>
      Fragment(t, structName, member) == KeyValue(t, member.name, PrimOf(member.schema))
    ensures member.schema.Arr? && IsPrimitive(member.schema.items) ==>
      Fragment(t, structName, member) == KeyArray(t, member.name, PrimOf(member.schema.items)) &&
      Fragment(t, structName, member) != KeyValue(t, member.name, PrimOf(member.schema.items))
    ensures member.schema.Obj? ==>
      Fragment(t, structName, member) == StructRef(t, member.name, ChildName(structName, member.name))
  {
    var m := member.schema;
    if m.Arr? {
      if IsPrimitive(m.items) {
        ArrayIsNotScalar(t, member.name, PrimOf(m.items));
      }
    } else if m.Obj? {
    } else if IsPrimitive(m) {
      if m.enum.Some? {
        assert Fragment(t, structName, member) == EnumField(t, member.name, m.enum);
      } else {
        assert Fragment(t, structName, member) == KeyValue(t, member.name, PrimOf(m));
      }
    }
  }

  /** The field fragments of one struct, in property order. */
  function Fields(t: Target, structName: string, props: Props): (r: seq<string>)
    ensures |r| <= |props|
  {
    if props == [] then []
    else
      var last := props[|props| - 1];
      Fields(t, structName, props[..|props| - 1]) +
      (if Contributes(last.schema) then [Fragment(t, structName, last)] else [])
  }

  lemma FieldsSnoc(t: Target, structName: string, props: Props, p: Property)
    ensures Fields(t, structName, props + [p]) ==
            Fields(t, structName, props) + (if Contributes(p.schema) then [Fragment(t, structName, p)] else [])
  {
    assert (props + [p])[..|props|] == props;
  }

  /** The text of the fields so far and one more property's fragment. */
  lemma FieldsStep(t: Target, structName: string, props: Props, i: int)
    requires 0 <= i < |props|
    ensures Concat(Fields(t, structName, props[..i + 1])) ==
            Concat(Fields(t, structName, props[..i])) + Fragment(t, structName, props[i])
  {
    var p := props[i];
    assert props[..i + 1] == props[..i] + [p];
    FieldsSnoc(t, structName, props[..i], p);
    ConcatAppend(Fields(t, structName, props[..i]), if Contributes(p.schema) then [Fragment(t, structName, p)] else []);
  }

  /** The properties that yield a field, kept in order (front to back). */
  function Kept(props: Props): (r: Props)
    ensures |r| <= |props|
  {
    if props == [] then []
    else (if Contributes(props[0].schema) then [props[0]] else []) + Kept(props[1..])
  }

  lemma {:induction false} KeptSnoc(props: Props, p: Property)
    ensures Kept(props + [p]) == Kept(props) + (if Contributes(p.schema) then [p] else [])
  {
    if props != [] {
      assert (props + [p])[1..] == props[1..] + [p];
      KeptSnoc(props[1..], p);
    } else {
      assert [p][1..] == [];
    }
  }

  /** A struct has exactly one field per property that yields one, in
      property order, each declaring that property. */
  lemma {:induction false} FieldsOnePerProperty(t: Target, structName: string, props: Props)
    ensures |Fields(t, structName, props)| == |Kept(props)|
    ensures forall i :: 0 <= i < |Kept(props)| ==>
      Fields(t, structName, props)[i] == Fragment(t, structName, Kept(props)[i]) &&
      IsField(t, Fields(t, structName, props)[i], Kept(props)[i].name)
  {
    if props != [] {
      var init, last := props[..|props| - 1], props[|props| - 1];
      assert props == init + [last];
      FieldsOnePerProperty(t, structName, init);
      KeptSnoc(init, last);
      var fields, kept := Fields(t, structName, props), Kept(props);
      assert fields == Fields(t, structName, init) +
        (if Contributes(last.schema) then [Fragment(t, structName, last)] else []);
      forall i | 0 <= i < |kept|
        ensures fields[i] == Fragment(t, structName, kept[i])
        ensures IsField(t, fields[i], kept[i].name)
      {
        if i < |Kept(init)| {
          assert fields[i] == Fields(t, structName, init)[i];
          assert kept[i] == Kept(init)[i];
        } else {
          assert kept[i] == last;
        }
      }
    }
  }

  /** A property list without objects or ignored shapes gives one field per
      property, in order. */
  lemma FlatStruct(t: Target, structName: string, props: Props)
    requires forall i :: 0 <= i < |props| ==> Contributes(props[i].schema)
    ensures Fields(t, structName, props) ==
            seq(|props|, i requires 0 <= i < |props| => Fragment(t, structName, props[i]))
  {
    KeptAll(props);
    FieldsOnePerProperty(t, structName, props);
  }

  lemma {:induction false} KeptAll(props: Props)
    requires forall i :: 0 <= i < |props| ==> Contributes(props[i].schema)
    ensures Kept(props) == props
  {
    if props != [] {
      KeptAll(props[1..]);
    }
  }

  /** The text `createStruct` returns: the start, the fields, the end. */
  function StructText(t: Target, structName: string, props: Props): (r: string)
    ensures StructStart(t, structName) <= r
    ensures EndsWith(r, StructEnd(t, structName))
  {
    StructStart(t, structName) + Concat(Fields(t, structName, props)) + StructEnd(t, structName)
  }

  /** A struct definition the walk produces: its name and its properties. */
  datatype Def = Def(name: string, props: Props)

  /** The nested structs `createStruct(structName, props)` pushes onto
      `content`, in push order. The list depends on the schema only, never on
      the target. */
  function Defs(structName: string, props: Props): (r: seq<Def>)
    ensures |r| <= PropsSize(props)
    decreases PropsSize(props), 1
  {
    if props == [] then []
    else Defs(structName, props[..|props| - 1]) + Pushed(structName, props[|props| - 1])
  }

  /** What one property of struct `structName` pushes: for an object, the
      structs nested inside it and then its own struct; otherwise nothing. */
  function Pushed(structName: string, member: Property): (r: seq<Def>)
    ensures r != [] <==> member.schema.Obj?
    ensures |r| <= Size(member.schema)
    decreases Size(member.schema), 0
  {
    if member.schema.Obj? then
      var child := ChildName(structName, member.name);
      assert Size(member.schema) == 1 + PropsSize(member.schema.props);
      Defs(child, member.schema.props) + [Def(child, member.schema.props)]
    else []
  }

  /** Every struct pushed while walking the properties of `structName` is
      named with `c(structName)` as its prefix. */
  lemma {:induction false} DefsNamedUnder(structName: string, props: Props)
    ensures forall d :: d in Defs(structName, props) ==> Capitalize(structName) <= d.name
    decreases PropsSize(props), 1
  {
    if props != [] {
      var init, last := props[..|props| - 1], props[|props| - 1];
      DefsNamedUnder(structName, init);
      PushedNamedUnder(structName, last);
    }
  }

  lemma {:induction false} PushedNamedUnder(structName: string, member: Property)
    ensures forall d :: d in Pushed(structName, member) ==> Capitalize(structName) <= d.name
    decreases Size(member.schema), 0
  {
    if member.schema.Obj? {
      var child := ChildName(structName, member.name);
      assert Size(member.schema) == 1 + PropsSize(member.schema.props);
      DefsNamedUnder(child, member.schema.props);
      forall d | d in Defs(child, member.schema.props)
        ensures Capitalize(structName) <= d.name
      {
        assert Capitalize(structName) <= child <= d.name;
      }
    }
  }

  /** The structs pushed for the properties so far and one more property. */
  lemma DefsSnoc(structName: string, props: Props, p: Property)
    ensures Defs(structName, props + [p]) == Defs(structName, props) + Pushed(structName, p)
  {
    assert (props + [p])[..|props|] == props;
  }

  /** An object property pushes its nested structs, then its own struct. */
  lemma ObjectPushed(t: Target, structName: string, member: Property)
    requires member.schema.Obj?
    ensures Texts(t, Pushed(structName, member)) ==
            Texts(t, Defs(ChildName(structName, member.name), member.schema.props)) +
            [StructText(t, ChildName(structName, member.name), member.schema.props)]
  {
    var child := ChildName(structName, member.name);
    var d := Def(child, member.schema.props);
    TextsAppend(t, Defs(child, member.schema.props), [d]);
    MapAt(Render(t), [d], 0);
  }

  lemma DefsPrefixStep(structName: string, props: Props, i: int)
    requires 0 <= i < |props|
    ensures Defs(structName, props[..i + 1]) == Defs(structName, props[..i]) + Pushed(structName, props[i])
  {
    assert props[..i + 1] == props[..i] + [props[i]];
    DefsSnoc(structName, props[..i], props[i]);
  }

  /** The loop of `createStruct` keeps `content` equal to what it started
      with plus the texts of the structs pushed for the properties so far. */
  lemma ContentStep(t: Target, structName: string, props: Props, i: int,
                    start: seq<string>, before: seq<string>, after: seq<string>)
    requires 0 <= i < |props|
    requires before == start + Texts(t, Defs(structName, props[..i]))
    requires after == before + Texts(t, Pushed(structName, props[i]))
    ensures after == start + Texts(t, Defs(structName, props[..i + 1]))
  {
    var x, y := Defs(structName, props[..i]), Pushed(structName, props[i]);
    DefsPrefixStep(structName, props, i);
    TextsAppend(t, x, y);
    assert Texts(t, Defs(structName, props[..i + 1])) == Texts(t, x) + Texts(t, y);
    AppendAssoc(start, Texts(t, x), Texts(t, y));
  }

  /** Everything one walk pushes: the nested structs, then the root. */
  function AllDefs(props: Props): seq<Def>
  {
    Defs("Root", props) + [Def("Root", props)]
  }

  /** The text of one struct definition. */
  function Render(t: Target): Def -> string
  {
    (d: Def) => StructText(t, d.name, d.props)
  }

  /** The texts of a list of struct definitions, in the same order. */
  function Texts(t: Target, defs: seq<Def>): (r: seq<string>)
    ensures |r| == |defs|
  {
    Map(Render(t), defs)
  }

  lemma TextsAppend(t: Target, a: seq<Def>, b: seq<Def>)
    ensures Texts(t, a + b) == Texts(t, a) + Texts(t, b)
  {
    MapAppend(Render(t), a, b);
  }

  /** The i-th text is the text of the i-th definition. */
  lemma TextsAt(t: Target, defs: seq<Def>, i: int)
    requires 0 <= i < |defs|
    ensures Texts(t, defs)[i] == StructText(t, defs[i].name, defs[i].props)
  {
    MapAt(Render(t), defs, i);
  }

  /** The texts of a whole walk: the nested structs' texts, then the root's. */
  lemma AllTexts(t: Target, props: Props)
    ensures Texts(t, AllDefs(props)) ==
            Texts(t, Defs("Root", props)) + [StructText(t, "Root", props)]
  {
    var root := Def("Root", props);
    TextsAppend(t, Defs("Root", props), [root]);
    MapAt(Render(t), [root], 0);
  }

  /** The string `process` returns on a fresh walker. */
  function Output(t: Target, props: Props): (r: string)
    ensures PreText(t) <= r
  {
    PreText(t) + Concat(Texts(t, AllDefs(props)))
  }

  /** The output is the preamble, the nested structs in push order, and the
      root struct last. */
  lemma OutputShape(t: Target, props: Props)
    ensures Output(t, props) ==
            PreText(t) + Concat(Texts(t, Defs("Root", props))) + StructText(t, "Root", props)
    ensures EndsWith(Output(t, props), StructText(t, "Root", props))
  {
    var nested, root := Texts(t, Defs("Root", props)), StructText(t, "Root", props);
    AllTexts(t, props);
    ConcatAppend(nested, [root]);
    assert Concat([root]) == root;
    AppendAssoc(PreText(t), Concat(nested), root);
  }

  /** One struct per object-typed property anywhere in the tree is pushed
      before the root, so `content` ends up one longer than that count. */
  lemma {:induction false} DefsCount(structName: string, props: Props)
    ensures |Defs(structName, props)| == ObjectCount(props)
    decreases PropsSize(props)
  {
    if props != [] {
      var init, last := props[..|props| - 1], props[|props| - 1];
      assert props == init + [last];
      DefsCount(structName, init);
      ObjectCountSnoc(init, last);
      if last.schema.Obj? {
        assert Size(last.schema) == 1 + PropsSize(last.schema.props);
        DefsCount(ChildName(structName, last.name), last.schema.props);
      }
    }
  }

  lemma AllDefsCount(props: Props)
    ensures |AllDefs(props)| == 1 + ObjectCount(props)
    ensures AllDefs(props)[|AllDefs(props)| - 1] == Def("Root", props)
  {
    DefsCount("Root", props);
  }

  /** A schema whose properties are all primitives or arrays of primitives
      yields the root struct alone, with one field per property in order. */
  lemma FlatSchemaOneStruct(t: Target, props: Props)
    requires forall i :: 0 <= i < |props| ==> Contributes(props[i].schema) && !props[i].schema.Obj?
    ensures AllDefs(props) == [Def("Root", props)]
    ensures Output(t, props) == PreText(t) + StructText(t, "Root", props)
    ensures Fields(t, "Root", props) ==
            seq(|props|, i requires 0 <= i < |props| => Fragment(t, "Root", props[i]))
  {
    NoObjectsNoDefs("Root", props);
    NoObjectsOutput(t, props);
    FlatStruct(t, "Root", props);
  }

  /** Without object-typed properties, the output is the preamble and the
      root struct alone. */
  lemma NoObjectsOutput(t: Target, props: Props)
    requires forall i :: 0 <= i < |props| ==> !props[i].schema.Obj?
    ensures Output(t, props) == PreText(t) + StructText(t, "Root", props)
  {
    NoObjectsNoDefs("Root", props);
    OutputShape(t, props);
    assert Concat(Texts(t, [])) == "";
  }

  lemma {:induction false} NoObjectsNoDefs(structName: string, props: Props)
    requires forall i :: 0 <= i < |props| ==> !props[i].schema.Obj?
    ensures Defs(structName, props) == []
  {
    if props != [] {
      NoObjectsNoDefs(structName, props[..|props| - 1]);
    }
  }

  /** A boolean followed by a string enum (the sample schema's `someBoolean`
      and `someStringEnum`): the root struct alone, holding the scalar
      boolean field and then the enum field, for every target. */
  lemma BooleanAndEnumExample(t: Target, flag: string, choice: string, lits: seq<Lit>)
    ensures Output(t, BooleanAndEnum(flag, choice, lits)) ==
            PreText(t) + StructText(t, "Root", BooleanAndEnum(flag, choice, lits))
    ensures Fields(t, "Root", BooleanAndEnum(flag, choice, lits)) ==
            [KeyValue(t, flag, Boolean), KeyEnum(t, choice, lits)]
  {
    var props := BooleanAndEnum(flag, choice, lits);
    assert |props| == 2 && !props[0].schema.Obj? && !props[1].schema.Obj?;
    NoObjectsOutput(t, props);
    BooleanAndEnumFields(t, flag, choice, lits);
  }

  lemma BooleanAndEnumFields(t: Target, flag: string, choice: string, lits: seq<Lit>)
    ensures Fields(t, "Root", BooleanAndEnum(flag, choice, lits)) ==
            [KeyValue(t, flag, Boolean), KeyEnum(t, choice, lits)]
  {
    var p0, p1 := Property(flag, Bool(None)), Property(choice, Str(Some(lits)));
    FieldsOfTwo(t, "Root", p0, p1);
    FragmentDispatch(t, "Root", p0);
    FragmentDispatch(t, "Root", p1);
  }

  /** Two properties that both yield a field give exactly their two fragments. */
  lemma FieldsOfTwo(t: Target, structName: string, p: Property, q: Property)
    requires Contributes(p.schema) && Contributes(q.schema)
    ensures Fields(t, structName, [p, q]) == [Fragment(t, structName, p), Fragment(t, structName, q)]
  {
    var fp, fq := Fragment(t, structName, p), Fragment(t, structName, q);
    assert Fields(t, structName, [p]) == [fp] by {
      FieldsSnoc(t, structName, [], p);
      assert [] + [p] == [p];
    }
    FieldsSnoc(t, structName, [p], q);
    assert [p] + [q] == [p, q];
    assert [fp] + [fq] == [fp, fq];
  }

  function BooleanAndEnum(flag: string, choice: string, lits: seq<Lit>): Props
  {
    [Property(flag, Bool(None)), Property(choice, Str(Some(lits)))]
  }

  /** Every struct that `d` references (one per object-typed property) is
      already in `pool`. */
  ghost predicate RefsIn(d: Def, pool: seq<Def>)
  {
    forall k :: 0 <= k < |d.props| && d.props[k].schema.Obj? ==>
      Def(ChildName(d.name, d.props[k].name), d.props[k].schema.props) in pool
  }

  /** Each struct in the list comes after every struct it references. */
  ghost predicate ChildrenFirst(defs: seq<Def>)
  {
    forall j :: 0 <= j < |defs| ==> RefsIn(defs[j], defs[..j])
  }

  lemma RefsInGrow(d: Def, pool: seq<Def>, more: seq<Def>)
    requires RefsIn(d, pool)
    requires forall x :: x in pool ==> x in more
    ensures RefsIn(d, more)
  {
  }

  lemma ChildrenFirstAppend(a: seq<Def>, b: seq<Def>)
    requires ChildrenFirst(a) && ChildrenFirst(b)
    ensures ChildrenFirst(a + b)
  {
    var ab := a + b;
    forall j | 0 <= j < |ab|
      ensures RefsIn(ab[j], ab[..j])
    {
      if j < |a| {
        assert ab[..j] == a[..j];
      } else {
        var i := j - |a|;
        assert ab[j] == b[i] && ab[..j] == a + b[..i];
        assert RefsIn(b[i], b[..i]);
        RefsInGrow(b[i], b[..i], a + b[..i]);
      }
    }
  }

  lemma ChildrenFirstSnoc(a: seq<Def>, d: Def)
    requires ChildrenFirst(a) && RefsIn(d, a)
    ensures ChildrenFirst(a + [d])
  {
    var ad := a + [d];
    forall j | 0 <= j < |ad|
      ensures RefsIn(ad[j], ad[..j])
    {
      if j < |a| {
        assert ad[..j] == a[..j];
      } else {
        assert ad[..j] == a;
      }
    }
  }

  /** Every nested struct's text is pushed before the text of the struct
      that references it, the root's last of all. */
  lemma {:induction false} ChildrenBeforeParents(structName: string, props: Props)
    ensures ChildrenFirst(Defs(structName, props) + [Def(structName, props)])
    decreases PropsSize(props)
  {
    var self := Def(structName, props);
    if props == [] {
      assert RefsIn(self, []);
      assert ChildrenFirst([]);
      ChildrenFirstSnoc([], self);
    } else {
      var init, last := props[..|props| - 1], props[|props| - 1];
      var a := Defs(structName, init);
      ChildrenBeforeParents(structName, init);
      ChildrenFirstInit(a, Def(structName, init));
      var x: seq<Def> := [];
      if last.schema.Obj? {
        var child := ChildName(structName, last.name);
        assert Size(last.schema) == 1 + PropsSize(last.schema.props);
        ChildrenBeforeParents(child, last.schema.props);
        x := Defs(child, last.schema.props) + [Def(child, last.schema.props)];
      }
      assert Defs(structName, props) == a + x;
      ChildrenFirstAppend(a, x);
      assert props == init + [last];
      RefsInSnoc(structName, init, last, a, x);
      ChildrenFirstSnoc(a + x, self);
    }
  }

  lemma ChildrenFirstInit(a: seq<Def>, d: Def)
    requires ChildrenFirst(a + [d])
    ensures ChildrenFirst(a) && RefsIn(d, a)
  {
    var ad := a + [d];
    assert ad[..|a|] == a;
    forall j | 0 <= j < |a|
      ensures RefsIn(a[j], a[..j])
    {
      assert ad[j] == a[j] && ad[..j] == a[..j];
    }
  }

  /** One more property keeps the references of a struct inside the pool
      once the pool holds that property's own struct. */
  lemma RefsInSnoc(structName: string, init: Props, last: Property, a: seq<Def>, x: seq<Def>)
    requires RefsIn(Def(structName, init), a)
    requires last.schema.Obj? ==>
      x != [] && x[|x| - 1] == Def(ChildName(structName, last.name), last.schema.props)
    ensures RefsIn(Def(structName, init + [last]), a + x)
  {
    var props := init + [last];
    forall k | 0 <= k < |props| && props[k].schema.Obj?
      ensures Def(ChildName(structName, props[k].name), props[k].schema.props) in a + x
    {
      if k < |init| {
        assert props[k] == init[k];
        assert Def(ChildName(structName, init[k].name), init[k].schema.props) in a;
      } else {
        assert (a + x)[|a + x| - 1] == x[|x| - 1];
      }
    }
  }
}
