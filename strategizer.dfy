/** The walker object: one strategy and the `content` list of finished
    struct texts that `createStruct` appends to while it recurses. */
module Strategizer {
  import opened Results
  import opened Text
  import opened Schema
  import opened Strategies
  import opened Walker

  class StructStrategizer {
    const strategy: Target
    var content: seq<string>

    constructor (strategy: Target)
      ensures this.strategy == strategy && content == []
    {
      this.strategy := strategy;
      content := [];
    }

    /** `s.createStructKeyEnum`: the Go emitter runs its loop (building the
        constant block it logs); the others are single expressions. */
    method CreateStructKeyEnum(keyName: string, enumList: seq<Lit>) returns (field: string)
      ensures field == KeyEnum(strategy, keyName, enumList)
    {
      if strategy == Go {
        var constBlock, warnings;
        field, constBlock, warnings := GoCreateStructKeyEnum(keyName, enumList);
      } else {
        field := KeyEnum(strategy, keyName, enumList);
      }
    }

    /** The branch of `createStruct` for a property that is not an object:
        the field fragment, or nothing for a shape the walker ignores. */
    method CreateField(structName: string, member: Property) returns (piece: string)
      requires !member.schema.Obj?
      ensures piece == Fragment(strategy, structName, member)
    {
      var s := strategy;
      var memberName, memberObject := member.name, member.schema;
      piece := "";
      if memberObject.Bool? {
        if memberObject.enum.Some? {
          piece := CreateStructKeyEnum(memberName, memberObject.enum.value);
        } else {
          piece := KeyValue(s, memberName, Boolean);
        }
      } else if memberObject.Int? {
        if memberObject.enum.Some? {
          piece := CreateStructKeyEnum(memberName, memberObject.enum.value);
        } else {
          piece := KeyValue(s, memberName, Integer);
        }
      } else if memberObject.Str? {
        if memberObject.enum.Some? {
          piece := CreateStructKeyEnum(memberName, memberObject.enum.value);
        } else {
          piece := KeyValue(s, memberName, String);
        }
      } else if memberObject.Arr? {
        if memberObject.items.Bool? {
          piece := KeyArray(s, memberName, Boolean);
        } else if memberObject.items.Int? {
          piece := KeyArray(s, memberName, Integer);
        } else if memberObject.items.Str? {
          piece := KeyArray(s, memberName, String);
        }
      }
    }

    /** `createStruct`: returns the struct's own text and appends the texts
        of its nested structs to `content`, each child before its parent. */
    method CreateStruct(structName: string, structInfo: Props) returns (text: string)
      modifies this
      decreases PropsSize(structInfo), 1
      ensures text == StructText(strategy, structName, structInfo)
      ensures content == old(content) + Texts(strategy, Defs(structName, structInfo))
    {
      var s := strategy;
      var buf := "";
      buf := buf + StructStart(s, structName);
      for i := 0 to |structInfo|
        invariant buf == StructStart(s, structName) + Concat(Fields(s, structName, structInfo[..i]))
        invariant content == old(content) + Texts(s, Defs(structName, structInfo[..i]))
      {
        PropsSizeBound(structInfo, i);
        ghost var before := content;
        var piece := CreateMember(structName, structInfo[i]);
        ContentStep(s, structName, structInfo, i, old(content), before, content);
        FieldsStep(s, structName, structInfo, i);
        AppendAssoc(StructStart(s, structName), Concat(Fields(s, structName, structInfo[..i])), piece);
        buf := buf + piece;
      }
      assert structInfo[..|structInfo|] == structInfo;
      buf := buf + StructEnd(s, structName);
      return buf;
    }

    /** One pass of the loop in `createStruct`: the member's fragment, and
        for an object the nested structs, pushed before it. */
    method CreateMember(structName: string, member: Property) returns (piece: string)
      modifies this
      decreases Size(member.schema), 0
      ensures piece == Fragment(strategy, structName, member)
      ensures content == old(content) + Texts(strategy, Pushed(structName, member))
    {
      var s := strategy;
      if member.schema.Obj? {
        var nextStructName := ChildName(structName, member.name);
        piece := StructRef(s, member.name, nextStructName);
        assert Size(member.schema) == 1 + PropsSize(member.schema.props);
        var structText := CreateStruct(nextStructName, member.schema.props);
        content := content + [structText];
        ObjectPushed(s, structName, member);
        AppendAssoc(old(content), Texts(s, Defs(nextStructName, member.schema.props)), [structText]);
      } else {
        piece := CreateField(structName, member);
      }
    }

    /** `process`: walks the root under the name `Root`, pushes the root's
        text last and returns the preamble followed by all of `content`:
        one struct per object-typed property anywhere in the tree, then the
        root's own. */
    method Process(rootInfo: Props) returns (out: string)
      modifies this
      ensures content == old(content) + Texts(strategy, AllDefs(rootInfo))
      ensures |content| == |old(content)| + 1 + ObjectCount(rootInfo)
      ensures content[|content| - 1] == StructText(strategy, "Root", rootInfo)
      ensures out == PreText(strategy) + Concat(content)
    {
      var buf := CreateStruct("Root", rootInfo);
      content := content + [buf];
      AllTexts(strategy, rootInfo);
      AppendAssoc(old(content), Texts(strategy, Defs("Root", rootInfo)), [buf]);
      AllDefsCount(rootInfo);
      out := PreText(strategy) + Concat(content);
    }
  }
}
