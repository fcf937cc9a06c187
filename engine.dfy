/** `Polystruct`: holds a schema's root properties and converts them for a
    target named by a string. */
module Engine {
  import opened Results
  import opened Text
  import opened Schema
  import opened Strategies
  import opened Walker
  import opened Strategizer

  /** The names `convert` accepts. */
  const TargetNames: set<string> := {"typescript", "typescript-zod", "go", "python"}

  /** The live strategy a target name selects; `python` and unknown names
      select none. */
  function TargetOf(name: string): (r: Option<Target>)
    ensures r.Some? <==> name in TargetNames - {"python"}
    ensures r == Some(TypeScript) <==> name == "typescript"
    ensures r == Some(Zod) <==> name == "typescript-zod"
    ensures r == Some(Go) <==> name == "go"
  {
    if name == "typescript" then Some(TypeScript)
    else if name == "typescript-zod" then Some(Zod)
    else if name == "go" then Some(Go)
    else None
  }

  /** What `convert(name)` returns for a schema whose root properties are
      `properties`: the generated text for a live target, the empty string
      for `python`, and an error for any other name. */
  function Conversion(properties: Props, name: string): (r: Result<string>)
    ensures r.Err? <==> name !in TargetNames
    ensures r.Err? ==> r.error == UnsupportedTarget
    ensures name == "python" ==> r == Ok("")
    ensures TargetOf(name).Some? ==> r == Ok(Output(TargetOf(name).value, properties))
  {
    match TargetOf(name)
    case Some(t) => Ok(Output(t, properties))
    case None => if name == "python" then Ok("") else Err(UnsupportedTarget)
  }

  class Polystruct {
    const properties: Props

    constructor (properties: Props)
      ensures this.properties == properties
    {
      this.properties := properties;
    }

    /** `convert`: a fresh walker per call, so the result depends on the
        schema and the name only. */
    method Convert(name: string) returns (r: Result<string>)
      ensures r == Conversion(properties, name)
    {
      if name == "typescript" {
        var out := Run(TypeScript);
        r := Ok(out);
      } else if name == "typescript-zod" {
        var out := Run(Zod);
        r := Ok(out);
      } else if name == "go" {
        var out := Run(Go);
        r := Ok(out);
      } else if name == "python" {
        r := Ok("");
      } else {
        r := Err(UnsupportedTarget);
      }
    }

    /** `new StructStrategizer(strategy).process(schema.properties)`. */
    method Run(t: Target) returns (out: string)
      ensures out == Output(t, properties)
    {
      var ss := new StructStrategizer(t);
      out := ss.Process(properties);
      ghost var pushed := Texts(t, AllDefs(properties));
      assert [] + pushed == pushed;
    }
  }
}
