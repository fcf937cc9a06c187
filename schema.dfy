/** The already-parsed schema tree the converter walks. A node's `type`
    selects the constructor; `enum`, `items` and `properties` become
    constructor arguments; any other or missing `type` is `Other`, which
    the walker skips. A `null` property, `items` or `properties`, on which
    the code raises a `TypeError`, has no counterpart here. The properties
    of an object keep their insertion order. */
module Schema {
  import opened Results
  import opened Text

  /** An enum literal, as JSON parsing can give it for the three primitives. */
  datatype Lit = BoolLit(b: bool) | IntLit(i: int) | StrLit(s: string)

  datatype Schema =
    | Bool(enum: Option<seq<Lit>>)
    | Int(enum: Option<seq<Lit>>)
    | Str(enum: Option<seq<Lit>>)
    | Arr(items: Schema)
    | Obj(props: seq<Property>)
    | Other

  /** One `[memberName, memberObject]` entry of an object's properties. */
  datatype Property = Property(name: string, schema: Schema)

  type Props = seq<Property>

  /** The `type` names of the three primitives. */
  const PrimitiveNames: set<string> := {"boolean", "integer", "string"}

  predicate IsPrimitive(s: Schema)
  {
    s.Bool? || s.Int? || s.Str?
  }

  /** Whether the walker emits a field for a property of this shape: a
      primitive, an object, or an array whose items are a primitive. */
  predicate Contributes(s: Schema)
  {
    IsPrimitive(s) || s.Obj? || (s.Arr? && IsPrimitive(s.items))
  }

  /** JavaScript's `String(item)` on an enum literal. */
  function LitText(l: Lit): (r: string)
    ensures l.StrLit? ==> r == l.s
    ensures l.IntLit? ==> IsDecimal(r) && ParseInt(r) == l.i
  {
    match l
    case BoolLit(b) => if b then "true" else "false"
    case IntLit(i) => IntRoundTrip(i); IntToString(i)
    case StrLit(s) => s
  }

  /** Termination measure of the walk: every node counts at least one. */
  function Size(s: Schema): (n: nat)
    ensures n >= 1
    decreases s
  {
    match s
    case Arr(item) => 1 + Size(item)
    case Obj(ps) => 1 + PropsSize(ps)
    case _ => 1
  }

  function PropsSize(ps: Props): nat
    decreases ps
  {
    if ps == [] then 0 else PropsSize(ps[..|ps| - 1]) + Size(ps[|ps| - 1].schema)
  }

  /** Each property's subtree is no larger than the property list holding it. */
  lemma {:induction false} PropsSizeBound(ps: Props, i: nat)
    requires i < |ps|
    ensures Size(ps[i].schema) <= PropsSize(ps)
  {
    if i < |ps| - 1 {
      assert ps[..|ps| - 1][i] == ps[i];
      PropsSizeBound(ps[..|ps| - 1], i);
    }
  }

  /** The number of object-typed properties anywhere in the tree, counted
      front to back (independently of the walk, which goes by prefixes). */
  function ObjectCount(ps: Props): nat
    decreases ps
  {
    if ps == [] then 0 else ObjectsAt(ps[0].schema) + ObjectCount(ps[1..])
  }

  function ObjectsAt(s: Schema): nat
    decreases s
  {
    if s.Obj? then 1 + ObjectCount(s.props) else 0
  }

  lemma {:induction false} ObjectCountSnoc(ps: Props, p: Property)
    ensures ObjectCount(ps + [p]) == ObjectCount(ps) + ObjectsAt(p.schema)
  {
    if ps != [] {
      assert (ps + [p])[1..] == ps[1..] + [p];
      ObjectCountSnoc(ps[1..], p);
    } else {
      assert ([p])[1..] == [];
    }
  }
}
