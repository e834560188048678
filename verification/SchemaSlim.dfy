/** Slimming a tool's input schema before it is published
    (src/features/tools/slimSchemaForMcp.ts) against the parameter metadata read off the same schema
    (src/features/tools/metadata/touchDesignerToolMetadata.ts). */
module SchemaSlim {

  /** What a caller may pass. Numbers that are not finite are among the `Foreign` values. */
  datatype Value =
    | Undefined
    | Null
    | Boolean(b: bool)
    | Number(n: real)
    | Text(s: string)
    | List(items: seq<Value>)
    | Record(entries: map<string, Value>)
    | Foreign(tag: int)

  /** A schema node: its kind, and the outcome of the checks and refinements attached to the node. */
  datatype Schema = Schema(def: Def, check: Value -> bool)

  datatype Field = Field(name: string, schema: Schema)

  datatype UnknownKeys = Strip | Strict | Catchall(schema: Schema)

  datatype Def =
    | StringDef
    | NumberDef
    | IntDef
    | BooleanDef
    | EnumDef(values: seq<string>)
    | ArrayDef(element: Schema)
    | RecordDef(key: Schema, value: Schema)
    | UnionDef(options: seq<Schema>)
    | UnknownDef
    | AnyDef
    | ObjectDef(shape: seq<Field>, unknownKeys: UnknownKeys)
    | OptionalDef(inner: Schema)
    | DefaultDef(inner: Schema)
    | PrefaultDef(inner: Schema, prefault: Value)
    | NullableDef(inner: Schema)
      // a kind that only the metadata reader knows
    | NullishDef(inner: Schema)
      // every other kind (literal, date, pipe, tuple, ...), by what it accepts
    | OtherDef(accept: Value -> bool)

  // ---------- what a schema accepts ----------

  function Get(entries: map<string, Value>, key: string): Value {
    if key in entries then entries[key] else Undefined
  }

  ghost predicate Accepts(s: Schema, v: Value)
    decreases s, 1
  {
    AcceptsKind(s.def, v) && s.check(v)
  }

  ghost predicate AcceptsKind(d: Def, v: Value)
    decreases d, 0
  {
    match d
    case StringDef => v.Text?
    case NumberDef => v.Number?
    case IntDef => v.Number? && v.n == v.n.Floor as real
    case BooleanDef => v.Boolean?
    case EnumDef(values) => v.Text? && v.s in values
    case ArrayDef(element) => v.List? && forall i :: 0 <= i < |v.items| ==> Accepts(element, v.items[i])
    case RecordDef(key, value) =>
      v.Record? && forall k :: k in v.entries ==> Accepts(key, Text(k)) && Accepts(value, v.entries[k])
    case UnionDef(options) => exists i :: 0 <= i < |options| && Accepts(options[i], v)
    case UnknownDef => true
    case AnyDef => true
    case ObjectDef(shape, unknownKeys) =>
      && v.Record?
      && AcceptsShape(shape, v.entries)
      && match unknownKeys {
        case Strip => true
        case Strict => forall k :: k in v.entries ==> Named(shape, k)
        case Catchall(rest) => forall k :: k in v.entries && !Named(shape, k) ==> Accepts(rest, v.entries[k])
      }
    case OptionalDef(inner) => v == Undefined || Accepts(inner, v)
    case DefaultDef(inner) => v == Undefined || Accepts(inner, v)
    case PrefaultDef(inner, prefault) => Accepts(inner, if v == Undefined then prefault else v)
    case NullableDef(inner) => v == Null || Accepts(inner, v)
    case NullishDef(inner) => v == Undefined || v == Null || Accepts(inner, v)
    case OtherDef(accept) => accept(v)
  }

  predicate Named(shape: seq<Field>, key: string) {
    exists i :: 0 <= i < |shape| && shape[i].name == key
  }

  /** A missing property is read as `Undefined`. */
  ghost predicate AcceptsShape(shape: seq<Field>, entries: map<string, Value>)
    decreases shape
  {
    shape == [] || (Accepts(shape[0].schema, Get(entries, shape[0].name)) && AcceptsShape(shape[1..], entries))
  }

  // ---------- slimming ----------

  predicate Always(v: Value) {
    true
  }

  /** A node as the builder makes it, with no check attached. */
  function Plain(d: Def): Schema {
    Schema(d, Always)
  }

  const DROP_FROM_PUBLISH: set<string> := {"responseFormat", "limit"}

  /** `stripFieldForPublish`, by recursion on the schema. */
  function StripField(field: Schema): Schema
    decreases field, 1
  {
    match field.def
    case OptionalDef(inner) => Plain(OptionalDef(StripField(inner)))
    case DefaultDef(inner) => Plain(OptionalDef(StripField(inner)))
    case PrefaultDef(inner, _) => Plain(OptionalDef(StripField(inner)))
    case NullableDef(inner) => Plain(NullableDef(StripField(inner)))
    case _ => Plain(LeanBase(field.def))
  }

  function LeanBase(d: Def): Def
    decreases d, 0
  {
    match d
    case StringDef => StringDef
    case NumberDef => NumberDef
    case IntDef => NumberDef
    case BooleanDef => BooleanDef
    case EnumDef(values) => if values == [] then StringDef else EnumDef(values)
    case ArrayDef(element) => ArrayDef(StripField(element))
    case RecordDef(_, value) => RecordDef(Plain(StringDef), StripField(value))
    case UnionDef(options) =>
      if |options| < 2 then UnknownDef
      else UnionDef(seq(|options|, i requires 0 <= i < |options| => StripField(options[i])))
    case ObjectDef(shape, _) => ObjectDef(SlimShape(shape, DROP_FROM_PUBLISH), Strip)
    case _ => UnknownDef
  }

  /** `slimSchemaForMcp`, given the shape of the object schema. */
  function SlimShape(shape: seq<Field>, drop: set<string>): seq<Field>
    decreases shape
  {
    if shape == [] then []
    else if shape[0].name in drop then SlimShape(shape[1..], drop)
    else [Field(shape[0].name, StripField(shape[0].schema))] + SlimShape(shape[1..], drop)
  }

  function SlimSchema(shape: seq<Field>, dropKeys: set<string>): Schema {
    Plain(ObjectDef(SlimShape(shape, DROP_FROM_PUBLISH + dropKeys), Strip))
  }

  // ---------- the same, as the source computes it ----------

  datatype Wrapper = AsOptional | AsNullable

  function Wrap(w: Wrapper, s: Schema): Schema {
    if w == AsOptional then Plain(OptionalDef(s)) else Plain(NullableDef(s))
  }

  /** Innermost wrapper last. */
  function Rewrap(wrappers: seq<Wrapper>, s: Schema): Schema {
    if wrappers == [] then s else Rewrap(wrappers[..|wrappers| - 1], Wrap(wrappers[|wrappers| - 1], s))
  }

  method StripFieldForPublish(field: Schema) returns (out: Schema)
    ensures out == StripField(field)
    decreases field, 1
  {
    var wrappers: seq<Wrapper> := [];
    var node := field;
    while true
      invariant node == field || node < field
      invariant Rewrap(wrappers, StripField(node)) == StripField(field)
      decreases node
    {
      match node.def {
        case OptionalDef(inner) => wrappers, node := wrappers + [AsOptional], inner;
        case DefaultDef(inner) => wrappers, node := wrappers + [AsOptional], inner;
        case PrefaultDef(inner, _) => wrappers, node := wrappers + [AsOptional], inner;
        case NullableDef(inner) => wrappers, node := wrappers + [AsNullable], inner;
        case _ => break;
      }
      assert wrappers[..|wrappers| - 1] + [wrappers[|wrappers| - 1]] == wrappers;
    }
    out := RebuildBaseLean(node);
    assert wrappers[..|wrappers|] == wrappers;
    var i := |wrappers|;
    while i > 0
      invariant 0 <= i <= |wrappers|
      invariant Rewrap(wrappers[..i], out) == StripField(field)
    {
      i := i - 1;
      assert wrappers[..i + 1][..i] == wrappers[..i];
      if wrappers[i] == AsOptional {
        out := Plain(OptionalDef(out));
      } else {
        out := Plain(NullableDef(out));
      }
    }
  }

  method RebuildBaseLean(node: Schema) returns (out: Schema)
    ensures out == Plain(LeanBase(node.def))
    decreases node, 0
  {
    match node.def {
      case StringDef => out := Plain(StringDef);
      case NumberDef => out := Plain(NumberDef);
      case IntDef => out := Plain(NumberDef);
      case BooleanDef => out := Plain(BooleanDef);
      case EnumDef(values) =>
        if |values| == 0 {
          out := Plain(StringDef);
        } else {
          out := Plain(EnumDef(values));
        }
      case ArrayDef(element) =>
        var slim := StripFieldForPublish(element);
        out := Plain(ArrayDef(slim));
      case RecordDef(_, value) =>
        var slim := StripFieldForPublish(value);
        out := Plain(RecordDef(Plain(StringDef), slim));
      case UnionDef(options) =>
        if |options| < 2 {
          out := Plain(UnknownDef);
        } else {
          var stripped: seq<Schema> := [];
          for i := 0 to |options|
            invariant |stripped| == i
            invariant forall j :: 0 <= j < i ==> stripped[j] == StripField(options[j])
          {
            var slim := StripFieldForPublish(options[i]);
            stripped := stripped + [slim];
          }
          assert stripped == LeanBase(node.def).options;
          out := Plain(UnionDef(stripped));
        }
      case ObjectDef(shape, _) =>
        assert DROP_FROM_PUBLISH + {} == DROP_FROM_PUBLISH;
        out := SlimSchemaForMcp(shape, {});
      case _ => out := Plain(UnknownDef);
    }
  }

  method SlimSchemaForMcp(shape: seq<Field>, dropKeys: set<string>) returns (out: Schema)
    ensures out == SlimSchema(shape, dropKeys)
    decreases shape
  {
    var drop := DROP_FROM_PUBLISH + dropKeys;
    var slimShape: seq<Field> := [];
    for i := 0 to |shape|
      invariant slimShape + SlimShape(shape[i..], drop) == SlimShape(shape, drop)
    {
      assert shape[i..][1..] == shape[i + 1..];
      if shape[i].name !in drop {
        var slim := StripFieldForPublish(shape[i].schema);
        slimShape := slimShape + [Field(shape[i].name, slim)];
      }
    }
    assert SlimShape(shape[|shape|..], drop) == [];
    assert slimShape + [] == slimShape;
    out := Plain(ObjectDef(slimShape, Strip));
  }

  // ---------- slimming only relaxes ----------

  /** Whatever the full field accepts, the published field accepts. */
  lemma {:induction false} StripRelaxes(field: Schema, v: Value)
    requires Accepts(field, v)
    ensures Accepts(StripField(field), v)
    decreases field, 1
  {
    hide LeanBase;
    var d := field.def;
    if d.OptionalDef? || d.DefaultDef? || d.PrefaultDef? {
      if v != Undefined {
        StripRelaxes(d.inner, v);
      }
    } else if d.NullableDef? {
      if v != Null {
        StripRelaxes(d.inner, v);
      }
    } else {
      LeanRelaxes(d, v);
    }
  }

  lemma {:induction false} LeanRelaxes(d: Def, v: Value)
    requires AcceptsKind(d, v)
    ensures !d.OptionalDef? && !d.DefaultDef? && !d.PrefaultDef? && !d.NullableDef? ==> AcceptsKind(LeanBase(d), v)
    decreases d, 0
  {
    match d
    case ArrayDef(element) =>
      forall i | 0 <= i < |v.items|
        ensures Accepts(StripField(element), v.items[i])
      {
        StripRelaxes(element, v.items[i]);
      }
    case RecordDef(_, value) =>
      forall k | k in v.entries
        ensures Accepts(StripField(value), v.entries[k])
      {
        StripRelaxes(value, v.entries[k]);
      }
    case UnionDef(options) =>
      if |options| >= 2 {
        var i :| 0 <= i < |options| && Accepts(options[i], v);
        StripRelaxes(options[i], v);
        assert Accepts(LeanBase(d).options[i], v);
      }
    case ObjectDef(shape, _) => ShapeRelaxes(shape, DROP_FROM_PUBLISH, v.entries);
    case _ =>
  }

  lemma {:induction false} ShapeRelaxes(shape: seq<Field>, drop: set<string>, entries: map<string, Value>)
    requires AcceptsShape(shape, entries)
    ensures AcceptsShape(SlimShape(shape, drop), entries)
    decreases shape
  {
    if shape != [] {
      ShapeRelaxes(shape[1..], drop, entries);
      if shape[0].name !in drop {
        StripRelaxes(shape[0].schema, Get(entries, shape[0].name));
        var slim := SlimShape(shape, drop);
        assert slim[1..] == SlimShape(shape[1..], drop);
      }
    }
  }

  /** Whatever the tool's schema accepts, the published schema accepts, for any further dropped keys. */
  lemma {:induction false} PublishedSchemaRelaxes(schema: Schema, dropKeys: set<string>, v: Value)
    requires schema.def.ObjectDef? && Accepts(schema, v)
    ensures Accepts(SlimSchema(schema.def.shape, dropKeys), v)
  {
    ShapeRelaxes(schema.def.shape, DROP_FROM_PUBLISH + dropKeys, v.entries);
  }

  // ---------- what the published field accepts, exactly ----------

  /** What is left of a field: its base type, whether it may be missing or null, and the same inside. */
  ghost predicate Loosely(field: Schema, v: Value)
    decreases field
  {
    match field.def
    case OptionalDef(inner) => v == Undefined || Loosely(inner, v)
    case DefaultDef(inner) => v == Undefined || Loosely(inner, v)
    case PrefaultDef(inner, _) => v == Undefined || Loosely(inner, v)
    case NullableDef(inner) => v == Null || Loosely(inner, v)
    case StringDef => v.Text?
    case NumberDef => v.Number?
    case IntDef => v.Number?
    case BooleanDef => v.Boolean?
    case EnumDef(values) => v.Text? && (values == [] || v.s in values)
    case ArrayDef(element) => v.List? && forall i :: 0 <= i < |v.items| ==> Loosely(element, v.items[i])
    case RecordDef(_, value) => v.Record? && forall k :: k in v.entries ==> Loosely(value, v.entries[k])
    case UnionDef(options) => |options| < 2 || exists i :: 0 <= i < |options| && Loosely(options[i], v)
    case ObjectDef(shape, _) =>
      && v.Record?
      && forall i :: 0 <= i < |shape| && shape[i].name != "responseFormat" && shape[i].name != "limit" ==>
           Loosely(shape[i].schema, Get(v.entries, shape[i].name))
    case _ => true
  }

  /** The published field accepts exactly that: the checks are gone, the types are not. */
  lemma {:induction false} PublishedFieldAccepts(field: Schema, v: Value)
    ensures Accepts(StripField(field), v) <==> Loosely(field, v)
    decreases field, 1
  {
    hide Accepts, StripField, Loosely;
    match field.def
    case OptionalDef(inner) => WrapperLoosely(field, inner, v);
    case DefaultDef(inner) => WrapperLoosely(field, inner, v);
    case PrefaultDef(inner, _) => WrapperLoosely(field, inner, v);
    case NullableDef(inner) => WrapperLoosely(field, inner, v);
    case ArrayDef(element) => ArrayLoosely(field, element, v);
    case RecordDef(_, value) => RecordLoosely(field, value, v);
    case UnionDef(options) => UnionLoosely(field, options, v);
    case ObjectDef(shape, _) => ObjectLoosely(field, shape, v);
    case _ => BaseLoosely(field, v);
  }

  lemma {:induction false} BaseLoosely(field: Schema, v: Value)
    requires var d := field.def;
      || d.StringDef? || d.NumberDef? || d.IntDef? || d.BooleanDef? || d.EnumDef? || d.UnknownDef? || d.AnyDef?
      || d.NullishDef? || d.OtherDef?
    ensures Accepts(StripField(field), v) <==> Loosely(field, v)
  {
  }

  lemma {:induction false} WrapperLoosely(field: Schema, inner: Schema, v: Value)
    requires var d := field.def;
      || d == OptionalDef(inner) || d == DefaultDef(inner) || d == NullableDef(inner)
      || (d.PrefaultDef? && d.inner == inner)
    ensures Accepts(StripField(field), v) <==> Loosely(field, v)
    decreases field, 0
  {
    PublishedFieldAccepts(inner, v);
    hide LeanBase;
  }

  lemma {:induction false} ArrayLoosely(field: Schema, element: Schema, v: Value)
    requires field.def == ArrayDef(element)
    ensures Accepts(StripField(field), v) <==> Loosely(field, v)
    decreases field, 0
  {
    if v.List? {
      forall i | 0 <= i < |v.items|
        ensures Accepts(StripField(element), v.items[i]) <==> Loosely(element, v.items[i])
      {
        PublishedFieldAccepts(element, v.items[i]);
      }
    }
  }

  lemma {:induction false} RecordLoosely(field: Schema, value: Schema, v: Value)
    requires field.def.RecordDef? && field.def.value == value
    ensures Accepts(StripField(field), v) <==> Loosely(field, v)
    decreases field, 0
  {
    RecordAccepts(value, v);
    assert StripField(field) == Plain(RecordDef(Plain(StringDef), StripField(value)));
    if v.Record? {
      forall k | k in v.entries
        ensures Accepts(StripField(value), v.entries[k]) <==> Loosely(value, v.entries[k])
      {
        PublishedFieldAccepts(value, v.entries[k]);
      }
    }
    hide AcceptsKind, StripField;
  }

  lemma {:induction false} UnionLoosely(field: Schema, options: seq<Schema>, v: Value)
    requires field.def == UnionDef(options)
    ensures Accepts(StripField(field), v) <==> Loosely(field, v)
    decreases field, 0
  {
    forall i | 0 <= i < |options|
      ensures Accepts(StripField(options[i]), v) <==> Loosely(options[i], v)
    {
      PublishedFieldAccepts(options[i], v);
    }
    if |options| >= 2 {
      assert forall i :: 0 <= i < |options| ==> LeanBase(field.def).options[i] == StripField(options[i]);
    }
  }

  lemma {:induction false} ObjectLoosely(field: Schema, shape: seq<Field>, v: Value)
    requires field.def.ObjectDef? && field.def.shape == shape
    ensures Accepts(StripField(field), v) <==> Loosely(field, v)
    decreases field, 0
  {
    if v.Record? {
      forall i | 0 <= i < |shape|
        ensures Accepts(StripField(shape[i].schema), Get(v.entries, shape[i].name))
          <==> Loosely(shape[i].schema, Get(v.entries, shape[i].name))
      {
        PublishedFieldAccepts(shape[i].schema, Get(v.entries, shape[i].name));
      }
      SlimShapeAccepts(shape, DROP_FROM_PUBLISH, v.entries);
    }
  }

  lemma {:induction false} RecordAccepts(value: Schema, v: Value)
    ensures AcceptsKind(RecordDef(Plain(StringDef), StripField(value)), v)
      <==> v.Record? && forall k :: k in v.entries ==> Accepts(StripField(value), v.entries[k])
  {
    hide StripField;
    assert forall s :: Accepts(Plain(StringDef), Text(s));
  }

  lemma {:induction false} SlimShapeAccepts(shape: seq<Field>, drop: set<string>, entries: map<string, Value>)
    ensures AcceptsShape(SlimShape(shape, drop), entries) <==>
      forall i :: 0 <= i < |shape| && shape[i].name !in drop ==>
        Accepts(StripField(shape[i].schema), Get(entries, shape[i].name))
    decreases shape
  {
    hide Accepts, StripField;
    if shape != [] {
      SlimShapeAccepts(shape[1..], drop, entries);
      var slim := SlimShape(shape, drop);
      if shape[0].name !in drop {
        assert slim[1..] == SlimShape(shape[1..], drop);
      }
      assert forall i :: 0 < i < |shape| ==> shape[i] == shape[1..][i - 1];
    }
  }

  /** And the published schema accepts exactly the objects whose published fields are so. */
  lemma {:induction false} PublishedSchemaAccepts(shape: seq<Field>, dropKeys: set<string>, v: Value)
    ensures Accepts(SlimSchema(shape, dropKeys), v) <==>
      && v.Record?
      && forall i :: 0 <= i < |shape| && shape[i].name !in {"responseFormat", "limit"} + dropKeys ==>
           Loosely(shape[i].schema, Get(v.entries, shape[i].name))
  {
    hide StripField, Loosely;
    if v.Record? {
      SlimShapeAccepts(shape, DROP_FROM_PUBLISH + dropKeys, v.entries);
      forall i | 0 <= i < |shape|
        ensures Accepts(StripField(shape[i].schema), Get(v.entries, shape[i].name))
          <==> Loosely(shape[i].schema, Get(v.entries, shape[i].name))
      {
        PublishedFieldAccepts(shape[i].schema, Get(v.entries, shape[i].name));
      }
    }
  }

  // ---------- slimming twice is slimming once ----------

  /** Types and enumerations only: the schemas that slimming leaves alone. */
  ghost predicate Lean(s: Schema)
    decreases s, 1
  {
    s.check == Always && LeanKind(s.def)
  }

  ghost predicate LeanKind(d: Def)
    decreases d, 0
  {
    match d
    case StringDef => true
    case NumberDef => true
    case BooleanDef => true
    case UnknownDef => true
    case EnumDef(values) => values != []
    case ArrayDef(element) => Lean(element)
    case RecordDef(key, value) => key == Plain(StringDef) && Lean(value)
    case UnionDef(options) => |options| >= 2 && forall i :: 0 <= i < |options| ==> Lean(options[i])
    case ObjectDef(shape, unknownKeys) => unknownKeys == Strip && LeanShape(shape, DROP_FROM_PUBLISH)
    case OptionalDef(inner) => Lean(inner)
    case NullableDef(inner) => Lean(inner)
    case _ => false
  }

  ghost predicate LeanShape(shape: seq<Field>, drop: set<string>)
    decreases shape
  {
    forall i :: 0 <= i < |shape| ==> shape[i].name !in drop && Lean(shape[i].schema)
  }

  /** Slimming always ends in a lean schema ... */
  lemma {:induction false} StripIsLean(field: Schema)
    ensures Lean(StripField(field))
    decreases field, 1
  {
    match field.def
    case OptionalDef(inner) => StripIsLean(inner);
    case DefaultDef(inner) => StripIsLean(inner);
    case PrefaultDef(inner, _) => StripIsLean(inner);
    case NullableDef(inner) => StripIsLean(inner);
    case _ => BaseIsLean(field.def);
  }

  lemma {:induction false} BaseIsLean(d: Def)
    ensures LeanKind(LeanBase(d))
    decreases d, 0
  {
    match d
    case ArrayDef(element) => StripIsLean(element);
    case RecordDef(_, value) => StripIsLean(value);
    case UnionDef(options) =>
      forall i | 0 <= i < |options|
        ensures Lean(StripField(options[i]))
      {
        StripIsLean(options[i]);
      }
    case ObjectDef(shape, _) => ShapeIsLean(shape, DROP_FROM_PUBLISH);
    case _ =>
  }

  lemma {:induction false} ShapeIsLean(shape: seq<Field>, drop: set<string>)
    ensures LeanShape(SlimShape(shape, drop), drop)
    decreases shape
  {
    if shape != [] {
      ShapeIsLean(shape[1..], drop);
      if shape[0].name !in drop {
        StripIsLean(shape[0].schema);
      }
    }
  }

  /** ... and leaves a schema alone exactly when it is lean. */
  lemma {:induction false} LeanIsFixed(field: Schema)
    ensures StripField(field) == field <==> Lean(field)
    decreases field, 1
  {
    if Lean(field) {
      if field.def.OptionalDef? || field.def.NullableDef? {
        LeanIsFixed(field.def.inner);
      } else {
        LeanBaseIsFixed(field.def);
      }
    } else if StripField(field) == field {
      StripIsLean(field);
    }
  }

  lemma {:induction false} LeanBaseIsFixed(d: Def)
    requires LeanKind(d) && !d.OptionalDef? && !d.NullableDef?
    ensures LeanBase(d) == d
    decreases d, 0
  {
    match d
    case ArrayDef(element) => LeanIsFixed(element);
    case RecordDef(_, value) => LeanIsFixed(value);
    case UnionDef(options) =>
      forall i | 0 <= i < |options|
        ensures StripField(options[i]) == options[i]
      {
        LeanIsFixed(options[i]);
      }
      assert LeanBase(d).options == options;
    case ObjectDef(shape, _) => LeanShapeIsFixed(shape, DROP_FROM_PUBLISH);
    case _ =>
  }

  lemma {:induction false} LeanShapeIsFixed(shape: seq<Field>, drop: set<string>)
    requires LeanShape(shape, drop)
    ensures SlimShape(shape, drop) == shape
    decreases shape
  {
    if shape != [] {
      assert shape[0].name !in drop && Lean(shape[0].schema);
      LeanShapeIsFixed(shape[1..], drop);
      LeanIsFixed(shape[0].schema);
    }
  }

  lemma {:induction false} SlimmingIsIdempotent(shape: seq<Field>, dropKeys: set<string>)
    ensures SlimSchema(SlimShape(shape, DROP_FROM_PUBLISH + dropKeys), dropKeys) == SlimSchema(shape, dropKeys)
  {
    ShapeIsLean(shape, DROP_FROM_PUBLISH + dropKeys);
    LeanShapeIsFixed(SlimShape(shape, DROP_FROM_PUBLISH + dropKeys), DROP_FROM_PUBLISH + dropKeys);
  }

  // ---------- the metadata read off the same schema ----------

  datatype Parameter = Parameter(name: string, required: bool)

  /** The base type below every wrapper that the metadata reader knows. */
  function MetaBase(field: Schema): Schema {
    match field.def
    case OptionalDef(inner) => MetaBase(inner)
    case DefaultDef(inner) => MetaBase(inner)
    case PrefaultDef(inner, _) => MetaBase(inner)
    case NullableDef(inner) => MetaBase(inner)
    case NullishDef(inner) => MetaBase(inner)
    case _ => field
  }

  /** The base type is no wrapper, and accepts what the field accepts besides a missing value and null. */
  lemma {:induction false} BaseAcceptsTheRest(field: Schema, v: Value)
    requires v != Undefined && v != Null && Accepts(field, v)
    ensures Accepts(MetaBase(field), v)
    ensures var d := MetaBase(field).def;
      !d.OptionalDef? && !d.DefaultDef? && !d.PrefaultDef? && !d.NullableDef? && !d.NullishDef?
  {
    match field.def
    case OptionalDef(inner) => BaseAcceptsTheRest(inner, v);
    case DefaultDef(inner) => BaseAcceptsTheRest(inner, v);
    case PrefaultDef(inner, _) => BaseAcceptsTheRest(inner, v);
    case NullableDef(inner) => BaseAcceptsTheRest(inner, v);
    case NullishDef(inner) => BaseAcceptsTheRest(inner, v);
    case _ =>
  }

  function MetaRequired(field: Schema): bool {
    match field.def
    case OptionalDef(_) => false
    case DefaultDef(_) => false
    case PrefaultDef(_, _) => false
    case NullishDef(_) => false
    case NullableDef(inner) => MetaRequired(inner)
    case _ => true
  }

  method Unwrap(field: Schema) returns (base: Schema, required: bool)
    ensures base == MetaBase(field) && required == MetaRequired(field)
  {
    base, required := field, true;
    while true
      invariant MetaBase(base) == MetaBase(field)
      invariant (required && MetaRequired(base)) == MetaRequired(field)
      decreases base
    {
      var kind := base.def;
      if kind.OptionalDef? || kind.DefaultDef? || kind.PrefaultDef? || kind.NullishDef? {
        required := false;
      }
      if kind.OptionalDef? || kind.DefaultDef? || kind.PrefaultDef? || kind.NullableDef? || kind.NullishDef? {
        base := kind.inner;
        continue;
      }
      break;
    }
  }

  function Parameters(shape: seq<Field>): seq<Parameter> {
    seq(|shape|, i requires 0 <= i < |shape| => Parameter(shape[i].name, MetaRequired(shape[i].schema)))
  }

  method DeriveParameters(shape: seq<Field>) returns (parameters: seq<Parameter>)
    ensures parameters == Parameters(shape)
  {
    parameters := [];
    for i := 0 to |shape|
      invariant |parameters| == i
      invariant forall j :: 0 <= j < i ==> parameters[j] == Parameters(shape)[j]
    {
      var _, required := Unwrap(shape[i].schema);
      parameters := parameters + [Parameter(shape[i].name, required)];
    }
  }

  // ---------- published optional is documented not required ----------

  /** Declared optional: an optional wrapper, possibly below nullable ones. */
  predicate DeclaredOptional(s: Schema) {
    match s.def
    case OptionalDef(_) => true
    case NullableDef(inner) => DeclaredOptional(inner)
    case _ => false
  }

  /** Only nullable wrappers above a `nullish` node. */
  predicate BareNullish(field: Schema) {
    match field.def
    case NullishDef(_) => true
    case NullableDef(inner) => BareNullish(inner)
    case _ => false
  }

  /** The two readings of one field agree exactly when no `nullish` node, which only the metadata reader
      knows, comes before every optional one. */
  lemma {:induction false} OptionalIsNotRequired(field: Schema)
    ensures DeclaredOptional(StripField(field)) == !MetaRequired(field) <==> !BareNullish(field)
  {
    match field.def
    case NullableDef(inner) => OptionalIsNotRequired(inner);
    case _ =>
  }

  /** The documented parameters that are published. */
  function Kept(parameters: seq<Parameter>, drop: set<string>): seq<Parameter> {
    if parameters == [] then []
    else (if parameters[0].name in drop then [] else [parameters[0]]) + Kept(parameters[1..], drop)
  }

  /** What the published shape itself says. */
  function Published(shape: seq<Field>): seq<Parameter> {
    seq(|shape|, i requires 0 <= i < |shape| => Parameter(shape[i].name, !DeclaredOptional(shape[i].schema)))
  }

  /** The published schema lists the documented parameters, in order, without the dropped ones, and marks
      optional the ones the documentation does not require. */
  lemma {:induction false} PublishedMatchesMetadata(shape: seq<Field>, drop: set<string>)
    requires forall i :: 0 <= i < |shape| ==> !BareNullish(shape[i].schema)
    ensures Published(SlimShape(shape, drop)) == Kept(Parameters(shape), drop)
  {
    hide StripField, MetaRequired, DeclaredOptional, BareNullish, Published, Parameters;
    if shape != [] {
      var rest := shape[1..];
      PublishedMatchesMetadata(rest, drop);
      OptionalIsNotRequired(shape[0].schema);
      ParametersOfFirst(shape);
      if shape[0].name !in drop {
        var first := Field(shape[0].name, StripField(shape[0].schema));
        PublishedOfFirst(first, SlimShape(rest, drop));
      }
    } else {
      NothingPublished(drop);
    }
  }

  lemma {:induction false} NothingPublished(drop: set<string>)
    ensures Published(SlimShape([], drop)) == Kept(Parameters([]), drop)
  {
  }

  lemma {:induction false} ParametersOfFirst(shape: seq<Field>)
    requires shape != []
    ensures Parameters(shape)
      == [Parameter(shape[0].name, MetaRequired(shape[0].schema))] + Parameters(shape[1..])
    ensures Parameters(shape)[1..] == Parameters(shape[1..])
  {
    hide MetaRequired;
  }

  lemma {:induction false} PublishedOfFirst(first: Field, rest: seq<Field>)
    ensures Published([first] + rest) == [Parameter(first.name, !DeclaredOptional(first.schema))] + Published(rest)
  {
    hide DeclaredOptional;
    assert forall i :: 0 < i <= |rest| ==> ([first] + rest)[i] == rest[i - 1];
  }

  /** A field may be left out of a call to the published tool exactly when it is not required, or when its
      own type admits a missing value. */
  lemma {:induction false} MayBeLeftOut(field: Schema)
    ensures Accepts(StripField(field), Undefined)
      <==> !MetaRequired(field) || AcceptsKind(LeanBase(PeelNullable(field).def), Undefined)
  {
    match field.def
    case NullableDef(inner) => MayBeLeftOut(inner);
    case _ =>
  }

  function PeelNullable(field: Schema): Schema {
    match field.def
    case NullableDef(inner) => PeelNullable(inner)
    case _ => field
  }
}
