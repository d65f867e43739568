/** The keywords of JSON Schema 2020-12 that the generated NativeCard schema uses, and what they mean. */
module SchemaModel {
  import opened Prelude
  import opened Json

  /** The type keyword. */
  datatype Kind = StringKind | NumberKind | IntegerKind | BooleanKind | ArrayKind | ObjectKind

  /** The names under $defs. */
  datatype Definition =
    | NodeDef | ActionDef | ExpressionDef | StatePathDef | ExpressionPathDef | PathBindingDef
    | ExpressionBindingDef | TimerDef

  /** A schema object; an absent keyword is None, an empty map, an empty list or false. */
  datatype Schema = Schema(
    kind: Option<Kind>,
    constant: Option<Value>,
    enum: Option<seq<string>>,
    minimum: Option<real>,
    maximum: Option<real>,
    minLength: Option<int>,
    maxLength: Option<int>,
    pattern: Option<string>,
    uniqueItems: bool,
    minItems: Option<int>,
    maxItems: Option<int>,
    items: Option<Schema>,
    properties: map<string, Schema>,
    required: seq<string>,
    closed: bool,
    oneOf: seq<Schema>,
    anyOf: seq<Schema>,
    ref: Option<Definition>)

  const ANYTHING := Schema(None, None, None, None, None, None, None, None, false, None, None, None, map[], [], false,
                           [], [], None)

  type Definitions = map<Definition, Schema>

  /** How many references may follow one another at one place of the instance. */
  const MAX_REFS: nat := 2

  predicate HasKind(v: Value, kind: Kind)
  {
    match kind
    case StringKind => v.Str?
    case NumberKind => IsNumber(v)
    case IntegerKind => IsNumber(v) && NumberOf(v).value.Floor as real == NumberOf(v).value
    case BooleanKind => v.Bool?
    case ArrayKind => v.Arr?
    case ObjectKind => v.Obj?
  }

  /** Equality of instances: numbers by value. */
  predicate Same(a: Value, b: Value)
  {
    if IsNumber(a) && IsNumber(b) then NumberOf(a) == NumberOf(b) else a == b
  }

  /** Section 6.1 to 6.3 of JSON Schema Validation, and uniqueItems. */
  predicate AssertionsHold(matches: (string, string) -> bool, s: Schema, v: Value)
  {
    && (s.kind.Some? ==> HasKind(v, s.kind.value))
    && (s.constant.Some? ==> Same(v, s.constant.value))
    && (s.enum.Some? ==> v.Str? && v.text in s.enum.value)
    && (IsNumber(v) ==>
          && (s.minimum.Some? ==> NumberOf(v).value >= s.minimum.value)
          && (s.maximum.Some? ==> NumberOf(v).value <= s.maximum.value))
    && (v.Str? ==>
          && (s.minLength.Some? ==> |v.text| >= s.minLength.value)
          && (s.maxLength.Some? ==> |v.text| <= s.maxLength.value)
          && (s.pattern.Some? ==> matches(s.pattern.value, v.text)))
    && (v.Arr? ==>
          && (s.minItems.Some? ==> |v.items| >= s.minItems.value)
          && (s.maxItems.Some? ==> |v.items| <= s.maxItems.value)
          && (s.uniqueItems ==> forall i, j :: 0 <= i < j < |v.items| ==> !Same(v.items[i], v.items[j])))
    && (v.Obj? ==>
          && (forall name :: name in s.required ==> name in v.fields)
          && (s.closed ==> v.fields.Keys <= s.properties.Keys))
  }

  /** Section 10.3 of JSON Schema Core: items and properties apply to the parts. */
  ghost predicate PartsValid(d: Definitions, matches: (string, string) -> bool, s: Schema, v: Value)
    decreases v, 0, s, 0
  {
    && (v.Arr? && s.items.Some? ==>
          forall i :: 0 <= i < |v.items| ==> Valid(d, matches, s.items.value, v.items[i], MAX_REFS))
    && (v.Obj? ==>
          forall name :: name in v.fields && name in s.properties ==>
            Valid(d, matches, s.properties[name], v.fields[name], MAX_REFS))
  }

  /** Exactly one of the branches accepts the instance. */
  ghost predicate ExactlyOne(d: Definitions, matches: (string, string) -> bool, s: Schema, v: Value, refs: nat)
    decreases v, refs, s, 0
  {
    exists i :: 0 <= i < |s.oneOf| && Valid(d, matches, s.oneOf[i], v, refs)
                && forall j :: 0 <= j < |s.oneOf| && j != i ==> !Valid(d, matches, s.oneOf[j], v, refs)
  }

  /** Sections 8.2.3.1 and 10.2.1 of JSON Schema Core: references and combinations. */
  ghost predicate Valid(d: Definitions, matches: (string, string) -> bool, s: Schema, v: Value, refs: nat)
    decreases v, refs, s, 1
  {
    && AssertionsHold(matches, s, v) && PartsValid(d, matches, s, v)
    && (s.oneOf != [] ==> ExactlyOne(d, matches, s, v, refs))
    && (s.anyOf != [] ==> exists i :: 0 <= i < |s.anyOf| && Valid(d, matches, s.anyOf[i], v, refs))
    && (s.ref.Some? ==> s.ref.value in d && refs > 0 && Valid(d, matches, d[s.ref.value], v, refs - 1))
  }
}
