/** The generator that compiles the NativeCard catalog to JSON Schema. */
module NativeSchema {
  import opened Prelude
  import opened Json
  import opened NativeCatalog
  import opened SchemaModel
  import StringOrder

  const STATE_PATH_PATTERN := "^[^.]+(?:\\.[^.]+)*$"
  const EXPRESSION_PATH_PATTERN := "^state\\.[^.]+(?:\\.[^.]+)*$"

  datatype SchemaDocument = SchemaDocument(root: Schema, definitions: Definitions)

  function OfKind(kind: Kind): Schema
  {
    ANYTHING.(kind := Some(kind))
  }

  function Const(text: string): Schema
  {
    ANYTHING.(constant := Some(Str(text)))
  }

  function Ref(name: Definition): Schema
  {
    ANYTHING.(ref := Some(name))
  }

  /** An object with just these properties. */
  function Closed(properties: map<string, Schema>, required: seq<string>): Schema
  {
    OfKind(ObjectKind).(properties := properties, required := required, closed := true)
  }

  // ----- what each part compiles to -----

  function KindSchema(kind: string): Schema
  {
    match kind
    case "string" => OfKind(StringKind)
    case "number" => OfKind(NumberKind)
    case "integer" => OfKind(IntegerKind)
    case "boolean" => OfKind(BooleanKind)
    case "object" => OfKind(ObjectKind)
    case "stringList" => OfKind(ArrayKind).(items := Some(OfKind(StringKind)))
    case "numberList" => OfKind(ArrayKind).(items := Some(OfKind(NumberKind)))
    case "timerConfiguration" => Ref(TimerDef)
    case _ => ANYTHING
  }

  function LiteralSchema(rule: ValueRule): Schema
  {
    KindSchema(rule.kind).(
      enum := if rule.enum != [] then Some(rule.enum) else None,
      minimum := rule.minimum,
      maximum := rule.maximum,
      minLength := rule.minLength,
      pattern := if rule.pattern != "" then Some(rule.pattern) else None,
      uniqueItems := rule.uniqueItems)
  }

  function ValueSchema(rule: ValueRule): Schema
  {
    if !rule.binding then LiteralSchema(rule)
    else ANYTHING.(anyOf := [LiteralSchema(rule), Ref(PathBindingDef), Ref(ExpressionBindingDef), Ref(ExpressionDef)])
  }

  function EventSchema(maxActions: int): Schema
  {
    OfKind(ArrayKind).(maxItems := Some(maxActions), items := Some(Ref(ActionDef)))
  }

  function PropSchemas(rule: ComponentRule): map<string, Schema>
  {
    map p | p in rule.allowedProps :: ValueSchema(rule.allowedProps[p])
  }

  function EventSchemas(events: seq<string>, maxActions: int): map<string, Schema>
  {
    map e | e in events :: EventSchema(maxActions)
  }

  const NODE_FIELDS := {"id", "type", "props", "events", "children"}

  function NodePart(field: string, name: string, props: Schema, events: Schema, maxChildren: int): Schema
  {
    match field
    case "id" => OfKind(StringKind).(minLength := Some(1), maxLength := Some(100))
    case "type" => Const(name)
    case "props" => props
    case "events" => events
    case _ => OfKind(ArrayKind).(maxItems := Some(maxChildren), items := Some(Ref(NodeDef)))
  }

  function NodeSchema(name: string, props: Schema, events: Schema, required: seq<string>, maxChildren: int): Schema
  {
    Closed(map field | field in NODE_FIELDS :: NodePart(field, name, props, events, maxChildren), required)
  }

  function ComponentSchema(name: string, rule: ComponentRule, maxChildren: int, maxActions: int): Schema
  {
    NodeSchema(name, Closed(PropSchemas(rule), rule.requiredProps),
      Closed(EventSchemas(rule.allowedEvents, maxActions), []),
               if rule.requiredProps != [] then ["id", "type", "props"] else ["id", "type"], maxChildren)
  }

  function SupportedMethods(capabilities: map<string, CapabilityRule>): seq<string>
  {
    StringOrder.SortedKeys(set m | m in capabilities && capabilities[m].nativeSupported)
  }

  function FieldSchema(field: string, rule: ActionRule, capabilities: map<string, CapabilityRule>): Schema
  {
    match field
    case "path" => Ref(StatePathDef)
    case "value" => if rule.valueRule.Some? then ValueSchema(rule.valueRule.value) else ANYTHING
    case "method" => OfKind(StringKind).(enum := Some(SupportedMethods(capabilities)))
    case _ => OfKind(ObjectKind)
  }

  function FieldSchemas(name: string, fields: seq<string>, rule: ActionRule, capabilities: map<string, CapabilityRule>)
    : map<string, Schema>
  {
    map["type" := Const(name)] + map f | f in fields :: FieldSchema(f, rule, capabilities)
  }

  function ActionSchema(name: string, rule: ActionRule, capabilities: map<string, CapabilityRule>): Schema
  {
    Closed(FieldSchemas(name, rule.requiredFields + rule.optionalFields, rule, capabilities),
      ["type"] + rule.requiredFields)
  }

  function ExpressionSchema(name: string, rule: ExpressionRule): Schema
  {
    Closed(map[
      "op" := Const(name),
      "args" := OfKind(ArrayKind).(minItems := Some(rule.minArgs), maxItems := rule.maxArgs)],
      ["op", "args"])
  }

  // ----- the whole schema -----

  predicate ComponentBuilds(rule: ComponentRule)
  {
    forall p :: p in rule.allowedProps ==> rule.allowedProps[p].kind in VALUE_KINDS
  }

  predicate FieldBuilds(field: string, rule: ActionRule)
  {
    field in {"path", "value", "method", "params"}
    && (field == "value" ==> rule.valueRule.Some? && rule.valueRule.value.kind in VALUE_KINDS)
  }

  predicate ActionBuilds(rule: ActionRule)
  {
    forall f :: f in rule.requiredFields + rule.optionalFields ==> FieldBuilds(f, rule)
  }

  predicate Builds(catalog: Catalog)
  {
    && (forall name :: name in catalog.components ==> ComponentBuilds(catalog.components[name]))
    && (forall name :: name in catalog.actions ==> ActionBuilds(catalog.actions[name]))
  }

  function ComponentBranches(catalog: Catalog): seq<Schema>
  {
    var names := StringOrder.SortedKeys(catalog.components.Keys);
    seq(|names|, i requires 0 <= i < |names| =>
      assert names[i] in names;
      ComponentSchema(names[i], catalog.components[names[i]],
                      catalog.limits.maxChildrenPerNode, catalog.limits.maxActionsPerEvent))
  }

  function ActionBranches(catalog: Catalog): seq<Schema>
  {
    var names := StringOrder.SortedKeys(catalog.actions.Keys);
    seq(|names|, i requires 0 <= i < |names| =>
      assert names[i] in names;
      ActionSchema(names[i], catalog.actions[names[i]], catalog.capabilityMethods))
  }

  function ExpressionBranches(catalog: Catalog): seq<Schema>
  {
    var names := StringOrder.SortedKeys(catalog.expressions.Keys);
    seq(|names|, i requires 0 <= i < |names| =>
      assert names[i] in names;
      ExpressionSchema(names[i], catalog.expressions[names[i]]))
  }

  const STATE_PATH_SCHEMA := OfKind(StringKind).(minLength := Some(1), pattern := Some(STATE_PATH_PATTERN))
  const EXPRESSION_PATH_SCHEMA := OfKind(StringKind).(pattern := Some(EXPRESSION_PATH_PATTERN))
  const PATH_BINDING_SCHEMA := Closed(map["path" := Ref(ExpressionPathDef)], ["path"])
  const EXPRESSION_BINDING_SCHEMA := Closed(map["expr" := Ref(ExpressionDef)], ["expr"])

  const TIMER_SCHEMA := Closed(map[
      "intervalMs" := OfKind(IntegerKind).(minimum := Some(1.0)),
      "delta" := OfKind(NumberKind),
      "stopAt" := OfKind(NumberKind)],
      ["intervalMs", "delta"])

  function DocumentSchema(version: int, components: seq<Schema>, actions: seq<Schema>, expressions: seq<Schema>)
    : SchemaDocument
  {
    SchemaDocument(
      Closed(map[
        "schemaVersion" := ANYTHING.(constant := Some(Int(version))),
        "initialState" := OfKind(ObjectKind),
        "root" := Ref(NodeDef)],
        ["schemaVersion", "initialState", "root"]),
      map[
        NodeDef := ANYTHING.(oneOf := components),
        StatePathDef := STATE_PATH_SCHEMA,
        ExpressionPathDef := EXPRESSION_PATH_SCHEMA,
        PathBindingDef := PATH_BINDING_SCHEMA,
        ExpressionBindingDef := EXPRESSION_BINDING_SCHEMA,
        ExpressionDef := ANYTHING.(oneOf := expressions),
        TimerDef := TIMER_SCHEMA,
        ActionDef := ANYTHING.(oneOf := actions)])
  }

  function SchemaOf(catalog: Catalog): SchemaDocument
  {
    DocumentSchema(catalog.version, ComponentBranches(catalog), ActionBranches(catalog), ExpressionBranches(catalog))
  }
}
