/** The NativeCard catalog: components, actions, expressions, capability methods and limits. */
module NativeCatalog {
  import opened Prelude

  datatype ValueRule = ValueRule(
    kind: string,
    binding: bool,
    enum: seq<string>,
    minimum: Option<real>,
    maximum: Option<real>,
    minLength: Option<int>,
    pattern: string,
    uniqueItems: bool)

  datatype ComponentRule = ComponentRule(
    allowedProps: map<string, ValueRule>,
    requiredProps: seq<string>,
    allowedEvents: seq<string>)

  datatype ActionRule = ActionRule(
    requiredFields: seq<string>,
    optionalFields: seq<string>,
    valueRule: Option<ValueRule>)

  datatype ExpressionRule = ExpressionRule(
    minArgs: int,
    maxArgs: Option<int>,
    argumentType: string,
    resultType: string,
    constraint: string)

  datatype CapabilityRule = CapabilityRule(manifestCapability: Option<string>, nativeSupported: bool)

  datatype Limits = Limits(
    maxContentBytes: int,
    maxDepth: int,
    maxNodes: int,
    maxChildrenPerNode: int,
    maxActionsPerEvent: int,
    maxExpressionDepth: int,
    maxDataDepth: int,
    maxDataNodes: int,
    maxContainerItems: int)

  datatype Catalog = Catalog(
    version: int,
    limits: Limits,
    components: map<string, ComponentRule>,
    actions: map<string, ActionRule>,
    expressions: map<string, ExpressionRule>,
    capabilityMethods: map<string, CapabilityRule>)

  const VALUE_KINDS := {"any", "string", "number", "integer", "boolean", "stringList", "numberList", "object",
                        "timerConfiguration"}

  // ----- what the generator checks before it accepts a catalog -----

  /** validateValueRule, with the enumerations of the catalog's own schema. */
  predicate RuleOk(rule: ValueRule)
  {
    && rule.kind in VALUE_KINDS
    && (rule.uniqueItems ==> rule.kind == "stringList")
    && (rule.minimum.Some? && rule.maximum.Some? ==> rule.minimum.value <= rule.maximum.value)
  }

  predicate ComponentOk(rule: ComponentRule)
  {
    && (forall name :: name in rule.allowedProps ==> RuleOk(rule.allowedProps[name]))
    && (forall name :: name in rule.requiredProps ==> name in rule.allowedProps)
  }

  predicate ActionFieldsOk(rule: ActionRule)
  {
    && (forall f :: f in rule.requiredFields + rule.optionalFields ==> f in {"path", "value", "method", "params"})
    && (forall f :: f in rule.requiredFields ==> f !in rule.optionalFields)
    && (rule.valueRule.Some? <==> "value" in rule.requiredFields || "value" in rule.optionalFields)
    && (rule.valueRule.Some? ==> RuleOk(rule.valueRule.value))
  }

  predicate ExpressionOk(rule: ExpressionRule)
  {
    && rule.minArgs >= 0 && (rule.maxArgs.Some? ==> rule.maxArgs.value >= rule.minArgs)
    && rule.argumentType in {"any", "number", "boolean"}
    && rule.resultType in {"any", "number", "boolean", "string"}
    && rule.constraint in {"", "nonNegative", "nonZeroDivisor"}
  }

  /** What validateSources and the catalog's schema demand of the parts modelled here. */
  predicate CatalogOk(catalog: Catalog)
  {
    && catalog.version == 1
    && (forall name :: name in catalog.components ==> ComponentOk(catalog.components[name]))
    && (forall name :: name in catalog.actions ==> ActionFieldsOk(catalog.actions[name]))
    && (forall name :: name in catalog.expressions ==> ExpressionOk(catalog.expressions[name]))
  }
}
