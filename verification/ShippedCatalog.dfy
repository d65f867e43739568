/**
 The catalog that ships with the service: it satisfies what the agreement of validator, schema and
 decoder asks of a catalog, and a document on which validator and decoder part.
 */
module ShippedCatalog {
  import opened Prelude
  import opened Json
  import opened NativeCatalog
  import opened NativeRules
  import ND = NativeDocument
  import SA = SchemaAgreement
  import SM = SchemaModel
  import NS = NativeSchema
  import DA = DecoderAgreement
  import T = Decoder
  import StatePaths
  import Text

  function Rule(kind: string, binding: bool): ValueRule
  {
    ValueRule(kind, binding, [], None, None, None, "", false)
  }

  function Props(props: map<string, ValueRule>): ComponentRule
  {
    ComponentRule(props, [], [])
  }

  const SIZE := Rule("number", false).(minimum := Some(0.0))
  const VALUE_PATH := Rule("string", false).(minLength := Some(1), pattern := "^[^.]+(\\.[^.]+)*$")
  const STYLES := Rule("string", false).(enum := ["body", "title", "display"])
  const ICONS := Rule("string", false).(enum := ["widgets", "timer", "check", "warning", "settings"])
  const COLUMNS := Rule("integer", false).(minimum := Some(1.0), maximum := Some(6.0))
  const OPTIONS := Rule("stringList", false).(uniqueItems := true)
  const LABEL := Rule("string", false)

  const LAYOUTS := map[
    "Container" := Props(map["padding" := SIZE]),
    "Row" := Props(map["spacing" := SIZE]),
    "Column" := Props(map["spacing" := SIZE]),
    "Stack" := Props(map[]),
    "Grid" := Props(map["columns" := COLUMNS, "spacing" := SIZE]),
    "Scroll" := Props(map[]),
    "Divider" := Props(map[]),
    "List" := Props(map[])]

  const DISPLAYS := map[
    "Text" := Props(map["text" := Rule("string", true), "style" := STYLES]),
    "Icon" := Props(map["name" := ICONS]),
    "Image" := Props(map["alt" := LABEL]),
    "Badge" := Props(map["label" := Rule("string", true)]),
    "Progress" := Props(map["value" := Rule("number", true)]),
    "Chart" := Props(map["values" := Rule("numberList", true)]),
    "KeyValue" := Props(map["label" := Rule("string", true), "value" := Rule("any", true)]),
    "EmptyState" := Props(map["title" := LABEL]),
    "ErrorState" := Props(map["message" := LABEL])]

  const INPUTS := map[
    "Button" := ComponentRule(map["label" := Rule("string", true)], [], ["onPressed"]),
    "TextInput" := ComponentRule(map["label" := LABEL, "valuePath" := VALUE_PATH], ["valuePath"], []),
    "Checkbox" := ComponentRule(map["label" := LABEL, "valuePath" := VALUE_PATH], ["valuePath"], []),
    "Select" :=
      ComponentRule(map["label" := LABEL, "valuePath" := VALUE_PATH, "options" := OPTIONS], ["valuePath"], []),
    "Slider" :=
      ComponentRule(map["valuePath" := VALUE_PATH, "min" := Rule("number", false), "max" := Rule("number", false)],
                    ["valuePath"], [])]

  const ACTIONS := map[
    "set" := ActionRule(["path", "value"], [], Some(Rule("any", true))),
    "increment" := ActionRule(["path"], ["value"], Some(Rule("number", true))),
    "toggle" := ActionRule(["path"], [], None),
    "append" := ActionRule(["path", "value"], [], Some(Rule("any", true))),
    "remove" := ActionRule(["path", "value"], [], Some(Rule("any", true))),
    "startTimer" := ActionRule(["path", "value"], [], Some(Rule("timerConfiguration", false))),
    "stopTimer" := ActionRule(["path"], [], None),
    ND.INVOKE := ActionRule(["method"], ["path", "params"], None)]

  const EXPRESSIONS := map[
    "add" := ExpressionRule(1, None, "number", "number", ""),
    "subtract" := ExpressionRule(2, Some(2), "number", "number", ""),
    "multiply" := ExpressionRule(1, None, "number", "number", ""),
    "divide" := ExpressionRule(2, Some(2), "number", "number", "nonZeroDivisor"),
    "eq" := ExpressionRule(2, Some(2), "any", "boolean", ""),
    "gt" := ExpressionRule(2, Some(2), "number", "boolean", ""),
    "gte" := ExpressionRule(2, Some(2), "number", "boolean", ""),
    "lt" := ExpressionRule(2, Some(2), "number", "boolean", ""),
    "lte" := ExpressionRule(2, Some(2), "number", "boolean", ""),
    "and" := ExpressionRule(1, None, "boolean", "boolean", ""),
    "or" := ExpressionRule(1, None, "boolean", "boolean", ""),
    "not" := ExpressionRule(1, Some(1), "boolean", "boolean", ""),
    "concat" := ExpressionRule(0, None, "any", "string", ""),
    "formatDuration" := ExpressionRule(1, Some(1), "number", "string", "nonNegative")]

  const METHODS := map[
    "runtime.getContext" := CapabilityRule(None, false),
    "storage.get" := CapabilityRule(Some("storage"), false),
    "storage.set" := CapabilityRule(Some("storage"), false),
    "storage.delete" := CapabilityRule(Some("storage"), false),
    "storage.list" := CapabilityRule(Some("storage"), false),
    "notification.show" := CapabilityRule(Some("notification.show"), true),
    "clipboard.write" := CapabilityRule(Some("clipboard.write"), true),
    "clipboard.read" := CapabilityRule(Some("clipboard.read"), true),
    "host.openExternal" := CapabilityRule(Some("host.openExternal"), true),
    "network.fetch" := CapabilityRule(Some("network.fetch"), true),
    "system.metrics.get" := CapabilityRule(Some("system.metrics.read"), true),
    "system.metrics.subscribe" := CapabilityRule(Some("system.metrics.read"), false),
    "system.metrics.unsubscribe" := CapabilityRule(Some("system.metrics.read"), false),
    "window.getState" := CapabilityRule(Some("window.manageSelf"), true),
    "window.detach" := CapabilityRule(Some("window.manageSelf"), true),
    "window.dock" := CapabilityRule(Some("window.manageSelf"), true),
    "window.setAlwaysOnTop" := CapabilityRule(Some("window.manageSelf"), true),
    "window.requestAttention" := CapabilityRule(Some("window.manageSelf"), true)]

  const LIMITS := Limits(2097152, 32, 500, 200, 64, 32, 32, 500, 200)

  const SHIPPED := Catalog(1, LIMITS, LAYOUTS + DISPLAYS + INPUTS, ACTIONS, EXPRESSIONS, METHODS)

  ghost predicate ComponentsOk(rules: map<string, ComponentRule>)
  {
    forall name :: name in rules ==> ComponentOk(rules[name]) && name != ""
  }

  lemma PropOk(name: string, rule: ValueRule)
    requires RuleOk(rule)
    ensures ComponentOk(Props(map[name := rule]))
  {
  }

  lemma PropsOk(name: string, rule: ValueRule, other: string, second: ValueRule)
    requires RuleOk(rule) && RuleOk(second)
    ensures ComponentOk(Props(map[name := rule, other := second]))
  {
  }

  lemma KindOk(kind: string, binding: bool)
    requires kind in VALUE_KINDS
    ensures RuleOk(Rule(kind, binding))
  {
  }

  lemma LayoutsOk()
    ensures ComponentsOk(LAYOUTS)
  {
    assert RuleOk(SIZE) && RuleOk(COLUMNS);
    PropOk("padding", SIZE);
    PropOk("spacing", SIZE);
    PropsOk("columns", COLUMNS, "spacing", SIZE);
    assert ComponentOk(Props(map[]));
  }

  lemma DisplaysOk()
    ensures ComponentsOk(DISPLAYS)
  {
    assert RuleOk(STYLES) && RuleOk(ICONS) && RuleOk(LABEL);
    assert RuleOk(Rule("string", true)) && RuleOk(Rule("number", true)) && RuleOk(Rule("numberList", true));
    PropsOk("text", Rule("string", true), "style", STYLES);
    PropOk("name", ICONS);
    PropOk("alt", LABEL);
    PropOk("label", Rule("string", true));
    PropOk("value", Rule("number", true));
    PropOk("values", Rule("numberList", true));
    PropsOk("label", Rule("string", true), "value", Rule("any", true));
    PropOk("title", LABEL);
    PropOk("message", LABEL);
  }

  lemma InputsOk()
    ensures ComponentsOk(INPUTS)
  {
  }

  predicate NamesNoMethod(rule: ActionRule)
  {
    "method" !in rule.requiredFields && "method" !in rule.optionalFields
  }

  ghost predicate ActionsOk(rules: map<string, ActionRule>)
  {
    forall name :: name in rules ==>
      ActionFieldsOk(rules[name]) && (name != ND.INVOKE ==> NamesNoMethod(rules[name]))
  }

  lemma ChangeOk(kind: string, binding: bool)
    requires kind in VALUE_KINDS
    ensures var rule := ActionRule(["path", "value"], [], Some(Rule(kind, binding)));
            ActionFieldsOk(rule) && NamesNoMethod(rule)
  {
    KindOk(kind, binding);
  }

  lemma OtherActionsOk()
    ensures ActionFieldsOk(ActionRule(["path"], [], None)) && NamesNoMethod(ActionRule(["path"], [], None))
    ensures var rule := ActionRule(["path"], ["value"], Some(Rule("number", true)));
            ActionFieldsOk(rule) && NamesNoMethod(rule)
    ensures ActionFieldsOk(ActionRule(["method"], ["path", "params"], None))
  {
    KindOk("number", true);
  }

  lemma ShippedActionsOk()
    ensures ActionsOk(ACTIONS)
  {
    ChangeOk("any", true);
    ChangeOk("timerConfiguration", false);
    OtherActionsOk();
  }

  ghost predicate ExpressionsOk(rules: map<string, ExpressionRule>)
  {
    forall name :: name in rules ==>
      && ExpressionOk(rules[name])
      && (rules[name].constraint == "nonNegative" ==> rules[name].maxArgs == Some(1))
      && (rules[name].constraint == "nonZeroDivisor" ==> rules[name].maxArgs == Some(2))
  }

  lemma ShippedExpressionsOk()
    ensures ExpressionsOk(EXPRESSIONS)
  {
  }

  lemma ChecksPass(catalog: Catalog)
    requires catalog.version == 1 && ComponentsOk(catalog.components)
    requires ActionsOk(catalog.actions) && ExpressionsOk(catalog.expressions)
    ensures CatalogOk(catalog) && SA.OnlyInvokeNamesMethods(catalog)
    ensures DA.GuardsFixed(catalog) && "" !in catalog.components
  {
  }

  lemma MergedOk(a: map<string, ComponentRule>, b: map<string, ComponentRule>)
    requires ComponentsOk(a) && ComponentsOk(b)
    ensures ComponentsOk(a + b)
  {
  }

  /** The catalog passes the generator's checks and meets every condition of the agreements. */
  lemma ShippedOk()
    ensures CatalogOk(SHIPPED) && SA.OnlyInvokeNamesMethods(SHIPPED)
    ensures DA.GuardsFixed(SHIPPED) && DA.LimitsFixed(SHIPPED)
  {
    LayoutsOk();
    DisplaysOk();
    InputsOk();
    MergedOk(LAYOUTS, DISPLAYS);
    MergedOk(LAYOUTS + DISPLAYS, INPUTS);
    ShippedActionsOk();
    ShippedExpressionsOk();
    ChecksPass(SHIPPED);
  }

  /** With this catalog, what the validator accepts is valid under the schema, and decoded unless it holds a trap. */
  lemma AcceptedIsShared(c: Context, document: Value)
    requires c.catalog == SHIPPED && SA.PathPatterns(c.matches) && ND.DocumentOk(c, document)
    ensures var schema := NS.SchemaOf(SHIPPED);
            SM.Valid(schema.definitions, c.matches, schema.root, document, SM.MAX_REFS)
    ensures T.DocumentOk(DA.Decoding(c), document) <==> DA.TreeTrapFree(SHIPPED, document.fields["root"])
  {
    ShippedOk();
    SA.AcceptedIsValid(c, document);
    DA.AcceptedIsDecoded(c, document);
  }

  // ----- documents of one node -----

  function DocumentOf(root: Value): Value
  {
    Obj(map["schemaVersion" := Int(1), "initialState" := Obj(map[]), "root" := root])
  }

  /** No state, no paths. */
  lemma NoPaths()
    ensures StatePaths.IsIndex(map[], map[])
  {
  }

  lemma EmptySize()
    ensures Size(Obj(map[])) == 1
  {
    SizeOfObject(map[]);
    assert FieldSizes(map[]) == map[];
  }

  lemma FieldSizesWith(o: Object, key: string, v: Value)
    ensures FieldSizes(o[key := v]) == FieldSizes(o)[key := Size(v)]
  {
  }

  lemma SizeWith(o: Object, key: string, v: Value)
    requires key !in o
    ensures Size(Obj(o[key := v])) == Size(Obj(o)) + Size(v)
  {
    SizeOfObject(o);
    SizeOfObject(o[key := v]);
    FieldSizesWith(o, key, v);
    TotalAdd(FieldSizes(o), key, Size(v));
  }

  lemma LeafCounts(catalog: Catalog, o: Object)
    requires "children" !in o
    ensures ND.AllDistinct(ND.Ids(Obj(o))) && ND.Nodes(Obj(o)) == 1
    ensures ND.Data(catalog, Obj(o)) == ND.OwnData(catalog, o)
  {
    ND.Unfolded(catalog, Obj(o));
  }

  lemma LeafAccepted(c: Context, o: Object)
    requires c.catalog.limits == LIMITS && "children" !in o
    requires ND.NodeLocal(c, map[], o) && ND.OwnData(c.catalog, o) <= 100
    ensures ND.DocumentOk(c, DocumentOf(Obj(o)))
  {
    LeafCounts(c.catalog, o);
    NoPaths();
    EmptySize();
    assert ND.NodeFits(c, map[], Obj(o), 1);
  }

  // ----- a trap -----

  const TRAP := Obj(map["op" := Int(1), "args" := Arr([])])

  lemma TrapSize()
    ensures Size(TRAP) == 3
  {
    EmptySize();
    SizeOfArray([]);
    SizeWith(map[], "op", Int(1));
    SizeWith(map["op" := Int(1)], "args", Arr([]));
  }

  /** A component with a prop that is bindable and may be anything. */
  predicate Bindable(catalog: Catalog, component: string, prop: string)
  {
    && component in catalog.components && catalog.components[component].requiredProps == []
    && prop in catalog.components[component].allowedProps
    && catalog.components[component].allowedProps[prop] == Rule("any", true)
  }

  function LeafOf(component: string, prop: string): Object
  {
    map["id" := Str("n"), "type" := Str(component), "props" := Obj(map[prop := TRAP])]
  }

  lemma TrapFits(c: Context, component: string, prop: string)
    requires Bindable(c.catalog, component, prop) && c.catalog.limits == LIMITS
    ensures ND.PropsFit(c, map[], c.catalog.components[component], map[prop := TRAP])
  {
    DA.TrapsDiffer(c, map[], Rule("any", true));
    assert ND.PropOk(c, map[], c.catalog.components[component], prop, TRAP);
  }

  lemma LeafLocal(c: Context, component: string, prop: string)
    requires Bindable(c.catalog, component, prop) && c.catalog.limits == LIMITS
    requires component != "Slider" && prop != "valuePath"
    ensures ND.NodeLocal(c, map[], LeafOf(component, prop))
  {
    var o := LeafOf(component, prop);
    TrapFits(c, component, prop);
    assert ND.ObjectPart(o, "props") == map[prop := TRAP] && ND.ObjectPart(o, "events") == map[];
    assert Text.Trim("n") == "n";
  }

  lemma LeafProps(prop: string)
    ensures Total(FieldSizes(map[prop := TRAP])) == 3
  {
    TrapSize();
    EmptySize();
    SizeWith(map[], prop, TRAP);
    SizeOfObject(map[prop := TRAP]);
  }

  lemma NoEvents(catalog: Catalog)
    ensures Total(ND.EventSizes(catalog, map[])) == 0
  {
    assert ND.EventSizes(catalog, map[]) == map[];
  }

  lemma LeafData(catalog: Catalog, component: string, prop: string)
    ensures ND.OwnData(catalog, LeafOf(component, prop)) == 3
  {
    LeafProps(prop);
    NoEvents(catalog);
  }

  lemma LeafTrapped(catalog: Catalog, component: string, prop: string)
    requires Bindable(catalog, component, prop)
    ensures !DA.TreeTrapFree(catalog, Obj(LeafOf(component, prop)))
  {
    var o := LeafOf(component, prop);
    assert prop in ND.ObjectPart(o, "props") && ND.ObjectPart(o, "props")[prop] == TRAP;
    assert TRAP.fields.Keys == {"op", "args"};
    assert !DA.PropTrapFree(catalog.components[component], prop, TRAP);
  }

  lemma LeafTaken(c: Context, component: string, prop: string)
    requires Bindable(c.catalog, component, prop) && c.catalog.limits == LIMITS
    requires component != "Slider" && prop != "valuePath"
    ensures ND.DocumentOk(c, DocumentOf(Obj(LeafOf(component, prop))))
  {
    var o := LeafOf(component, prop);
    LeafLocal(c, component, prop);
    LeafData(c.catalog, component, prop);
    LeafAccepted(c, o);
  }

  lemma LeafRefused(c: Context, component: string, prop: string)
    requires Bindable(c.catalog, component, prop) && DA.Alike(c)
    requires ND.DocumentOk(c, DocumentOf(Obj(LeafOf(component, prop))))
    ensures !T.DocumentOk(DA.Decoding(c), DocumentOf(Obj(LeafOf(component, prop))))
  {
    LeafTrapped(c.catalog, component, prop);
    DA.AcceptedIsDecoded(c, DocumentOf(Obj(LeafOf(component, prop))));
  }

  lemma KeyValueIsBindable()
    ensures Bindable(SHIPPED, "KeyValue", "value")
  {
    assert "KeyValue"[0] == 'K' && "Checkbox"[0] == 'C';
    assert "KeyValue" !in INPUTS;
    assert DISPLAYS["KeyValue"] == Props(map["label" := Rule("string", true), "value" := Rule("any", true)]);
  }

  /** A trap does occur: this card of one KeyValue is accepted by the validator and refused by the decoder. */
  lemma TrappedIsRefused(c: Context)
    requires c.catalog == SHIPPED && SA.PathPatterns(c.matches)
    ensures var document := DocumentOf(Obj(LeafOf("KeyValue", "value")));
            ND.DocumentOk(c, document) && !T.DocumentOk(DA.Decoding(c), document)
  {
    ShippedOk();
    KeyValueIsBindable();
    LeafTaken(c, "KeyValue", "value");
    LeafRefused(c, "KeyValue", "value");
  }

  // ----- a method where the validator does not look -----

  /** An action that takes a path and, unlike any of the catalog, a method beside it. */
  const NAMING := ActionRule(["path"], ["method"], None)

  const STOP: Object := map["type" := Str("stopTimer"), "path" := Str("t"), "method" := Null]
  const PRESSED: Object := map["onPressed" := Arr([Obj(STOP)])]
  const BUTTON: Object := map["id" := Str("n"), "type" := Str("Button"), "events" := Obj(PRESSED)]

  predicate Pressable(catalog: Catalog)
  {
    && "Button" in catalog.components && catalog.components["Button"].requiredProps == []
    && "onPressed" in catalog.components["Button"].allowedEvents
    && "stopTimer" in catalog.actions && catalog.actions["stopTimer"] == NAMING
  }

  lemma StopFits(c: Context)
    requires Pressable(c.catalog)
    ensures ND.ActionFits(c, map[], STOP) && ND.ActionData(c.catalog, Obj(STOP)) == 0
  {
    Text.SplitHead("t", '.', "");
    assert Text.Split("t", '.') == ["t"];
  }

  lemma ButtonLocal(c: Context)
    requires Pressable(c.catalog) && c.catalog.limits == LIMITS
    ensures ND.NodeLocal(c, map[], BUTTON)
  {
    StopFits(c);
    assert ND.ActionOk(c, map[], Obj(STOP));
    assert ND.ActionsFit(c, map[], PRESSED["onPressed"]);
    assert Text.Trim("n") == "n";
  }

  lemma ButtonData(c: Context)
    requires Pressable(c.catalog)
    ensures ND.OwnData(c.catalog, BUTTON) == 0
  {
    StopFits(c);
    assert ND.ActionSizes(c.catalog, [Obj(STOP)]) == [0];
    assert [0][..0] == [] && Sum([0]) == 0;
    assert ND.ActionsData(c.catalog, PRESSED["onPressed"]) == 0;
    var sizes := ND.EventSizes(c.catalog, PRESSED);
    assert sizes == map["onPressed" := 0];
    TotalPick(sizes, "onPressed");
    assert sizes - {"onPressed"} == map[];
    assert FieldSizes(map[]) == map[];
    assert ND.ObjectPart(BUTTON, "props") == map[] && ND.ObjectPart(BUTTON, "events") == PRESSED;
  }

  lemma ButtonTaken(c: Context)
    requires Pressable(c.catalog) && c.catalog.limits == LIMITS
    ensures ND.DocumentOk(c, DocumentOf(Obj(BUTTON)))
  {
    ButtonLocal(c);
    ButtonData(c);
    LeafAccepted(c, BUTTON);
  }

  lemma ButtonUnlisted(catalog: Catalog)
    ensures !SA.TreeListed(catalog, Obj(BUTTON))
  {
    assert ND.ObjectPart(BUTTON, "events") == PRESSED && "onPressed" in PRESSED;
    var actions := PRESSED["onPressed"];
    assert !SA.MethodListed(catalog, STOP);
    assert actions.items[0] == Obj(STOP);
    assert !SA.ActionsListed(catalog, actions);
    assert !SA.EventsListed(catalog, BUTTON);
  }

  /** Were another action to name a method, this card would be accepted and yet not valid under the schema. */
  lemma UnlistedIsInvalid(c: Context)
    requires CatalogOk(c.catalog) && Pressable(c.catalog) && c.catalog.limits == LIMITS && SA.PathPatterns(c.matches)
    ensures var schema, document := NS.SchemaOf(c.catalog), DocumentOf(Obj(BUTTON));
            && ND.DocumentOk(c, document)
            && !SM.Valid(schema.definitions, c.matches, schema.root, document, SM.MAX_REFS)
  {
    ButtonTaken(c);
    ButtonUnlisted(c.catalog);
    SA.AcceptedIffListed(c, DocumentOf(Obj(BUTTON)));
  }

  lemma ButtonIsPressable()
    ensures "Button" in SHIPPED.components
    ensures SHIPPED.components["Button"] == ComponentRule(map["label" := Rule("string", true)], [], ["onPressed"])
  {
    assert "Button" in INPUTS;
    assert "Button"[0] == 'B' && "Select"[0] == 'S' && "Slider"[0] == 'S';
  }

  /** Such a catalog passes the generator's checks. */
  lemma NamingIsOk()
    ensures var catalog := SHIPPED.(actions := ACTIONS["stopTimer" := NAMING]);
            CatalogOk(catalog) && Pressable(catalog)
  {
    ShippedOk();
    ButtonIsPressable();
    NamingFieldsOk(SHIPPED);
  }

  lemma NamingFieldsOk(catalog: Catalog)
    requires CatalogOk(catalog)
    ensures CatalogOk(catalog.(actions := catalog.actions["stopTimer" := NAMING]))
  {
    assert ActionFieldsOk(NAMING);
  }
}
