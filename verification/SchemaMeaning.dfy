/**
 What the generated schema accepts, told without schemas: literals within their rule, calls, actions,
 nodes and documents.
 */
module SchemaMeaning {
  import opened Prelude
  import opened Json
  import opened NativeCatalog
  import opened SchemaModel
  import opened NativeSchema
  import opened SchemaAgreement
  import NR = NativeRules
  import StringOrder
  import Text

  type Patterns = (string, string) -> bool

  // ----- literals -----

  predicate Numeric(v: Value)
  {
    v.Int? || v.Dec?
  }

  /** A number without a fraction, however it is written. */
  predicate Whole(v: Value)
  {
    v.Int? || (v.Dec? && v.dec.Floor as real == v.dec)
  }

  predicate AtLeast(v: Value, bound: real)
  {
    match v
    case Int(i) => i as real >= bound
    case Dec(r) => r >= bound
    case _ => true
  }

  predicate AtMost(v: Value, bound: real)
  {
    match v
    case Int(i) => i as real <= bound
    case Dec(r) => r <= bound
    case _ => true
  }

  predicate IsTimer(v: Value)
  {
    && v.Obj? && "intervalMs" in v.fields && "delta" in v.fields
    && v.fields.Keys <= {"intervalMs", "delta", "stopAt"}
    && Whole(v.fields["intervalMs"]) && AtLeast(v.fields["intervalMs"], 1.0) && Numeric(v.fields["delta"])
    && ("stopAt" in v.fields ==> Numeric(v.fields["stopAt"]))
  }

  predicate OfRuleKind(kind: string, v: Value)
  {
    match kind
    case "string" => v.Str?
    case "number" => Numeric(v)
    case "integer" => Whole(v)
    case "boolean" => v.Bool?
    case "object" => v.Obj?
    case "stringList" => v.Arr? && forall i :: 0 <= i < |v.items| ==> v.items[i].Str?
    case "numberList" => v.Arr? && forall i :: 0 <= i < |v.items| ==> Numeric(v.items[i])
    case "timerConfiguration" => IsTimer(v)
    case _ => true
  }

  /** Of the rule's kind, within its bounds, among its values, long enough, matching, without repeats. */
  predicate WithinRule(m: Patterns, rule: ValueRule, v: Value)
  {
    && OfRuleKind(rule.kind, v)
    && (rule.minimum.Some? ==> AtLeast(v, rule.minimum.value))
    && (rule.maximum.Some? ==> AtMost(v, rule.maximum.value))
    && (rule.enum != [] ==> v.Str? && v.text in rule.enum)
    && (v.Str? && rule.minLength.Some? ==> |v.text| >= rule.minLength.value)
    && (v.Str? && rule.pattern != "" ==> m(rule.pattern, v.text))
    && (rule.uniqueItems && v.Arr? ==> forall i, j :: 0 <= i < j < |v.items| ==> v.items[i] != v.items[j])
  }

  lemma ListIff(d: Definitions, m: Patterns, s: Schema, v: Value, refs: nat)
    requires s.items.Some? && s.properties == map[] && s.oneOf == [] && s.anyOf == [] && s.ref.None?
    ensures Valid(d, m, s, v, refs) <==>
              AssertionsHold(m, s, v)
              && (v.Arr? ==> forall i :: 0 <= i < |v.items| ==> Valid(d, m, s.items.value, v.items[i], MAX_REFS))
  {
  }

  lemma ItemsIff(d: Definitions, m: Patterns, kind: Kind, v: Value)
    requires v.Arr?
    ensures (forall i :: 0 <= i < |v.items| ==> Valid(d, m, OfKind(kind), v.items[i], MAX_REFS)) <==>
              forall i :: 0 <= i < |v.items| ==> HasKind(v.items[i], kind)
  {
    forall i | 0 <= i < |v.items|
      ensures Valid(d, m, OfKind(kind), v.items[i], MAX_REFS) <==> HasKind(v.items[i], kind)
    {
      PlainValid(d, m, OfKind(kind), v.items[i], MAX_REFS);
    }
  }

  lemma ClosedIff(d: Definitions, m: Patterns, properties: map<string, Schema>, required: seq<string>, v: Value,
                  refs: nat)
    ensures Valid(d, m, Closed(properties, required), v, refs) <==>
              && v.Obj? && v.fields.Keys <= properties.Keys && (forall name :: name in required ==> name in v.fields)
              && forall name :: name in v.fields ==> Valid(d, m, properties[name], v.fields[name], MAX_REFS)
  {
    var s := Closed(properties, required);
    if Valid(d, m, s, v, refs) {
      forall name | name in v.fields ensures Valid(d, m, properties[name], v.fields[name], MAX_REFS) {
        PropertyValid(d, m, s, v.fields, name, refs);
      }
    } else if v.Obj? && v.fields.Keys <= properties.Keys && (forall name :: name in required ==> name in v.fields)
              && forall name :: name in v.fields ==> Valid(d, m, properties[name], v.fields[name], MAX_REFS) {
      ClosedValid(d, m, properties, required, v.fields, refs);
    }
  }

  lemma TimerPartIff(d: Definitions, m: Patterns, name: string, v: Value)
    requires name in {"intervalMs", "delta", "stopAt"}
    ensures Valid(d, m, TIMER_SCHEMA.properties[name], v, MAX_REFS) <==>
              if name == "intervalMs" then Whole(v) && AtLeast(v, 1.0) else Numeric(v)
  {
    PlainValid(d, m, TIMER_SCHEMA.properties[name], v, MAX_REFS);
  }

  lemma TimerIff(d: Definitions, m: Patterns, v: Value, refs: nat)
    ensures Valid(d, m, TIMER_SCHEMA, v, refs) <==> IsTimer(v)
  {
    var p := TIMER_SCHEMA.properties;
    ClosedIff(d, m, p, TIMER_SCHEMA.required, v, refs);
    assert p.Keys == {"intervalMs", "delta", "stopAt"};
    if v.Obj? && v.fields.Keys <= p.Keys {
      forall name | name in v.fields
        ensures Valid(d, m, p[name], v.fields[name], MAX_REFS) <==>
                  if name == "intervalMs" then Whole(v.fields[name]) && AtLeast(v.fields[name], 1.0)
                  else Numeric(v.fields[name])
      {
        TimerPartIff(d, m, name, v.fields[name]);
      }
    }
  }

  lemma PlainLiteralIff(d: Definitions, m: Patterns, rule: ValueRule, v: Value, refs: nat)
    requires RuleOk(rule) && rule.kind !in {"stringList", "numberList", "timerConfiguration"}
    ensures Valid(d, m, LiteralSchema(rule), v, refs) <==> WithinRule(m, rule, v)
  {
    PlainValid(d, m, LiteralSchema(rule), v, refs);
  }

  lemma StringListIff(d: Definitions, m: Patterns, rule: ValueRule, v: Value, refs: nat)
    requires RuleOk(rule) && rule.kind == "stringList"
    ensures Valid(d, m, LiteralSchema(rule), v, refs) <==> WithinRule(m, rule, v)
  {
    ListIff(d, m, LiteralSchema(rule), v, refs);
    if v.Arr? {
      ItemsIff(d, m, StringKind, v);
    }
  }

  lemma NumberListIff(d: Definitions, m: Patterns, rule: ValueRule, v: Value, refs: nat)
    requires RuleOk(rule) && rule.kind == "numberList"
    ensures Valid(d, m, LiteralSchema(rule), v, refs) <==> WithinRule(m, rule, v)
  {
    ListIff(d, m, LiteralSchema(rule), v, refs);
    if v.Arr? {
      ItemsIff(d, m, NumberKind, v);
    }
  }

  lemma TimerLiteralIff(d: Definitions, m: Patterns, rule: ValueRule, v: Value, refs: nat)
    requires TimerDef in d && d[TimerDef] == TIMER_SCHEMA && refs > 0
    requires RuleOk(rule) && rule.kind == "timerConfiguration"
    ensures Valid(d, m, LiteralSchema(rule), v, refs) <==> WithinRule(m, rule, v)
  {
    TimerIff(d, m, v, refs - 1);
  }

  /** A value is valid under the schema of a literal exactly if it is within the rule. */
  lemma LiteralIff(d: Definitions, catalog: Catalog, m: Patterns, rule: ValueRule, v: Value, refs: nat)
    requires Defines(d, catalog) && RuleOk(rule) && refs > 0
    ensures Valid(d, m, LiteralSchema(rule), v, refs) <==> WithinRule(m, rule, v)
  {
    match rule.kind
    case "stringList" => StringListIff(d, m, rule, v, refs);
    case "numberList" => NumberListIff(d, m, rule, v, refs);
    case "timerConfiguration" => TimerLiteralIff(d, m, rule, v, refs);
    case _ => PlainLiteralIff(d, m, rule, v, refs);
  }

  // ----- bound values -----

  predicate HasFields(v: Value, fields: set<string>)
  {
    v.Obj? && v.fields.Keys == fields
  }

  /** Only a path, into the state. */
  predicate IsPathBinding(v: Value)
  {
    HasFields(v, {"path"}) && v.fields["path"].Str? && NR.ValidExpressionPath(v.fields["path"].text)
  }

  /** A known operator and as many arguments as it takes. */
  predicate IsCall(catalog: Catalog, v: Value)
  {
    && HasFields(v, {"op", "args"}) && v.fields["op"].Str? && v.fields["args"].Arr?
    && v.fields["op"].text in catalog.expressions
    && var rule, n := catalog.expressions[v.fields["op"].text], |v.fields["args"].items|;
       n >= rule.minArgs && (rule.maxArgs.Some? ==> n <= rule.maxArgs.value)
  }

  predicate IsCallBinding(catalog: Catalog, v: Value)
  {
    HasFields(v, {"expr"}) && IsCall(catalog, v.fields["expr"])
  }

  /** A value for a prop or an action: a literal or, where the rule allows it, bound to the state. */
  predicate MeetsRule(catalog: Catalog, m: Patterns, rule: ValueRule, v: Value)
  {
    || WithinRule(m, rule, v)
    || (rule.binding && (IsPathBinding(v) || IsCallBinding(catalog, v) || IsCall(catalog, v)))
  }

  /** The instance is accepted by the branch of its own name. */
  ghost predicate ByOwnBranch(d: Definitions, m: Patterns, branches: seq<Schema>, names: seq<string>, key: string,
                              v: Value, refs: nat)
    requires |branches| == |names|
  {
    && v.Obj? && key in v.fields
    && exists at :: 0 <= at < |names| && v.fields[key] == Str(names[at]) && Valid(d, m, branches[at], v, refs)
  }

  lemma BranchNames(d: Definitions, m: Patterns, branch: Schema, key: string, name: string, v: Value, refs: nat)
    requires Tagged(branch, key, name) && Valid(d, m, branch, v, refs)
    ensures v.Obj? && key in v.fields && v.fields[key] == Str(name)
  {
    ClosedIff(d, m, branch.properties, branch.required, v, refs);
    PlainValid(d, m, Const(name), v.fields[key], MAX_REFS);
  }

  /** A definition with one branch for each name accepts through the branch of the instance's own name. */
  lemma BranchIff(d: Definitions, m: Patterns, definition: Definition, branches: seq<Schema>, names: seq<string>,
                  key: string, v: Value, refs: nat)
    requires definition in d && d[definition] == ANYTHING.(oneOf := branches) && branches != []
    requires Discriminated(branches, names, key)
    ensures Valid(d, m, Ref(definition), v, refs + 1) <==> ByOwnBranch(d, m, branches, names, key, v, refs)
  {
    var target := d[definition];
    RefValid(d, m, definition, target, v, refs + 1);
    if Valid(d, m, target, v, refs) {
      assert ExactlyOne(d, m, target, v, refs);
      var i :| 0 <= i < |branches| && Valid(d, m, branches[i], v, refs);
      assert Tagged(branches[i], key, names[i]);
      BranchNames(d, m, branches[i], key, names[i], v, refs);
    }
    if ByOwnBranch(d, m, branches, names, key, v, refs) {
      var at :| 0 <= at < |names| && v.fields[key] == Str(names[at]) && Valid(d, m, branches[at], v, refs);
      OneBranch(d, m, definition, branches, names, key, v.fields, at, refs);
    }
  }

  lemma CallBranchIff(d: Definitions, m: Patterns, catalog: Catalog, name: string, v: Value, refs: nat)
    requires name in catalog.expressions
    ensures Valid(d, m, ExpressionSchema(name, catalog.expressions[name]), v, refs) <==>
              IsCall(catalog, v) && v.fields["op"].text == name
  {
    var s := ExpressionSchema(name, catalog.expressions[name]);
    ClosedIff(d, m, s.properties, s.required, v, refs);
    if HasFields(v, {"op", "args"}) {
      PlainValid(d, m, s.properties["op"], v.fields["op"], MAX_REFS);
      PlainValid(d, m, s.properties["args"], v.fields["args"], MAX_REFS);
    }
  }

  lemma CallIff(d: Definitions, m: Patterns, catalog: Catalog, v: Value, refs: nat)
    requires Defines(d, catalog) && catalog.expressions != map[] && refs > 0
    ensures Valid(d, m, Ref(ExpressionDef), v, refs) <==> IsCall(catalog, v)
  {
    var names, branches := StringOrder.SortedKeys(catalog.expressions.Keys), ExpressionBranches(catalog);
    ExpressionsDiscriminated(catalog);
    Nonempty(catalog.expressions.Keys);
    BranchIff(d, m, ExpressionDef, branches, names, "op", v, refs - 1);
    forall at | 0 <= at < |names|
      ensures Valid(d, m, branches[at], v, refs - 1) <==> IsCall(catalog, v) && v.fields["op"].text == names[at]
    {
      assert names[at] in names;
      CallBranchIff(d, m, catalog, names[at], v, refs - 1);
    }
    if IsCall(catalog, v) {
      assert v.fields["op"].text in names;
    }
  }

  lemma Nonempty(keys: set<string>)
    requires keys != {}
    ensures StringOrder.SortedKeys(keys) != []
  {
    var k :| k in keys;
    assert k in StringOrder.SortedKeys(keys);
  }

  lemma PathBindingIff(d: Definitions, m: Patterns, catalog: Catalog, v: Value, refs: nat)
    requires Defines(d, catalog) && PathPatterns(m) && refs > 0
    ensures Valid(d, m, Ref(PathBindingDef), v, refs) <==> IsPathBinding(v)
  {
    RefValid(d, m, PathBindingDef, PATH_BINDING_SCHEMA, v, refs);
    ClosedIff(d, m, PATH_BINDING_SCHEMA.properties, ["path"], v, refs - 1);
    if HasFields(v, {"path"}) {
      RefValid(d, m, ExpressionPathDef, EXPRESSION_PATH_SCHEMA, v.fields["path"], MAX_REFS);
      PlainValid(d, m, EXPRESSION_PATH_SCHEMA, v.fields["path"], MAX_REFS - 1);
    }
  }

  lemma CallBindingIff(d: Definitions, m: Patterns, catalog: Catalog, v: Value, refs: nat)
    requires Defines(d, catalog) && catalog.expressions != map[] && refs > 0
    ensures Valid(d, m, Ref(ExpressionBindingDef), v, refs) <==> IsCallBinding(catalog, v)
  {
    RefValid(d, m, ExpressionBindingDef, EXPRESSION_BINDING_SCHEMA, v, refs);
    ClosedIff(d, m, EXPRESSION_BINDING_SCHEMA.properties, ["expr"], v, refs - 1);
    if HasFields(v, {"expr"}) {
      CallIff(d, m, catalog, v.fields["expr"], MAX_REFS);
    }
  }

  lemma AnyOfIff(d: Definitions, m: Patterns, s: Schema, v: Value, refs: nat)
    requires s == ANYTHING.(anyOf := s.anyOf) && |s.anyOf| == 4
    ensures Valid(d, m, s, v, refs) <==>
              || Valid(d, m, s.anyOf[0], v, refs) || Valid(d, m, s.anyOf[1], v, refs)
              || Valid(d, m, s.anyOf[2], v, refs) || Valid(d, m, s.anyOf[3], v, refs)
  {
  }

  /** A value is valid under its rule's schema exactly if it meets the rule. */
  lemma ValueIff(d: Definitions, m: Patterns, catalog: Catalog, rule: ValueRule, v: Value)
    requires Defines(d, catalog) && PathPatterns(m) && RuleOk(rule) && catalog.expressions != map[]
    ensures Valid(d, m, ValueSchema(rule), v, MAX_REFS) <==> MeetsRule(catalog, m, rule, v)
  {
    LiteralIff(d, catalog, m, rule, v, MAX_REFS);
    if rule.binding {
      AnyOfIff(d, m, ValueSchema(rule), v, MAX_REFS);
      PathBindingIff(d, m, catalog, v, MAX_REFS);
      CallBindingIff(d, m, catalog, v, MAX_REFS);
      CallIff(d, m, catalog, v, MAX_REFS);
    }
  }

  // ----- actions -----

  predicate Supports(catalog: Catalog, method_: string)
  {
    method_ in catalog.capabilityMethods && catalog.capabilityMethods[method_].nativeSupported
  }

  /** What one field of an action must be, by its name alone. */
  predicate FieldMeets(catalog: Catalog, m: Patterns, rule: ActionRule, field: string, v: Value)
  {
    match field
    case "type" => v.Str?
    case "path" => v.Str? && NR.ValidPath(v.text)
    case "value" => rule.valueRule.Some? && MeetsRule(catalog, m, rule.valueRule.value, v)
    case "method" => v.Str? && Supports(catalog, v.text)
    case "params" => v.Obj?
    case _ => false
  }

  predicate Declared(rule: ActionRule, field: string)
  {
    field in rule.requiredFields || field in rule.optionalFields
  }

  /** A known type, all required fields and no field that is not declared, each as it must be. */
  predicate IsAction(catalog: Catalog, m: Patterns, v: Value)
  {
    && v.Obj? && "type" in v.fields && v.fields["type"].Str? && v.fields["type"].text in catalog.actions
    && var rule := catalog.actions[v.fields["type"].text];
       && (forall f :: f in rule.requiredFields ==> f in v.fields)
       && (forall f :: f in v.fields ==> f == "type" || Declared(rule, f))
       && (forall f :: f in v.fields ==> FieldMeets(catalog, m, rule, f, v.fields[f]))
  }

  lemma PathFieldIff(d: Definitions, m: Patterns, catalog: Catalog, v: Value)
    requires Defines(d, catalog) && PathPatterns(m)
    ensures Valid(d, m, Ref(StatePathDef), v, MAX_REFS) <==> v.Str? && NR.ValidPath(v.text)
  {
    RefValid(d, m, StatePathDef, STATE_PATH_SCHEMA, v, MAX_REFS);
    PlainValid(d, m, STATE_PATH_SCHEMA, v, MAX_REFS - 1);
    assert Text.Split("", '.') == [""];
    if v.Str? && NR.ValidPath(v.text) {
      assert Text.Split(v.text, '.')[0] != "";
    }
  }

  lemma FieldIff(d: Definitions, m: Patterns, catalog: Catalog, rule: ActionRule, field: string, v: Value)
    requires Defines(d, catalog) && PathPatterns(m) && ActionFieldsOk(rule) && catalog.expressions != map[]
    requires field in {"path", "value", "method", "params"} && (field == "value" ==> rule.valueRule.Some?)
    ensures Valid(d, m, FieldSchema(field, rule, catalog.capabilityMethods), v, MAX_REFS) <==>
              FieldMeets(catalog, m, rule, field, v)
  {
    match field
    case "path" => PathFieldIff(d, m, catalog, v);
    case "value" => ValueIff(d, m, catalog, rule.valueRule.value, v);
    case "method" =>
      PlainValid(d, m, FieldSchema(field, rule, catalog.capabilityMethods), v, MAX_REFS);
    case "params" => PlainValid(d, m, OfKind(ObjectKind), v, MAX_REFS);
  }

  lemma ActionProperties(catalog: Catalog, name: string, rule: ActionRule)
    requires ActionFieldsOk(rule)
    ensures var s := ActionSchema(name, rule, catalog.capabilityMethods);
            && s == Closed(s.properties, s.required)
            && (forall f :: f in s.required <==> f == "type" || f in rule.requiredFields)
            && (forall f :: f in s.properties <==> f == "type" || Declared(rule, f))
            && s.properties["type"] == Const(name)
            && (forall f :: Declared(rule, f) ==>
                  f != "type" && s.properties[f] == FieldSchema(f, rule, catalog.capabilityMethods))
  {
    var fields := rule.requiredFields + rule.optionalFields;
    assert forall f :: Declared(rule, f) <==> f in fields;
  }

  lemma ActionPartIff(d: Definitions, m: Patterns, catalog: Catalog, name: string, rule: ActionRule, f: string,
                      v: Value)
    requires Defines(d, catalog) && PathPatterns(m) && ActionFieldsOk(rule) && catalog.expressions != map[]
    requires f == "type" || Declared(rule, f)
    ensures f in ActionSchema(name, rule, catalog.capabilityMethods).properties
    ensures Valid(d, m, ActionSchema(name, rule, catalog.capabilityMethods).properties[f], v, MAX_REFS) <==>
              if f == "type" then v == Str(name) else FieldMeets(catalog, m, rule, f, v)
  {
    ActionProperties(catalog, name, rule);
    if f == "type" {
      PlainValid(d, m, Const(name), v, MAX_REFS);
    } else {
      FieldIff(d, m, catalog, rule, f, v);
    }
  }

  /** The fields of an action of this name. */
  predicate FieldsMeet(catalog: Catalog, m: Patterns, name: string, rule: ActionRule, a: Object)
  {
    && "type" in a && a["type"] == Str(name)
    && (forall f :: f in rule.requiredFields ==> f in a)
    && (forall f :: f in a ==> f == "type" || Declared(rule, f))
    && (forall f :: f in a && f != "type" ==> FieldMeets(catalog, m, rule, f, a[f]))
  }

  lemma FieldsMeetIff(catalog: Catalog, m: Patterns, name: string, v: Value)
    requires name in catalog.actions
    ensures IsAction(catalog, m, v) && v.fields["type"].text == name <==>
              v.Obj? && FieldsMeet(catalog, m, name, catalog.actions[name], v.fields)
  {
  }

  lemma ActionBranchIff(d: Definitions, m: Patterns, catalog: Catalog, name: string, v: Value, refs: nat)
    requires Defines(d, catalog) && PathPatterns(m) && CatalogOk(catalog) && catalog.expressions != map[]
    requires name in catalog.actions
    ensures Valid(d, m, ActionSchema(name, catalog.actions[name], catalog.capabilityMethods), v, refs) <==>
              v.Obj? && FieldsMeet(catalog, m, name, catalog.actions[name], v.fields)
  {
    var rule := catalog.actions[name];
    assert ActionFieldsOk(rule);
    var s := ActionSchema(name, rule, catalog.capabilityMethods);
    ActionProperties(catalog, name, rule);
    ClosedIff(d, m, s.properties, s.required, v, refs);
    if v.Obj? && v.fields.Keys <= s.properties.Keys {
      forall f | f in v.fields
        ensures Valid(d, m, s.properties[f], v.fields[f], MAX_REFS) <==>
                  if f == "type" then v.fields[f] == Str(name) else FieldMeets(catalog, m, rule, f, v.fields[f])
      {
        ActionPartIff(d, m, catalog, name, rule, f, v.fields[f]);
      }
    }
  }

  /** An action is valid exactly if it is one. */
  lemma ActionIff(d: Definitions, m: Patterns, catalog: Catalog, v: Value)
    requires Defines(d, catalog) && PathPatterns(m) && CatalogOk(catalog)
    requires catalog.expressions != map[] && catalog.actions != map[]
    ensures Valid(d, m, Ref(ActionDef), v, MAX_REFS) <==> IsAction(catalog, m, v)
  {
    var names, branches := StringOrder.SortedKeys(catalog.actions.Keys), ActionBranches(catalog);
    ActionsDiscriminated(catalog);
    Nonempty(catalog.actions.Keys);
    BranchIff(d, m, ActionDef, branches, names, "type", v, MAX_REFS - 1);
    forall at | 0 <= at < |names|
      ensures Valid(d, m, branches[at], v, MAX_REFS - 1) <==>
                IsAction(catalog, m, v) && v.fields["type"].text == names[at]
    {
      assert names[at] in names;
      ActionBranchIff(d, m, catalog, names[at], v, MAX_REFS - 1);
      FieldsMeetIff(catalog, m, names[at], v);
    }
    if IsAction(catalog, m, v) {
      assert v.fields["type"].text in names;
    }
  }

  // ----- nodes -----

  predicate AreActions(catalog: Catalog, m: Patterns, v: Value)
  {
    && v.Arr? && |v.items| <= catalog.limits.maxActionsPerEvent
    && forall i :: 0 <= i < |v.items| ==> IsAction(catalog, m, v.items[i])
  }

  predicate AreProps(catalog: Catalog, m: Patterns, rule: ComponentRule, v: Value)
  {
    && v.Obj? && (forall p :: p in rule.requiredProps ==> p in v.fields)
    && forall p :: p in v.fields ==>
         p in rule.allowedProps && MeetsRule(catalog, m, rule.allowedProps[p], v.fields[p])
  }

  predicate AreEvents(catalog: Catalog, m: Patterns, rule: ComponentRule, v: Value)
  {
    v.Obj? && forall e :: e in v.fields ==> e in rule.allowedEvents && AreActions(catalog, m, v.fields[e])
  }

  /** A node of this component, its children aside. */
  predicate NodeMeets(catalog: Catalog, m: Patterns, name: string, rule: ComponentRule, o: Object)
  {
    && "type" in o && o["type"] == Str(name)
    && "id" in o && o["id"].Str? && 1 <= |o["id"].text| <= 100
    && (rule.requiredProps != [] ==> "props" in o)
    && ("props" in o ==> AreProps(catalog, m, rule, o["props"]))
    && ("events" in o ==> AreEvents(catalog, m, rule, o["events"]))
    && (forall f :: f in o ==> f in NODE_FIELDS)
  }

  /** A known component with what it needs and nothing it does not know, and so for all its children. */
  ghost predicate IsNode(catalog: Catalog, m: Patterns, v: Value)
    decreases v
  {
    && v.Obj? && "type" in v.fields && v.fields["type"].Str? && v.fields["type"].text in catalog.components
    && NodeMeets(catalog, m, v.fields["type"].text, catalog.components[v.fields["type"].text], v.fields)
    && ("children" in v.fields ==>
          && v.fields["children"].Arr? && |v.fields["children"].items| <= catalog.limits.maxChildrenPerNode
          && forall i :: 0 <= i < |v.fields["children"].items| ==> IsNode(catalog, m, v.fields["children"].items[i]))
  }

  /** The catalog names at least one component, action and operator. */
  predicate Inhabited(catalog: Catalog)
  {
    catalog.components != map[] && catalog.actions != map[] && catalog.expressions != map[]
  }

  ghost predicate Ready(d: Definitions, m: Patterns, catalog: Catalog)
  {
    Defines(d, catalog) && PathPatterns(m) && CatalogOk(catalog) && Inhabited(catalog)
  }

  lemma EventIff(d: Definitions, m: Patterns, catalog: Catalog, v: Value)
    requires Ready(d, m, catalog)
    ensures Valid(d, m, EventSchema(catalog.limits.maxActionsPerEvent), v, MAX_REFS) <==> AreActions(catalog, m, v)
  {
    ListIff(d, m, EventSchema(catalog.limits.maxActionsPerEvent), v, MAX_REFS);
    if v.Arr? {
      forall i | 0 <= i < |v.items|
        ensures Valid(d, m, Ref(ActionDef), v.items[i], MAX_REFS) <==> IsAction(catalog, m, v.items[i])
      {
        ActionIff(d, m, catalog, v.items[i]);
      }
    }
  }

  lemma EventsIff(d: Definitions, m: Patterns, catalog: Catalog, rule: ComponentRule, v: Value)
    requires Ready(d, m, catalog)
    ensures Valid(d, m, Closed(EventSchemas(rule.allowedEvents, catalog.limits.maxActionsPerEvent), []), v, MAX_REFS)
            <==> AreEvents(catalog, m, rule, v)
  {
    var p := EventSchemas(rule.allowedEvents, catalog.limits.maxActionsPerEvent);
    ClosedIff(d, m, p, [], v, MAX_REFS);
    assert forall e :: e in p <==> e in rule.allowedEvents;
    if v.Obj? && v.fields.Keys <= p.Keys {
      forall e | e in v.fields
        ensures Valid(d, m, p[e], v.fields[e], MAX_REFS) <==> AreActions(catalog, m, v.fields[e])
      {
        EventIff(d, m, catalog, v.fields[e]);
      }
    }
  }

  lemma PropsIff(d: Definitions, m: Patterns, catalog: Catalog, rule: ComponentRule, v: Value)
    requires Ready(d, m, catalog) && ComponentOk(rule)
    ensures Valid(d, m, Closed(PropSchemas(rule), rule.requiredProps), v, MAX_REFS) <==>
              AreProps(catalog, m, rule, v)
  {
    var p := PropSchemas(rule);
    ClosedIff(d, m, p, rule.requiredProps, v, MAX_REFS);
    assert forall name :: name in p <==> name in rule.allowedProps;
    if v.Obj? && v.fields.Keys <= p.Keys {
      forall name | name in v.fields
        ensures Valid(d, m, p[name], v.fields[name], MAX_REFS) <==>
                  MeetsRule(catalog, m, rule.allowedProps[name], v.fields[name])
      {
        assert RuleOk(rule.allowedProps[name]);
        ValueIff(d, m, catalog, rule.allowedProps[name], v.fields[name]);
      }
    }
  }

  lemma ChildrenIff(d: Definitions, m: Patterns, catalog: Catalog, v: Value)
    ensures Valid(d, m, NodePart("children", "", ANYTHING, ANYTHING, catalog.limits.maxChildrenPerNode), v, MAX_REFS)
            <==> && v.Arr? && |v.items| <= catalog.limits.maxChildrenPerNode
                 && forall i :: 0 <= i < |v.items| ==> Valid(d, m, Ref(NodeDef), v.items[i], MAX_REFS)
  {
    ListIff(d, m, NodePart("children", "", ANYTHING, ANYTHING, catalog.limits.maxChildrenPerNode), v, MAX_REFS);
  }

  /** What one field of a node must be. */
  ghost predicate PartMeets(d: Definitions, m: Patterns, catalog: Catalog, name: string, rule: ComponentRule,
                            field: string, v: Value)
  {
    match field
    case "id" => v.Str? && 1 <= |v.text| <= 100
    case "type" => v == Str(name)
    case "props" => AreProps(catalog, m, rule, v)
    case "events" => AreEvents(catalog, m, rule, v)
    case _ =>
      && v.Arr? && |v.items| <= catalog.limits.maxChildrenPerNode
      && forall i :: 0 <= i < |v.items| ==> Valid(d, m, Ref(NodeDef), v.items[i], MAX_REFS)
  }

  function SchemaFor(catalog: Catalog, name: string, rule: ComponentRule): Schema
  {
    ComponentSchema(name, rule, catalog.limits.maxChildrenPerNode, catalog.limits.maxActionsPerEvent)
  }

  function PartSchema(catalog: Catalog, name: string, rule: ComponentRule, field: string): Schema
  {
    NodePart(field, name, Closed(PropSchemas(rule), rule.requiredProps),
             Closed(EventSchemas(rule.allowedEvents, catalog.limits.maxActionsPerEvent), []),
             catalog.limits.maxChildrenPerNode)
  }

  lemma NodeProperties(catalog: Catalog, name: string, rule: ComponentRule)
    ensures var s := SchemaFor(catalog, name, rule);
            && s == Closed(s.properties, s.required) && s.properties.Keys == NODE_FIELDS
            && (forall f :: f in NODE_FIELDS ==> s.properties[f] == PartSchema(catalog, name, rule, f))
            && (forall f :: f in s.required <==> f == "id" || f == "type" || (f == "props" && rule.requiredProps != []))
  {
  }

  lemma IdIff(d: Definitions, m: Patterns, catalog: Catalog, name: string, rule: ComponentRule, v: Value)
    ensures Valid(d, m, PartSchema(catalog, name, rule, "id"), v, MAX_REFS) <==> v.Str? && 1 <= |v.text| <= 100
  {
    PlainValid(d, m, PartSchema(catalog, name, rule, "id"), v, MAX_REFS);
  }

  lemma TypeIff(d: Definitions, m: Patterns, catalog: Catalog, name: string, rule: ComponentRule, v: Value)
    ensures Valid(d, m, PartSchema(catalog, name, rule, "type"), v, MAX_REFS) <==> v == Str(name)
  {
    PlainValid(d, m, Const(name), v, MAX_REFS);
  }

  lemma PropsPartIff(d: Definitions, m: Patterns, catalog: Catalog, name: string, rule: ComponentRule, v: Value)
    requires Ready(d, m, catalog) && ComponentOk(rule)
    ensures Valid(d, m, PartSchema(catalog, name, rule, "props"), v, MAX_REFS) <==> AreProps(catalog, m, rule, v)
  {
    PropsIff(d, m, catalog, rule, v);
  }

  lemma EventsPartIff(d: Definitions, m: Patterns, catalog: Catalog, name: string, rule: ComponentRule, v: Value)
    requires Ready(d, m, catalog)
    ensures Valid(d, m, PartSchema(catalog, name, rule, "events"), v, MAX_REFS) <==> AreEvents(catalog, m, rule, v)
  {
    EventsIff(d, m, catalog, rule, v);
  }

  lemma PartIff(d: Definitions, m: Patterns, catalog: Catalog, name: string, rule: ComponentRule, field: string,
                v: Value)
    requires Ready(d, m, catalog) && ComponentOk(rule) && field in NODE_FIELDS
    ensures Valid(d, m, PartSchema(catalog, name, rule, field), v, MAX_REFS) <==>
              PartMeets(d, m, catalog, name, rule, field, v)
  {
    match field
    case "id" => IdIff(d, m, catalog, name, rule, v);
    case "type" => TypeIff(d, m, catalog, name, rule, v);
    case "props" => PropsPartIff(d, m, catalog, name, rule, v);
    case "events" => EventsPartIff(d, m, catalog, name, rule, v);
    case _ => ChildrenIff(d, m, catalog, v);
  }

  /** All fields of a node, its children by the definition. */
  ghost predicate PartsMeet(d: Definitions, m: Patterns, catalog: Catalog, name: string, rule: ComponentRule, o: Object)
  {
    forall f :: f in o ==> PartMeets(d, m, catalog, name, rule, f, o[f])
  }

  lemma PartsIff(d: Definitions, m: Patterns, catalog: Catalog, name: string, rule: ComponentRule, o: Object)
    requires Ready(d, m, catalog) && ComponentOk(rule) && o.Keys <= NODE_FIELDS
    ensures PartsMeet(d, m, catalog, name, rule, o) <==>
              forall f :: f in o ==> Valid(d, m, PartSchema(catalog, name, rule, f), o[f], MAX_REFS)
  {
    forall f | f in o
      ensures Valid(d, m, PartSchema(catalog, name, rule, f), o[f], MAX_REFS) <==>
                PartMeets(d, m, catalog, name, rule, f, o[f])
    {
      PartIff(d, m, catalog, name, rule, f, o[f]);
    }
  }

  lemma NodeBranchIff(d: Definitions, m: Patterns, catalog: Catalog, name: string, rule: ComponentRule, v: Value,
                      refs: nat)
    requires Ready(d, m, catalog) && ComponentOk(rule)
    ensures Valid(d, m, SchemaFor(catalog, name, rule), v, refs) <==>
              && v.Obj? && v.fields.Keys <= NODE_FIELDS && "id" in v.fields && "type" in v.fields
              && (rule.requiredProps != [] ==> "props" in v.fields)
              && PartsMeet(d, m, catalog, name, rule, v.fields)
  {
    var s := SchemaFor(catalog, name, rule);
    NodeProperties(catalog, name, rule);
    ClosedIff(d, m, s.properties, s.required, v, refs);
    if v.Obj? && v.fields.Keys <= NODE_FIELDS {
      PartsIff(d, m, catalog, name, rule, v.fields);
    }
  }

  /** The children are valid by the definition. */
  ghost predicate ChildrenValid(d: Definitions, m: Patterns, catalog: Catalog, o: Object)
  {
    "children" in o ==>
      && o["children"].Arr? && |o["children"].items| <= catalog.limits.maxChildrenPerNode
      && forall i :: 0 <= i < |o["children"].items| ==> Valid(d, m, Ref(NodeDef), o["children"].items[i], MAX_REFS)
  }

  lemma PartsAreNode(d: Definitions, m: Patterns, catalog: Catalog, name: string, rule: ComponentRule, o: Object)
    ensures o.Keys <= NODE_FIELDS && "id" in o && "type" in o && (rule.requiredProps != [] ==> "props" in o)
            && PartsMeet(d, m, catalog, name, rule, o)
            <==> NodeMeets(catalog, m, name, rule, o) && ChildrenValid(d, m, catalog, o)
  {
  }

  lemma OneNodeIff(d: Definitions, m: Patterns, catalog: Catalog, v: Value)
    requires Ready(d, m, catalog)
    ensures Valid(d, m, Ref(NodeDef), v, MAX_REFS) <==>
              && v.Obj? && "type" in v.fields && v.fields["type"].Str? && v.fields["type"].text in catalog.components
              && NodeMeets(catalog, m, v.fields["type"].text, catalog.components[v.fields["type"].text], v.fields)
              && ChildrenValid(d, m, catalog, v.fields)
  {
    var names, branches := StringOrder.SortedKeys(catalog.components.Keys), ComponentBranches(catalog);
    ComponentsDiscriminated(catalog);
    Nonempty(catalog.components.Keys);
    BranchIff(d, m, NodeDef, branches, names, "type", v, MAX_REFS - 1);
    if v.Obj? {
      forall at | 0 <= at < |names|
        ensures names[at] in catalog.components
        ensures Valid(d, m, branches[at], v, MAX_REFS - 1) <==>
                  NodeMeets(catalog, m, names[at], catalog.components[names[at]], v.fields)
                  && ChildrenValid(d, m, catalog, v.fields)
      {
        assert names[at] in names;
        var rule := catalog.components[names[at]];
        assert ComponentOk(rule);
        NodeBranchIff(d, m, catalog, names[at], rule, v, MAX_REFS - 1);
        PartsAreNode(d, m, catalog, names[at], rule, v.fields);
      }
      if "type" in v.fields && v.fields["type"].Str? && v.fields["type"].text in catalog.components {
        assert v.fields["type"].text in names;
      }
    }
  }

  /** A value is valid as a node exactly if it is a node, and so are all its children, however deep. */
  lemma {:induction false} NodeIff(d: Definitions, m: Patterns, catalog: Catalog, v: Value)
    requires Ready(d, m, catalog)
    ensures Valid(d, m, Ref(NodeDef), v, MAX_REFS) <==> IsNode(catalog, m, v)
    decreases v
  {
    OneNodeIff(d, m, catalog, v);
    if v.Obj? && "children" in v.fields && v.fields["children"].Arr? {
      var children := v.fields["children"].items;
      forall i | 0 <= i < |children|
        ensures Valid(d, m, Ref(NodeDef), children[i], MAX_REFS) <==> IsNode(catalog, m, children[i])
      {
        NodeIff(d, m, catalog, children[i]);
      }
    }
  }

  /** Nothing but the version, an initial state and a root that is a node. */
  ghost predicate IsDocument(catalog: Catalog, m: Patterns, v: Value)
  {
    && HasFields(v, {"schemaVersion", "initialState", "root"})
    && (v.fields["schemaVersion"] == Int(1) || v.fields["schemaVersion"] == Dec(1.0))
    && v.fields["initialState"].Obj? && IsNode(catalog, m, v.fields["root"])
  }

  lemma VersionIff(d: Definitions, m: Patterns, v: Value)
    ensures Valid(d, m, ANYTHING.(constant := Some(Int(1))), v, MAX_REFS) <==> v == Int(1) || v == Dec(1.0)
  {
    PlainValid(d, m, ANYTHING.(constant := Some(Int(1))), v, MAX_REFS);
  }

  lemma StateIff(d: Definitions, m: Patterns, v: Value)
    ensures Valid(d, m, OfKind(ObjectKind), v, MAX_REFS) <==> v.Obj?
  {
    PlainValid(d, m, OfKind(ObjectKind), v, MAX_REFS);
  }

  lemma RootProperties(components: seq<Schema>, actions: seq<Schema>, expressions: seq<Schema>)
    ensures var s := DocumentSchema(1, components, actions, expressions).root;
            && s == Closed(s.properties, ["schemaVersion", "initialState", "root"])
            && s.properties.Keys == {"schemaVersion", "initialState", "root"}
            && s.properties["schemaVersion"] == ANYTHING.(constant := Some(Int(1)))
            && s.properties["initialState"] == OfKind(ObjectKind) && s.properties["root"] == Ref(NodeDef)
  {
  }

  lemma RootIff(d: Definitions, m: Patterns, components: seq<Schema>, actions: seq<Schema>, expressions: seq<Schema>,
                v: Value)
    ensures Valid(d, m, DocumentSchema(1, components, actions, expressions).root, v, MAX_REFS) <==>
              && HasFields(v, {"schemaVersion", "initialState", "root"})
              && (v.fields["schemaVersion"] == Int(1) || v.fields["schemaVersion"] == Dec(1.0))
              && v.fields["initialState"].Obj? && Valid(d, m, Ref(NodeDef), v.fields["root"], MAX_REFS)
  {
    var p := DocumentSchema(1, components, actions, expressions).root.properties;
    RootProperties(components, actions, expressions);
    ClosedIff(d, m, p, ["schemaVersion", "initialState", "root"], v, MAX_REFS);
    if HasFields(v, p.Keys) {
      VersionIff(d, m, v.fields["schemaVersion"]);
      StateIff(d, m, v.fields["initialState"]);
    }
  }

  /** What the generated schema accepts, for every catalog the generator's checks let pass. */
  lemma DocumentIff(catalog: Catalog, m: Patterns, v: Value)
    requires CatalogOk(catalog) && Inhabited(catalog) && PathPatterns(m)
    ensures Builds(catalog)
    ensures Valid(SchemaOf(catalog).definitions, m, SchemaOf(catalog).root, v, MAX_REFS) <==> IsDocument(catalog, m, v)
  {
    var d := SchemaOf(catalog).definitions;
    AcceptedBuilds(catalog);
    SchemaDefines(catalog);
    RootIff(d, m, ComponentBranches(catalog), ActionBranches(catalog), ExpressionBranches(catalog), v);
    if v.Obj? && "root" in v.fields {
      NodeIff(d, m, catalog, v.fields["root"]);
    }
  }
}
