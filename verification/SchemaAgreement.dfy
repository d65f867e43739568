/**
 The validator and the schema generated from the same catalog agree: every document the validator
 accepts is valid under the schema, through exactly one branch at each node, action and expression.
 */
module SchemaAgreement {
  import opened Prelude
  import opened Json
  import opened NativeCatalog
  import opened NativeRules
  import opened NativeDocument
  import opened SchemaModel
  import opened NativeSchema
  import StatePaths
  import StringOrder
  import Text

  /** What the two fixed path patterns of the schema match. */
  ghost predicate PathPatterns(matches: (string, string) -> bool)
  {
    && (forall s :: matches(STATE_PATH_PATTERN, s) <==> ValidPath(s))
    && (forall s :: matches(EXPRESSION_PATH_PATTERN, s) <==> ValidExpressionPath(s))
  }

  /** Only capability.invoke has a method field; the validator checks it there and nowhere else. */
  predicate OnlyInvokeNamesMethods(catalog: Catalog)
  {
    forall name :: name in catalog.actions && name != INVOKE ==>
      "method" !in catalog.actions[name].requiredFields + catalog.actions[name].optionalFields
  }

  ghost predicate Sound(c: Context)
  {
    CatalogOk(c.catalog) && PathPatterns(c.matches)
  }

  ghost predicate Covered(c: Context)
  {
    Sound(c) && OnlyInvokeNamesMethods(c.catalog)
  }

  /** The method field as the schema sees it. */
  predicate MethodListed(catalog: Catalog, a: Object)
  {
    "method" in a ==> a["method"].Str? && a["method"].text in SupportedMethods(catalog.capabilityMethods)
  }

  /** The definitions the references of the schema are looked up in. */
  ghost predicate Defines(d: Definitions, catalog: Catalog)
  {
    && (forall name: Definition :: name in d)
    && d[NodeDef] == ANYTHING.(oneOf := ComponentBranches(catalog))
    && d[ActionDef] == ANYTHING.(oneOf := ActionBranches(catalog))
    && d[ExpressionDef] == ANYTHING.(oneOf := ExpressionBranches(catalog))
    && d[StatePathDef] == STATE_PATH_SCHEMA && d[ExpressionPathDef] == EXPRESSION_PATH_SCHEMA
    && d[PathBindingDef] == PATH_BINDING_SCHEMA && d[ExpressionBindingDef] == EXPRESSION_BINDING_SCHEMA
    && d[TimerDef] == TIMER_SCHEMA
  }

  lemma SchemaDefines(catalog: Catalog)
    ensures Defines(SchemaOf(catalog).definitions, catalog)
  {
    var components, actions, expressions := ComponentBranches(catalog), ActionBranches(catalog),
      ExpressionBranches(catalog);
    DocumentDefines(catalog.version, components, actions, expressions);
  }

  lemma DocumentDefines(version: int, components: seq<Schema>, actions: seq<Schema>, expressions: seq<Schema>)
    ensures var d := DocumentSchema(version, components, actions, expressions).definitions;
            && (forall name: Definition :: name in d)
            && d[NodeDef] == ANYTHING.(oneOf := components) && d[ActionDef] == ANYTHING.(oneOf := actions)
            && d[ExpressionDef] == ANYTHING.(oneOf := expressions)
            && d[StatePathDef] == STATE_PATH_SCHEMA && d[ExpressionPathDef] == EXPRESSION_PATH_SCHEMA
            && d[PathBindingDef] == PATH_BINDING_SCHEMA && d[ExpressionBindingDef] == EXPRESSION_BINDING_SCHEMA
            && d[TimerDef] == TIMER_SCHEMA
  {
    var d := DocumentSchema(version, components, actions, expressions).definitions;
    forall name: Definition ensures name in d {
      assert name.NodeDef? || name.ActionDef? || name.ExpressionDef? || name.StatePathDef? || name.ExpressionPathDef?
             || name.PathBindingDef? || name.ExpressionBindingDef? || name.TimerDef?;
    }
  }

  // ----- schemas without parts, and closed objects -----

  lemma PlainValid(d: Definitions, m: (string, string) -> bool, s: Schema, v: Value, refs: nat)
    requires s.items.None? && s.properties == map[] && s.oneOf == [] && s.anyOf == [] && s.ref.None?
    ensures Valid(d, m, s, v, refs) <==> AssertionsHold(m, s, v)
  {
  }

  lemma ListValid(d: Definitions, m: (string, string) -> bool, s: Schema, v: Value, refs: nat)
    requires v.Arr? && s.items.Some? && s.properties == map[] && s.oneOf == [] && s.anyOf == [] && s.ref.None?
    requires AssertionsHold(m, s, v)
    requires forall i :: 0 <= i < |v.items| ==> Valid(d, m, s.items.value, v.items[i], MAX_REFS)
    ensures Valid(d, m, s, v, refs)
  {
  }

  lemma RefValid(d: Definitions, m: (string, string) -> bool, name: Definition, target: Schema, v: Value, refs: nat)
    requires name in d && d[name] == target && refs > 0
    ensures Valid(d, m, target, v, refs - 1) <==> Valid(d, m, Ref(name), v, refs)
  {
  }

  lemma ClosedValid(d: Definitions, m: (string, string) -> bool, properties: map<string, Schema>, required: seq<string>,
                    o: Object, refs: nat)
    requires o.Keys <= properties.Keys && forall name :: name in required ==> name in o
    requires forall name :: name in o ==> Valid(d, m, properties[name], o[name], MAX_REFS)
    ensures Valid(d, m, Closed(properties, required), Obj(o), refs)
  {
  }

  lemma PropertyValid(d: Definitions, m: (string, string) -> bool, s: Schema, o: Object, key: string, refs: nat)
    requires Valid(d, m, s, Obj(o), refs) && key in o && key in s.properties
    ensures Valid(d, m, s.properties[key], o[key], MAX_REFS)
  {
    var v := Obj(o);
    assert PartsValid(d, m, s, v);
    assert key in v.fields && Valid(d, m, s.properties[key], v.fields[key], MAX_REFS);
  }

  /** A closed object whose discriminator names something else is not valid. */
  lemma NameRejects(d: Definitions, m: (string, string) -> bool, properties: map<string, Schema>, required: seq<string>,
                    o: Object, key: string, name: string, refs: nat)
    requires key in required && key in properties && properties[key] == Const(name)
    requires key in o && o[key] != Str(name)
    ensures !Valid(d, m, Closed(properties, required), Obj(o), refs)
  {
    PlainValid(d, m, Const(name), o[key], MAX_REFS);
    if Valid(d, m, Closed(properties, required), Obj(o), refs) {
      PropertyValid(d, m, Closed(properties, required), o, key, refs);
    }
  }

  /** Branches told apart by a constant property. */
  ghost predicate Discriminated(branches: seq<Schema>, names: seq<string>, key: string)
  {
    && |branches| == |names|
    && (forall i, j :: 0 <= i < j < |names| ==> names[i] != names[j])
    && forall i :: 0 <= i < |names| ==> Tagged(branches[i], key, names[i])
  }

  ghost predicate Tagged(s: Schema, key: string, name: string)
  {
    && s == Closed(s.properties, s.required)
    && key in s.required && key in s.properties && s.properties[key] == Const(name)
  }

  /** The branch of the instance's own name accepts it, so the definition does, through that branch alone. */
  lemma OneBranch(d: Definitions, m: (string, string) -> bool, definition: Definition, branches: seq<Schema>,
                  names: seq<string>, key: string, o: Object, at: nat, refs: nat)
    requires definition in d && d[definition] == ANYTHING.(oneOf := branches)
    requires Discriminated(branches, names, key) && at < |names| && key in o && o[key] == Str(names[at])
    requires Valid(d, m, branches[at], Obj(o), refs)
    ensures Valid(d, m, Ref(definition), Obj(o), refs + 1)
    ensures forall j :: 0 <= j < |branches| ==> (Valid(d, m, branches[j], Obj(o), refs) <==> j == at)
  {
    forall j | 0 <= j < |branches| && j != at ensures !Valid(d, m, branches[j], Obj(o), refs) {
      assert Tagged(branches[j], key, names[j]) && names[j] != names[at];
      NameRejects(d, m, branches[j].properties, branches[j].required, o, key, names[j], refs);
    }
    assert ExactlyOne(d, m, d[definition], Obj(o), refs);
  }

  lemma ComponentsDiscriminated(catalog: Catalog)
    ensures Discriminated(ComponentBranches(catalog), StringOrder.SortedKeys(catalog.components.Keys), "type")
  {
    var names := StringOrder.SortedKeys(catalog.components.Keys);
    StringOrder.KeysDistinct(catalog.components.Keys);
    forall i | 0 <= i < |names| ensures Tagged(ComponentBranches(catalog)[i], "type", names[i]) {
      assert names[i] in names;
    }
  }

  lemma ActionsDiscriminated(catalog: Catalog)
    requires CatalogOk(catalog)
    ensures Discriminated(ActionBranches(catalog), StringOrder.SortedKeys(catalog.actions.Keys), "type")
  {
    var names := StringOrder.SortedKeys(catalog.actions.Keys);
    StringOrder.KeysDistinct(catalog.actions.Keys);
    forall i | 0 <= i < |names| ensures Tagged(ActionBranches(catalog)[i], "type", names[i]) {
      assert names[i] in names;
      var rule := catalog.actions[names[i]];
      var fields := rule.requiredFields + rule.optionalFields;
      assert ActionFieldsOk(rule) && "type" !in fields;
    }
  }

  lemma ExpressionsDiscriminated(catalog: Catalog)
    ensures Discriminated(ExpressionBranches(catalog), StringOrder.SortedKeys(catalog.expressions.Keys), "op")
  {
    var names := StringOrder.SortedKeys(catalog.expressions.Keys);
    StringOrder.KeysDistinct(catalog.expressions.Keys);
    forall i | 0 <= i < |names| ensures Tagged(ExpressionBranches(catalog)[i], "op", names[i]) {
      assert names[i] in names;
    }
  }

  // ----- values -----

  lemma TimerValid(d: Definitions, m: (string, string) -> bool, v: Value, refs: nat)
    requires TimerOk(v)
    ensures Valid(d, m, TIMER_SCHEMA, v, refs)
  {
    var o := v.fields;
    forall name | name in o ensures name in TIMER_SCHEMA.properties
                                     && Valid(d, m, TIMER_SCHEMA.properties[name], o[name], MAX_REFS)
    {
      PlainValid(d, m, TIMER_SCHEMA.properties[name], o[name], MAX_REFS);
    }
    ClosedValid(d, m, TIMER_SCHEMA.properties, TIMER_SCHEMA.required, o, refs);
  }

  lemma StringsValid(d: Definitions, m: (string, string) -> bool, s: Schema, v: Value, refs: nat)
    requires AllStrings(v) && s.items == Some(OfKind(StringKind)) && AssertionsHold(m, s, v)
    requires s.properties == map[] && s.oneOf == [] && s.anyOf == [] && s.ref.None?
    ensures Valid(d, m, s, v, refs)
  {
    forall i | 0 <= i < |v.items| ensures Valid(d, m, OfKind(StringKind), v.items[i], MAX_REFS) {
      PlainValid(d, m, OfKind(StringKind), v.items[i], MAX_REFS);
    }
    ListValid(d, m, s, v, refs);
  }

  lemma NumbersValid(d: Definitions, m: (string, string) -> bool, s: Schema, v: Value, refs: nat)
    requires AllNumbers(v) && s.items == Some(OfKind(NumberKind)) && AssertionsHold(m, s, v)
    requires s.properties == map[] && s.oneOf == [] && s.anyOf == [] && s.ref.None?
    ensures Valid(d, m, s, v, refs)
  {
    forall i | 0 <= i < |v.items| ensures Valid(d, m, OfKind(NumberKind), v.items[i], MAX_REFS) {
      PlainValid(d, m, OfKind(NumberKind), v.items[i], MAX_REFS);
    }
    ListValid(d, m, s, v, refs);
  }

  lemma LiteralAssertions(c: Context, v: Value, rule: ValueRule)
    requires LiteralFits(c, v, rule) && RuleOk(rule)
    ensures AssertionsHold(c.matches, LiteralSchema(rule), v)
  {
  }

  lemma LiteralValid(d: Definitions, c: Context, v: Value, rule: ValueRule, refs: nat)
    requires Defines(d, c.catalog) && LiteralFits(c, v, rule) && RuleOk(rule) && refs > 0
    ensures Valid(d, c.matches, LiteralSchema(rule), v, refs)
  {
    var m, s := c.matches, LiteralSchema(rule);
    LiteralAssertions(c, v, rule);
    if rule.kind == "stringList" {
      StringsValid(d, m, s, v, refs);
    } else if rule.kind == "numberList" {
      NumbersValid(d, m, s, v, refs);
    } else if rule.kind == "timerConfiguration" {
      TimerValid(d, m, v, refs - 1);
    } else {
      PlainValid(d, m, s, v, refs);
    }
  }

  lemma PathBindingValid(d: Definitions, c: Context, v: Value, refs: nat)
    requires Defines(d, c.catalog) && PathPatterns(c.matches) && BindingShape(v) == PathShape
    requires ValidExpressionPath(v.fields["path"].text) && refs > 0
    ensures Valid(d, c.matches, Ref(PathBindingDef), v, refs)
  {
    var m, o := c.matches, v.fields;
    OneKey(o, "path");
    PlainValid(d, m, EXPRESSION_PATH_SCHEMA, o["path"], MAX_REFS - 1);
    RefValid(d, m, ExpressionPathDef, EXPRESSION_PATH_SCHEMA, o["path"], MAX_REFS);
    ClosedValid(d, m, PATH_BINDING_SCHEMA.properties, ["path"], o, refs - 1);
    RefValid(d, m, PathBindingDef, PATH_BINDING_SCHEMA, v, refs);
  }

  lemma OneKey(o: Object, key: string)
    requires |o| == 1 && key in o
    ensures o.Keys == {key}
  {
    assert |o.Keys - {key}| == 0;
  }

  /** What the checker has established of a call it accepts. */
  predicate CallShape(c: Context, o: Object)
  {
    && o.Keys == {"op", "args"} && o["op"].Str? && o["args"].Arr? && o["op"].text in c.catalog.expressions
    && ArityOk(c.catalog.expressions[o["op"].text], |o["args"].items|)
  }

  lemma CallBranchValid(d: Definitions, c: Context, o: Object, refs: nat)
    requires CallShape(c, o)
    ensures var name := o["op"].text;
            Valid(d, c.matches, ExpressionSchema(name, c.catalog.expressions[name]), Obj(o), refs)
  {
    var m, name := c.matches, o["op"].text;
    var s := ExpressionSchema(name, c.catalog.expressions[name]);
    PlainValid(d, m, s.properties["op"], o["op"], MAX_REFS);
    PlainValid(d, m, s.properties["args"], o["args"], MAX_REFS);
    ClosedValid(d, m, s.properties, s.required, o, refs);
  }

  lemma CallChecked(c: Context, paths: Paths, e: Value, depth: nat)
    requires e.Obj? && CheckExpression(c, paths, e, depth).Some?
    ensures CallShape(c, e.fields)
  {
  }

  /** A call goes through its operator's branch and no other. */
  lemma CallBranch(d: Definitions, c: Context, o: Object, refs: nat) returns (at: nat)
    requires Defines(d, c.catalog) && CallShape(c, o)
    ensures var names, branches := StringOrder.SortedKeys(c.catalog.expressions.Keys), ExpressionBranches(c.catalog);
            && at < |names| && names[at] == o["op"].text
            && Valid(d, c.matches, Ref(ExpressionDef), Obj(o), refs + 1)
            && forall i :: 0 <= i < |branches| ==> (Valid(d, c.matches, branches[i], Obj(o), refs) <==> i == at)
  {
    var names, branches := StringOrder.SortedKeys(c.catalog.expressions.Keys), ExpressionBranches(c.catalog);
    assert o["op"].text in names;
    at :| 0 <= at < |names| && names[at] == o["op"].text;
    CallBranchValid(d, c, o, refs);
    ExpressionsDiscriminated(c.catalog);
    OneBranch(d, c.matches, ExpressionDef, branches, names, "op", o, at, refs);
  }

  lemma CallValid(d: Definitions, c: Context, o: Object, refs: nat)
    requires Defines(d, c.catalog) && CallShape(c, o) && refs > 0
    ensures Valid(d, c.matches, Ref(ExpressionDef), Obj(o), refs)
  {
    var at := CallBranch(d, c, o, refs - 1);
  }

  lemma ExprBindingValid(d: Definitions, c: Context, paths: Paths, v: Value, depth: nat, refs: nat)
    requires Defines(d, c.catalog) && BindingShape(v) == ExprShape && refs > 0
    requires CheckExpression(c, paths, v.fields["expr"], depth).Some?
    ensures Valid(d, c.matches, Ref(ExpressionBindingDef), v, refs)
  {
    var m, o := c.matches, v.fields;
    OneKey(o, "expr");
    CallChecked(c, paths, o["expr"], depth);
    CallValid(d, c, o["expr"].fields, MAX_REFS);
    ClosedValid(d, m, EXPRESSION_BINDING_SCHEMA.properties, ["expr"], o, refs - 1);
    RefValid(d, m, ExpressionBindingDef, EXPRESSION_BINDING_SCHEMA, v, refs);
  }

  lemma AnyOfValid(d: Definitions, m: (string, string) -> bool, s: Schema, v: Value, i: nat, refs: nat)
    requires i < |s.anyOf| && Valid(d, m, s.anyOf[i], v, refs) && s == ANYTHING.(anyOf := s.anyOf)
    ensures Valid(d, m, s, v, refs)
  {
  }

  lemma BoundPathValid(d: Definitions, c: Context, paths: Paths, v: Value, rule: ValueRule)
    requires Defines(d, c.catalog) && Sound(c) && rule.binding
    requires BindingShape(v) == PathShape && Evaluate(c, paths, v, 1).Some?
    ensures Valid(d, c.matches, ValueSchema(rule), v, MAX_REFS)
  {
    PathBindingValid(d, c, v, MAX_REFS);
    AnyOfValid(d, c.matches, ValueSchema(rule), v, 1, MAX_REFS);
  }

  lemma BoundExprValid(d: Definitions, c: Context, paths: Paths, v: Value, rule: ValueRule)
    requires Defines(d, c.catalog) && Sound(c) && rule.binding
    requires BindingShape(v) == ExprShape && Evaluate(c, paths, v, 1).Some?
    ensures Valid(d, c.matches, ValueSchema(rule), v, MAX_REFS)
  {
    ExprBindingValid(d, c, paths, v, 2, MAX_REFS);
    AnyOfValid(d, c.matches, ValueSchema(rule), v, 2, MAX_REFS);
  }

  lemma BoundCallValid(d: Definitions, c: Context, paths: Paths, v: Value, rule: ValueRule)
    requires Defines(d, c.catalog) && Sound(c) && rule.binding
    requires BindingShape(v) == Application && Evaluate(c, paths, v, 1).Some?
    ensures Valid(d, c.matches, ValueSchema(rule), v, MAX_REFS)
  {
    CallChecked(c, paths, v, 1);
    CallValid(d, c, v.fields, MAX_REFS);
    AnyOfValid(d, c.matches, ValueSchema(rule), v, 3, MAX_REFS);
  }

  lemma BindingValid(d: Definitions, c: Context, paths: Paths, v: Value, rule: ValueRule)
    requires Defines(d, c.catalog) && Sound(c) && rule.binding
    requires BindingShape(v) != Plain && Evaluate(c, paths, v, 1).Some?
    ensures Valid(d, c.matches, ValueSchema(rule), v, MAX_REFS)
  {
    match BindingShape(v)
    case PathShape => BoundPathValid(d, c, paths, v, rule);
    case ExprShape => BoundExprValid(d, c, paths, v, rule);
    case Application => BoundCallValid(d, c, paths, v, rule);
  }

  lemma ValueValid(d: Definitions, c: Context, paths: Paths, v: Value, rule: ValueRule)
    requires Defines(d, c.catalog) && Sound(c) && RuleOk(rule) && TypeFits(c, paths, v, rule)
    ensures Valid(d, c.matches, ValueSchema(rule), v, MAX_REFS)
  {
    if BindingShape(v) != Plain {
      BindingValid(d, c, paths, v, rule);
    } else {
      LiteralValid(d, c, v, rule, MAX_REFS);
      if rule.binding {
        AnyOfValid(d, c.matches, ValueSchema(rule), v, 0, MAX_REFS);
      }
    }
  }

  // ----- actions -----

  lemma FieldValid(d: Definitions, c: Context, paths: Paths, a: Object, field: string)
    requires Defines(d, c.catalog) && Sound(c) && ActionFits(c, paths, a) && MethodListed(c.catalog, a)
    requires field in a && field != "type"
    ensures Valid(d, c.matches, FieldSchema(field, c.catalog.actions[a["type"].text], c.catalog.capabilityMethods),
                  a[field], MAX_REFS)
  {
    var name := a["type"].text;
    var rule := c.catalog.actions[name];
    assert ActionFieldsOk(rule);
    assert field in rule.requiredFields + rule.optionalFields;
    match field
    case "path" => PathFieldValid(d, c, a[field]);
    case "value" => ValueValid(d, c, paths, a[field], rule.valueRule.value);
    case "method" => MethodValid(d, c, paths, a);
    case _ => PlainValid(d, c.matches, OfKind(ObjectKind), a[field], MAX_REFS);
  }

  lemma PathFieldValid(d: Definitions, c: Context, v: Value)
    requires Defines(d, c.catalog) && PathPatterns(c.matches) && v.Str? && ValidPath(v.text)
    ensures Valid(d, c.matches, Ref(StatePathDef), v, MAX_REFS)
  {
    assert Text.Split("", '.') == [""] && Text.Split(v.text, '.')[0] != "";
    PlainValid(d, c.matches, STATE_PATH_SCHEMA, v, MAX_REFS - 1);
    RefValid(d, c.matches, StatePathDef, STATE_PATH_SCHEMA, v, MAX_REFS);
  }

  /** If only capability.invoke has methods, the validator's own checks list every method. */
  lemma InvokedMethodListed(c: Context, paths: Paths, a: Object)
    requires Covered(c) && ActionFits(c, paths, a)
    ensures MethodListed(c.catalog, a)
  {
    if "method" in a {
      var rule := c.catalog.actions[a["type"].text];
      assert "method" in rule.requiredFields + rule.optionalFields;
      assert InvokeOk(c, paths, a, TextPart(a, "path"));
    }
  }

  lemma MethodValid(d: Definitions, c: Context, paths: Paths, a: Object)
    requires Sound(c) && ActionFits(c, paths, a) && MethodListed(c.catalog, a) && "method" in a
    ensures Valid(d, c.matches, OfKind(StringKind).(enum := Some(SupportedMethods(c.catalog.capabilityMethods))),
                  a["method"], MAX_REFS)
  {
    PlainValid(d, c.matches, OfKind(StringKind).(enum := Some(SupportedMethods(c.catalog.capabilityMethods))),
               a["method"], MAX_REFS);
  }

  lemma ActionFieldsValid(d: Definitions, m: (string, string) -> bool, name: string, rule: ActionRule,
                          capabilities: map<string, CapabilityRule>, a: Object, refs: nat)
    requires ActionFieldsOk(rule) && "type" in a && a["type"] == Str(name)
    requires forall key :: key in a && key != "type" ==>
               key in rule.requiredFields + rule.optionalFields
                 && Valid(d, m, FieldSchema(key, rule, capabilities), a[key], MAX_REFS)
    requires forall key :: key in rule.requiredFields ==> key in a
    ensures Valid(d, m, ActionSchema(name, rule, capabilities), Obj(a), refs)
  {
    var fields := rule.requiredFields + rule.optionalFields;
    var properties := FieldSchemas(name, fields, rule, capabilities);
    assert "type" !in fields;
    PlainValid(d, m, Const(name), a["type"], MAX_REFS);
    ClosedValid(d, m, properties, ["type"] + rule.requiredFields, a, refs);
  }

  lemma ActionFields(c: Context, paths: Paths, a: Object)
    requires Sound(c) && ActionFits(c, paths, a)
    ensures var rule := c.catalog.actions[a["type"].text];
            && ActionFieldsOk(rule)
            && (forall key :: key in a && key != "type" ==> key in rule.requiredFields + rule.optionalFields)
            && (forall key :: key in rule.requiredFields ==> key in a)
  {
    assert ActionFieldsOk(c.catalog.actions[a["type"].text]);
  }

  lemma ActionPartsValid(d: Definitions, c: Context, paths: Paths, a: Object)
    requires Defines(d, c.catalog) && Sound(c) && ActionFits(c, paths, a) && MethodListed(c.catalog, a)
    ensures var rule := c.catalog.actions[a["type"].text];
            forall key :: key in a && key != "type" ==>
              Valid(d, c.matches, FieldSchema(key, rule, c.catalog.capabilityMethods), a[key], MAX_REFS)
  {
    forall key | key in a && key != "type"
      ensures Valid(d, c.matches, FieldSchema(key, c.catalog.actions[a["type"].text], c.catalog.capabilityMethods),
                    a[key], MAX_REFS)
    {
      FieldValid(d, c, paths, a, key);
    }
  }

  lemma ActionBranchValid(d: Definitions, c: Context, paths: Paths, a: Object, refs: nat)
    requires Defines(d, c.catalog) && Sound(c) && ActionFits(c, paths, a) && MethodListed(c.catalog, a)
    ensures var name := a["type"].text;
            Valid(d, c.matches, ActionSchema(name, c.catalog.actions[name], c.catalog.capabilityMethods), Obj(a), refs)
  {
    var name := a["type"].text;
    ActionFields(c, paths, a);
    ActionPartsValid(d, c, paths, a);
    ActionFieldsValid(d, c.matches, name, c.catalog.actions[name], c.catalog.capabilityMethods, a, refs);
  }

  /** An action goes through its type's branch and no other. */
  lemma ActionBranch(d: Definitions, c: Context, paths: Paths, a: Object, refs: nat) returns (at: nat)
    requires Defines(d, c.catalog) && Sound(c) && ActionFits(c, paths, a) && MethodListed(c.catalog, a)
    ensures var names, branches := StringOrder.SortedKeys(c.catalog.actions.Keys), ActionBranches(c.catalog);
            && at < |names| && names[at] == a["type"].text
            && Valid(d, c.matches, Ref(ActionDef), Obj(a), refs + 1)
            && forall i :: 0 <= i < |branches| ==> (Valid(d, c.matches, branches[i], Obj(a), refs) <==> i == at)
  {
    var names, branches := StringOrder.SortedKeys(c.catalog.actions.Keys), ActionBranches(c.catalog);
    assert a["type"].text in names;
    at :| 0 <= at < |names| && names[at] == a["type"].text;
    ActionBranchValid(d, c, paths, a, refs);
    ActionsDiscriminated(c.catalog);
    OneBranch(d, c.matches, ActionDef, branches, names, "type", a, at, refs);
  }

  lemma UnlistedSchemaInvalid(d: Definitions, c: Context, a: Object, name: string, rule: ActionRule, refs: nat)
    requires "method" in a && !MethodListed(c.catalog, a) && "method" in rule.requiredFields + rule.optionalFields
    ensures !Valid(d, c.matches, ActionSchema(name, rule, c.catalog.capabilityMethods), Obj(a), refs)
  {
    var s := ActionSchema(name, rule, c.catalog.capabilityMethods);
    var methods := OfKind(StringKind).(enum := Some(SupportedMethods(c.catalog.capabilityMethods)));
    assert "method" in s.properties && s.properties["method"] == methods;
    PlainValid(d, c.matches, methods, a["method"], MAX_REFS);
    if Valid(d, c.matches, s, Obj(a), refs) {
      PropertyValid(d, c.matches, s, a, "method", refs);
    }
  }

  lemma NoBranch(d: Definitions, m: (string, string) -> bool, definition: Definition, branches: seq<Schema>, v: Value,
                 refs: nat)
    requires definition in d && d[definition] == ANYTHING.(oneOf := branches) && branches != []
    requires forall j :: 0 <= j < |branches| ==> !Valid(d, m, branches[j], v, refs)
    ensures !Valid(d, m, Ref(definition), v, refs + 1)
  {
    RefValid(d, m, definition, d[definition], v, refs + 1);
    assert !ExactlyOne(d, m, d[definition], v, refs);
  }

  /** Whatever the catalog: an accepted action is valid under the schema exactly when its method is a supported one. */
  lemma ActionIffListed(d: Definitions, c: Context, paths: Paths, a: Object)
    requires Defines(d, c.catalog) && Sound(c) && ActionFits(c, paths, a)
    ensures Valid(d, c.matches, Ref(ActionDef), Obj(a), MAX_REFS) <==> MethodListed(c.catalog, a)
  {
    if MethodListed(c.catalog, a) {
      var at := ActionBranch(d, c, paths, a, MAX_REFS - 1);
    } else {
      var names, branches := StringOrder.SortedKeys(c.catalog.actions.Keys), ActionBranches(c.catalog);
      assert a["type"].text in names;
      ActionsDiscriminated(c.catalog);
      ActionFields(c, paths, a);
      forall j | 0 <= j < |branches| ensures !Valid(d, c.matches, branches[j], Obj(a), MAX_REFS - 1) {
        assert Tagged(branches[j], "type", names[j]);
        if names[j] == a["type"].text {
          UnlistedSchemaInvalid(d, c, a, names[j], c.catalog.actions[names[j]], MAX_REFS - 1);
        } else {
          NameRejects(d, c.matches, branches[j].properties, branches[j].required, a, "type", names[j], MAX_REFS - 1);
        }
      }
      NoBranch(d, c.matches, ActionDef, branches, Obj(a), MAX_REFS - 1);
    }
  }

  /** The actions of an event, the events of a node and the nodes of a tree name only supported methods. */
  predicate ActionsListed(catalog: Catalog, actions: Value)
  {
    actions.Arr? ==>
      forall i :: 0 <= i < |actions.items| ==> actions.items[i].Obj? ==> MethodListed(catalog, actions.items[i].fields)
  }

  predicate EventsListed(catalog: Catalog, o: Object)
  {
    forall e :: e in ObjectPart(o, "events") ==> ActionsListed(catalog, ObjectPart(o, "events")[e])
  }

  ghost predicate TreeListed(catalog: Catalog, v: Value)
    decreases v
  {
    v.Obj? ==>
      && EventsListed(catalog, v.fields)
      && forall i :: 0 <= i < |ArrayPart(v.fields, "children")| ==>
         TreeListed(catalog, ArrayPart(v.fields, "children")[i])
  }

  lemma ActionsValid(d: Definitions, c: Context, paths: Paths, actions: Value)
    requires Defines(d, c.catalog) && Sound(c) && ActionsFit(c, paths, actions)
    ensures Valid(d, c.matches, EventSchema(c.catalog.limits.maxActionsPerEvent), actions, MAX_REFS)
            <==> ActionsListed(c.catalog, actions)
  {
    var s := EventSchema(c.catalog.limits.maxActionsPerEvent);
    forall i | 0 <= i < |actions.items|
      ensures actions.items[i].Obj?
      ensures Valid(d, c.matches, Ref(ActionDef), actions.items[i], MAX_REFS) <==>
              MethodListed(c.catalog, actions.items[i].fields)
    {
      assert ActionOk(c, paths, actions.items[i]);
      ActionIffListed(d, c, paths, actions.items[i].fields);
    }
    if ActionsListed(c.catalog, actions) {
      ListValid(d, c.matches, s, actions, MAX_REFS);
    } else {
      var i :| 0 <= i < |actions.items| && !MethodListed(c.catalog, actions.items[i].fields);
      if Valid(d, c.matches, s, actions, MAX_REFS) {
        ItemValid(d, c.matches, s, actions, i, MAX_REFS);
      }
    }
  }

  lemma ItemValid(d: Definitions, m: (string, string) -> bool, s: Schema, v: Value, i: nat, refs: nat)
    requires Valid(d, m, s, v, refs) && v.Arr? && s.items.Some? && i < |v.items|
    ensures Valid(d, m, s.items.value, v.items[i], MAX_REFS)
  {
    assert PartsValid(d, m, s, v);
  }

  // ----- the parts of a node -----

  function EventsSchema(c: Context, rule: ComponentRule): Schema
  {
    Closed(EventSchemas(rule.allowedEvents, c.catalog.limits.maxActionsPerEvent), [])
  }

  lemma EventsValid(d: Definitions, c: Context, paths: Paths, rule: ComponentRule, o: Object)
    requires Defines(d, c.catalog) && Sound(c) && EventsFit(c, paths, rule, ObjectPart(o, "events"))
    ensures Valid(d, c.matches, EventsSchema(c, rule), Obj(ObjectPart(o, "events")), MAX_REFS)
            <==> EventsListed(c.catalog, o)
  {
    var s, events := EventSchema(c.catalog.limits.maxActionsPerEvent), ObjectPart(o, "events");
    forall e | e in events
      ensures e in rule.allowedEvents
      ensures Valid(d, c.matches, s, events[e], MAX_REFS) <==> ActionsListed(c.catalog, events[e])
    {
      assert ActionsFit(c, paths, events[e]);
      ActionsValid(d, c, paths, events[e]);
    }
    if EventsListed(c.catalog, o) {
      ClosedValid(d, c.matches, EventSchemas(rule.allowedEvents, c.catalog.limits.maxActionsPerEvent), [], events,
        MAX_REFS);
    } else {
      var e :| e in events && !ActionsListed(c.catalog, events[e]);
      if Valid(d, c.matches, EventsSchema(c, rule), Obj(events), MAX_REFS) {
        PropertyValid(d, c.matches, EventsSchema(c, rule), events, e, MAX_REFS);
      }
    }
  }

  lemma PropsValid(d: Definitions, c: Context, paths: Paths, rule: ComponentRule, props: Object)
    requires Defines(d, c.catalog) && Sound(c) && ComponentOk(rule) && PropsFit(c, paths, rule, props)
    ensures Valid(d, c.matches, Closed(PropSchemas(rule), rule.requiredProps), Obj(props), MAX_REFS)
  {
    forall name | name in props
      ensures name in rule.allowedProps
              && Valid(d, c.matches, ValueSchema(rule.allowedProps[name]), props[name], MAX_REFS)
    {
      assert PropOk(c, paths, rule, name, props[name]);
      ValueValid(d, c, paths, props[name], rule.allowedProps[name]);
    }
    ClosedValid(d, c.matches, PropSchemas(rule), rule.requiredProps, props, MAX_REFS);
  }

  lemma IdValid(d: Definitions, m: (string, string) -> bool, o: Object)
    requires IdOk(o)
    ensures Valid(d, m, OfKind(StringKind).(minLength := Some(1), maxLength := Some(100)), o["id"], MAX_REFS)
  {
    assert Text.Trim("") == "";
    PlainValid(d, m, OfKind(StringKind).(minLength := Some(1), maxLength := Some(100)), o["id"], MAX_REFS);
  }

  lemma ChildrenValid(d: Definitions, c: Context, children: Value)
    requires children.Arr? && |children.items| <= c.catalog.limits.maxChildrenPerNode
    requires forall i :: 0 <= i < |children.items| ==> Valid(d, c.matches, Ref(NodeDef), children.items[i], MAX_REFS)
    ensures Valid(d, c.matches, ChildrenSchema(c), children, MAX_REFS)
  {
    ListValid(d, c.matches, ChildrenSchema(c), children, MAX_REFS);
  }

  function OwnSchema(c: Context, name: string): Schema
    requires name in c.catalog.components
  {
    ComponentSchema(name, c.catalog.components[name], c.catalog.limits.maxChildrenPerNode,
                    c.catalog.limits.maxActionsPerEvent)
  }

  function ChildrenSchema(c: Context): Schema
  {
    OfKind(ArrayKind).(maxItems := Some(c.catalog.limits.maxChildrenPerNode), items := Some(Ref(NodeDef)))
  }

  /** The schema of the node's own component accepts it, its children being valid. */
  lemma NodeBranchValid(d: Definitions, c: Context, paths: Paths, o: Object, refs: nat)
    requires Defines(d, c.catalog) && Sound(c) && NodeLocal(c, paths, o) && EventsListed(c.catalog, o)
    requires forall i :: 0 <= i < |ArrayPart(o, "children")| ==>
               Valid(d, c.matches, Ref(NodeDef), ArrayPart(o, "children")[i], MAX_REFS)
    ensures Valid(d, c.matches, OwnSchema(c, o["type"].text), Obj(o), refs)
  {
    var s := OwnSchema(c, o["type"].text);
    forall key | key in o ensures key in s.properties && Valid(d, c.matches, s.properties[key], o[key], MAX_REFS) {
      NodeKeys(c, paths, o, key);
      NodePartValid(d, c, paths, o, key);
    }
    RequiredParts(c, paths, o);
    ClosedValid(d, c.matches, s.properties, s.required, o, refs);
  }

  lemma RequiredParts(c: Context, paths: Paths, o: Object)
    requires NodeLocal(c, paths, o)
    ensures "id" in o && "type" in o && (c.catalog.components[o["type"].text].requiredProps != [] ==> "props" in o)
  {
    var required := c.catalog.components[o["type"].text].requiredProps;
    if required != [] {
      assert required[0] in ObjectPart(o, "props");
    }
  }

  /** The schema of one part of a node, by the part's name. */
  function PartSchema(c: Context, name: string, key: string): Schema
    requires name in c.catalog.components
  {
    NodePart(key, name, Closed(PropSchemas(c.catalog.components[name]), c.catalog.components[name].requiredProps),
             EventsSchema(c, c.catalog.components[name]), c.catalog.limits.maxChildrenPerNode)
  }

  lemma NodeKeys(c: Context, paths: Paths, o: Object, key: string)
    requires NodeLocal(c, paths, o) && key in o
    ensures key == "id" || key == "type" || key == "props" || key == "events" || key == "children"
    ensures key in OwnSchema(c, o["type"].text).properties
            && OwnSchema(c, o["type"].text).properties[key] == PartSchema(c, o["type"].text, key)
  {
  }

  lemma PropsPartValid(d: Definitions, c: Context, paths: Paths, o: Object)
    requires Defines(d, c.catalog) && Sound(c) && NodeLocal(c, paths, o) && "props" in o
    ensures Valid(d, c.matches, PartSchema(c, o["type"].text, "props"), o["props"], MAX_REFS)
  {
    var rule := c.catalog.components[o["type"].text];
    assert ComponentOk(rule);
    PropsValid(d, c, paths, rule, o["props"].fields);
    assert PartSchema(c, o["type"].text, "props") == Closed(PropSchemas(rule), rule.requiredProps);
  }

  lemma EventsPartValid(d: Definitions, c: Context, paths: Paths, o: Object)
    requires Defines(d, c.catalog) && Sound(c) && NodeLocal(c, paths, o) && EventsListed(c.catalog, o) && "events" in o
    ensures Valid(d, c.matches, PartSchema(c, o["type"].text, "events"), o["events"], MAX_REFS)
  {
    var rule := c.catalog.components[o["type"].text];
    EventsValid(d, c, paths, rule, o);
    assert o["events"] == Obj(ObjectPart(o, "events"));
    assert PartSchema(c, o["type"].text, "events") == EventsSchema(c, rule);
  }

  lemma PlainPartsValid(d: Definitions, c: Context, paths: Paths, o: Object)
    requires NodeLocal(c, paths, o)
    ensures Valid(d, c.matches, PartSchema(c, o["type"].text, "id"), o["id"], MAX_REFS)
    ensures Valid(d, c.matches, PartSchema(c, o["type"].text, "type"), o["type"], MAX_REFS)
  {
    IdValid(d, c.matches, o);
    PlainValid(d, c.matches, Const(o["type"].text), o["type"], MAX_REFS);
    assert PartSchema(c, o["type"].text, "id") == OfKind(StringKind).(minLength := Some(1), maxLength := Some(100));
    assert PartSchema(c, o["type"].text, "type") == Const(o["type"].text);
  }

  lemma ChildrenPartValid(d: Definitions, c: Context, paths: Paths, o: Object)
    requires NodeLocal(c, paths, o) && "children" in o
    requires forall i :: 0 <= i < |ArrayPart(o, "children")| ==>
               Valid(d, c.matches, Ref(NodeDef), ArrayPart(o, "children")[i], MAX_REFS)
    ensures Valid(d, c.matches, PartSchema(c, o["type"].text, "children"), o["children"], MAX_REFS)
  {
    ChildrenValid(d, c, o["children"]);
    assert PartSchema(c, o["type"].text, "children") == ChildrenSchema(c);
  }

  lemma NodePartValid(d: Definitions, c: Context, paths: Paths, o: Object, key: string)
    requires Defines(d, c.catalog) && Sound(c) && NodeLocal(c, paths, o) && EventsListed(c.catalog, o) && key in o
    requires forall i :: 0 <= i < |ArrayPart(o, "children")| ==>
               Valid(d, c.matches, Ref(NodeDef), ArrayPart(o, "children")[i], MAX_REFS)
    ensures Valid(d, c.matches, PartSchema(c, o["type"].text, key), o[key], MAX_REFS)
  {
    NodeKeys(c, paths, o, key);
    PlainPartsValid(d, c, paths, o);
    if key == "props" {
      PropsPartValid(d, c, paths, o);
    } else if key == "events" {
      EventsPartValid(d, c, paths, o);
    } else if key == "children" {
      ChildrenPartValid(d, c, paths, o);
    }
  }

  // ----- nodes and documents -----

  lemma ComponentAt(c: Context, name: string) returns (at: nat)
    requires name in c.catalog.components
    ensures var names, branches := StringOrder.SortedKeys(c.catalog.components.Keys), ComponentBranches(c.catalog);
            at < |names| == |branches| && names[at] == name && branches[at] == OwnSchema(c, name)
  {
    var names := StringOrder.SortedKeys(c.catalog.components.Keys);
    assert name in names;
    at :| 0 <= at < |names| && names[at] == name;
  }

  /** A node goes through its component's branch and no other. */
  lemma {:induction false} NodeBranch(d: Definitions, c: Context, paths: Paths, v: Value, depth: nat) returns (at: nat)
    requires Defines(d, c.catalog) && Sound(c) && NodeFits(c, paths, v, depth) && TreeListed(c.catalog, v)
    ensures var names, branches := StringOrder.SortedKeys(c.catalog.components.Keys), ComponentBranches(c.catalog);
            && at < |names| && names[at] == v.fields["type"].text
            && Valid(d, c.matches, Ref(NodeDef), v, MAX_REFS)
            && forall i :: 0 <= i < |branches| ==> (Valid(d, c.matches, branches[i], v, MAX_REFS - 1) <==> i == at)
    decreases v
  {
    var children := ArrayPart(v.fields, "children");
    forall i | 0 <= i < |children| ensures Valid(d, c.matches, Ref(NodeDef), children[i], MAX_REFS) {
      assert NodeFits(c, paths, children[i], depth + 1);
      var childAt := NodeBranch(d, c, paths, children[i], depth + 1);
    }
    var names, branches := StringOrder.SortedKeys(c.catalog.components.Keys), ComponentBranches(c.catalog);
    at := ComponentAt(c, v.fields["type"].text);
    NodeBranchValid(d, c, paths, v.fields, MAX_REFS - 1);
    ComponentsDiscriminated(c.catalog);
    OneBranch(d, c.matches, NodeDef, branches, names, "type", v.fields, at, MAX_REFS - 1);
  }

  lemma BranchParts(d: Definitions, c: Context, name: string, o: Object, refs: nat)
    requires name in c.catalog.components && Valid(d, c.matches, OwnSchema(c, name), Obj(o), refs)
    ensures "events" in o ==> Valid(d, c.matches, EventsSchema(c, c.catalog.components[name]), o["events"], MAX_REFS)
    ensures "children" in o ==> Valid(d, c.matches, ChildrenSchema(c), o["children"], MAX_REFS)
  {
    var s := OwnSchema(c, name);
    if "events" in o {
      PropertyValid(d, c.matches, s, o, "events", refs);
    }
    if "children" in o {
      PropertyValid(d, c.matches, s, o, "children", refs);
    }
  }

  /** What the branch of its own component demands of a node's actions and children. */
  lemma OwnBranchListed(d: Definitions, c: Context, paths: Paths, o: Object, refs: nat)
    requires Defines(d, c.catalog) && Sound(c) && NodeLocal(c, paths, o)
    requires Valid(d, c.matches, OwnSchema(c, o["type"].text), Obj(o), refs)
    ensures EventsListed(c.catalog, o)
    ensures forall i :: 0 <= i < |ArrayPart(o, "children")| ==>
              Valid(d, c.matches, Ref(NodeDef), ArrayPart(o, "children")[i], MAX_REFS)
  {
    BranchParts(d, c, o["type"].text, o, refs);
    if "events" in o {
      EventsValid(d, c, paths, c.catalog.components[o["type"].text], o);
    }
    forall i | 0 <= i < |ArrayPart(o, "children")|
      ensures Valid(d, c.matches, Ref(NodeDef), ArrayPart(o, "children")[i], MAX_REFS)
    {
      ItemValid(d, c.matches, ChildrenSchema(c), o["children"], i, MAX_REFS);
    }
  }

  /** A valid instance of a definition told apart by names is one of its own name's branch. */
  lemma OwnBranch(d: Definitions, m: (string, string) -> bool, definition: Definition, branches: seq<Schema>,
                  names: seq<string>, key: string, o: Object, at: nat, refs: nat)
    requires definition in d && d[definition] == ANYTHING.(oneOf := branches)
    requires Discriminated(branches, names, key) && at < |names| && key in o && o[key] == Str(names[at])
    requires Valid(d, m, Ref(definition), Obj(o), refs + 1)
    ensures Valid(d, m, branches[at], Obj(o), refs)
  {
    RefValid(d, m, definition, d[definition], Obj(o), refs + 1);
    assert ExactlyOne(d, m, d[definition], Obj(o), refs);
    var j :| 0 <= j < |branches| && Valid(d, m, branches[j], Obj(o), refs);
    if j != at {
      assert Tagged(branches[j], key, names[j]) && names[j] != names[at];
      NameRejects(d, m, branches[j].properties, branches[j].required, o, key, names[j], refs);
    }
  }

  lemma ValidParts(d: Definitions, c: Context, paths: Paths, o: Object)
    requires Defines(d, c.catalog) && Sound(c) && NodeLocal(c, paths, o)
             && Valid(d, c.matches, Ref(NodeDef), Obj(o), MAX_REFS)
    ensures EventsListed(c.catalog, o)
    ensures forall i :: 0 <= i < |ArrayPart(o, "children")| ==>
              Valid(d, c.matches, Ref(NodeDef), ArrayPart(o, "children")[i], MAX_REFS)
  {
    var names, branches := StringOrder.SortedKeys(c.catalog.components.Keys), ComponentBranches(c.catalog);
    var at := ComponentAt(c, o["type"].text);
    ComponentsDiscriminated(c.catalog);
    OwnBranch(d, c.matches, NodeDef, branches, names, "type", o, at, MAX_REFS - 1);
    OwnBranchListed(d, c, paths, o, MAX_REFS - 1);
  }

  lemma {:induction false} ValidIsListed(d: Definitions, c: Context, paths: Paths, v: Value, depth: nat)
    requires Defines(d, c.catalog) && Sound(c) && NodeFits(c, paths, v, depth)
             && Valid(d, c.matches, Ref(NodeDef), v, MAX_REFS)
    ensures TreeListed(c.catalog, v)
    decreases v
  {
    ValidParts(d, c, paths, v.fields);
    var children := ArrayPart(v.fields, "children");
    forall i | 0 <= i < |children| ensures TreeListed(c.catalog, children[i]) {
      assert NodeFits(c, paths, children[i], depth + 1);
      ValidIsListed(d, c, paths, children[i], depth + 1);
    }
  }

  lemma RootValid(d: Definitions, c: Context, document: Value, components: seq<Schema>, actions: seq<Schema>,
                  expressions: seq<Schema>)
    requires RootOk(document) && c.catalog.version == 1
    ensures Valid(d, c.matches, Ref(NodeDef), document.fields["root"], MAX_REFS) <==>
            Valid(d, c.matches, DocumentSchema(c.catalog.version, components, actions, expressions).root, document,
              MAX_REFS)
  {
    var s, o := DocumentSchema(c.catalog.version, components, actions, expressions).root, document.fields;
    PlainValid(d, c.matches, ANYTHING.(constant := Some(Int(c.catalog.version))), o["schemaVersion"], MAX_REFS);
    PlainValid(d, c.matches, OfKind(ObjectKind), o["initialState"], MAX_REFS);
    if Valid(d, c.matches, Ref(NodeDef), o["root"], MAX_REFS) {
      ClosedValid(d, c.matches, s.properties, s.required, o, MAX_REFS);
    } else if Valid(d, c.matches, s, document, MAX_REFS) {
      PropertyValid(d, c.matches, s, o, "root", MAX_REFS);
    }
  }

  /**
   A document the validator accepts is valid under the generated schema exactly when every method its
   actions name is a supported one.
   */
  lemma AcceptedIffListed(c: Context, document: Value)
    requires CatalogOk(c.catalog) && PathPatterns(c.matches) && DocumentOk(c, document)
    ensures Builds(c.catalog)
    ensures var schema := SchemaOf(c.catalog);
            Valid(schema.definitions, c.matches, schema.root, document, MAX_REFS)
            <==> TreeListed(c.catalog, document.fields["root"])
  {
    var d, root := SchemaOf(c.catalog).definitions, document.fields["root"];
    AcceptedBuilds(c.catalog);
    SchemaDefines(c.catalog);
    var paths :| StatePaths.IsIndex(paths, document.fields["initialState"].fields) && NodeFits(c, paths, root, 1);
    RootValid(d, c, document, ComponentBranches(c.catalog), ActionBranches(c.catalog), ExpressionBranches(c.catalog));
    if TreeListed(c.catalog, root) {
      var at := NodeBranch(d, c, paths, root, 1);
    } else if Valid(d, c.matches, Ref(NodeDef), root, MAX_REFS) {
      ValidIsListed(d, c, paths, root, 1);
    }
  }

  lemma {:induction false} AcceptedTreeListed(c: Context, paths: Paths, v: Value, depth: nat)
    requires Covered(c) && NodeFits(c, paths, v, depth)
    ensures TreeListed(c.catalog, v)
    decreases v
  {
    var events := ObjectPart(v.fields, "events");
    forall e | e in events ensures ActionsListed(c.catalog, events[e]) {
      assert ActionsFit(c, paths, events[e]);
      forall i | 0 <= i < |events[e].items|
        ensures events[e].items[i].Obj? && MethodListed(c.catalog, events[e].items[i].fields)
      {
        assert ActionOk(c, paths, events[e].items[i]);
        InvokedMethodListed(c, paths, events[e].items[i].fields);
      }
    }
    var children := ArrayPart(v.fields, "children");
    forall i | 0 <= i < |children| ensures TreeListed(c.catalog, children[i]) {
      assert NodeFits(c, paths, children[i], depth + 1);
      AcceptedTreeListed(c, paths, children[i], depth + 1);
    }
  }

  /** If only capability.invoke names methods, every document the validator accepts is valid under the schema. */
  lemma AcceptedIsValid(c: Context, document: Value)
    requires CatalogOk(c.catalog) && OnlyInvokeNamesMethods(c.catalog) && PathPatterns(c.matches)
    requires DocumentOk(c, document)
    ensures Builds(c.catalog)
    ensures var schema := SchemaOf(c.catalog);
            Valid(schema.definitions, c.matches, schema.root, document, MAX_REFS)
  {
    var root := document.fields["root"];
    var paths :| StatePaths.IsIndex(paths, document.fields["initialState"].fields) && NodeFits(c, paths, root, 1);
    AcceptedTreeListed(c, paths, root, 1);
    AcceptedIffListed(c, document);
  }

  /** A catalog the generator's checks accept always builds. */
  lemma AcceptedBuilds(catalog: Catalog)
    requires CatalogOk(catalog)
    ensures Builds(catalog)
  {
    forall name | name in catalog.components ensures ComponentBuilds(catalog.components[name]) {
      assert ComponentOk(catalog.components[name]);
      assert forall p :: p in catalog.components[name].allowedProps ==>
        RuleOk(catalog.components[name].allowedProps[p]);
    }
    forall name | name in catalog.actions ensures ActionBuilds(catalog.actions[name]) {
      var rule := catalog.actions[name];
      assert ActionFieldsOk(rule);
      forall f | f in rule.requiredFields + rule.optionalFields ensures FieldBuilds(f, rule) {
        assert f == "value" ==> f in rule.requiredFields || f in rule.optionalFields;
      }
    }
  }
}
