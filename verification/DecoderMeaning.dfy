/**
 What the decoder accepts, told from the document's own fields: literals within their rules, typed calls,
 actions, and every node of a decoded document.
 */
module DecoderMeaning {
  import opened Prelude
  import opened Json
  import opened NativeCatalog
  import opened Decoder
  import ND = NativeDocument
  import NM = NativeMeaning
  import NR = NativeRules
  import SA = SchemaAgreement
  import SM = SchemaMeaning
  import Text

  // ----- literals -----

  /** The places of the code points that take two units. */
  function Wide(s: string): set<nat>
  {
    set i: nat | i < |s| && s[i] > '\U{FFFF}'
  }

  /** The length in units is the length in code points, and one more for each wide one. */
  lemma {:induction false} UnitsCount(s: string)
    ensures Utf16Length(s) == |s| + |Wide(s)|
    decreases |s|
  {
    if s != "" {
      var n := |s| - 1;
      UnitsCount(s[..n]);
      assert Wide(s) == Wide(s[..n]) + if s[n] > '\U{FFFF}' then {n} else {};
    } else {
      assert Wide(s) == {};
    }
  }

  predicate LongEnough(rule: ValueRule, v: Value)
  {
    v.Str? && rule.minLength.Some? ==> |v.text| + |Wide(v.text)| >= rule.minLength.value
  }

  /** A literal is decoded exactly if it is within its rule, its length counted in units. */
  lemma LiteralIff(c: Context, v: Value, rule: ValueRule)
    requires RuleOk(rule)
    ensures LiteralFits(c, v, rule) <==>
              SM.WithinRule(c.matches, rule.(minLength := None), v) && LongEnough(rule, v)
  {
    if v.Str? {
      UnitsCount(v.text);
    }
  }

  // ----- calls -----

  /** What the decoder takes for an expression, by the names of its fields. */
  predicate LooksBound(v: Value)
  {
    || (SM.HasFields(v, {"path"}) && v.fields["path"].Str?)
    || (SM.HasFields(v, {"expr"}) && v.fields["expr"].Obj?)
    || SM.HasFields(v, {"op", "args"})
  }

  predicate OfType(v: Value, kind: string)
  {
    match kind
    case "any" => true
    case "string" => v.Str? || v.Null?
    case "number" => SM.Numeric(v) || v.Null?
    case "boolean" => v.Bool? || v.Null?
    case "array" => v.Arr? || v.Null?
    case "object" => v.Obj? || v.Null?
    case "unknown" => v.Null?
    case _ => v.Null?
  }

  /** A call that is known to give a value of the kind, or may give anything. */
  predicate Gives(catalog: Catalog, e: Value, kind: string)
    requires SM.IsCall(catalog, e)
  {
    var result := catalog.expressions[e.fields["op"].text].resultType;
    kind == "any" || result == "unknown" || result == kind
  }

  predicate IsZero(v: Value)
  {
    v == Int(0) || v == Dec(0.0)
  }

  /** A root is not taken of a number below zero, and nothing is divided by zero, as far as the text shows. */
  predicate Guarded(constraint: string, args: seq<Value>)
  {
    match constraint
    case "nonNegative" => |args| > 0 && SM.Numeric(args[0]) ==> SM.AtLeast(args[0], 0.0)
    case "nonZeroDivisor" => |args| > 1 ==> !IsZero(args[1])
    case _ => true
  }

  /** A known operator, as many arguments as it takes, each of its type. */
  ghost predicate IsTypedCall(catalog: Catalog, e: Value)
    decreases e, 0
  {
    && SM.IsCall(catalog, e)
    && var rule, args := catalog.expressions[e.fields["op"].text], e.fields["args"].items;
       && Guarded(rule.constraint, args)
       && forall i :: 0 <= i < |args| ==> IsArgument(catalog, rule.argumentType, args[i])
  }

  ghost predicate IsArgument(catalog: Catalog, kind: string, v: Value)
    decreases v, 1
  {
    if !LooksBound(v) then OfType(v, kind)
    else if SM.HasFields(v, {"path"}) then SM.IsPathBinding(v)
    else if SM.HasFields(v, {"expr"}) then
      IsTypedCall(catalog, v.fields["expr"]) && Gives(catalog, v.fields["expr"], kind)
    else IsTypedCall(catalog, v) && Gives(catalog, v, kind)
  }

  /** Patterns match as meant, and no operator is nameless. */
  ghost predicate Plainly(c: Context)
  {
    SA.PathPatterns(c.matches) && "" !in c.catalog.expressions
  }

  lemma GuardIff(rule: ExpressionRule, args: seq<Value>)
    ensures ConstraintOk(rule, args) <==> Guarded(rule.constraint, args)
  {
  }

  lemma TypeIff(v: Value, kind: string)
    ensures OfType(v, kind) <==> kind == "any" || LiteralType(v) == NR.UNKNOWN || LiteralType(v) == kind
  {
  }

  /** A call is typed by the decoder exactly if it is a typed call, and then by its operator's result. */
  lemma {:induction false} CallIff(c: Context, e: Value)
    requires Plainly(c) && e.Obj?
    ensures CheckExpression(c, e).Some? <==> IsTypedCall(c.catalog, e)
    ensures CheckExpression(c, e).Some? ==>
              CheckExpression(c, e).value == c.catalog.expressions[e.fields["op"].text].resultType
    decreases e, 0
  {
    if SM.IsCall(c.catalog, e) {
      var rule, args := c.catalog.expressions[e.fields["op"].text], e.fields["args"].items;
      GuardIff(rule, args);
      forall i | 0 <= i < |args|
        ensures Evaluate(c, args[i]).Some? && NR.ArgumentOk(rule, Evaluate(c, args[i]).value.kind) <==>
                  IsArgument(c.catalog, rule.argumentType, args[i])
      {
        EvaluateIff(c, args[i], rule.argumentType);
      }
    }
  }

  lemma {:induction false} EvaluateIff(c: Context, v: Value, kind: string)
    requires Plainly(c)
    ensures var t := Evaluate(c, v);
            && (t.Some? && (kind == "any" || t.value.kind == NR.UNKNOWN || t.value.kind == kind) <==>
                  IsArgument(c.catalog, kind, v))
            && (t.Some? ==> (t.value.expression <==> LooksBound(v)))
            && (!LooksBound(v) ==> t == Some(NR.Typing(LiteralType(v), false)))
    decreases v, 1
  {
    TypeIff(v, kind);
    if LooksBound(v) && !SM.HasFields(v, {"path"}) {
      if SM.HasFields(v, {"expr"}) {
        CallIff(c, v.fields["expr"]);
      } else {
        CallIff(c, v);
      }
    }
  }

  // ----- values -----

  /** A literal within its rule or, where the rule allows it, a path or a call of the rule's kind. */
  ghost predicate IsValue(c: Context, rule: ValueRule, v: Value)
  {
    if rule.binding && LooksBound(v) then IsArgument(c.catalog, rule.kind, v)
    else SM.WithinRule(c.matches, rule.(minLength := None), v) && LongEnough(rule, v)
  }

  lemma ValueIff(c: Context, v: Value, rule: ValueRule)
    requires Plainly(c) && RuleOk(rule)
    ensures ValueFits(c, v, rule) <==> IsValue(c, rule, v)
  {
    LiteralIff(c, v, rule);
    EvaluateIff(c, v, rule.kind);
  }

  // ----- actions -----

  /** A known type, all required fields and no field that is not declared, each as it must be. */
  ghost predicate IsAction(c: Context, v: Value)
  {
    && v.Obj? && "type" in v.fields && v.fields["type"].Str? && v.fields["type"].text != ""
    && v.fields["type"].text in c.catalog.actions
    && var a, rule := v.fields, c.catalog.actions[v.fields["type"].text];
       && (forall f :: f in rule.requiredFields ==> f in a)
       && (forall f :: f in a ==> f == "type" || SM.Declared(rule, f))
       && ("path" in a ==> a["path"].Str? && NR.ValidPath(a["path"].text))
       && ("params" in a ==> a["params"].Obj?)
       && ("value" in a ==> rule.valueRule.Some? && IsValue(c, rule.valueRule.value, a["value"]))
       && (a["type"].text == "capability.invoke" ==>
             "method" in a && a["method"].Str? && a["method"].text != "" && SM.Supports(c.catalog, a["method"].text))
  }

  lemma PathIff(c: Context, a: Object)
    requires Plainly(c) && "path" in a
    ensures IsText(a, "path") && c.matches(NS.STATE_PATH_PATTERN, a["path"].text) <==>
              a["path"].Str? && NR.ValidPath(a["path"].text)
  {
    assert Text.Split("", '.') == [""];
    if a["path"].Str? && NR.ValidPath(a["path"].text) {
      assert Text.Split(a["path"].text, '.')[0] != "";
    }
  }

  lemma ActionIff(c: Context, v: Value)
    requires Plainly(c) && CatalogOk(c.catalog)
    ensures ActionFits(c, v) <==> IsAction(c, v)
  {
    if v.Obj? && "type" in v.fields && v.fields["type"].Str? && v.fields["type"].text in c.catalog.actions {
      var rule := c.catalog.actions[v.fields["type"].text];
      assert ActionFieldsOk(rule);
      if "path" in v.fields {
        PathIff(c, v.fields);
      }
      if "value" in v.fields && rule.valueRule.Some? {
        ValueIff(c, v.fields["value"], rule.valueRule.value);
      }
    }
  }

  // ----- nodes -----

  ghost predicate AreActions(c: Context, v: Value)
  {
    && v.Arr? && |v.items| <= c.catalog.limits.maxActionsPerEvent
    && forall i :: 0 <= i < |v.items| ==> IsAction(c, v.items[i])
  }

  ghost predicate AreProps(c: Context, rule: ComponentRule, o: Object)
  {
    && ("props" in o ==> o["props"].Obj?)
    && (forall p :: p in rule.requiredProps ==> "props" in o && p in o["props"].fields)
    && forall p :: "props" in o && p in o["props"].fields ==>
         p in rule.allowedProps && IsValue(c, rule.allowedProps[p], o["props"].fields[p])
  }

  ghost predicate AreEvents(c: Context, rule: ComponentRule, o: Object)
  {
    "events" in o ==>
      && o["events"].Obj?
      && forall e :: e in o["events"].fields ==> e in rule.allowedEvents && AreActions(c, o["events"].fields[e])
  }

  /** A named node of a known component with what it needs and nothing it does not know, its children aside. */
  ghost predicate IsNode(c: Context, v: Value)
  {
    && v.Obj? && (forall f :: f in v.fields ==> f in {"id", "type", "props", "events", "children"})
    && "id" in v.fields && v.fields["id"].Str? && v.fields["id"].text != ""
    && "type" in v.fields && v.fields["type"].Str? && v.fields["type"].text != ""
    && v.fields["type"].text in c.catalog.components
    && AreProps(c, c.catalog.components[v.fields["type"].text], v.fields)
    && AreEvents(c, c.catalog.components[v.fields["type"].text], v.fields)
    && ("children" in v.fields ==> v.fields["children"].Arr? && |v.fields["children"].items| <= 200)
  }

  lemma EventIff(c: Context, v: Value)
    requires Plainly(c) && CatalogOk(c.catalog)
    ensures EventFits(c, v) <==> AreActions(c, v)
  {
    if v.Arr? {
      forall i | 0 <= i < |v.items| ensures ActionFits(c, v.items[i]) <==> IsAction(c, v.items[i]) {
        ActionIff(c, v.items[i]);
      }
    }
  }

  lemma PropsIff(c: Context, rule: ComponentRule, o: Object)
    requires Plainly(c) && ComponentOk(rule) && ("props" in o ==> o["props"].Obj?)
    ensures AreProps(c, rule, o) <==>
              var props := ND.ObjectPart(o, "props");
              && (forall name :: name in rule.requiredProps ==> name in props)
              && forall name :: name in props ==> PropFits(c, rule, name, props[name])
  {
    var props := ND.ObjectPart(o, "props");
    forall name | name in props && name in rule.allowedProps
      ensures PropFits(c, rule, name, props[name]) <==> IsValue(c, rule.allowedProps[name], props[name])
    {
      assert RuleOk(rule.allowedProps[name]);
      ValueIff(c, props[name], rule.allowedProps[name]);
    }
  }

  lemma EventsIff(c: Context, rule: ComponentRule, o: Object)
    requires Plainly(c) && CatalogOk(c.catalog) && ("events" in o ==> o["events"].Obj?)
    ensures AreEvents(c, rule, o) <==>
              var events := ND.ObjectPart(o, "events");
              forall name :: name in events ==> name in rule.allowedEvents && EventFits(c, events[name])
  {
    var events := ND.ObjectPart(o, "events");
    forall name | name in events ensures EventFits(c, events[name]) <==> AreActions(c, events[name]) {
      EventIff(c, events[name]);
    }
  }

  lemma LocalIff(c: Context, v: Value)
    requires Plainly(c) && CatalogOk(c.catalog)
    ensures v.Obj? && NodeLocal(c, v.fields) <==> IsNode(c, v)
  {
    if v.Obj? && "type" in v.fields && v.fields["type"].Str? && v.fields["type"].text in c.catalog.components {
      var rule := c.catalog.components[v.fields["type"].text];
      assert ComponentOk(rule);
      if ("props" in v.fields ==> v.fields["props"].Obj?) && ("events" in v.fields ==> v.fields["events"].Obj?) {
        PropsIff(c, rule, v.fields);
        EventsIff(c, rule, v.fields);
      }
    }
  }

  // ----- documents -----

  /** Every node of the tree, wherever a route of child positions leads, is one and is no deeper than 32. */
  ghost predicate TreeMeets(c: Context, v: Value, depth: nat)
  {
    forall route :: NM.NodeAt(v, route).Some? ==>
      depth + |route| <= 32 && IsNode(c, NM.NodeAt(v, route).value)
  }

  lemma {:induction false} RouteFits(c: Context, v: Value, route: seq<nat>, depth: nat)
    requires Plainly(c) && CatalogOk(c.catalog) && NodeFits(c, v, depth) && NM.NodeAt(v, route).Some?
    ensures depth + |route| <= 32 && IsNode(c, NM.NodeAt(v, route).value)
    decreases |route|
  {
    if route == [] {
      LocalIff(c, v);
    } else {
      var children := ND.ArrayPart(v.fields, "children");
      assert NodeFits(c, children[route[0]], depth + 1);
      RouteFits(c, children[route[0]], route[1..], depth + 1);
    }
  }

  lemma ChildMeets(c: Context, v: Value, depth: nat, i: nat)
    requires v.Obj? && i < |ND.ArrayPart(v.fields, "children")| && TreeMeets(c, v, depth)
    ensures TreeMeets(c, ND.ArrayPart(v.fields, "children")[i], depth + 1)
  {
    var child := ND.ArrayPart(v.fields, "children")[i];
    forall route | NM.NodeAt(child, route).Some?
      ensures depth + 1 + |route| <= 32 && IsNode(c, NM.NodeAt(child, route).value)
    {
      assert ([i] + route)[1..] == route;
      assert NM.NodeAt(v, [i] + route) == NM.NodeAt(child, route);
    }
  }

  lemma {:induction false} TreeFits(c: Context, v: Value, depth: nat)
    requires Plainly(c) && CatalogOk(c.catalog) && TreeMeets(c, v, depth)
    ensures NodeFits(c, v, depth)
    decreases v
  {
    assert NM.NodeAt(v, []) == Some(v);
    LocalIff(c, v);
    var children := ND.ArrayPart(v.fields, "children");
    forall i | 0 <= i < |children| ensures NodeFits(c, children[i], depth + 1) {
      ChildMeets(c, v, depth, i);
      TreeFits(c, children[i], depth + 1);
    }
  }

  predicate IsOne(v: Value)
  {
    v == Int(1) || v == Dec(1.0)
  }

  lemma OneIff(v: Value)
    ensures IsInteger(v) && NumberOf(v).value == 1.0 <==> IsOne(v)
  {
  }

  lemma TreeIff(c: Context, root: Value)
    requires Plainly(c) && CatalogOk(c.catalog)
    ensures NodeFits(c, root, 1) <==> TreeMeets(c, root, 1)
  {
    if NodeFits(c, root, 1) {
      forall route | NM.NodeAt(root, route).Some?
        ensures 1 + |route| <= 32 && IsNode(c, NM.NodeAt(root, route).value)
      {
        RouteFits(c, root, route, 1);
      }
    }
    if TreeMeets(c, root, 1) {
      TreeFits(c, root, 1);
    }
  }

  lemma FieldsIff(o: Object)
    ensures o.Keys == {"schemaVersion", "initialState", "root"} <==>
              && o.Keys <= {"schemaVersion", "initialState", "root"}
              && "schemaVersion" in o && "initialState" in o && "root" in o
  {
  }

  /** A document is decoded exactly if it has a version, a state and a root, and every node is as it must be. */
  lemma DocumentIff(c: Context, document: Value)
    requires Plainly(c) && CatalogOk(c.catalog)
    ensures DocumentOk(c, document) <==>
              && SM.HasFields(document, {"schemaVersion", "initialState", "root"})
              && IsOne(document.fields["schemaVersion"]) && document.fields["initialState"].Obj?
              && TreeMeets(c, document.fields["root"], 1) && ND.Nodes(document.fields["root"]) <= 500
  {
    if document.Obj? {
      FieldsIff(document.fields);
      if SM.HasFields(document, {"schemaVersion", "initialState", "root"}) {
        OneIff(document.fields["schemaVersion"]);
        TreeIff(c, document.fields["root"]);
      }
    }
  }
}
