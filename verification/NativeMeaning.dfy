/**
 What the validator accepts, told from the document's own fields and from walking its initial state:
 literals within their rule, actions with a target of the right kind, allowed invocations.
 */
module NativeMeaning {
  import opened Prelude
  import opened Json
  import opened NativeCatalog
  import opened NativeRules
  import opened NativeDocument
  import opened StatePaths
  import opened Text
  import SM = SchemaMeaning

  // ----- literals -----

  /** What the validator asks beyond the schema: integers written without a fraction. */
  predicate WrittenWhole(kind: string, v: Value)
  {
    match kind
    case "integer" => v.Int?
    case "timerConfiguration" => v.Obj? && "intervalMs" in v.fields && v.fields["intervalMs"].Int?
    case _ => true
  }

  lemma KindIff(v: Value, kind: string)
    requires kind in VALUE_KINDS
    ensures KindFits(v, kind) <==> SM.OfRuleKind(kind, v) && WrittenWhole(kind, v)
  {
  }

  lemma BoundsIff(v: Value, rule: ValueRule)
    ensures BoundsOk(v, rule) <==>
              && (rule.minimum.Some? ==> SM.AtLeast(v, rule.minimum.value))
              && (rule.maximum.Some? ==> SM.AtMost(v, rule.maximum.value))
  {
  }

  /** A literal fits exactly if it is within its rule, and written as an integer where one is asked for. */
  lemma LiteralIff(c: Context, v: Value, rule: ValueRule)
    requires RuleOk(rule)
    ensures LiteralFits(c, v, rule) <==> SM.WithinRule(c.matches, rule, v) && WrittenWhole(rule.kind, v)
  {
    KindIff(v, rule.kind);
    BoundsIff(v, rule);
  }

  // ----- where an action points -----

  predicate IsA(v: Option<Value>, actionType: string)
  {
    match actionType
    case "increment" => v.Some? && SM.Numeric(v.value)
    case "startTimer" => v.Some? && SM.Numeric(v.value)
    case "toggle" => v.Some? && v.value.Bool?
    case "append" => v.Some? && v.value.Arr?
    case "remove" => v.Some? && v.value.Arr?
    case _ => v.Some?
  }

  /** The path names a field, at the top or of an object in the initial state. */
  ghost predicate Settable(initial: Object, path: string)
  {
    || Free(path, '.')
    || exists parent, field :: path == parent + "." + field && Free(field, '.')
                               && ReadAt(initial, parent).Some? && ReadAt(initial, parent).value.Obj?
  }

  ghost predicate PointsRight(initial: Object, actionType: string, path: string)
  {
    match actionType
    case "set" => Settable(initial, path)
    case "stopTimer" => true
    case _ => IsA(ReadAt(initial, path), actionType)
  }

  lemma {:induction false} SplitLast(parent: string, field: string)
    requires Free(field, '.')
    ensures Split(parent + "." + field, '.') == Split(parent, '.') + [field]
    decreases |parent|
  {
    if parent == "" {
      SplitHead("", '.', field);
      SplitHead(field, '.', "");
    } else {
      var rest := parent[1..];
      SplitLast(rest, field);
      assert (parent + "." + field)[1..] == rest + "." + field;
    }
  }

  lemma FreeIsOnePart(path: string)
    ensures Free(path, '.') <==> |Split(path, '.')| == 1
  {
    JoinSplit(path, '.');
    if Free(path, '.') {
      SplitHead(path, '.', "");
    }
  }

  lemma {:induction false} JoinLast(front: seq<string>, last: string)
    requires front != []
    ensures Join(front + [last], '.') == Join(front, '.') + "." + last
    decreases |front|
  {
    if |front| > 1 {
      JoinLast(front[1..], last);
      assert (front + [last])[1..] == front[1..] + [last];
    }
  }

  lemma WritableIff(paths: Paths, initial: Object, path: string)
    requires IsIndex(paths, initial)
    ensures Writable(paths, path) <==> Settable(initial, path)
  {
    var parts := Split(path, '.');
    var n := |parts| - 1;
    FreeIsOnePart(path);
    JoinSplit(path, '.');
    if n > 0 {
      var parent := Join(parts[..n], '.');
      JoinLast(parts[..n], parts[n]);
      assert parts == parts[..n] + [parts[n]];
      assert path == parent + "." + parts[n];
      forall other, field | path == other + "." + field && Free(field, '.') ensures other == parent {
        SplitLast(other, field);
        JoinSplit(other, '.');
        assert parts[..n] == Split(other, '.');
      }
    }
  }

  /** The validator's target check, on the index it has built, is about the initial state itself. */
  lemma TargetIff(paths: Paths, initial: Object, actionType: string, path: string)
    requires IsIndex(paths, initial)
    ensures TargetOk(paths, actionType, path) <==> PointsRight(initial, actionType, path)
  {
    WritableIff(paths, initial, path);
    assert path in paths ==> Some(paths[path]) == ReadAt(initial, path);
  }

  // ----- actions -----

  /** The host offers the method, the card may use it, and its result has a place to go. */
  ghost predicate MayInvoke(c: Context, initial: Object, a: Object)
  {
    && "method" in a && a["method"].Str? && a["method"].text != ""
    && a["method"].text in c.catalog.capabilityMethods
    && c.catalog.capabilityMethods[a["method"].text].nativeSupported
    && (exists capability :: capability in c.allowed
                             && c.catalog.capabilityMethods[a["method"].text].manifestCapability == Some(capability))
    && ("path" in a && a["path"].Str? && a["path"].text != "" ==> Settable(initial, a["path"].text))
  }

  /** The fields an action has, and what each of them is. */
  ghost predicate WellFormed(c: Context, paths: Paths, a: Object)
  {
    && "type" in a && a["type"].Str? && a["type"].text != "" && a["type"].text in c.catalog.actions
    && var rule := c.catalog.actions[a["type"].text];
       && (forall f :: f in rule.requiredFields ==> f in a)
       && (forall f :: f in a ==> f == "type" || f in rule.requiredFields || f in rule.optionalFields)
       && ("path" in a ==> a["path"].Str? && ValidPath(a["path"].text))
       && ("params" in a ==> a["params"].Obj? && DataFits(c.catalog.limits, a["params"], 1))
       && ("value" in a && rule.valueRule.Some? ==> ValueFits(c, paths, a["value"], rule.valueRule.value))
  }

  /** A well-formed action that may invoke its method, or points at a value of its kind. */
  ghost predicate IsAllowed(c: Context, paths: Paths, initial: Object, a: Object)
  {
    && WellFormed(c, paths, a)
    && if a["type"].text == "capability.invoke" then MayInvoke(c, initial, a)
       else PointsRight(initial, a["type"].text, if "path" in a then a["path"].text else "")
  }

  /** Exactly these actions are accepted. */
  lemma ActionIff(c: Context, paths: Paths, initial: Object, a: Object)
    requires IsIndex(paths, initial)
    ensures ActionFits(c, paths, a) <==> IsAllowed(c, paths, initial, a)
  {
    if WellFormed(c, paths, a) {
      var path := if "path" in a then a["path"].text else "";
      TargetIff(paths, initial, a["type"].text, path);
      WritableIff(paths, initial, path);
    }
  }

  // ----- values -----

  /** A value of the state that a prop of this kind may be bound to. */
  predicate Bindable(kind: string, v: Value)
  {
    match kind
    case "any" => true
    case "string" => v.Str?
    case "number" => SM.Numeric(v)
    case "boolean" => v.Bool?
    case "object" => v.Obj?
    case "stringList" => v.Arr? && forall i :: 0 <= i < |v.items| ==> v.items[i].Str?
    case "numberList" => v.Arr? && forall i :: 0 <= i < |v.items| ==> SM.Numeric(v.items[i])
    case _ => false
  }

  lemma CompatibleIff(kind: string, v: Value)
    requires kind in VALUE_KINDS
    ensures Compatible(LiteralType(v), kind) <==> Bindable(kind, v)
  {
    if v.Arr? && v.items != [] {
      assert !(v.items[0].Str? && IsNumber(v.items[0]));
    }
  }

  /** Bound to a path of the state: the path is "state." and one that reads a value of the kind. */
  ghost predicate ReadsState(initial: Object, kind: string, v: Value)
  {
    && SM.HasFields(v, {"path"}) && v.fields["path"].Str? && "state." <= v.fields["path"].text
    && ReadAt(initial, v.fields["path"].text[6..]).Some?
    && Bindable(kind, ReadAt(initial, v.fields["path"].text[6..]).value)
  }

  /** A literal is within its rule, and a path, where one may stand, reads the state. */
  ghost predicate ValueMeans(c: Context, initial: Object, rule: ValueRule, v: Value)
  {
    match BindingShape(v)
    case Plain => SM.WithinRule(c.matches, rule, v) && WrittenWhole(rule.kind, v)
    case PathShape => rule.binding && ReadsState(initial, rule.kind, v)
    case _ => rule.binding
  }

  lemma PathShapeMeans(v: Value)
    ensures BindingShape(v) == PathShape <==> SM.HasFields(v, {"path"}) && v.fields["path"].Str?
  {
    if v.Obj? {
      if |v.fields| == 1 && "path" in v.fields {
        assert |v.fields.Keys - {"path"}| == 0;
      }
      assert v.fields.Keys == {"path"} ==> |v.fields.Keys| == 1;
    }
  }

  lemma BoundMeans(c: Context, paths: Paths, initial: Object, rule: ValueRule, v: Value)
    requires IsIndex(paths, initial) && RuleOk(rule) && rule.binding && BindingShape(v) == PathShape
    requires c.catalog.limits.maxExpressionDepth >= 1
    ensures TypeFits(c, paths, v, rule) <==> ReadsState(initial, rule.kind, v)
  {
    PathShapeMeans(v);
    var path := v.fields["path"].text;
    if STATE_PREFIX <= path {
      var relative := path[|STATE_PREFIX|..];
      assert Relative(path) == relative == path[6..];
      if relative in paths {
        CompatibleIff(rule.kind, paths[relative]);
      }
    }
  }

  lemma ValueIs(c: Context, paths: Paths, initial: Object, rule: ValueRule, v: Value)
    requires IsIndex(paths, initial) && RuleOk(rule) && TypeFits(c, paths, v, rule)
    ensures ValueMeans(c, initial, rule, v)
  {
    match BindingShape(v)
    case Plain => LiteralIff(c, v, rule);
    case PathShape => BoundMeans(c, paths, initial, rule, v);
    case _ =>
  }

  // ----- nodes -----

  /** A number given under a name, a default if there is none, and zero for what is no number. */
  predicate Given(props: Object, name: string, otherwise: real, x: real)
  {
    if name !in props then x == otherwise
    else
      match props[name]
      case Int(i) => x == i as real
      case Dec(r) => x == r
      case _ => x == 0.0
  }

  /** A slider's range is not upside down. */
  ghost predicate RangeOk(props: Object)
  {
    forall low, high :: Given(props, "min", 0.0, low) && Given(props, "max", 1.0, high) ==> low <= high
  }

  lemma SliderIff(props: Object)
    ensures SliderOk("Slider", props) <==> RangeOk(props)
  {
    var low := if "min" in props then NumberOrZero(props["min"]) else 0.0;
    var high := if "max" in props then NumberOrZero(props["max"]) else 1.0;
    assert Given(props, "min", 0.0, low) && Given(props, "max", 1.0, high);
    assert forall x :: Given(props, "min", 0.0, x) ==> x == low;
    assert forall x :: Given(props, "max", 1.0, x) ==> x == high;
  }

  /** What is known of each prop of an accepted node. */
  ghost predicate PropsMean(c: Context, initial: Object, rule: ComponentRule, props: Object)
  {
    && (forall p :: p in rule.requiredProps ==> p in props)
    && (forall p :: p in props ==> p in rule.allowedProps && ValueMeans(c, initial, rule.allowedProps[p], props[p]))
    && ("valuePath" in props ==>
          ReadAt(initial, if props["valuePath"].Str? then props["valuePath"].text else "").Some?)
  }

  /** An accepted action: well formed, and pointing at what it works on or invoking what it may. */
  ghost predicate ActionMeans(c: Context, paths: Paths, initial: Object, v: Value)
  {
    && v.Obj? && IsAllowed(c, paths, initial, v.fields)
    && var rule := c.catalog.actions[v.fields["type"].text];
       "value" in v.fields && rule.valueRule.Some? ==>
         ValueMeans(c, initial, rule.valueRule.value, v.fields["value"])
  }

  ghost predicate EventsMean(c: Context, paths: Paths, initial: Object, rule: ComponentRule, events: Object)
  {
    forall e :: e in events ==>
      && e in rule.allowedEvents && events[e].Arr? && |events[e].items| <= c.catalog.limits.maxActionsPerEvent
      && forall i :: 0 <= i < |events[e].items| ==> ActionMeans(c, paths, initial, events[e].items[i])
  }

  ghost predicate NodeMeans(c: Context, paths: Paths, initial: Object, v: Value)
  {
    && v.Obj? && "id" in v.fields && v.fields["id"].Str? && Trim(v.fields["id"].text) != ""
    && |v.fields["id"].text| <= 100 && "type" in v.fields && v.fields["type"].Str?
    && v.fields["type"].text in c.catalog.components
    && var rule, props := c.catalog.components[v.fields["type"].text], ObjectPart(v.fields, "props");
       && PropsMean(c, initial, rule, props) && (v.fields["type"].text == "Slider" ==> RangeOk(props))
       && EventsMean(c, paths, initial, rule, ObjectPart(v.fields, "events"))
  }

  lemma ActionIs(c: Context, paths: Paths, initial: Object, v: Value)
    requires IsIndex(paths, initial) && CatalogOk(c.catalog) && ActionOk(c, paths, v)
    ensures ActionMeans(c, paths, initial, v)
  {
    ActionIff(c, paths, initial, v.fields);
    var rule := c.catalog.actions[v.fields["type"].text];
    assert ActionFieldsOk(rule);
    if "value" in v.fields && rule.valueRule.Some? {
      ValueIs(c, paths, initial, rule.valueRule.value, v.fields["value"]);
    }
  }

  lemma PropsAre(c: Context, paths: Paths, initial: Object, rule: ComponentRule, props: Object)
    requires IsIndex(paths, initial) && ComponentOk(rule)
    requires PropsFit(c, paths, rule, props) && ValuePathOk(paths, props)
    ensures PropsMean(c, initial, rule, props)
  {
    forall p | p in props ensures p in rule.allowedProps && ValueMeans(c, initial, rule.allowedProps[p], props[p]) {
      assert PropOk(c, paths, rule, p, props[p]);
      ValueIs(c, paths, initial, rule.allowedProps[p], props[p]);
    }
  }

  lemma EventsAre(c: Context, paths: Paths, initial: Object, rule: ComponentRule, events: Object)
    requires IsIndex(paths, initial) && CatalogOk(c.catalog) && EventsFit(c, paths, rule, events)
    ensures EventsMean(c, paths, initial, rule, events)
  {
    forall e, i | e in events && events[e].Arr? && 0 <= i < |events[e].items|
      ensures ActionMeans(c, paths, initial, events[e].items[i])
    {
      assert ActionsFit(c, paths, events[e]);
      ActionIs(c, paths, initial, events[e].items[i]);
    }
  }

  lemma NodeIs(c: Context, paths: Paths, initial: Object, v: Value, depth: nat)
    requires IsIndex(paths, initial) && CatalogOk(c.catalog) && NodeFits(c, paths, v, depth)
    ensures NodeMeans(c, paths, initial, v) && depth <= c.catalog.limits.maxDepth
  {
    var rule, props := c.catalog.components[v.fields["type"].text], ObjectPart(v.fields, "props");
    assert ComponentOk(rule);
    PropsAre(c, paths, initial, rule, props);
    EventsAre(c, paths, initial, rule, ObjectPart(v.fields, "events"));
    SliderIff(props);
  }

  // ----- documents -----

  /** The node that a route of child positions leads to. */
  function NodeAt(v: Value, route: seq<nat>): Option<Value>
    decreases |route|
  {
    if route == [] then Some(v)
    else if !v.Obj? || route[0] >= |ArrayPart(v.fields, "children")| then None
    else NodeAt(ArrayPart(v.fields, "children")[route[0]], route[1..])
  }

  lemma {:induction false} RouteFits(c: Context, paths: Paths, v: Value, route: seq<nat>, depth: nat)
    requires NodeFits(c, paths, v, depth) && NodeAt(v, route).Some?
    ensures NodeFits(c, paths, NodeAt(v, route).value, depth + |route|)
    decreases |route|
  {
    if route != [] {
      var children := ArrayPart(v.fields, "children");
      assert NodeFits(c, paths, children[route[0]], depth + 1);
      RouteFits(c, paths, children[route[0]], route[1..], depth + 1);
    }
  }

  /** What the node says holds of the initial state, whatever it is indexed by. */
  ghost predicate Understood(c: Context, initial: Object, v: Value)
  {
    exists paths :: IsIndex(paths, initial) && NodeMeans(c, paths, initial, v)
  }

  lemma RouteUnderstood(c: Context, paths: Paths, initial: Object, root: Value, route: seq<nat>)
    requires IsIndex(paths, initial) && CatalogOk(c.catalog) && NodeFits(c, paths, root, 1)
    requires NodeAt(root, route).Some?
    ensures |route| < c.catalog.limits.maxDepth && Understood(c, initial, NodeAt(root, route).value)
  {
    RouteFits(c, paths, root, route, 1);
    NodeIs(c, paths, initial, NodeAt(root, route).value, 1 + |route|);
  }

  /**
   Every node of an accepted document, however deep: its literals are within their rules, its paths read
   the initial state, and its actions point at values they can work on or invoke what the card may.
   */
  lemma AcceptedMeans(c: Context, document: Value, route: seq<nat>)
    requires CatalogOk(c.catalog) && DocumentOk(c, document) && NodeAt(document.fields["root"], route).Some?
    ensures |route| < c.catalog.limits.maxDepth
    ensures Understood(c, document.fields["initialState"].fields, NodeAt(document.fields["root"], route).value)
  {
    var initial, root := document.fields["initialState"].fields, document.fields["root"];
    var paths :| IsIndex(paths, initial) && NodeFits(c, paths, root, 1);
    RouteUnderstood(c, paths, initial, root, route);
  }

  /** Every node that a route leads to is understood. */
  ghost predicate AllUnderstood(c: Context, document: Value)
    requires RootOk(document)
  {
    forall route :: NodeAt(document.fields["root"], route).Some? ==>
      && |route| < c.catalog.limits.maxDepth
      && Understood(c, document.fields["initialState"].fields, NodeAt(document.fields["root"], route).value)
  }

  lemma AcceptedUnderstood(c: Context, document: Value)
    requires CatalogOk(c.catalog) && DocumentOk(c, document)
    ensures AllUnderstood(c, document)
  {
    forall route | NodeAt(document.fields["root"], route).Some?
      ensures |route| < c.catalog.limits.maxDepth
              && Understood(c, document.fields["initialState"].fields, NodeAt(document.fields["root"], route).value)
    {
      AcceptedMeans(c, document, route);
    }
  }
}
