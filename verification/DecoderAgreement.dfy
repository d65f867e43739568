/**
 The validator and the decoder: of the documents the validator accepts, the decoder accepts exactly
 those in which no bindable value and no argument is an object with just an op and args that are
 not a text and an array.
 */
module DecoderAgreement {
  import opened Prelude
  import opened Json
  import opened NativeCatalog
  import opened NR = NativeRules
  import opened ND = NativeDocument
  import SA = SchemaAgreement
  import T = Decoder
  import StatePaths
  import Text

  /** The decoder reads the same catalog and matches patterns alike. */
  function Decoding(c: NR.Context): T.Context
  {
    T.Context(c.catalog, c.matches)
  }

  /** Guards on a static argument belong to operators with just that many arguments. */
  predicate GuardsFixed(catalog: Catalog)
  {
    forall name :: name in catalog.expressions ==>
      && (catalog.expressions[name].constraint == "nonNegative" ==> catalog.expressions[name].maxArgs == Some(1))
      && (catalog.expressions[name].constraint == "nonZeroDivisor" ==> catalog.expressions[name].maxArgs == Some(2))
  }

  /** The decoder's fixed limits are no tighter than the catalog's, and it takes no component to be nameless. */
  predicate LimitsFixed(catalog: Catalog)
  {
    && catalog.limits.maxDepth <= T.MAX_DEPTH && catalog.limits.maxNodes <= T.MAX_NODES
    && catalog.limits.maxChildrenPerNode <= T.MAX_CHILDREN && "" !in catalog.components
  }

  ghost predicate Alike(c: NR.Context)
  {
    CatalogOk(c.catalog) && GuardsFixed(c.catalog) && LimitsFixed(c.catalog) && SA.PathPatterns(c.matches)
  }

  // ----- the one shape read differently -----

  /** An object that the decoder takes for a call and the validator for plain data. */
  predicate Trap(v: Value)
  {
    v.Obj? && v.fields.Keys == {"op", "args"} && !(v.fields["op"].Str? && v.fields["args"].Arr?)
  }

  /** No trap where a value is evaluated: the value itself or an argument, however deep. */
  predicate TrapFree(v: Value)
    decreases v, 1
  {
    && !Trap(v)
    && (BindingShape(v) == ExprShape ==> ArgumentsTrapFree(v.fields["expr"]))
    && (BindingShape(v) == Application ==> ArgumentsTrapFree(v))
  }

  predicate ArgumentsTrapFree(e: Value)
    decreases e, 0
  {
    e.Obj? && "args" in e.fields && e.fields["args"].Arr? ==>
      forall i :: 0 <= i < |e.fields["args"].items| ==> TrapFree(e.fields["args"].items[i])
  }

  // ----- shapes, as each checker tells them apart -----

  lemma ShapeKeys(v: Value)
    requires v.Obj?
    ensures BindingShape(v) == PathShape <==> v.fields.Keys == {"path"} && v.fields["path"].Str?
    ensures BindingShape(v) == ExprShape <==> v.fields.Keys == {"expr"} && v.fields["expr"].Obj?
    ensures BindingShape(v) == Application <==>
              v.fields.Keys == {"op", "args"} && v.fields["op"].Str? && v.fields["args"].Arr?
  {
    var o := v.fields;
    if |o| == 1 && "path" in o {
      SA.OneKey(o, "path");
    }
    if |o| == 1 && "expr" in o {
      SA.OneKey(o, "expr");
    }
    if |o| == 2 && "op" in o && "args" in o {
      TwoKeys(o);
    }
    assert o.Keys == {"path"} ==> |o.Keys| == 1;
    assert o.Keys == {"expr"} ==> |o.Keys| == 1;
    assert o.Keys == {"op", "args"} ==> |o.Keys| == 2;
  }

  lemma TwoKeys(o: Object)
    requires |o| == 2 && "op" in o && "args" in o
    ensures o.Keys == {"op", "args"}
  {
    assert |o.Keys - {"op", "args"}| == 0;
  }

  // ----- evaluated values -----

  /** What the decoder makes of a value the validator has typed. */
  ghost predicate Agrees(t: Typing, u: Typing)
  {
    && u.expression == t.expression
    && (u.kind == UNKNOWN || (t.kind in {"number", "boolean"} ==> u.kind == t.kind))
    && (t.expression ==> u.kind == UNKNOWN || u.kind == t.kind)
  }

  lemma {:induction false} EvaluateAgrees(c: NR.Context, paths: Paths, v: Value, depth: nat)
    requires Alike(c) && Evaluate(c, paths, v, depth).Some?
    ensures T.Evaluate(Decoding(c), v).Some? <==> TrapFree(v)
    ensures TrapFree(v) ==> Agrees(Evaluate(c, paths, v, depth).value, T.Evaluate(Decoding(c), v).value)
    decreases v, 1
  {
    if v.Obj? {
      ShapeKeys(v);
      match BindingShape(v)
      case Plain => PlainAgrees(c, v);
      case PathShape =>
      case ExprShape => CallAgrees(c, paths, v.fields["expr"], depth + 1);
      case Application => CallAgrees(c, paths, v, depth);
    }
  }

  lemma PlainAgrees(c: NR.Context, v: Value)
    requires v.Obj? && BindingShape(v) == Plain
    ensures T.Evaluate(Decoding(c), v).Some? <==> !Trap(v)
    ensures !Trap(v) ==> T.Evaluate(Decoding(c), v) == Some(Typing("object", false))
  {
    ShapeKeys(v);
  }

  lemma {:induction false} CallAgrees(c: NR.Context, paths: Paths, e: Value, depth: nat)
    requires Alike(c) && e.Obj? && CheckExpression(c, paths, e, depth).Some?
    ensures T.CheckExpression(Decoding(c), e).Some? <==> ArgumentsTrapFree(e)
    ensures ArgumentsTrapFree(e) ==> T.CheckExpression(Decoding(c), e) == CheckExpression(c, paths, e, depth)
    decreases e, 0
  {
    var args := e.fields["args"].items;
    var rule := c.catalog.expressions[e.fields["op"].text];
    forall i | 0 <= i < |args|
      ensures T.Evaluate(Decoding(c), args[i]).Some? <==> TrapFree(args[i])
      ensures TrapFree(args[i]) ==> NR.ArgumentOk(rule, T.Evaluate(Decoding(c), args[i]).value.kind)
    {
      EvaluateAgrees(c, paths, args[i], depth + 1);
      ArgumentAgrees(c, paths, rule, args[i], depth + 1);
    }
    GuardAgrees(paths, rule, args);
  }

  lemma ArgumentAgrees(c: NR.Context, paths: Paths, rule: ExpressionRule, v: Value, depth: nat)
    requires ExpressionOk(rule) && Evaluate(c, paths, v, depth).Some?
    requires NR.ArgumentOk(rule, Evaluate(c, paths, v, depth).value.kind)
    requires T.Evaluate(Decoding(c), v).Some? ==>
               Agrees(Evaluate(c, paths, v, depth).value, T.Evaluate(Decoding(c), v).value)
    ensures T.Evaluate(Decoding(c), v).Some? ==> NR.ArgumentOk(rule, T.Evaluate(Decoding(c), v).value.kind)
  {
  }

  lemma GuardAgrees(paths: Paths, rule: ExpressionRule, args: seq<Value>)
    requires NR.ArityOk(rule, |args|) && NR.ConstraintOk(paths, rule, args)
    requires rule.constraint == "nonNegative" ==> rule.maxArgs == Some(1)
    requires rule.constraint == "nonZeroDivisor" ==> rule.maxArgs == Some(2)
    ensures T.ConstraintOk(rule, args)
  {
  }

  // ----- literals and values -----

  lemma {:induction false} RunesWithinUnits(s: string)
    ensures |s| <= T.Utf16Length(s) <= 2 * |s|
  {
    if s != "" {
      RunesWithinUnits(s[..|s| - 1]);
    }
  }

  lemma LiteralAgrees(c: NR.Context, v: Value, rule: ValueRule)
    requires RuleOk(rule) && LiteralFits(c, v, rule)
    ensures T.LiteralFits(Decoding(c), v, rule)
  {
    if v.Str? {
      RunesWithinUnits(v.text);
    }
    KindAgrees(v, rule.kind);
  }

  lemma KindAgrees(v: Value, kind: string)
    requires NR.KindFits(v, kind)
    ensures T.KindFits(v, kind)
  {
  }

  /** A value the validator accepts, the decoder accepts exactly if it holds no trap. */
  lemma ValueAgrees(c: NR.Context, paths: Paths, v: Value, rule: ValueRule)
    requires Alike(c) && RuleOk(rule) && TypeFits(c, paths, v, rule)
    ensures T.ValueFits(Decoding(c), v, rule) <==> (rule.binding ==> TrapFree(v))
  {
    if rule.binding {
      EvaluateAgrees(c, paths, v, 1);
      if !Evaluate(c, paths, v, 1).value.expression {
        LiteralAgrees(c, v, rule);
      }
    } else {
      LiteralAgrees(c, v, rule);
    }
  }

  // ----- actions, nodes and documents -----

  predicate ActionTrapFree(c: Catalog, v: Value)
  {
    v.Obj? && ActionKnown(c, v.fields) && "value" in v.fields ==>
      var rule := c.actions[v.fields["type"].text].valueRule;
      rule.Some? && rule.value.binding ==> TrapFree(v.fields["value"])
  }

  predicate EventTrapFree(c: Catalog, v: Value)
  {
    v.Arr? ==> forall i :: 0 <= i < |v.items| ==> ActionTrapFree(c, v.items[i])
  }

  predicate PropTrapFree(rule: ComponentRule, name: string, v: Value)
  {
    name in rule.allowedProps && rule.allowedProps[name].binding ==> TrapFree(v)
  }

  predicate OwnTrapFree(c: Catalog, o: Object)
  {
    HasText(o, "type") && o["type"].text in c.components ==>
      && (forall name :: name in ObjectPart(o, "props") ==>
            PropTrapFree(c.components[o["type"].text], name, ObjectPart(o, "props")[name]))
      && (forall name :: name in ObjectPart(o, "events") ==> EventTrapFree(c, ObjectPart(o, "events")[name]))
  }

  /** No trap in any bindable place of the tree. */
  ghost predicate TreeTrapFree(c: Catalog, v: Value)
    decreases v
  {
    v.Obj? ==>
      && OwnTrapFree(c, v.fields)
      && var children := ArrayPart(v.fields, "children");
         forall i :: 0 <= i < |children| ==> TreeTrapFree(c, children[i])
  }

  lemma ActionAgrees(c: NR.Context, paths: Paths, v: Value)
    requires Alike(c) && ActionOk(c, paths, v)
    ensures T.ActionFits(Decoding(c), v) <==> ActionTrapFree(c.catalog, v)
  {
    var a := v.fields;
    var rule := c.catalog.actions[a["type"].text];
    assert ActionFieldsOk(rule);
    if "path" in a {
      NonEmptyPath(a["path"].text);
    }
    if "value" in a && rule.valueRule.Some? {
      ValueAgrees(c, paths, a["value"], rule.valueRule.value);
    }
  }

  lemma NonEmptyPath(path: string)
    requires ValidPath(path)
    ensures path != ""
  {
    assert Text.Split("", '.') == [""] && Text.Split(path, '.')[0] != "";
  }

  lemma EventAgrees(c: NR.Context, paths: Paths, v: Value)
    requires Alike(c) && ActionsFit(c, paths, v)
    ensures T.EventFits(Decoding(c), v) <==> EventTrapFree(c.catalog, v)
  {
    forall i | 0 <= i < |v.items|
      ensures T.ActionFits(Decoding(c), v.items[i]) <==> ActionTrapFree(c.catalog, v.items[i])
    {
      assert ActionOk(c, paths, v.items[i]);
      ActionAgrees(c, paths, v.items[i]);
    }
  }

  lemma OwnAgrees(c: NR.Context, paths: Paths, o: Object)
    requires Alike(c) && ND.NodeLocal(c, paths, o)
    ensures T.NodeLocal(Decoding(c), o) <==> OwnTrapFree(c.catalog, o)
  {
    var rule := c.catalog.components[o["type"].text];
    var props, events := ObjectPart(o, "props"), ObjectPart(o, "events");
    assert ComponentOk(rule);
    forall name | name in props
      ensures T.PropFits(Decoding(c), rule, name, props[name]) <==> PropTrapFree(rule, name, props[name])
    {
      assert PropOk(c, paths, rule, name, props[name]);
      ValueAgrees(c, paths, props[name], rule.allowedProps[name]);
    }
    forall name | name in events
      ensures T.EventFits(Decoding(c), events[name]) <==> EventTrapFree(c.catalog, events[name])
    {
      EventAgrees(c, paths, events[name]);
    }
    assert Text.Trim("") == "";
  }

  lemma {:induction false} TreeAgrees(c: NR.Context, paths: Paths, v: Value, depth: nat)
    requires Alike(c) && ND.NodeFits(c, paths, v, depth)
    ensures T.NodeFits(Decoding(c), v, depth) <==> TreeTrapFree(c.catalog, v)
    decreases v
  {
    OwnAgrees(c, paths, v.fields);
    var children := ArrayPart(v.fields, "children");
    var below := depth + 1;
    forall i | 0 <= i < |children|
      ensures T.NodeFits(Decoding(c), children[i], below) <==> TreeTrapFree(c.catalog, children[i])
    {
      assert ND.NodeFits(c, paths, children[i], depth + 1);
      TreeAgrees(c, paths, children[i], below);
    }
  }

  /** Of the accepted documents, the decoder takes exactly those without a trap. */
  lemma AcceptedIsDecoded(c: NR.Context, document: Value)
    requires CatalogOk(c.catalog) && GuardsFixed(c.catalog) && LimitsFixed(c.catalog) && SA.PathPatterns(c.matches)
    requires ND.DocumentOk(c, document)
    ensures T.DocumentOk(Decoding(c), document) <==> TreeTrapFree(c.catalog, document.fields["root"])
  {
    var root := document.fields["root"];
    var paths :| StatePaths.IsIndex(paths, document.fields["initialState"].fields) && ND.NodeFits(c, paths, root, 1);
    TreeAgrees(c, paths, root, 1);
  }

  /** A trap does occur: plain data to the validator, a malformed call to the decoder. */
  lemma TrapsDiffer(c: NR.Context, paths: Paths, rule: ValueRule)
    requires rule == ValueRule("any", true, [], None, None, None, "", false)
    ensures var v := Obj(map["op" := Int(1), "args" := Arr([])]);
            TypeFits(c, paths, v, rule) && !T.ValueFits(Decoding(c), v, rule)
  {
    var v := Obj(map["op" := Int(1), "args" := Arr([])]);
    ShapeKeys(v);
    assert v.fields.Keys == {"op", "args"};
  }
}
