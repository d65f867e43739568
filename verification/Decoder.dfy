/** The TypeScript decoder of NativeCards: a second checker over the same catalog. */
module Decoder {
  import opened Prelude
  import opened Json
  import opened NativeCatalog
  import NR = NativeRules
  import ND = NativeDocument
  import SM = SchemaModel
  import NS = NativeSchema

  const MAX_DEPTH: nat := 32
  const MAX_NODES: nat := 500
  const MAX_CHILDREN: nat := 200

  /** The catalog, and RegExp.test. */
  datatype Context = Context(catalog: Catalog, matches: (string, string) -> bool)

  /** A JavaScript string's length: two units for a code point outside the basic plane. */
  function Utf16Length(s: string): nat
  {
    if s == "" then 0 else Utf16Length(s[..|s| - 1]) + if s[|s| - 1] > '\U{FFFF}' then 2 else 1
  }

  predicate IsText(o: Object, name: string)
  {
    name in o && o[name].Str? && o[name].text != ""
  }

  /** Number.isInteger. */
  predicate IsInteger(v: Value)
  {
    IsNumber(v) && NumberOf(v).value.Floor as real == NumberOf(v).value
  }

  function LiteralType(v: Value): string
  {
    match v
    case Int(_) => "number"
    case Dec(_) => "number"
    case Str(_) => "string"
    case Bool(_) => "boolean"
    case Arr(_) => "array"
    case Obj(_) => "object"
    case Null => NR.UNKNOWN
  }

  // ----- evaluated values -----

  predicate ConstraintOk(rule: ExpressionRule, args: seq<Value>)
  {
    && (rule.constraint == "nonNegative" && |args| > 0 && IsNumber(args[0]) ==> NumberOf(args[0]).value >= 0.0)
    && (rule.constraint == "nonZeroDivisor" && |args| > 1 && IsNumber(args[1]) ==> NumberOf(args[1]).value != 0.0)
  }

  /** validateEvaluated; None is a thrown error. */
  function Evaluate(c: Context, v: Value): Option<NR.Typing>
    decreases v, 1
  {
    if !v.Obj? then Some(NR.Typing(LiteralType(v), false))
    else
      var o := v.fields;
      if o.Keys == {"path"} && o["path"].Str? then
        if c.matches(NS.EXPRESSION_PATH_PATTERN, o["path"].text) then Some(NR.Typing(NR.UNKNOWN, true)) else None
      else if o.Keys == {"expr"} && o["expr"].Obj? then
        var r := CheckExpression(c, o["expr"]);
        if r.Some? then Some(NR.Typing(r.value, true)) else None
      else if o.Keys == {"op", "args"} then
        var r := CheckExpression(c, v);
        if r.Some? then Some(NR.Typing(r.value, true)) else None
      else Some(NR.Typing("object", false))
  }

  /** validateExpression. */
  function CheckExpression(c: Context, e: Value): Option<string>
    requires e.Obj?
    decreases e, 0
  {
    var o := e.fields;
    if !(o.Keys <= {"op", "args"}) || !IsText(o, "op") || o["op"].text !in c.catalog.expressions then None
    else if "args" !in o || !o["args"].Arr? then None
    else
      var rule, args := c.catalog.expressions[o["op"].text], o["args"].items;
      if !NR.ArityOk(rule, |args|) then None
      else if exists i :: 0 <= i < |args| &&
                var t := Evaluate(c, args[i]); t.None? || !NR.ArgumentOk(rule, t.value.kind) then None
      else if !ConstraintOk(rule, args) then None
      else Some(rule.resultType)
  }

  // ----- literals -----

  predicate TimerOk(v: Value)
  {
    && v.Obj? && v.fields.Keys <= {"intervalMs", "delta", "stopAt"}
    && "intervalMs" in v.fields && IsInteger(v.fields["intervalMs"]) && NumberOf(v.fields["intervalMs"]).value > 0.0
    && "delta" in v.fields && IsNumber(v.fields["delta"])
    && ("stopAt" in v.fields ==> IsNumber(v.fields["stopAt"]))
  }

  predicate KindFits(v: Value, kind: string)
  {
    match kind
    case "any" => true
    case "string" => v.Str?
    case "number" => IsNumber(v)
    case "integer" => IsInteger(v)
    case "boolean" => v.Bool?
    case "stringList" => NR.AllStrings(v)
    case "numberList" => NR.AllNumbers(v)
    case "object" => v.Obj?
    case "timerConfiguration" => TimerOk(v)
    case _ => false
  }

  predicate Primitive(v: Value)
  {
    !v.Arr? && !v.Obj?
  }

  /** No two elements that a Set would merge. */
  predicate SetKeepsAll(items: seq<Value>)
  {
    forall i, j :: 0 <= i < j < |items| ==> !(Primitive(items[i]) && SM.Same(items[i], items[j]))
  }

  predicate LiteralFits(c: Context, v: Value, rule: ValueRule)
  {
    && KindFits(v, rule.kind)
    && (rule.enum != [] ==> v.Str? && v.text in rule.enum)
    && NR.BoundsOk(v, rule)
    && (v.Str? ==>
          && (rule.minLength.Some? ==> Utf16Length(v.text) >= rule.minLength.value)
          && (rule.pattern != "" ==> c.matches(rule.pattern, v.text)))
    && (v.Arr? && rule.uniqueItems ==> SetKeepsAll(v.items))
  }

  /** validateValue. */
  predicate ValueFits(c: Context, v: Value, rule: ValueRule)
  {
    if rule.binding then
      var t := Evaluate(c, v);
      t.Some?
      && if t.value.expression then t.value.kind == NR.UNKNOWN || rule.kind == "any" || t.value.kind == rule.kind
                 else LiteralFits(c, v, rule)
    else LiteralFits(c, v, rule)
  }

  // ----- actions -----

  /** decodeAction. */
  predicate ActionFits(c: Context, v: Value)
  {
    && v.Obj?
    && var a := v.fields;
       && IsText(a, "type") && a["type"].text in c.catalog.actions
       && var rule := c.catalog.actions[a["type"].text];
          && a.Keys <= {"type"} + ND.Elements(rule.requiredFields) + ND.Elements(rule.optionalFields)
          && (forall f :: f in rule.requiredFields ==> f in a)
          && ("path" in a ==> IsText(a, "path") && c.matches(NS.STATE_PATH_PATTERN, a["path"].text))
          && ("params" in a ==> a["params"].Obj?)
          && ("value" in a && rule.valueRule.Some? ==> ValueFits(c, a["value"], rule.valueRule.value))
          && (a["type"].text == ND.INVOKE ==> IsText(a, "method") && Supported(c, a["method"].text))
  }

  predicate Supported(c: Context, name: string)
  {
    name in c.catalog.capabilityMethods && c.catalog.capabilityMethods[name].nativeSupported
  }

  predicate EventFits(c: Context, v: Value)
  {
    && v.Arr? && |v.items| <= c.catalog.limits.maxActionsPerEvent
    && forall i :: 0 <= i < |v.items| ==> ActionFits(c, v.items[i])
  }

  // ----- nodes -----

  predicate PropFits(c: Context, rule: ComponentRule, name: string, v: Value)
  {
    name in rule.allowedProps && ValueFits(c, v, rule.allowedProps[name])
  }

  /** One node, the count and its children aside. */
  predicate NodeLocal(c: Context, o: Object)
  {
    && o.Keys <= {"id", "type", "props", "events", "children"}
    && IsText(o, "type") && o["type"].text in c.catalog.components && ND.PartKinds(o)
    && var rule, props, events := c.catalog.components[o["type"].text], ND.ObjectPart(o, "props"),
       ND.ObjectPart(o, "events");
       && (forall name :: name in rule.requiredProps ==> name in props)
       && (forall name :: name in props ==> PropFits(c, rule, name, props[name]))
       && (forall name :: name in events ==> name in rule.allowedEvents && EventFits(c, events[name]))
       && |ND.ArrayPart(o, "children")| <= MAX_CHILDREN && IsText(o, "id")
  }

  ghost predicate NodeFits(c: Context, v: Value, depth: nat)
    decreases v
  {
    && v.Obj? && depth <= MAX_DEPTH && NodeLocal(c, v.fields)
    && var children := ND.ArrayPart(v.fields, "children");
       forall i :: 0 <= i < |children| ==> NodeFits(c, children[i], depth + 1)
  }

  /** Everything decodeNativeCard insists on. */
  ghost predicate DocumentOk(c: Context, document: Value)
  {
    && document.Obj?
    && var o := document.fields;
       && o.Keys <= {"schemaVersion", "initialState", "root"}
       && "schemaVersion" in o && IsInteger(o["schemaVersion"]) && NumberOf(o["schemaVersion"]).value == 1.0
       && "initialState" in o && o["initialState"].Obj?
       && "root" in o && NodeFits(c, o["root"], 1) && ND.Nodes(o["root"]) <= MAX_NODES
  }

  // ----- the decoder as it runs -----

  /** The counter that the recursive calls share. */
  class Counter {
    var value: nat

    constructor ()
      ensures value == 0
    {
      value := 0;
    }
  }

  /** decodeNode, as far as it accepts or throws. */
  method DecodeNode(c: Context, v: Value, depth: nat, counter: Counter) returns (ok: bool)
    requires counter.value <= MAX_NODES
    modifies counter
    ensures ok <==> NodeFits(c, v, depth) && old(counter.value) + ND.Nodes(v) <= MAX_NODES
    ensures ok ==> counter.value == old(counter.value) + ND.Nodes(v)
    decreases v, 1
  {
    if depth > MAX_DEPTH {
      return false;
    }
    counter.value := counter.value + 1;
    if counter.value > MAX_NODES {
      return false;
    }
    if !v.Obj? || !NodeLocal(c, v.fields) {
      return false;
    }
    ND.Unfolded(c.catalog, v);
    var children := ND.ArrayPart(v.fields, "children");
    var below := depth + 1;
    ok := DecodeChildren(c, children, v, below, counter);
    assert NodeFits(c, v, depth) <==> forall i :: 0 <= i < |children| ==> NodeFits(c, children[i], below);
  }

  method DecodeChildren(c: Context, children: seq<Value>, ghost v: Value, below: nat, counter: Counter)
    returns (ok: bool)
    requires v.Obj? && children == ND.ArrayPart(v.fields, "children") && counter.value <= MAX_NODES
    modifies counter
    ensures ok <==> (forall i :: 0 <= i < |children| ==> NodeFits(c, children[i], below))
                    && old(counter.value) + Sum(ND.ChildNodes(children)) <= MAX_NODES
    ensures ok ==> counter.value == old(counter.value) + Sum(ND.ChildNodes(children))
    decreases v, 0
  {
    ghost var counts := ND.ChildNodes(children);
    for i := 0 to |children|
      invariant counter.value <= MAX_NODES && counter.value == old(counter.value) + Sum(counts[..i])
      invariant forall k {:trigger NodeFits(c, children[k], below)} :: 0 <= k < i ==> NodeFits(c, children[k], below)
    {
      SumNext(counts, i);
      SumPart(counts, i + 1);
      ok := DecodeNode(c, children[i], below, counter);
      if !ok {
        return false;
      }
    }
    assert counts[..|children|] == counts;
    return true;
  }

  method DecodeNativeCard(c: Context, document: Value) returns (ok: bool)
    ensures ok <==> DocumentOk(c, document)
  {
    if !document.Obj? {
      return false;
    }
    var o := document.fields;
    if !(o.Keys <= {"schemaVersion", "initialState", "root"}) {
      return false;
    }
    if "schemaVersion" !in o || !IsInteger(o["schemaVersion"]) || NumberOf(o["schemaVersion"]).value != 1.0 {
      return false;
    }
    if "initialState" !in o || !o["initialState"].Obj? || "root" !in o {
      return false;
    }
    var counter := new Counter();
    ok := DecodeNode(c, o["root"], 1, counter);
  }
}
