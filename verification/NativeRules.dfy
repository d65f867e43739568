/** The checks of the NativeCard validator that only read: paths, bindings, expressions, literals. */
module NativeRules {
  import opened Prelude
  import opened Json
  import opened NativeCatalog
  import opened Text

  /** What every check may consult; `matches` is regexp.MatchString, false for a malformed pattern. */
  datatype Context = Context(catalog: Catalog, allowed: set<string>, matches: (string, string) -> bool)

  /** initialState's values by dotted path. */
  type Paths = map<string, Value>

  // ----- paths -----

  predicate ValidSegments(segments: seq<string>)
  {
    segments != [] && forall i :: 0 <= i < |segments| ==> segments[i] != ""
  }

  predicate ValidPath(path: string)
  {
    ValidSegments(Split(path, '.'))
  }

  const STATE_PREFIX := "state."

  predicate ValidExpressionPath(path: string)
  {
    STATE_PREFIX <= path && ValidPath(path[|STATE_PREFIX|..])
  }

  function Relative(path: string): string
  {
    if STATE_PREFIX <= path then path[|STATE_PREFIX|..] else path
  }

  // ----- objects -----

  /** validateObjectFields. */
  predicate FieldsOk(o: Object, allowed: set<string>, required: set<string>)
  {
    o.Keys <= allowed && required <= o.Keys
  }

  predicate HasText(o: Object, name: string)
  {
    name in o && o[name].Str?
  }

  // ----- bindings and types -----

  datatype Shape = Plain | PathShape | ExprShape | Application

  function BindingShape(v: Value): Shape
  {
    if !v.Obj? then Plain
    else
      var o := v.fields;
      if |o| == 1 && HasText(o, "path") then PathShape
      else if |o| == 1 && "expr" in o && o["expr"].Obj? then ExprShape
      else if |o| == 2 && HasText(o, "op") && "args" in o && o["args"].Arr? then Application
      else Plain
  }

  const UNKNOWN := "unknown"

  function LiteralType(v: Value): string
  {
    match v
    case Int(_) => "number"
    case Dec(_) => "number"
    case Str(_) => "string"
    case Bool(_) => "boolean"
    case Arr(items) =>
      if items == [] then "emptyList"
      else if forall i :: 0 <= i < |items| ==> IsNumber(items[i]) then "numberList"
      else if forall i :: 0 <= i < |items| ==> items[i].Str? then "stringList"
      else "array"
    case Obj(_) => "object"
    case Null => "null"
  }

  predicate Compatible(actual: string, expected: string)
  {
    || expected == "any" || actual == expected
    || (actual == "emptyList" && (expected == "numberList" || expected == "stringList"))
  }

  /** A number known without evaluating anything. */
  function StaticNumber(paths: Paths, v: Value): Option<real>
  {
    if IsNumber(v) then NumberOf(v)
    else if BindingShape(v) != PathShape then None
    else
      var path := v.fields["path"].text;
      if ValidExpressionPath(path) && Relative(path) in paths then NumberOf(paths[Relative(path)]) else None
  }

  predicate ArityOk(rule: ExpressionRule, n: nat)
  {
    n >= rule.minArgs && (rule.maxArgs.Some? ==> n <= rule.maxArgs.value)
  }

  predicate ArgumentOk(rule: ExpressionRule, kind: string)
  {
    rule.argumentType == "any" || kind == UNKNOWN || kind == rule.argumentType
  }

  predicate ConstraintOk(paths: Paths, rule: ExpressionRule, args: seq<Value>)
  {
    && (rule.constraint == "nonNegative" && |args| == 1 ==>
          var n := StaticNumber(paths, args[0]); n.Some? ==> n.value >= 0.0)
    && (rule.constraint == "nonZeroDivisor" && |args| == 2 ==>
          var n := StaticNumber(paths, args[1]); n.Some? ==> n.value != 0.0)
  }

  datatype Typing = Typing(kind: string, expression: bool)

  /** validateEvaluatedValue; None is an error. */
  function Evaluate(c: Context, paths: Paths, v: Value, depth: nat): Option<Typing>
    decreases v, 1
  {
    if BindingShape(v) == Plain then Some(Typing(LiteralType(v), false))
    else if depth > c.catalog.limits.maxExpressionDepth then None
    else
      match BindingShape(v)
      case PathShape =>
        var path := v.fields["path"].text;
        if ValidExpressionPath(path) && Relative(path) in paths
        then Some(Typing(LiteralType(paths[Relative(path)]), true)) else None
      case ExprShape =>
        var r := CheckExpression(c, paths, v.fields["expr"], depth + 1);
        if r.Some? then Some(Typing(r.value, true)) else None
      case Application =>
        var r := CheckExpression(c, paths, v, depth);
        if r.Some? then Some(Typing(r.value, true)) else None
  }

  /** validateExpression. */
  function CheckExpression(c: Context, paths: Paths, e: Value, depth: nat): Option<string>
    requires e.Obj?
    decreases e, 0
  {
    var o := e.fields;
    if depth > c.catalog.limits.maxExpressionDepth then None
    else if !FieldsOk(o, {"op", "args"}, {"op", "args"}) then None
    else if !o["op"].Str? || o["op"].text == "" || o["op"].text !in c.catalog.expressions || !o["args"].Arr? then None
    else
      var rule, args := c.catalog.expressions[o["op"].text], o["args"].items;
      if !ArityOk(rule, |args|) then None
      else if exists i :: 0 <= i < |args| &&
                var t := Evaluate(c, paths, args[i], depth + 1); t.None? || !ArgumentOk(rule, t.value.kind) then None
      else if !ConstraintOk(paths, rule, args) then None
      else Some(rule.resultType)
  }

  // ----- literals -----

  predicate TimerOk(v: Value)
  {
    && v.Obj? && FieldsOk(v.fields, {"intervalMs", "delta", "stopAt"}, {"intervalMs", "delta"})
    && v.fields["intervalMs"].Int? && v.fields["intervalMs"].int_ > 0
    && IsNumber(v.fields["delta"])
    && ("stopAt" in v.fields ==> IsNumber(v.fields["stopAt"]))
  }

  predicate AllStrings(v: Value)
  {
    v.Arr? && forall i :: 0 <= i < |v.items| ==> v.items[i].Str?
  }

  predicate AllNumbers(v: Value)
  {
    v.Arr? && forall i :: 0 <= i < |v.items| ==> IsNumber(v.items[i])
  }

  /** validateLiteralValue. */
  predicate KindFits(v: Value, kind: string)
  {
    match kind
    case "any" => true
    case "string" => v.Str?
    case "number" => IsNumber(v)
    case "integer" => v.Int?
    case "boolean" => v.Bool?
    case "stringList" => AllStrings(v)
    case "numberList" => AllNumbers(v)
    case "object" => v.Obj?
    case "timerConfiguration" => TimerOk(v)
    case _ => false
  }

  predicate BoundsOk(v: Value, rule: ValueRule)
  {
    IsNumber(v) ==>
      && (rule.minimum.Some? ==> NumberOf(v).value >= rule.minimum.value)
      && (rule.maximum.Some? ==> NumberOf(v).value <= rule.maximum.value)
  }

  predicate TextOk(c: Context, v: Value, rule: ValueRule)
  {
    v.Str? ==>
      && (rule.minLength.Some? ==> |v.text| >= rule.minLength.value)
      && (rule.pattern != "" ==> c.matches(rule.pattern, v.text))
  }

  predicate UniqueStrings(v: Value)
  {
    AllStrings(v) && forall i, j :: 0 <= i < j < |v.items| ==> v.items[i] != v.items[j]
  }

  predicate LiteralFits(c: Context, v: Value, rule: ValueRule)
  {
    && KindFits(v, rule.kind)
    && (rule.enum != [] ==> v.Str? && v.text in rule.enum)
    && BoundsOk(v, rule) && TextOk(c, v, rule)
    && (rule.uniqueItems ==> UniqueStrings(v))
  }

  // ----- data limits -----

  ghost predicate DataFits(limits: Limits, v: Value, depth: nat)
  {
    && depth <= limits.maxDataDepth
    && match v
       case Obj(fields) =>
         |fields| <= limits.maxContainerItems && forall k :: k in fields ==> DataFits(limits, fields[k], depth + 1)
       case Arr(items) =>
         |items| <= limits.maxContainerItems && forall i :: 0 <= i < |items| ==> DataFits(limits, items[i], depth + 1)
       case _ => true
  }

  /** The type rules of one value, after its data has been counted. */
  predicate TypeFits(c: Context, paths: Paths, v: Value, rule: ValueRule)
  {
    if rule.binding then
      var t := Evaluate(c, paths, v, 1);
      t.Some? && if t.value.expression then t.value.kind == UNKNOWN || Compatible(t.value.kind, rule.kind)
                 else LiteralFits(c, v, rule)
    else BindingShape(v) == Plain && LiteralFits(c, v, rule)
  }

  /** validateValue, apart from the data budget. */
  ghost predicate ValueFits(c: Context, paths: Paths, v: Value, rule: ValueRule)
  {
    DataFits(c.catalog.limits, v, 1) && TypeFits(c, paths, v, rule)
  }
}
