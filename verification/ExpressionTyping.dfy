/**
 Expressions typed by derivation: a tree of rule applications that mentions no depth, and the
 theorem that the checker accepts exactly what can be derived within its nesting limit.
 */
module ExpressionTyping {
  import opened Prelude
  import opened Json
  import opened NativeRules

  datatype Derivation =
    | Literal
    | PathLeaf
    | Wrapped(inner: Derivation)
    | Applied(arguments: seq<Derivation>, kinds: seq<Typing>)

  /** The judgement: `d` shows that `v` has type `t`. */
  ghost predicate Derives(c: Context, paths: Paths, d: Derivation, v: Value, t: Typing)
    decreases d, 1
  {
    match d
    case Literal => BindingShape(v) == Plain && t == Typing(LiteralType(v), false)
    case PathLeaf =>
      && BindingShape(v) == PathShape && ValidExpressionPath(v.fields["path"].text)
      && Relative(v.fields["path"].text) in paths
      && t == Typing(LiteralType(paths[Relative(v.fields["path"].text)]), true)
    case Wrapped(inner) =>
      BindingShape(v) == ExprShape && inner.Applied? && DerivesCall(c, paths, inner, v.fields["expr"], t)
    case Applied(_, _) => BindingShape(v) == Application && DerivesCall(c, paths, d, v, t)
  }

  /** An operator of the catalog, with the right number of arguments of the right types. */
  ghost predicate DerivesCall(c: Context, paths: Paths, d: Derivation, e: Value, t: Typing)
    requires d.Applied?
    decreases d, 0
  {
    && e.Obj? && e.fields.Keys == {"op", "args"} && e.fields["op"].Str? && e.fields["args"].Arr?
    && e.fields["op"].text != "" && e.fields["op"].text in c.catalog.expressions
    && var rule, args := c.catalog.expressions[e.fields["op"].text], e.fields["args"].items;
       && ArityOk(rule, |args|) && |d.arguments| == |d.kinds| == |args|
       && (forall i :: 0 <= i < |args| ==>
             Derives(c, paths, d.arguments[i], args[i], d.kinds[i]) && ArgumentOk(rule, d.kinds[i].kind))
       && ConstraintOk(paths, rule, args)
       && t == Typing(rule.resultType, true)
  }

  /** The greatest of some numbers, 0 if there are none. */
  function Most(s: seq<nat>): (m: nat)
    ensures forall i :: 0 <= i < |s| ==> s[i] <= m
    ensures s != [] ==> m in s
    ensures s == [] ==> m == 0
  {
    if s == [] then 0
    else
      var rest := Most(s[..|s| - 1]);
      assert forall i :: 0 <= i < |s| - 1 ==> s[i] == s[..|s| - 1][i];
      if s[|s| - 1] >= rest then s[|s| - 1] else rest
  }

  /** Levels a derivation nests: literals count for nothing. */
  function Nesting(d: Derivation): nat
  {
    match d
    case Literal => 0
    case PathLeaf => 1
    case Wrapped(inner) => 1 + Nesting(inner)
    case Applied(arguments, _) => 1 + Most(seq(|arguments|, i requires 0 <= i < |arguments| => Nesting(arguments[i])))
  }

  /** Starting at `depth`, every level stays within the limit. */
  predicate Within(d: Derivation, depth: nat, limit: int)
  {
    Nesting(d) > 0 ==> depth + Nesting(d) - 1 <= limit
  }

  lemma WithinApplied(d: Derivation, depth: nat, limit: int)
    requires d.Applied?
    ensures Within(d, depth, limit) <==>
              depth <= limit && forall i :: 0 <= i < |d.arguments| ==> Within(d.arguments[i], depth + 1, limit)
  {
    var levels := seq(|d.arguments|, i requires 0 <= i < |d.arguments| => Nesting(d.arguments[i]));
    assert Nesting(d) == 1 + Most(levels);
    assert forall i :: 0 <= i < |d.arguments| ==> levels[i] == Nesting(d.arguments[i]);
    if levels != [] {
      var i :| 0 <= i < |levels| && levels[i] == Most(levels);
      assert Within(d.arguments[i], depth + 1, limit) <==> (levels[i] > 0 ==> depth + levels[i] <= limit);
    }
  }

  // ----- what is accepted can be derived -----

  ghost predicate Derivable(c: Context, paths: Paths, v: Value, t: Typing, depth: nat)
  {
    exists d :: Derives(c, paths, d, v, t) && Within(d, depth, c.catalog.limits.maxExpressionDepth)
  }

  lemma {:induction false} AcceptedDerives(c: Context, paths: Paths, v: Value, depth: nat) returns (d: Derivation)
    requires Evaluate(c, paths, v, depth).Some?
    ensures Derives(c, paths, d, v, Evaluate(c, paths, v, depth).value)
    ensures Within(d, depth, c.catalog.limits.maxExpressionDepth)
    decreases v, 1
  {
    match BindingShape(v)
    case Plain => d := Literal;
    case PathShape => d := PathLeaf;
    case ExprShape =>
      var inner := AcceptedCallDerives(c, paths, v.fields["expr"], depth + 1);
      d := Wrapped(inner);
    case Application => d := AcceptedCallDerives(c, paths, v, depth);
  }

  lemma {:induction false} AcceptedCallDerives(c: Context, paths: Paths, e: Value, depth: nat) returns (d: Derivation)
    requires e.Obj? && CheckExpression(c, paths, e, depth).Some?
    ensures d.Applied? && DerivesCall(c, paths, d, e, Typing(CheckExpression(c, paths, e, depth).value, true))
    ensures Within(d, depth, c.catalog.limits.maxExpressionDepth)
    decreases e, 0
  {
    var args := e.fields["args"].items;
    var arguments, kinds := [], [];
    for i := 0 to |args|
      invariant |arguments| == |kinds| == i
      invariant forall k :: 0 <= k < i ==>
                  Evaluate(c, paths, args[k], depth + 1) == Some(kinds[k])
                  && Derives(c, paths, arguments[k], args[k], kinds[k])
                  && Within(arguments[k], depth + 1, c.catalog.limits.maxExpressionDepth)
    {
      var argument := AcceptedDerives(c, paths, args[i], depth + 1);
      arguments, kinds := arguments + [argument], kinds + [Evaluate(c, paths, args[i], depth + 1).value];
    }
    d := Applied(arguments, kinds);
    WithinApplied(d, depth, c.catalog.limits.maxExpressionDepth);
  }

  // ----- what can be derived is accepted -----

  lemma {:induction false} DerivedAccepts(c: Context, paths: Paths, d: Derivation, v: Value, t: Typing, depth: nat)
    requires Derives(c, paths, d, v, t) && Within(d, depth, c.catalog.limits.maxExpressionDepth)
    ensures Evaluate(c, paths, v, depth) == Some(t)
    decreases d, 1
  {
    match d
    case Literal =>
    case PathLeaf =>
    case Wrapped(inner) => DerivedCallAccepts(c, paths, inner, v.fields["expr"], t, depth + 1);
    case Applied(_, _) =>
      WithinApplied(d, depth, c.catalog.limits.maxExpressionDepth);
      DerivedCallAccepts(c, paths, d, v, t, depth);
  }

  lemma {:induction false} DerivedCallAccepts(c: Context, paths: Paths, d: Derivation, e: Value, t: Typing, depth: nat)
    requires d.Applied? && DerivesCall(c, paths, d, e, t) && Within(d, depth, c.catalog.limits.maxExpressionDepth)
    ensures CheckExpression(c, paths, e, depth) == Some(t.kind) && t.expression
    decreases d, 0
  {
    WithinApplied(d, depth, c.catalog.limits.maxExpressionDepth);
    var args := e.fields["args"].items;
    forall i | 0 <= i < |args| ensures Evaluate(c, paths, args[i], depth + 1) == Some(d.kinds[i]) {
      DerivedAccepts(c, paths, d.arguments[i], args[i], d.kinds[i], depth + 1);
    }
  }

  /** The checker gives type t exactly when t can be derived within the nesting limit. */
  lemma TypedIffDerivable(c: Context, paths: Paths, v: Value, t: Typing, depth: nat)
    ensures Evaluate(c, paths, v, depth) == Some(t) <==> Derivable(c, paths, v, t, depth)
  {
    if Evaluate(c, paths, v, depth) == Some(t) {
      var d := AcceptedDerives(c, paths, v, depth);
    }
    if Derivable(c, paths, v, t, depth) {
      var d :| Derives(c, paths, d, v, t) && Within(d, depth, c.catalog.limits.maxExpressionDepth);
      DerivedAccepts(c, paths, d, v, t, depth);
    }
  }
}
