/**
 What a NativeCard document must satisfy, with no order of visiting and no counters: rules at each
 node, distinct ids, and sums within the limits.
 */
module NativeDocument {
  import opened Prelude
  import opened Json
  import opened NativeCatalog
  import opened NativeRules
  import opened StatePaths
  import opened Text

  const INVOKE := "capability.invoke"

  function Elements(s: seq<string>): set<string>
  {
    set x | x in s
  }

  // ----- parts of a node, empty when left out -----

  function ObjectPart(o: Object, name: string): Object
  {
    if name in o && o[name].Obj? then o[name].fields else map[]
  }

  function ArrayPart(o: Object, name: string): seq<Value>
  {
    if name in o && o[name].Arr? then o[name].items else []
  }

  function TextPart(o: Object, name: string): string
  {
    if HasText(o, name) then o[name].text else ""
  }

  // ----- actions -----

  /** writableStatePath: a top-level name, or a field of an object of the initial state. */
  predicate Writable(paths: Paths, path: string)
  {
    var segments := Split(path, '.');
    |segments| == 1
    || var parent := Join(segments[..|segments| - 1], '.'); parent in paths && paths[parent].Obj?
  }

  /** validateActionTarget. */
  predicate TargetOk(paths: Paths, actionType: string, path: string)
  {
    match actionType
    case "set" => Writable(paths, path)
    case "stopTimer" => true
    case _ =>
      path in paths &&
      match actionType
      case "increment" => IsNumber(paths[path])
      case "startTimer" => IsNumber(paths[path])
      case "toggle" => paths[path].Bool?
      case "append" => paths[path].Arr?
      case "remove" => paths[path].Arr?
      case _ => true
  }

  predicate InvokeOk(c: Context, paths: Paths, a: Object, path: string)
  {
    && HasText(a, "method") && a["method"].text != "" && a["method"].text in c.catalog.capabilityMethods
    && var entry := c.catalog.capabilityMethods[a["method"].text];
       && entry.nativeSupported
       && entry.manifestCapability.Some? && entry.manifestCapability.value in c.allowed
       && (path != "" ==> Writable(paths, path))
  }

  predicate ActionKnown(c: Catalog, a: Object)
  {
    HasText(a, "type") && a["type"].text != "" && a["type"].text in c.actions
  }

  ghost predicate ActionFits(c: Context, paths: Paths, a: Object)
  {
    && ActionKnown(c.catalog, a)
    && var name := a["type"].text;
       var rule := c.catalog.actions[name];
       && FieldsOk(a, {"type"} + Elements(rule.requiredFields) + Elements(rule.optionalFields),
                   {"type"} + Elements(rule.requiredFields))
       && ("path" in a ==> a["path"].Str? && ValidPath(a["path"].text))
       && ("params" in a ==> a["params"].Obj? && DataFits(c.catalog.limits, a["params"], 1))
       && ("value" in a && rule.valueRule.Some? ==> ValueFits(c, paths, a["value"], rule.valueRule.value))
       && if name == INVOKE then InvokeOk(c, paths, a, TextPart(a, "path"))
          else TargetOk(paths, name, TextPart(a, "path"))
  }

  /** The data an action is charged for. */
  ghost function ActionData(c: Catalog, v: Value): nat
  {
    if !v.Obj? || !ActionKnown(c, v.fields) then 0
    else
      (if "params" in v.fields then Size(v.fields["params"]) else 0)
      + (if "value" in v.fields && c.actions[v.fields["type"].text].valueRule.Some? then Size(v.fields["value"]) else 0)
  }

  ghost predicate ActionOk(c: Context, paths: Paths, v: Value)
  {
    v.Obj? && ActionFits(c, paths, v.fields)
  }

  ghost predicate ActionsFit(c: Context, paths: Paths, v: Value)
  {
    && v.Arr? && |v.items| <= c.catalog.limits.maxActionsPerEvent
    && forall i {:trigger ActionOk(c, paths, v.items[i])} :: 0 <= i < |v.items| ==> ActionOk(c, paths, v.items[i])
  }

  ghost function ActionSizes(c: Catalog, items: seq<Value>): seq<nat>
  {
    seq(|items|, i requires 0 <= i < |items| => ActionData(c, items[i]))
  }

  ghost function ActionsData(c: Catalog, v: Value): nat
  {
    if v.Arr? then Sum(ActionSizes(c, v.items)) else 0
  }

  ghost predicate EventsFit(c: Context, paths: Paths, rule: ComponentRule, events: Object)
  {
    forall name :: name in events ==> name in rule.allowedEvents && ActionsFit(c, paths, events[name])
  }

  ghost function EventSizes(c: Catalog, events: Object): map<string, nat>
  {
    map name | name in events :: ActionsData(c, events[name])
  }

  // ----- props -----

  predicate ValuePathOk(paths: Paths, props: Object)
  {
    "valuePath" in props ==> TextPart(props, "valuePath") in paths
  }

  /** A number, or Go's zero value for anything else. */
  function NumberOrZero(v: Value): real
  {
    if IsNumber(v) then NumberOf(v).value else 0.0
  }

  predicate SliderOk(typeName: string, props: Object)
  {
    typeName == "Slider" ==>
      (if "min" in props then NumberOrZero(props["min"]) else 0.0)
      <= (if "max" in props then NumberOrZero(props["max"]) else 1.0)
  }

  ghost predicate PropOk(c: Context, paths: Paths, rule: ComponentRule, name: string, v: Value)
  {
    name in rule.allowedProps && ValueFits(c, paths, v, rule.allowedProps[name])
  }

  ghost predicate PropsFit(c: Context, paths: Paths, rule: ComponentRule, props: Object)
  {
    && (forall name :: name in props ==> PropOk(c, paths, rule, name, props[name]))
    && (forall name :: name in rule.requiredProps ==> name in props)
  }

  // ----- nodes -----

  predicate IdOk(o: Object)
  {
    HasText(o, "id") && !Blank(o["id"].text) && |o["id"].text| <= 100
  }

  predicate PartKinds(o: Object)
  {
    && ("props" in o ==> o["props"].Obj?) && ("events" in o ==> o["events"].Obj?)
    && ("children" in o ==> o["children"].Arr?)
  }

  /** The rules of one node, its children's own rules aside. */
  ghost predicate NodeLocal(c: Context, paths: Paths, o: Object)
  {
    && FieldsOk(o, {"id", "type", "props", "events", "children"}, {"id", "type"})
    && IdOk(o) && o["type"].Str? && o["type"].text in c.catalog.components && PartKinds(o)
    && var rule, props := c.catalog.components[o["type"].text], ObjectPart(o, "props");
       && PropsFit(c, paths, rule, props) && ValuePathOk(paths, props) && SliderOk(o["type"].text, props)
       && EventsFit(c, paths, rule, ObjectPart(o, "events"))
       && |ArrayPart(o, "children")| <= c.catalog.limits.maxChildrenPerNode
  }

  ghost predicate NodeFits(c: Context, paths: Paths, v: Value, depth: nat)
    decreases v
  {
    && v.Obj? && depth <= c.catalog.limits.maxDepth && NodeLocal(c, paths, v.fields)
    && var children := ArrayPart(v.fields, "children");
       forall i {:trigger NodeFits(c, paths, children[i], depth + 1)} ::
         0 <= i < |children| ==> NodeFits(c, paths, children[i], depth + 1)
  }

  /** Nodes in the tree. */
  ghost function Nodes(v: Value): nat
    decreases v
  {
    if !v.Obj? then 1
    else
      var children := ArrayPart(v.fields, "children");
      1 + Sum(seq(|children|, i requires 0 <= i < |children| => Nodes(children[i])))
  }

  /** The data the tree is charged for: prop values, action values and params. */
  ghost function Data(c: Catalog, v: Value): nat
    decreases v
  {
    if !v.Obj? then 0
    else
      var children := ArrayPart(v.fields, "children");
      OwnData(c, v.fields) + Sum(seq(|children|, i requires 0 <= i < |children| => Data(c, children[i])))
  }

  ghost function OwnData(c: Catalog, o: Object): nat
  {
    Total(FieldSizes(ObjectPart(o, "props"))) + Total(EventSizes(c, ObjectPart(o, "events")))
  }

  /** The ids of the tree, each as often as it occurs. */
  ghost function Ids(v: Value): multiset<string>
    decreases v
  {
    if !v.Obj? then multiset{}
    else
      var children := ArrayPart(v.fields, "children");
      multiset{TextPart(v.fields, "id")}
      + Union(seq(|children|, i requires 0 <= i < |children| => Ids(children[i])))
  }

  ghost function Union(bags: seq<multiset<string>>): multiset<string>
  {
    if bags == [] then multiset{} else Union(bags[..|bags| - 1]) + bags[|bags| - 1]
  }

  ghost function ChildNodes(children: seq<Value>): seq<nat>
  {
    seq(|children|, i requires 0 <= i < |children| => Nodes(children[i]))
  }

  ghost function ChildData(c: Catalog, children: seq<Value>): seq<nat>
  {
    seq(|children|, i requires 0 <= i < |children| => Data(c, children[i]))
  }

  ghost function ChildIds(children: seq<Value>): seq<multiset<string>>
  {
    seq(|children|, i requires 0 <= i < |children| => Ids(children[i]))
  }

  lemma Unfolded(c: Catalog, v: Value)
    requires v.Obj?
    ensures var children := ArrayPart(v.fields, "children");
            && Nodes(v) == 1 + Sum(ChildNodes(children))
            && Data(c, v) == OwnData(c, v.fields) + Sum(ChildData(c, children))
            && Ids(v) == multiset{TextPart(v.fields, "id")} + Union(ChildIds(children))
  {
    var children := ArrayPart(v.fields, "children");
    assert ChildNodes(children) == seq(|children|, i requires 0 <= i < |children| => Nodes(children[i]));
    assert ChildData(c, children) == seq(|children|, i requires 0 <= i < |children| => Data(c, children[i]));
    assert ChildIds(children) == seq(|children|, i requires 0 <= i < |children| => Ids(children[i]));
  }

  lemma UnionNext(bags: seq<multiset<string>>, i: nat)
    requires i < |bags|
    ensures Union(bags[..i + 1]) == Union(bags[..i]) + bags[i]
  {
    assert bags[..i + 1][..i] == bags[..i];
  }

  lemma {:induction false} UnionPart(bags: seq<multiset<string>>, i: nat)
    requires i <= |bags|
    ensures Union(bags[..i]) <= Union(bags)
    decreases |bags| - i
  {
    if i == |bags| {
      assert bags[..i] == bags;
    } else {
      UnionNext(bags, i);
      UnionPart(bags, i + 1);
    }
  }

  ghost function Members(ids: multiset<string>): set<string>
  {
    set id | id in ids
  }

  /** None of the ids has been seen, and none occurs twice. */
  ghost predicate NewIds(seen: set<string>, ids: multiset<string>)
  {
    forall id :: id in ids ==> ids[id] == 1 && id !in seen
  }

  lemma NewIdsAdd(seen: set<string>, a: multiset<string>, b: multiset<string>)
    ensures NewIds(seen, a + b) <==> NewIds(seen, a) && NewIds(seen + Members(a), b)
  {
    if NewIds(seen, a + b) {
      forall id | id in a ensures a[id] == 1 && id !in seen {
        assert id in a + b;
      }
      forall id | id in b ensures b[id] == 1 && id !in seen + Members(a) {
        assert id in a + b;
      }
    }
  }

  // ----- charging one node after another -----

  /** What a walk carries along: the ids seen and how much has been counted. */
  datatype Account = Account(seen: set<string>, nodes: int, data: int)

  ghost function Charge(c: Catalog, a: Account, v: Value): Account
  {
    Account(a.seen + Members(Ids(v)), a.nodes + Nodes(v), a.data + Data(c, v))
  }

  ghost predicate Affords(c: Catalog, a: Account, v: Value)
  {
    && NewIds(a.seen, Ids(v)) && a.nodes + Nodes(v) <= c.limits.maxNodes && a.data + Data(c, v) <= c.limits.maxDataNodes
  }

  ghost function ChargeAll(c: Catalog, a: Account, vs: seq<Value>): Account
  {
    if vs == [] then a else Charge(c, ChargeAll(c, a, vs[..|vs| - 1]), vs[|vs| - 1])
  }

  ghost predicate AffordsAll(c: Catalog, a: Account, vs: seq<Value>)
  {
    vs != [] ==>
      AffordsAll(c, a, vs[..|vs| - 1]) && Affords(c, ChargeAll(c, a, vs[..|vs| - 1]), vs[|vs| - 1])
  }

  lemma {:induction false} AffordsPart(c: Catalog, a: Account, vs: seq<Value>, i: nat)
    requires i <= |vs| && AffordsAll(c, a, vs)
    ensures AffordsAll(c, a, vs[..i])
    decreases |vs|
  {
    if i == |vs| {
      assert vs[..i] == vs;
    } else {
      AffordsPart(c, a, vs[..|vs| - 1], i);
      assert vs[..|vs| - 1][..i] == vs[..i];
    }
  }

  /** One more node in turn. */
  lemma ChargeNext(c: Catalog, a: Account, vs: seq<Value>, i: nat)
    requires i < |vs|
    ensures ChargeAll(c, a, vs[..i + 1]) == Charge(c, ChargeAll(c, a, vs[..i]), vs[i])
    ensures AffordsAll(c, a, vs[..i + 1]) <==> AffordsAll(c, a, vs[..i]) && Affords(c, ChargeAll(c, a, vs[..i]), vs[i])
    ensures AffordsAll(c, a, vs) ==> AffordsAll(c, a, vs[..i + 1])
  {
    assert vs[..i + 1][..i] == vs[..i];
    if AffordsAll(c, a, vs) {
      AffordsPart(c, a, vs, i + 1);
    }
  }

  lemma FrontParts(c: Catalog, vs: seq<Value>)
    requires vs != []
    ensures var front, last := vs[..|vs| - 1], vs[|vs| - 1];
            && Sum(ChildNodes(vs)) == Sum(ChildNodes(front)) + Nodes(last)
            && Sum(ChildData(c, vs)) == Sum(ChildData(c, front)) + Data(c, last)
            && Union(ChildIds(vs)) == Union(ChildIds(front)) + Ids(last)
  {
    var n := |vs| - 1;
    assert ChildIds(vs)[..n] == ChildIds(vs[..n]) && ChildNodes(vs)[..n] == ChildNodes(vs[..n]);
    assert ChildData(c, vs)[..n] == ChildData(c, vs[..n]);
  }

  /** Charging in turn comes to the sums, whatever the order. */
  lemma {:induction false} ChargedInTurn(c: Catalog, a: Account, vs: seq<Value>)
    ensures ChargeAll(c, a, vs) ==
            Account(a.seen + Members(Union(ChildIds(vs))), a.nodes + Sum(ChildNodes(vs)),
              a.data + Sum(ChildData(c, vs)))
    decreases |vs|
  {
    if vs == [] {
      assert a.seen + Members(multiset{}) == a.seen;
    } else {
      var front, last := vs[..|vs| - 1], vs[|vs| - 1];
      ChargedInTurn(c, a, front);
      FrontParts(c, vs);
      MembersAdd(a.seen, Union(ChildIds(front)), Ids(last));
    }
  }

  lemma MembersAdd(seen: set<string>, a: multiset<string>, b: multiset<string>)
    ensures seen + Members(a + b) == seen + Members(a) + Members(b)
  {
  }

  /** The sums within an account. */
  ghost predicate Covers(c: Catalog, a: Account, ids: multiset<string>, count: nat, size: nat)
  {
    NewIds(a.seen, ids) && a.nodes + count <= c.limits.maxNodes && a.data + size <= c.limits.maxDataNodes
  }

  lemma {:induction false} AffordedInTurn(c: Catalog, a: Account, vs: seq<Value>)
    requires a.nodes <= c.limits.maxNodes && a.data <= c.limits.maxDataNodes
    ensures AffordsAll(c, a, vs) <==> Covers(c, a, Union(ChildIds(vs)), Sum(ChildNodes(vs)), Sum(ChildData(c, vs)))
    decreases |vs|
  {
    if vs != [] {
      var front, last := vs[..|vs| - 1], vs[|vs| - 1];
      AffordedInTurn(c, a, front);
      ChargedInTurn(c, a, front);
      FrontParts(c, vs);
      NewIdsAdd(a.seen, Union(ChildIds(front)), Ids(last));
    }
  }

  /** A node without its children. */
  ghost function ChargeOwn(c: Catalog, a: Account, o: Object): Account
  {
    Account(a.seen + {TextPart(o, "id")}, a.nodes + 1, a.data + OwnData(c, o))
  }

  ghost predicate AffordsOwn(c: Catalog, a: Account, o: Object)
  {
    && TextPart(o, "id") !in a.seen
    && a.nodes + 1 <= c.limits.maxNodes && a.data + OwnData(c, o) <= c.limits.maxDataNodes
  }

  /** A node's charge is its own and its children's, one after the other. */
  lemma ChargeUnfolds(c: Catalog, a: Account, v: Value)
    requires v.Obj?
    ensures Charge(c, a, v) == ChargeAll(c, ChargeOwn(c, a, v.fields), ArrayPart(v.fields, "children"))
  {
    var o, children := v.fields, ArrayPart(v.fields, "children");
    var id, bags := multiset{TextPart(o, "id")}, ChildIds(children);
    Unfolded(c, v);
    ChargedInTurn(c, ChargeOwn(c, a, o), children);
    assert Members(id) == {TextPart(o, "id")};
    MembersAdd(a.seen, id, Union(bags));
  }

  lemma AffordsUnfolds(c: Catalog, a: Account, v: Value)
    requires v.Obj?
    ensures Affords(c, a, v) <==>
              AffordsOwn(c, a, v.fields) && AffordsAll(c, ChargeOwn(c, a, v.fields), ArrayPart(v.fields, "children"))
  {
    var o, children := v.fields, ArrayPart(v.fields, "children");
    var id, bags := multiset{TextPart(o, "id")}, ChildIds(children);
    Unfolded(c, v);
    assert Members(id) == {TextPart(o, "id")};
    NewIdsAdd(a.seen, id, Union(bags));
    assert NewIds(a.seen, id) <==> TextPart(o, "id") !in a.seen by {
      assert TextPart(o, "id") in id;
    }
    if AffordsOwn(c, a, o) {
      AffordedInTurn(c, ChargeOwn(c, a, o), children);
    }
  }

  ghost predicate AllDistinct(ids: multiset<string>)
  {
    forall id :: id in ids ==> ids[id] == 1
  }

  // ----- the document -----

  predicate RootOk(document: Value)
  {
    && document.Obj?
    && FieldsOk(document.fields, {"schemaVersion", "initialState", "root"}, {"schemaVersion", "initialState", "root"})
    && document.fields["schemaVersion"] == Int(1)
    && document.fields["initialState"].Obj? && document.fields["root"].Obj?
  }

  /** Everything Validate checks, said at once. */
  ghost predicate DocumentOk(c: Context, document: Value)
  {
    && RootOk(document)
    && var initial, root := document.fields["initialState"], document.fields["root"];
       && DataFits(c.catalog.limits, initial, 1)
       && (exists paths :: IsIndex(paths, initial.fields) && NodeFits(c, paths, root, 1))
       && AllDistinct(Ids(root))
       && Nodes(root) <= c.catalog.limits.maxNodes
       && Size(initial) + Data(c.catalog, root) <= c.catalog.limits.maxDataNodes
  }
}
