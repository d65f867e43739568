/**
 The NativeCard validator as it runs: counters, an id set and a flat path index threaded through
 a walk that visits the fields of every object in any order.
 */
module NativeChecker {
  import opened Prelude
  import opened Json
  import opened NativeCatalog
  import opened NativeRules
  import opened NativeDocument
  import opened StatePaths
  import NM = NativeMeaning
  import opened Text

  /** The fields visited so far are indexed, if fields here are at all. */
  ghost predicate Visited(index: bool, before: Paths, after: Paths, fields: Object, at: seq<string>, done: set<string>)
  {
    if index then AddsSome(before, after, fields, at, done) else after == before
  }

  lemma NothingVisited(index: bool, before: Paths, fields: Object, at: seq<string>)
    ensures Visited(index, before, before, fields, at, fields.Keys - fields.Keys)
  {
  }

  lemma AllVisited(index: bool, before: Paths, after: Paths, fields: Object, at: seq<string>, rest: set<string>)
    requires Visited(index, before, after, fields, at, fields.Keys - rest) && rest == {}
    ensures Visited(index, before, after, fields, at, fields.Keys)
  {
    assert fields.Keys - rest == fields.Keys;
  }

  class NativeValidationState {
    const c: Context
    var seenIds: set<string>
    var statePaths: Paths
    var nodes: int
    var dataNodes: int

    constructor (c: Context)
      ensures this.c == c && seenIds == {} && statePaths == map[] && nodes == 0 && dataNodes == 0
    {
      this.c := c;
      seenIds, statePaths, nodes, dataNodes := {}, map[], 0, 0;
    }

    /** Room for that much more data. */
    ghost predicate Room(n: nat)
      reads this
    {
      dataNodes + n <= c.catalog.limits.maxDataNodes
    }

    // ----- counting data, and indexing the initial state -----

    /** consumeDataValueAt, at the segments `at` when it indexes. */
    method ConsumeDataAt(value: Value, depth: nat, path: string, index: bool, ghost at: seq<string>) returns (ok: bool)
      requires index && at == [] ==> value.Obj? && path == ""
      requires index && at != [] ==> Split(path, '.') == at && ValidSegments(at)
      modifies this`dataNodes, this`statePaths
      ensures ok <==> DataFits(c.catalog.limits, value, depth) && old(Room(Size(value)))
      ensures ok ==> dataNodes == old(dataNodes) + Size(value)
      ensures ok && index ==> Adds(old(statePaths), statePaths, value, at)
      ensures !index ==> statePaths == old(statePaths)
      decreases value, 1
    {
      if depth > c.catalog.limits.maxDataDepth {
        return false;
      }
      dataNodes := dataNodes + 1;
      if dataNodes > c.catalog.limits.maxDataNodes {
        return false;
      }
      if index && path != "" {
        statePaths := statePaths[path := value];
      }
      ghost var own := statePaths;
      if index && at != [] {
        NamedPath(at, path);
      }
      match value {
        case Obj(fields) =>
          if |fields| > c.catalog.limits.maxContainerItems {
            return false;
          }
          ghost var bad := set k | k in fields && !DataFits(c.catalog.limits, fields[k], depth + 1);
          ok := ConsumeFields(fields, value, depth, path, index, at, bad);
          SizeOfObject(fields);
          if ok && index {
            ObjectAdds(old(statePaths), own, statePaths, fields, at, path);
          }
        case Arr(items) =>
          if |items| > c.catalog.limits.maxContainerItems {
            return false;
          }
          ok := ConsumeItems(items, value, depth);
          SizeOfArray(items);
          if ok && index {
            LeafAdds(old(statePaths), statePaths, value, at, path);
          }
        case _ =>
          ok := true;
          if index {
            LeafAdds(old(statePaths), statePaths, value, at, path);
          }
      }
    }

    /** One field of an object; `before` is the index as it was when the object was entered. */
    method ConsumeField(fields: Object, key: string, ghost value: Value, depth: nat, path: string, index: bool,
                        ghost at: seq<string>, ghost before: Paths, ghost rest: set<string>, ghost fits: bool)
      returns (ok: bool)
      requires value == Obj(fields) && key in fields && key in rest && Room(0)
      requires fits <==> DataFits(c.catalog.limits, fields[key], depth + 1)
      requires index && at == [] ==> path == ""
      requires index && at != [] ==> Split(path, '.') == at && ValidSegments(at)
      requires Visited(index, before, statePaths, fields, at, fields.Keys - rest)
      modifies this`dataNodes, this`statePaths
      ensures ok <==> fits && old(Room(Size(fields[key])))
      ensures ok ==> dataNodes == old(dataNodes) + Size(fields[key])
      ensures ok ==> Visited(index, before, statePaths, fields, at, fields.Keys - (rest - {key}))
      ensures !index ==> statePaths == old(statePaths)
      decreases value, 0, 0
    {
      var childPath := if path != "" then path + "." + key else key;
      var childIndex := index && key != "" && Free(key, '.');
      if childIndex {
        ChildPath(at, path, key);
      }
      ok := ConsumeDataAt(fields[key], depth + 1, childPath, childIndex, at + [key]);
      if ok && index {
        ghost var done := fields.Keys - rest;
        assert done + {key} == fields.Keys - (rest - {key});
        if childIndex {
          ChildAdds(before, old(statePaths), statePaths, fields, at, done, key);
        } else {
          UnindexableAdds(before, statePaths, fields, at, done, key);
        }
      }
    }

    /** `bad` are the fields whose own data breaks a limit. */
    method ConsumeFields(fields: Object, ghost value: Value, depth: nat, path: string, index: bool,
                         ghost at: seq<string>,
                         ghost bad: set<string>)
      returns (ok: bool)
      requires value == Obj(fields) && Room(0) && bad <= fields.Keys
      requires forall k :: k in fields ==> (k in bad <==> !DataFits(c.catalog.limits, fields[k], depth + 1))
      requires index && at == [] ==> path == ""
      requires index && at != [] ==> Split(path, '.') == at && ValidSegments(at)
      modifies this`dataNodes, this`statePaths
      ensures ok <==> bad == {} && old(Room(Total(FieldSizes(fields))))
      ensures ok ==> dataNodes == old(dataNodes) + Total(FieldSizes(fields))
      ensures ok ==> Visited(index, old(statePaths), statePaths, fields, at, fields.Keys)
      ensures !index ==> statePaths == old(statePaths)
      decreases value, 0, 1
    {
      ghost var sizes, before := FieldSizes(fields), statePaths;
      var rest := fields.Keys;
      assert sizes - rest == map[];
      NothingVisited(index, before, fields, at);
      while rest != {}
        invariant rest <= fields.Keys && Room(0)
        invariant dataNodes == old(dataNodes) + Total(sizes - rest)
        invariant bad <= rest
        invariant Visited(index, before, statePaths, fields, at, fields.Keys - rest)
      {
        var key :| key in rest;
        ok := ConsumeField(fields, key, value, depth, path, index, at, before, rest, key !in bad);
        TotalStep(sizes, rest, key);
        if !ok {
          return false;
        }
        rest := rest - {key};
      }
      assert sizes - rest == sizes;
      AllVisited(index, before, statePaths, fields, at, rest);
      return true;
    }

    method ConsumeItems(items: seq<Value>, ghost value: Value, depth: nat) returns (ok: bool)
      requires value == Arr(items) && Room(0)
      modifies this`dataNodes, this`statePaths
      ensures ok <==> (forall i :: 0 <= i < |items| ==> DataFits(c.catalog.limits, items[i], depth + 1))
                      && old(Room(Sum(ItemSizes(items))))
      ensures ok ==> dataNodes == old(dataNodes) + Sum(ItemSizes(items))
      ensures statePaths == old(statePaths)
      decreases value, 0
    {
      ghost var sizes := ItemSizes(items);
      for i := 0 to |items|
        invariant Room(0) && dataNodes == old(dataNodes) + Sum(sizes[..i])
        invariant forall k :: 0 <= k < i ==> DataFits(c.catalog.limits, items[k], depth + 1)
        invariant statePaths == old(statePaths)
      {
        ok := ConsumeDataAt(items[i], depth + 1, "", false, []);
        SumNext(sizes, i);
        SumPart(sizes, i + 1);
        if !ok {
          return false;
        }
      }
      assert sizes[..|items|] == sizes;
      return true;
    }

    /** consumeDataValue: count without indexing. */
    method ConsumeData(value: Value) returns (ok: bool)
      requires Room(0)
      modifies this`dataNodes, this`statePaths
      ensures ok <==> DataFits(c.catalog.limits, value, 1) && old(Room(Size(value)))
      ensures ok ==> dataNodes == old(dataNodes) + Size(value)
      ensures statePaths == old(statePaths)
    {
      ok := ConsumeDataAt(value, 1, "", false, []);
    }

    /** consumeInitialState: afterwards the index agrees with walking the tree. */
    method ConsumeInitialState(initial: Object) returns (ok: bool)
      requires statePaths == map[]
      modifies this`dataNodes, this`statePaths
      ensures ok <==> DataFits(c.catalog.limits, Obj(initial), 1) && old(Room(Size(Obj(initial))))
      ensures ok ==> dataNodes == old(dataNodes) + Size(Obj(initial)) && IsIndex(statePaths, initial)
    {
      ok := ConsumeDataAt(Obj(initial), 1, "", true, []);
      if ok {
        RootAdds(statePaths, initial);
      }
    }

    // ----- values -----

    method ItemsUnique(value: Value) returns (ok: bool)
      ensures ok <==> UniqueStrings(value)
    {
      if !value.Arr? {
        return false;
      }
      var items := value.items;
      var seen: set<string> := {};
      for i := 0 to |items|
        invariant forall k :: 0 <= k < i ==> items[k].Str? && items[k].text in seen
        invariant forall x :: x in seen ==> exists k :: 0 <= k < i && items[k] == Str(x)
        invariant forall j, k :: 0 <= j < k < i ==> items[j] != items[k]
      {
        if !items[i].Str? {
          return false;
        }
        if items[i].text in seen {
          return false;
        }
        seen := seen + {items[i].text};
      }
      return true;
    }

    /** The rules of one literal, in the order they are checked. */
    method ValidateLiteral(value: Value, rule: ValueRule) returns (ok: bool)
      ensures ok <==> LiteralFits(c, value, rule)
    {
      if !KindFits(value, rule.kind) {
        return false;
      }
      if |rule.enum| > 0 {
        if !value.Str? || value.text !in rule.enum {
          return false;
        }
      }
      if !BoundsOk(value, rule) || !TextOk(c, value, rule) {
        return false;
      }
      if rule.uniqueItems {
        ok := ItemsUnique(value);
        return;
      }
      return true;
    }

    method ValidateValue(value: Value, rule: ValueRule) returns (ok: bool)
      requires Room(0)
      modifies this`dataNodes, this`statePaths
      ensures ok <==> ValueFits(c, old(statePaths), value, rule) && old(Room(Size(value)))
      ensures ok ==> dataNodes == old(dataNodes) + Size(value)
      ensures statePaths == old(statePaths)
    {
      ok := ConsumeData(value);
      if !ok {
        return;
      }
      if rule.binding {
        var typing := Evaluate(c, statePaths, value, 1);
        if typing.None? {
          return false;
        }
        var kind := typing.value.kind;
        if typing.value.expression {
          return kind == UNKNOWN || Compatible(kind, rule.kind);
        }
      } else if BindingShape(value) != Plain {
        return false;
      }
      ok := ValidateLiteral(value, rule);
    }

    // ----- actions and events -----

    method ValidateAction(action: Object) returns (ok: bool)
      requires Room(0)
      modifies this`dataNodes, this`statePaths
      ensures ok <==> ActionFits(c, old(statePaths), action) && old(Room(ActionData(c.catalog, Obj(action))))
      ensures ok ==> dataNodes == old(dataNodes) + ActionData(c.catalog, Obj(action))
      ensures statePaths == old(statePaths)
      ensures forall initial :: IsIndex(statePaths, initial) ==>
                (ok <==> NM.IsAllowed(c, statePaths, initial, action)
                         && old(Room(ActionData(c.catalog, Obj(action)))))
    {
      forall initial | IsIndex(statePaths, initial)
        ensures ActionFits(c, statePaths, action) <==> NM.IsAllowed(c, statePaths, initial, action)
      {
        NM.ActionIff(c, statePaths, initial, action);
      }
      if !HasText(action, "type") || action["type"].text == "" || action["type"].text !in c.catalog.actions {
        return false;
      }
      var name := action["type"].text;
      var rule := c.catalog.actions[name];
      var required := {"type"} + Elements(rule.requiredFields);
      if !FieldsOk(action, required + Elements(rule.optionalFields), required) {
        return false;
      }
      if "path" in action {
        if !action["path"].Str? || !ValidPath(action["path"].text) {
          return false;
        }
      }
      if "params" in action {
        if !action["params"].Obj? {
          return false;
        }
        ok := ConsumeData(action["params"]);
        if !ok {
          return;
        }
      }
      if "value" in action && rule.valueRule.Some? {
        ok := ValidateValue(action["value"], rule.valueRule.value);
        if !ok {
          return;
        }
      }
      var path := TextPart(action, "path");
      if name != INVOKE {
        return TargetOk(statePaths, name, path);
      }
      return InvokeOk(c, statePaths, action, path);
    }

    method ValidateItem(value: Value) returns (ok: bool)
      requires Room(0)
      modifies this`dataNodes, this`statePaths
      ensures ok <==> ActionOk(c, old(statePaths), value) && old(Room(ActionData(c.catalog, value)))
      ensures ok ==> dataNodes == old(dataNodes) + ActionData(c.catalog, value)
      ensures statePaths == old(statePaths)
    {
      if !value.Obj? {
        return false;
      }
      ok := ValidateAction(value.fields);
    }

    method ValidateActions(value: Value) returns (ok: bool)
      requires Room(0)
      modifies this`dataNodes, this`statePaths
      ensures ok <==> ActionsFit(c, old(statePaths), value) && old(Room(ActionsData(c.catalog, value)))
      ensures ok ==> dataNodes == old(dataNodes) + ActionsData(c.catalog, value)
      ensures statePaths == old(statePaths)
    {
      if !value.Arr? || |value.items| > c.catalog.limits.maxActionsPerEvent {
        return false;
      }
      var actions := value.items;
      ghost var sizes, paths := ActionSizes(c.catalog, actions), statePaths;
      for i := 0 to |actions|
        invariant Room(0) && dataNodes == old(dataNodes) + Sum(sizes[..i])
        invariant statePaths == paths
        invariant forall k {:trigger ActionOk(c, paths, actions[k])} :: 0 <= k < i ==> ActionOk(c, paths, actions[k])
      {
        ok := ValidateItem(actions[i]);
        SumNext(sizes, i);
        SumPart(sizes, i + 1);
        if !ok {
          return false;
        }
      }
      assert sizes[..|actions|] == sizes;
      return true;
    }

    method ValidateEvents(rule: ComponentRule, events: Object) returns (ok: bool)
      requires Room(0)
      modifies this`dataNodes, this`statePaths
      ensures ok <==> EventsFit(c, old(statePaths), rule, events) && old(Room(Total(EventSizes(c.catalog, events))))
      ensures ok ==> dataNodes == old(dataNodes) + Total(EventSizes(c.catalog, events))
      ensures statePaths == old(statePaths)
    {
      ghost var sizes := EventSizes(c.catalog, events);
      var rest := events.Keys;
      assert sizes - rest == map[];
      while rest != {}
        invariant rest <= events.Keys && Room(0) && statePaths == old(statePaths)
        invariant dataNodes == old(dataNodes) + Total(sizes - rest)
        invariant forall e :: e in events && e !in rest ==>
                    e in rule.allowedEvents && ActionsFit(c, statePaths, events[e])
      {
        var name :| name in rest;
        if name !in rule.allowedEvents {
          return false;
        }
        ok := ValidateActions(events[name]);
        TotalStep(sizes, rest, name);
        if !ok {
          return false;
        }
        rest := rest - {name};
      }
      assert sizes - rest == sizes;
      return true;
    }

    // ----- props -----

    method RequiredPresent(required: seq<string>, props: Object) returns (ok: bool)
      ensures ok <==> forall name :: name in required ==> name in props
    {
      for i := 0 to |required|
        invariant forall k :: 0 <= k < i ==> required[k] in props
      {
        if required[i] !in props {
          return false;
        }
      }
      return true;
    }

    method ValidateProps(rule: ComponentRule, props: Object) returns (ok: bool)
      requires Room(0)
      modifies this`dataNodes, this`statePaths
      ensures ok <==> PropsFit(c, old(statePaths), rule, props) && old(Room(Total(FieldSizes(props))))
      ensures ok ==> dataNodes == old(dataNodes) + Total(FieldSizes(props))
      ensures statePaths == old(statePaths)
    {
      ghost var sizes := FieldSizes(props);
      var rest := props.Keys;
      assert sizes - rest == map[];
      while rest != {}
        invariant rest <= props.Keys && Room(0) && statePaths == old(statePaths)
        invariant dataNodes == old(dataNodes) + Total(sizes - rest)
        invariant forall p :: p in props && p !in rest ==> PropOk(c, statePaths, rule, p, props[p])
      {
        var name :| name in rest;
        if name !in rule.allowedProps {
          assert !PropOk(c, statePaths, rule, name, props[name]);
          return false;
        }
        ok := ValidateValue(props[name], rule.allowedProps[name]);
        TotalStep(sizes, rest, name);
        if !ok {
          return false;
        }
        rest := rest - {name};
      }
      assert sizes - rest == sizes;
      ok := RequiredPresent(rule.requiredProps, props);
    }

    // ----- nodes -----

    /** The props and events of one node. */
    method ValidateOwn(o: Object, typeName: string, rule: ComponentRule) returns (ok: bool)
      requires Room(0)
      modifies this`dataNodes, this`statePaths
      ensures ok <==> PropsFit(c, old(statePaths), rule, ObjectPart(o, "props"))
                      && ValuePathOk(old(statePaths), ObjectPart(o, "props"))
                      && SliderOk(typeName, ObjectPart(o, "props"))
                      && EventsFit(c, old(statePaths), rule, ObjectPart(o, "events"))
                      && old(Room(OwnData(c.catalog, o)))
      ensures ok ==> dataNodes == old(dataNodes) + OwnData(c.catalog, o)
      ensures statePaths == old(statePaths)
    {
      var props := ObjectPart(o, "props");
      ok := ValidateProps(rule, props);
      if !ok {
        return;
      }
      if "valuePath" in props && TextPart(props, "valuePath") !in statePaths {
        return false;
      }
      if typeName == "Slider" {
        var minimum, maximum := 0.0, 1.0;
        if "min" in props {
          minimum := NumberOrZero(props["min"]);
        }
        if "max" in props {
          maximum := NumberOrZero(props["max"]);
        }
        if minimum > maximum {
          return false;
        }
      }
      ok := ValidateEvents(rule, ObjectPart(o, "events"));
    }

    ghost function Books(): Account
      reads this
    {
      Account(seenIds, nodes, dataNodes)
    }

    /** A node up to its children. */
    method ValidateSelf(node: Object, depth: nat) returns (ok: bool)
      requires Room(0)
      modifies this
      ensures ok <==> depth <= c.catalog.limits.maxDepth && NodeLocal(c, old(statePaths), node)
                      && AffordsOwn(c.catalog, old(Books()), node)
      ensures ok ==> Books() == ChargeOwn(c.catalog, old(Books()), node) && Room(0)
      ensures statePaths == old(statePaths)
    {
      if depth > c.catalog.limits.maxDepth {
        return false;
      }
      if !FieldsOk(node, {"id", "type", "props", "events", "children"}, {"id", "type"}) || !IdOk(node) {
        return false;
      }
      var id := node["id"].text;
      if id in seenIds {
        return false;
      }
      seenIds := seenIds + {id};
      if !node["type"].Str? || node["type"].text !in c.catalog.components || !PartKinds(node) {
        return false;
      }
      var typeName := node["type"].text;
      ok := ValidateOwn(node, typeName, c.catalog.components[typeName]);
      if !ok {
        return;
      }
      if |ArrayPart(node, "children")| > c.catalog.limits.maxChildrenPerNode {
        return false;
      }
      nodes := nodes + 1;
      if nodes > c.catalog.limits.maxNodes {
        return false;
      }
      return true;
    }

    method ValidateNode(v: Value, depth: nat) returns (ok: bool)
      requires v.Obj? && Room(0)
      modifies this
      ensures ok <==> NodeFits(c, old(statePaths), v, depth) && Affords(c.catalog, old(Books()), v)
      ensures ok ==> Books() == Charge(c.catalog, old(Books()), v)
      ensures statePaths == old(statePaths)
      decreases v, 1
    {
      var node := v.fields;
      var children := ArrayPart(node, "children");
      ghost var leading := FitsInTurn(c, statePaths, v, depth);
      AffordsUnfolds(c.catalog, Books(), v);
      ChargeUnfolds(c.catalog, Books(), v);
      ok := ValidateSelf(node, depth);
      if ok {
        ok := ValidateChildren(children, v, leading, depth);
      }
    }

    method ValidateChild(child: Value, ghost v: Value, ghost fits: bool, depth: nat) returns (ok: bool)
      requires child < v && Room(0) && (fits <==> NodeFits(c, statePaths, child, depth))
      modifies this
      ensures ok <==> fits && Affords(c.catalog, old(Books()), child)
      ensures ok ==> Books() == Charge(c.catalog, old(Books()), child) && Room(0)
      ensures statePaths == old(statePaths)
      decreases v, 0, 0
    {
      if !child.Obj? {
        return false;
      }
      ok := ValidateNode(child, depth);
    }

    /** `leading` is the number of children before the first that breaks a rule. */
    method ValidateChildren(children: seq<Value>, ghost v: Value, ghost leading: nat, depth: nat) returns (ok: bool)
      requires v.Obj? && children == ArrayPart(v.fields, "children") && Room(0) && leading <= |children|
      requires forall i {:trigger NodeFits(c, statePaths, children[i], depth + 1)} ::
                 0 <= i <= leading && i < |children| ==>
                   (i < leading <==> NodeFits(c, statePaths, children[i], depth + 1))
      modifies this
      ensures ok <==> leading == |children| && AffordsAll(c.catalog, old(Books()), children)
      ensures ok ==> Books() == ChargeAll(c.catalog, old(Books()), children)
      ensures statePaths == old(statePaths)
      decreases v, 0, 1
    {
      ghost var paths, start := statePaths, Books();
      for i := 0 to |children|
        invariant Room(0) && statePaths == paths && i <= leading
        invariant Books() == ChargeAll(c.catalog, start, children[..i]) && AffordsAll(c.catalog, start, children[..i])
      {
        ChargeNext(c.catalog, start, children, i);
        ok := ValidateChild(children[i], v, i < leading, depth + 1);
        if !ok {
          return false;
        }
      }
      assert children[..|children|] == children;
      return true;
    }
  }

  /** Where the first false stands. */
  ghost function Leading(fits: seq<bool>): (n: nat)
    ensures n <= |fits| && (forall i :: 0 <= i < n ==> fits[i]) && (n < |fits| ==> !fits[n])
  {
    if fits == [] || !fits[0] then 0 else 1 + Leading(fits[1..])
  }

  lemma NodeUnfolds(c: Context, paths: Paths, v: Value, depth: nat, fits: seq<bool>)
    requires v.Obj? && |fits| == |ArrayPart(v.fields, "children")|
    requires forall i :: 0 <= i < |fits| ==>
             (fits[i] <==> NodeFits(c, paths, ArrayPart(v.fields, "children")[i], depth + 1))
    ensures NodeFits(c, paths, v, depth) <==>
              depth <= c.catalog.limits.maxDepth && NodeLocal(c, paths, v.fields)
                && forall i :: 0 <= i < |fits| ==> fits[i]
  {
    var children := ArrayPart(v.fields, "children");
    assert forall i :: 0 <= i < |fits| && fits[i] ==> NodeFits(c, paths, children[i], depth + 1);
  }

  /** A node fits if it does itself and no child is the first to break a rule. */
  lemma FitsInTurn(c: Context, paths: Paths, v: Value, depth: nat) returns (leading: nat)
    requires v.Obj?
    ensures leading <= |ArrayPart(v.fields, "children")|
    ensures var children := ArrayPart(v.fields, "children");
            forall i {:trigger NodeFits(c, paths, children[i], depth + 1)} ::
              0 <= i <= leading && i < |children| ==> (i < leading <==> NodeFits(c, paths, children[i], depth + 1))
    ensures NodeFits(c, paths, v, depth) <==>
              && depth <= c.catalog.limits.maxDepth && NodeLocal(c, paths, v.fields)
              && leading == |ArrayPart(v.fields, "children")|
  {
    var children := ArrayPart(v.fields, "children");
    var fits := seq(|children|, i requires 0 <= i < |children| => NodeFits(c, paths, children[i], depth + 1));
    NodeUnfolds(c, paths, v, depth, fits);
    leading := Leading(fits);
  }

  /** A path with segments is not empty. */
  lemma NamedPath(at: seq<string>, path: string)
    requires at != [] && Split(path, '.') == at && ValidSegments(at)
    ensures path != ""
  {
    assert Split("", '.') == [""] && at[0] != "";
  }

  /**
   Validate, on a decoded document of so many bytes: it accepts exactly the documents that satisfy
   the order-free rules, whatever order the fields of its objects are visited in.
   */
  method Validate(c: Context, contentBytes: nat, document: Value) returns (ok: bool)
    ensures ok <==> contentBytes <= c.catalog.limits.maxContentBytes && DocumentOk(c, document)
    ensures ok && CatalogOk(c.catalog) ==> NM.AllUnderstood(c, document)
  {
    if contentBytes > c.catalog.limits.maxContentBytes || !RootOk(document) {
      return false;
    }
    var initial, root := document.fields["initialState"], document.fields["root"];
    var state := new NativeValidationState(c);
    ok := state.ConsumeInitialState(initial.fields);
    if !ok {
      return;
    }
    ghost var paths, books := state.statePaths, state.Books();
    ok := state.ValidateNode(root, 1);
    Accounted(c, root, books);
    forall other | IsIndex(other, initial.fields) ensures other == paths {
      IndexIsUnique(other, paths, initial.fields);
    }
    if ok && CatalogOk(c.catalog) {
      NM.AcceptedUnderstood(c, document);
    }
  }

  lemma Accounted(c: Context, root: Value, books: Account)
    requires books.seen == {} && books.nodes == 0
    ensures Affords(c.catalog, books, root) <==>
              AllDistinct(Ids(root)) && Nodes(root) <= c.catalog.limits.maxNodes
              && books.data + Data(c.catalog, root) <= c.catalog.limits.maxDataNodes
  {
  }
}
