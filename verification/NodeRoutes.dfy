/** The nodes of a document as the places that routes of child positions lead to: how many, and how named. */
module NodeRoutes {
  import opened Prelude
  import opened Json
  import opened NativeCatalog
  import opened NativeDocument
  import opened NativeMeaning
  import NativeRules

  type Route = seq<nat>

  ghost function Below(i: nat, routes: set<Route>): set<Route>
  {
    set r | r in routes :: [i] + r
  }

  /** All routes into the tree. */
  ghost function Routes(v: Value): set<Route>
    decreases v, 1
  {
    {[]} + if v.Obj? then RoutesFrom(v, ArrayPart(v.fields, "children"), |ArrayPart(v.fields, "children")|) else {}
  }

  /** The routes into the first n children. */
  ghost function RoutesFrom(v: Value, children: seq<Value>, n: nat): set<Route>
    requires v.Obj? && children == ArrayPart(v.fields, "children") && n <= |children|
    decreases v, 0, n
  {
    if n == 0 then {} else RoutesFrom(v, children, n - 1) + Below(n - 1, Routes(children[n - 1]))
  }

  lemma {:induction false} RoutesFromAre(v: Value, children: seq<Value>, n: nat, route: Route)
    requires v.Obj? && children == ArrayPart(v.fields, "children") && n <= |children|
    ensures route in RoutesFrom(v, children, n) <==>
              route != [] && route[0] < n && NodeAt(v, route).Some?
    decreases v, 0, n
  {
    if n > 0 {
      RoutesFromAre(v, children, n - 1, route);
      if route != [] {
        assert route == [route[0]] + route[1..];
        RoutesAre(children[n - 1], route[1..]);
        assert route in Below(n - 1, Routes(children[n - 1])) <==>
                 route[0] == n - 1 && route[1..] in Routes(children[n - 1]);
      }
    }
  }

  /** The routes are those that lead to a node. */
  lemma {:induction false} RoutesAre(v: Value, route: Route)
    ensures route in Routes(v) <==> NodeAt(v, route).Some?
    decreases v, 1
  {
    if v.Obj? {
      var children := ArrayPart(v.fields, "children");
      RoutesFromAre(v, children, |children|, route);
    }
  }

  lemma {:induction false} BelowCount(i: nat, routes: set<Route>)
    ensures |Below(i, routes)| == |routes|
    decreases |routes|
  {
    if routes != {} {
      var r :| r in routes;
      var rest := routes - {r};
      BelowCount(i, rest);
      assert Below(i, routes) == Below(i, rest) + {[i] + r};
      forall other | other in rest ensures [i] + other != [i] + r {
        assert ([i] + other)[1..] == other && ([i] + r)[1..] == r;
      }
    }
  }

  lemma DisjointCount(a: set<Route>, b: set<Route>)
    requires forall r :: r in a ==> r !in b
    ensures |a + b| == |a| + |b|
  {
    assert a !! b;
  }

  lemma EarlierRoutes(v: Value, children: seq<Value>, n: nat, routes: set<Route>)
    requires v.Obj? && children == ArrayPart(v.fields, "children") && n <= |children|
    ensures forall r :: r in RoutesFrom(v, children, n) ==> r !in Below(n, routes)
  {
    forall r | r in RoutesFrom(v, children, n) ensures r !in Below(n, routes) {
      RoutesFromAre(v, children, n, r);
    }
  }

  lemma OneMoreChild(v: Value, children: seq<Value>, n: nat)
    requires v.Obj? && children == ArrayPart(v.fields, "children") && 0 < n <= |children|
    ensures |RoutesFrom(v, children, n)| == |RoutesFrom(v, children, n - 1)| + |Routes(children[n - 1])|
  {
    var here := Routes(children[n - 1]);
    BelowCount(n - 1, here);
    EarlierRoutes(v, children, n - 1, here);
    DisjointCount(RoutesFrom(v, children, n - 1), Below(n - 1, here));
  }

  lemma {:induction false} RoutesFromCount(c: Catalog, v: Value, children: seq<Value>, n: nat)
    requires v.Obj? && children == ArrayPart(v.fields, "children") && n <= |children|
    ensures |RoutesFrom(v, children, n)| == Sum(ChildNodes(children)[..n])
    decreases v, 0, n
  {
    if n > 0 {
      RoutesFromCount(c, v, children, n - 1);
      RoutesCount(c, children[n - 1]);
      SumNext(ChildNodes(children), n - 1);
      OneMoreChild(v, children, n);
    }
  }

  /** There are as many nodes as routes. */
  lemma {:induction false} RoutesCount(c: Catalog, v: Value)
    ensures |Routes(v)| == Nodes(v)
    decreases v, 1
  {
    if v.Obj? {
      var children := ArrayPart(v.fields, "children");
      var below := RoutesFrom(v, children, |children|);
      RoutesFromCount(c, v, children, |children|);
      Unfolded(c, v);
      assert ChildNodes(children)[..|children|] == ChildNodes(children);
      RoutesFromAre(v, children, |children|, []);
      DisjointCount({[]}, below);
    }
  }

  // ----- the names of the nodes -----

  /** The id of the node at a route. */
  function IdAt(v: Value, route: Route): string
    requires NodeAt(v, route).Some? && NodeAt(v, route).value.Obj?
  {
    TextPart(NodeAt(v, route).value.fields, "id")
  }

  lemma {:induction false} UnionHolds(bags: seq<multiset<string>>, i: nat)
    requires i < |bags|
    ensures bags[i] <= Union(bags)
    decreases |bags|
  {
    var front := bags[..|bags| - 1];
    if i < |front| {
      UnionHolds(front, i);
      assert front[i] == bags[i];
    }
  }

  lemma {:induction false} UnionHoldsTwo(bags: seq<multiset<string>>, i: nat, j: nat)
    requires i < j < |bags|
    ensures bags[i] + bags[j] <= Union(bags)
    decreases |bags|
  {
    var front := bags[..|bags| - 1];
    assert forall k :: 0 <= k < |front| ==> front[k] == bags[k];
    if j < |front| {
      UnionHoldsTwo(front, i, j);
    } else {
      UnionHolds(front, i);
    }
  }

  lemma ChildIdsHeld(c: Catalog, v: Value, i: nat, id: string)
    requires v.Obj? && i < |ArrayPart(v.fields, "children")|
    ensures Ids(ArrayPart(v.fields, "children")[i])[id] + (if id == TextPart(v.fields, "id") then 1 else 0)
            <= Ids(v)[id]
  {
    Unfolded(c, v);
    UnionHolds(ChildIds(ArrayPart(v.fields, "children")), i);
  }

  lemma TwoChildrenHeld(c: Catalog, v: Value, i: nat, j: nat, id: string)
    requires v.Obj? && i < j < |ArrayPart(v.fields, "children")|
    ensures Ids(ArrayPart(v.fields, "children")[i])[id] + Ids(ArrayPart(v.fields, "children")[j])[id] <= Ids(v)[id]
  {
    Unfolded(c, v);
    UnionHoldsTwo(ChildIds(ArrayPart(v.fields, "children")), i, j);
  }

  lemma OnceOnly(ids: multiset<string>, id: string)
    requires AllDistinct(ids)
    ensures ids[id] <= 1
  {
    if ids[id] > 0 {
      assert id in ids;
    }
  }

  lemma ChildDistinct(c: Catalog, v: Value, i: nat)
    requires v.Obj? && i < |ArrayPart(v.fields, "children")| && AllDistinct(Ids(v))
    ensures AllDistinct(Ids(ArrayPart(v.fields, "children")[i]))
  {
    var child := ArrayPart(v.fields, "children")[i];
    forall id | id in Ids(child) ensures Ids(child)[id] == 1 {
      ChildIdsHeld(c, v, i, id);
      OnceOnly(Ids(v), id);
    }
  }

  lemma {:induction false} IdCounted(c: Catalog, v: Value, route: Route)
    requires NodeAt(v, route).Some? && NodeAt(v, route).value.Obj?
    ensures Ids(v)[IdAt(v, route)] >= 1
    decreases |route|
  {
    Unfolded(c, v);
    if route != [] {
      ChildIdsHeld(c, v, route[0], IdAt(v, route));
      IdCounted(c, ArrayPart(v.fields, "children")[route[0]], route[1..]);
    }
  }

  /** The root's name is not used below it. */
  lemma RootDiffers(c: Catalog, v: Value, route: Route)
    requires NodeAt(v, route).Some? && NodeAt(v, route).value.Obj? && route != [] && AllDistinct(Ids(v))
    ensures IdAt(v, route) != TextPart(v.fields, "id")
  {
    var id := IdAt(v, route);
    ChildIdsHeld(c, v, route[0], id);
    IdCounted(c, ArrayPart(v.fields, "children")[route[0]], route[1..]);
    OnceOnly(Ids(v), id);
  }

  lemma BranchesDiffer(c: Catalog, v: Value, a: Route, b: Route)
    requires NodeAt(v, a).Some? && NodeAt(v, a).value.Obj? && NodeAt(v, b).Some? && NodeAt(v, b).value.Obj?
    requires AllDistinct(Ids(v)) && a != [] && b != [] && a[0] < b[0]
    ensures IdAt(v, a) != IdAt(v, b)
  {
    var children, id := ArrayPart(v.fields, "children"), IdAt(v, a);
    IdCounted(c, children[a[0]], a[1..]);
    IdCounted(c, children[b[0]], b[1..]);
    TwoChildrenHeld(c, v, a[0], b[0], id);
    OnceOnly(Ids(v), id);
  }

  /** If no id counts twice, different routes lead to differently named nodes. */
  lemma {:induction false} RoutesDiffer(c: Catalog, v: Value, a: Route, b: Route)
    requires NodeAt(v, a).Some? && NodeAt(v, a).value.Obj? && NodeAt(v, b).Some? && NodeAt(v, b).value.Obj?
    requires AllDistinct(Ids(v)) && a != b
    ensures IdAt(v, a) != IdAt(v, b)
    decreases |a|
  {
    if a == [] {
      RootDiffers(c, v, b);
    } else if b == [] {
      RootDiffers(c, v, a);
    } else if a[0] < b[0] {
      BranchesDiffer(c, v, a, b);
    } else if b[0] < a[0] {
      BranchesDiffer(c, v, b, a);
    } else {
      assert a == [a[0]] + a[1..] && b == [b[0]] + b[1..];
      ChildDistinct(c, v, a[0]);
      RoutesDiffer(c, ArrayPart(v.fields, "children")[a[0]], a[1..], b[1..]);
    }
  }

  lemma RouteIsObject(c: NativeRules.Context, document: Value, route: Route)
    requires CatalogOk(c.catalog) && DocumentOk(c, document) && NodeAt(document.fields["root"], route).Some?
    ensures NodeAt(document.fields["root"], route).value.Obj?
  {
    AcceptedMeans(c, document, route);
  }

  /** An accepted document has no more nodes than the catalog allows. */
  lemma AcceptedCount(c: NativeRules.Context, document: Value)
    requires DocumentOk(c, document)
    ensures forall r :: r in Routes(document.fields["root"]) <==> NodeAt(document.fields["root"], r).Some?
    ensures |Routes(document.fields["root"])| <= c.catalog.limits.maxNodes
  {
    var root := document.fields["root"];
    forall r ensures r in Routes(root) <==> NodeAt(root, r).Some? {
      RoutesAre(root, r);
    }
    RoutesCount(c.catalog, root);
  }

  /** No two nodes of an accepted document share a name. */
  lemma AcceptedNames(c: NativeRules.Context, document: Value, a: Route, b: Route)
    requires CatalogOk(c.catalog) && DocumentOk(c, document)
    requires NodeAt(document.fields["root"], a).Some? && NodeAt(document.fields["root"], b).Some? && a != b
    ensures NodeAt(document.fields["root"], a).value.Obj? && NodeAt(document.fields["root"], b).value.Obj?
    ensures IdAt(document.fields["root"], a) != IdAt(document.fields["root"], b)
  {
    RouteIsObject(c, document, a);
    RouteIsObject(c, document, b);
    RoutesDiffer(c.catalog, document.fields["root"], a, b);
  }
}
