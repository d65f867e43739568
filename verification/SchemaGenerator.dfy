/** The generator of the schema as it runs: one loop for each part of the catalog. */
module SchemaGenerator {
  import opened Prelude
  import opened Json
  import opened NativeCatalog
  import opened SchemaModel
  import opened NativeSchema
  import SA = SchemaAgreement
  import SM = SchemaMeaning
  import StringOrder

  /** Whatever the patterns, the schema accepts exactly the documents of the catalog. */
  ghost predicate Describes(schema: SchemaDocument, catalog: Catalog)
  {
    forall m: SM.Patterns, v: Value :: SA.PathPatterns(m) ==>
      (Valid(schema.definitions, m, schema.root, v, MAX_REFS) <==> SM.IsDocument(catalog, m, v))
  }

  lemma SchemaDescribes(catalog: Catalog)
    requires CatalogOk(catalog) && SM.Inhabited(catalog)
    ensures Describes(SchemaOf(catalog), catalog)
  {
    var schema := SchemaOf(catalog);
    forall m: SM.Patterns, v: Value | SA.PathPatterns(m)
      ensures Valid(schema.definitions, m, schema.root, v, MAX_REFS) <==> SM.IsDocument(catalog, m, v)
    {
      SM.DocumentIff(catalog, m, v);
    }
  }

  lemma MustBuild(catalog: Catalog)
    ensures CatalogOk(catalog) ==> Builds(catalog)
  {
    if CatalogOk(catalog) {
      SA.AcceptedBuilds(catalog);
    }
  }

  /** Under any definitions of such a catalog, the schema of a prop accepts exactly what meets its rule. */
  ghost predicate PropsMean(rule: ComponentRule, props: map<string, Schema>)
  {
    && props.Keys == rule.allowedProps.Keys
    && forall d: Definitions, m: SM.Patterns, catalog: Catalog, p: string, v: Value ::
         SM.Ready(d, m, catalog) && p in props ==>
           (Valid(d, m, props[p], v, MAX_REFS) <==> SM.MeetsRule(catalog, m, rule.allowedProps[p], v))
  }

  lemma PropSchemasMean(rule: ComponentRule)
    requires ComponentOk(rule)
    ensures PropsMean(rule, PropSchemas(rule))
  {
    var props := PropSchemas(rule);
    forall d: Definitions, m: SM.Patterns, catalog: Catalog, p: string, v: Value | SM.Ready(d, m, catalog) && p in props
      ensures Valid(d, m, props[p], v, MAX_REFS) <==> SM.MeetsRule(catalog, m, rule.allowedProps[p], v)
    {
      SM.ValueIff(d, m, catalog, rule.allowedProps[p], v);
    }
  }

  method BuildProps(rule: ComponentRule) returns (r: Option<map<string, Schema>>)
    ensures r == if ComponentBuilds(rule) then Some(PropSchemas(rule)) else None
    ensures r.Some? && ComponentOk(rule) ==> PropsMean(rule, r.value)
  {
    var props: map<string, Schema> := map[];
    var rest := rule.allowedProps.Keys;
    while rest != {}
      invariant rest <= rule.allowedProps.Keys && props.Keys == rule.allowedProps.Keys - rest
      invariant forall p :: p in props ==>
                  rule.allowedProps[p].kind in VALUE_KINDS && props[p] == ValueSchema(rule.allowedProps[p])
    {
      var p :| p in rest;
      if rule.allowedProps[p].kind !in VALUE_KINDS {
        return None;
      }
      props := props[p := ValueSchema(rule.allowedProps[p])];
      rest := rest - {p};
    }
    assert props == PropSchemas(rule);
    if ComponentOk(rule) {
      PropSchemasMean(rule);
    }
    return Some(props);
  }

  method BuildEvents(allowed: seq<string>, maxActions: int) returns (events: map<string, Schema>)
    ensures events == EventSchemas(allowed, maxActions)
  {
    events := map[];
    for i := 0 to |allowed|
      invariant events == EventSchemas(allowed[..i], maxActions)
    {
      assert allowed[..i + 1] == allowed[..i] + [allowed[i]];
      events := events[allowed[i] := EventSchema(maxActions)];
    }
    assert allowed[..|allowed|] == allowed;
  }

  method BuildComponent(name: string, rule: ComponentRule, maxChildren: int, maxActions: int)
    returns (r: Option<Schema>)
    ensures r == if ComponentBuilds(rule) then Some(ComponentSchema(name, rule, maxChildren, maxActions)) else None
  {
    var props := BuildProps(rule);
    if props.None? {
      return None;
    }
    var events := BuildEvents(rule.allowedEvents, maxActions);
    var required := ["id", "type"];
    if |rule.requiredProps| > 0 {
      required := ["id", "type", "props"];
    }
    return Some(NodeSchema(name, Closed(props.value, rule.requiredProps), Closed(events, []), required, maxChildren));
  }

  method BuildAction(name: string, rule: ActionRule, capabilities: map<string, CapabilityRule>)
    returns (r: Option<Schema>)
    ensures r == if ActionBuilds(rule) then Some(ActionSchema(name, rule, capabilities)) else None
  {
    var fields := rule.requiredFields + rule.optionalFields;
    var properties := map["type" := Const(name)];
    assert properties == FieldSchemas(name, fields[..0], rule, capabilities);
    for i := 0 to |fields|
      invariant forall k :: 0 <= k < i ==> FieldBuilds(fields[k], rule)
      invariant properties == FieldSchemas(name, fields[..i], rule, capabilities)
    {
      if !FieldBuilds(fields[i], rule) {
        assert fields[i] in fields;
        return None;
      }
      OneMoreField(name, fields, i, rule, capabilities);
      properties := properties[fields[i] := FieldSchema(fields[i], rule, capabilities)];
    }
    assert fields[..|fields|] == fields;
    return Some(Closed(properties, ["type"] + rule.requiredFields));
  }

  lemma OneMoreField(name: string, fields: seq<string>, i: nat, rule: ActionRule,
                     capabilities: map<string, CapabilityRule>)
    requires i < |fields|
    ensures FieldSchemas(name, fields[..i + 1], rule, capabilities)
            == FieldSchemas(name, fields[..i], rule, capabilities)
                 [fields[i] := FieldSchema(fields[i], rule, capabilities)]
  {
    assert fields[..i + 1] == fields[..i] + [fields[i]];
  }

  method BuildComponents(catalog: Catalog) returns (r: Option<seq<Schema>>)
    ensures r.Some? <==> forall name :: name in catalog.components ==> ComponentBuilds(catalog.components[name])
    ensures r.Some? ==> r.value == ComponentBranches(catalog)
  {
    var branches: seq<Schema> := [];
    var names := StringOrder.SortedKeys(catalog.components.Keys);
    for i := 0 to |names|
      invariant branches == ComponentBranches(catalog)[..i]
      invariant forall k :: 0 <= k < i ==>
                names[k] in catalog.components && ComponentBuilds(catalog.components[names[k]])
    {
      assert names[i] in names;
      var branch := BuildComponent(names[i], catalog.components[names[i]],
                                   catalog.limits.maxChildrenPerNode, catalog.limits.maxActionsPerEvent);
      if branch.None? {
        return None;
      }
      branches := branches + [branch.value];
    }
    assert forall name :: name in catalog.components ==> name in names;
    return Some(branches);
  }

  method BuildActions(catalog: Catalog) returns (r: Option<seq<Schema>>)
    ensures r.Some? <==> forall name :: name in catalog.actions ==> ActionBuilds(catalog.actions[name])
    ensures r.Some? ==> r.value == ActionBranches(catalog)
  {
    var branches: seq<Schema> := [];
    var names := StringOrder.SortedKeys(catalog.actions.Keys);
    for i := 0 to |names|
      invariant branches == ActionBranches(catalog)[..i]
      invariant forall k :: 0 <= k < i ==> names[k] in catalog.actions && ActionBuilds(catalog.actions[names[k]])
    {
      assert names[i] in names;
      var branch := BuildAction(names[i], catalog.actions[names[i]], catalog.capabilityMethods);
      if branch.None? {
        return None;
      }
      branches := branches + [branch.value];
    }
    assert forall name :: name in catalog.actions ==> name in names;
    return Some(branches);
  }

  method BuildExpressions(catalog: Catalog) returns (branches: seq<Schema>)
    ensures branches == ExpressionBranches(catalog)
  {
    branches := [];
    var names := StringOrder.SortedKeys(catalog.expressions.Keys);
    for i := 0 to |names|
      invariant branches == ExpressionBranches(catalog)[..i]
    {
      assert names[i] in names;
      branches := branches + [ExpressionSchema(names[i], catalog.expressions[names[i]])];
    }
  }

  /** buildNativeSchema: one branch a name, in sorted order, or an error from any of them. */
  method BuildNativeSchema(catalog: Catalog) returns (r: Option<SchemaDocument>)
    ensures r == if Builds(catalog) then Some(SchemaOf(catalog)) else None
    ensures CatalogOk(catalog) && SM.Inhabited(catalog) ==> r.Some? && Describes(r.value, catalog)
  {
    var components := BuildComponents(catalog);
    if components.None? {
      MustBuild(catalog);
      return None;
    }
    var actions := BuildActions(catalog);
    if actions.None? {
      MustBuild(catalog);
      return None;
    }
    var expressions := BuildExpressions(catalog);
    if CatalogOk(catalog) && SM.Inhabited(catalog) {
      SchemaDescribes(catalog);
    }
    return Some(DocumentSchema(catalog.version, components.value, actions.value, expressions));
  }
}
