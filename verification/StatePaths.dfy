/**
 The flat index over initialState against walking the tree: a path is indexed exactly when its
 segments, none empty and none with a dot, lead through objects to a value.
 */
module StatePaths {
  import opened Prelude
  import opened Json
  import opened NativeRules
  import opened Text

  /** Follow the segments through nested objects. */
  function Walk(v: Value, segments: seq<string>): Option<Value>
    decreases |segments|
  {
    if segments == [] then Some(v)
    else if v.Obj? && segments[0] in v.fields then Walk(v.fields[segments[0]], segments[1..])
    else None
  }

  /** What a path of the initial state means. */
  function ReadAt(initial: Object, path: string): Option<Value>
  {
    if ValidPath(path) then Walk(Obj(initial), Split(path, '.')) else None
  }

  /** The index holds every readable path, with its value, and no other. */
  ghost predicate IsIndex(paths: Paths, initial: Object)
  {
    forall p :: (p in paths <==> ReadAt(initial, p).Some?) && (p in paths ==> Some(paths[p]) == ReadAt(initial, p))
  }

  lemma IndexIsUnique(a: Paths, b: Paths, initial: Object)
    requires IsIndex(a, initial) && IsIndex(b, initial)
    ensures a == b
  {
    assert forall p :: p in a <==> p in b;
    assert forall p :: p in a ==> Some(a[p]) == ReadAt(initial, p) == Some(b[p]);
  }

  // ----- building it -----

  /** Keys that are indexed under their parent. */
  predicate Indexable(key: string)
  {
    key != "" && Free(key, '.')
  }

  /** The values below v, where v stands at the segments `at`. */
  function ReadUnder(v: Value, at: seq<string>, path: string): Option<Value>
  {
    var s := Split(path, '.');
    if ValidSegments(s) && |at| <= |s| && s[..|at|] == at then Walk(v, s[|at|..]) else None
  }

  /** `after` is `before` with everything at and below v added. */
  ghost predicate Adds(before: Paths, after: Paths, v: Value, at: seq<string>)
  {
    && (forall p :: p in after <==> p in before || ReadUnder(v, at, p).Some?)
    && (forall p :: p in after ==>
          after[p] == if ReadUnder(v, at, p).Some? then ReadUnder(v, at, p).value else before[p])
  }

  /** The same while only some children of an object have been visited. */
  function ReadSome(fields: Object, at: seq<string>, done: set<string>, path: string): Option<Value>
  {
    var s := Split(path, '.');
    if ValidSegments(s) && |at| < |s| && s[..|at|] == at && s[|at|] in done then Walk(Obj(fields), s[|at|..]) else None
  }

  ghost predicate AddsSome(before: Paths, after: Paths, fields: Object, at: seq<string>, done: set<string>)
  {
    && (forall p :: p in after <==> p in before || ReadSome(fields, at, done, p).Some?)
    && (forall p :: p in after ==>
          after[p] == if ReadSome(fields, at, done, p).Some? then ReadSome(fields, at, done, p).value else before[p])
  }

  /** One more indexable child. */
  lemma ChildAdds(before: Paths, middle: Paths, after: Paths, fields: Object, at: seq<string>, done: set<string>,
                  k: string)
    requires AddsSome(before, middle, fields, at, done) && k in fields && k !in done && Indexable(k)
    requires Adds(middle, after, fields[k], at + [k])
    ensures AddsSome(before, after, fields, at, done + {k})
  {
    forall p
      ensures ReadUnder(fields[k], at + [k], p).Some? ==>
              ReadSome(fields, at, done + {k}, p) == ReadUnder(fields[k], at + [k], p)
      ensures ReadUnder(fields[k], at + [k], p).None? ==>
              ReadSome(fields, at, done + {k}, p) == ReadSome(fields, at, done, p)
    {
      ChildReads(fields, at, done, k, p);
    }
  }

  lemma ChildReads(fields: Object, at: seq<string>, done: set<string>, k: string, p: string)
    requires k in fields && k !in done
    ensures ReadUnder(fields[k], at + [k], p).Some? ==>
            ReadSome(fields, at, done + {k}, p) == ReadUnder(fields[k], at + [k], p)
    ensures ReadUnder(fields[k], at + [k], p).None? ==>
            ReadSome(fields, at, done + {k}, p) == ReadSome(fields, at, done, p)
  {
    var s, n := Split(p, '.'), |at|;
    assert (at + [k])[n] == k && (at + [k])[..n] == at;
    if ValidSegments(s) && n < |s| {
      assert s[..n + 1] == s[..n] + [s[n]];
      assert s[n..][1..] == s[n + 1..];
    }
  }

  /** A key that is empty or has a dot is no segment of any path. */
  lemma UnindexableReads(fields: Object, at: seq<string>, done: set<string>, k: string, p: string)
    requires !Indexable(k)
    ensures ReadSome(fields, at, done + {k}, p) == ReadSome(fields, at, done, p)
  {
    var s := Split(p, '.');
    JoinSplit(p, '.');
    assert |at| < |s| ==> Free(s[|at|], '.');
  }

  lemma UnindexableAdds(before: Paths, after: Paths, fields: Object, at: seq<string>, done: set<string>, k: string)
    requires AddsSome(before, after, fields, at, done) && !Indexable(k)
    ensures AddsSome(before, after, fields, at, done + {k})
  {
    forall p ensures ReadSome(fields, at, done + {k}, p) == ReadSome(fields, at, done, p) {
      UnindexableReads(fields, at, done, k, p);
    }
  }

  /** An object's own path and all of its children make up everything at and below it. */
  lemma ObjectAdds(before: Paths, own: Paths, after: Paths, fields: Object, at: seq<string>, path: string)
    requires at == [] ==> own == before && path == ""
    requires at != [] ==> own == before[path := Obj(fields)] && Split(path, '.') == at && ValidSegments(at)
    requires AddsSome(own, after, fields, at, fields.Keys)
    ensures Adds(before, after, Obj(fields), at)
  {
    forall p
      ensures ReadUnder(Obj(fields), at, p) == if at != [] && p == path then Some(Obj(fields))
                                               else ReadSome(fields, at, fields.Keys, p)
    {
      ObjectReads(fields, at, path, p);
    }
    if at != [] {
      assert ReadSome(fields, at, fields.Keys, path).None?;
    }
  }

  lemma ObjectReads(fields: Object, at: seq<string>, path: string, p: string)
    requires at == [] ==> path == ""
    requires at != [] ==> Split(path, '.') == at && ValidSegments(at)
    ensures ReadUnder(Obj(fields), at, p) == if at != [] && p == path then Some(Obj(fields))
                                             else ReadSome(fields, at, fields.Keys, p)
  {
    var s, n := Split(p, '.'), |at|;
    JoinSplit(p, '.');
    JoinSplit(path, '.');
    assert n == |s| ==> s[..n] == s && s[n..] == [];
    if ValidSegments(s) && n < |s| && s[..n] == at && s[n] !in fields {
      assert Walk(Obj(fields), s[n..]).None?;
    }
  }

  /** A value that is no object adds only itself. */
  lemma LeafAdds(before: Paths, after: Paths, v: Value, at: seq<string>, path: string)
    requires !v.Obj? && at != [] && Split(path, '.') == at && ValidSegments(at) && after == before[path := v]
    ensures Adds(before, after, v, at)
  {
    forall p ensures ReadUnder(v, at, p) == if p == path then Some(v) else None {
      var s := Split(p, '.');
      if ValidSegments(s) && |at| <= |s| && s[..|at|] == at {
        if |s| == |at| {
          JoinSplit(p, '.');
          JoinSplit(path, '.');
          assert s == at;
          assert s[|at|..] == [];
        }
      }
    }
  }

  /** The path of a child, spelled with a dot, splits into its segments. */
  lemma ChildPath(at: seq<string>, path: string, k: string)
    requires Indexable(k) && (at == [] ==> path == "") && (at != [] ==> Split(path, '.') == at && ValidSegments(at))
    ensures var child := if path == "" then k else path + "." + k;
            Split(child, '.') == at + [k] && ValidSegments(at + [k])
  {
    if at == [] {
      assert Join([k], '.') == k;
      SplitJoin([k], '.');
    } else {
      JoinSplit(path, '.');
      assert Split("", '.') == [""] && at[0] != "";
      JoinSnoc(at, k, '.');
      SplitJoin(at + [k], '.');
    }
  }

  lemma {:induction false} JoinSnoc(parts: seq<string>, last: string, sep: char)
    requires parts != []
    ensures Join(parts + [last], sep) == Join(parts, sep) + [sep] + last
    decreases |parts|
  {
    if |parts| == 1 {
      assert (parts + [last])[1..] == [last];
    } else {
      assert (parts + [last])[1..] == parts[1..] + [last];
      JoinSnoc(parts[1..], last, sep);
    }
  }

  /** Starting from nothing, everything below the root is the index. */
  lemma RootAdds(after: Paths, initial: Object)
    requires Adds(map[], after, Obj(initial), [])
    ensures IsIndex(after, initial)
  {
    forall p ensures ReadUnder(Obj(initial), [], p) == ReadAt(initial, p) {
      assert Split(p, '.')[0..] == Split(p, '.');
    }
  }
}
