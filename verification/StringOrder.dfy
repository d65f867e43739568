/**
 Go's byte order on strings.  Identifiers and JSON keys are compared with it when jobs are
 claimed, artifact files are listed and canonical JSON is printed.  UTF-8 keeps the order of
 code points, so comparing code points is comparing bytes.
 */
module StringOrder {

  predicate Less(a: string, b: string)
  {
    if b == [] then false
    else if a == [] then true
    else if a[0] != b[0] then a[0] < b[0]
    else Less(a[1..], b[1..])
  }

  /** Equal before this place and smaller there. */
  predicate SmallerAt(a: string, b: string, i: nat)
  {
    i < |a| && i < |b| && a[..i] == b[..i] && a[i] < b[i]
  }

  /** A proper prefix comes first; else the first difference decides. */
  lemma {:induction false} LessMeans(a: string, b: string)
    ensures Less(a, b) <==> a < b || exists i: nat :: SmallerAt(a, b, i)
  {
    if a != [] && b != [] {
      if a[0] == b[0] {
        var x, y := a[1..], b[1..];
        LessMeans(x, y);
        assert a == [a[0]] + x && b == [b[0]] + y;
        if i: nat :| SmallerAt(x, y, i) {
          assert a[..i + 1] == [a[0]] + x[..i] && b[..i + 1] == [b[0]] + y[..i];
          assert SmallerAt(a, b, i + 1);
        }
        if i: nat :| SmallerAt(a, b, i) {
          assert x[..i - 1] == a[..i][1..] && y[..i - 1] == b[..i][1..];
          assert SmallerAt(x, y, i - 1);
        }
        assert a < b <==> x < y;
      } else {
        assert SmallerAt(a, b, 0) <==> a[0] < b[0];
        forall i: nat ensures SmallerAt(a, b, i) ==> i == 0 {
          assert 0 < i <= |a| && i <= |b| ==> a[..i][0] == a[0] && b[..i][0] == b[0];
        }
      }
    }
  }

  lemma {:induction false} Irreflexive(a: string)
    ensures !Less(a, a)
  {
    if a != [] {
      Irreflexive(a[1..]);
    }
  }

  lemma {:induction false} Transitive(a: string, b: string, c: string)
    requires Less(a, b) && Less(b, c)
    ensures Less(a, c)
  {
    if a != [] && a[0] == b[0] == c[0] {
      Transitive(a[1..], b[1..], c[1..]);
    }
  }

  lemma {:induction false} Total(a: string, b: string)
    ensures a == b || Less(a, b) || Less(b, a)
  {
    if a != [] && b != [] && a[0] == b[0] {
      Total(a[1..], b[1..]);
      if a[1..] == b[1..] {
        assert a == [a[0]] + a[1..] == b;
      }
    }
  }

  lemma Asymmetric(a: string, b: string)
    requires Less(a, b)
    ensures !Less(b, a)
  {
    if Less(b, a) {
      Transitive(a, b, a);
      Irreflexive(a);
    }
  }

  ghost predicate Sorted(s: seq<string>)
  {
    forall i, j :: 0 <= i < j < |s| ==> Less(s[i], s[j])
  }

  predicate IsGreatest(keys: set<string>, top: string)
  {
    top in keys && forall k :: k in keys && k != top ==> Less(k, top)
  }

  /** sort.Strings over the keys of a Go map: every key once, in increasing order. */
  function SortedKeys(keys: set<string>): (r: seq<string>)
    ensures forall k {:trigger k in r} :: k in r <==> k in keys
  {
    if keys == {} then []
    else
      GreatestExists(keys);
      assert forall a, b :: IsGreatest(keys, a) && IsGreatest(keys, b) ==> a == b by {
        forall a, b | IsGreatest(keys, a) && IsGreatest(keys, b) ensures a == b {
          GreatestUnique(keys, a, b);
        }
      }
      var top :| top in keys && IsGreatest(keys, top);
      var front := SortedKeys(keys - {top});
      assert forall k :: k in front + [top] <==> k in front || k == top;
      front + [top]
  }

  lemma {:induction false} KeysSorted(keys: set<string>)
    ensures Sorted(SortedKeys(keys)) && |SortedKeys(keys)| == |keys|
    decreases |keys|
  {
    if keys != {} {
      GreatestExists(keys);
      var top :| top in keys && IsGreatest(keys, top);
      forall other | IsGreatest(keys, other) ensures other == top {
        GreatestUnique(keys, other, top);
      }
      var front := SortedKeys(keys - {top});
      assert SortedKeys(keys) == front + [top];
      KeysSorted(keys - {top});
      forall k | k in front ensures Less(k, top) {
        assert k in keys - {top};
      }
      SortedSnoc(front, top);
    }
  }

  /** No key comes twice. */
  lemma KeysDistinct(keys: set<string>)
    ensures var r := SortedKeys(keys);
            |r| == |keys| && forall i, j :: 0 <= i < j < |r| ==> r[i] != r[j]
  {
    KeysSorted(keys);
    var r := SortedKeys(keys);
    forall i, j | 0 <= i < j < |r| ensures r[i] != r[j] {
      Irreflexive(r[i]);
    }
  }

  lemma SortedSnoc(front: seq<string>, top: string)
    requires Sorted(front) && forall k :: k in front ==> Less(k, top)
    ensures Sorted(front + [top])
  {
  }

  lemma GreatestUnique(keys: set<string>, a: string, b: string)
    requires IsGreatest(keys, a) && IsGreatest(keys, b)
    ensures a == b
  {
    if a != b {
      Asymmetric(a, b);
    }
  }

  lemma {:induction false} GreatestExists(keys: set<string>)
    requires keys != {}
    ensures exists top :: IsGreatest(keys, top)
    decreases |keys|
  {
    var a :| a in keys;
    var rest := keys - {a};
    if rest == {} {
      assert keys == {a};
      assert IsGreatest(keys, a);
    } else {
      GreatestExists(rest);
      var top :| IsGreatest(rest, top);
      ExtendGreatest(rest, a, top);
      assert keys == rest + {a};
    }
  }

  lemma ExtendGreatest(rest: set<string>, a: string, top: string)
    requires IsGreatest(rest, top) && a !in rest
    ensures exists best :: IsGreatest(rest + {a}, best)
  {
    Total(a, top);
    if Less(a, top) {
      assert IsGreatest(rest + {a}, top);
    } else {
      forall k | k in rest ensures Less(k, a) {
        if k != top {
          Transitive(k, top, a);
        }
      }
      assert IsGreatest(rest + {a}, a);
    }
  }

  lemma SomeMember(s: seq<string>)
    ensures s == [] || exists k :: k in s
  {
    if s != [] {
      assert s[0] in s;
    }
  }

  /** A sorted list is determined by its members. */
  lemma {:induction false} SortedUnique(a: seq<string>, b: seq<string>)
    requires Sorted(a) && Sorted(b)
    requires forall k :: k in a <==> k in b
    ensures a == b
  {
    SomeMember(b);
    if a != [] {
      assert a[0] in a;
      var j :| 0 <= j < |b| && b[j] == a[0];
      var i :| 0 <= i < |a| && a[i] == b[0] by { assert b[0] in b; }
      if i > 0 && j > 0 {
        Asymmetric(a[0], a[i]);
      }
      if i == 0 || j == 0 {
        assert a[0] == b[0];
      }
      forall k ensures k in a[1..] <==> k in b[1..] {
        if k in a[1..] {
          var x :| 1 <= x < |a| && a[x] == k;
          Irreflexive(k);
          assert k in a && k != a[0];
          assert k in b;
        }
        if k in b[1..] {
          var x :| 1 <= x < |b| && b[x] == k;
          Irreflexive(k);
          assert k in b && k != b[0];
          assert k in a;
        }
      }
      SortedUnique(a[1..], b[1..]);
      assert a == [a[0]] + a[1..] && b == [b[0]] + b[1..];
    }
  }
}
