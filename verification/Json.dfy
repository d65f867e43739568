/** JSON values as encoding/json decodes them with UseNumber, and sums over their parts. */
module Json {
  import opened Prelude

  /**
   A decoded document.  Int holds the number texts strconv.ParseInt accepts, Dec every other
   number text; numbers are exact.
   */
  datatype Value =
    | Null
    | Bool(truth: bool)
    | Int(int_: int)
    | Dec(dec: real)
    | Str(text: string)
    | Arr(items: seq<Value>)
    | Obj(fields: Object)

  type Object = map<string, Value>

  function NumberOf(v: Value): Option<real>
  {
    match v
    case Int(i) => Some(i as real)
    case Dec(r) => Some(r)
    case _ => None
  }

  predicate IsNumber(v: Value)
  {
    v.Int? || v.Dec?
  }

  // ----- sums that do not depend on the order of a map -----

  ghost function Total(m: map<string, nat>): nat
  {
    if m == map[] then 0 else var k :| k in m; m[k] + Total(m - {k})
  }

  /** Any key may be counted first. */
  lemma {:induction false} TotalPick(m: map<string, nat>, k: string)
    requires k in m
    ensures Total(m) == m[k] + Total(m - {k})
    decreases |m|
  {
    var first :| first in m && Total(m) == m[first] + Total(m - {first});
    if first != k {
      TotalPick(m - {first}, k);
      TotalPick(m - {k}, first);
      assert m - {first} - {k} == m - {k} - {first};
    }
  }

  lemma TotalAdd(m: map<string, nat>, k: string, n: nat)
    requires k !in m
    ensures Total(m[k := n]) == Total(m) + n
  {
    TotalPick(m[k := n], k);
    assert m[k := n] - {k} == m;
  }

  /** Counting one more key of a map that is being walked in any order. */
  lemma TotalNext(m: map<string, nat>, rest: set<string>, k: string)
    requires k in rest && rest <= m.Keys
    ensures Total(m - (rest - {k})) == Total(m - rest) + m[k]
  {
    assert m - (rest - {k}) == (m - rest)[k := m[k]];
    TotalAdd(m - rest, k, m[k]);
  }

  /** What has been counted never exceeds the whole. */
  lemma {:induction false} TotalPart(m: map<string, nat>, rest: set<string>)
    requires rest <= m.Keys
    ensures Total(m - rest) <= Total(m)
    decreases |rest|
  {
    if rest == {} {
      assert m - rest == m;
    } else {
      var k :| k in rest;
      TotalNext(m, rest, k);
      TotalPart(m, rest - {k});
    }
  }

  lemma TotalStep(m: map<string, nat>, rest: set<string>, k: string)
    requires k in rest && rest <= m.Keys
    ensures Total(m - (rest - {k})) == Total(m - rest) + m[k] <= Total(m)
  {
    TotalNext(m, rest, k);
    TotalPart(m, rest - {k});
  }

  function Sum(s: seq<nat>): nat
  {
    if s == [] then 0 else Sum(s[..|s| - 1]) + s[|s| - 1]
  }

  lemma SumNext(s: seq<nat>, i: nat)
    requires i < |s|
    ensures Sum(s[..i + 1]) == Sum(s[..i]) + s[i]
  {
    assert s[..i + 1][..i] == s[..i];
  }

  lemma {:induction false} SumPart(s: seq<nat>, i: nat)
    requires i <= |s|
    ensures Sum(s[..i]) <= Sum(s)
    decreases |s| - i
  {
    if i == |s| {
      assert s[..i] == s;
    } else {
      SumNext(s, i);
      SumPart(s, i + 1);
    }
  }

  // ----- sizes -----

  ghost function Size(v: Value): nat
  {
    match v
    case Arr(items) => 1 + Sum(seq(|items|, i requires 0 <= i < |items| => Size(items[i])))
    case Obj(fields) => 1 + Total(map k | k in fields :: Size(fields[k]))
    case _ => 1
  }

  ghost function FieldSizes(o: Object): map<string, nat>
  {
    map k | k in o :: Size(o[k])
  }

  ghost function ItemSizes(items: seq<Value>): seq<nat>
  {
    seq(|items|, i requires 0 <= i < |items| => Size(items[i]))
  }

  lemma SizeOfObject(o: Object)
    ensures Size(Obj(o)) == 1 + Total(FieldSizes(o))
  {
  }

  lemma SizeOfArray(items: seq<Value>)
    ensures Size(Arr(items)) == 1 + Sum(ItemSizes(items))
  {
    assert ItemSizes(items) == seq(|items|, i requires 0 <= i < |items| => Size(items[i]));
  }
}
