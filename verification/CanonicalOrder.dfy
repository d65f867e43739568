/** The order of fields in canonical JSON: the least key comes first, and so on for the rest. */
module CanonicalOrder {
  import opened CanonicalJson
  import opened Quoting
  import StringOrder

  /** Every other key goes on from this one, or is greater at the first difference. */
  ghost predicate Least(fields: map<string, Tree>, key: string)
  {
    && key in fields
    && forall k :: k in fields && k != key ==> key < k || exists i: nat :: StringOrder.SmallerAt(key, k, i)
  }

  lemma LeastIsFirst(fields: map<string, Tree>, key: string)
    requires Least(fields, key)
    ensures StringOrder.SortedKeys(fields.Keys) == [key] + StringOrder.SortedKeys(fields.Keys - {key})
  {
    var rest := StringOrder.SortedKeys(fields.Keys - {key});
    StringOrder.KeysSorted(fields.Keys);
    StringOrder.KeysSorted(fields.Keys - {key});
    forall k | k in rest ensures StringOrder.Less(key, k) {
      StringOrder.LessMeans(key, k);
    }
    forall k ensures k in [key] + rest <==> k in StringOrder.SortedKeys(fields.Keys) {
      assert k in rest <==> k in fields.Keys - {key};
    }
    StringOrder.SortedUnique([key] + rest, StringOrder.SortedKeys(fields.Keys));
  }

  /** A field that is not printed may as well be left out. */
  lemma {:induction false} OtherFieldsPrint(p: Printable, fields: map<string, Tree>, key: string, keys: seq<string>)
    requires forall k :: k in keys ==> k in fields && k != key
    ensures PrintFields(p, Map(fields), keys) == PrintFields(p, Map(fields - {key}), keys)
    decreases |keys|
  {
    if keys != [] {
      var k := keys[0];
      assert k in keys && (fields - {key})[k] == fields[k];
      OtherFieldsPrint(p, fields, key, keys[1..]);
    }
  }

  lemma FieldsUnfold(p: Printable, fields: map<string, Tree>, key: string, rest: seq<string>)
    requires key in fields && forall k :: k in rest ==> k in fields
    ensures forall k :: k in [key] + rest ==> k in fields
    ensures PrintFields(p, Map(fields), [key] + rest)
            == Quote(p, key) + ":" + Print(p, fields[key])
               + if rest == [] then "" else "," + PrintFields(p, Map(fields), rest)
  {
    assert ([key] + rest)[1..] == rest;
  }

  lemma OthersInMap(fields: map<string, Tree>, key: string)
    requires key in fields
    ensures forall k :: k in StringOrder.SortedKeys(fields.Keys - {key}) ==> k in fields && k != key
    ensures StringOrder.SortedKeys(fields.Keys - {key}) == [] <==> fields.Keys == {key}
    ensures (fields - {key}).Keys == fields.Keys - {key}
  {
    var rest := StringOrder.SortedKeys(fields.Keys - {key});
    forall k | k in rest ensures k in fields && k != key {
      assert k in fields.Keys - {key};
    }
    if fields.Keys != {key} {
      var k :| k in fields.Keys - {key};
      assert k in rest;
    }
  }

  lemma Brackets(first: string, others: string)
    ensures "{" + (first + ("," + others)) + "}" == "{" + first + ("," + ("{" + others + "}")[1..])
  {
  }

  /** The text of a map is its least field, and then the text of the others. */
  lemma LeastKeyFirst(p: Printable, fields: map<string, Tree>, key: string)
    requires Least(fields, key)
    ensures Print(p, Map(fields))
            == "{" + (Quote(p, key) + ":" + Print(p, fields[key]))
               + if fields.Keys == {key} then "}" else "," + Print(p, Map(fields - {key}))[1..]
  {
    var rest := StringOrder.SortedKeys(fields.Keys - {key});
    LeastIsFirst(fields, key);
    OthersInMap(fields, key);
    FieldsUnfold(p, fields, key, rest);
    if rest != [] {
      OtherFieldsPrint(p, fields, key, rest);
      Brackets(Quote(p, key) + ":" + Print(p, fields[key]), PrintFields(p, Map(fields), rest));
    }
  }
}
