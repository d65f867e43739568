/** CanonicalJSON as it runs: a buffer written to piece by piece. */
module CanonicalPrinter {
  import opened Prelude
  import opened Quoting
  import opened CanonicalJson
  import StringOrder

  class Buffer {
    var content: string

    constructor ()
      ensures content == ""
    {
      content := "";
    }

    method WriteString(s: string)
      modifies this
      ensures content == old(content) + s
    {
      content := content + s;
    }
  }

  // ----- what a loop has still to write -----

  function ItemsLeft(p: Printable, v: Tree, i: nat): string
    requires v.List? && i <= |v.items|
  {
    if 0 < i < |v.items| then "," + PrintItems(p, v, i) else PrintItems(p, v, i)
  }

  function Comma(i: nat): string
  {
    if i > 0 then "," else ""
  }

  function ItemText(p: Printable, v: Tree, i: nat): string
    requires v.List? && i < |v.items|
  {
    Comma(i) + Print(p, v.items[i])
  }

  lemma ItemsStep(p: Printable, v: Tree, i: nat, written: string)
    requires v.List? && i < |v.items|
    ensures written + ItemsLeft(p, v, i) == written + ItemText(p, v, i) + ItemsLeft(p, v, i + 1)
  {
    assert ItemsLeft(p, v, i) == ItemText(p, v, i) + ItemsLeft(p, v, i + 1);
    Shift(written, ItemText(p, v, i), ItemsLeft(p, v, i + 1));
  }

  lemma Shift(a: string, b: string, c: string)
    ensures a + (b + c) == a + b + c
  {
  }

  function FieldsLeft(p: Printable, v: Tree, keys: seq<string>, i: nat): string
    requires v.Map? && i <= |keys| && forall k :: k in keys ==> k in v.fields
  {
    if 0 < i < |keys| then "," + PrintFields(p, v, keys[i..]) else PrintFields(p, v, keys[i..])
  }

  function FieldText(p: Printable, v: Tree, key: string, i: nat): string
    requires v.Map? && key in v.fields
  {
    Comma(i) + Quote(p, key) + ":" + Print(p, v.fields[key])
  }

  lemma FieldsStep(p: Printable, v: Tree, keys: seq<string>, i: nat, written: string)
    requires v.Map? && i < |keys| && forall k :: k in keys ==> k in v.fields
    ensures keys[i] in keys
    ensures written + FieldsLeft(p, v, keys, i)
            == written + FieldText(p, v, keys[i], i) + FieldsLeft(p, v, keys, i + 1)
  {
    assert keys[i..][0] == keys[i] && keys[i..][1..] == keys[i + 1..];
    FieldsSplit(Comma(i), Quote(p, keys[i]), Print(p, v.fields[keys[i]]), FieldsLeft(p, v, keys, i + 1));
    assert FieldsLeft(p, v, keys, i) == FieldText(p, v, keys[i], i) + FieldsLeft(p, v, keys, i + 1);
    Shift(written, FieldText(p, v, keys[i], i), FieldsLeft(p, v, keys, i + 1));
  }

  lemma FieldsSplit(comma: string, quoted: string, text: string, more: string)
    ensures comma + quoted + ":" + text + more == comma + (quoted + ":" + text + more)
  {
  }

  // ----- the printer -----

  /** appendCanonical: an error exactly when some number's text is no number. */
  method AppendCanonical(p: Printable, output: Buffer, v: Tree) returns (ok: bool)
    modifies output
    ensures ok <==> Printable_(v)
    ensures ok ==> output.content == old(output.content) + Print(p, v)
    decreases v, 1
  {
    match v {
      case Null =>
        output.WriteString("null");
        return true;
      case Truth(b) =>
        if b {
          output.WriteString("true");
        } else {
          output.WriteString("false");
        }
        return true;
      case Text(s) =>
        output.WriteString(Quote(p, s));
        return true;
      case Number(s) =>
        if !NumberText(s) {
          return false;
        }
        output.WriteString(s);
        return true;
      case List(_) =>
        output.WriteString("[");
        ok := AppendItems(p, output, v);
        if ok {
          output.WriteString("]");
          Bracketed(old(output.content), "[", PrintItems(p, v, 0), "]");
        }
      case Map(fields) =>
        var keys := StringOrder.SortedKeys(fields.Keys);
        output.WriteString("{");
        ok := AppendFields(p, output, v, keys);
        if ok {
          output.WriteString("}");
          Bracketed(old(output.content), "{", PrintFields(p, v, keys), "}");
        }
    }
  }

  lemma Bracketed(start: string, left: string, body: string, right: string)
    ensures start + left + body + right == start + (left + body + right)
  {
  }

  method AppendItem(p: Printable, output: Buffer, v: Tree, i: nat) returns (ok: bool)
    requires v.List? && i < |v.items|
    modifies output
    ensures ok <==> Printable_(v.items[i])
    ensures ok ==> output.content == old(output.content) + ItemText(p, v, i)
    decreases v, 0, 0
  {
    if i > 0 {
      output.WriteString(",");
    }
    ok := AppendCanonical(p, output, v.items[i]);
  }

  method AppendItems(p: Printable, output: Buffer, v: Tree) returns (ok: bool)
    requires v.List?
    modifies output
    ensures ok <==> Printable_(v)
    ensures ok ==> output.content == old(output.content) + PrintItems(p, v, 0)
    decreases v, 0, 1
  {
    ghost var all := output.content + PrintItems(p, v, 0);
    for i := 0 to |v.items|
      invariant output.content + ItemsLeft(p, v, i) == all
      invariant forall k :: 0 <= k < i ==> Printable_(v.items[k])
    {
      ItemsStep(p, v, i, output.content);
      ok := AppendItem(p, output, v, i);
      if !ok {
        return;
      }
    }
    return true;
  }

  method AppendField(p: Printable, output: Buffer, v: Tree, key: string, i: nat) returns (ok: bool)
    requires v.Map? && key in v.fields
    modifies output
    ensures ok <==> Printable_(v.fields[key])
    ensures ok ==> output.content == old(output.content) + FieldText(p, v, key, i)
    decreases v, 0, 0
  {
    if i > 0 {
      output.WriteString(",");
    }
    output.WriteString(Quote(p, key));
    output.WriteString(":");
    ghost var before := output.content;
    Written(old(output.content), Comma(i), Quote(p, key), Print(p, v.fields[key]), before);
    ok := AppendCanonical(p, output, v.fields[key]);
  }

  lemma Written(start: string, comma: string, quoted: string, text: string, before: string)
    requires before == start + comma + quoted + ":"
    ensures before + text == start + (comma + quoted + ":" + text)
  {
  }

  ghost predicate FirstPrintable(v: Tree, keys: seq<string>, i: nat)
    requires v.Map? && i <= |keys| && forall k :: k in keys ==> k in v.fields
  {
    forall k :: 0 <= k < i ==> Printable_(v.fields[keys[k]])
  }

  lemma AllPrintable(v: Tree, keys: seq<string>)
    requires v.Map? && forall k :: k in keys <==> k in v.fields
    requires FirstPrintable(v, keys, |keys|)
    ensures Printable_(v)
  {
    forall k | k in v.fields ensures Printable_(v.fields[k]) {
      assert k in keys;
    }
  }

  method AppendFields(p: Printable, output: Buffer, v: Tree, keys: seq<string>) returns (ok: bool)
    requires v.Map? && forall k :: k in keys <==> k in v.fields
    modifies output
    ensures ok <==> Printable_(v)
    ensures ok ==> output.content == old(output.content) + PrintFields(p, v, keys)
    decreases v, 0, 1
  {
    ghost var all := output.content + PrintFields(p, v, keys);
    assert keys[0..] == keys;
    for i := 0 to |keys|
      invariant output.content + FieldsLeft(p, v, keys, i) == all
      invariant FirstPrintable(v, keys, i)
    {
      FieldsStep(p, v, keys, i, output.content);
      ok := AppendField(p, output, v, keys[i], i);
      if !ok {
        return;
      }
    }
    AllPrintable(v, keys);
    return true;
  }

  /** CanonicalJSON. */
  method CanonicalJSON(p: Printable, v: Tree) returns (r: Option<string>)
    ensures r == if Printable_(v) then Some(Print(p, v)) else None
  {
    var output := new Buffer();
    var ok := AppendCanonical(p, output, v);
    assert "" + Print(p, v) == Print(p, v);
    return if ok then Some(output.content) else None;
  }
}
