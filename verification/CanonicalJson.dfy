/** The canonical form of JSON trees: sorted keys, quoted strings, numbers by their text. */
module CanonicalJson {
  import opened Prelude
  import opened Quoting
  import StringOrder

  datatype Tree =
    | Null
    | Truth(truth: bool)
    | Text(text: string)
    | Number(text: string)
    | List(items: seq<Tree>)
    | Map(fields: map<string, Tree>)

  predicate NumberChar(c: char)
  {
    '0' <= c <= '9' || c == '+' || c == '-' || c == '.' || c == 'e' || c == 'E'
  }

  /** Texts that json.Number and strconv.FormatFloat produce for finite numbers. */
  predicate NumberText(s: string)
  {
    s != "" && forall i :: 0 <= i < |s| ==> NumberChar(s[i])
  }

  /** Every number of the tree has such a text. */
  predicate Printable_(v: Tree)
  {
    match v
    case Number(text) => NumberText(text)
    case List(items) => forall i :: 0 <= i < |items| ==> Printable_(items[i])
    case Map(fields) => forall k :: k in fields ==> Printable_(fields[k])
    case _ => true
  }

  /** Every text and key of the tree is quoted with escapes that JSON has too. */
  predicate Legal(p: Printable, v: Tree)
  {
    match v
    case Text(text) => AllLegal(p, text)
    case List(items) => forall i :: 0 <= i < |items| ==> Legal(p, items[i])
    case Map(fields) => forall k :: k in fields ==> AllLegal(p, k) && Legal(p, fields[k])
    case _ => true
  }

  // ----- printing -----

  function Print(p: Printable, v: Tree): string
    decreases v, 1, 0
  {
    match v
    case Null => "null"
    case Truth(b) => if b then "true" else "false"
    case Text(s) => Quote(p, s)
    case Number(s) => s
    case List(items) => "[" + PrintItems(p, v, 0) + "]"
    case Map(fields) => "{" + PrintFields(p, v, StringOrder.SortedKeys(fields.Keys)) + "}"
  }

  /** The items of a list from i on, with commas between them. */
  function PrintItems(p: Printable, v: Tree, i: nat): string
    requires v.List? && i <= |v.items|
    decreases v, 0, |v.items| - i
  {
    if i == |v.items| then ""
    else Print(p, v.items[i]) + if i + 1 == |v.items| then "" else "," + PrintItems(p, v, i + 1)
  }

  function PrintFields(p: Printable, v: Tree, keys: seq<string>): string
    requires v.Map? && forall k :: k in keys ==> k in v.fields
    decreases v, 0, |keys|
  {
    if keys == [] then ""
    else
      Quote(p, keys[0]) + ":" + Print(p, v.fields[keys[0]])
      + if |keys| == 1 then "" else "," + PrintFields(p, v, keys[1..])
  }

  // ----- reading -----

  function NumberLength(s: string): (n: nat)
    ensures n <= |s|
  {
    if s != "" && NumberChar(s[0]) then 1 + NumberLength(s[1..]) else 0
  }

  predicate StartsWith(s: string, prefix: string)
  {
    |s| >= |prefix| && s[..|prefix|] == prefix
  }

  function ReadWord(s: string, word: string, v: Tree): Option<(Tree, string)>
  {
    if StartsWith(s, word) then Some((v, s[|word|..])) else None
  }

  function ReadText(strict: bool, s: string): Option<(Tree, string)>
  {
    var text := ReadQuoted(strict, s);
    if text.None? then None else Some((Text(text.value.0), text.value.1))
  }

  function ReadNumber(s: string): Option<(Tree, string)>
  {
    var n := NumberLength(s);
    if n == 0 then None else Some((Number(s[..n]), s[n..]))
  }

  /** One value and what follows it. */
  function Read(strict: bool, s: string): (r: Option<(Tree, string)>)
    ensures r.Some? ==> |r.value.1| < |s|
    decreases |s|, 1
  {
    if s == "" then None
    else
      match s[0]
      case 'n' => ReadWord(s, "null", Null)
      case 't' => ReadWord(s, "true", Truth(true))
      case 'f' => ReadWord(s, "false", Truth(false))
      case '"' => ReadText(strict, s)
      case '[' => ReadList(strict, s[1..])
      case '{' => ReadMap(strict, s[1..])
      case _ => ReadNumber(s)
  }

  /** The rest of a list whose opening bracket has been read. */
  function ReadList(strict: bool, s: string): (r: Option<(Tree, string)>)
    ensures r.Some? ==> |r.value.1| < |s|
    decreases |s|, 3
  {
    if s == "" then None
    else if s[0] == ']' then Some((List([]), s[1..]))
    else
      var items := ReadItems(strict, s);
      if items.None? then None else Some((List(items.value.0), items.value.1))
  }

  function ReadMap(strict: bool, s: string): (r: Option<(Tree, string)>)
    ensures r.Some? ==> |r.value.1| < |s|
    decreases |s|, 3
  {
    if s == "" then None
    else if s[0] == '}' then Some((Map(map[]), s[1..]))
    else
      var fields := ReadFields(strict, s);
      if fields.None? then None else Some((Map(fields.value.0), fields.value.1))
  }

  /** At least one item, up to the closing bracket. */
  function ReadItems(strict: bool, s: string): (r: Option<(seq<Tree>, string)>)
    ensures r.Some? ==> |r.value.1| < |s|
    decreases |s|, 2
  {
    var first := Read(strict, s);
    if first.None? || first.value.1 == "" then None
    else
      var after := first.value.1;
      if after[0] == ']' then Some(([first.value.0], after[1..]))
      else if after[0] != ',' then None
      else
        var more := ReadItems(strict, after[1..]);
        if more.None? then None else Some(([first.value.0] + more.value.0, more.value.1))
  }

  /** At least one field, up to the closing brace. */
  function ReadFields(strict: bool, s: string): (r: Option<(map<string, Tree>, string)>)
    ensures r.Some? ==> |r.value.1| < |s|
    decreases |s|, 2
  {
    var key := ReadQuoted(strict, s);
    if key.None? || !StartsWith(key.value.1, ":") then None
    else
      var value := Read(strict, key.value.1[1..]);
      if value.None? || value.value.1 == "" then None
      else
        var after := value.value.1;
        if after[0] == '}' then Some((map[key.value.0 := value.value.0], after[1..]))
        else if after[0] != ',' then None
        else
          var more := ReadFields(strict, after[1..]);
          if more.None? then None else Some((map[key.value.0 := value.value.0] + more.value.0, more.value.1))
  }

  // ----- reading undoes printing -----

  /** What may follow a number without becoming part of it. */
  predicate Ends(rest: string)
  {
    rest == "" || !NumberChar(rest[0])
  }

  lemma {:induction false} NumberReads(s: string, rest: string)
    requires (forall i :: 0 <= i < |s| ==> NumberChar(s[i])) && Ends(rest)
    ensures NumberLength(s + rest) == |s|
  {
    if s == "" {
      assert s + rest == rest;
    } else {
      assert (s + rest)[1..] == s[1..] + rest;
      NumberReads(s[1..], rest);
    }
  }

  lemma NumberTreeReads(strict: bool, s: string, rest: string)
    requires NumberText(s) && Ends(rest)
    ensures Read(strict, s + rest) == Some((Number(s), rest))
  {
    NumberReads(s, rest);
    var all := s + rest;
    assert all[0] == s[0] && NumberChar(s[0]);
    assert all[..|s|] == s && all[|s|..] == rest;
  }

  lemma WordReads(strict: bool, v: Tree, p: Printable, rest: string)
    requires v.Null? || v.Truth?
    ensures Read(strict, Print(p, v) + rest) == Some((v, rest))
  {
    var word := Print(p, v);
    var s := word + rest;
    assert word == "null" || word == "true" || word == "false";
    assert s[0] == word[0] && s[..|word|] == word && s[|word|..] == rest;
  }

  lemma FirstChar(p: Printable, v: Tree)
    requires Printable_(v)
    ensures Print(p, v) != "" && Print(p, v)[0] != ']' && Print(p, v)[0] != '}'
  {
  }

  lemma BracketReads(strict: bool, body: string)
    ensures Read(strict, "[" + body) == ReadList(strict, body) && Read(strict, "{" + body) == ReadMap(strict, body)
  {
    assert ("[" + body)[1..] == body && ("{" + body)[1..] == body;
  }

  /** Reading the printed form gives the tree back, whatever follows it. */
  lemma {:induction false} PrintReads(strict: bool, p: Printable, v: Tree, rest: string)
    requires Printable_(v) && Ends(rest) && (strict ==> Legal(p, v))
    ensures Read(strict, Print(p, v) + rest) == Some((v, rest))
    decreases v, 2
  {
    match v
    case Null => WordReads(strict, v, p, rest);
    case Truth(_) => WordReads(strict, v, p, rest);
    case Text(text) => QuoteReads(strict, p, text, rest);
    case Number(text) => NumberTreeReads(strict, text, rest);
    case List(items) => PrintedListReads(strict, p, v, rest);
    case Map(fields) => PrintedMapReads(strict, p, v, rest);
  }

  lemma {:induction false} PrintedListReads(strict: bool, p: Printable, v: Tree, rest: string)
    requires v.List? && Printable_(v) && (strict ==> Legal(p, v))
    ensures Read(strict, Print(p, v) + rest) == Some((v, rest))
    decreases v, 1
  {
    var body := PrintItems(p, v, 0) + "]" + rest;
    assert Print(p, v) + rest == "[" + body;
    BracketReads(strict, body);
    if v.items == [] {
      assert body == "]" + rest && body[1..] == rest;
    } else {
      ItemsRead(strict, p, v, 0, rest);
      FirstChar(p, v.items[0]);
      assert body[0] == Print(p, v.items[0])[0];
      assert v.items[0..] == v.items;
    }
  }

  lemma {:induction false} PrintedMapReads(strict: bool, p: Printable, v: Tree, rest: string)
    requires v.Map? && Printable_(v) && (strict ==> Legal(p, v))
    ensures Read(strict, Print(p, v) + rest) == Some((v, rest))
    decreases v, 1
  {
    var keys := StringOrder.SortedKeys(v.fields.Keys);
    var body := PrintFields(p, v, keys) + "}" + rest;
    assert Print(p, v) + rest == "{" + body;
    BracketReads(strict, body);
    if keys == [] {
      assert v.fields == map[];
      assert body == "}" + rest && body[1..] == rest;
    } else {
      StringOrder.KeysDistinct(v.fields.Keys);
      FieldsRead(strict, p, v, keys, rest);
      assert body[0] == '"';
      assert Part(v.fields, keys) == v.fields;
    }
  }

  /** One item and then the closing bracket, or a comma and more. */
  lemma ItemReads(strict: bool, item: Tree, text: string, tail: string, more: seq<Tree>, rest: string)
    requires Read(strict, text + tail) == Some((item, tail)) && tail != ""
    requires if tail[0] == ']' then more == [] && rest == tail[1..]
             else tail[0] == ',' && ReadItems(strict, tail[1..]) == Some((more, rest))
    ensures ReadItems(strict, text + tail) == Some(([item] + more, rest))
  {
    assert [item] + [] == [item];
  }

  /** What follows item i of a printed list. */
  function ItemTail(p: Printable, v: Tree, i: nat, rest: string): string
    requires v.List? && i < |v.items|
  {
    if i + 1 == |v.items| then "]" + rest else "," + (PrintItems(p, v, i + 1) + "]" + rest)
  }

  lemma TailOf(head: string, rest: string)
    requires |head| == 1
    ensures (head + rest)[1..] == rest
  {
  }

  lemma HeadOf(items: seq<Tree>, i: nat)
    requires i < |items|
    ensures items[i..] == [items[i]] + items[i + 1..]
  {
  }

  /** A field, what comes after it, and the closing brace, bracketed the other way. */
  lemma Glue(quoted: string, text: string, more: string, rest: string)
    ensures quoted + ":" + text + more + "}" + rest == quoted + (":" + text + (more + ("}" + rest)))
  {
    var a := quoted + ":" + text + more + "}" + rest;
    var b := quoted + (":" + text + (more + ("}" + rest)));
    assert |a| == |b|;
    forall i | 0 <= i < |a| ensures a[i] == b[i] {
    }
  }

  lemma ColonOf(text: string, tail: string)
    ensures (":" + text + tail)[1..] == text + tail
    ensures StartsWith(":" + text + tail, ":")
  {
  }

  lemma ItemSplits(p: Printable, v: Tree, i: nat, rest: string)
    requires v.List? && i < |v.items|
    ensures PrintItems(p, v, i) + "]" + rest == Print(p, v.items[i]) + ItemTail(p, v, i, rest)
  {
  }

  lemma LastItemReads(strict: bool, p: Printable, v: Tree, i: nat, rest: string)
    requires v.List? && i + 1 == |v.items|
    requires Read(strict, Print(p, v.items[i]) + ItemTail(p, v, i, rest)) == Some((v.items[i], ItemTail(p, v, i, rest)))
    ensures ReadItems(strict, PrintItems(p, v, i) + "]" + rest) == Some((v.items[i..], rest))
  {
    ItemSplits(p, v, i, rest);
    TailOf("]", rest);
    ItemReads(strict, v.items[i], Print(p, v.items[i]), ItemTail(p, v, i, rest), [], rest);
    assert v.items[i..] == [v.items[i]] + [];
  }

  lemma NextItemReads(strict: bool, p: Printable, v: Tree, i: nat, rest: string)
    requires v.List? && i + 1 < |v.items|
    requires Read(strict, Print(p, v.items[i]) + ItemTail(p, v, i, rest)) == Some((v.items[i], ItemTail(p, v, i, rest)))
    requires ReadItems(strict, PrintItems(p, v, i + 1) + "]" + rest) == Some((v.items[i + 1..], rest))
    ensures ReadItems(strict, PrintItems(p, v, i) + "]" + rest) == Some((v.items[i..], rest))
  {
    ItemSplits(p, v, i, rest);
    TailOf(",", PrintItems(p, v, i + 1) + "]" + rest);
    ItemReads(strict, v.items[i], Print(p, v.items[i]), ItemTail(p, v, i, rest), v.items[i + 1..], rest);
    HeadOf(v.items, i);
  }

  lemma {:induction false} ItemsRead(strict: bool, p: Printable, v: Tree, i: nat, rest: string)
    requires v.List? && i < |v.items| && Printable_(v) && (strict ==> Legal(p, v))
    ensures ReadItems(strict, PrintItems(p, v, i) + "]" + rest) == Some((v.items[i..], rest))
    decreases v, 0, |v.items| - i
  {
    PrintReads(strict, p, v.items[i], ItemTail(p, v, i, rest));
    if i + 1 == |v.items| {
      LastItemReads(strict, p, v, i, rest);
    } else {
      ItemsRead(strict, p, v, i + 1, rest);
      NextItemReads(strict, p, v, i, rest);
    }
  }

  lemma FieldReads(strict: bool, p: Printable, key: string, value: Tree, text: string, tail: string,
                   more: map<string, Tree>, rest: string)
    requires Read(strict, text + tail) == Some((value, tail)) && tail != "" && (strict ==> AllLegal(p, key))
    requires if tail[0] == '}' then more == map[] && rest == tail[1..]
             else tail[0] == ',' && ReadFields(strict, tail[1..]) == Some((more, rest))
    ensures ReadFields(strict, Quote(p, key) + (":" + text + tail)) == Some((map[key := value] + more, rest))
  {
    var body := ":" + text + tail;
    QuoteReads(strict, p, key, body);
    ColonOf(text, tail);
    assert map[key := value] + map[] == map[key := value];
  }

  /** What follows the first of some printed fields. */
  function FieldTail(p: Printable, v: Tree, keys: seq<string>, rest: string): string
    requires v.Map? && keys != [] && forall k :: k in keys ==> k in v.fields
  {
    if |keys| == 1 then "}" + rest else "," + (PrintFields(p, v, keys[1..]) + "}" + rest)
  }

  lemma FieldSplits(p: Printable, v: Tree, keys: seq<string>, rest: string)
    requires v.Map? && keys != [] && forall k :: k in keys ==> k in v.fields
    ensures PrintFields(p, v, keys) + "}" + rest
            == Quote(p, keys[0]) + (":" + Print(p, v.fields[keys[0]]) + FieldTail(p, v, keys, rest))
  {
    var more := if |keys| == 1 then "" else "," + PrintFields(p, v, keys[1..]);
    Glue(Quote(p, keys[0]), Print(p, v.fields[keys[0]]), more, rest);
    MoreGlue(p, v, keys, more, rest);
  }

  lemma MoreGlue(p: Printable, v: Tree, keys: seq<string>, more: string, rest: string)
    requires v.Map? && keys != [] && forall k :: k in keys ==> k in v.fields
    requires more == if |keys| == 1 then "" else "," + PrintFields(p, v, keys[1..])
    ensures more + ("}" + rest) == FieldTail(p, v, keys, rest)
  {
  }

  function Part(fields: map<string, Tree>, keys: seq<string>): map<string, Tree>
    requires forall k :: k in keys ==> k in fields
  {
    map k | k in keys :: fields[k]
  }

  lemma PartSplits(fields: map<string, Tree>, keys: seq<string>)
    requires keys != [] && forall k :: k in keys ==> k in fields
    requires forall i, j :: 0 <= i < j < |keys| ==> keys[i] != keys[j]
    ensures Part(fields, keys) == map[keys[0] := fields[keys[0]]] + Part(fields, keys[1..])
  {
  }

  lemma {:induction false} FieldsRead(strict: bool, p: Printable, v: Tree, keys: seq<string>, rest: string)
    requires v.Map? && keys != [] && Printable_(v) && (strict ==> Legal(p, v))
    requires forall k :: k in keys ==> k in v.fields
    requires forall i, j :: 0 <= i < j < |keys| ==> keys[i] != keys[j]
    ensures ReadFields(strict, PrintFields(p, v, keys) + "}" + rest) == Some((Part(v.fields, keys), rest))
    decreases v, 0, |keys|
  {
    var key, value, tail := keys[0], v.fields[keys[0]], FieldTail(p, v, keys, rest);
    FieldSplits(p, v, keys, rest);
    PrintReads(strict, p, value, tail);
    PartSplits(v.fields, keys);
    if |keys| > 1 {
      FieldsRead(strict, p, v, keys[1..], rest);
      TailOf(",", PrintFields(p, v, keys[1..]) + "}" + rest);
    } else {
      TailOf("}", rest);
      assert Part(v.fields, keys[1..]) == map[];
    }
    FieldReads(strict, p, key, value, Print(p, value), tail, Part(v.fields, keys[1..]), rest);
  }

  /** Two different trees never share canonical bytes. */
  lemma PrintIsInjective(p: Printable, a: Tree, b: Tree)
    requires Printable_(a) && Printable_(b) && Print(p, a) == Print(p, b)
    ensures a == b
  {
    PrintReads(false, p, a, "");
    PrintReads(false, p, b, "");
    assert Print(p, a) + "" == Print(p, b) + "";
  }

  // ----- what a JSON reader does not read -----

  /** A JSON reader stops at the first text or key whose quoted form is not JSON. */
  lemma {:induction false} PrintStops(p: Printable, v: Tree, rest: string)
    requires Printable_(v) && Ends(rest) && !Legal(p, v)
    ensures Read(true, Print(p, v) + rest).None?
    decreases v, 2
  {
    match v
    case Text(text) => QuoteStops(p, text, rest);
    case List(items) => PrintedListStops(p, v, rest);
    case Map(fields) => PrintedMapStops(p, v, rest);
  }

  lemma {:induction false} PrintedListStops(p: Printable, v: Tree, rest: string)
    requires v.List? && Printable_(v) && !Legal(p, v)
    ensures Read(true, Print(p, v) + rest).None?
    decreases v, 1
  {
    var body := PrintItems(p, v, 0) + "]" + rest;
    assert Print(p, v) + rest == "[" + body;
    BracketReads(true, body);
    ItemsStop(p, v, 0, rest);
    FirstChar(p, v.items[0]);
    assert body[0] == Print(p, v.items[0])[0];
  }

  /** No item from i on is read if one of them is not legal. */
  lemma {:induction false} ItemsStop(p: Printable, v: Tree, i: nat, rest: string)
    requires v.List? && Printable_(v) && exists k :: i <= k < |v.items| && !Legal(p, v.items[k])
    ensures ReadItems(true, PrintItems(p, v, i) + "]" + rest).None?
    decreases v, 0, |v.items| - i
  {
    var tail := ItemTail(p, v, i, rest);
    ItemSplits(p, v, i, rest);
    if Legal(p, v.items[i]) {
      PrintReads(true, p, v.items[i], tail);
      ItemsStop(p, v, i + 1, rest);
      TailOf(",", PrintItems(p, v, i + 1) + "]" + rest);
    } else {
      PrintStops(p, v.items[i], tail);
    }
  }

  lemma {:induction false} PrintedMapStops(p: Printable, v: Tree, rest: string)
    requires v.Map? && Printable_(v) && !Legal(p, v)
    ensures Read(true, Print(p, v) + rest).None?
    decreases v, 1
  {
    var keys := StringOrder.SortedKeys(v.fields.Keys);
    var body := PrintFields(p, v, keys) + "}" + rest;
    assert Print(p, v) + rest == "{" + body;
    BracketReads(true, body);
    var k :| k in v.fields && !FieldLegal(p, v, k);
    assert k in keys;
    FieldsStop(p, v, keys, rest);
    assert body[0] == '"';
  }

  predicate FieldLegal(p: Printable, v: Tree, key: string)
    requires v.Map? && key in v.fields
  {
    AllLegal(p, key) && Legal(p, v.fields[key])
  }

  lemma {:induction false} FieldsStop(p: Printable, v: Tree, keys: seq<string>, rest: string)
    requires v.Map? && Printable_(v) && forall k :: k in keys ==> k in v.fields
    requires exists k :: k in keys && !FieldLegal(p, v, k)
    ensures ReadFields(true, PrintFields(p, v, keys) + "}" + rest).None?
    decreases v, 0, |keys|
  {
    var key, value, tail := keys[0], v.fields[keys[0]], FieldTail(p, v, keys, rest);
    var body := ":" + Print(p, value) + tail;
    FieldSplits(p, v, keys, rest);
    if !AllLegal(p, key) {
      QuoteStops(p, key, body);
    } else if !Legal(p, value) {
      PrintStops(p, value, tail);
      FieldStops(p, key, Print(p, value), tail);
    } else {
      PrintReads(true, p, value, tail);
      LaterFieldStops(p, v, keys);
      FieldsStop(p, v, keys[1..], rest);
      TailOf(",", PrintFields(p, v, keys[1..]) + "}" + rest);
      FieldStops(p, key, Print(p, value), tail);
    }
  }

  /** A field whose value is not read, or after which no more fields are read. */
  lemma FieldStops(p: Printable, key: string, text: string, tail: string)
    requires AllLegal(p, key)
    requires Read(true, text + tail).None?
             || (var after := Read(true, text + tail).value.1;
                 after != "" && after[0] == ',' && ReadFields(true, after[1..]).None?)
    ensures ReadFields(true, Quote(p, key) + (":" + text + tail)).None?
  {
    QuoteReads(true, p, key, ":" + text + tail);
    ColonOf(text, tail);
  }

  lemma LaterFieldStops(p: Printable, v: Tree, keys: seq<string>)
    requires v.Map? && keys != [] && (forall k :: k in keys ==> k in v.fields) && FieldLegal(p, v, keys[0])
    requires exists k :: k in keys && !FieldLegal(p, v, k)
    ensures exists k :: k in keys[1..] && !FieldLegal(p, v, k)
  {
    var k :| k in keys && !FieldLegal(p, v, k);
    assert k in keys[1..];
  }

  /** What is printed is JSON if and only if every text and key is quoted with escapes that JSON has. */
  lemma JsonIffLegal(p: Printable, v: Tree)
    requires Printable_(v)
    ensures Read(true, Print(p, v)) == if Legal(p, v) then Some((v, "")) else None
  {
    assert Print(p, v) + "" == Print(p, v);
    if Legal(p, v) {
      PrintReads(true, p, v, "");
    } else {
      PrintStops(p, v, "");
    }
  }
}
