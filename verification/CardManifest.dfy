/**
 Card definitions and their JSON form.  The proofs use nothing of the field names but that they
 differ, so the list of names is passed along instead of being spelled out everywhere.
 */
module CardManifest {
  import opened Prelude
  import opened Quoting
  import opened CanonicalJson
  import Decimal

  type Bytes = seq<bv8>

  datatype Size = Size(width: real, height: real)

  datatype CardFile = CardFile(path: string, sha: string, size: int)

  datatype NetworkPolicy = NetworkPolicy(mode: string, domains: seq<string>)

  datatype CardDefinition = CardDefinition(
    formatVersion: int,
    minHostVersion: string,
    cardId: string,
    versionId: string,
    displayVersion: string,
    runtime: string,
    stateSchemaVersion: int,
    title: string,
    description: string,
    entrypoint: string,
    catalogVersion: string,
    minSize: Size,
    preferredSize: Size,
    maxSize: Size,
    capabilities: seq<string>,
    network: NetworkPolicy,
    files: seq<CardFile>,
    createdAt: int)

  /** What is left abstract: printing of floats and times, UTF-8, SHA-256 and signatures. */
  datatype Codec = Codec(
    printable: Printable,
    float: real -> bool,
    printReal: real -> string,
    parseReal: string -> Option<real>,
    printTime: int -> string,
    parseTime: string -> Option<int>,
    encode: string -> Bytes,
    decode: Bytes -> Option<string>,
    hash: Bytes -> string,
    publicOf: int -> int,
    sign: (int, string) -> string,
    verify: (int, string, string) -> bool)

  /** Every float has a text of a number, which is read back as that float. */
  ghost predicate Numeric(c: Codec)
  {
    forall x: real :: c.float(x) ==> c.parseReal(c.printReal(x)) == Some(x) && NumberText(c.printReal(x))
  }

  /** What is assumed of them: each is undone by its inverse, and they produce plain text. */
  ghost predicate Ideal(c: Codec)
  {
    && Numeric(c)
    && (forall ch: char :: ' ' <= ch <= '~' ==> c.printable(ch))
    && (forall t: int :: c.parseTime(c.printTime(t)) == Some(t) && AllLegal(c.printable, c.printTime(t)))
    && (forall s: string :: c.decode(c.encode(s)) == Some(s) && |c.encode(s)| >= |s|)
    && (forall b: Bytes :: AllLegal(c.printable, c.hash(b)))
    && (forall k: int, m: string :: c.verify(c.publicOf(k), m, c.sign(k, m)) && AllLegal(c.printable, c.sign(k, m)))
  }

  /** The sizes of a definition are floats. */
  predicate Floats(c: Codec, d: CardDefinition)
  {
    FloatSize(c, d.minSize) && FloatSize(c, d.preferredSize) && FloatSize(c, d.maxSize)
  }

  predicate FloatSize(c: Codec, s: Size)
  {
    c.float(s.width) && c.float(s.height)
  }

  // ----- integers as encoding/json and FormatFloat leave them -----

  const EXPONENT_FROM: nat := 1_000_000

  function TrimZeros(s: string): string
  {
    if |s| > 1 && s[|s| - 1] == '0' then TrimZeros(s[..|s| - 1]) else s
  }

  /** One digit, the others after a point, and the exponent with at least two digits. */
  function ExponentForm(mantissa: string, exponent: string): string
  {
    (if |mantissa| <= 1 then mantissa else mantissa[..1] + "." + mantissa[1..])
    + "e+" + (if |exponent| < 2 then "0" + exponent else exponent)
  }

  /** FormatFloat with format g and the shortest precision switches to an exponent at one million. */
  function FormatInteger(n: nat): string
  {
    Decimal.PrintParses(n);
    var digits := Decimal.Print(n);
    assert Decimal.Canonical(digits);
    if n < EXPONENT_FROM then digits else ExponentForm(TrimZeros(digits), Decimal.Print(|digits| - 1))
  }

  /** Decoding into an integer field takes plain decimal numerals only. */
  function ParseInteger(s: string): Option<int>
  {
    if Decimal.Canonical(s) then
      var n: int := Decimal.Value(s);
      Some(n)
    else if |s| > 1 && s[0] == '-' && Decimal.Canonical(s[1..]) then
      var n: int := Decimal.Value(s[1..]);
      Some(0 - n)
    else None
  }

  lemma SmallIntegerParses(n: nat)
    requires n < EXPONENT_FROM
    ensures ParseInteger(FormatInteger(n)) == Some(n)
  {
    Decimal.PrintParses(n);
  }

  /** From one million on the printed form cannot be decoded into an integer. */
  lemma LargeIntegerFails(n: nat)
    requires n >= EXPONENT_FROM
    ensures ParseInteger(FormatInteger(n)).None?
  {
    var digits := Decimal.Print(n);
    Decimal.PrintParses(n);
    var s, mantissa, exponent := FormatInteger(n), TrimZeros(digits), Decimal.Print(|digits| - 1);
    TrimZerosDigits(digits);
    var front := if |mantissa| <= 1 then mantissa else mantissa[..1] + "." + mantissa[1..];
    assert s[|front|] == 'e';
    assert |front| > 0 && s[0] == mantissa[0];
    assert s[1..][|front| - 1] == 'e';
  }

  lemma {:induction false} TrimZerosDigits(s: string)
    requires s != "" && Decimal.AllDigits(s)
    ensures TrimZeros(s) != "" && Decimal.AllDigits(TrimZeros(s)) && TrimZeros(s)[0] == s[0]
  {
    if |s| > 1 && s[|s| - 1] == '0' {
      TrimZerosDigits(s[..|s| - 1]);
    }
  }

  lemma DigitsAreText(s: string)
    requires s != "" && Decimal.AllDigits(s)
    ensures NumberText(s)
  {
    assert forall i :: 0 <= i < |s| ==> Decimal.IsDigit(s[i]);
  }

  lemma ExponentIsText(mantissa: string, exponent: string)
    requires mantissa != "" && Decimal.AllDigits(mantissa) && Decimal.AllDigits(exponent)
    ensures NumberText(ExponentForm(mantissa, exponent))
  {
    assert forall i :: 0 <= i < |mantissa| ==> Decimal.IsDigit(mantissa[i]);
    assert forall i :: 0 <= i < |exponent| ==> Decimal.IsDigit(exponent[i]);
  }

  lemma IntegerText(n: nat)
    ensures NumberText(FormatInteger(n))
  {
    var digits := Decimal.Print(n);
    Decimal.PrintParses(n);
    DigitsAreText(digits);
    if n >= EXPONENT_FROM {
      TrimZerosDigits(digits);
      Decimal.PrintParses(|digits| - 1);
      ExponentIsText(TrimZeros(digits), Decimal.Print(|digits| - 1));
    }
  }

  // ----- the fields of a manifest -----

  const DEFINED: nat := 18
  const KEY_ID: nat := 18
  const SIGNATURE: nat := 19
  const CATALOG: nat := 10

  const FIELD_NAMES := ["formatVersion", "minHostVersion", "cardId", "versionId", "displayVersion", "runtime",
                        "stateSchemaVersion", "title", "description", "entrypoint", "catalogVersion", "minSize",
                        "preferredSize", "maxSize", "capabilities", "networkPolicy", "files", "createdAt",
                        "keyId", "signature"]

  /** Twenty different plain names. */
  ghost predicate Names(names: seq<string>)
  {
    && |names| == 20 && (forall i, j :: 0 <= i < j < 20 ==> names[i] != names[j])
    && forall i :: 0 <= i < 20 ==> Plain(names[i])
  }

  /** Length and two characters already tell the names apart. */
  function Mark(name: string): (nat, char, char)
    requires |name| > 2
  {
    (|name|, name[0], name[2])
  }

  lemma EarlyNamesPlain()
    ensures forall i :: 0 <= i < 7 ==> Plain(FIELD_NAMES[i])
  {
    assert Plain("formatVersion") && Plain("minHostVersion") && Plain("cardId") && Plain("versionId");
    assert Plain("displayVersion") && Plain("runtime") && Plain("stateSchemaVersion");
  }

  lemma MiddleNamesPlain()
    ensures forall i :: 7 <= i < 13 ==> Plain(FIELD_NAMES[i])
  {
    assert Plain("title") && Plain("description") && Plain("entrypoint") && Plain("catalogVersion");
    assert Plain("minSize") && Plain("preferredSize");
  }

  lemma LateNamesPlain()
    ensures forall i :: 13 <= i < 20 ==> Plain(FIELD_NAMES[i])
  {
    assert Plain("maxSize") && Plain("capabilities") && Plain("networkPolicy") && Plain("files");
    assert Plain("createdAt") && Plain("keyId") && Plain("signature");
  }

  const MARKS := [(13, 'f', 'r'), (14, 'm', 'n'), (6, 'c', 'r'), (9, 'v', 'r'), (14, 'd', 's'), (7, 'r', 'n'),
                  (18, 's', 'a'), (5, 't', 't'), (11, 'd', 's'), (10, 'e', 't'), (14, 'c', 't'), (7, 'm', 'n'),
                  (13, 'p', 'e'), (7, 'm', 'x'), (12, 'c', 'p'), (13, 'n', 't'), (5, 'f', 'l'), (9, 'c', 'e'),
                  (5, 'k', 'y'), (9, 's', 'g')]

  lemma NamesMarked()
    ensures forall i :: 0 <= i < 20 ==> |FIELD_NAMES[i]| > 2 && Mark(FIELD_NAMES[i]) == MARKS[i]
  {
  }

  lemma FieldNamesDistinct()
    ensures forall i, j :: 0 <= i < j < 20 ==> FIELD_NAMES[i] != FIELD_NAMES[j]
  {
    NamesMarked();
    forall i, j | 0 <= i < j < 20 ensures FIELD_NAMES[i] != FIELD_NAMES[j] {
      MarksDiffer(i, j);
    }
  }

  lemma MarksDiffer(i: nat, j: nat)
    requires i < j < 20
    ensures MARKS[i] != MARKS[j]
  {
  }

  lemma FieldNamesDiffer()
    ensures Names(FIELD_NAMES)
  {
    EarlyNamesPlain();
    MiddleNamesPlain();
    LateNamesPlain();
    FieldNamesDistinct();
  }

  type Fields = map<string, Tree>

  // ----- encoding -----

  function Integer(n: int): Tree
  {
    Number(if n >= 0 then FormatInteger(n) else "-" + FormatInteger(-n))
  }

  function SizeTree(c: Codec, s: Size): Tree
  {
    Map(map["width" := Number(c.printReal(s.width)), "height" := Number(c.printReal(s.height))])
  }

  function Texts(s: seq<string>): Tree
  {
    List(seq(|s|, i requires 0 <= i < |s| => Text(s[i])))
  }

  function FileTree(f: CardFile): Tree
  {
    Map(map["path" := Text(f.path), "sha256" := Text(f.sha), "size" := Integer(f.size)])
  }

  function FileTrees(files: seq<CardFile>): Tree
  {
    List(seq(|files|, i requires 0 <= i < |files| => FileTree(files[i])))
  }

  function NetworkTree(n: NetworkPolicy): Tree
  {
    Map(map["mode" := Text(n.mode), "domains" := Texts(n.domains)])
  }

  function FieldOf(c: Codec, d: CardDefinition, i: nat): Tree
  {
    match i
    case 0 => Integer(d.formatVersion)
    case 1 => Text(d.minHostVersion)
    case 2 => Text(d.cardId)
    case 3 => Text(d.versionId)
    case 4 => Text(d.displayVersion)
    case 5 => Text(d.runtime)
    case 6 => Integer(d.stateSchemaVersion)
    case 7 => Text(d.title)
    case 8 => Text(d.description)
    case 9 => Text(d.entrypoint)
    case 10 => Text(d.catalogVersion)
    case 11 => SizeTree(c, d.minSize)
    case 12 => SizeTree(c, d.preferredSize)
    case 13 => SizeTree(c, d.maxSize)
    case 14 => Texts(d.capabilities)
    case 15 => NetworkTree(d.network)
    case 16 => FileTrees(d.files)
    case _ => Text(c.printTime(d.createdAt))
  }

  /** catalogVersion is left out when empty. */
  predicate Present(d: CardDefinition, i: nat)
  {
    i < DEFINED && (i == CATALOG ==> d.catalogVersion != "")
  }

  function IndexOf(names: seq<string>, name: string): (i: nat)
    requires name in names
    ensures i < |names| && names[i] == name
  {
    if names[0] == name then 0 else 1 + IndexOf(names[1..], name)
  }

  lemma {:induction false} IndexIs(names: seq<string>, i: nat)
    requires i < |names| && forall a, b :: 0 <= a < b < |names| ==> names[a] != names[b]
    ensures IndexOf(names, names[i]) == i
  {
    if i > 0 {
      assert names[0] != names[i] && names[1..][i - 1] == names[i];
      IndexIs(names[1..], i - 1);
    }
  }

  function Encode(c: Codec, names: seq<string>, d: CardDefinition): Fields
    requires |names| == 20
  {
    map name | name in names && Present(d, IndexOf(names, name)) :: FieldOf(c, d, IndexOf(names, name))
  }

  // ----- decoding -----

  function ReadInt(t: Option<Tree>): Option<int>
  {
    match t
    case None => Some(0)
    case Some(Null) => Some(0)
    case Some(Number(s)) => ParseInteger(s)
    case _ => None
  }

  function ReadString(t: Option<Tree>): Option<string>
  {
    match t
    case None => Some("")
    case Some(Null) => Some("")
    case Some(Text(s)) => Some(s)
    case _ => None
  }

  function ReadReal(c: Codec, t: Option<Tree>): Option<real>
  {
    match t
    case None => Some(0.0)
    case Some(Null) => Some(0.0)
    case Some(Number(s)) => c.parseReal(s)
    case _ => None
  }

  function Get(fields: Fields, name: string): Option<Tree>
  {
    if name in fields then Some(fields[name]) else None
  }

  function ReadSize(c: Codec, t: Option<Tree>): Option<Size>
  {
    match t
    case None => Some(Size(0.0, 0.0))
    case Some(Null) => Some(Size(0.0, 0.0))
    case Some(Map(fields)) =>
      var width, height := ReadReal(c, Get(fields, "width")), ReadReal(c, Get(fields, "height"));
      if !(fields.Keys <= {"width", "height"}) || width.None? || height.None? then None
      else Some(Size(width.value, height.value))
    case _ => None
  }

  function ReadStrings(t: Option<Tree>): Option<seq<string>>
  {
    match t
    case None => Some([])
    case Some(Null) => Some([])
    case Some(List(items)) =>
      if exists i :: 0 <= i < |items| && ReadString(Some(items[i])).None? then None
      else Some(seq(|items|, i requires 0 <= i < |items| => ReadString(Some(items[i])).value))
    case _ => None
  }

  function ReadFile(t: Tree): Option<CardFile>
  {
    match t
    case Null => Some(CardFile("", "", 0))
    case Map(fields) =>
      var path, sha, size := ReadString(Get(fields, "path")), ReadString(Get(fields, "sha256")),
        ReadInt(Get(fields, "size"));
      if !(fields.Keys <= {"path", "sha256", "size"}) || path.None? || sha.None? || size.None? then None
      else Some(CardFile(path.value, sha.value, size.value))
    case _ => None
  }

  function ReadFiles(t: Option<Tree>): Option<seq<CardFile>>
  {
    match t
    case None => Some([])
    case Some(Null) => Some([])
    case Some(List(items)) =>
      if exists i :: 0 <= i < |items| && ReadFile(items[i]).None? then None
      else Some(seq(|items|, i requires 0 <= i < |items| => ReadFile(items[i]).value))
    case _ => None
  }

  function ReadNetwork(t: Option<Tree>): Option<NetworkPolicy>
  {
    match t
    case None => Some(NetworkPolicy("", []))
    case Some(Null) => Some(NetworkPolicy("", []))
    case Some(Map(fields)) =>
      var mode, domains := ReadString(Get(fields, "mode")), ReadStrings(Get(fields, "domains"));
      if !(fields.Keys <= {"mode", "domains"}) || mode.None? || domains.None? then None
      else Some(NetworkPolicy(mode.value, domains.value))
    case _ => None
  }

  function ReadTime(c: Codec, t: Option<Tree>): Option<int>
  {
    match t
    case None => Some(0)
    case Some(Null) => Some(0)
    case Some(Text(s)) => c.parseTime(s)
    case _ => None
  }

  /** Decoding with unknown fields disallowed. */
  function Decode(c: Codec, names: seq<string>, m: Fields): Option<CardDefinition>
    requires |names| == 20
  {
    var format, state := ReadInt(Get(m, names[0])), ReadInt(Get(m, names[6]));
    var minHost, card, version := ReadString(Get(m, names[1])), ReadString(Get(m, names[2])),
      ReadString(Get(m, names[3]));
    var display, runtime, title := ReadString(Get(m, names[4])), ReadString(Get(m, names[5])),
      ReadString(Get(m, names[7]));
    var description, entrypoint, catalog :=
      ReadString(Get(m, names[8])), ReadString(Get(m, names[9])), ReadString(Get(m, names[10]));
    var minSize, preferred, maxSize :=
      ReadSize(c, Get(m, names[11])), ReadSize(c, Get(m, names[12])), ReadSize(c, Get(m, names[13]));
    var capabilities, network := ReadStrings(Get(m, names[14])), ReadNetwork(Get(m, names[15]));
    var files, created := ReadFiles(Get(m, names[16])), ReadTime(c, Get(m, names[17]));
    if !(forall k :: k in m ==> k in names[..DEFINED])
       || format.None? || state.None? || minHost.None? || card.None? || version.None? || display.None? || runtime.None?
       || title.None? || description.None? || entrypoint.None? || catalog.None? || minSize.None? || preferred.None?
       || maxSize.None? || capabilities.None? || network.None? || files.None? || created.None? then None
    else
      Some(CardDefinition(
        format.value, minHost.value, card.value, version.value, display.value, runtime.value, state.value, title.value,
        description.value, entrypoint.value, catalog.value, minSize.value, preferred.value, maxSize.value,
        capabilities.value, network.value, files.value, created.value))
  }

  // ----- decoding undoes encoding -----

  /** Integer fields that print without an exponent. */
  predicate SmallIntegers(d: CardDefinition)
  {
    && 0 <= d.formatVersion < EXPONENT_FROM && 0 <= d.stateSchemaVersion < EXPONENT_FROM
    && forall i :: 0 <= i < |d.files| ==> 0 <= d.files[i].size < EXPONENT_FROM
  }

  lemma FieldAt(c: Codec, names: seq<string>, d: CardDefinition, i: nat)
    requires Names(names) && i < DEFINED
    ensures Get(Encode(c, names, d), names[i]) == if Present(d, i) then Some(FieldOf(c, d, i)) else None
  {
    IndexIs(names, i);
  }

  lemma SizeReads(c: Codec, s: Size)
    requires Numeric(c) && FloatSize(c, s)
    ensures ReadSize(c, Some(SizeTree(c, s))) == Some(s)
  {
  }

  lemma TextsRead(s: seq<string>)
    ensures ReadStrings(Some(Texts(s))) == Some(s)
  {
    var items := Texts(s).items;
    assert forall i :: 0 <= i < |items| ==> ReadString(Some(items[i])) == Some(s[i]);
    assert ReadStrings(Some(Texts(s))).value == s;
  }

  lemma NetworkReads(n: NetworkPolicy)
    ensures ReadNetwork(Some(NetworkTree(n))) == Some(n)
  {
    TextsRead(n.domains);
  }

  lemma FileReads(f: CardFile)
    requires 0 <= f.size < EXPONENT_FROM
    ensures ReadFile(FileTree(f)) == Some(f)
  {
    SmallIntegerParses(f.size);
  }

  lemma FilesRead(files: seq<CardFile>)
    requires forall i :: 0 <= i < |files| ==> 0 <= files[i].size < EXPONENT_FROM
    ensures ReadFiles(Some(FileTrees(files))) == Some(files)
  {
    forall i | 0 <= i < |files| ensures ReadFile(FileTree(files[i])) == Some(files[i]) {
      FileReads(files[i]);
    }
    var items := FileTrees(files).items;
    assert forall i :: 0 <= i < |items| ==> items[i] == FileTree(files[i]);
    assert ReadFiles(Some(FileTrees(files))).value == files;
  }

  /** A file of a million bytes or more makes the list unreadable. */
  lemma LargeFileFails(files: seq<CardFile>, i: nat)
    requires i < |files| && files[i].size >= EXPONENT_FROM
    ensures ReadFiles(Some(FileTrees(files))).None?
  {
    LargeIntegerFails(files[i].size);
    var items := FileTrees(files).items;
    assert ReadFile(items[i]).None?;
  }

  lemma EncodedKeys(c: Codec, names: seq<string>, d: CardDefinition)
    requires Names(names)
    ensures forall k :: k in Encode(c, names, d) ==> k in names[..DEFINED]
  {
    forall k | k in Encode(c, names, d) ensures k in names[..DEFINED] {
      var i := IndexOf(names, k);
      assert names[..DEFINED][i] == k;
    }
  }

  /** One text field; an empty catalog version is left out and read as empty. */
  lemma TextFieldReads(c: Codec, names: seq<string>, d: CardDefinition, i: nat, text: string)
    requires Names(names) && i < DEFINED && FieldOf(c, d, i) == Text(text)
             && (i == CATALOG ==> text == d.catalogVersion)
    ensures ReadString(Get(Encode(c, names, d), names[i])) == Some(text)
  {
    FieldAt(c, names, d, i);
  }

  lemma TextFieldsRead(c: Codec, names: seq<string>, d: CardDefinition)
    requires Names(names)
    ensures var m := Encode(c, names, d);
            && ReadString(Get(m, names[1])) == Some(d.minHostVersion) && ReadString(Get(m, names[2])) == Some(d.cardId)
            && ReadString(Get(m, names[3])) == Some(d.versionId)
            && ReadString(Get(m, names[4])) == Some(d.displayVersion)
            && ReadString(Get(m, names[5])) == Some(d.runtime)
  {
    TextFieldReads(c, names, d, 1, d.minHostVersion);
    TextFieldReads(c, names, d, 2, d.cardId);
    TextFieldReads(c, names, d, 3, d.versionId);
    TextFieldReads(c, names, d, 4, d.displayVersion);
    TextFieldReads(c, names, d, 5, d.runtime);
  }

  lemma MoreTextFieldsRead(c: Codec, names: seq<string>, d: CardDefinition)
    requires Names(names)
    ensures var m := Encode(c, names, d);
            && ReadString(Get(m, names[7])) == Some(d.title) && ReadString(Get(m, names[8])) == Some(d.description)
            && ReadString(Get(m, names[9])) == Some(d.entrypoint)
            && ReadString(Get(m, names[10])) == Some(d.catalogVersion)
  {
    TextFieldReads(c, names, d, 7, d.title);
    TextFieldReads(c, names, d, 8, d.description);
    TextFieldReads(c, names, d, 9, d.entrypoint);
    TextFieldReads(c, names, d, 10, d.catalogVersion);
  }

  lemma SizeFieldReads(c: Codec, names: seq<string>, d: CardDefinition, i: nat, size: Size)
    requires Names(names) && Numeric(c) && i < DEFINED && i != CATALOG
    requires FieldOf(c, d, i) == SizeTree(c, size) && FloatSize(c, size)
    ensures ReadSize(c, Get(Encode(c, names, d), names[i])) == Some(size)
  {
    FieldAt(c, names, d, i);
    SizeReads(c, size);
  }

  lemma SizeFieldsRead(c: Codec, names: seq<string>, d: CardDefinition)
    requires Names(names) && Numeric(c) && Floats(c, d)
    ensures var m := Encode(c, names, d);
            && ReadSize(c, Get(m, names[11])) == Some(d.minSize)
            && ReadSize(c, Get(m, names[12])) == Some(d.preferredSize)
            && ReadSize(c, Get(m, names[13])) == Some(d.maxSize)
  {
    SizeFieldReads(c, names, d, 11, d.minSize);
    SizeFieldReads(c, names, d, 12, d.preferredSize);
    SizeFieldReads(c, names, d, 13, d.maxSize);
  }

  lemma CapabilitiesRead(c: Codec, names: seq<string>, d: CardDefinition)
    requires Names(names)
    ensures ReadStrings(Get(Encode(c, names, d), names[14])) == Some(d.capabilities)
  {
    FieldAt(c, names, d, 14);
    TextsRead(d.capabilities);
  }

  lemma NetworkFieldReads(c: Codec, names: seq<string>, d: CardDefinition)
    requires Names(names)
    ensures ReadNetwork(Get(Encode(c, names, d), names[15])) == Some(d.network)
  {
    FieldAt(c, names, d, 15);
    NetworkReads(d.network);
  }

  lemma TimeReads(c: Codec, names: seq<string>, d: CardDefinition)
    requires Names(names) && Ideal(c)
    ensures ReadTime(c, Get(Encode(c, names, d), names[17])) == Some(d.createdAt)
  {
    FieldAt(c, names, d, 17);
  }

  lemma FilesFieldReads(c: Codec, names: seq<string>, d: CardDefinition)
    requires Names(names) && SmallIntegers(d)
    ensures ReadFiles(Get(Encode(c, names, d), names[16])) == Some(d.files)
  {
    FieldAt(c, names, d, 16);
    FilesRead(d.files);
  }

  lemma IntegerFieldsRead(c: Codec, names: seq<string>, d: CardDefinition)
    requires Names(names) && SmallIntegers(d)
    ensures var m := Encode(c, names, d);
            && ReadInt(Get(m, names[0])) == Some(d.formatVersion)
            && ReadInt(Get(m, names[6])) == Some(d.stateSchemaVersion)
  {
    FieldAt(c, names, d, 0);
    FieldAt(c, names, d, 6);
    SmallIntegerParses(d.formatVersion);
    SmallIntegerParses(d.stateSchemaVersion);
  }

  lemma DecodesEncoded(c: Codec, names: seq<string>, d: CardDefinition)
    requires Names(names) && Ideal(c) && Floats(c, d) && SmallIntegers(d)
    ensures Decode(c, names, Encode(c, names, d)) == Some(d)
  {
    EncodedKeys(c, names, d);
    TextFieldsRead(c, names, d);
    SizeFieldsRead(c, names, d);
    MoreTextFieldsRead(c, names, d);
    CapabilitiesRead(c, names, d);
    NetworkFieldReads(c, names, d);
    TimeReads(c, names, d);
    FilesFieldReads(c, names, d);
    IntegerFieldsRead(c, names, d);
  }

  // ----- manifests are always printed, and read as JSON exactly if their texts allow it -----

  lemma IntegerPrints(n: int)
    ensures Printable_(Integer(n))
  {
    IntegerText(if n >= 0 then n else -n);
  }

  lemma FieldPrints(c: Codec, d: CardDefinition, i: nat)
    requires Numeric(c) && Floats(c, d)
    ensures Printable_(FieldOf(c, d, i))
  {
    match i
    case 0 => IntegerPrints(d.formatVersion);
    case 6 => IntegerPrints(d.stateSchemaVersion);
    case 16 =>
      forall k | 0 <= k < |d.files| ensures Printable_(FileTree(d.files[k])) {
        IntegerPrints(d.files[k].size);
      }
    case _ =>
  }

  /** No definition makes the canonical printer fail. */
  lemma DefinitionPrints(c: Codec, names: seq<string>, d: CardDefinition)
    requires |names| == 20 && Numeric(c) && Floats(c, d)
    ensures Printable_(Map(Encode(c, names, d)))
  {
    var m := Encode(c, names, d);
    forall k | k in m ensures Printable_(m[k]) {
      FieldPrints(c, d, IndexOf(names, k));
    }
  }

  predicate AllTextsLegal(p: Printable, texts: seq<string>)
  {
    forall i :: 0 <= i < |texts| ==> AllLegal(p, texts[i])
  }

  /** The texts of one field. */
  predicate FieldTextsLegal(p: Printable, d: CardDefinition, i: nat)
  {
    match i
    case 1 => AllLegal(p, d.minHostVersion)
    case 2 => AllLegal(p, d.cardId)
    case 3 => AllLegal(p, d.versionId)
    case 4 => AllLegal(p, d.displayVersion)
    case 5 => AllLegal(p, d.runtime)
    case 7 => AllLegal(p, d.title)
    case 8 => AllLegal(p, d.description)
    case 9 => AllLegal(p, d.entrypoint)
    case 10 => AllLegal(p, d.catalogVersion)
    case 14 => AllTextsLegal(p, d.capabilities)
    case 15 => AllLegal(p, d.network.mode) && AllTextsLegal(p, d.network.domains)
    case 16 => forall k :: 0 <= k < |d.files| ==> AllLegal(p, d.files[k].path) && AllLegal(p, d.files[k].sha)
    case _ => true
  }

  /** Every text of the definition is quoted with escapes that JSON has. */
  predicate DefinitionLegal(p: Printable, d: CardDefinition)
  {
    forall i :: 0 <= i < DEFINED ==> FieldTextsLegal(p, d, i)
  }

  lemma PlainKeys()
    ensures Plain("width") && Plain("height") && Plain("path") && Plain("sha256") && Plain("size")
    ensures Plain("mode") && Plain("domains")
  {
  }

  lemma KeysLegal(c: Codec)
    requires Ideal(c)
    ensures AllTextsLegal(c.printable, ["width", "height", "path", "sha256", "size", "mode", "domains"])
  {
    PlainKeys();
    var keys := ["width", "height", "path", "sha256", "size", "mode", "domains"];
    forall i | 0 <= i < |keys| ensures AllLegal(c.printable, keys[i]) {
      PlainIsLegal(c.printable, keys[i]);
    }
  }

  lemma TextsLegal(p: Printable, s: seq<string>)
    ensures Legal(p, Texts(s)) <==> AllTextsLegal(p, s)
  {
    var items := Texts(s).items;
    assert forall i :: 0 <= i < |items| ==> items[i] == Text(s[i]);
  }

  lemma SizeLegal(c: Codec, s: Size)
    requires Ideal(c)
    ensures Legal(c.printable, SizeTree(c, s))
  {
    KeysLegal(c);
    var keys := ["width", "height", "path", "sha256", "size", "mode", "domains"];
    assert AllLegal(c.printable, keys[0]) && AllLegal(c.printable, keys[1]);
  }

  lemma NetworkLegal(c: Codec, n: NetworkPolicy)
    requires Ideal(c)
    ensures Legal(c.printable, NetworkTree(n)) <==>
            AllLegal(c.printable, n.mode) && AllTextsLegal(c.printable, n.domains)
  {
    KeysLegal(c);
    var keys := ["width", "height", "path", "sha256", "size", "mode", "domains"];
    assert AllLegal(c.printable, keys[5]) && AllLegal(c.printable, keys[6]);
    TextsLegal(c.printable, n.domains);
    var fields := NetworkTree(n).fields;
    assert fields["mode"] == Text(n.mode) && fields["domains"] == Texts(n.domains);
  }

  lemma FileLegal(c: Codec, f: CardFile)
    requires Ideal(c)
    ensures Legal(c.printable, FileTree(f)) <==> AllLegal(c.printable, f.path) && AllLegal(c.printable, f.sha)
  {
    KeysLegal(c);
    var keys := ["width", "height", "path", "sha256", "size", "mode", "domains"];
    assert AllLegal(c.printable, keys[2]) && AllLegal(c.printable, keys[3]) && AllLegal(c.printable, keys[4]);
    var fields := FileTree(f).fields;
    assert fields["path"] == Text(f.path) && fields["sha256"] == Text(f.sha);
  }

  lemma FilesLegal(c: Codec, files: seq<CardFile>)
    requires Ideal(c)
    ensures Legal(c.printable, FileTrees(files)) <==>
              forall k :: 0 <= k < |files| ==>
                AllLegal(c.printable, files[k].path) && AllLegal(c.printable, files[k].sha)
  {
    var items := FileTrees(files).items;
    forall k | 0 <= k < |files|
      ensures Legal(c.printable, items[k]) <==>
              AllLegal(c.printable, files[k].path) && AllLegal(c.printable, files[k].sha)
    {
      FileLegal(c, files[k]);
    }
  }

  lemma FieldLegalIff(c: Codec, d: CardDefinition, i: nat)
    requires Ideal(c) && i < DEFINED
    ensures Legal(c.printable, FieldOf(c, d, i)) <==> FieldTextsLegal(c.printable, d, i)
  {
    match i
    case 11 => SizeLegal(c, d.minSize);
    case 12 => SizeLegal(c, d.preferredSize);
    case 13 => SizeLegal(c, d.maxSize);
    case 14 => TextsLegal(c.printable, d.capabilities);
    case 15 => NetworkLegal(c, d.network);
    case 16 => FilesLegal(c, d.files);
    case _ =>
  }

  /** The encoded definition is legal exactly if its texts are. */
  lemma EncodedLegal(c: Codec, names: seq<string>, d: CardDefinition)
    requires Names(names) && Ideal(c)
    ensures Legal(c.printable, Map(Encode(c, names, d))) <==> DefinitionLegal(c.printable, d)
  {
    var m := Encode(c, names, d);
    forall k | k in m
      ensures IndexOf(names, k) < DEFINED && AllLegal(c.printable, k)
      ensures Legal(c.printable, m[k]) <==> FieldTextsLegal(c.printable, d, IndexOf(names, k))
    {
      var i := IndexOf(names, k);
      assert Plain(names[i]);
      PlainIsLegal(c.printable, k);
      FieldLegalIff(c, d, i);
    }
    forall i | 0 <= i < DEFINED
      ensures if Present(d, i) then names[i] in m && IndexOf(names, names[i]) == i
              else FieldTextsLegal(c.printable, d, i)
    {
      FieldAt(c, names, d, i);
      IndexIs(names, i);
    }
  }

  // ----- there is such a codec -----

  /** A rune as its number in ones: so many bytes 2, and a byte 1 to end them. */
  function EncodeRune(n: nat): Bytes
  {
    if n == 0 then [1] else [2] + EncodeRune(n - 1)
  }

  function EncodeText(s: string): Bytes
  {
    if s == "" then [] else EncodeRune(s[0] as nat) + EncodeText(s[1..])
  }

  function DecodeRunes(b: Bytes, n: nat): Option<string>
  {
    if b == [] then if n == 0 then Some("") else None
    else if b[0] == 2 then DecodeRunes(b[1..], n + 1)
    else if b[0] == 1 && IsRune(n) then
      var more := DecodeRunes(b[1..], 0);
      if more.None? then None else Some([n as char] + more.value)
    else None
  }

  lemma {:induction false} RuneDecodes(left: nat, n: nat, rest: Bytes)
    requires IsRune(n + left)
    ensures DecodeRunes(EncodeRune(left) + rest, n) ==
            var more := DecodeRunes(rest, 0);
            if more.None? then None else Some([(n + left) as char] + more.value)
    decreases left
  {
    var b := EncodeRune(left) + rest;
    if left == 0 {
      assert b[1..] == rest;
    } else {
      assert b[1..] == EncodeRune(left - 1) + rest;
      RuneDecodes(left - 1, n + 1, rest);
    }
  }

  lemma {:induction false} TextDecodes(s: string)
    ensures DecodeRunes(EncodeText(s), 0) == Some(s) && |EncodeText(s)| >= |s|
  {
    if s != "" {
      TextDecodes(s[1..]);
      RuneDecodes(s[0] as nat, 0, EncodeText(s[1..]));
      assert [s[0]] + s[1..] == s;
    }
  }

  const WHOLE_NUMBERS := Codec(
    c => ' ' <= c <= '~',
    x => x >= 0.0 && x.Floor as real == x,
    x => if x >= 0.0 then Decimal.Print(x.Floor) else "0",
    s => if Decimal.Canonical(s) then Some(Decimal.Value(s) as real) else None,
    t => if t >= 0 then Decimal.Print(t) else "-" + Decimal.Print(-t),
    s => if Decimal.Canonical(s) then Some(Decimal.Value(s) as int)
         else if |s| > 1 && s[0] == '-' && Decimal.Canonical(s[1..]) then Some(-(Decimal.Value(s[1..]) as int))
         else None,
    s => EncodeText(s),
    b => DecodeRunes(b, 0),
    b => "",
    k => k,
    (k, m) => "",
    (k, m, s) => true)

  lemma DigitsPlain(s: string)
    requires Decimal.AllDigits(s)
    ensures Plain(s) && Plain("-" + s)
  {
    assert forall i :: 0 <= i < |s| ==> Decimal.IsDigit(s[i]);
  }

  lemma TimesRead(t: int)
    ensures WHOLE_NUMBERS.parseTime(WHOLE_NUMBERS.printTime(t)) == Some(t) && Plain(WHOLE_NUMBERS.printTime(t))
  {
    var digits := Decimal.Print(if t >= 0 then t else -t);
    Decimal.PrintParses(if t >= 0 then t else -t);
    DigitsPlain(digits);
    assert ("-" + digits)[1..] == digits;
  }

  lemma FloatsRead(x: real)
    requires WHOLE_NUMBERS.float(x)
    ensures WHOLE_NUMBERS.parseReal(WHOLE_NUMBERS.printReal(x)) == Some(x) && NumberText(WHOLE_NUMBERS.printReal(x))
  {
    Decimal.PrintParses(x.Floor);
    var digits := Decimal.Print(x.Floor);
    assert forall i :: 0 <= i < |digits| ==> Decimal.IsDigit(digits[i]);
  }

  lemma WholeNumbersNumeric()
    ensures Numeric(WHOLE_NUMBERS)
  {
    forall x: real | WHOLE_NUMBERS.float(x)
      ensures WHOLE_NUMBERS.parseReal(WHOLE_NUMBERS.printReal(x)) == Some(x) && NumberText(WHOLE_NUMBERS.printReal(x))
    {
      FloatsRead(x);
    }
  }

  lemma WholeNumbersTimes()
    ensures forall t: int :: WHOLE_NUMBERS.parseTime(WHOLE_NUMBERS.printTime(t)) == Some(t)
                             && AllLegal(WHOLE_NUMBERS.printable, WHOLE_NUMBERS.printTime(t))
  {
    forall t: int
      ensures WHOLE_NUMBERS.parseTime(WHOLE_NUMBERS.printTime(t)) == Some(t)
              && AllLegal(WHOLE_NUMBERS.printable, WHOLE_NUMBERS.printTime(t))
    {
      TimesRead(t);
      PlainIsLegal(WHOLE_NUMBERS.printable, WHOLE_NUMBERS.printTime(t));
    }
  }

  lemma WholeNumbersTexts()
    ensures forall s: string :: WHOLE_NUMBERS.decode(WHOLE_NUMBERS.encode(s)) == Some(s)
                               && |WHOLE_NUMBERS.encode(s)| >= |s|
  {
    forall s: string
      ensures WHOLE_NUMBERS.decode(WHOLE_NUMBERS.encode(s)) == Some(s) && |WHOLE_NUMBERS.encode(s)| >= |s|
    {
      TextDecodes(s);
    }
  }

  lemma WholeNumbersRest()
    ensures forall ch: char :: ' ' <= ch <= '~' ==> WHOLE_NUMBERS.printable(ch)
    ensures forall b: Bytes :: AllLegal(WHOLE_NUMBERS.printable, WHOLE_NUMBERS.hash(b))
    ensures forall k: int, m: string ::
              WHOLE_NUMBERS.verify(WHOLE_NUMBERS.publicOf(k), m, WHOLE_NUMBERS.sign(k, m))
              && AllLegal(WHOLE_NUMBERS.printable, WHOLE_NUMBERS.sign(k, m))
  {
  }

  /** What is assumed of a codec can be met. */
  lemma SomeCodecIsIdeal()
    ensures Ideal(WHOLE_NUMBERS)
  {
    WholeNumbersNumeric();
    WholeNumbersTimes();
    WholeNumbersTexts();
    WholeNumbersRest();
  }
}
