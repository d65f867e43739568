/** Display versions: three unsigned 64-bit numbers, and the next one after those published. */
module DisplayVersion {
  import opened Prelude
  import opened Text
  import Decimal

  const MAX_UINT64: nat := 0xFFFF_FFFF_FFFF_FFFF

  type Triple = t: seq<nat> | |t| == 3 witness [0, 0, 0]

  datatype VersionError = NotFound | InvalidDisplayVersion

  /** One part as parseDisplayVersion accepts it: strconv.ParseUint on a numeral without leading zeros. */
  predicate PartOk(part: string)
  {
    Decimal.Canonical(part) && Decimal.Value(part) <= MAX_UINT64
  }

  predicate Parses(display: string)
  {
    var parts := Split(display, '.');
    |parts| == 3 && forall i :: 0 <= i < 3 ==> PartOk(parts[i])
  }

  function Parsed(display: string): Triple
    requires Parses(display)
  {
    var parts := Split(display, '.');
    [Decimal.Value(parts[0]), Decimal.Value(parts[1]), Decimal.Value(parts[2])]
  }

  predicate InRange(t: Triple)
  {
    t[0] <= MAX_UINT64 && t[1] <= MAX_UINT64 && t[2] <= MAX_UINT64
  }

  function Print(t: Triple): string
  {
    Join([Decimal.Print(t[0]), Decimal.Print(t[1]), Decimal.Print(t[2])], '.')
  }

  predicate Below(left: Triple, right: Triple)
  {
    left[0] < right[0] || (left[0] == right[0] && (left[1] < right[1] || (left[1] == right[1] && left[2] < right[2])))
  }

  method ParseDisplayVersion(value: string) returns (r: Result<Triple, VersionError>)
    ensures r == if Parses(value) then Ok(Parsed(value)) else Err(InvalidDisplayVersion)
  {
    var parts := Split(value, '.');
    if |parts| != 3 {
      return Err(InvalidDisplayVersion);
    }
    var parsed: seq<nat> := [0, 0, 0];
    for i := 0 to 3
      invariant |parsed| == 3
      invariant forall k :: 0 <= k < i ==> PartOk(parts[k]) && parsed[k] == Decimal.Value(parts[k])
    {
      var part := parts[i];
      if !Decimal.Canonical(part) || Decimal.Value(part) > MAX_UINT64 {
        assert !PartOk(parts[i]);
        return Err(InvalidDisplayVersion);
      }
      parsed := parsed[i := Decimal.Value(part)];
    }
    assert parsed == Parsed(value);
    return Ok(parsed);
  }

  method CompareDisplayVersion(left: Triple, right: Triple) returns (r: int)
    ensures r == if Below(left, right) then -1 else if Below(right, left) then 1 else 0
    ensures r == 0 <==> left == right
  {
    for i := 0 to 3
      invariant forall k :: 0 <= k < i ==> left[k] == right[k]
    {
      if left[i] < right[i] {
        return -1;
      }
      if left[i] > right[i] {
        return 1;
      }
    }
    assert left == right;
    return 0;
  }

  lemma PrintParses(t: Triple)
    requires InRange(t)
    ensures Parses(Print(t)) && Parsed(Print(t)) == t
  {
    var parts := [Decimal.Print(t[0]), Decimal.Print(t[1]), Decimal.Print(t[2])];
    forall i | 0 <= i < 3
      ensures Decimal.Canonical(parts[i]) && Free(parts[i], '.') && Decimal.Value(parts[i]) == t[i]
    {
      Decimal.PrintParses(t[i]);
    }
    SplitJoin(parts, '.');
  }

  /** Parsing and printing undo each other in both directions, up to the 64-bit bound. */
  lemma ParsePrints(display: string)
    requires Parses(display)
    ensures InRange(Parsed(display)) && Print(Parsed(display)) == display
  {
    var parts := Split(display, '.');
    forall i | 0 <= i < 3 ensures Decimal.Print(Decimal.Value(parts[i])) == parts[i] {
      assert PartOk(parts[i]);
      Decimal.ParsePrints(parts[i]);
    }
    assert parts == [parts[0], parts[1], parts[2]];
    JoinSplit(display, '.');
  }

  // ----- NextDisplayVersion -----

  ghost predicate IsHighest(displays: set<string>, t: Triple)
  {
    && (exists d :: d in displays && Parses(d) && Parsed(d) == t)
    && (forall d :: d in displays && Parses(d) ==> !Below(t, Parsed(d)))
  }

  function After(top: Triple): Result<string, VersionError>
  {
    if top[2] == MAX_UINT64 then Err(InvalidDisplayVersion) else Ok(Print([top[0], top[1], top[2] + 1]))
  }

  /** What NextDisplayVersion answers for a card whose versions carry these display versions. */
  ghost predicate IsNext(displays: set<string>, r: Result<string, VersionError>)
  {
    if displays == {} then r == Err(NotFound)
    else if exists d :: d in displays && !Parses(d) then r == Err(InvalidDisplayVersion)
    else exists top: Triple :: IsHighest(displays, top) && r == After(top)
  }

  method NextDisplayVersion(versions: seq<string>) returns (r: Result<string, VersionError>)
    ensures IsNext(set i | 0 <= i < |versions| :: versions[i], r)
  {
    ghost var displays := set i | 0 <= i < |versions| :: versions[i];
    if |versions| == 0 {
      assert displays == {};
      return Err(NotFound);
    }
    assert versions[0] in displays;
    var highest: Triple := [0, 0, 0];
    for i := 0 to |versions|
      invariant forall k :: 0 <= k < i ==> Parses(versions[k]) && !Below(highest, Parsed(versions[k]))
      invariant i > 0 ==> exists k :: 0 <= k < i && Parses(versions[k]) && Parsed(versions[k]) == highest
    {
      var parsed := ParseDisplayVersion(versions[i]);
      if parsed.Err? {
        assert versions[i] in displays && !Parses(versions[i]);
        return Err(parsed.error);
      }
      var order := CompareDisplayVersion(parsed.value, highest);
      if i == 0 || order > 0 {
        highest := parsed.value;
      }
    }
    var k :| 0 <= k < |versions| && Parses(versions[k]) && Parsed(versions[k]) == highest;
    assert versions[k] in displays;
    assert IsHighest(displays, highest);
    if highest[2] == MAX_UINT64 {
      return Err(InvalidDisplayVersion);
    }
    return Ok(Print([highest[0], highest[1], highest[2] + 1]));
  }

  lemma HighestIsUnique(displays: set<string>, s: Triple, t: Triple)
    requires IsHighest(displays, s) && IsHighest(displays, t)
    ensures s == t
  {
    assert !Below(s, t) && !Below(t, s);
    assert s == [s[0], s[1], s[2]] && t == [t[0], t[1], t[2]];
  }

  /** The answer does not depend on the order the versions are listed in. */
  lemma NextIsUnique(displays: set<string>, a: Result<string, VersionError>, b: Result<string, VersionError>)
    requires IsNext(displays, a) && IsNext(displays, b)
    ensures a == b
  {
    if displays != {} && !(exists d :: d in displays && !Parses(d)) {
      var s: Triple :| IsHighest(displays, s) && a == After(s);
      var t: Triple :| IsHighest(displays, t) && b == After(t);
      HighestIsUnique(displays, s, t);
    }
  }

  /** The next version parses, and is strictly above every version listed. */
  lemma NextIsAbove(displays: set<string>, next: string)
    requires IsNext(displays, Ok(next))
    ensures Parses(next) && next !in displays
    ensures forall d :: d in displays ==> Parses(d) && Below(Parsed(d), Parsed(next))
  {
    var top: Triple :| IsHighest(displays, top) && Ok(next) == After(top);
    var d :| d in displays && Parses(d) && Parsed(d) == top;
    ParsePrints(d);
    PrintParses([top[0], top[1], top[2] + 1]);
  }

  /** The next version follows at once on a listed one: no number lies between. */
  lemma NextFollowsAtOnce(displays: set<string>, next: string)
    requires IsNext(displays, Ok(next))
    ensures Parses(next)
    ensures exists d :: d in displays && Parses(d) && Below(Parsed(d), Parsed(next))
                        && forall t: Triple :: Below(Parsed(d), t) ==> !Below(t, Parsed(next))
  {
    var top: Triple :| IsHighest(displays, top) && Ok(next) == After(top);
    var d :| d in displays && Parses(d) && Parsed(d) == top;
    NextIsAbove(displays, next);
    ParsePrints(d);
    PrintParses([top[0], top[1], top[2] + 1]);
  }

  /** With parsable versions listed, only the 64-bit bound on the last number can stop it. */
  lemma NextFailsOnlyAtTheBound(displays: set<string>, r: Result<string, VersionError>)
    requires IsNext(displays, r) && displays != {} && forall d :: d in displays ==> Parses(d)
    ensures r.Err? <==> exists d :: d in displays && Parsed(d)[2] == MAX_UINT64
                                    && forall e :: e in displays ==> !Below(Parsed(d), Parsed(e))
  {
    var top: Triple :| IsHighest(displays, top) && r == After(top);
    if r.Ok? {
      forall d | d in displays && Parsed(d)[2] == MAX_UINT64
        ensures exists e :: e in displays && Below(Parsed(d), Parsed(e))
      {
        var e :| e in displays && Parses(e) && Parsed(e) == top;
        assert !Below(top, Parsed(d));
        assert Parsed(d) != top;
        assert Below(Parsed(d), Parsed(e));
      }
    }
  }

  function Higher(s: Triple, t: Triple): Triple
  {
    if Below(s, t) then t else s
  }

  lemma ExtendHighest(rest: set<string>, top: Triple, a: string)
    requires IsHighest(rest, top) && Parses(a)
    ensures IsHighest(rest + {a}, Higher(top, Parsed(a)))
  {
    var d :| d in rest && Parses(d) && Parsed(d) == top;
    var best := if Below(top, Parsed(a)) then a else d;
    assert best in rest + {a} && Parses(best) && Parsed(best) == Higher(top, Parsed(a));
  }

  lemma {:induction false} HighestExists(displays: set<string>)
    requires displays != {} && forall d :: d in displays ==> Parses(d)
    ensures exists top: Triple :: IsHighest(displays, top)
    decreases |displays|
  {
    var a :| a in displays;
    var rest := displays - {a};
    if rest == {} {
      assert displays == {a};
      assert IsHighest(displays, Parsed(a));
    } else {
      HighestExists(rest);
      var top: Triple :| IsHighest(rest, top);
      ExtendHighest(rest, top, a);
      assert displays == rest + {a};
    }
  }

  /** The answer as a function: there is one, and NextIsUnique says only one. */
  ghost function NextOf(displays: set<string>): (r: Result<string, VersionError>)
    ensures IsNext(displays, r)
  {
    if displays == {} then Err(NotFound)
    else if exists d :: d in displays && !Parses(d) then Err(InvalidDisplayVersion)
    else
      HighestExists(displays);
      var top: Triple :| IsHighest(displays, top);
      After(top)
  }
}
