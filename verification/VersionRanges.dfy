/** Version constraints such as ">=5.0 <8.0": how they are parsed and when they apply. */
module VersionRanges {
  import opened Basics
  import opened GoStrings
  import opened Versions

  datatype Op = Ge | Le | Ne | Eq | Gt | Lt

  datatype Check = Check(op: Op, version: Version)

  /** The operator a constraint starts with and the text after it; no operator means equality. */
  function SplitOp(part: string): (r: (Op, string))
  {
    if ">=" <= part then (Ge, part[2..])
    else if "<=" <= part then (Le, part[2..])
    else if "!=" <= part then (Ne, part[2..])
    else if "==" <= part then (Eq, part[2..])
    else if ">" <= part then (Gt, part[1..])
    else if "<" <= part then (Lt, part[1..])
    else if "=" <= part then (Eq, part[1..])
    else (Eq, part)
  }

  function ParsedCheck(part: string): (r: Result<Check>)
    ensures r.Ok? ==> Representable(r.value.version)
  {
    var (op, num) := SplitOp(part);
    match ParsedVersion(num)
    case Ok(v) => Ok(Check(op, v))
    case Err(e) => Err(e)
  }

  predicate WellSpelled(checks: seq<Check>)
  {
    forall i :: 0 <= i < |checks| ==> Representable(checks[i].version)
  }

  /** What parseVersionRange makes of a constraint; a blank one has no checks. */
  function ParsedRange(raw: string): (r: Result<seq<Check>>)
    ensures r.Ok? ==> WellSpelled(r.value)
  {
    var parts := Fields(TrimSpace(raw));
    if TrimSpace(raw) == "" then Ok([])
    else if forall i :: 0 <= i < |parts| ==> ParsedCheck(parts[i]).Ok? then
      Ok(seq(|parts|, i requires 0 <= i < |parts| => ParsedCheck(parts[i]).value))
    else Err("not a version range")
  }

  /** parseVersionRange. */
  method ParseVersionRange(raw: string) returns (r: Result<seq<Check>>)
    ensures r == ParsedRange(raw)
  {
    hide TrimSpace, Fields, SplitOp, ParsedVersion;
    var trimmed := TrimSpace(raw);
    if trimmed == "" {
      return Ok([]);
    }
    var parts := Fields(trimmed);
    var checks: seq<Check> := [];
    for k := 0 to |parts|
      invariant |checks| == k
      invariant forall j :: 0 <= j < k ==> ParsedCheck(parts[j]).Ok? && checks[j] == ParsedCheck(parts[j]).value
    {
      var (op, num) := SplitOp(parts[k]);
      var v := ParseVersion(num);
      if v.Err? {
        return Err("not a version range");
      }
      checks := checks + [Check(op, v.value)];
    }
    assert checks == seq(|parts|, i requires 0 <= i < |parts| => ParsedCheck(parts[i]).value);
    return Ok(checks);
  }

  // --- when a constraint applies -------------------------------------------

  predicate Holds(c: Check, v: Version)
  {
    var cmp := Order(v, c.version);
    match c.op
    case Ge => cmp >= 0
    case Le => cmp <= 0
    case Gt => cmp > 0
    case Lt => cmp < 0
    case Eq => cmp == 0
    case Ne => cmp != 0
  }

  predicate Satisfies(checks: seq<Check>, v: Version)
  {
    forall i :: 0 <= i < |checks| ==> Holds(checks[i], v)
  }

  predicate Parseable(version: string)
  {
    ParsedVersion(version).Ok?
  }

  /** A version nobody can read is treated as covered by every constraint. */
  predicate Covers(checks: seq<Check>, version: string)
  {
    checks == [] || !Parseable(version) || Satisfies(checks, ParsedVersion(version).value)
  }

  lemma BlankIsUnreadable(version: string)
    ensures Blank(version) ==> !Parseable(version)
  {
    assert TrimPrefix("", "v") == "";
  }

  /** versionRange.Applies. */
  method Applies(checks: seq<Check>, version: string) returns (ok: bool)
    ensures ok == Covers(checks, version)
  {
    hide ParsedVersion, TrimSpace, Order;
    if checks == [] || Blank(version) {
      BlankIsUnreadable(version);
      return true;
    }
    var v := ParseVersion(version);
    if v.Err? {
      return true;
    }
    for k := 0 to |checks|
      invariant forall j :: 0 <= j < k ==> Holds(checks[j], v.value)
    {
      var cmp := CompareVersions(v.value, checks[k].version);
      var holds := match checks[k].op
        case Ge => cmp >= 0
        case Le => cmp <= 0
        case Gt => cmp > 0
        case Lt => cmp < 0
        case Eq => cmp == 0
        case Ne => cmp != 0;
      if !holds {
        return false;
      }
    }
    return true;
  }

  /** appliesToVersion: a rule whose constraint does not parse applies everywhere. */
  predicate AppliesTo(raw: string, version: string)
  {
    match ParsedRange(raw)
    case Err(_) => true
    case Ok(checks) => Covers(checks, version)
  }

  lemma BlankAppliesEverywhere(raw: string, version: string)
    requires Blank(raw) || !Parseable(version)
    ensures AppliesTo(raw, version)
  {
  }

  lemma OneWordRange(raw: string)
    requires raw != "" && NoSpace(raw)
    requires ParsedCheck(raw).Ok?
    ensures ParsedRange(raw) == Ok([ParsedCheck(raw).value])
  {
    WordFields(raw);
    var parts := [raw];
    assert Fields(TrimSpace(raw)) == parts && parts[0] == raw;
    assert ParsedRange(raw).value == [ParsedCheck(raw).value];
  }

  lemma PointCheckParses(op: string, num: string, v: Version)
    requires op == "==" || op == "!="
    requires ParsedVersion(num) == Ok(v) && Representable(v)
    ensures ParsedCheck(op + num) == Ok(Check(if op == "==" then Eq else Ne, v))
  {
    hide ParsedVersion, Representable;
    PointOpSplits(op, num);
  }

  lemma PointOpSplits(op: string, num: string)
    requires op == "==" || op == "!="
    ensures SplitOp(op + num) == (if op == "==" then Eq else Ne, num)
  {
    assert (op + num)[2..] == num;
    assert (op + num)[0] == op[0] && (op + num)[1] == op[1];
  }

  /** Every version can be written as a point constraint or as a hole. */
  lemma PointRange(op: string, v: Version)
    requires op == "==" || op == "!="
    requires Representable(v)
    ensures ParsedRange(op + PrintVersion(v)) == Ok([Check(if op == "==" then Eq else Ne, v)])
  {
    PrintedHasNoSpace(v);
    NoSpaceConcat(op, PrintVersion(v));
    PrintedParses(v);
    PointCheckParses(op, PrintVersion(v), v);
    OneWordRange(op + PrintVersion(v));
  }

  lemma OneCheckCovers(raw: string, c: Check, s: string)
    requires ParsedRange(raw) == Ok([c]) && Parseable(s)
    ensures AppliesTo(raw, s) <==> Holds(c, ParsedVersion(s).value)
  {
    assert Satisfies([c], ParsedVersion(s).value) <==> Holds([c][0], ParsedVersion(s).value);
  }
}
