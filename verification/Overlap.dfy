/** Overlap of two version constraints, decided on the interval each one reduces to. */
module Overlap {
  import opened Basics
  import opened Versions
  import opened VersionRanges

  /** A range of versions; a missing end is unbounded and an open end excludes its point. */
  datatype Bounds = Bounds(lo: Option<Version>, loOpen: bool, hi: Option<Version>, hiOpen: bool)
  {
    ghost predicate Above(v: Version)
    {
      lo.Some? ==> if loOpen then Order(lo.value, v) < 0 else Order(lo.value, v) <= 0
    }

    ghost predicate Below(v: Version)
    {
      hi.Some? ==> if hiOpen then Order(v, hi.value) < 0 else Order(v, hi.value) <= 0
    }

    ghost predicate Contains(v: Version)
    {
      Above(v) && Below(v)
    }

    predicate Unbounded()
    {
      lo.None? && hi.None?
    }
  }

  const EVERYTHING := Bounds(None, false, None, false)

  function RaisedLo(b: Bounds, v: Version, open: bool): (r: Bounds)
  {
    if b.lo.None? || Order(v, b.lo.value) > 0 then b.(lo := Some(v), loOpen := open)
    else if Order(v, b.lo.value) == 0 && open then b.(loOpen := true)
    else b
  }

  function LoweredHi(b: Bounds, v: Version, open: bool): (r: Bounds)
  {
    if b.hi.None? || Order(v, b.hi.value) < 0 then b.(hi := Some(v), hiOpen := open)
    else if Order(v, b.hi.value) == 0 && open then b.(hiOpen := true)
    else b
  }

  function Tightened(b: Bounds, c: Check): (r: Bounds)
  {
    match c.op
    case Ge => RaisedLo(b, c.version, false)
    case Gt => RaisedLo(b, c.version, true)
    case Le => LoweredHi(b, c.version, false)
    case Lt => LoweredHi(b, c.version, true)
    case Eq => LoweredHi(RaisedLo(b, c.version, false), c.version, false)
    case Ne => b
  }

  function Reduced(checks: seq<Check>): (r: Bounds)
  {
    if checks == [] then EVERYTHING
    else Tightened(Reduced(checks[..|checks| - 1]), checks[|checks| - 1])
  }

  /** The interval of a constraint; one that does not parse is unbounded. */
  function IntervalOf(raw: string): (r: Bounds)
  {
    match ParsedRange(raw)
    case Err(_) => EVERYTHING
    case Ok(checks) => Reduced(checks)
  }

  /** `x` lies entirely below `y`. */
  predicate IsSeparated(x: Bounds, y: Bounds)
  {
    && x.hi.Some? && y.lo.Some?
    && (Order(x.hi.value, y.lo.value) < 0
        || (Order(x.hi.value, y.lo.value) == 0 && (x.hiOpen || y.loOpen)))
  }

  predicate Overlapping(a: string, b: string)
  {
    var x, y := IntervalOf(a), IntervalOf(b);
    x.Unbounded() || y.Unbounded() || (!IsSeparated(x, y) && !IsSeparated(y, x))
  }

  // --- the procedure, in place ---------------------------------------------

  class Interval {
    var lo: Option<Version>
    var hi: Option<Version>
    var loOpen: bool
    var hiOpen: bool
    var unbounded: bool

    constructor (unbounded: bool)
      ensures View() == EVERYTHING && this.unbounded == unbounded
    {
      lo, hi, loOpen, hiOpen := None, None, false, false;
      this.unbounded := unbounded;
    }

    function View(): (r: Bounds)
      reads this
    {
      Bounds(lo, loOpen, hi, hiOpen)
    }

    /** raiseLo. */
    method RaiseLo(v: Version, open: bool)
      modifies this
      ensures View() == RaisedLo(old(View()), v, open) && unbounded == old(unbounded)
    {
      if lo.Some? {
        var cmp := CompareVersions(v, lo.value);
        if cmp <= 0 {
          if cmp == 0 && open {
            loOpen := true;
          }
          return;
        }
      }
      lo, loOpen := Some(v), open;
    }

    /** lowerHi. */
    method LowerHi(v: Version, open: bool)
      modifies this
      ensures View() == LoweredHi(old(View()), v, open) && unbounded == old(unbounded)
    {
      if hi.Some? {
        var cmp := CompareVersions(v, hi.value);
        if cmp >= 0 {
          if cmp == 0 && open {
            hiOpen := true;
          }
          return;
        }
      }
      hi, hiOpen := Some(v), open;
    }
  }

  /** toInterval. */
  method ToInterval(raw: string) returns (iv: Interval)
    ensures fresh(iv)
    ensures iv.View() == IntervalOf(raw) && iv.unbounded == IntervalOf(raw).Unbounded()
  {
    var vr := ParseVersionRange(raw);
    if vr.Err? || vr.value == [] {
      iv := new Interval(true);
      return;
    }
    var checks := vr.value;
    iv := new Interval(false);
    for k := 0 to |checks|
      invariant fresh(iv) && !iv.unbounded
      invariant iv.View() == Reduced(checks[..k])
    {
      assert checks[..k + 1][..k] == checks[..k];
      var c := checks[k];
      match c.op {
        case Ge => iv.RaiseLo(c.version, false);
        case Gt => iv.RaiseLo(c.version, true);
        case Le => iv.LowerHi(c.version, false);
        case Lt => iv.LowerHi(c.version, true);
        case Eq =>
          iv.RaiseLo(c.version, false);
          iv.LowerHi(c.version, false);
        case Ne =>
      }
    }
    assert checks[..|checks|] == checks;
    if iv.lo.None? && iv.hi.None? {
      iv.unbounded := true;
    }
  }

  /** separated. */
  method Separated(x: Interval, y: Interval) returns (r: bool)
    ensures r == IsSeparated(x.View(), y.View())
  {
    if x.hi.None? || y.lo.None? {
      return false;
    }
    var cmp := CompareVersions(x.hi.value, y.lo.value);
    if cmp < 0 {
      return true;
    }
    return cmp == 0 && (x.hiOpen || y.loOpen);
  }

  /** rangesOverlap. */
  method RangesOverlap(a: string, b: string) returns (r: bool)
    ensures r == Overlapping(a, b)
  {
    var x := ToInterval(a);
    var y := ToInterval(b);
    if x.unbounded || y.unbounded {
      return true;
    }
    var below := Separated(x, y);
    if below {
      return false;
    }
    var above := Separated(y, x);
    return !above;
  }

  // --- what an interval loses: nothing but holes ------------------------------

  ghost predicate NoHoles(checks: seq<Check>)
  {
    forall i :: 0 <= i < |checks| ==> checks[i].op != Ne
  }

  lemma RaisedLoContains(b: Bounds, v: Version, open: bool, w: Version)
    ensures RaisedLo(b, v, open).Contains(w)
            <==> b.Contains(w) && (if open then Order(v, w) < 0 else Order(v, w) <= 0)
  {
    if b.lo.Some? {
      OrderFlips(v, b.lo.value);
      if Order(v, b.lo.value) >= 0 && Order(v, w) <= 0 {
        OrderChains(b.lo.value, v, w);
      }
      if Order(v, b.lo.value) <= 0 && Order(b.lo.value, w) <= 0 {
        OrderChains(v, b.lo.value, w);
      }
    }
  }

  lemma LoweredHiContains(b: Bounds, v: Version, open: bool, w: Version)
    ensures LoweredHi(b, v, open).Contains(w)
            <==> b.Contains(w) && (if open then Order(w, v) < 0 else Order(w, v) <= 0)
  {
    if b.hi.Some? {
      OrderFlips(v, b.hi.value);
      if Order(v, b.hi.value) <= 0 && Order(w, v) <= 0 {
        OrderChains(w, v, b.hi.value);
      }
      if Order(v, b.hi.value) >= 0 && Order(w, b.hi.value) <= 0 {
        OrderChains(w, b.hi.value, v);
      }
    }
  }

  lemma TightenedContains(b: Bounds, c: Check, w: Version)
    ensures c.op != Ne ==> (Tightened(b, c).Contains(w) <==> b.Contains(w) && Holds(c, w))
  {
    OrderFlips(w, c.version);
    RaisedLoContains(b, c.version, false, w);
    RaisedLoContains(b, c.version, true, w);
    LoweredHiContains(b, c.version, false, w);
    LoweredHiContains(b, c.version, true, w);
    LoweredHiContains(RaisedLo(b, c.version, false), c.version, false, w);
  }

  lemma HolelessIsTight(b: Bounds, c: Check)
    ensures c.op == Ne ==> Tightened(b, c) == b
  {
  }

  /** Reduction is lossy in one direction only: it forgets `!=` and nothing else. */
  lemma {:induction false} ReducedContains(checks: seq<Check>, w: Version)
    ensures Satisfies(checks, w) ==> Reduced(checks).Contains(w)
    ensures NoHoles(checks) && Reduced(checks).Contains(w) ==> Satisfies(checks, w)
  {
    if checks != [] {
      var init, last := checks[..|checks| - 1], checks[|checks| - 1];
      hide Order, Tightened, Holds;
      ReducedContains(init, w);
      TightenedContains(Reduced(init), last, w);
      HolelessIsTight(Reduced(init), last);
      assert forall i :: 0 <= i < |init| ==> init[i] == checks[i];
      assert checks == init + [last];
      assert Satisfies(checks, w) <==> Satisfies(init, w) && Holds(last, w);
      assert NoHoles(checks) <==> NoHoles(init) && last.op != Ne;
    }
  }

  // --- soundness ------------------------------------------------------------

  lemma SeparatedDisjoint(x: Bounds, y: Bounds, v: Version)
    requires IsSeparated(x, y)
    ensures !(x.Contains(v) && y.Contains(v))
  {
    if x.Contains(v) && y.Contains(v) {
      OrderChains(y.lo.value, v, x.hi.value);
      OrderFlips(x.hi.value, y.lo.value);
      assert false;
    }
  }

  /** Two constraints called disjoint never both cover a version anyone can read. */
  lemma DisjointNeverBothApply(a: string, b: string, version: string)
    requires !Overlapping(a, b)
    requires Parseable(version)
    ensures !(AppliesTo(a, version) && AppliesTo(b, version))
  {
    if AppliesTo(a, version) && AppliesTo(b, version) {
      var v := ParsedVersion(version).value;
      ReducedContains(ParsedRange(a).value, v);
      ReducedContains(ParsedRange(b).value, v);
      if IsSeparated(IntervalOf(a), IntervalOf(b)) {
        SeparatedDisjoint(IntervalOf(a), IntervalOf(b), v);
      } else {
        SeparatedDisjoint(IntervalOf(b), IntervalOf(a), v);
      }
      assert false;
    }
  }

  // --- completeness -----------------------------------------------------------

  /** Some version lies at or after one end and at or before the other. */
  ghost predicate Fits(lo: Version, loOpen: bool, hi: Version, hiOpen: bool)
  {
    Order(lo, hi) < 0 || (Order(lo, hi) == 0 && !loOpen && !hiOpen)
  }

  ghost predicate Compatible(b: Bounds)
  {
    b.lo.Some? && b.hi.Some? ==> Fits(b.lo.value, b.loOpen, b.hi.value, b.hiOpen)
  }

  lemma InhabitedIsCompatible(b: Bounds, v: Version)
    requires b.Contains(v)
    ensures Compatible(b)
  {
    if b.lo.Some? && b.hi.Some? {
      OrderChains(b.lo.value, v, b.hi.value);
    }
  }

  ghost predicate EndsRepresentable(b: Bounds)
  {
    (b.lo.Some? ==> Representable(b.lo.value)) && (b.hi.Some? ==> Representable(b.hi.value))
  }

  /** The intersection, tightening one range by the ends of the other. */
  function Meet(x: Bounds, y: Bounds): (r: Bounds)
  {
    var z := if y.lo.Some? then RaisedLo(x, y.lo.value, y.loOpen) else x;
    if y.hi.Some? then LoweredHi(z, y.hi.value, y.hiOpen) else z
  }

  lemma MeetContains(x: Bounds, y: Bounds, v: Version)
    ensures Meet(x, y).Contains(v) <==> x.Contains(v) && y.Contains(v)
  {
    var z := if y.lo.Some? then RaisedLo(x, y.lo.value, y.loOpen) else x;
    if y.lo.Some? {
      RaisedLoContains(x, y.lo.value, y.loOpen, v);
    }
    if y.hi.Some? {
      LoweredHiContains(z, y.hi.value, y.hiOpen, v);
    }
  }

  lemma RaisedLoFits(b: Bounds, v: Version, open: bool, hi: Version, hiOpen: bool)
    requires b.lo.Some? ==> Fits(b.lo.value, b.loOpen, hi, hiOpen)
    requires Fits(v, open, hi, hiOpen)
    ensures var r := RaisedLo(b, v, open); Fits(r.lo.value, r.loOpen, hi, hiOpen)
  {
    if b.lo.Some? && Order(v, b.lo.value) == 0 {
      OrderFlips(v, b.lo.value);
      OrderChains(b.lo.value, v, hi);
    }
  }

  lemma LoweredHiFits(b: Bounds, v: Version, open: bool, lo: Version, loOpen: bool)
    requires b.hi.Some? ==> Fits(lo, loOpen, b.hi.value, b.hiOpen)
    requires Fits(lo, loOpen, v, open)
    ensures var r := LoweredHi(b, v, open); Fits(lo, loOpen, r.hi.value, r.hiOpen)
  {
    if b.hi.Some? && Order(v, b.hi.value) == 0 {
      OrderChains(lo, v, b.hi.value);
    }
  }

  /** Ranges that are each non-empty and not separated either way have a version in common. */
  lemma NotSeparatedMeet(x: Bounds, y: Bounds)
    requires Compatible(x) && Compatible(y)
    requires !IsSeparated(x, y) && !IsSeparated(y, x)
    ensures Compatible(Meet(x, y))
  {
    if x.hi.Some? && y.lo.Some? {
      OrderFlips(x.hi.value, y.lo.value);
      RaisedLoFits(x, y.lo.value, y.loOpen, x.hi.value, x.hiOpen);
    }
    if y.hi.Some? && x.lo.Some? {
      OrderFlips(y.hi.value, x.lo.value);
    }
    if y.hi.Some? && y.lo.Some? {
      RaisedLoFits(x, y.lo.value, y.loOpen, y.hi.value, y.hiOpen);
    }
    var z := if y.lo.Some? then RaisedLo(x, y.lo.value, y.loOpen) else x;
    if y.hi.Some? && z.lo.Some? {
      LoweredHiFits(z, y.hi.value, y.hiOpen, z.lo.value, z.loOpen);
    }
  }

  lemma NoEnds()
    ensures EndsRepresentable(EVERYTHING)
  {
  }

  lemma TightenedEnds(b: Bounds, c: Check)
    requires EndsRepresentable(b) && Representable(c.version)
    ensures EndsRepresentable(Tightened(b, c))
  {
    hide Order, Representable;
  }

  lemma {:induction false} ReducedEnds(checks: seq<Check>)
    requires WellSpelled(checks)
    ensures EndsRepresentable(Reduced(checks))
  {
    hide Tightened, Representable, EndsRepresentable;
    NoEnds();
    if checks != [] {
      ReducedEnds(checks[..|checks| - 1]);
      TightenedEnds(Reduced(checks[..|checks| - 1]), checks[|checks| - 1]);
    }
  }

  ghost predicate Satisfiable(raw: string)
  {
    exists version :: Parseable(version) && AppliesTo(raw, version)
  }

  /** The versions a constraint excludes one by one. */
  function HolesIn(checks: seq<Check>): (holes: seq<Version>)
    ensures WellSpelled(checks) ==> forall h :: h in holes ==> Representable(h)
  {
    if checks == [] then []
    else
      var init, last := checks[..|checks| - 1], checks[|checks| - 1];
      HolesIn(init) + (if last.op == Ne then [last.version] else [])
  }

  function HolesOf(raw: string): (holes: seq<Version>)
  {
    match ParsedRange(raw)
    case Err(_) => []
    case Ok(checks) => HolesIn(checks)
  }

  ghost predicate Avoids(v: Version, holes: seq<Version>)
  {
    forall h :: h in holes ==> Order(v, h) != 0
  }

  lemma AvoidsBoth(v: Version, x: seq<Version>, y: seq<Version>)
    ensures Avoids(v, x + y) <==> Avoids(v, x) && Avoids(v, y)
  {
    hide Order;
    assert forall h :: h in x + y <==> h in x || h in y;
  }

  /** To satisfy a constraint is to lie in its interval and on none of its holes. */
  lemma {:induction false} SatisfiesMeaning(checks: seq<Check>, w: Version)
    ensures Satisfies(checks, w) <==> Reduced(checks).Contains(w) && Avoids(w, HolesIn(checks))
  {
    if checks != [] {
      var init, last := checks[..|checks| - 1], checks[|checks| - 1];
      SatisfiesMeaning(init, w);
      TightenedContains(Reduced(init), last, w);
      assert checks == init + [last];
      assert Satisfies(checks, w) <==> Satisfies(init, w) && Holds(last, w);
      hide Satisfies, Order, Tightened;
      AvoidsBoth(w, HolesIn(init), if last.op == Ne then [last.version] else []);
    }
  }

  lemma CoverMeaning(raw: string, version: string)
    requires Parseable(version)
    ensures var v := ParsedVersion(version).value;
            AppliesTo(raw, version) <==> IntervalOf(raw).Contains(v) && Avoids(v, HolesOf(raw))
  {
    if ParsedRange(raw).Ok? {
      SatisfiesMeaning(ParsedRange(raw).value, ParsedVersion(version).value);
    }
  }

  /** However many holes there are, between any two versions that differ lies one that is on none of them. */
  lemma {:induction false} RoomBetween(l: Version, h: Version, holes: seq<Version>) returns (v: Version)
    requires Order(l, h) < 0 && Representable(l) && Representable(h)
    ensures Order(l, v) < 0 && Order(v, h) < 0 && Representable(v) && Avoids(v, holes)
    decreases |holes|
  {
    var m := Extended(l, |h|, 1);
    Dense(l, h);
    assert Representable(m);
    if holes == [] {
      v := m;
    } else {
      var init, last := holes[..|holes| - 1], holes[|holes| - 1];
      hide Avoids, Representable;
      OrderFlips(m, last);
      if Order(m, last) <= 0 {
        v := RoomBetween(l, m, init);
        OrderChains(v, m, last);
        OrderChains(v, m, h);
      } else {
        v := RoomBetween(m, h, init);
        OrderChains(last, m, v);
        OrderFlips(last, v);
        OrderChains(l, m, v);
      }
      OneMoreAvoided(v, init, last);
      assert init + [last] == holes;
    }
  }

  lemma OneMoreAvoided(v: Version, holes: seq<Version>, h: Version)
    requires Avoids(v, holes) && Order(v, h) != 0
    ensures Avoids(v, holes + [h])
  {
    AvoidsBoth(v, holes, [h]);
  }

  /** A range that is one version and no more. */
  predicate IsPoint(b: Bounds)
  {
    b.lo.Some? && b.hi.Some? && Order(b.lo.value, b.hi.value) == 0
  }

  /** A range with more than a point in it has a version that is on none of finitely many holes. */
  lemma RoomInside(b: Bounds, holes: seq<Version>) returns (v: Version)
    requires Compatible(b) && EndsRepresentable(b) && !IsPoint(b)
    ensures b.Contains(v) && Representable(v) && Avoids(v, holes)
  {
    var l := if b.lo.Some? then b.lo.value else if b.hi.Some? then b.hi.value + [-1] else [0];
    var h := if b.hi.Some? then b.hi.value else l + [1];
    assert Representable(l) && Representable(h);
    NoExtremes(l);
    if b.hi.Some? {
      NoExtremes(b.hi.value);
    }
    hide Avoids;
    v := RoomBetween(l, h, holes);
  }

  /** A range that is one version, and that one is excluded. */
  ghost predicate Punched(b: Bounds, holes: seq<Version>)
  {
    IsPoint(b) && !Avoids(b.lo.value, holes)
  }

  /** All that two constraints have in common is one version, and one of them excludes it. */
  ghost predicate OnlyAHole(a: string, b: string)
  {
    Punched(Meet(IntervalOf(a), IntervalOf(b)), HolesOf(a) + HolesOf(b))
  }

  /** A version string that anyone can read and that both constraints cover. */
  ghost predicate BothCover(a: string, b: string, s: string)
  {
    Parseable(s) && AppliesTo(a, s) && AppliesTo(b, s)
  }

  lemma BothCoverMeaning(a: string, b: string, s: string)
    requires Parseable(s)
    ensures var v := ParsedVersion(s).value;
            BothCover(a, b, s) <==> Meet(IntervalOf(a), IntervalOf(b)).Contains(v) && Avoids(v, HolesOf(a) + HolesOf(b))
  {
    var v := ParsedVersion(s).value;
    hide Order, Meet, HolesOf, IntervalOf, AppliesTo;
    CoverMeaning(a, s);
    CoverMeaning(b, s);
    MeetContains(IntervalOf(a), IntervalOf(b), v);
    AvoidsBoth(v, HolesOf(a), HolesOf(b));
  }

  lemma PrintedCover(a: string, b: string, v: Version)
    requires Representable(v)
    requires Meet(IntervalOf(a), IntervalOf(b)).Contains(v) && Avoids(v, HolesOf(a) + HolesOf(b))
    ensures exists s :: BothCover(a, b, s)
  {
    hide Meet, HolesOf, IntervalOf;
    PrintedParses(v);
    BothCoverMeaning(a, b, PrintVersion(v));
    assert BothCover(a, b, PrintVersion(v));
  }

  lemma MeetEnds(x: Bounds, y: Bounds)
    requires EndsRepresentable(x) && EndsRepresentable(y)
    ensures EndsRepresentable(Meet(x, y))
  {
    hide Order, Representable;
  }

  lemma IntervalEnds(raw: string)
    ensures EndsRepresentable(IntervalOf(raw))
  {
    if ParsedRange(raw).Ok? {
      ReducedEnds(ParsedRange(raw).value);
    }
  }

  lemma PointInside(b: Bounds)
    requires Compatible(b) && IsPoint(b)
    ensures b.Contains(b.lo.value)
    ensures forall v :: b.Contains(v) ==> Order(v, b.lo.value) == 0
  {
    OrderFlips(b.lo.value, b.lo.value);
    forall v | b.Contains(v) ensures Order(v, b.lo.value) == 0 {
      OrderFlips(v, b.lo.value);
      OrderFlips(b.hi.value, b.lo.value);
      OrderChains(v, b.hi.value, b.lo.value);
    }
  }

  /** Inside a range there is a version on none of the holes exactly when the ends fit and it is not a punched point. */
  lemma RoomMeaning(b: Bounds, holes: seq<Version>)
    requires EndsRepresentable(b)
    ensures (exists v :: b.Contains(v) && Representable(v) && Avoids(v, holes)) <==> Compatible(b) && !Punched(b, holes)
  {
    if v :| b.Contains(v) && Avoids(v, holes) {
      InhabitedIsCompatible(b, v);
      if Punched(b, holes) {
        PointInside(b);
        var h :| h in holes && Order(b.lo.value, h) == 0;
        OrderChains(v, b.lo.value, h);
        assert false;
      }
    }
    if Compatible(b) && !Punched(b, holes) {
      if IsPoint(b) {
        PointInside(b);
      } else {
        var v := RoomInside(b, holes);
      }
    }
  }

  /** Which constraints some version satisfies, read off their ends and holes. */
  lemma SatisfiableMeaning(raw: string)
    ensures Satisfiable(raw) <==> Compatible(IntervalOf(raw)) && !Punched(IntervalOf(raw), HolesOf(raw))
  {
    hide IntervalOf, HolesOf, AppliesTo, Compatible, Punched, Avoids, Representable;
    var b, holes := IntervalOf(raw), HolesOf(raw);
    IntervalEnds(raw);
    RoomMeaning(b, holes);
    if version :| Parseable(version) && AppliesTo(raw, version) {
      CoverMeaning(raw, version);
    }
    if v :| b.Contains(v) && Representable(v) && Avoids(v, holes) {
      PrintedParses(v);
      CoverMeaning(raw, PrintVersion(v));
    }
  }

  /**
   * How exact the test is: two constraints have a version in common precisely when each has one, the test
   * answers "overlap", and what they share is not just a single version that a `!=` of one of them excludes.
   * Without `!=` it never is.
   */
  lemma OverlapIsExact(a: string, b: string)
    ensures (exists s :: BothCover(a, b, s))
       <==> Satisfiable(a) && Satisfiable(b) && Overlapping(a, b) && !OnlyAHole(a, b)
    ensures HolesOf(a) == HolesOf(b) == [] ==> !OnlyAHole(a, b)
  {
    var x, y := IntervalOf(a), IntervalOf(b);
    hide IntervalOf, HolesOf, AppliesTo, Meet, Compatible, Punched, Overlapping, Representable;
    IntervalEnds(a);
    IntervalEnds(b);
    MeetEnds(x, y);
    RoomMeaning(Meet(x, y), HolesOf(a) + HolesOf(b));
    if s :| BothCover(a, b, s) {
      BothCoverMeaning(a, b, s);
      if !Overlapping(a, b) {
        DisjointNeverBothApply(a, b, s);
      }
    }
    if Satisfiable(a) && Satisfiable(b) && Overlapping(a, b) && !OnlyAHole(a, b) {
      SatisfiableMeaning(a);
      SatisfiableMeaning(b);
      OverlappingMeet(a, b);
      var v :| Meet(x, y).Contains(v) && Representable(v) && Avoids(v, HolesOf(a) + HolesOf(b));
      PrintedCover(a, b, v);
    }
    if HolesOf(a) == HolesOf(b) == [] {
      NothingPunched(Meet(x, y), HolesOf(a) + HolesOf(b));
    }
  }

  lemma NothingPunched(b: Bounds, holes: seq<Version>)
    requires holes == []
    ensures !Punched(b, holes)
  {
  }

  lemma OverlappingMeet(a: string, b: string)
    requires Overlapping(a, b) && Compatible(IntervalOf(a)) && Compatible(IntervalOf(b))
    ensures Compatible(Meet(IntervalOf(a), IntervalOf(b)))
  {
    NotSeparatedMeet(IntervalOf(a), IntervalOf(b));
  }

  /**
   * The price of ignoring `!=`: for every version, `==v` and `!=v` never apply together and are
   * nevertheless called overlapping.
   */
  lemma HolesAreNotSeen(v: Version)
    requires Representable(v)
    ensures var eq, ne := "==" + PrintVersion(v), "!=" + PrintVersion(v);
            && Satisfiable(eq) && Satisfiable(ne) && Overlapping(eq, ne)
            && forall s :: !BothCover(eq, ne, s)
  {
    PointRange("==", v);
    PointRange("!=", v);
    HoleIsNotSeen("==" + PrintVersion(v), "!=" + PrintVersion(v), v);
  }

  lemma HoleIsNotSeen(eq: string, ne: string, v: Version)
    requires Representable(v)
    requires ParsedRange(eq) == Ok([Check(Eq, v)]) && ParsedRange(ne) == Ok([Check(Ne, v)])
    ensures Satisfiable(eq) && Satisfiable(ne) && Overlapping(eq, ne)
    ensures forall s :: !BothCover(eq, ne, s)
  {
    hide AppliesTo, IntervalOf, IsSeparated, Satisfiable, Order, ParsedRange, ParsedVersion;
    forall s ensures !BothCover(eq, ne, s) {
      if Parseable(s) {
        OneCheckCovers(eq, Check(Eq, v), s);
        OneCheckCovers(ne, Check(Ne, v), s);
      }
    }
    OrderFlips(v, v);
    SpelledCover(eq, Check(Eq, v), v);
    NoExtremes(v);
    OrderFlips(v, v + [1]);
    SpelledCover(ne, Check(Ne, v), v + [1]);
    HoleIsEverything(ne, v);
  }

  lemma SpelledCover(raw: string, c: Check, v: Version)
    requires ParsedRange(raw) == Ok([c]) && Representable(v) && Holds(c, v)
    ensures Satisfiable(raw)
  {
    PrintedParses(v);
    OneCheckCovers(raw, c, PrintVersion(v));
  }

  lemma HoleIsEverything(ne: string, v: Version)
    requires ParsedRange(ne) == Ok([Check(Ne, v)])
    ensures IntervalOf(ne) == EVERYTHING
  {
    var checks := [Check(Ne, v)];
    assert Reduced(checks) == Tightened(Reduced(checks[..0]), checks[0]);
  }
}
