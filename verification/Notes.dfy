/** Narrative notes: how they are ordered, and why the order investigators finish in does not show. */
module Notes {
  // --- domains and the prefixes their notes carry ---------------------------------------

  datatype Domain = Metrics | Logs | Cluster | Host | Source

  /** investigationDomains, in their fixed order. */
  const DOMAINS: seq<Domain> := [Metrics, Logs, Cluster, Host, Source]

  function DomainName(d: Domain): (s: string)
    ensures s != ""
  {
    match d
    case Metrics => "metrics"
    case Logs => "logs"
    case Cluster => "cluster"
    case Host => "host"
    case Source => "source"
  }

  /** The first letter in upper case. */
  function Title(s: string): (r: string)
  {
    if s != "" && 97 <= s[0] as int <= 122 then [(s[0] as int - 32) as char] + s[1..] else s
  }

  const PLAN_PREFIX := "Investigation plan"

  function NoteOrder(domains: seq<Domain>): (prefixes: seq<string>)
    ensures |prefixes| == |domains| + 1 && prefixes[0] == PLAN_PREFIX
    ensures forall i :: 0 <= i < |domains| ==> prefixes[i + 1] == Title(DomainName(domains[i]))
  {
    [PLAN_PREFIX] + seq(|domains|, i requires 0 <= i < |domains| => Title(DomainName(domains[i])))
  }

  function PlanNote(text: string): (s: string)
  {
    PLAN_PREFIX + ":\n" + text
  }

  function FindingsNote(d: Domain, text: string): (s: string)
  {
    Title(DomainName(d)) + " findings:\n" + text
  }

  // --- ranks ---------------------------------------------------------------------------------

  /** The index of the prefix a note starts with; unlisted notes come last. */
  function RankOf(prefixes: seq<string>, note: string): (r: nat)
    ensures r <= |prefixes|
    ensures r < |prefixes| ==> prefixes[r] <= note
    ensures forall i :: 0 <= i < r ==> !(prefixes[i] <= note)
  {
    if prefixes == [] then 0
    else if prefixes[0] <= note then 0
    else 1 + RankOf(prefixes[1..], note)
  }

  /** No prefix starts with another, so it does not matter in which order prefixes are tried. */
  ghost predicate Exclusive(prefixes: seq<string>)
  {
    forall i, j :: 0 <= i < j < |prefixes| ==> !(prefixes[i] <= prefixes[j]) && !(prefixes[j] <= prefixes[i])
  }

  lemma RankIsUnambiguous(prefixes: seq<string>, note: string, i: nat)
    requires Exclusive(prefixes) && i < |prefixes| && prefixes[i] <= note
    ensures RankOf(prefixes, note) == i
  {
    var r := RankOf(prefixes, note);
    OneInsideTheOther(prefixes[r], prefixes[i], note);
  }

  lemma OneInsideTheOther(a: string, b: string, note: string)
    requires a <= note && b <= note
    ensures a <= b || b <= a
  {
    assert forall k :: 0 <= k < |a| ==> a[k] == note[k];
    assert forall k :: 0 <= k < |b| ==> b[k] == note[k];
  }

  // --- sorting ---------------------------------------------------------------------------------

  /** The notes of one rank, in their order. */
  function OfRank(notes: seq<string>, prefixes: seq<string>, r: nat): (out: seq<string>)
  {
    if notes == [] then []
    else
      var last := notes[|notes| - 1];
      OfRank(notes[..|notes| - 1], prefixes, r) + (if RankOf(prefixes, last) == r then [last] else [])
  }

  /** All notes of rank `r` and later, rank by rank: what a stable sort by rank has to produce. */
  function ByRank(notes: seq<string>, prefixes: seq<string>, r: nat): (out: seq<string>)
    decreases |prefixes| - r
  {
    if r > |prefixes| then [] else OfRank(notes, prefixes, r) + ByRank(notes, prefixes, r + 1)
  }

  /** sort.SliceStable by rank: a note goes after every earlier note that does not rank above it. */
  function Placed(sorted: seq<string>, prefixes: seq<string>, note: string): (out: seq<string>)
  {
    if sorted != [] && RankOf(prefixes, note) < RankOf(prefixes, sorted[|sorted| - 1]) then
      Placed(sorted[..|sorted| - 1], prefixes, note) + [sorted[|sorted| - 1]]
    else sorted + [note]
  }

  function SortedNotes(notes: seq<string>, prefixes: seq<string>): (out: seq<string>)
  {
    if notes == [] then []
    else Placed(SortedNotes(notes[..|notes| - 1], prefixes), prefixes, notes[|notes| - 1])
  }

  ghost predicate AllRank(notes: seq<string>, prefixes: seq<string>, r: nat)
  {
    forall n :: n in notes ==> RankOf(prefixes, n) >= r
  }

  lemma {:induction false} PlacedBefore(a: seq<string>, b: seq<string>, prefixes: seq<string>, note: string)
    requires AllRank(b, prefixes, RankOf(prefixes, note) + 1)
    ensures Placed(a + b, prefixes, note) == Placed(a, prefixes, note) + b
  {
    if b == [] {
      assert a + b == a && Placed(a, prefixes, note) + b == Placed(a, prefixes, note);
    } else {
      var last := b[|b| - 1];
      assert last in b;
      assert (a + b)[..|a + b| - 1] == a + b[..|b| - 1];
      PlacedBefore(a, b[..|b| - 1], prefixes, note);
      assert b == b[..|b| - 1] + [last];
    }
  }

  lemma PlacedLast(a: seq<string>, prefixes: seq<string>, note: string)
    requires forall n :: n in a ==> RankOf(prefixes, n) <= RankOf(prefixes, note)
    ensures Placed(a, prefixes, note) == a + [note]
  {
    if a != [] {
      assert a[|a| - 1] in a;
    }
  }

  lemma {:induction false} OfRankHasRank(notes: seq<string>, prefixes: seq<string>, r: nat)
    ensures forall n :: n in OfRank(notes, prefixes, r) ==> RankOf(prefixes, n) == r
  {
    if notes != [] {
      OfRankHasRank(notes[..|notes| - 1], prefixes, r);
    }
  }

  lemma {:induction false} ByRankHasRanks(notes: seq<string>, prefixes: seq<string>, r: nat)
    ensures AllRank(ByRank(notes, prefixes, r), prefixes, r)
    decreases |prefixes| - r
  {
    if r <= |prefixes| {
      OfRankHasRank(notes, prefixes, r);
      ByRankHasRanks(notes, prefixes, r + 1);
    }
  }

  lemma OfRankSnoc(notes: seq<string>, prefixes: seq<string>, note: string, r: nat)
    ensures OfRank(notes + [note], prefixes, r)
         == OfRank(notes, prefixes, r) + (if RankOf(prefixes, note) == r then [note] else [])
  {
    assert (notes + [note])[..|notes|] == notes;
  }

  lemma {:induction false} ByRankAbove(notes: seq<string>, prefixes: seq<string>, note: string, r: nat)
    requires RankOf(prefixes, note) < r
    ensures ByRank(notes + [note], prefixes, r) == ByRank(notes, prefixes, r)
    decreases |prefixes| - r
  {
    if r <= |prefixes| {
      OfRankSnoc(notes, prefixes, note, r);
      ByRankAbove(notes, prefixes, note, r + 1);
    }
  }

  lemma {:induction false} PlacedAfterLower(a: seq<string>, b: seq<string>, prefixes: seq<string>, note: string)
    requires forall n :: n in a ==> RankOf(prefixes, n) < RankOf(prefixes, note)
    ensures Placed(a + b, prefixes, note) == a + Placed(b, prefixes, note)
    decreases |b|
  {
    if b == [] {
      assert a + b == a;
      PlacedLast(a, prefixes, note);
    } else {
      var last := b[|b| - 1];
      assert (a + b)[..|a + b| - 1] == a + b[..|b| - 1];
      if RankOf(prefixes, note) < RankOf(prefixes, last) {
        PlacedAfterLower(a, b[..|b| - 1], prefixes, note);
        assert a + (Placed(b[..|b| - 1], prefixes, note) + [last]) == a + Placed(b[..|b| - 1], prefixes, note) + [last];
      } else {
        assert a + b + [note] == a + (b + [note]);
      }
    }
  }

  lemma ByRankSplits(notes: seq<string>, prefixes: seq<string>, r: nat)
    requires r <= |prefixes|
    ensures ByRank(notes, prefixes, r) == OfRank(notes, prefixes, r) + ByRank(notes, prefixes, r + 1)
  {
  }

  lemma PlacedInOwnRank(notes: seq<string>, prefixes: seq<string>, note: string)
    ensures var r := RankOf(prefixes, note);
            Placed(ByRank(notes, prefixes, r), prefixes, note) == ByRank(notes + [note], prefixes, r)
  {
    var r := RankOf(prefixes, note);
    var here, later := OfRank(notes, prefixes, r), ByRank(notes, prefixes, r + 1);
    ByRankSplits(notes, prefixes, r);
    ByRankSplits(notes + [note], prefixes, r);
    hide OfRank, Placed, ByRank, RankOf;
    OfRankSnoc(notes, prefixes, note, r);
    OfRankHasRank(notes, prefixes, r);
    ByRankHasRanks(notes, prefixes, r + 1);
    PlacedBefore(here, later, prefixes, note);
    PlacedLast(here, prefixes, note);
    ByRankAbove(notes, prefixes, note, r + 1);
  }

  lemma {:induction false} PlacedByRank(notes: seq<string>, prefixes: seq<string>, note: string, r: nat)
    requires r <= RankOf(prefixes, note)
    ensures Placed(ByRank(notes, prefixes, r), prefixes, note) == ByRank(notes + [note], prefixes, r)
    decreases |prefixes| - r
  {
    hide OfRank, RankOf, Placed;
    if RankOf(prefixes, note) == r {
      PlacedInOwnRank(notes, prefixes, note);
    } else {
      var here, later := OfRank(notes, prefixes, r), ByRank(notes, prefixes, r + 1);
      OfRankSnoc(notes, prefixes, note, r);
      OfRankHasRank(notes, prefixes, r);
      PlacedAfterLower(here, later, prefixes, note);
      PlacedByRank(notes, prefixes, note, r + 1);
      assert here + [] == here;
    }
  }

  /** A stable sort by rank is the notes of each rank in turn, each group in its original order. */
  lemma {:induction false} SortIsByRank(notes: seq<string>, prefixes: seq<string>)
    ensures SortedNotes(notes, prefixes) == ByRank(notes, prefixes, 0)
  {
    hide ByRank, Placed;
    if notes == [] {
      NothingByRank(prefixes, 0);
    } else {
      var init, last := notes[..|notes| - 1], notes[|notes| - 1];
      SortIsByRank(init, prefixes);
      PlacedByRank(init, prefixes, last, 0);
      assert init + [last] == notes;
    }
  }

  lemma {:induction false} NothingByRank(prefixes: seq<string>, r: nat)
    ensures ByRank([], prefixes, r) == []
    decreases |prefixes| - r
  {
    if r <= |prefixes| {
      NothingByRank(prefixes, r + 1);
    }
  }

  lemma {:induction false} PlacedPermutes(sorted: seq<string>, prefixes: seq<string>, note: string)
    ensures multiset(Placed(sorted, prefixes, note)) == multiset(sorted) + multiset{note}
  {
    if sorted != [] && RankOf(prefixes, note) < RankOf(prefixes, sorted[|sorted| - 1]) {
      PlacedPermutes(sorted[..|sorted| - 1], prefixes, note);
      assert sorted == sorted[..|sorted| - 1] + [sorted[|sorted| - 1]];
    }
  }

  lemma {:induction false} SortPermutes(notes: seq<string>, prefixes: seq<string>)
    ensures multiset(SortedNotes(notes, prefixes)) == multiset(notes)
    ensures |SortedNotes(notes, prefixes)| == |notes|
  {
    if notes != [] {
      SortPermutes(notes[..|notes| - 1], prefixes);
      PlacedPermutes(SortedNotes(notes[..|notes| - 1], prefixes), prefixes, notes[|notes| - 1]);
      assert notes == notes[..|notes| - 1] + [notes[|notes| - 1]];
    }
    assert |multiset(SortedNotes(notes, prefixes))| == |multiset(notes)|;
  }

  // --- determinism --------------------------------------------------------------------------------

  lemma {:induction false} OfRankConcat(a: seq<string>, b: seq<string>, prefixes: seq<string>, r: nat)
    ensures OfRank(a + b, prefixes, r) == OfRank(a, prefixes, r) + OfRank(b, prefixes, r)
    decreases |b|
  {
    hide RankOf;
    if b == [] {
      assert a + b == a;
    } else {
      var init, last := b[..|b| - 1], b[|b| - 1];
      OfRankConcat(a, init, prefixes, r);
      assert a + b == a + init + [last] && b == init + [last];
      OfRankSnoc(a + init, prefixes, last, r);
      OfRankSnoc(init, prefixes, last, r);
    }
  }

  lemma {:induction false} OfRankMembers(notes: seq<string>, prefixes: seq<string>, r: nat)
    ensures forall n :: n in OfRank(notes, prefixes, r) <==> n in notes && RankOf(prefixes, n) == r
  {
    if notes != [] {
      OfRankMembers(notes[..|notes| - 1], prefixes, r);
      assert notes == notes[..|notes| - 1] + [notes[|notes| - 1]];
    }
  }

  /** No two notes share a rank. */
  ghost predicate OnePerRank(notes: seq<string>, prefixes: seq<string>)
  {
    forall i, j :: 0 <= i < j < |notes| ==> RankOf(prefixes, notes[i]) != RankOf(prefixes, notes[j])
  }

  lemma {:induction false} NoneOfRank(notes: seq<string>, prefixes: seq<string>, r: nat)
    requires forall i :: 0 <= i < |notes| ==> RankOf(prefixes, notes[i]) != r
    ensures OfRank(notes, prefixes, r) == []
  {
    if notes != [] {
      NoneOfRank(notes[..|notes| - 1], prefixes, r);
    }
  }

  lemma {:induction false} OnePerRankIsShort(notes: seq<string>, prefixes: seq<string>, r: nat)
    requires OnePerRank(notes, prefixes)
    ensures |OfRank(notes, prefixes, r)| <= 1
  {
    if notes != [] {
      var init, last := notes[..|notes| - 1], notes[|notes| - 1];
      if RankOf(prefixes, last) == r {
        NoneOfRank(init, prefixes, r);
      } else {
        OnePerRankIsShort(init, prefixes, r);
      }
    }
  }

  lemma SameSmallGroup(x: seq<string>, y: seq<string>)
    requires |x| <= 1 && |y| <= 1 && forall n :: n in x <==> n in y
    ensures x == y
  {
    assert x != [] ==> x[0] in x;
    assert y != [] ==> y[0] in y;
  }

  lemma SameGroups(before: seq<string>, a: seq<string>, b: seq<string>, prefixes: seq<string>, r: nat)
    requires multiset(a) == multiset(b) && OnePerRank(a, prefixes) && OnePerRank(b, prefixes)
    ensures OfRank(before + a, prefixes, r) == OfRank(before + b, prefixes, r)
  {
    hide OfRank, RankOf;
    OfRankConcat(before, a, prefixes, r);
    OfRankConcat(before, b, prefixes, r);
    OnePerRankIsShort(a, prefixes, r);
    OnePerRankIsShort(b, prefixes, r);
    OfRankMembers(a, prefixes, r);
    OfRankMembers(b, prefixes, r);
    forall n ensures n in OfRank(a, prefixes, r) <==> n in OfRank(b, prefixes, r) {
      assert n in multiset(a) <==> n in multiset(b);
    }
    SameSmallGroup(OfRank(a, prefixes, r), OfRank(b, prefixes, r));
  }

  lemma {:induction false} SameByRank(before: seq<string>, a: seq<string>, b: seq<string>, prefixes: seq<string>, r: nat)
    requires multiset(a) == multiset(b) && OnePerRank(a, prefixes) && OnePerRank(b, prefixes)
    ensures ByRank(before + a, prefixes, r) == ByRank(before + b, prefixes, r)
    decreases |prefixes| - r
  {
    if r <= |prefixes| {
      SameGroups(before, a, b, prefixes, r);
      SameByRank(before, a, b, prefixes, r + 1);
    }
  }

  /** Whatever was noted before, the order in which at most one note per prefix arrives is lost in sorting. */
  lemma ArrivalOrderIsLost(before: seq<string>, a: seq<string>, b: seq<string>, prefixes: seq<string>)
    requires multiset(a) == multiset(b) && OnePerRank(a, prefixes) && OnePerRank(b, prefixes)
    ensures SortedNotes(before + a, prefixes) == SortedNotes(before + b, prefixes)
  {
    SortIsByRank(before + a, prefixes);
    SortIsByRank(before + b, prefixes);
    SameByRank(before, a, b, prefixes, 0);
  }

  // --- the prefixes every caller supplies ------------------------------------------------------------

  ghost predicate DistinctDomains(domains: seq<Domain>)
  {
    forall i, j :: 0 <= i < j < |domains| ==> domains[i] != domains[j]
  }

  lemma TitlesStartApart(d: Domain, e: Domain)
    ensures Title(DomainName(d)) != "" && Title(DomainName(d))[0] != PLAN_PREFIX[0]
    ensures d != e ==> Title(DomainName(d))[0] != Title(DomainName(e))[0]
  {
  }

  lemma ApartIsExclusive(prefixes: seq<string>)
    requires forall i :: 0 <= i < |prefixes| ==> prefixes[i] != ""
    requires forall i, j :: 0 <= i < j < |prefixes| ==> prefixes[i][0] != prefixes[j][0]
    ensures Exclusive(prefixes)
  {
  }

  /** The order every caller sorts by has no prefix inside another. */
  lemma NoteOrderIsExclusive(domains: seq<Domain>)
    requires DistinctDomains(domains)
    ensures Exclusive(NoteOrder(domains))
  {
    hide Title, DomainName;
    var prefixes := NoteOrder(domains);
    forall i | 0 <= i < |prefixes| ensures prefixes[i] != "" {
      if i > 0 {
        TitlesStartApart(domains[i - 1], domains[i - 1]);
      }
    }
    forall i, j | 0 <= i < j < |prefixes| ensures prefixes[i][0] != prefixes[j][0] {
      TitlesStartApart(domains[j - 1], domains[if i == 0 then j - 1 else i - 1]);
    }
    ApartIsExclusive(prefixes);
  }

  /** An investigator's note ranks by its domain. */
  lemma FindingsRank(domains: seq<Domain>, i: nat, text: string)
    requires DistinctDomains(domains) && i < |domains|
    ensures RankOf(NoteOrder(domains), FindingsNote(domains[i], text)) == i + 1
  {
    hide Title, DomainName, NoteOrder, RankOf, Exclusive;
    NoteOrderIsExclusive(domains);
    var note := FindingsNote(domains[i], text);
    assert note == Title(DomainName(domains[i])) + (" findings:\n" + text);
    RankIsUnambiguous(NoteOrder(domains), note, i + 1);
  }

  lemma Titled(s: string, first: char, rest: string)
    requires 'A' <= first <= 'Z' && s == [(first as int + 32) as char] + rest
    ensures Title(s) == [first] + rest
  {
    assert s[1..] == rest;
  }

  lemma TitledNote(d: Domain, first: char, rest: string, text: string)
    requires 'A' <= first <= 'Z' && DomainName(d) == [(first as int + 32) as char] + rest
    ensures FindingsNote(d, text) == [first] + rest + " findings:\n" + text
  {
    Titled(DomainName(d), first, rest);
    hide Title, DomainName;
  }

  /** The words on a note tell whose it is. */
  lemma NotesAreTitled(text: string)
    ensures FindingsNote(Metrics, text) == "M" + "etrics" + " findings:\n" + text
    ensures FindingsNote(Logs, text) == "L" + "ogs" + " findings:\n" + text
    ensures FindingsNote(Cluster, text) == "C" + "luster" + " findings:\n" + text
    ensures FindingsNote(Host, text) == "H" + "ost" + " findings:\n" + text
    ensures FindingsNote(Source, text) == "S" + "ource" + " findings:\n" + text
  {
    hide FindingsNote;
    TitledNote(Metrics, 'M', "etrics", text);
    TitledNote(Logs, 'L', "ogs", text);
    TitledNote(Cluster, 'C', "luster", text);
    TitledNote(Host, 'H', "ost", text);
    TitledNote(Source, 'S', "ource", text);
  }
}
