/** Knowledge packs as data, the references inside them, and the check that admits one at load. */
module Packs {
  import opened Basics
  import opened GoStrings
  import opened Overlap

  // --- the data ---------------------------------------------------------------

  datatype Text = Text(en: string, zh: string)
  {
    predicate Empty() { Blank(en) && Blank(zh) }

    predicate Complete() { !Blank(en) && !Blank(zh) }

    /** The text in one language, falling back to English. */
    function In(lang: string): (s: string)
    {
      if lang == "zh" && !Blank(zh) then zh else if !Blank(en) then en else zh
    }
  }

  datatype Signal = Signal(id: string, versionRange: string, promql: string, description: Text)

  datatype LogPattern = LogPattern(id: string, versionRange: string, regex: string, severity: string, meaning: Text)

  datatype Advice = Advice(risk: string, statement: Text, rationale: Text)

  datatype FailureMode = FailureMode(
    id: string, versionRange: string, title: Text, explanation: Text, severity: string,
    recommendations: seq<Advice>)

  datatype StepFinding = StepFinding(severity: string, confidence: real, statement: Text, detail: Text)

  datatype Arg = Str(text: string) | Other(tag: int)

  datatype Collect = Collect(tool: string, args: map<string, Arg>, slot: string)

  datatype Branch = Branch(finding: Option<StepFinding>, pass: Text, stop: bool)

  datatype Conclude = Conclude(failureMode: string, condition: string)

  datatype Step = Step(
    id: string, versionRange: string, collect: Option<Collect>, evaluate: string,
    onTrue: Option<Branch>, onFalse: Option<Branch>, conclude: Option<Conclude>)

  datatype Playbook = Playbook(id: string, versionRange: string, title: Text, steps: seq<Step>)

  datatype Inspect = Inspect(id: string, versionRange: string, binary: string, args: seq<string>, description: Text)

  datatype Metadata = Metadata(
    middleware: string, name: string, version: string, versionRange: string, resolvedFor: string)

  datatype Pack = Pack(
    apiVersion: string, kind: string, metadata: Metadata,
    signals: seq<Signal>, logPatterns: seq<LogPattern>, failureModes: seq<FailureMode>,
    playbooks: seq<Playbook>, inspect: seq<Inspect>)

  // --- rule keys: an id and the range it is declared for ------------------------

  datatype Key = Key(id: string, range: string)

  function Keys<T>(rules: seq<T>, key: T -> Key): (keys: seq<Key>)
    ensures |keys| == |rules|
    ensures forall i :: 0 <= i < |rules| ==> keys[i] == key(rules[i])
  {
    seq(|rules|, i requires 0 <= i < |rules| => key(rules[i]))
  }

  function Ids(keys: seq<Key>): (r: set<string>)
  {
    set k | k in keys :: k.id
  }

  function SignalKey(s: Signal): (r: Key) { Key(s.id, s.versionRange) }

  function PatternKey(lp: LogPattern): (r: Key) { Key(lp.id, lp.versionRange) }

  function ModeKey(f: FailureMode): (r: Key) { Key(f.id, f.versionRange) }

  function PlaybookKey(pb: Playbook): (r: Key) { Key(pb.id, pb.versionRange) }

  function StepKey(st: Step): (r: Key) { Key(st.id, st.versionRange) }

  function InspectKey(n: Inspect): (r: Key) { Key(n.id, n.versionRange) }

  // --- {{signal:id}} references ---------------------------------------------------

  predicate IsRefChar(c: char)
  {
    'A' <= c <= 'Z' || 'a' <= c <= 'z' || '0' <= c <= '9' || c == '_' || c == '.' || c == '-'
  }

  function RefRun(s: string): (n: nat)
    ensures n <= |s|
  {
    if s == "" || !IsRefChar(s[0]) then 0 else 1 + RefRun(s[1..])
  }

  const REF_OPEN := "{{signal:"
  const REF_CLOSE := "}}"

  /** The id of the reference a text starts with, if it starts with one. */
  function RefAt(s: string): (r: Option<string>)
    ensures r.Some? ==> r.value != "" && REF_OPEN + r.value + REF_CLOSE <= s
  {
    if REF_OPEN <= s then
      var rest := s[|REF_OPEN|..];
      var n := RefRun(rest);
      if n > 0 && REF_CLOSE <= rest[n..] then
        assert s == REF_OPEN + rest[..n] + rest[n..];
        Some(rest[..n])
      else None
    else None
  }

  datatype Piece = Plain(c: char) | Ref(id: string)

  /** A text cut into its references, leftmost first, and the characters between them. */
  function Pieces(s: string): (out: seq<Piece>)
    decreases |s|
  {
    if s == "" then []
    else match RefAt(s)
      case Some(id) => [Ref(id)] + Pieces(s[|REF_OPEN| + |id| + |REF_CLOSE|..])
      case None => [Plain(s[0])] + Pieces(s[1..])
  }

  function RefsIn(s: string): (r: set<string>)
  {
    set p | p in Pieces(s) && p.Ref? :: p.id
  }

  /** refsResolve: every reference in the arguments names one of `signals`. */
  predicate RefsResolve(args: map<string, Arg>, signals: set<string>)
  {
    forall k :: k in args && args[k].Str? ==> RefsIn(args[k].text) <= signals
  }

  function FirstSignal(signals: seq<Signal>, id: string): (r: Option<Signal>)
    ensures r.None? <==> id !in Ids(Keys(signals, SignalKey))
    ensures r.Some? ==> r.value in signals && r.value.id == id
  {
    if signals == [] then None
    else
      var keys, tail := Keys(signals, SignalKey), Keys(signals[1..], SignalKey);
      assert keys == [keys[0]] + tail;
      if signals[0].id == id then assert keys[0] in keys; Some(signals[0])
      else FirstSignal(signals[1..], id)
  }

  function Render(pieces: seq<Piece>): (s: string)
  {
    if pieces == [] then ""
    else (match pieces[0] case Plain(c) => [c] case Ref(id) => REF_OPEN + id + REF_CLOSE) + Render(pieces[1..])
  }

  /** Cutting a text into pieces loses nothing, so references are found exactly where they stand. */
  lemma {:induction false} PiecesRender(s: string)
    ensures Render(Pieces(s)) == s
    decreases |s|
  {
    hide RefAt;
    if s != "" {
      match RefAt(s) {
        case Some(id) =>
          var ref := REF_OPEN + id + REF_CLOSE;
          var rest := s[|ref|..];
          PiecesRender(rest);
          assert s == ref + rest;
          assert Pieces(s) == [Ref(id)] + Pieces(rest);
          assert Pieces(s)[1..] == Pieces(rest);
        case None =>
          PiecesRender(s[1..]);
          assert Pieces(s)[1..] == Pieces(s[1..]);
      }
    }
  }

  /** The text with every reference replaced by its signal's expression; an unknown one is left as it is. */
  function Substituted(pieces: seq<Piece>, signals: seq<Signal>): (s: string)
  {
    if pieces == [] then ""
    else
      (match pieces[0]
       case Plain(c) => [c]
       case Ref(id) =>
         var found := FirstSignal(signals, id);
         if found.Some? then found.value.promql else REF_OPEN + id + REF_CLOSE)
      + Substituted(pieces[1..], signals)
  }

  const SELECTOR := "{{.selector}}"

  function ExpandedArg(a: Arg, signals: seq<Signal>, selector: string): (r: Arg)
  {
    match a
    case Other(_) => a
    case Str(text) => Str(ReplaceAll(Substituted(Pieces(text), signals), SELECTOR, selector))
  }

  function ExpandedArgs(args: map<string, Arg>, signals: seq<Signal>, selector: string): (r: Result<map<string, Arg>>)
  {
    if RefsResolve(args, Ids(Keys(signals, SignalKey))) then
      Ok(map k | k in args :: ExpandedArg(args[k], signals, selector))
    else Err("MAS-5012")
  }

  /** Pack.ExpandSignals: it succeeds exactly when every reference names a signal the pack has. */
  method ExpandSignals(args: map<string, Arg>, signals: seq<Signal>, selector: string) returns (r: Result<map<string, Arg>>)
    ensures r == ExpandedArgs(args, signals, selector)
  {
    hide Pieces, Substituted, ReplaceAll, Keys, Ids;
    var out: map<string, Arg> := map[];
    var todo := args.Keys;
    while todo != {}
      invariant todo <= args.Keys
      invariant out.Keys == args.Keys - todo
      invariant forall k :: k in out ==> out[k] == ExpandedArg(args[k], signals, selector)
      invariant forall k :: k in out && args[k].Str? ==> RefsIn(args[k].text) <= Ids(Keys(signals, SignalKey))
    {
      var k :| k in todo;
      todo := todo - {k};
      match args[k] {
        case Other(_) =>
          out := out[k := args[k]];
        case Str(text) =>
          if exists id :: id in RefsIn(text) && FirstSignal(signals, id).None? {
            return Err("MAS-5012");
          }
          out := out[k := Str(ReplaceAll(Substituted(Pieces(text), signals), SELECTOR, selector))];
      }
    }
    assert out == map k | k in args :: ExpandedArg(args[k], signals, selector);
    return Ok(out);
  }

  // --- the variant rule ------------------------------------------------------------

  /** Two declarations of one id that may not stand together. */
  predicate Clash(prior: string, range: string)
  {
    Blank(prior) || Blank(range) || Overlapping(prior, range)
  }

  /** An id repeats only as scoped variants whose ranges do not overlap. */
  ghost predicate VariantsOk(keys: seq<Key>)
  {
    forall i, j :: 0 <= i < j < |keys| && keys[i].id == keys[j].id ==> !Clash(keys[i].range, keys[j].range)
  }

  function RangesOf(keys: seq<Key>, id: string): (out: seq<string>)
  {
    if keys == [] then []
    else
      var last := keys[|keys| - 1];
      RangesOf(keys[..|keys| - 1], id) + (if last.id == id then [last.range] else [])
  }

  lemma {:induction false} RangesOfMembers(keys: seq<Key>, id: string)
    ensures forall r :: r in RangesOf(keys, id) <==> Key(id, r) in keys
  {
    if keys != [] {
      RangesOfMembers(keys[..|keys| - 1], id);
      assert keys == keys[..|keys| - 1] + [keys[|keys| - 1]];
    }
  }

  lemma VariantsOkSnoc(keys: seq<Key>, k: Key)
    ensures VariantsOk(keys + [k])
            <==> VariantsOk(keys) && forall r :: r in RangesOf(keys, k.id) ==> !Clash(r, k.range)
  {
    RangesOfMembers(keys, k.id);
    var all := keys + [k];
    if VariantsOk(all) {
      forall i, j | 0 <= i < j < |keys| && keys[i].id == keys[j].id ensures !Clash(keys[i].range, keys[j].range) {
        assert all[i] == keys[i] && all[j] == keys[j];
      }
      forall r | r in RangesOf(keys, k.id) ensures !Clash(r, k.range) {
        var i :| 0 <= i < |keys| && keys[i] == Key(k.id, r);
        assert all[i] == keys[i] && all[|keys|] == k;
      }
    }
    if VariantsOk(keys) && forall r :: r in RangesOf(keys, k.id) ==> !Clash(r, k.range) {
      forall i, j | 0 <= i < j < |all| && all[i].id == all[j].id ensures !Clash(all[i].range, all[j].range) {
        if j == |keys| {
          assert all[i] in keys && all[i] == Key(k.id, all[i].range);
        }
      }
    }
  }

  lemma VariantsOkPrefix(keys: seq<Key>, n: nat)
    requires n <= |keys| && VariantsOk(keys)
    ensures VariantsOk(keys[..n])
  {
  }

  class IdTracker {
    var seen: map<string, seq<string>>
    var paths: map<string, seq<string>>

    constructor ()
      ensures Tracks([])
    {
      seen, paths := map[], map[];
    }

    /** The ranges declared for an id so far, in order. */
    function Ranges(id: string): (out: seq<string>)
      reads this
    {
      if id in seen then seen[id] else []
    }

    ghost predicate Tracks(keys: seq<Key>)
      reads this
    {
      Recorded(seen, keys) && paths.Keys == seen.Keys && forall id :: id in seen ==> |seen[id]| == |paths[id]|
    }

    /** idTracker.declared. */
    predicate Declared(id: string)
      reads this
    {
      |Ranges(id)| > 0
    }

    /** idTracker.add. */
    method Add(id: string, versionRange: string, path: string, ghost keys: seq<Key>) returns (err: Option<string>)
      requires Tracks(keys) && VariantsOk(keys)
      modifies this
      ensures err.None? <==> VariantsOk(keys + [Key(id, versionRange)])
      ensures err.None? ==> Tracks(keys + [Key(id, versionRange)])
      ensures err.Some? ==> seen == old(seen) && paths == old(paths)
      ensures err.Some? ==> exists i :: FirstClash(old(Ranges(id)), versionRange, i)
                                        && err == Some(ClashCode(old(Ranges(id))[i], versionRange))
    {
      hide VariantsOk, RangesOf, Ids, Clash;
      var ranges := Ranges(id);
      VariantsOkSnoc(keys, Key(id, versionRange));
      err := ConflictWith(ranges, versionRange);
      if err.None? {
        RecordedKeys(seen, keys, Key(id, versionRange));
        seen := seen[id := ranges + [versionRange]];
        paths := paths[id := (if id in paths then paths[id] else []) + [path]];
      }
    }
  }

  /** The map a tracker keeps: every declared id with its ranges in order. */
  ghost predicate Recorded(seen: map<string, seq<string>>, keys: seq<Key>)
  {
    && (forall id :: id in seen <==> id in Ids(keys))
    && (forall id :: id in seen ==> seen[id] == RangesOf(keys, id))
    && (forall id :: id !in seen ==> RangesOf(keys, id) == [])
  }

  lemma IdsSnoc(keys: seq<Key>, k: Key)
    ensures Ids(keys + [k]) == Ids(keys) + {k.id}
  {
    var all := keys + [k];
    forall id ensures id in Ids(all) <==> id in Ids(keys) || id == k.id {
      if id == k.id {
        assert k in all;
      }
      if id in Ids(keys) {
        var x :| x in keys && x.id == id;
        assert x in all;
      }
    }
  }

  lemma RangesSnoc(keys: seq<Key>, k: Key, id: string)
    ensures RangesOf(keys + [k], id) == RangesOf(keys, id) + (if id == k.id then [k.range] else [])
  {
    assert (keys + [k])[..|keys|] == keys;
  }

  lemma RecordedKeys(seen: map<string, seq<string>>, keys: seq<Key>, k: Key)
    requires Recorded(seen, keys)
    ensures Recorded(seen[k.id := (if k.id in seen then seen[k.id] else []) + [k.range]], keys + [k])
  {
    hide Ids, RangesOf;
    IdsSnoc(keys, k);
    forall id ensures RangesOf(keys + [k], id) == RangesOf(keys, id) + (if id == k.id then [k.range] else []) {
      RangesSnoc(keys, k, id);
    }
  }

  /** The error a new range draws from the declarations already made for its id, if any. */
  method ConflictWith(ranges: seq<string>, versionRange: string) returns (err: Option<string>)
    ensures err.None? <==> forall r :: r in ranges ==> !Clash(r, versionRange)
    ensures err.Some? ==> exists i :: FirstClash(ranges, versionRange, i)
                                      && err == Some(ClashCode(ranges[i], versionRange))
  {
    hide Overlapping;
    for i := 0 to |ranges|
      invariant forall j :: 0 <= j < i ==> !Clash(ranges[j], versionRange)
    {
      var prior := ranges[i];
      if Blank(prior) || Blank(versionRange) {
        assert FirstClash(ranges, versionRange, i);
        return Some("MAS-5001");
      }
      var overlap := RangesOverlap(prior, versionRange);
      if overlap {
        assert FirstClash(ranges, versionRange, i);
        return Some("MAS-5016");
      }
    }
    return None;
  }

  ghost predicate FirstClash(ranges: seq<string>, range: string, i: int)
  {
    0 <= i < |ranges| && Clash(ranges[i], range) && forall j :: 0 <= j < i ==> !Clash(ranges[j], range)
  }

  function ClashCode(prior: string, range: string): (s: string)
  {
    if Blank(prior) || Blank(range) then "MAS-5001" else "MAS-5016"
  }
}
