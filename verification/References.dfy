/** References in a text: where they are found, and what expansion puts in their place. */
module References {
  import opened Basics
  import opened GoStrings
  import opened Packs

  predicate IdChar(c: char)
  {
    'a' <= c <= 'z' || 'A' <= c <= 'Z' || '0' <= c <= '9' || c in {'_', '.', '-'}
  }

  lemma IdCharsAreRefChars()
    ensures forall c :: IdChar(c) <==> IsRefChar(c)
  {
  }

  /** What may stand between the braces. */
  predicate IdText(id: string)
  {
    id != "" && forall i :: 0 <= i < |id| ==> IdChar(id[i])
  }

  function RefText(id: string): (s: string)
  {
    "{{signal:" + id + "}}"
  }

  // --- finding them ---------------------------------------------------------------------------

  lemma {:induction false} RunOf(id: string, rest: string)
    requires (forall i :: 0 <= i < |id| ==> IsRefChar(id[i])) && (rest == "" || !IsRefChar(rest[0]))
    ensures RefRun(id + rest) == |id|
  {
    hide IsRefChar;
    if id == "" {
      assert id + rest == rest;
    } else {
      assert (id + rest)[1..] == id[1..] + rest;
      RunOf(id[1..], rest);
    }
  }

  lemma {:induction false} RunChars(s: string)
    ensures forall i :: 0 <= i < RefRun(s) ==> IsRefChar(s[i])
  {
    hide IsRefChar;
    if s != "" && IsRefChar(s[0]) {
      RunChars(s[1..]);
    }
  }

  lemma FoundAtStart(id: string, rest: string)
    requires IdText(id)
    ensures RefAt(RefText(id) + rest) == Some(id)
  {
    var s := RefText(id) + rest;
    BraceIsNoRefChar();
    IdCharsAreRefChars();
    assert s == REF_OPEN + (id + ("}}" + rest));
    hide IsRefChar, IdChar;
    assert s[|REF_OPEN|..] == id + ("}}" + rest);
    RunOf(id, "}}" + rest);
    assert (id + ("}}" + rest))[..|id|] == id && (id + ("}}" + rest))[|id|..] == "}}" + rest;
  }

  lemma BraceIsNoRefChar()
    ensures !IsRefChar('}') && !IsRefChar('{')
  {
  }

  lemma FoundIsText(s: string)
    requires RefAt(s).Some?
    ensures IdText(RefAt(s).value) && RefText(RefAt(s).value) <= s
  {
    IdCharsAreRefChars();
    hide IsRefChar, IdChar;
    RunChars(s[|REF_OPEN|..]);
  }

  /** Braces stand only at the beginning of a reference, so none begins inside another or reaches into one. */
  lemma BracesOf(id: string, i: nat)
    requires IdText(id) && i < |RefText(id)| && RefText(id)[i] == '{'
    ensures i <= 1
  {
    BraceIsNoRefChar();
    IdCharsAreRefChars();
    var open := "{{signal:";
    hide IsRefChar, IdChar;
    assert forall k :: |open| <= k < |open| + |id| ==> RefText(id)[k] == id[k - |open|];
  }

  lemma NotReachingIn(x: string, id: string, y: string, other: string)
    requires x != "" && IdText(id) && IdText(other) && RefText(other) <= x + RefText(id) + y
    ensures RefText(other) <= x
  {
    var full, r := x + RefText(id) + y, RefText(other);
    hide IdText;
    assert full[|x|] == RefText(id)[0] == '{' && full[|x| + 1] == RefText(id)[1] == '{';
    assert r[2] == full[2] && r[2] == 's';
    if |r| > |x| {
      assert r[|x|] == full[|x|];
      BracesOf(other, |x|);
      assert false;
    }
    assert forall i :: 0 <= i < |r| ==> r[i] == full[i] == x[i];
  }

  lemma FoundBefore(x: string, id: string, y: string)
    requires x != "" && IdText(id)
    ensures RefAt(x + RefText(id) + y) == RefAt(x)
  {
    hide RefAt, RefText, IdText;
    var full := x + RefText(id) + y;
    if RefAt(x).Some? {
      var other := RefAt(x).value;
      FoundIsText(x);
      assert full == RefText(other) + full[|RefText(other)|..];
      FoundAtStart(other, full[|RefText(other)|..]);
    }
    if RefAt(full).Some? {
      var other := RefAt(full).value;
      FoundIsText(full);
      NotReachingIn(x, id, y, other);
      assert x == RefText(other) + x[|RefText(other)|..];
      FoundAtStart(other, x[|RefText(other)|..]);
    }
  }

  lemma PiecesStep(s: string)
    requires s != ""
    ensures Pieces(s) == match RefAt(s)
                         case Some(id) => [Ref(id)] + Pieces(s[|RefText(id)|..])
                         case None => [Plain(s[0])] + Pieces(s[1..])
  {
    hide RefAt;
  }

  /** A reference is found wherever it stands, and the text on both sides is read as if it were alone. */
  lemma {:induction false} PiecesAround(x: string, id: string, y: string)
    requires IdText(id)
    ensures Pieces(x + RefText(id) + y) == Pieces(x) + [Ref(id)] + Pieces(y)
    decreases |x|
  {
    hide RefAt, IdText, RefText, Pieces;
    var full := x + RefText(id) + y;
    if x == "" {
      FoundAtStart(id, y);
      assert full == RefText(id) + y && full[|RefText(id)|..] == y;
      NotEmpty(id);
      PiecesStep(full);
      NoPieces();
    } else {
      FoundBefore(x, id, y);
      PiecesStep(x);
      PiecesStep(full);
      match RefAt(x) {
        case Some(other) =>
          FoundIsText(x);
          NotEmpty(other);
          var n := |RefText(other)|;
          assert full[n..] == x[n..] + RefText(id) + y;
          PiecesAround(x[n..], id, y);
          Reassociated(Ref(other), Pieces(x[n..]), Ref(id), Pieces(y));
        case None =>
          assert full[1..] == x[1..] + RefText(id) + y;
          PiecesAround(x[1..], id, y);
          Reassociated(Plain(x[0]), Pieces(x[1..]), Ref(id), Pieces(y));
      }
    }
  }

  lemma Reassociated(p: Piece, a: seq<Piece>, r: Piece, b: seq<Piece>)
    ensures [p] + (a + [r] + b) == [p] + a + [r] + b
  {
  }

  lemma NotEmpty(id: string)
    ensures RefText(id) != ""
  {
  }

  lemma NoPieces()
    ensures Pieces("") == []
  {
  }

  lemma {:induction false} RenderBoth(a: seq<Piece>, b: seq<Piece>)
    ensures Render(a + b) == Render(a) + Render(b)
  {
    if a == [] {
      assert a + b == b;
    } else {
      assert (a + b)[1..] == a[1..] + b;
      RenderBoth(a[1..], b);
    }
  }

  lemma {:induction false} RefsAreIds(s: string)
    ensures forall p :: p in Pieces(s) && p.Ref? ==> IdText(p.id)
    decreases |s|
  {
    hide RefAt, IdText;
    if s != "" {
      match RefAt(s) {
        case Some(id) =>
          FoundIsText(s);
          RefsAreIds(s[|REF_OPEN| + |id| + |REF_CLOSE|..]);
        case None =>
          RefsAreIds(s[1..]);
      }
    }
  }

  ghost predicate StandsIn(id: string, s: string)
  {
    exists x, y :: s == x + RefText(id) + y
  }

  lemma RefCounts(s: string, p: Piece)
    requires p in Pieces(s) && p.Ref?
    ensures p.id in RefsIn(s)
  {
  }

  lemma RefStandsIn(s: string, id: string)
    requires id in RefsIn(s)
    ensures IdText(id) && StandsIn(id, s)
  {
    hide IdText, Pieces, RefText;
    var i :| 0 <= i < |Pieces(s)| && Pieces(s)[i] == Ref(id);
    var before, after := Pieces(s)[..i], Pieces(s)[i + 1..];
    assert Ref(id) in Pieces(s);
    RefsAreIds(s);
    assert Pieces(s) == before + ([Ref(id)] + after);
    PiecesRender(s);
    RenderBoth(before, [Ref(id)] + after);
    RenderBoth([Ref(id)], after);
    OneRendered(id);
    hide Render;
    assert Render(before) + (RefText(id) + Render(after)) == Render(before) + RefText(id) + Render(after);
  }

  /** The references of a text are exactly the ids that stand in it in the written form. */
  lemma RefsInMeaning(s: string, id: string)
    ensures id in RefsIn(s) <==> IdText(id) && StandsIn(id, s)
  {
    hide IdText, Pieces, RefText;
    if id in RefsIn(s) {
      RefStandsIn(s, id);
    }
    if IdText(id) && StandsIn(id, s) {
      var x, y :| s == x + RefText(id) + y;
      PiecesAround(x, id, y);
      RefCounts(s, Ref(id));
    }
  }

  lemma OneRendered(id: string)
    ensures Render([Ref(id)]) == RefText(id)
  {
    assert [Ref(id)][1..] == [];
    assert REF_OPEN + id + REF_CLOSE + "" == RefText(id);
  }

  // --- putting something in their place -----------------------------------------------------------

  lemma {:induction false} SubstitutedBoth(a: seq<Piece>, b: seq<Piece>, signals: seq<Signal>)
    ensures Substituted(a + b, signals) == Substituted(a, signals) + Substituted(b, signals)
  {
    hide FirstSignal;
    if a == [] {
      assert a + b == b;
    } else {
      assert (a + b)[1..] == a[1..] + b;
      SubstitutedBoth(a[1..], b, signals);
    }
  }

  /** The expression of the first signal of that id. */
  ghost predicate IsQuery(signals: seq<Signal>, id: string, query: string)
  {
    exists k :: 0 <= k < |signals| && signals[k].id == id && signals[k].promql == query
                && forall j :: 0 <= j < k ==> signals[j].id != id
  }

  lemma {:induction false} FirstIsFirst(signals: seq<Signal>, id: string)
    ensures FirstSignal(signals, id).Some? ==> IsQuery(signals, id, FirstSignal(signals, id).value.promql)
    ensures FirstSignal(signals, id).None? ==> forall k :: 0 <= k < |signals| ==> signals[k].id != id
  {
    if signals != [] && signals[0].id != id {
      FirstIsFirst(signals[1..], id);
      var found := FirstSignal(signals[1..], id);
      if found.Some? {
        var k :| 0 <= k < |signals| - 1 && signals[1..][k].id == id && signals[1..][k].promql == found.value.promql
                 && forall j :: 0 <= j < k ==> signals[1..][j].id != id;
        assert signals[k + 1] == signals[1..][k];
        forall j | 0 <= j < k + 1 ensures signals[j].id != id {
          assert j > 0 ==> signals[j] == signals[1..][j - 1];
        }
      } else {
        forall k | 0 <= k < |signals| ensures signals[k].id != id {
          assert k > 0 ==> signals[k] == signals[1..][k - 1];
        }
      }
    }
  }

  lemma QueryIsOne(signals: seq<Signal>, id: string, query: string)
    requires IsQuery(signals, id, query)
    ensures FirstSignal(signals, id).Some? && FirstSignal(signals, id).value.promql == query
  {
    hide FirstSignal;
    FirstIsFirst(signals, id);
    var k :| 0 <= k < |signals| && signals[k].id == id && signals[k].promql == query
             && forall j :: 0 <= j < k ==> signals[j].id != id;
    if FirstSignal(signals, id).Some? {
      var q := FirstSignal(signals, id).value.promql;
      var i :| 0 <= i < |signals| && signals[i].id == id && signals[i].promql == q
               && forall j :: 0 <= j < i ==> signals[j].id != id;
      assert i == k;
    }
  }

  /** A reference anywhere in a text gives way to its signal's expression; both sides are expanded on their own. */
  lemma ReferenceIsReplaced(x: string, id: string, y: string, signals: seq<Signal>, query: string)
    requires IdText(id) && IsQuery(signals, id, query)
    ensures Substituted(Pieces(x + RefText(id) + y), signals)
         == Substituted(Pieces(x), signals) + query + Substituted(Pieces(y), signals)
  {
    PiecesAround(x, id, y);
    QueryIsOne(signals, id, query);
    hide Pieces, FirstSignal, IsQuery, IdText, RefText;
    SubstitutedBoth(Pieces(x) + [Ref(id)], Pieces(y), signals);
    SubstitutedBoth(Pieces(x), [Ref(id)], signals);
    assert [Ref(id)][1..] == [];
    assert Substituted([Ref(id)], signals) == query + "" == query;
  }

  /** A text without references is left as it is. */
  lemma {:induction false} PlainTextStays(s: string, signals: seq<Signal>)
    requires RefsIn(s) == {}
    ensures Substituted(Pieces(s), signals) == s
  {
    forall p | p in Pieces(s) ensures p.Plain? {
      if p.Ref? {
        RefCounts(s, p);
      }
    }
    PiecesRender(s);
    hide Pieces;
    PlainPiecesStay(Pieces(s), signals);
  }

  lemma {:induction false} PlainPiecesStay(pieces: seq<Piece>, signals: seq<Signal>)
    requires forall p :: p in pieces ==> p.Plain?
    ensures Substituted(pieces, signals) == Render(pieces)
  {
    if pieces != [] {
      assert pieces[0] in pieces;
      PlainPiecesStay(pieces[1..], signals);
    }
  }

  /** An argument refers to a signal that is not there. */
  ghost predicate Lost(args: map<string, Arg>, signals: seq<Signal>, k: string, id: string)
  {
    && k in args && args[k].Str? && IdText(id) && StandsIn(id, args[k].text)
    && forall i :: 0 <= i < |signals| ==> signals[i].id != id
  }

  /** Expansion fails, with MAS-5012, exactly when some argument refers to a signal that the pack does not have. */
  lemma ExpansionMeaning(args: map<string, Arg>, signals: seq<Signal>, selector: string)
    ensures ExpandedArgs(args, signals, selector).Err? <==> exists k, id :: Lost(args, signals, k, id)
    ensures ExpandedArgs(args, signals, selector).Err? ==> ExpandedArgs(args, signals, selector).code == "MAS-5012"
    ensures ExpandedArgs(args, signals, selector).Ok? ==> ExpandedArgs(args, signals, selector).value.Keys == args.Keys
  {
    hide IdText, StandsIn, ExpandedArg, RefsIn;
    var keys := Keys(signals, SignalKey);
    forall id ensures id in Ids(keys) <==> exists i :: 0 <= i < |signals| && signals[i].id == id {
      if id in Ids(keys) {
        var i :| 0 <= i < |keys| && keys[i].id == id;
        assert signals[i].id == id;
      }
      if i :| 0 <= i < |signals| && signals[i].id == id {
        assert keys[i] in keys;
      }
    }
    hide Ids, Keys;
    if !RefsResolve(args, Ids(keys)) {
      var k :| k in args && args[k].Str? && !(RefsIn(args[k].text) <= Ids(keys));
      var id :| id in RefsIn(args[k].text) && id !in Ids(keys);
      RefsInMeaning(args[k].text, id);
      assert Lost(args, signals, k, id);
    }
    if k, id :| Lost(args, signals, k, id) {
      RefsInMeaning(args[k].text, id);
    }
  }

  // --- the selector ----------------------------------------------------------------------------------

  lemma SelectorStandsAlone(x: string, y: string)
    requires x != ""
    ensures SELECTOR <= x + SELECTOR + y <==> SELECTOR <= x
  {
    var full := x + SELECTOR + y;
    var n := |SELECTOR|;
    assert n == 13;
    assert full[|x|] == '{' && full[|x| + 1] == '{';
    assert SELECTOR <= full ==> forall i :: 0 <= i < n ==> SELECTOR[i] == full[i];
    if SELECTOR <= full && |x| < n {
      assert false;
    }
    if SELECTOR <= full && |x| >= n {
      assert forall i :: 0 <= i < n ==> SELECTOR[i] == full[i] == x[i];
    }
    if SELECTOR <= x {
      assert forall i :: 0 <= i < n ==> SELECTOR[i] == full[i] == x[i];
    }
  }

  /** The selector is put in wherever its placeholder stands. */
  lemma {:induction false} SelectorIsReplaced(x: string, y: string, selector: string)
    ensures ReplaceAll(x + SELECTOR + y, SELECTOR, selector)
         == ReplaceAll(x, SELECTOR, selector) + selector + ReplaceAll(y, SELECTOR, selector)
    decreases |x|
  {
    var full := x + SELECTOR + y;
    if x == "" {
      assert full == SELECTOR + y && full[|SELECTOR|..] == y;
    } else {
      SelectorStandsAlone(x, y);
      if SELECTOR <= x {
        assert full[|SELECTOR|..] == x[|SELECTOR|..] + SELECTOR + y;
        SelectorIsReplaced(x[|SELECTOR|..], y, selector);
      } else {
        assert full[1..] == x[1..] + SELECTOR + y;
        SelectorIsReplaced(x[1..], y, selector);
      }
    }
  }
}
