/** The order of strings, byte by byte, and sorting by it. */
module StringOrder {
  // --- the order -------------------------------------------------------------------

  predicate Less(s: string, t: string)
  {
    if t == "" then false
    else if s == "" then true
    else if s[0] != t[0] then s[0] < t[0]
    else Less(s[1..], t[1..])
  }

  lemma {:induction false} LessIsIrreflexive(s: string)
    ensures !Less(s, s)
  {
    if s != "" {
      LessIsIrreflexive(s[1..]);
    }
  }

  lemma {:induction false} LessIsTotal(s: string, t: string)
    ensures Less(s, t) || s == t || Less(t, s)
    ensures !(Less(s, t) && Less(t, s))
    decreases |s|
  {
    if s != "" && t != "" {
      LessIsTotal(s[1..], t[1..]);
      assert s == [s[0]] + s[1..] && t == [t[0]] + t[1..];
    }
  }

  lemma {:induction false} LessChains(s: string, t: string, u: string)
    requires Less(s, t) && Less(t, u)
    ensures Less(s, u)
    decreases |s|
  {
    if s != "" && s[0] == t[0] == u[0] {
      LessChains(s[1..], t[1..], u[1..]);
    }
  }

  lemma {:induction false} LessAfterPrefix(pre: string, s: string, t: string)
    ensures Less(pre + s, pre + t) <==> Less(s, t)
  {
    if pre == "" {
      assert pre + s == s && pre + t == t;
    } else {
      LessAfterPrefix(pre[1..], s, t);
      assert (pre + s)[1..] == pre[1..] + s && (pre + t)[1..] == pre[1..] + t;
    }
  }

  lemma {:induction false} LessBeforeSuffix(s: string, t: string, u: string, v: string)
    requires |s| == |t| && Less(s, t)
    ensures Less(s + u, t + v)
  {
    if s[0] == t[0] {
      LessBeforeSuffix(s[1..], t[1..], u, v);
      assert (s + u)[1..] == s[1..] + u && (t + v)[1..] == t[1..] + v;
    }
  }

  ghost predicate Increasing(keys: seq<string>)
  {
    forall i, j :: 0 <= i < j < |keys| ==> Less(keys[i], keys[j])
  }

  lemma TailAfterHead(a: seq<string>, k: string)
    requires Increasing(a) && a != []
    ensures k in a[1..] <==> k in a && k != a[0]
  {
    LessIsIrreflexive(a[0]);
    assert a == [a[0]] + a[1..];
    if k in a[1..] {
      var i :| 0 <= i < |a| - 1 && a[1..][i] == k;
      assert Less(a[0], a[i + 1]);
    }
  }

  /** A set has only one increasing enumeration. */
  lemma {:induction false} IncreasingIsUnique(a: seq<string>, b: seq<string>)
    requires Increasing(a) && Increasing(b) && forall k :: k in a <==> k in b
    ensures a == b
    decreases |a|
  {
    assert (a != [] ==> a[0] in a) && (b != [] ==> b[0] in b);
    if a != [] {
      LessIsTotal(a[0], b[0]);
      assert a[0] == b[0];
      forall k ensures k in a[1..] <==> k in b[1..] {
        TailAfterHead(a, k);
        TailAfterHead(b, k);
      }
      IncreasingIsUnique(a[1..], b[1..]);
    }
  }

  // --- sorting ----------------------------------------------------------------------

  /** The keys of a set in increasing order. */
  ghost function SortedSet(keys: set<string>): (r: seq<string>)
    ensures Increasing(r) && forall k :: k in r <==> k in keys
    decreases |keys|
  {
    if keys == {} then []
    else
      LeastExists(keys);
      var least :| least in keys && forall k :: k in keys && k != least ==> Less(least, k);
      var rest := SortedSet(keys - {least});
      ConsIncreases(least, rest);
      [least] + rest
  }

  lemma ConsIncreases(k: string, rest: seq<string>)
    requires Increasing(rest) && forall x :: x in rest ==> Less(k, x)
    ensures Increasing([k] + rest)
  {
    forall j | 0 <= j < |rest| ensures Less(k, rest[j]) {
      assert rest[j] in rest;
    }
  }

  lemma {:induction false} LeastExists(keys: set<string>)
    requires keys != {}
    ensures exists least :: least in keys && forall k :: k in keys && k != least ==> Less(least, k)
    decreases |keys|
  {
    var x :| x in keys;
    var rest := keys - {x};
    if rest == {} {
      assert keys == {x};
    } else {
      LeastExists(rest);
      var least :| least in rest && forall k :: k in rest && k != least ==> Less(least, k);
      LessIsTotal(x, least);
      if Less(x, least) {
        forall k | k in keys && k != x ensures Less(x, k) {
          if k != least {
            LessChains(x, least, k);
          }
        }
      }
    }
  }

  /** sort.Strings by insertion; only the increasing enumeration it yields is used. */
  function Inserted(k: string, sorted: seq<string>): (out: seq<string>)
  {
    if sorted == [] || !Less(sorted[0], k) then [k] + sorted
    else [sorted[0]] + Inserted(k, sorted[1..])
  }

  function SortStrings(keys: seq<string>): (out: seq<string>)
  {
    if keys == [] then [] else Inserted(keys[0], SortStrings(keys[1..]))
  }

  lemma {:induction false} InsertedIncreases(k: string, sorted: seq<string>)
    requires Increasing(sorted) && k !in sorted
    ensures Increasing(Inserted(k, sorted)) && forall x :: x in Inserted(k, sorted) <==> x == k || x in sorted
  {
    if sorted != [] {
      assert sorted == [sorted[0]] + sorted[1..];
      LessIsTotal(sorted[0], k);
      if Less(sorted[0], k) {
        InsertedIncreases(k, sorted[1..]);
        var r := Inserted(k, sorted[1..]);
        forall j | 0 <= j < |r| ensures Less(sorted[0], r[j]) {
          if r[j] != k {
            assert r[j] in r && r[j] in sorted[1..];
            var i :| 0 <= i < |sorted| - 1 && sorted[1..][i] == r[j];
            assert Less(sorted[0], sorted[i + 1]);
          }
        }
      } else {
        forall j | 0 <= j < |sorted| ensures Less(k, sorted[j]) {
          if j > 0 {
            LessChains(k, sorted[0], sorted[j]);
          }
        }
      }
    }
  }

  /** Sorting distinct keys gives the set's one increasing enumeration. */
  lemma {:induction false} SortStringsSorts(keys: seq<string>)
    requires forall i, j :: 0 <= i < j < |keys| ==> keys[i] != keys[j]
    ensures SortStrings(keys) == SortedSet(set k | k in keys)
  {
    SortStringsIncreases(keys);
    IncreasingIsUnique(SortStrings(keys), SortedSet(set k | k in keys));
  }

  lemma {:induction false} SortStringsIncreases(keys: seq<string>)
    requires forall i, j :: 0 <= i < j < |keys| ==> keys[i] != keys[j]
    ensures Increasing(SortStrings(keys)) && forall k :: k in SortStrings(keys) <==> k in keys
  {
    if keys != [] {
      assert keys == [keys[0]] + keys[1..];
      SortStringsIncreases(keys[1..]);
      InsertedIncreases(keys[0], SortStrings(keys[1..]));
    }
  }
}
