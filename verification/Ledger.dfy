/** What a run's model calls cost, in total and by role. Money is exact here: amounts are reals. */
module Ledger {
  import opened StringOrder

  // --- costs -----------------------------------------------------------------------------------

  /** An amount, whether it is all there was to pay, and the models without a price. */
  datatype Cost = Cost(usd: real, known: bool, unpriced: seq<string>)

  function KnownCost(usd: real): (r: Cost)
  {
    Cost(usd, true, [])
  }

  function UnpricedCost(model: string): (r: Cost)
  {
    Cost(0.0, false, [model])
  }

  function Names(c: Cost): (r: set<string>)
  {
    set m | m in c.unpriced && m != ""
  }

  /** Cost.Add: amounts add up, what is not known of a part is not known of the whole. */
  ghost function Plus(c: Cost, o: Cost): (r: Cost)
  {
    var names := Names(c) + Names(o);
    Cost(c.usd + o.usd, c.known && o.known && names == {}, SortedSet(names))
  }

  method AddCost(c: Cost, o: Cost) returns (out: Cost)
    ensures out == Plus(c, o)
  {
    hide SortedSet;
    var all := c.unpriced + o.unpriced;
    var seen: set<string>, unpriced: seq<string> := {}, [];
    for i := 0 to |all|
      invariant seen == set m | m in all[..i] && m != ""
      invariant forall m :: m in unpriced <==> m in seen
      invariant forall j, k :: 0 <= j < k < |unpriced| ==> unpriced[j] != unpriced[k]
    {
      assert all[..i + 1] == all[..i] + [all[i]];
      if all[i] == "" || all[i] in seen {
        continue;
      }
      seen := seen + {all[i]};
      unpriced := unpriced + [all[i]];
    }
    assert all[..|all|] == all;
    SortStringsSorts(unpriced);
    assert (set k | k in unpriced) == seen;
    assert seen == Names(c) + Names(o);
    unpriced := SortStrings(unpriced);
    NoNames(seen);
    out := Cost(c.usd + o.usd, c.known && o.known && |unpriced| == 0, unpriced);
  }

  lemma NoNames(names: set<string>)
    ensures SortedSet(names) == [] <==> names == {}
  {
    var r := SortedSet(names);
    if r == [] {
      forall k ensures k !in names {
        assert k in r <==> k in names;
      }
    } else {
      assert r[0] in names;
    }
  }

  /** What every cost that was built by Plus, KnownCost or UnpricedCost of a named model looks like. */
  ghost predicate Sound(c: Cost)
  {
    Increasing(c.unpriced) && "" !in c.unpriced && (c.known ==> c.unpriced == [])
  }

  lemma NamesOfSum(c: Cost, o: Cost)
    ensures Names(Plus(c, o)) == Names(c) + Names(o) && Sound(Plus(c, o))
  {
    NoNames(Names(c) + Names(o));
  }

  lemma PlusCommutes(c: Cost, o: Cost)
    ensures Plus(c, o) == Plus(o, c)
  {
    assert Names(c) + Names(o) == Names(o) + Names(c);
  }

  lemma PlusAssociates(c: Cost, o: Cost, p: Cost)
    ensures Plus(Plus(c, o), p) == Plus(c, Plus(o, p))
  {
    NamesOfSum(c, o);
    NamesOfSum(o, p);
    hide SortedSet, Names;
    assert Names(c) + Names(o) + Names(p) == Names(c) + (Names(o) + Names(p));
    assert Names(c) + Names(o) == {} && Names(p) == {} <==> Names(c) + Names(o) + Names(p) == {};
    assert Names(o) + Names(p) == {} && Names(c) == {} <==> Names(c) + Names(o) + Names(p) == {};
  }

  /** A known zero is the identity, for exactly the costs that are sorted, without repeats or blank names. */
  lemma ZeroIsIdentity(c: Cost)
    ensures Plus(c, KnownCost(0.0)) == c <==> Sound(c)
  {
    var names := Names(c);
    assert names + Names(KnownCost(0.0)) == names;
    NamesOfSum(c, KnownCost(0.0));
    if Sound(c) {
      IncreasingIsUnique(SortedSet(names), c.unpriced);
      NoNames(names);
    }
  }

  /** The empty value is not: adding it makes every known cost unknown. */
  lemma EmptyIsNoIdentity(c: Cost)
    ensures Plus(c, Cost(0.0, false, [])) == c <==> Sound(c) && !c.known
  {
    var empty := Cost(0.0, false, []);
    var names := Names(c);
    assert names + Names(empty) == names;
    NamesOfSum(c, empty);
    if Sound(c) {
      IncreasingIsUnique(SortedSet(names), c.unpriced);
    }
  }

  // --- exchanges and their sums ----------------------------------------------------------------------

  datatype Exchange = Exchange(
    agent: string, provider: string, model: string, prompt: int, completion: int, millis: int, cost: Cost)

  datatype Sums = Sums(calls: nat, prompt: int, completion: int, cost: Cost)

  const NOTHING := Sums(0, 0, 0, KnownCost(0.0))

  ghost function Add(s: Sums, t: Sums): (r: Sums)
  {
    Sums(s.calls + t.calls, s.prompt + t.prompt, s.completion + t.completion, Plus(s.cost, t.cost))
  }

  function Of(e: Exchange): (r: Sums)
  {
    Sums(1, e.prompt, e.completion, e.cost)
  }

  function RoleOf(e: Exchange): (s: string)
  {
    if e.agent == "" then "(unattributed)" else e.agent
  }

  ghost function SumOf(list: seq<Exchange>): (r: Sums)
  {
    if list == [] then NOTHING else Add(SumOf(list[..|list| - 1]), Of(list[|list| - 1]))
  }

  /** The exchanges of one role. */
  function ByOne(list: seq<Exchange>, role: string): (out: seq<Exchange>)
  {
    if list == [] then []
    else
      var last := list[|list| - 1];
      ByOne(list[..|list| - 1], role) + (if RoleOf(last) == role then [last] else [])
  }

  lemma AddAssociates(s: Sums, t: Sums, u: Sums)
    ensures Add(Add(s, t), u) == Add(s, Add(t, u))
  {
    hide Plus;
    PlusAssociates(s.cost, t.cost, u.cost);
  }

  lemma AddCommutes(s: Sums, t: Sums)
    ensures Add(s, t) == Add(t, s)
  {
    hide Plus;
    PlusCommutes(s.cost, t.cost);
  }

  lemma AddNothing(s: Sums)
    requires Sound(s.cost)
    ensures Add(s, NOTHING) == s && Add(NOTHING, s) == s
  {
    hide Plus;
    ZeroIsIdentity(s.cost);
    PlusCommutes(s.cost, KnownCost(0.0));
  }

  lemma AddIsSound(s: Sums, t: Sums)
    ensures Sound(Add(s, t).cost)
  {
    NamesOfSum(s.cost, t.cost);
  }

  // --- the ledger ---------------------------------------------------------------------------------------

  datatype RoleUsage = RoleUsage(
    role: string, provider: string, model: string, calls: nat, prompt: int, completion: int, millis: int, cost: Cost)

  function Row(u: RoleUsage): (r: Sums)
  {
    Sums(u.calls, u.prompt, u.completion, u.cost)
  }

  datatype Accounts = Accounts(total: Sums, byRole: map<string, RoleUsage>)

  const EMPTY := Accounts(NOTHING, map[])

  function EntryFor(a: Accounts, e: Exchange): (r: RoleUsage)
  {
    if RoleOf(e) in a.byRole then a.byRole[RoleOf(e)]
    else RoleUsage(RoleOf(e), e.provider, e.model, 0, 0, 0, 0, KnownCost(0.0))
  }

  ghost function Charged(u: RoleUsage, e: Exchange): (r: RoleUsage)
  {
    u.(calls := u.calls + 1, prompt := u.prompt + e.prompt, completion := u.completion + e.completion,
       millis := u.millis + e.millis, cost := Plus(u.cost, e.cost))
  }

  ghost function Recorded(a: Accounts, e: Exchange): (r: Accounts)
  {
    Accounts(Add(a.total, Of(e)), a.byRole[RoleOf(e) := Charged(EntryFor(a, e), e)])
  }

  ghost function AllRecorded(list: seq<Exchange>): (r: Accounts)
  {
    if list == [] then EMPTY else Recorded(AllRecorded(list[..|list| - 1]), list[|list| - 1])
  }

  /** ByRole's order: dearest first, then busiest, then by name. */
  predicate Before(a: RoleUsage, b: RoleUsage)
  {
    if a.cost.usd != b.cost.usd then a.cost.usd > b.cost.usd
    else if a.calls != b.calls then a.calls > b.calls
    else Less(a.role, b.role)
  }

  ghost predicate Table(rows: seq<RoleUsage>)
  {
    forall i, j :: 0 <= i < j < |rows| ==> Before(rows[i], rows[j])
  }

  function InsertRow(u: RoleUsage, rows: seq<RoleUsage>): (out: seq<RoleUsage>)
  {
    if rows == [] || Before(u, rows[0]) then [u] + rows else [rows[0]] + InsertRow(u, rows[1..])
  }

  lemma BeforeChains(a: RoleUsage, b: RoleUsage, c: RoleUsage)
    requires Before(a, b) && Before(b, c)
    ensures Before(a, c)
  {
    if Less(a.role, b.role) && Less(b.role, c.role) {
      LessChains(a.role, b.role, c.role);
    }
  }

  lemma BeforeIsTotal(a: RoleUsage, b: RoleUsage)
    ensures a.role != b.role ==> Before(a, b) || Before(b, a)
    ensures !(Before(a, b) && Before(b, a))
  {
    LessIsTotal(a.role, b.role);
  }

  lemma {:induction false} InsertedRow(u: RoleUsage, rows: seq<RoleUsage>)
    requires Table(rows) && forall r :: r in rows ==> r.role != u.role
    ensures Table(InsertRow(u, rows)) && forall r :: r in InsertRow(u, rows) <==> r == u || r in rows
  {
    hide Before;
    if rows != [] {
      var rest := rows[1..];
      assert rows == [rows[0]] + rest;
      BeforeIsTotal(u, rows[0]);
      if Before(u, rows[0]) {
        forall j | 0 < j < |rows| ensures Before(u, rows[j]) {
          BeforeChains(u, rows[0], rows[j]);
        }
      } else {
        InsertedRow(u, rest);
        forall r | r in InsertRow(u, rest) ensures Before(rows[0], r) {
          if r in rest {
            var j :| 0 <= j < |rest| && rest[j] == r;
            assert rows[j + 1] == r;
          }
        }
      }
    }
  }

  /** Down the rows the cost never rises, at equal cost the calls never do, and at equal calls names ascend. */
  lemma RowsDescend(rows: seq<RoleUsage>, i: nat, j: nat)
    requires Table(rows) && i < j < |rows|
    ensures rows[i].cost.usd >= rows[j].cost.usd
    ensures rows[i].cost.usd == rows[j].cost.usd ==> rows[i].calls >= rows[j].calls
    ensures rows[i].cost.usd == rows[j].cost.usd && rows[i].calls == rows[j].calls ==> Less(rows[i].role, rows[j].role)
  {
    hide Less;
    assert Before(rows[i], rows[j]);
  }

  class Ledger {
    var calls: nat
    var prompt: int
    var completion: int
    var cost: Cost
    var byRole: map<string, RoleUsage>

    constructor ()
      ensures View() == EMPTY
    {
      calls, prompt, completion, cost, byRole := 0, 0, 0, KnownCost(0.0), map[];
    }

    function View(): (r: Accounts)
      reads this
    {
      Accounts(Sums(calls, prompt, completion, cost), byRole)
    }

    /** One exchange: the total and the entry of its role move together. */
    method Record(e: Exchange)
      modifies this
      ensures View() == Recorded(old(View()), e)
    {
      hide Plus;
      calls := calls + 1;
      prompt := prompt + e.prompt;
      completion := completion + e.completion;
      cost := AddCost(cost, e.cost);
      var role := e.agent;
      if role == "" {
        role := "(unattributed)";
      }
      var entry;
      if role in byRole {
        entry := byRole[role];
      } else {
        entry := RoleUsage(role, e.provider, e.model, 0, 0, 0, 0, KnownCost(0.0));
      }
      var spent := AddCost(entry.cost, e.cost);
      byRole := byRole[role := entry.(
        calls := entry.calls + 1, prompt := entry.prompt + e.prompt, completion := entry.completion + e.completion,
        millis := entry.millis + e.millis, cost := spent)];
    }

    /** The breakdown as a table; the map gives its entries in any order. */
    method ByRole() returns (rows: seq<RoleUsage>)
      requires Keyed(byRole)
      ensures Table(rows) && forall r :: r in rows <==> r in byRole.Values
    {
      hide Before;
      rows := [];
      var left := byRole.Keys;
      while left != {}
        invariant left <= byRole.Keys && Table(rows)
        invariant forall r :: r in rows <==> exists k :: k in byRole && k !in left && byRole[k] == r
        decreases |left|
      {
        var k :| k in left;
        forall r | r in rows ensures r.role != byRole[k].role {
          var k' :| k' in byRole && k' !in left && byRole[k'] == r;
        }
        InsertedRow(byRole[k], rows);
        rows := InsertRow(byRole[k], rows);
        left := left - {k};
      }
    }
  }

  predicate Keyed(byRole: map<string, RoleUsage>)
  {
    forall k :: k in byRole ==> byRole[k].role == k
  }

  // --- conservation -----------------------------------------------------------------------------------------

  /** Some exchange was made by this role. */
  predicate Made(list: seq<Exchange>, role: string)
  {
    exists i :: 0 <= i < |list| && RoleOf(list[i]) == role
  }

  lemma {:induction false} RolesAreMade(list: seq<Exchange>, role: string)
    ensures role in AllRecorded(list).byRole <==> Made(list, role)
  {
    hide RoleOf, Add, Charged;
    if list != [] {
      var init, e := list[..|list| - 1], list[|list| - 1];
      RolesAreMade(init, role);
      if Made(init, role) {
        var i :| 0 <= i < |init| && RoleOf(init[i]) == role;
        assert RoleOf(list[i]) == role;
      }
      if Made(list, role) && RoleOf(e) != role {
        var i :| 0 <= i < |list| && RoleOf(list[i]) == role;
        assert RoleOf(init[i]) == role;
      }
    }
  }

  /** An exchange that names no role is kept under a name of its own, and any other under its role. */
  lemma RolesOfLedger(list: seq<Exchange>, role: string)
    ensures role in AllRecorded(list).byRole <==>
              exists i :: 0 <= i < |list| &&
                ((list[i].agent == role && role != "") || (list[i].agent == "" && role == "(unattributed)"))
  {
    RolesAreMade(list, role);
    hide AllRecorded;
    if Made(list, role) {
      var i :| 0 <= i < |list| && RoleOf(list[i]) == role;
    }
    if i :| 0 <= i < |list| && ((list[i].agent == role && role != "") || (list[i].agent == "" && role == "(unattributed)")) {
      assert RoleOf(list[i]) == role;
    }
  }

  /** The totals are the sums over the exchanges, and each entry the sums over its own role's. */
  lemma {:induction false} EntriesAreSums(list: seq<Exchange>)
    ensures var a := AllRecorded(list);
            && a.total == SumOf(list)
            && (forall r :: r in a.byRole ==> Row(a.byRole[r]) == SumOf(ByOne(list, r)) && a.byRole[r].role == r)
            && (forall r :: r !in a.byRole ==> ByOne(list, r) == [])
  {
    hide Add, RoleOf, ByOne, Charged, EntryFor;
    if list == [] {
      NoneMade();
    } else {
      var init, e := list[..|list| - 1], list[|list| - 1];
      EntriesAreSums(init);
      var was, now := AllRecorded(init), AllRecorded(list);
      assert init + [e] == list;
      forall r | r !in now.byRole ensures ByOne(list, r) == [] {
        NoneStep(init, e, r);
      }
      forall r | r in now.byRole
        ensures Row(now.byRole[r]) == SumOf(ByOne(list, r)) && now.byRole[r].role == r
      {
        EntryStep(was, init, e, r);
      }
    }
  }

  lemma NoneMade()
    ensures forall r :: ByOne([], r) == []
  {
  }

  lemma NoneStep(list: seq<Exchange>, e: Exchange, r: string)
    requires ByOne(list, r) == [] && RoleOf(e) != r
    ensures ByOne(list + [e], r) == []
  {
    assert (list + [e])[..|list|] == list;
  }

  lemma ByOneStep(list: seq<Exchange>, e: Exchange, r: string)
    ensures ByOne(list + [e], r) == ByOne(list, r) + (if RoleOf(e) == r then [e] else [])
  {
    hide RoleOf;
    assert (list + [e])[..|list|] == list;
  }

  lemma SumOfStep(list: seq<Exchange>, e: Exchange)
    ensures SumOf(list + [e]) == Add(SumOf(list), Of(e))
  {
    hide Add, Of;
    assert (list + [e])[..|list|] == list;
  }

  lemma ChargedStep(u: RoleUsage, e: Exchange)
    ensures Row(Charged(u, e)) == Add(Row(u), Of(e)) && Charged(u, e).role == u.role
  {
    hide Plus;
  }

  lemma EntryStep(a: Accounts, list: seq<Exchange>, e: Exchange, r: string)
    requires r in a.byRole ==> Row(a.byRole[r]) == SumOf(ByOne(list, r)) && a.byRole[r].role == r
    requires r !in a.byRole ==> ByOne(list, r) == []
    requires r in Recorded(a, e).byRole
    ensures Row(Recorded(a, e).byRole[r]) == SumOf(ByOne(list + [e], r)) && Recorded(a, e).byRole[r].role == r
  {
    hide RoleOf, ByOne, Add, Of, Charged;
    var mine := ByOne(list, r);
    ByOneStep(list, e, r);
    if RoleOf(e) == r {
      SumOfStep(mine, e);
      ChargedStep(EntryFor(a, e), e);
      assert Row(EntryFor(a, e)) == SumOf(mine);
    } else {
      assert mine + [] == mine;
    }
  }

  function MillisOf(list: seq<Exchange>): (n: int)
  {
    if list == [] then 0 else MillisOf(list[..|list| - 1]) + list[|list| - 1].millis
  }

  lemma MillisStep(list: seq<Exchange>, e: Exchange, r: string)
    ensures MillisOf(ByOne(list + [e], r)) == MillisOf(ByOne(list, r)) + (if RoleOf(e) == r then e.millis else 0)
    ensures ByOne(list + [e], r) != [] <==> ByOne(list, r) != [] || RoleOf(e) == r
    ensures ByOne(list, r) != [] ==> ByOne(list + [e], r)[0] == ByOne(list, r)[0]
    ensures ByOne(list, r) == [] && RoleOf(e) == r ==> ByOne(list + [e], r)[0] == e
  {
    hide RoleOf;
    ByOneStep(list, e, r);
    var mine := ByOne(list, r);
    assert (mine + [e])[..|mine|] == mine && mine + [] == mine;
  }

  /** An entry also adds up its role's time, and names the provider and the model its role called first. */
  lemma {:induction false} EntriesTell(list: seq<Exchange>, r: string)
    ensures var a, mine := AllRecorded(list), ByOne(list, r);
            && (r in a.byRole <==> mine != [])
            && (mine != [] ==> a.byRole[r].millis == MillisOf(mine)
                               && a.byRole[r].provider == mine[0].provider && a.byRole[r].model == mine[0].model)
  {
    hide Add, RoleOf, Plus, ByOne;
    if list == [] {
      NoneMade();
    } else {
      var init, e := list[..|list| - 1], list[|list| - 1];
      EntriesTell(init, r);
      MillisStep(init, e, r);
      NoMillis(ByOne(init, r));
      assert init + [e] == list;
    }
  }

  lemma NoMillis(list: seq<Exchange>)
    ensures list == [] ==> MillisOf(list) == 0
  {
  }

  /** The entries' own sums, for some roles in some order. */
  ghost function SumRoles(byRole: map<string, RoleUsage>, roles: seq<string>): (r: Sums)
    requires forall r :: r in roles ==> r in byRole
  {
    if roles == [] then NOTHING
    else Add(SumRoles(byRole, roles[..|roles| - 1]), Row(byRole[roles[|roles| - 1]]))
  }

  function Without(roles: seq<string>, i: nat): (out: seq<string>)
    requires i < |roles|
  {
    roles[..i] + roles[i + 1..]
  }

  lemma WithoutSnoc(roles: seq<string>, i: nat)
    requires i < |roles| - 1
    ensures var n := |roles| - 1;
            && Without(roles, i) == Without(roles[..n], i) + [roles[n]]
            && Without(roles, i)[..n - 1] == Without(roles[..n], i)
  {
    var n := |roles| - 1;
    assert roles[..n][..i] == roles[..i] && roles[..n][i + 1..] == roles[i + 1..n];
    assert roles[i + 1..] == roles[i + 1..n] + [roles[n]];
  }

  lemma {:induction false} PullOut(byRole: map<string, RoleUsage>, roles: seq<string>, i: nat)
    requires i < |roles| && forall r :: r in roles ==> r in byRole
    ensures SumRoles(byRole, roles) == Add(SumRoles(byRole, Without(roles, i)), Row(byRole[roles[i]]))
  {
    hide Add, Row;
    var n := |roles| - 1;
    if i == n {
      assert Without(roles, i) == roles[..n];
    } else {
      var less := Without(roles[..n], i);
      PullOut(byRole, roles[..n], i);
      WithoutSnoc(roles, i);
      AddAssociates(SumRoles(byRole, less), Row(byRole[roles[i]]), Row(byRole[roles[n]]));
      AddCommutes(Row(byRole[roles[i]]), Row(byRole[roles[n]]));
      AddAssociates(SumRoles(byRole, less), Row(byRole[roles[n]]), Row(byRole[roles[i]]));
    }
  }

  lemma {:induction false} SameEntries(m: map<string, RoleUsage>, m': map<string, RoleUsage>, roles: seq<string>)
    requires forall r :: r in roles ==> r in m && r in m' && m[r] == m'[r]
    ensures SumRoles(m, roles) == SumRoles(m', roles)
  {
    hide Add, Row;
    if roles != [] {
      SameEntries(m, m', roles[..|roles| - 1]);
    }
  }

  lemma {:induction false} SumIsSound(byRole: map<string, RoleUsage>, roles: seq<string>)
    requires forall r :: r in roles ==> r in byRole
    ensures Sound(SumRoles(byRole, roles).cost)
  {
    if roles != [] {
      AddIsSound(SumRoles(byRole, roles[..|roles| - 1]), Row(byRole[roles[|roles| - 1]]));
    }
  }

  /** Every role of the breakdown, once. */
  ghost predicate Lists(roles: seq<string>, byRole: map<string, RoleUsage>)
  {
    && (forall r :: r in roles <==> r in byRole)
    && forall i, j :: 0 <= i < j < |roles| ==> roles[i] != roles[j]
  }

  lemma WithoutHas(roles: seq<string>, i: nat, r: string)
    requires i < |roles| && forall j, k :: 0 <= j < k < |roles| ==> roles[j] != roles[k]
    ensures r in Without(roles, i) <==> r in roles && r != roles[i]
  {
    var rest := Without(roles, i);
    if r in rest {
      var j :| 0 <= j < |rest| && rest[j] == r;
      assert roles[if j < i then j else j + 1] == r;
    }
    if r in roles && r != roles[i] {
      var j :| 0 <= j < |roles| && roles[j] == r;
      assert rest[if j < i then j else j - 1] == r;
    }
  }

  lemma WithoutLists(roles: seq<string>, i: nat, byRole: map<string, RoleUsage>)
    requires i < |roles| && Lists(roles, byRole)
    ensures Lists(Without(roles, i), byRole - {roles[i]})
  {
    forall r ensures r in Without(roles, i) <==> r in byRole && r != roles[i] {
      WithoutHas(roles, i, r);
    }
  }

  /** In whatever order the roles are taken, their entries add up to the totals. */
  lemma {:induction false} RolesAddUp(list: seq<Exchange>, roles: seq<string>)
    requires Lists(roles, AllRecorded(list).byRole)
    ensures SumRoles(AllRecorded(list).byRole, roles) == AllRecorded(list).total
  {
    hide Add, Row, Charged, Without, RoleOf, SumRoles;
    if list == [] {
      NoRoles(roles);
    } else {
      var init, e := list[..|list| - 1], list[|list| - 1];
      var was, now := AllRecorded(init), AllRecorded(list);
      var role := RoleOf(e);
      assert role in roles;
      var i :| 0 <= i < |roles| && roles[i] == role;
      var rest := Without(roles, i);
      WithoutLists(roles, i, now.byRole);
      PullOut(now.byRole, roles, i);
      assert now.byRole - {role} == was.byRole - {role};
      assert forall r :: r in rest ==> r in was.byRole - {role};
      SameEntries(now.byRole, was.byRole, rest);
      ChargedAdds(EntryFor(was, e), e);
      if role in was.byRole {
        RolesAddUp(init, roles);
        PullOut(was.byRole, roles, i);
        AddAssociates(SumRoles(was.byRole, rest), Row(was.byRole[role]), Of(e));
      } else {
        assert was.byRole - {role} == was.byRole;
        RolesAddUp(init, rest);
        SumIsSound(was.byRole, rest);
        AddNothing(SumRoles(was.byRole, rest));
        AddAssociates(SumRoles(was.byRole, rest), NOTHING, Of(e));
        NewEntryIsNothing(was, e);
      }
    }
  }

  lemma NoRoles(roles: seq<string>)
    requires forall r :: r !in roles
    ensures roles == [] && SumRoles(map[], roles) == NOTHING
  {
    Inhabited(roles);
  }

  lemma Inhabited(roles: seq<string>)
    ensures roles != [] ==> exists r :: r in roles
  {
    if roles != [] {
      assert roles[0] in roles;
    }
  }

  lemma NewEntryIsNothing(a: Accounts, e: Exchange)
    requires RoleOf(e) !in a.byRole
    ensures Row(EntryFor(a, e)) == NOTHING
  {
  }

  lemma ChargedAdds(u: RoleUsage, e: Exchange)
    ensures Row(Charged(u, e)) == Add(Row(u), Of(e))
  {
  }

  ghost function SumRows(rows: seq<RoleUsage>): (r: Sums)
  {
    if rows == [] then NOTHING else Add(SumRows(rows[..|rows| - 1]), Row(rows[|rows| - 1]))
  }

  function Roles(rows: seq<RoleUsage>): (roles: seq<string>)
    ensures |roles| == |rows| && forall i :: 0 <= i < |rows| ==> roles[i] == rows[i].role
  {
    seq(|rows|, i requires 0 <= i < |rows| => rows[i].role)
  }

  lemma {:induction false} RowsAreEntries(rows: seq<RoleUsage>, byRole: map<string, RoleUsage>)
    requires forall i :: 0 <= i < |rows| ==> rows[i].role in byRole && byRole[rows[i].role] == rows[i]
    ensures SumRows(rows) == SumRoles(byRole, Roles(rows))
  {
    hide Add, Row;
    if rows != [] {
      RowsAreEntries(rows[..|rows| - 1], byRole);
      assert Roles(rows)[..|rows| - 1] == Roles(rows[..|rows| - 1]);
    }
  }

  lemma TableLists(rows: seq<RoleUsage>, byRole: map<string, RoleUsage>)
    requires Keyed(byRole) && Table(rows) && forall r :: r in rows <==> r in byRole.Values
    ensures forall i :: 0 <= i < |rows| ==> rows[i].role in byRole && byRole[rows[i].role] == rows[i]
    ensures Lists(Roles(rows), byRole)
  {
    hide Before;
    forall i | 0 <= i < |rows| ensures rows[i].role in byRole && byRole[rows[i].role] == rows[i] {
      assert rows[i] in rows;
      assert rows[i] in byRole.Values;
    }
    forall k | k in byRole ensures k in Roles(rows) {
      assert byRole[k] in byRole.Values;
      assert byRole[k] in rows;
      var i :| 0 <= i < |rows| && rows[i] == byRole[k];
      assert Roles(rows)[i] == k;
    }
    forall i, j | 0 <= i < j < |rows| ensures rows[i].role != rows[j].role {
      assert Before(rows[i], rows[j]);
      BeforeIsTotal(rows[i], rows[j]);
    }
  }

  lemma RecordedIsKeyed(list: seq<Exchange>)
    ensures Keyed(AllRecorded(list).byRole)
  {
    EntriesAreSums(list);
  }

  /** Whatever the exchanges were: the table's calls, tokens and cost add up to the run's totals. */
  lemma TableAddsUp(list: seq<Exchange>, rows: seq<RoleUsage>)
    requires Table(rows) && forall r :: r in rows <==> r in AllRecorded(list).byRole.Values
    ensures SumRows(rows) == AllRecorded(list).total == SumOf(list)
  {
    hide Table, SumRows, AllRecorded, SumOf, Lists, ByOne, RoleOf;
    RecordedIsKeyed(list);
    EntriesAreSums(list);
    var byRole := AllRecorded(list).byRole;
    TableLists(rows, byRole);
    RowsAreEntries(rows, byRole);
    RolesAddUp(list, Roles(rows));
  }

  /** And there is only one such table, however the map gives its entries out. */
  lemma {:induction false} TableIsUnique(a: seq<RoleUsage>, b: seq<RoleUsage>)
    requires Table(a) && Table(b) && forall r :: r in a <==> r in b
    requires forall r, s :: r in a && s in a && r.role == s.role ==> r == s
    ensures a == b
    decreases |a|
  {
    hide Before;
    assert (a != [] ==> a[0] in a) && (b != [] ==> b[0] in b);
    if a != [] {
      BeforeIsTotal(a[0], b[0]);
      assert a[0] == b[0];
      forall r ensures r in a[1..] <==> r in b[1..] {
        AfterFirst(a, r);
        AfterFirst(b, r);
      }
      TableIsUnique(a[1..], b[1..]);
    }
  }

  lemma AfterFirst(a: seq<RoleUsage>, r: RoleUsage)
    requires Table(a) && a != []
    ensures r in a[1..] <==> r in a && r != a[0]
  {
    hide Before;
    assert a == [a[0]] + a[1..];
    if r in a[1..] {
      var i :| 0 <= i < |a| - 1 && a[1..][i] == r;
      assert Before(a[0], a[i + 1]);
      BeforeIsTotal(a[0], r);
    }
  }
}
