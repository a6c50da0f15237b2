/**
 Grouping the user rows of a range (internal/hub/userstats.go): one group per node and
 user, nothing lost or counted twice, and a result that does not depend on the order in
 which a hash map is walked.
 */
module UserStats {

  // A row of the statistics: the columns that grouping reads.
  datatype StatRow = StatRow(node: string, uuid: string, user: string, occupied: real, occupancyValid: real, expected: real)

  datatype UserStat = UserStat(node: string, user: string, hours: real, cards: nat, coverage: real, details: seq<StatRow>)

  function Key(node: string, user: string): string {
    node + "/" + user
  }

  function KeyOf(s: StatRow): string {
    Key(s.node, s.user)
  }

  function DetailsOf(rows: seq<StatRow>, key: string): seq<StatRow> {
    if rows == [] then []
    else
      var rest, last := DetailsOf(rows[..|rows| - 1], key), rows[|rows| - 1];
      if last.user != "" && KeyOf(last) == key then rest + [last] else rest
  }

  function Keys(rows: seq<StatRow>): set<string> {
    set i | 0 <= i < |rows| && rows[i].user != "" :: KeyOf(rows[i])
  }

  function Hours(rows: seq<StatRow>): real {
    if rows == [] then 0.0 else Hours(rows[..|rows| - 1]) + rows[|rows| - 1].occupied
  }

  function Cards(rows: seq<StatRow>): nat {
    if rows == [] then 0 else Cards(rows[..|rows| - 1]) + (if rows[|rows| - 1].occupied > 0.0 then 1 else 0)
  }

  function Valid(rows: seq<StatRow>): real {
    if rows == [] then 0.0 else Valid(rows[..|rows| - 1]) + rows[|rows| - 1].occupancyValid
  }

  function Expected(rows: seq<StatRow>): real {
    if rows == [] then 0.0 else Expected(rows[..|rows| - 1]) + rows[|rows| - 1].expected
  }

  function Clamp(x: real): real {
    if x <= 0.0 then 0.0 else if x >= 1.0 then 1.0 else x
  }

  function Coverage(rows: seq<StatRow>): real {
    if Expected(rows) > 0.0 then Clamp(Valid(rows) / Expected(rows)) else 0.0
  }

  // The group of a key, as a function of the rows.
  function GroupOf(rows: seq<StatRow>, key: string): UserStat
    requires DetailsOf(rows, key) != []
  {
    var d := DetailsOf(rows, key);
    UserStat(d[0].node, d[0].user, Hours(d), Cards(d), Coverage(d), d)
  }

  lemma {:induction false} DetailsAppend(rows: seq<StatRow>, s: StatRow, key: string)
    ensures DetailsOf(rows + [s], key)
         == if s.user != "" && KeyOf(s) == key then DetailsOf(rows, key) + [s] else DetailsOf(rows, key)
  {
    assert (rows + [s])[..|rows|] == rows;
  }

  lemma {:induction false} DetailsMembers(rows: seq<StatRow>, key: string, s: StatRow)
    ensures s in DetailsOf(rows, key) <==> s in rows && s.user != "" && KeyOf(s) == key
  {
    hide KeyOf;
    if rows != [] {
      var init, last := rows[..|rows| - 1], rows[|rows| - 1];
      assert rows == init + [last];
      DetailsMembers(init, key, s);
      DetailsAppend(init, last, key);
    }
  }

  lemma {:induction false} DetailsOfKeys(rows: seq<StatRow>, key: string)
    ensures DetailsOf(rows, key) != [] <==> key in Keys(rows)
  {
    hide KeyOf, Keys;
    if rows == [] {
      NoRows();
    } else {
      var init, last := rows[..|rows| - 1], rows[|rows| - 1];
      assert rows == init + [last];
      DetailsOfKeys(init, key);
      DetailsAppend(init, last, key);
      KeysAppend(init, last);
    }
  }

  lemma NoRows()
    ensures Keys([]) == {}
  {
  }

  /******* Conservation *******/

  function UserRows(rows: seq<StatRow>): seq<StatRow> {
    if rows == [] then []
    else if rows[|rows| - 1].user != "" then UserRows(rows[..|rows| - 1]) + [rows[|rows| - 1]]
    else UserRows(rows[..|rows| - 1])
  }

  // Hours and cards of the groups of some keys, together.
  ghost function Over(rows: seq<StatRow>, keys: set<string>): (real, nat) {
    if keys == {} then (0.0, 0)
    else
      var k :| k in keys;
      var d, rest := DetailsOf(rows, k), Over(rows, keys - {k});
      (Hours(d) + rest.0, Cards(d) + rest.1)
  }

  lemma HoursAppend(rows: seq<StatRow>, s: StatRow)
    ensures Hours(rows + [s]) == Hours(rows) + s.occupied
    ensures Cards(rows + [s]) == Cards(rows) + (if s.occupied > 0.0 then 1 else 0)
  {
    assert (rows + [s])[..|rows|] == rows;
  }

  lemma {:induction false} OverPick(rows: seq<StatRow>, keys: set<string>, k: string)
    requires k in keys
    ensures Over(rows, keys).0 == Hours(DetailsOf(rows, k)) + Over(rows, keys - {k}).0
    ensures Over(rows, keys).1 == Cards(DetailsOf(rows, k)) + Over(rows, keys - {k}).1
    decreases |keys|
  {
    hide DetailsOf, Hours, Cards;
    var j :| j in keys && Over(rows, keys)
      == (Hours(DetailsOf(rows, j)) + Over(rows, keys - {j}).0, Cards(DetailsOf(rows, j)) + Over(rows, keys - {j}).1);
    if j != k {
      OverPick(rows, keys - {j}, k);
      OverPick(rows, keys - {k}, j);
      assert keys - {j} - {k} == keys - {k} - {j};
    }
  }

  // Adding a row adds to the sums over any set of keys that holds its own.
  lemma {:induction false} OverAppend(rows: seq<StatRow>, s: StatRow, keys: set<string>)
    ensures var mine := s.user != "" && KeyOf(s) in keys;
            && Over(rows + [s], keys).0 == Over(rows, keys).0 + (if mine then s.occupied else 0.0)
            && Over(rows + [s], keys).1 == Over(rows, keys).1 + (if mine && s.occupied > 0.0 then 1 else 0)
    decreases |keys|
  {
    hide DetailsOf, Hours, Cards, Over, KeyOf;
    if keys == {} {
      NoKeys(rows);
      NoKeys(rows + [s]);
    } else {
      var k :| k in keys;
      OverPick(rows, keys, k);
      OverPick(rows + [s], keys, k);
      OverAppend(rows, s, keys - {k});
      DetailsAppend(rows, s, k);
      HoursAppend(DetailsOf(rows, k), s);
    }
  }

  lemma NoKeys(rows: seq<StatRow>)
    ensures Over(rows, {}) == (0.0, 0)
  {
  }

  lemma {:induction false} NothingOver(keys: set<string>)
    ensures Over([], keys) == (0.0, 0)
  {
    if keys != {} {
      var k :| k in keys;
      OverPick([], keys, k);
      NothingOver(keys - {k});
    }
  }

  lemma KeysAppend(rows: seq<StatRow>, s: StatRow)
    ensures Keys(rows + [s]) == if s.user != "" then Keys(rows) + {KeyOf(s)} else Keys(rows)
  {
    hide KeyOf;
    var all := rows + [s];
    assert all[|rows|] == s;
    forall k | k in Keys(rows) ensures k in Keys(all) {
      var i :| 0 <= i < |rows| && rows[i].user != "" && KeyOf(rows[i]) == k;
      assert all[i] == rows[i];
    }
  }

  lemma {:induction false} KeysConserve(rows: seq<StatRow>, keys: set<string>)
    requires Keys(rows) <= keys
    ensures Over(rows, keys) == (Hours(UserRows(rows)), Cards(UserRows(rows)))
    decreases |rows|
  {
    hide Over, KeyOf, Hours, Cards, Keys;
    if rows == [] {
      NothingOver(keys);
      NoHours();
    } else {
      var init, last := rows[..|rows| - 1], rows[|rows| - 1];
      assert rows == init + [last];
      KeysAppend(init, last);
      KeysConserve(init, keys);
      OverAppend(init, last, keys);
      HoursAppend(UserRows(init), last);
    }
  }

  lemma NoHours()
    ensures Hours([]) == 0.0 && Cards([]) == 0
  {
  }

  /******* Grouping *******/

  // A group before its coverage is computed.
  function Open(rows: seq<StatRow>, key: string): UserStat
    requires DetailsOf(rows, key) != []
  {
    GroupOf(rows, key).(coverage := 0.0)
  }

  ghost predicate Grouped(rows: seq<StatRow>, groups: map<string, UserStat>) {
    forall k :: if DetailsOf(rows, k) == [] then k !in groups else k in groups && groups[k] == Open(rows, k)
  }

  function Joined(groups: map<string, UserStat>, s: StatRow): map<string, UserStat> {
    var key := KeyOf(s);
    var g := if key in groups then groups[key] else UserStat(s.node, s.user, 0.0, 0, 0.0, []);
    groups[key := g.(hours := g.hours + s.occupied,
                     cards := if s.occupied > 0.0 then g.cards + 1 else g.cards,
                     details := g.details + [s])]
  }

  lemma GroupedStep(rows: seq<StatRow>, groups: map<string, UserStat>, s: StatRow)
    requires Grouped(rows, groups)
    ensures Grouped(rows + [s], if s.user == "" then groups else Joined(groups, s))
  {
    hide KeyOf, Coverage, Hours, Cards, DetailsOf;
    forall k
      ensures var after := if s.user == "" then groups else Joined(groups, s);
              if DetailsOf(rows + [s], k) == [] then k !in after else k in after && after[k] == Open(rows + [s], k)
    {
      DetailsAppend(rows, s, k);
      HoursAppend(DetailsOf(rows, k), s);
      NoHours();
    }
  }

  method Group(rows: seq<StatRow>) returns (groups: map<string, UserStat>)
    ensures Grouped(rows, groups)
  {
    hide Grouped;
    groups := map[];
    NothingGrouped();
    for i := 0 to |rows|
      invariant Grouped(rows[..i], groups)
    {
      var s := rows[i];
      assert rows[..i + 1] == rows[..i] + [s];
      GroupedStep(rows[..i], groups, s);
      if s.user == "" {
        continue;
      }
      var key := KeyOf(s);
      var g := if key in groups then groups[key] else UserStat(s.node, s.user, 0.0, 0, 0.0, []);
      g := g.(hours := g.hours + s.occupied);
      if s.occupied > 0.0 {
        g := g.(cards := g.cards + 1);
      }
      g := g.(details := g.details + [s]);
      groups := groups[key := g];
    }
    assert rows[..|rows|] == rows;
  }

  lemma NothingGrouped()
    ensures Grouped([], map[])
  {
  }

  // The share of the time in which use could be attributed, between 0 and 1.
  method CoverageOf(details: seq<StatRow>) returns (c: real)
    ensures c == Coverage(details) && 0.0 <= c <= 1.0
  {
    var valid, expected := 0.0, 0.0;
    for i := 0 to |details|
      invariant valid == Valid(details[..i]) && expected == Expected(details[..i])
    {
      assert details[..i + 1][..i] == details[..i];
      valid := valid + details[i].occupancyValid;
      expected := expected + details[i].expected;
    }
    assert details[..|details|] == details;
    c := if expected > 0.0 then Clamp(valid / expected) else 0.0;
  }

  /******* The order of the result *******/

  predicate StringLess(a: string, b: string) {
    b != "" && (a == "" || a[0] < b[0] || (a[0] == b[0] && StringLess(a[1..], b[1..])))
  }

  lemma {:induction false} StringTotal(a: string, b: string)
    ensures StringLess(a, b) || StringLess(b, a) || a == b
    ensures !(StringLess(a, b) && StringLess(b, a))
  {
    if a != "" && b != "" {
      StringTotal(a[1..], b[1..]);
      if a[0] == b[0] && a[1..] == b[1..] {
        assert a == [a[0]] + a[1..] && b == [b[0]] + b[1..];
      }
    }
  }

  lemma {:induction false} StringTransitive(a: string, b: string, c: string)
    requires StringLess(a, b) && StringLess(b, c)
    ensures StringLess(a, c)
  {
    if a != "" && a[0] == b[0] && b[0] == c[0] {
      StringTransitive(a[1..], b[1..], c[1..]);
    }
  }

  predicate Less(a: UserStat, b: UserStat) {
    if a.hours != b.hours then a.hours > b.hours else StringLess(a.node + a.user, b.node + b.user)
  }

  lemma NotLessTransitive(a: UserStat, b: UserStat, c: UserStat)
    requires !Less(b, a) && !Less(c, b)
    ensures !Less(c, a)
  {
    var x, y, z := a.node + a.user, b.node + b.user, c.node + c.user;
    StringTotal(x, y);
    StringTotal(y, z);
    StringTotal(x, z);
    if StringLess(x, y) && StringLess(y, z) {
      StringTransitive(x, y, z);
    }
  }

  ghost predicate InOrder(out: seq<UserStat>) {
    forall i, j :: 0 <= i < j < |out| ==> !Less(out[j], out[i])
  }

  // Some permutation in order; which one is open where the order has ties.
  method Sort(groups: seq<UserStat>) returns (out: seq<UserStat>)
    ensures multiset(out) == multiset(groups) && InOrder(out)
  {
    out := [];
    for i := 0 to |groups|
      invariant multiset(out) == multiset(groups[..i]) && InOrder(out)
    {
      assert groups[..i + 1] == groups[..i] + [groups[i]];
      out := Insert(out, groups[i]);
    }
    assert groups[..|groups|] == groups;
  }

  method Insert(sorted: seq<UserStat>, g: UserStat) returns (out: seq<UserStat>)
    requires InOrder(sorted)
    ensures multiset(out) == multiset(sorted) + multiset{g} && InOrder(out)
  {
    hide Less;
    var k := 0;
    while k < |sorted| && !Less(g, sorted[k])
      invariant k <= |sorted|
      invariant forall i :: 0 <= i < k ==> !Less(g, sorted[i])
    {
      k := k + 1;
    }
    out := sorted[..k] + [g] + sorted[k..];
    assert sorted == sorted[..k] + sorted[k..];
    Inserted(sorted, g, k);
  }

  lemma Inserted(sorted: seq<UserStat>, g: UserStat, k: nat)
    requires k <= |sorted| && InOrder(sorted) && forall i :: 0 <= i < k ==> !Less(g, sorted[i])
    requires k < |sorted| ==> Less(g, sorted[k])
    ensures InOrder(sorted[..k] + [g] + sorted[k..])
  {
    hide Less;
    forall j | k <= j < |sorted|
      ensures !Less(sorted[j], g)
    {
      LessAsymmetric(g, sorted[k]);
      if k < j {
        NotLessTransitive(g, sorted[k], sorted[j]);
      }
    }
  }

  lemma LessAsymmetric(a: UserStat, b: UserStat)
    requires Less(a, b)
    ensures !Less(b, a)
  {
    StringTotal(a.node + a.user, b.node + b.user);
  }

  // The order decides between any two groups of a list.
  ghost predicate Decided(out: seq<UserStat>) {
    forall a, b :: a in out && b in out && !Less(a, b) && !Less(b, a) ==> a == b
  }

  // Without ties there is only one permutation in order.
  lemma {:induction false} OrderIsUnique(a: seq<UserStat>, b: seq<UserStat>)
    requires multiset(a) == multiset(b) && InOrder(a) && InOrder(b) && Decided(a)
    ensures a == b
    decreases |a|
  {
    hide Less;
    assert |a| == |multiset(a)| == |multiset(b)| == |b|;
    if a != [] {
      SameHead(a, b);
      assert a == [a[0]] + a[1..] && b == [b[0]] + b[1..];
      assert multiset(a[1..]) == multiset(a) - multiset{a[0]};
      assert multiset(b[1..]) == multiset(b) - multiset{b[0]};
      assert forall x :: x in a[1..] ==> x in a;
      OrderIsUnique(a[1..], b[1..]);
    }
  }

  lemma SameHead(a: seq<UserStat>, b: seq<UserStat>)
    requires a != [] && b != [] && multiset(a) == multiset(b) && InOrder(a) && InOrder(b) && Decided(a)
    ensures a[0] == b[0]
  {
    hide Less;
    assert a[0] in multiset(b) && b[0] in multiset(a);
    var i :| 0 <= i < |a| && a[i] == b[0];
    var j :| 0 <= j < |b| && b[j] == a[0];
    LessIrreflexive(a[0]);
    assert !Less(a[i], a[0]) && !Less(b[j], b[0]);
  }

  lemma LessIrreflexive(a: UserStat)
    ensures !Less(a, a)
  {
    StringTotal(a.node + a.user, a.node + a.user);
  }

  /******* The result *******/

  ghost function Groups(rows: seq<StatRow>): set<UserStat> {
    set k | k in Keys(rows) && DetailsOf(rows, k) != [] :: GroupOf(rows, k)
  }

  lemma GroupKey(rows: seq<StatRow>, k: string)
    requires k in Keys(rows)
    ensures DetailsOf(rows, k) != []
    ensures k == Key(GroupOf(rows, k).node, GroupOf(rows, k).user)
    ensures GroupOf(rows, k).details == DetailsOf(rows, k) && GroupOf(rows, k).details[0] in rows
    ensures GroupOf(rows, k).node == DetailsOf(rows, k)[0].node && GroupOf(rows, k).user == DetailsOf(rows, k)[0].user
  {
    hide DetailsOf, Keys, Coverage, Hours, Cards;
    DetailsOfKeys(rows, k);
    var d := DetailsOf(rows, k);
    assert d[0] in d;
    DetailsMembers(rows, k, d[0]);
  }

  ghost function GroupsOf(rows: seq<StatRow>, keys: set<string>): set<UserStat> {
    set k | k in keys && DetailsOf(rows, k) != [] :: GroupOf(rows, k)
  }

  lemma NewGroup(rows: seq<StatRow>, keys: set<string>, k: string)
    requires keys <= Keys(rows) && k in Keys(rows) && k !in keys
    ensures DetailsOf(rows, k) != []
    ensures GroupsOf(rows, keys + {k}) == GroupsOf(rows, keys) + {GroupOf(rows, k)}
    ensures GroupOf(rows, k) !in GroupsOf(rows, keys)
  {
    hide GroupOf, DetailsOf, Keys;
    GroupKey(rows, k);
    forall j | j in keys
      ensures DetailsOf(rows, j) != [] && GroupOf(rows, j) != GroupOf(rows, k)
    {
      GroupKey(rows, j);
    }
  }

  // One more group in the list.
  lemma OneMoreGroup(rows: seq<StatRow>, groups: map<string, UserStat>, list: seq<UserStat>, keys: set<string>, k: string)
    requires Grouped(rows, groups) && groups.Keys == Keys(rows)
    requires keys <= Keys(rows) && k in Keys(rows) && k !in keys
    requires multiset(list) == multiset(GroupsOf(rows, keys))
    ensures k in groups
    ensures multiset(list + [groups[k].(coverage := Coverage(groups[k].details))]) == multiset(GroupsOf(rows, keys + {k}))
  {
    hide Grouped, GroupOf, DetailsOf, Keys, Coverage, GroupsOf;
    NewGroup(rows, keys, k);
    OpenIs(rows, groups, k);
  }

  // The groups of a map, with their coverage, in the order in which it happens to be walked.
  method Covered(rows: seq<StatRow>, groups: map<string, UserStat>) returns (list: seq<UserStat>)
    requires Grouped(rows, groups)
    ensures multiset(list) == multiset(Groups(rows))
  {
    hide Grouped, GroupOf, DetailsOf, Keys, Coverage, GroupsOf, Groups;
    GroupedKeys(rows, groups);
    NoGroups(rows);
    var rest := groups.Keys;
    list := [];
    ghost var done: set<string> := {};
    while rest != {}
      invariant rest + done == groups.Keys && rest !! done
      invariant multiset(list) == multiset(GroupsOf(rows, done))
      decreases rest
    {
      var k :| k in rest;
      OneMoreGroup(rows, groups, list, done, k);
      var c := CoverageOf(groups[k].details);
      list := list + [groups[k].(coverage := c)];
      rest := rest - {k};
      done := done + {k};
    }
    assert done == Keys(rows);
  }

  lemma NoGroups(rows: seq<StatRow>)
    ensures GroupsOf(rows, {}) == {} && GroupsOf(rows, Keys(rows)) == Groups(rows)
  {
  }

  // One group per node and user with rows, in order, with the hours and cards of all rows
  // of users.
  method GroupUserStats(rows: seq<StatRow>) returns (out: seq<UserStat>)
    ensures multiset(out) == multiset(Groups(rows)) && InOrder(out)
    ensures TotalHours(out) == Hours(UserRows(rows)) && TotalCards(out) == Cards(UserRows(rows))
  {
    hide Grouped, GroupsOf, Groups, InOrder, TotalHours, TotalCards, Hours, Cards, UserRows;
    var groups := Group(rows);
    var list := Covered(rows, groups);
    out := Sort(list);
    GroupingConserves(rows, out);
  }

  /******* The totals of the result *******/

  function TotalHours(out: seq<UserStat>): real {
    if out == [] then 0.0 else TotalHours(out[..|out| - 1]) + out[|out| - 1].hours
  }

  function TotalCards(out: seq<UserStat>): nat {
    if out == [] then 0 else TotalCards(out[..|out| - 1]) + out[|out| - 1].cards
  }

  lemma {:induction false} TotalsWithout(out: seq<UserStat>, i: nat)
    requires i < |out|
    ensures TotalHours(out) == TotalHours(out[..i] + out[i + 1..]) + out[i].hours
    ensures TotalCards(out) == TotalCards(out[..i] + out[i + 1..]) + out[i].cards
    decreases |out|
  {
    var n := |out| - 1;
    if i == n {
      assert out[..i] + out[i + 1..] == out[..n];
    } else {
      TotalsWithout(out[..n], i);
      var rest := out[..i] + out[i + 1..];
      assert rest[..n - 1] == out[..n][..i] + out[..n][i + 1..];
      assert rest[n - 1] == out[n] && out[..n][i] == out[i];
    }
  }

  lemma {:induction false} TotalsAre(rows: seq<StatRow>, keys: set<string>, out: seq<UserStat>)
    requires keys <= Keys(rows) && multiset(out) == multiset(GroupsOf(rows, keys))
    ensures (TotalHours(out), TotalCards(out)) == Over(rows, keys)
    decreases |keys|
  {
    hide GroupsOf, GroupOf, DetailsOf, Keys, Over, TotalHours, TotalCards;
    if keys == {} {
      NoGroups(rows);
      NoKeys(rows);
      assert |multiset(out)| == |out| == 0;
      NoTotals();
    } else {
      var k :| k in keys;
      var rest := keys - {k};
      NewGroup(rows, rest, k);
      assert rest + {k} == keys;
      var i := PlaceOf(out, GroupsOf(rows, rest), GroupOf(rows, k));
      TotalsAre(rows, rest, out[..i] + out[i + 1..]);
      TotalsWithout(out, i);
      OverPick(rows, keys, k);
      GroupTotals(rows, k);
    }
  }

  // Where a member stands in a listing of a set.
  lemma PlaceOf<T>(out: seq<T>, s: set<T>, g: T) returns (i: nat)
    requires g !in s && multiset(out) == multiset(s + {g})
    ensures i < |out| && out[i] == g && multiset(out[..i] + out[i + 1..]) == multiset(s)
  {
    assert g in multiset(out);
    i :| i < |out| && out[i] == g;
    assert out == out[..i] + [out[i]] + out[i + 1..];
    assert multiset(out[..i] + out[i + 1..]) == multiset(out) - multiset{g};
    assert multiset(s + {g}) - multiset{g} == multiset(s);
  }

  lemma NoTotals()
    ensures TotalHours([]) == 0.0 && TotalCards([]) == 0
  {
  }

  lemma GroupTotals(rows: seq<StatRow>, k: string)
    requires DetailsOf(rows, k) != []
    ensures GroupOf(rows, k).hours == Hours(DetailsOf(rows, k)) && GroupOf(rows, k).cards == Cards(DetailsOf(rows, k))
  {
  }

  // Together the groups of the result hold the hours and the cards of all user rows, each
  // once.
  lemma {:induction false} GroupingConserves(rows: seq<StatRow>, out: seq<UserStat>)
    requires multiset(out) == multiset(Groups(rows))
    ensures TotalHours(out) == Hours(UserRows(rows)) && TotalCards(out) == Cards(UserRows(rows))
  {
    hide GroupsOf, Groups, Over, TotalHours, TotalCards, Hours, Cards, UserRows, Keys;
    NoGroups(rows);
    TotalsAre(rows, Keys(rows), out);
    KeysConserve(rows, Keys(rows));
  }

  lemma GroupedKeys(rows: seq<StatRow>, groups: map<string, UserStat>)
    requires Grouped(rows, groups)
    ensures groups.Keys == Keys(rows)
  {
    hide DetailsOf, Keys, GroupOf;
    forall k: string
      ensures k in groups <==> k in Keys(rows)
    {
      DetailsOfKeys(rows, k);
    }
  }

  lemma OpenIs(rows: seq<StatRow>, groups: map<string, UserStat>, k: string)
    requires Grouped(rows, groups) && DetailsOf(rows, k) != []
    ensures k in groups && groups[k].(coverage := Coverage(groups[k].details)) == GroupOf(rows, k)
  {
    hide DetailsOf;
  }

  // Node identifiers have one length: 24 hexadecimal digits.
  ghost predicate FixedLength(rows: seq<StatRow>) {
    forall s, t :: s in rows && t in rows ==> |s.node| == |t.node|
  }

  lemma SameText(n: string, u: string, m: string, v: string, between: string)
    requires |n| == |m| && n + between + u == m + between + v
    ensures n == m && u == v
  {
    var x, y := n + between + u, m + between + v;
    assert n == x[..|n|] && m == y[..|m|];
    assert u == x[|n| + |between|..] && v == y[|m| + |between|..];
  }

  // A group holds the rows of one node and one user, and all of them: users of the same
  // name on other nodes stay apart.
  lemma {:induction false} GroupIsOneUser(rows: seq<StatRow>, k: string, s: StatRow)
    requires FixedLength(rows) && k in Keys(rows)
    ensures DetailsOf(rows, k) != []
    ensures s in GroupOf(rows, k).details
       <==> s in rows && s.user != "" && s.node == GroupOf(rows, k).node && s.user == GroupOf(rows, k).user
  {
    hide DetailsOf, Keys;
    GroupKey(rows, k);
    DetailsMembers(rows, k, s);
    var g := GroupOf(rows, k);
    if s in rows && KeyOf(s) == k {
      SameText(s.node, s.user, g.node, g.user, "/");
    }
  }

  // A tie is two groups of equal hours whose node and user read the same run together.
  lemma TieIff(a: UserStat, b: UserStat)
    ensures !Less(a, b) && !Less(b, a) <==> a.hours == b.hours && a.node + a.user == b.node + b.user
  {
    StringTotal(a.node + a.user, b.node + b.user);
  }

  lemma SameGroup(rows: seq<StatRow>, j: string, k: string)
    requires FixedLength(rows) && j in Keys(rows) && k in Keys(rows)
    requires DetailsOf(rows, j) != [] && DetailsOf(rows, k) != []
    requires !Less(GroupOf(rows, j), GroupOf(rows, k)) && !Less(GroupOf(rows, k), GroupOf(rows, j))
    ensures j == k
  {
    hide Less, DetailsOf, Keys, GroupOf;
    var a, b := GroupOf(rows, j), GroupOf(rows, k);
    TieIff(a, b);
    GroupKey(rows, j);
    GroupKey(rows, k);
    assert |a.node| == |b.node|;
    assert a.node + "" + a.user == a.node + a.user && b.node + "" + b.user == b.node + b.user;
    SameText(a.node, a.user, b.node, b.user, "");
  }

  lemma GroupsAreDecided(rows: seq<StatRow>, out: seq<UserStat>)
    requires FixedLength(rows) && multiset(out) == multiset(Groups(rows))
    ensures Decided(out)
  {
    hide Less, DetailsOf, Keys, GroupOf, FixedLength;
    forall a, b | a in out && b in out && !Less(a, b) && !Less(b, a)
      ensures a == b
    {
      assert a in multiset(out) && b in multiset(out);
      var j :| j in Keys(rows) && DetailsOf(rows, j) != [] && GroupOf(rows, j) == a;
      var k :| k in Keys(rows) && DetailsOf(rows, k) != [] && GroupOf(rows, k) == b;
      SameGroup(rows, j, k);
    }
  }

  // Whatever order the map is walked in and however ties are broken, there is one result.
  lemma {:induction false} ResultIsDetermined(rows: seq<StatRow>, a: seq<UserStat>, b: seq<UserStat>)
    requires FixedLength(rows)
    requires multiset(a) == multiset(Groups(rows)) && InOrder(a)
    requires multiset(b) == multiset(Groups(rows)) && InOrder(b)
    ensures a == b
  {
    GroupsAreDecided(rows, a);
    OrderIsUnique(a, b);
  }

  // Without the fixed length the result is open: both orders of these two groups are in
  // order, and they differ.
  lemma TiesAreOpen(a: UserStat, b: UserStat)
    requires a.hours == b.hours && a.node == "a" && a.user == "bc" && b.node == "ab" && b.user == "c"
    ensures InOrder([a, b]) && InOrder([b, a]) && [a, b] != [b, a]
  {
    assert a.node + a.user == "abc" && b.node + b.user == "abc";
    TieIff(a, b);
  }
  /******* What order and coverage mean *******/

  // One text comes before another: at the first place where they differ.
  ghost predicate Before(a: string, b: string, n: nat) {
    && n <= |a| && n < |b| && a[..n] == b[..n]
    && (n == |a| || a[n] < b[n])
  }

  lemma BeforeStep(a: string, b: string, n: nat)
    requires a != "" && b != "" && a[0] == b[0]
    ensures Before(a, b, n + 1) <==> Before(a[1..], b[1..], n)
  {
    if n + 1 <= |a| && n + 1 <= |b| {
      var x, y := a[1..][..n], b[1..][..n];
      assert a[..n + 1] == [a[0]] + x && b[..n + 1] == [b[0]] + y;
      if a[..n + 1] == b[..n + 1] {
        assert x == a[..n + 1][1..] && y == b[..n + 1][1..];
      }
    }
  }

  lemma {:induction false} StringLessIs(a: string, b: string)
    ensures StringLess(a, b) <==> exists n: nat :: Before(a, b, n)
  {
    if b == "" || a == "" {
      if b != "" {
        assert Before(a, b, 0);
      }
    } else if a[0] == b[0] {
      StringLessIs(a[1..], b[1..]);
      forall n: nat
        ensures Before(a, b, n + 1) <==> Before(a[1..], b[1..], n)
      {
        BeforeStep(a, b, n);
      }
      if n: nat :| Before(a, b, n) {
        assert n > 0;
        assert Before(a[1..], b[1..], n - 1);
      }
    } else if a[0] < b[0] {
      assert Before(a, b, 0);
    } else {
      forall n: nat
        ensures !Before(a, b, n)
      {
        if n > 0 && n <= |a| && n <= |b| {
          assert a[..n][0] == a[0] && b[..n][0] == b[0];
        }
      }
    }
  }

  // In the result, more hours come first, and among equal hours the text of node and user
  // decides.
  lemma {:induction false} OrderMeans(out: seq<UserStat>, i: nat, j: nat)
    requires InOrder(out) && i < j < |out|
    ensures out[i].hours >= out[j].hours
    ensures out[i].hours == out[j].hours ==> forall n: nat :: !Before(out[j].node + out[j].user, out[i].node + out[i].user, n)
  {
    assert !Less(out[j], out[i]);
    if out[i].hours == out[j].hours {
      StringLessIs(out[j].node + out[j].user, out[i].node + out[i].user);
    }
  }

  // The share of valid time in what was expected, row by row between two bounds.
  ghost predicate SharesWithin(d: seq<StatRow>, lo: real, hi: real) {
    forall s :: s in d ==> 0.0 <= s.expected && Part(lo, s.expected) <= s.occupancyValid <= Part(hi, s.expected)
  }

  function Part(share: real, of: real): real {
    share * of
  }

  lemma PartAdds(share: real, a: real, b: real)
    ensures Part(share, a + b) == Part(share, a) + Part(share, b) && Part(share, 0.0) == 0.0
  {
  }

  lemma {:induction false} SumsWithin(d: seq<StatRow>, lo: real, hi: real)
    requires SharesWithin(d, lo, hi)
    ensures 0.0 <= Expected(d) && Part(lo, Expected(d)) <= Valid(d) <= Part(hi, Expected(d))
    ensures forall s :: s in d ==> s.expected <= Expected(d)
  {
    hide Part;
    PartAdds(lo, 0.0, 0.0);
    PartAdds(hi, 0.0, 0.0);
    if d != [] {
      var init, last := d[..|d| - 1], d[|d| - 1];
      assert d == init + [last] && last in d;
      SumsWithin(init, lo, hi);
      PartAdds(lo, Expected(init), last.expected);
      PartAdds(hi, Expected(init), last.expected);
    }
  }

  // The coverage of a group lies between the least and the greatest share of its rows: it is
  // the share that all of them have, if they have the same.
  lemma {:induction false} CoverageIsAShare(d: seq<StatRow>, lo: real, hi: real)
    requires SharesWithin(d, lo, hi) && 0.0 <= lo <= hi <= 1.0 && exists s :: s in d && s.expected > 0.0
    ensures lo <= Coverage(d) <= hi
  {
    hide Part;
    SumsWithin(d, lo, hi);
    Quotient(Valid(d), Expected(d), lo, hi);
  }

  lemma Quotient(valid: real, expected: real, lo: real, hi: real)
    requires 0.0 < expected && Part(lo, expected) <= valid <= Part(hi, expected)
    ensures lo <= valid / expected <= hi
  {
    var q := valid / expected;
    assert q * expected == valid;
    assert (q - lo) * expected >= 0.0 && (hi - q) * expected >= 0.0;
  }

  // It never exceeds the whole, and is the whole where no row falls short.
  lemma {:induction false} CoverageIsFull(d: seq<StatRow>, hi: real)
    requires SharesWithin(d, 1.0, hi) && exists s :: s in d && s.expected > 0.0
    ensures Coverage(d) == 1.0
  {
    hide Part;
    SumsWithin(d, 1.0, hi);
    Quotient(Valid(d), Expected(d), 1.0, hi);
  }

  // Where nothing was expected there is no coverage.
  lemma {:induction false} NothingExpected(d: seq<StatRow>)
    requires forall s :: s in d ==> s.expected == 0.0
    ensures Coverage(d) == 0.0
  {
    NoneExpected(d);
  }

  lemma {:induction false} NoneExpected(d: seq<StatRow>)
    requires forall s :: s in d ==> s.expected == 0.0
    ensures Expected(d) == 0.0
  {
    if d != [] {
      assert d[|d| - 1] in d && forall s :: s in d[..|d| - 1] ==> s in d;
      NoneExpected(d[..|d| - 1]);
    }
  }
}
