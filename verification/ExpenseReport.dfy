/**
  * Expenses by category or tag: grouping into at most 128 groups, sorting, and percentages to two
  * decimals that are balanced to add up to 100. Amounts are integers in a common unit.
  */
module ExpenseReport {
  import opened Prelude
  import opened Arith
  import opened Decimals

  const MAX_GROUPS := 128
  const NAME_SIZE := 128
  const TOLERANCE := 5

  datatype Row = Row(name: Option<string>, amount: int)

  datatype Group = Group(name: string, amount: int, count: int)

  // ---------------------------------------------------------------------------------------
  // Grouping

  /** Names are stored in a buffer with room for 127 characters. */
  function Stored(name: string): string { if |name| < NAME_SIZE then name else name[..NAME_SIZE - 1] }

  function Total(rows: seq<Row>): int {
    if rows == [] then 0 else Total(rows[..|rows| - 1]) + rows[|rows| - 1].amount
  }

  function GroupTotal(groups: seq<Group>): int {
    if groups == [] then 0 else GroupTotal(groups[..|groups| - 1]) + groups[|groups| - 1].amount
  }

  /** The first group with this name, or the number of groups. */
  function Find(groups: seq<Group>, name: string): (k: nat)
    ensures k <= |groups|
    ensures k < |groups| ==> groups[k].name == name
    ensures forall j :: 0 <= j < k ==> groups[j].name != name
  {
    if groups == [] then 0
    else if groups[0].name == name then 0
    else
      var k := Find(groups[1..], name);
      assert forall j :: 1 <= j < 1 + k ==> groups[j].name == groups[1..][j - 1].name;
      1 + k
  }

  function WithRow(groups: seq<Group>, row: Row): seq<Group> {
    match row.name
    case None => groups
    case Some(name) =>
      var k := Find(groups, name);
      if k < |groups| then
        groups[k := groups[k].(amount := groups[k].amount + row.amount, count := groups[k].count + 1)]
      else if |groups| < MAX_GROUPS then groups + [Group(Stored(name), row.amount, 1)]
      else groups
  }

  function Grouped(rows: seq<Row>): (groups: seq<Group>)
    ensures |groups| <= 128
  {
    if rows == [] then [] else WithRow(Grouped(rows[..|rows| - 1]), rows[|rows| - 1])
  }

  method GroupRows(rows: seq<Row>) returns (groups: array<Group>, count: nat, total: int)
    ensures groups.Length == 128 && count <= 128 && fresh(groups)
    ensures groups[..count] == Grouped(rows) && total == Total(rows)
  {
    groups := new Group[MAX_GROUPS](_ => Group("", 0, 0));
    count, total := 0, 0;
    for i := 0 to |rows|
      invariant count <= MAX_GROUPS && groups[..count] == Grouped(rows[..i]) && total == Total(rows[..i])
    {
      assert rows[..i + 1][..i] == rows[..i];
      total := total + rows[i].amount;
      if rows[i].name.Some? {
        count := AddToGroup(groups, count, rows[i].name.value, rows[i].amount);
      }
    }
    assert rows[..|rows|] == rows;
  }

  method AddToGroup(groups: array<Group>, count: nat, name: string, amount: int) returns (newCount: nat)
    requires count <= MAX_GROUPS == groups.Length
    modifies groups
    ensures newCount <= MAX_GROUPS && groups[..newCount] == WithRow(old(groups[..count]), Row(Some(name), amount))
  {
    newCount := count;
    var found := FindGroup(groups, count, name);
    if found < count {
      groups[found] := groups[found].(amount := groups[found].amount + amount, count := groups[found].count + 1);
    } else if count < MAX_GROUPS {
      groups[count] := Group(Stored(name), amount, 1);
      newCount := count + 1;
    }
  }

  method FindGroup(groups: array<Group>, count: nat, name: string) returns (k: nat)
    requires count <= groups.Length
    ensures k == Find(groups[..count], name)
  {
    k := 0;
    while k < count && groups[k].name != name
      invariant k <= count && forall j :: 0 <= j < k ==> groups[j].name != name
    {
      k := k + 1;
    }
  }

  predicate IsDropped(groups: seq<Group>, row: Row) {
    row.name.None? || (Find(groups, row.name.value) == |groups| && |groups| >= MAX_GROUPS)
  }

  /** What counts towards the total but towards no group: rows without name, and names beyond the 128th. */
  function Dropped(rows: seq<Row>): int {
    if rows == [] then 0
    else
      var front, row := rows[..|rows| - 1], rows[|rows| - 1];
      Dropped(front) + (if IsDropped(Grouped(front), row) then row.amount else 0)
  }

  lemma {:induction false} GroupTotalUpdate(groups: seq<Group>, k: nat, g: Group)
    requires k < |groups|
    ensures GroupTotal(groups[k := g]) == GroupTotal(groups) + g.amount - groups[k].amount
  {
    var front := groups[..|groups| - 1];
    if k < |front| {
      GroupTotalUpdate(front, k, g);
      assert groups[k := g][..|groups| - 1] == front[k := g];
    } else {
      assert groups[k := g][..|groups| - 1] == front;
    }
  }

  lemma {:induction false} RowAddsToTotal(groups: seq<Group>, row: Row)
    ensures GroupTotal(WithRow(groups, row)) == GroupTotal(groups) + (if IsDropped(groups, row) then 0 else row.amount)
  {
    if row.name.Some? {
      var k := Find(groups, row.name.value);
      if k < |groups| {
        GroupTotalUpdate(groups, k, groups[k].(amount := groups[k].amount + row.amount, count := groups[k].count + 1));
      } else if |groups| < MAX_GROUPS {
        var more := groups + [Group(Stored(row.name.value), row.amount, 1)];
        assert more[..|more| - 1] == groups;
      }
    }
  }

  /** Every amount is in exactly one group, or dropped. */
  lemma {:induction false} GroupingKeepsTotal(rows: seq<Row>)
    ensures GroupTotal(Grouped(rows)) + Dropped(rows) == Total(rows)
  {
    if rows != [] {
      GroupingKeepsTotal(rows[..|rows| - 1]);
      RowAddsToTotal(Grouped(rows[..|rows| - 1]), rows[|rows| - 1]);
    }
  }

  /** Every group has the name of one of its rows, up to 127 characters of it. */
  lemma {:induction false} GroupNamesAreCut(rows: seq<Row>, k: nat)
    requires k < |Grouped(rows)|
    ensures exists i :: 0 <= i < |rows| && rows[i].name.Some? &&
              var name := rows[i].name.value;
              Grouped(rows)[k].name == if |name| <= 127 then name else name[..127]
  {
    var front, row := rows[..|rows| - 1], rows[|rows| - 1];
    if k < |Grouped(front)| {
      GroupNamesAreCut(front, k);
      var i :| 0 <= i < |front| && front[i].name.Some? &&
        var name := front[i].name.value; Grouped(front)[k].name == if |name| <= 127 then name else name[..127];
      assert rows[i] == front[i] && Grouped(rows)[k].name == Grouped(front)[k].name;
    } else {
      assert row.name.Some? && Grouped(rows)[k].name == Stored(row.name.value);
    }
  }

  function SumFor(rows: seq<Row>, name: string): int {
    if rows == [] then 0
    else
      var row := rows[|rows| - 1];
      SumFor(rows[..|rows| - 1], name) + (if row.name == Some(name) then row.amount else 0)
  }

  function Names(rows: seq<Row>): set<string> {
    set i | 0 <= i < |rows| && rows[i].name.Some? :: rows[i].name.value
  }

  function GroupNames(groups: seq<Group>): set<string> { set i | 0 <= i < |groups| :: groups[i].name }

  ghost predicate OnePerName(rows: seq<Row>, groups: seq<Group>) {
    && (forall j, k :: 0 <= j < k < |groups| ==> groups[j].name != groups[k].name)
    && (forall k :: 0 <= k < |groups| ==> groups[k].amount == SumFor(rows, groups[k].name))
    && GroupNames(groups) == Names(rows)
  }

  ghost predicate FitNames(rows: seq<Row>) {
    && |Names(rows)| <= 128
    && (forall i :: 0 <= i < |rows| && rows[i].name.Some? ==> |rows[i].name.value| <= 127)
  }

  lemma {:induction false} NamesOfFront(rows: seq<Row>)
    requires rows != []
    ensures var row := rows[|rows| - 1];
            Names(rows) == Names(rows[..|rows| - 1]) + (if row.name.Some? then {row.name.value} else {})
    ensures |Names(rows[..|rows| - 1])| <= |Names(rows)|
  {
    var front, row := rows[..|rows| - 1], rows[|rows| - 1];
    var last := if row.name.Some? then {row.name.value} else {};
    forall n | n in Names(rows)
      ensures n in Names(front) + last
    {
      var i :| 0 <= i < |rows| && rows[i].name == Some(n);
      assert i < |front| ==> front[i].name == Some(n);
    }
    forall n | n in Names(front) + last
      ensures n in Names(rows)
    {
      if n in Names(front) {
        var i :| 0 <= i < |front| && front[i].name == Some(n);
        assert rows[i].name == Some(n);
      } else {
        assert rows[|rows| - 1].name == Some(n);
      }
    }
    Cardinal(Names(front), Names(rows));
  }

  lemma {:induction false} Cardinal<T>(a: set<T>, b: set<T>)
    requires a <= b
    ensures |a| <= |b|
  {
    if a != {} {
      var x :| x in a;
      Cardinal(a - {x}, b - {x});
    }
  }

  lemma {:induction false} NamesAreCounted(groups: seq<Group>)
    requires forall j, k :: 0 <= j < k < |groups| ==> groups[j].name != groups[k].name
    ensures |GroupNames(groups)| == |groups|
  {
    if groups != [] {
      var front := groups[..|groups| - 1];
      NamesAreCounted(front);
      AppendedName(front, groups[|groups| - 1]);
      assert groups == front + [groups[|groups| - 1]];
    }
  }

  lemma {:induction false} AppendedName(groups: seq<Group>, g: Group)
    ensures GroupNames(groups + [g]) == GroupNames(groups) + {g.name}
  {
    var more := groups + [g];
    forall n | n in GroupNames(groups) + {g.name}
      ensures n in GroupNames(more)
    {
      if n in GroupNames(groups) {
        var i :| 0 <= i < |groups| && groups[i].name == n;
        assert more[i].name == n;
      } else {
        assert more[|groups|].name == n;
      }
    }
  }

  lemma {:induction false} SumForUnknown(rows: seq<Row>, name: string)
    requires name !in Names(rows)
    ensures SumFor(rows, name) == 0
  {
    if rows != [] {
      NamesOfFront(rows);
      SumForUnknown(rows[..|rows| - 1], name);
    }
  }

  lemma {:induction false} RowKeepsNames(rows: seq<Row>)
    requires rows != [] && FitNames(rows) && OnePerName(rows[..|rows| - 1], Grouped(rows[..|rows| - 1]))
    ensures OnePerName(rows, Grouped(rows))
  {
    var front, row := rows[..|rows| - 1], rows[|rows| - 1];
    var groups := Grouped(front);
    if row.name.Some? {
      var k := Find(groups, row.name.value);
      if k < |groups| {
        KnownName(rows, groups, k);
      } else {
        NewName(rows, groups);
      }
    } else {
      Unnamed(rows, groups);
    }
  }

  lemma {:induction false} Unnamed(rows: seq<Row>, groups: seq<Group>)
    requires rows != [] && rows[|rows| - 1].name.None? && OnePerName(rows[..|rows| - 1], groups)
    ensures OnePerName(rows, groups)
  {
    NamesOfFront(rows);
    forall j | 0 <= j < |groups|
      ensures SumFor(rows, groups[j].name) == SumFor(rows[..|rows| - 1], groups[j].name)
    {
    }
  }

  lemma {:induction false} KnownName(rows: seq<Row>, groups: seq<Group>, k: nat)
    requires rows != [] && OnePerName(rows[..|rows| - 1], groups) && k < |groups|
    requires rows[|rows| - 1].name == Some(groups[k].name)
    ensures OnePerName(rows, groups[k := groups[k].(amount := groups[k].amount + rows[|rows| - 1].amount,
                                                    count := groups[k].count + 1)])
  {
    var front, row := rows[..|rows| - 1], rows[|rows| - 1];
    var after := groups[k := groups[k].(amount := groups[k].amount + row.amount, count := groups[k].count + 1)];
    NamesOfFront(rows);
    assert forall j :: 0 <= j < |groups| ==> after[j].name == groups[j].name;
    assert GroupNames(after) == GroupNames(groups);
    assert groups[k].name in GroupNames(groups);
  }

  lemma {:induction false} NewName(rows: seq<Row>, groups: seq<Group>)
    requires rows != [] && FitNames(rows) && OnePerName(rows[..|rows| - 1], groups) && rows[|rows| - 1].name.Some?
    requires Find(groups, rows[|rows| - 1].name.value) == |groups|
    ensures |groups| < MAX_GROUPS
    ensures OnePerName(rows, groups + [Group(Stored(rows[|rows| - 1].name.value), rows[|rows| - 1].amount, 1)])
  {
    var front, row := rows[..|rows| - 1], rows[|rows| - 1];
    var name := row.name.value;
    var g := Group(Stored(name), row.amount, 1);
    NamesOfFront(rows);
    NamesAreCounted(groups);
    assert name !in Names(front);
    assert |Names(front) + {name}| == |Names(front)| + 1;
    SumForUnknown(front, name);
    AppendedName(groups, g);
    forall j | 0 <= j < |groups|
      ensures SumFor(rows, groups[j].name) == groups[j].amount
    {
    }
  }

  /**
    * With at most 128 names, each shorter than 128 characters, there is exactly one group per name, it
    * holds the sum of its rows, and no named row is dropped.
    */
  lemma {:induction false} OneGroupPerName(rows: seq<Row>)
    requires FitNames(rows)
    ensures OnePerName(rows, Grouped(rows))
  {
    if rows != [] {
      NamesOfFront(rows);
      OneGroupPerName(rows[..|rows| - 1]);
      RowKeepsNames(rows);
    }
  }

  // ---------------------------------------------------------------------------------------
  // Sorting

  ghost predicate Descending(s: seq<Group>) { forall i, j :: 0 <= i < j < |s| ==> s[i].amount >= s[j].amount }

  /** No group from `from` on is larger than any of the first `i`. */
  ghost predicate TopFirst(s: seq<Group>, i: nat) {
    forall a, b :: 0 <= a < i && a < b < |s| ==> s[a].amount >= s[b].amount
  }

  function Swapped(s: seq<Group>, i: nat, j: nat): seq<Group>
    requires i < |s| && j < |s|
  {
    s[i := s[j]][j := s[i]]
  }

  lemma {:induction false} SwappedIsPermutation(s: seq<Group>, i: nat, j: nat)
    requires i < j < |s|
    ensures multiset(Swapped(s, i, j)) == multiset(s)
  {
    assert s == s[..i] + [s[i]] + s[i + 1..j] + [s[j]] + s[j + 1..];
    assert Swapped(s, i, j) == s[..i] + [s[j]] + s[i + 1..j] + [s[i]] + s[j + 1..];
  }

  /** Puts the largest of the groups from `i` on at `i`. */
  method SelectLargest(groups: array<Group>, count: nat, i: nat)
    requires i < count <= groups.Length && TopFirst(groups[..count], i)
    modifies groups
    ensures TopFirst(groups[..count], i + 1) && multiset(groups[..count]) == multiset(old(groups[..count]))
    ensures groups[count..] == old(groups[count..])
  {
    var j := i + 1;
    while j < count
      invariant i < j <= count && TopFirst(groups[..count], i)
      invariant forall b :: i < b < j ==> groups[i].amount >= groups[b].amount
      invariant multiset(groups[..count]) == multiset(old(groups[..count]))
      invariant groups[count..] == old(groups[count..])
    {
      if groups[j].amount > groups[i].amount {
        ghost var before := groups[..count];
        SwappedIsPermutation(before, i, j);
        SwapKeepsTop(before, i, j);
        groups[i], groups[j] := groups[j], groups[i];
        assert groups[..count] == Swapped(before, i, j);
      }
      j := j + 1;
    }
  }

  lemma {:induction false} SwapKeepsTop(s: seq<Group>, i: nat, j: nat)
    requires i < j < |s| && TopFirst(s, i)
    ensures TopFirst(Swapped(s, i, j), i)
  {
  }

  /** The exchange sort. */
  method SortGroups(groups: array<Group>, count: nat)
    requires count <= groups.Length
    modifies groups
    ensures Descending(groups[..count]) && multiset(groups[..count]) == multiset(old(groups[..count]))
  {
    var i := 0;
    while i < count - 1
      invariant 0 <= i <= count && TopFirst(groups[..count], i)
      invariant multiset(groups[..count]) == multiset(old(groups[..count]))
    {
      SelectLargest(groups, count, i);
      i := i + 1;
    }
  }

  // ---------------------------------------------------------------------------------------
  // Percentages, in hundredths of a percent

  const WHOLE := 100_00

  function Percent(amount: int, total: int): int {
    if total > 0 then DivHalfUp(amount * WHOLE, total) else 0
  }

  function Percents(groups: seq<Group>, total: int): (r: seq<int>)
    ensures |r| == |groups|
  {
    seq(|groups|, i requires 0 <= i < |groups| => Percent(groups[i].amount, total))
  }

  function Sum(s: seq<int>): int { if s == [] then 0 else Sum(s[..|s| - 1]) + s[|s| - 1] }

  /** The first largest amount, if it is at least 0; index 0 otherwise. */
  function LargestAt(groups: seq<Group>): (k: nat)
    ensures groups != [] ==> k < |groups|
  {
    if |groups| <= 1 then 0
    else
      var k, last := LargestAt(groups[..|groups| - 1]), groups[|groups| - 1].amount;
      if last >= 0 && last > groups[k].amount then |groups| - 1 else k
  }

  /** The difference to 100 percent goes to the largest group, unless it is more than 0.05. */
  function Balanced(groups: seq<Group>, total: int): (r: seq<int>)
    ensures |r| == |groups|
  {
    var pcts := Percents(groups, total);
    var delta := WHOLE - Sum(pcts);
    if total > 0 && groups != [] && -TOLERANCE <= delta <= TOLERANCE then
      pcts[LargestAt(groups) := pcts[LargestAt(groups)] + delta]
    else pcts
  }

  method RoundPercents(groups: array<Group>, count: nat, total: int, pcts: array<int>) returns (sum: int)
    requires count <= groups.Length && count <= pcts.Length
    modifies pcts
    ensures pcts[..count] == Percents(groups[..count], total) && sum == Sum(Percents(groups[..count], total))
  {
    sum := 0;
    ghost var goal := Percents(groups[..count], total);
    for k := 0 to count
      invariant pcts[..k] == goal[..k] && sum == Sum(goal[..k])
    {
      assert goal[..k + 1][..k] == goal[..k] && goal[k] == Percent(groups[k].amount, total);
      pcts[k] := Percent(groups[k].amount, total);
      sum := sum + pcts[k];
    }
    assert goal[..count] == goal;
  }

  method FindLargest(groups: array<Group>, count: nat) returns (maxIdx: nat)
    requires count <= groups.Length
    ensures maxIdx == LargestAt(groups[..count])
  {
    var maxAmount := -1;
    maxIdx := 0;
    for k := 0 to count
      invariant maxIdx == LargestAt(groups[..k])
      invariant maxAmount == if k == 0 || groups[maxIdx].amount < 0 then -1 else groups[maxIdx].amount
    {
      assert groups[..k + 1][..k] == groups[..k];
      if groups[k].amount > maxAmount {
        maxAmount, maxIdx := groups[k].amount, k;
      }
    }
  }

  /** One loop of the program finds the percentages, their sum and the largest group; here it is two. */
  method Percentages(groups: array<Group>, count: nat, total: int) returns (pcts: array<int>)
    requires count <= groups.Length
    ensures pcts.Length >= count && fresh(pcts) && pcts[..count] == Balanced(groups[..count], total)
  {
    pcts := new int[groups.Length](_ => 0);
    var sum := RoundPercents(groups, count, total, pcts);
    var maxIdx := FindLargest(groups, count);
    if total > 0 && count > 0 {
      var delta := WHOLE - sum;
      if -TOLERANCE <= delta <= TOLERANCE {
        pcts[maxIdx] := pcts[maxIdx] + delta;
      }
    }
  }

  // ---------------------------------------------------------------------------------------
  // The percentages add up

  ghost predicate NonNegative(groups: seq<Group>) { forall i :: 0 <= i < |groups| ==> groups[i].amount >= 0 }

  lemma {:induction false} SumUpdate(s: seq<int>, k: nat, x: int)
    requires k < |s|
    ensures Sum(s[k := x]) == Sum(s) + x - s[k]
  {
    var front := s[..|s| - 1];
    if k < |front| {
      SumUpdate(front, k, x);
      assert s[k := x][..|s| - 1] == front[k := x];
    } else {
      assert s[k := x][..|s| - 1] == front;
    }
  }

  /** Each group is off by at most half a hundredth, so n groups by at most n halves. */
  lemma {:induction false} SumError(groups: seq<Group>, total: int)
    requires total > 0
    ensures var e := GroupTotal(groups) * WHOLE - total * Sum(Percents(groups, total));
            -total * |groups| <= 2 * e <= total * |groups|
  {
    if groups != [] {
      var front, last := groups[..|groups| - 1], groups[|groups| - 1];
      SumError(front, total);
      assert Percents(groups, total)[..|groups| - 1] == Percents(front, total);
      var p := Percent(last.amount, total);
      HalfUpNear(last.amount * WHOLE, total);
      Distribute(total, Sum(Percents(front, total)), p);
      MulStep(total, |groups|);
    }
  }

  lemma {:induction false} LargestIsLargest(groups: seq<Group>)
    requires NonNegative(groups)
    ensures forall i :: 0 <= i < |groups| ==> groups[i].amount <= groups[LargestAt(groups)].amount
  {
    if |groups| > 1 {
      var front := groups[..|groups| - 1];
      LargestIsLargest(front);
      assert forall i :: 0 <= i < |front| ==> groups[i] == front[i];
    }
  }

  lemma {:induction false} SumBelow(s: seq<int>, m: int)
    requires forall i :: 0 <= i < |s| ==> s[i] <= m
    ensures Sum(s) <= m * |s|
  {
    if s != [] {
      SumBelow(s[..|s| - 1], m);
      MulStep(m, |s|);
    }
  }

  /** The rounded percentages miss 100 by at most n / 2 hundredths. */
  lemma {:induction false} DeltaIsSmall(groups: seq<Group>, total: int)
    requires total > 0 && GroupTotal(groups) == total
    ensures -|groups| <= 2 * (WHOLE - Sum(Percents(groups, total))) <= |groups|
  {
    SumError(groups, total);
    var delta := WHOLE - Sum(Percents(groups, total));
    Distribute(total, WHOLE, Sum(Percents(groups, total)));
    MulOrder(total, |groups|, 2 * delta);
    MulOrder(total, 2 * delta, -|groups|);
    NegMul(total, |groups|);
    Swap(2, total, delta);
  }

  lemma {:induction false} PercentNonNegative(amount: int, total: int)
    requires amount >= 0
    ensures Percent(amount, total) >= 0
  {
    if total > 0 {
      HalfUpExact(0, total);
      HalfUpMonotone(0, amount * WHOLE, total);
    }
  }

  /** When up to 128 percentages add up to too much, the largest has room for the correction. */
  lemma {:induction false} LargestTakesDelta(groups: seq<Group>, total: int)
    requires 0 < |groups| <= MAX_GROUPS && total > 0 && NonNegative(groups) && Sum(Percents(groups, total)) > WHOLE
    ensures Percents(groups, total)[LargestAt(groups)] >= TOLERANCE
  {
    var pcts, k := Percents(groups, total), LargestAt(groups);
    LargestIsLargest(groups);
    forall i | 0 <= i < |groups|
      ensures pcts[i] <= pcts[k]
    {
      HalfUpMonotone(groups[i].amount * WHOLE, groups[k].amount * WHOLE, total);
    }
    SumBelow(pcts, pcts[k]);
    if pcts[k] < TOLERANCE {
      MulOrder(|groups|, pcts[k], TOLERANCE);
    }
  }

  /** No percentage of non-negative amounts is negative, in any report. */
  lemma {:induction false} NoneIsNegative(groups: seq<Group>, total: int)
    requires |groups| <= 128 && NonNegative(groups)
    ensures forall i :: 0 <= i < |groups| ==> Balanced(groups, total)[i] >= 0
  {
    if total > 0 && groups != [] && Sum(Percents(groups, total)) > WHOLE {
      LargestTakesDelta(groups, total);
    }
    forall i | 0 <= i < |groups|
      ensures Balanced(groups, total)[i] >= 0
    {
      PercentNonNegative(groups[i].amount, total);
    }
  }

  /** The result adds up to 100.00 exactly when rounding was off by no more than 0.05. */
  lemma {:induction false} AddsUpExactlyWithinTolerance(groups: seq<Group>, total: int)
    requires total > 0 && groups != []
    ensures Sum(Balanced(groups, total)) == WHOLE
            <==> -TOLERANCE <= WHOLE - Sum(Percents(groups, total)) <= TOLERANCE
  {
    var pcts := Percents(groups, total);
    SumUpdate(pcts, LargestAt(groups), pcts[LargestAt(groups)] + WHOLE - Sum(pcts));
  }

  /** With at most 11 groups that hold all of the total the percentages add up to 100.00. */
  lemma {:induction false} PercentagesAddUp(groups: seq<Group>, total: int)
    requires 0 < |groups| <= 11 && total > 0 && GroupTotal(groups) == total
    ensures Sum(Balanced(groups, total)) == WHOLE
  {
    DeltaIsSmall(groups, total);
    AddsUpExactlyWithinTolerance(groups, total);
  }

  /** One large group and n of amount 1. */
  function OneLarge(n: nat): (r: seq<Group>)
    ensures |r| == n + 1
  {
    if n == 0 then [Group("", 19989, 1)] else OneLarge(n - 1) + [Group("", 1, 1)]
  }

  lemma {:induction false} PercentsSnoc(groups: seq<Group>, g: Group, total: int)
    ensures Sum(Percents(groups + [g], total)) == Sum(Percents(groups, total)) + Percent(g.amount, total)
  {
    assert Percents(groups + [g], total) == Percents(groups, total) + [Percent(g.amount, total)];
    assert (Percents(groups, total) + [Percent(g.amount, total)])[..|groups|] == Percents(groups, total);
  }

  lemma {:induction false} OneLargeSums(n: nat)
    ensures GroupTotal(OneLarge(n)) == 19989 + n && Sum(Percents(OneLarge(n), 20000)) == 9995 + n
  {
    if n == 0 {
      assert OneLarge(0)[..0] == [] && Percents(OneLarge(0), 20000)[..0] == [];
    } else {
      OneLargeSums(n - 1);
      PercentsSnoc(OneLarge(n - 1), Group("", 1, 1), 20000);
      assert OneLarge(n)[..n] == OneLarge(n - 1);
      assert Percent(1, 20000) == 1;
    }
  }

  /** With 12 groups they need not: here they add up to 100.06. */
  lemma {:induction false} TwelveGroupsMayMiss()
    ensures var groups := OneLarge(11);
            |groups| == 12 && GroupTotal(groups) == 20000 && Sum(Balanced(groups, 20000)) == 100_06
  {
    OneLargeSums(11);
  }

  // ---------------------------------------------------------------------------------------
  // The whole report

  lemma {:induction false} GroupTotalConcat(a: seq<Group>, b: seq<Group>)
    ensures GroupTotal(a + b) == GroupTotal(a) + GroupTotal(b)
  {
    if b == [] {
      assert a + b == a;
    } else {
      assert (a + b)[..|a + b| - 1] == a + b[..|b| - 1];
      GroupTotalConcat(a, b[..|b| - 1]);
    }
  }

  lemma {:induction false} GroupTotalOfPermutation(a: seq<Group>, b: seq<Group>)
    requires multiset(a) == multiset(b)
    ensures GroupTotal(a) == GroupTotal(b) && |a| == |b|
    decreases |a|
  {
    assert |multiset(a)| == |a| && |multiset(b)| == |b|;
    if a != [] {
      var front, x := a[..|a| - 1], a[|a| - 1];
      assert a == front + [x];
      assert x in multiset(a) && x in b;
      var j :| 0 <= j < |b| && b[j] == x;
      assert b == b[..j] + [x] + b[j + 1..];
      assert multiset(a) == multiset(front) + multiset{x};
      assert multiset(b) == multiset(b[..j] + b[j + 1..]) + multiset{x};
      assert multiset(front) == multiset(a) - multiset{x};
      GroupTotalOfPermutation(front, b[..j] + b[j + 1..]);
      GroupTotalConcat(b[..j] + [x], b[j + 1..]);
      GroupTotalConcat(b[..j], [x]);
      GroupTotalConcat(b[..j], b[j + 1..]);
    }
  }

  lemma {:induction false} NoneDropped(rows: seq<Row>)
    requires FitNames(rows) && forall i :: 0 <= i < |rows| ==> rows[i].name.Some?
    ensures Dropped(rows) == 0
  {
    if rows != [] {
      var front := rows[..|rows| - 1];
      NamesOfFront(rows);
      NoneDropped(front);
      OneGroupPerName(front);
      if Find(Grouped(front), rows[|rows| - 1].name.value) == |Grouped(front)| {
        NewName(rows, Grouped(front));
      }
    }
  }

  lemma {:induction false} GroupsNonNegative(rows: seq<Row>)
    requires forall i :: 0 <= i < |rows| ==> rows[i].amount >= 0
    ensures NonNegative(Grouped(rows))
  {
    if rows != [] {
      GroupsNonNegative(rows[..|rows| - 1]);
    }
  }

  lemma {:induction false} AsManyGroupsAsNames(rows: seq<Row>)
    requires FitNames(rows)
    ensures |Grouped(rows)| == |Names(rows)|
  {
    OneGroupPerName(rows);
    NamesAreCounted(Grouped(rows));
  }

  /** The rows a report can show in full: named, with at most 11 short names, and something spent in all. */
  ghost predicate Plain(rows: seq<Row>) {
    && FitNames(rows) && |Names(rows)| <= 11 && Total(rows) > 0
    && forall i :: 0 <= i < |rows| ==> rows[i].name.Some? && rows[i].amount >= 0
  }

  lemma {:induction false} PlainAddsUp(rows: seq<Row>, sorted: seq<Group>)
    requires Plain(rows) && multiset(sorted) == multiset(Grouped(rows))
    ensures Sum(Balanced(sorted, Total(rows))) == WHOLE
  {
    GroupTotalOfPermutation(sorted, Grouped(rows));
    GroupingKeepsTotal(rows);
    NoneDropped(rows);
    AsManyGroupsAsNames(rows);
    PercentagesAddUp(sorted, Total(rows));
  }

  lemma {:induction false} SortedIsNonNegative(rows: seq<Row>, sorted: seq<Group>)
    requires multiset(sorted) == multiset(Grouped(rows))
    requires forall i :: 0 <= i < |rows| ==> rows[i].amount >= 0
    ensures NonNegative(sorted)
  {
    GroupsNonNegative(rows);
    forall i | 0 <= i < |sorted|
      ensures sorted[i].amount >= 0
    {
      assert sorted[i] in multiset(sorted);
      assert sorted[i] in Grouped(rows);
    }
  }

  /** Within half a hundredth of a percent of the group's part of the total. */
  predicate NearPart(pct: int, amount: int, total: int) { 2 * Abs(total * pct - amount * 100_00) <= total }

  /** In a sorted report only the first percentage may be other than rounded. */
  lemma {:induction false} OnlyFirstIsCorrected(groups: seq<Group>, total: int)
    requires Descending(groups)
    ensures total <= 0 ==> forall i :: 0 <= i < |groups| ==> Balanced(groups, total)[i] == 0
    ensures total > 0 ==> forall i :: 0 < i < |groups| ==> NearPart(Balanced(groups, total)[i], groups[i].amount, total)
    ensures total > 0 && groups != [] && Sum(Balanced(groups, total)) != 100_00 ==>
              NearPart(Balanced(groups, total)[0], groups[0].amount, total)
  {
    FirstIsLargest(groups);
    if total > 0 {
      forall i | 0 <= i < |groups|
        ensures NearPart(Percents(groups, total)[i], groups[i].amount, total)
      {
        HalfUpNear(groups[i].amount * 100_00, total);
      }
      if groups != [] {
        AddsUpExactlyWithinTolerance(groups, total);
      }
    }
  }

  lemma {:induction false} FirstIsLargest(groups: seq<Group>)
    requires Descending(groups)
    ensures LargestAt(groups) == 0
  {
    if |groups| > 1 {
      FirstIsLargest(groups[..|groups| - 1]);
    }
  }

  /** `report_expense_category` and, with the counts, `report_expense_tag`. */
  method CategoryReport(rows: seq<Row>) returns (items: seq<Group>, pcts: seq<int>)
    ensures |items| == |pcts| && Descending(items) && multiset(items) == multiset(Grouped(rows))
    ensures pcts == Balanced(items, Total(rows))
    ensures Plain(rows) ==> Sum(pcts) == 100_00
    ensures Total(rows) <= 0 ==> forall i :: 0 <= i < |pcts| ==> pcts[i] == 0
    ensures Total(rows) > 0 ==>
              && (forall i :: 0 < i < |pcts| ==> NearPart(pcts[i], items[i].amount, Total(rows)))
              && (|pcts| > 0 && Sum(pcts) != 100_00 ==> NearPart(pcts[0], items[0].amount, Total(rows)))
    ensures (forall i :: 0 <= i < |rows| ==> rows[i].amount >= 0) ==> forall i :: 0 <= i < |pcts| ==> pcts[i] >= 0
  {
    var groups, count, total := GroupRows(rows);
    SortGroups(groups, count);
    var shares := Percentages(groups, count, total);
    items, pcts := groups[..count], shares[..count];
    OnlyFirstIsCorrected(items, total);
    if Plain(rows) {
      PlainAddsUp(rows, items);
    }
    if forall i :: 0 <= i < |rows| ==> rows[i].amount >= 0 {
      SortedIsNonNegative(rows, items);
      NoneIsNegative(items, total);
    }
  }
}
