/** Usage rows and the grouped totals read back from them. */
module Usage {
  import opened Pricing

  datatype UsageRow = UsageRow(
    user: string, provider: string, model: string,
    inputTokens: int, outputTokens: int, estimatedCost: real, latencyMs: int, createdAt: real)

  /** The row that `record` writes. */
  function Recorded(user: string, provider: string, model: string, inputTokens: int, outputTokens: int,
                    latencyMs: int, now: real): UsageRow {
    UsageRow(user, provider, model, inputTokens, outputTokens,
             Estimate(provider, model, inputTokens, outputTokens), latencyMs, now)
  }

  /** COUNT and SUM over some rows. */
  datatype Totals = Totals(requests: nat, inputTokens: int, outputTokens: int, cost: real) {
    function Plus(t: Totals): Totals {
      Totals(requests + t.requests, inputTokens + t.inputTokens, outputTokens + t.outputTokens, cost + t.cost)
    }
  }

  const ZERO := Totals(0, 0, 0, 0.0)

  function One(row: UsageRow): Totals {
    Totals(1, row.inputTokens, row.outputTokens, row.estimatedCost)
  }

  function TotalsOf(rows: seq<UsageRow>): Totals {
    if rows == [] then ZERO else One(rows[0]).Plus(TotalsOf(rows[1..]))
  }

  /** WHERE user_id = :user AND created_at >= :since. */
  function Since(rows: seq<UsageRow>, user: string, since: real): seq<UsageRow> {
    if rows == [] then []
    else (if rows[0].user == user && rows[0].createdAt >= since then [rows[0]] else []) + Since(rows[1..], user, since)
  }

  // ---- GROUP BY ----

  function InGroup<K(==)>(rows: seq<UsageRow>, key: UsageRow -> K, k: K): (group: seq<UsageRow>)
    ensures |group| <= |rows|
  {
    if rows == [] then []
    else (if key(rows[0]) == k then [rows[0]] else []) + InGroup(rows[1..], key, k)
  }

  function NotInGroup<K(==)>(rows: seq<UsageRow>, key: UsageRow -> K, k: K): (rest: seq<UsageRow>)
    ensures |rest| <= |rows|
  {
    if rows == [] then []
    else (if key(rows[0]) != k then [rows[0]] else []) + NotInGroup(rows[1..], key, k)
  }

  /** One line for each distinct key. */
  function GroupBy<K(==)>(rows: seq<UsageRow>, key: UsageRow -> K): seq<(K, Totals)>
    decreases |rows|
  {
    if rows == [] then []
    else
      var k := key(rows[0]);
      [(k, TotalsOf(InGroup(rows, key, k)))] + GroupBy(NotInGroup(rows[1..], key, k), key)
  }

  function ByModel(row: UsageRow): (string, string) { (row.provider, row.model) }

  /** The calendar day, 86400 seconds long. */
  function ByDay(row: UsageRow): int { (row.createdAt / 86400.0).Floor }

  function Summary(rows: seq<UsageRow>, user: string, since: real): seq<((string, string), Totals)> {
    GroupBy(Since(rows, user, since), ByModel)
  }

  function DailyBreakdown(rows: seq<UsageRow>, user: string, since: real): seq<(int, Totals)> {
    GroupBy(Since(rows, user, since), ByDay)
  }

  function GrandTotal<K>(lines: seq<(K, Totals)>): Totals {
    if lines == [] then ZERO else lines[0].1.Plus(GrandTotal(lines[1..]))
  }

  lemma TotalsCons(row: UsageRow, rows: seq<UsageRow>)
    ensures TotalsOf([row] + rows) == One(row).Plus(TotalsOf(rows))
  {
    assert ([row] + rows)[1..] == rows;
  }

  lemma PlusAssociates(a: Totals, b: Totals, c: Totals)
    ensures a.Plus(b).Plus(c) == a.Plus(b.Plus(c)) && b.Plus(a.Plus(c)) == a.Plus(b.Plus(c))
  {
  }

  lemma SplitStep(row: UsageRow, a: seq<UsageRow>, b: seq<UsageRow>, t: Totals)
    requires TotalsOf(a).Plus(TotalsOf(b)) == t
    ensures TotalsOf([row] + a).Plus(TotalsOf(b)) == One(row).Plus(t)
    ensures TotalsOf(a).Plus(TotalsOf([row] + b)) == One(row).Plus(t)
  {
    TotalsCons(row, a);
    TotalsCons(row, b);
    PlusAssociates(One(row), TotalsOf(a), TotalsOf(b));
  }

  lemma Filtered<K>(rows: seq<UsageRow>, key: UsageRow -> K, k: K)
    requires rows != []
    ensures
      var a, b := InGroup(rows[1..], key, k), NotInGroup(rows[1..], key, k);
      if key(rows[0]) == k then InGroup(rows, key, k) == [rows[0]] + a && NotInGroup(rows, key, k) == b
      else InGroup(rows, key, k) == a && NotInGroup(rows, key, k) == [rows[0]] + b
  {
  }

  lemma SplitNext<K>(rows: seq<UsageRow>, key: UsageRow -> K, k: K)
    requires rows != []
    requires TotalsOf(InGroup(rows[1..], key, k)).Plus(TotalsOf(NotInGroup(rows[1..], key, k))) == TotalsOf(rows[1..])
    ensures TotalsOf(InGroup(rows, key, k)).Plus(TotalsOf(NotInGroup(rows, key, k))) == One(rows[0]).Plus(TotalsOf(rows[1..]))
  {
    Filtered(rows, key, k);
    SplitStep(rows[0], InGroup(rows[1..], key, k), NotInGroup(rows[1..], key, k), TotalsOf(rows[1..]));
  }

  lemma NoRows(rows: seq<UsageRow>)
    requires |rows| == 0
    ensures TotalsOf(rows) == ZERO
  {
  }

  lemma NothingSplit<K>(rows: seq<UsageRow>, key: UsageRow -> K, k: K)
    requires |rows| == 0
    ensures TotalsOf(InGroup(rows, key, k)).Plus(TotalsOf(NotInGroup(rows, key, k))) == TotalsOf(rows)
  {
    NoRows(rows);
    NoRows(InGroup(rows, key, k));
    NoRows(NotInGroup(rows, key, k));
  }

  lemma Unfold(rows: seq<UsageRow>)
    requires |rows| > 0
    ensures TotalsOf(rows) == One(rows[0]).Plus(TotalsOf(rows[1..]))
  {
  }

  lemma {:induction false} SplitTotals<K>(rows: seq<UsageRow>, key: UsageRow -> K, k: K)
    ensures TotalsOf(InGroup(rows, key, k)).Plus(TotalsOf(NotInGroup(rows, key, k))) == TotalsOf(rows)
    decreases |rows|
  {
    if |rows| == 0 {
      NothingSplit(rows, key, k);
    } else {
      SplitTotals(rows[1..], key, k);
      SplitNext(rows, key, k);
      Unfold(rows);
    }
  }

  /** However rows are grouped, the lines add up to the same totals. */
  lemma {:induction false} GroupsPartition<K>(rows: seq<UsageRow>, key: UsageRow -> K)
    ensures GrandTotal(GroupBy(rows, key)) == TotalsOf(rows)
    decreases |rows|
  {
    if rows != [] {
      var k := key(rows[0]);
      var rest := NotInGroup(rows[1..], key, k);
      SplitTotals(rows, key, k);
      assert NotInGroup(rows, key, k) == rest;
      GroupsPartition(rest, key);
      var lines := GroupBy(rows, key);
      assert lines[1..] == GroupBy(rest, key);
    }
  }

  lemma {:induction false} GroupMembers<K>(rows: seq<UsageRow>, key: UsageRow -> K, k: K, other: K)
    ensures InGroup(NotInGroup(rows, key, k), key, other) == if other == k then [] else InGroup(rows, key, other)
    decreases |rows|
  {
    if |rows| > 0 {
      GroupMembers(rows[1..], key, k, other);
      Filtered(rows, key, k);
      var rest := NotInGroup(rows[1..], key, k);
      if key(rows[0]) != k {
        assert ([rows[0]] + rest)[1..] == rest;
      }
    }
  }

  /** A line and the rows it stands for. */
  ghost predicate IsLineOf<K>(line: (K, Totals), rows: seq<UsageRow>, key: UsageRow -> K) {
    line.1 == TotalsOf(InGroup(rows, key, line.0)) && InGroup(rows, key, line.0) != []
  }

  /** The first line is of the first row's key, the others are of the remaining rows. */
  lemma FirstLine<K>(rows: seq<UsageRow>, key: UsageRow -> K)
    requires |rows| > 0
    ensures |GroupBy(rows, key)| > 0 && GroupBy(rows, key)[0].0 == key(rows[0]) && IsLineOf(GroupBy(rows, key)[0], rows, key)
    ensures GroupBy(rows, key)[1..] == GroupBy(NotInGroup(rows[1..], key, key(rows[0])), key)
  {
    Filtered(rows, key, key(rows[0]));
  }

  /** A line of the rows outside a group is a line of all rows, and not that group's. */
  lemma LineOutside<K>(line: (K, Totals), rows: seq<UsageRow>, key: UsageRow -> K)
    requires |rows| > 0 && IsLineOf(line, NotInGroup(rows[1..], key, key(rows[0])), key)
    ensures IsLineOf(line, rows, key) && line.0 != key(rows[0])
  {
    var k := key(rows[0]);
    GroupMembers(rows[1..], key, k, line.0);
    if line.0 != k {
      Filtered(rows, key, line.0);
    }
  }

  /**
   Every line of a grouped query is the totals of exactly the rows with its key, of which
   there are some, and no two lines have the same key.
   */
  lemma {:induction false} LinesAreGroups<K>(rows: seq<UsageRow>, key: UsageRow -> K, i: nat)
    requires i < |GroupBy(rows, key)|
    ensures
      var lines := GroupBy(rows, key);
      IsLineOf(lines[i], rows, key) && forall j | 0 <= j < i :: lines[j].0 != lines[i].0
    decreases |rows|
  {
    var lines := GroupBy(rows, key);
    FirstLine(rows, key);
    if i > 0 {
      var rest := NotInGroup(rows[1..], key, key(rows[0]));
      var later := lines[1..];
      LinesAreGroups(rest, key, i - 1);
      LineOutside(later[i - 1], rows, key);
      forall j | 0 <= j < i ensures lines[j].0 != lines[i].0 {
        if j > 0 {
          assert later[j - 1].0 != later[i - 1].0;
        }
      }
    }
  }

  /** Every row is in some line. */
  lemma {:induction false} EveryRowHasALine<K>(rows: seq<UsageRow>, key: UsageRow -> K, r: nat) returns (i: nat)
    requires r < |rows|
    ensures i < |GroupBy(rows, key)| && GroupBy(rows, key)[i].0 == key(rows[r])
    decreases |rows|
  {
    var k := key(rows[0]);
    if key(rows[r]) == k {
      i := 0;
    } else {
      var rest := NotInGroup(rows[1..], key, k);
      var r' := StaysOut(rows[1..], key, k, r - 1);
      var i' := EveryRowHasALine(rest, key, r');
      i := i' + 1;
    }
  }

  lemma {:induction false} StaysOut<K>(rows: seq<UsageRow>, key: UsageRow -> K, k: K, r: nat) returns (r': nat)
    requires r < |rows| && key(rows[r]) != k
    ensures r' < |NotInGroup(rows, key, k)| && NotInGroup(rows, key, k)[r'] == rows[r]
    decreases |rows|
  {
    Filtered(rows, key, k);
    if r == 0 {
      r' := 0;
    } else {
      r' := StaysOut(rows[1..], key, k, r - 1);
      if key(rows[0]) != k {
        r' := r' + 1;
      }
    }
  }

  /** The per-model summary and the daily breakdown agree on every total. */
  lemma BreakdownsAgree(rows: seq<UsageRow>, user: string, since: real)
    ensures GrandTotal(Summary(rows, user, since)) == GrandTotal(DailyBreakdown(rows, user, since))
         == TotalsOf(Since(rows, user, since))
  {
    GroupsPartition(Since(rows, user, since), ByModel);
    GroupsPartition(Since(rows, user, since), ByDay);
  }

  // ---- A group costs what its tokens cost ----

  predicate CostsRecorded(rows: seq<UsageRow>) {
    forall k | 0 <= k < |rows| ::
      rows[k].estimatedCost == Estimate(rows[k].provider, rows[k].model, rows[k].inputTokens, rows[k].outputTokens)
  }

  lemma {:induction false} FilteredCosts(rows: seq<UsageRow>, user: string, since: real)
    requires CostsRecorded(rows)
    ensures CostsRecorded(Since(rows, user, since))
    decreases rows
  {
    if rows != [] {
      TailRecorded(rows);
      FilteredCosts(rows[1..], user, since);
    }
  }

  predicate ExactFor(t: Totals, provider: string, model: string) {
    t.cost == Estimate(provider, model, t.inputTokens, t.outputTokens)
  }

  lemma ZeroIsExact(provider: string, model: string)
    ensures ExactFor(ZERO, provider, model)
  {
    EstimateIsExact(provider, model, 0, 0);
  }

  lemma ExactPlus(row: UsageRow, t: Totals)
    requires ExactFor(One(row), row.provider, row.model) && ExactFor(t, row.provider, row.model)
    ensures ExactFor(One(row).Plus(t), row.provider, row.model)
  {
    EstimateAdds(row.provider, row.model, row.inputTokens, row.outputTokens, t.inputTokens, t.outputTokens);
  }

  lemma {:induction false} GroupCost(rows: seq<UsageRow>, provider: string, model: string)
    requires CostsRecorded(rows)
    ensures ExactFor(TotalsOf(InGroup(rows, ByModel, (provider, model))), provider, model)
    decreases |rows|
  {
    var key := (provider, model);
    if |rows| == 0 {
      NoRows(InGroup(rows, ByModel, key));
      ZeroIsExact(provider, model);
    } else {
      var rest := InGroup(rows[1..], ByModel, key);
      TailRecorded(rows);
      GroupCost(rows[1..], provider, model);
      Filtered(rows, ByModel, key);
      if ByModel(rows[0]) == key {
        TotalsCons(rows[0], rest);
        ExactPlus(rows[0], TotalsOf(rest));
      }
    }
  }

  lemma TailRecorded(rows: seq<UsageRow>)
    requires CostsRecorded(rows) && |rows| > 0
    ensures CostsRecorded(rows[1..]) && ExactFor(One(rows[0]), rows[0].provider, rows[0].model)
  {
    assert forall k | 0 <= k < |rows[1..]| :: rows[1..][k] == rows[k + 1];
  }

  lemma {:induction false} RestCosts(rows: seq<UsageRow>, key: (string, string))
    requires CostsRecorded(rows)
    ensures CostsRecorded(NotInGroup(rows, ByModel, key))
    decreases rows
  {
    if rows != [] {
      TailRecorded(rows);
      RestCosts(rows[1..], key);
    }
  }

  lemma {:induction false} GroupedCosts(rows: seq<UsageRow>, k: nat)
    requires CostsRecorded(rows) && k < |GroupBy(rows, ByModel)|
    ensures
      var (group, t) := GroupBy(rows, ByModel)[k];
      ExactFor(t, group.0, group.1)
    decreases |rows|
  {
    var first := ByModel(rows[0]);
    if k == 0 {
      GroupCost(rows, first.0, first.1);
    } else {
      TailRecorded(rows);
      RestCosts(rows[1..], first);
      GroupedCosts(NotInGroup(rows[1..], ByModel, first), k - 1);
    }
  }

  predicate ExactLine(line: ((string, string), Totals)) {
    ExactFor(line.1, line.0.0, line.0.1)
  }

  /** Every line of the summary costs exactly the estimate on its summed tokens. */
  lemma SummaryIsExact(rows: seq<UsageRow>, user: string, since: real)
    requires CostsRecorded(rows)
    ensures forall line <- Summary(rows, user, since) :: ExactLine(line)
  {
    FilteredCosts(rows, user, since);
    var lines := Summary(rows, user, since);
    forall k | 0 <= k < |lines| ensures ExactLine(lines[k]) {
      GroupedCosts(Since(rows, user, since), k);
    }
  }

  // ---- Which rows a line stands for ----

  lemma CountCons(first: UsageRow, rest: seq<UsageRow>, row: UsageRow)
    ensures multiset([first] + rest)[row] == (if first == row then 1 else 0) + multiset(rest)[row]
  {
  }

  lemma SinceCons(rows: seq<UsageRow>, user: string, since: real)
    requires |rows| > 0
    ensures
      var rest := Since(rows[1..], user, since);
      Since(rows, user, since) == if rows[0].user == user && since <= rows[0].createdAt then [rows[0]] + rest else rest
  {
  }

  /** A query takes a row as often as it is there if it is the user's own and no older, and not at all otherwise. */
  lemma {:induction false} SinceRows(rows: seq<UsageRow>, user: string, since: real, row: UsageRow)
    ensures multiset(Since(rows, user, since))[row]
         == if row.user == user && since <= row.createdAt then multiset(rows)[row] else 0
    decreases |rows|
  {
    if |rows| > 0 {
      SinceRows(rows[1..], user, since, row);
      SinceCons(rows, user, since);
      CountCons(rows[0], rows[1..], row);
      CountCons(rows[0], Since(rows[1..], user, since), row);
      assert rows == [rows[0]] + rows[1..];
    }
  }

  lemma {:induction false} GroupRows<K>(rows: seq<UsageRow>, key: UsageRow -> K, k: K, row: UsageRow)
    ensures multiset(InGroup(rows, key, k))[row] == if key(row) == k then multiset(rows)[row] else 0
    decreases |rows|
  {
    if |rows| > 0 {
      GroupRows(rows[1..], key, k, row);
      Filtered(rows, key, k);
      CountCons(rows[0], rows[1..], row);
      CountCons(rows[0], InGroup(rows[1..], key, k), row);
      assert rows == [rows[0]] + rows[1..];
    }
  }

  lemma {:induction false} RequestsCounted(rows: seq<UsageRow>)
    ensures TotalsOf(rows).requests == |rows|
    decreases |rows|
  {
    if |rows| > 0 {
      RequestsCounted(rows[1..]);
    }
  }

  /** A line and the user's rows since then that have its key. */
  lemma OwnLine<K>(rows: seq<UsageRow>, user: string, since: real, key: UsageRow -> K, i: nat) returns (own: seq<UsageRow>)
    requires i < |GroupBy(Since(rows, user, since), key)|
    ensures
      var (k, totals) := GroupBy(Since(rows, user, since), key)[i];
      && totals == TotalsOf(own) && totals.requests == |own| > 0
      && (forall row :: multiset(own)[row] ==
            if row.user == user && since <= row.createdAt && key(row) == k then multiset(rows)[row] else 0)
  {
    var all := Since(rows, user, since);
    var k := GroupBy(all, key)[i].0;
    own := InGroup(all, key, k);
    LinesAreGroups(all, key, i);
    RequestsCounted(own);
    forall row ensures multiset(own)[row] ==
      if row.user == user && since <= row.createdAt && key(row) == k then multiset(rows)[row] else 0
    {
      GroupRows(all, key, k, row);
      SinceRows(rows, user, since, row);
    }
  }

  /** A summary line totals exactly that user's rows of its provider and model since the date. */
  lemma SummaryLine(rows: seq<UsageRow>, user: string, since: real, i: nat) returns (own: seq<UsageRow>)
    requires i < |Summary(rows, user, since)|
    ensures
      var ((provider, model), totals) := Summary(rows, user, since)[i];
      && totals == TotalsOf(own) && totals.requests == |own| > 0
      && (forall row :: multiset(own)[row] ==
            if row.user == user && since <= row.createdAt && row.provider == provider && row.model == model
            then multiset(rows)[row] else 0)
  {
    own := OwnLine(rows, user, since, ByModel, i);
  }

  /** A line of the daily breakdown totals exactly that user's rows of its day since the date. */
  lemma DailyLine(rows: seq<UsageRow>, user: string, since: real, i: nat) returns (own: seq<UsageRow>)
    requires i < |DailyBreakdown(rows, user, since)|
    ensures
      var (day, totals) := DailyBreakdown(rows, user, since)[i];
      && totals == TotalsOf(own) && totals.requests == |own| > 0
      && (forall row :: multiset(own)[row] ==
            if row.user == user && since <= row.createdAt && (86400 * day) as real <= row.createdAt < (86400 * (day + 1)) as real
            then multiset(rows)[row] else 0)
  {
    own := OwnLine(rows, user, since, ByDay, i);
    var day := DailyBreakdown(rows, user, since)[i].0;
    forall row: UsageRow ensures ByDay(row) == day <==> (86400 * day) as real <= row.createdAt < (86400 * (day + 1)) as real {
      DayOf(row.createdAt, day);
    }
  }

  lemma DayOf(at: real, day: int)
    ensures (at / 86400.0).Floor == day <==> (86400 * day) as real <= at < (86400 * (day + 1)) as real
  {
    var days := at / 86400.0;
    assert days * 86400.0 == at;
    assert day as real <= days <==> day as real * 86400.0 <= at;
    assert days < (day + 1) as real <==> at < (day + 1) as real * 86400.0;
  }
}
