/** The dashboard controller: aggregates over the caller's transactions — the period
    summary, expenses per category, the monthly income/expense series, the running balance
    through a year and the most recent transactions. */
module Dashboard {
  import opened Domain
  import opened Seqs
  import opened Sorting
  import opened Store

  // ---------------------------------------------------------------- sums

  /** `SUM(CASE WHEN tipo = k THEN valor ELSE 0 END)`, 0 over no rows (the ISNULL). */
  function Sum(s: seq<Transaction>, k: TxKind): int {
    if s == [] then 0 else (if s[0].kind == k then s[0].amount else 0) + Sum(s[1..], k)
  }

  /** A transaction's effect on the balance: income adds, an expense subtracts. */
  function Signed(t: Transaction): int {
    if t.kind == Receita then t.amount else -t.amount
  }

  /** `SUM(CASE WHEN tipo = 'receita' THEN valor ELSE -valor END)`, 0 over no rows. */
  function Net(s: seq<Transaction>): int {
    if s == [] then 0 else Signed(s[0]) + Net(s[1..])
  }

  /** The balance is income minus expenses over any set of rows. */
  lemma {:induction false} NetIsIncomeMinusExpenses(s: seq<Transaction>)
    ensures Net(s) == Sum(s, Receita) - Sum(s, Despesa)
  {
    if s != [] {
      NetIsIncomeMinusExpenses(s[1..]);
    }
  }

  // ---------------------------------------------------------------- obterResumo

  predicate InPeriodOf(t: Transaction, user: UserId, p: Period) {
    t.user == user && t.date.month == p.month && t.date.year == p.year
  }

  /** `WHERE id_usuario = @id_usuario AND MONTH(data_transacao) = .. AND YEAR(..) = ..` */
  function PeriodRows(txs: seq<Transaction>, user: UserId, p: Period): (r: seq<Transaction>)
    ensures forall t :: t in r <==> t in txs && InPeriodOf(t, user, p)
  {
    Filter(txs, (t: Transaction) => InPeriodOf(t, user, p))
  }

  /** The response of `obterResumo`: the three totals and the period they cover. */
  datatype Summary = Summary(income: int, expenses: int, balance: int, period: Period)

  /** `obterResumo`: income, expenses and balance of the caller's transactions in the
      chosen period, labelled with that period. The totals are zero when the period has
      no transactions. */
  function Resumo(txs: seq<Transaction>, user: UserId, month: Option<int>, year: Option<int>, now: Period)
    : (s: Summary)
    ensures s.period == ChosenPeriod(month, year, now)
    ensures s.income == Sum(PeriodRows(txs, user, s.period), Receita)
    ensures s.expenses == Sum(PeriodRows(txs, user, s.period), Despesa)
    ensures s.balance == s.income - s.expenses
    ensures (forall t :: t in txs ==> !InPeriodOf(t, user, s.period)) ==> s.income == s.expenses == s.balance == 0
  {
    var p := ChosenPeriod(month, year, now);
    var rows := PeriodRows(txs, user, p);
    NetIsIncomeMinusExpenses(rows);
    assert |rows| > 0 ==> rows[0] in rows;
    Summary(Sum(rows, Receita), Sum(rows, Despesa), Net(rows), p)
  }

  /** The `mes` and `ano` the handler reports: `mes || <current month>` and
      `ano || <current year>`, each falling back on its own. */
  function ReportedPeriodAsWritten(month: Option<int>, year: Option<int>, now: Period): Period {
    Period(month.GetOr(now.month), year.GetOr(now.year))
  }

  /** With only `mes=3` in October 2026 the totals are those of October, but the response
      labels them March 2026. */
  lemma ReportedPeriodMislabelsTotals()
    ensures ReportedPeriodAsWritten(Some(3), None, Period(10, 2026)) == Period(3, 2026)
    ensures ChosenPeriod(Some(3), None, Period(10, 2026)) == Period(10, 2026)
  {
  }

  /** Whenever both values or neither are given, the label the handler writes is the
      period it summed; the two differ only when exactly one of them is given. */
  lemma ReportedPeriodAgreesWhenBothOrNeither(month: Option<int>, year: Option<int>, now: Period)
    ensures (month.Some? <==> year.Some?) ==> ReportedPeriodAsWritten(month, year, now) == ChosenPeriod(month, year, now)
    ensures month.Some? && year.None? && month.value != now.month ==>
              ReportedPeriodAsWritten(month, year, now) != ChosenPeriod(month, year, now)
  {
  }

  // ---------------------------------------------------------------- obterDespesasPorCategoria

  /** The GROUP BY key: the category's name and colour. */
  function RowKey(r: TxRow): (string, string) {
    (r.categoryName, r.categoryColor)
  }

  predicate IsExpenseWithKey(r: TxRow, key: (string, string)) {
    r.tx.kind == Despesa && RowKey(r) == key
  }

  /** `SUM(t.valor)` over the expense rows of one group. */
  function GroupTotal(rows: seq<TxRow>, key: (string, string)): int {
    if rows == [] then 0
    else (if IsExpenseWithKey(rows[0], key) then rows[0].tx.amount else 0) + GroupTotal(rows[1..], key)
  }

  /** The sum of the amounts of the rows of kind `k`. */
  function RowSum(rows: seq<TxRow>, k: TxKind): int {
    if rows == [] then 0 else (if rows[0].tx.kind == k then rows[0].tx.amount else 0) + RowSum(rows[1..], k)
  }

  /** The distinct (name, colour) pairs of the expense rows: one per group. */
  function ExpenseKeys(rows: seq<TxRow>): (ks: seq<(string, string)>)
    ensures NoDuplicates(ks)
    ensures forall key :: key in ks <==> exists r :: r in rows && IsExpenseWithKey(r, key)
  {
    if rows == [] then []
    else
      var rest := ExpenseKeys(rows[1..]);
      var ks := if rows[0].tx.kind == Despesa && RowKey(rows[0]) !in rest then [RowKey(rows[0])] + rest else rest;
      assert NoDuplicates(ks) by {
        if ks != rest {
          forall i, j | 0 <= i < j < |ks| ensures ks[i] != ks[j] {
            assert ks[j] == rest[j - 1];
            if i > 0 {
              assert ks[i] == rest[i - 1];
            }
          }
        }
      }
      assert forall key :: key in ks <==> exists r :: r in rows && IsExpenseWithKey(r, key) by {
        forall key ensures key in ks <==> exists r :: r in rows && IsExpenseWithKey(r, key) {
          if key in ks && key != RowKey(rows[0]) {
            var r :| r in rows[1..] && IsExpenseWithKey(r, key);
            assert r in rows;
          }
          if key in ks && key == RowKey(rows[0]) && !IsExpenseWithKey(rows[0], key) {
            var r :| r in rows[1..] && IsExpenseWithKey(r, key);
            assert r in rows;
          }
          if exists r :: r in rows && IsExpenseWithKey(r, key) {
            var r :| r in rows && IsExpenseWithKey(r, key);
            if r != rows[0] {
              assert r in rows[1..];
            }
          }
        }
      }
      ks
  }

  /** One response entry: `categoria`, `cor`, `total`. */
  datatype CategoryTotal = CategoryTotal(name: string, color: string, total: int)

  function EntryKey(e: CategoryTotal): (string, string) {
    (e.name, e.color)
  }

  function EntryTotal(e: CategoryTotal): int {
    e.total
  }

  /** One entry per key, in key order. */
  function Entries(rows: seq<TxRow>, ks: seq<(string, string)>): (es: seq<CategoryTotal>)
    ensures |es| == |ks|
    ensures forall i :: 0 <= i < |ks| ==> es[i] == CategoryTotal(ks[i].0, ks[i].1, GroupTotal(rows, ks[i]))
  {
    if ks == [] then [] else [CategoryTotal(ks[0].0, ks[0].1, GroupTotal(rows, ks[0]))] + Entries(rows, ks[1..])
  }

  /** `ORDER BY total DESC`. */
  function ByTotalDesc(): (CategoryTotal, CategoryTotal) -> bool {
    (a: CategoryTotal, b: CategoryTotal) => a.total >= b.total
  }

  /** The caller's expenses of the period, joined with their categories. */
  function PeriodJoin(txs: seq<Transaction>, cats: seq<Category>, user: UserId, p: Period): seq<TxRow> {
    Join(PeriodRows(txs, user, p), cats)
  }

  /** The result rows of the grouped query before ORDER BY: one entry per (name, colour)
      of an expense row, carrying that group's total. */
  function CategoryEntries(rows: seq<TxRow>): (es: seq<CategoryTotal>)
    ensures forall e :: e in es ==>
              e.total == GroupTotal(rows, EntryKey(e)) && exists r :: r in rows && IsExpenseWithKey(r, EntryKey(e))
    ensures forall r :: r in rows && r.tx.kind == Despesa ==> exists e :: e in es && EntryKey(e) == RowKey(r)
    ensures NoDuplicates(es)
  {
    var ks := ExpenseKeys(rows);
    var es := Entries(rows, ks);
    assert forall e :: e in es ==> EntryKey(e) in ks && e.total == GroupTotal(rows, EntryKey(e)) by {
      forall e | e in es ensures EntryKey(e) in ks && e.total == GroupTotal(rows, EntryKey(e)) {
        var i :| 0 <= i < |es| && es[i] == e;
      }
    }
    assert forall r :: r in rows && r.tx.kind == Despesa ==> exists e :: e in es && EntryKey(e) == RowKey(r) by {
      forall r | r in rows && r.tx.kind == Despesa ensures exists e :: e in es && EntryKey(e) == RowKey(r) {
        assert IsExpenseWithKey(r, RowKey(r));
        assert RowKey(r) in ks;
        var i :| 0 <= i < |ks| && ks[i] == RowKey(r);
        assert EntryKey(es[i]) == RowKey(r);
      }
    }
    assert NoDuplicates(es) by {
      forall i, j | 0 <= i < j < |es| ensures es[i] != es[j] {
        assert ks[i] != ks[j];
      }
    }
    es
  }

  /** `obterDespesasPorCategoria`: per (name, colour) of category, the total of the
      caller's expenses in the chosen period, largest first. */
  function DespesasPorCategoria(txs: seq<Transaction>, cats: seq<Category>, user: UserId,
                                month: Option<int>, year: Option<int>, now: Period): (r: seq<CategoryTotal>)
    ensures var rows := PeriodJoin(txs, cats, user, ChosenPeriod(month, year, now));
            && (forall e :: e in r ==>
                  e.total == GroupTotal(rows, EntryKey(e)) && exists row :: row in rows && IsExpenseWithKey(row, EntryKey(e)))
            && (forall row :: row in rows && row.tx.kind == Despesa ==> exists e :: e in r && EntryKey(e) == RowKey(row))
  {
    var rows := PeriodJoin(txs, cats, user, ChosenPeriod(month, year, now));
    SortKeepsRows(CategoryEntries(rows), ByTotalDesc());
    SortBy(CategoryEntries(rows), ByTotalDesc())
  }

  lemma ByTotalDescIsTotalPreorder()
    ensures TotalPreorder(ByTotalDesc())
  {
  }

  /** Sorting entries that are each determined by their key keeps the keys distinct. */
  lemma SortedEntriesHaveDistinctKeys(rows: seq<TxRow>, es: seq<CategoryTotal>)
    requires NoDuplicates(es)
    requires forall e :: e in es ==> e.total == GroupTotal(rows, EntryKey(e))
    ensures var r := SortBy(es, ByTotalDesc());
            forall i, j :: 0 <= i < j < |r| ==> EntryKey(r[i]) != EntryKey(r[j])
  {
    var r := SortBy(es, ByTotalDesc());
    SortKeepsNoDuplicates(es, ByTotalDesc());
    SortKeepsRows(es, ByTotalDesc());
    forall i, j | 0 <= i < j < |r| ensures EntryKey(r[i]) != EntryKey(r[j]) {
      assert r[i] in es && r[j] in es;
      assert r[i] != r[j];
    }
  }

  /** The entries come largest total first, and no two of them share a (name, colour). */
  lemma ExpensesByCategoryOrdered(txs: seq<Transaction>, cats: seq<Category>, user: UserId,
                                  month: Option<int>, year: Option<int>, now: Period)
    ensures var r := DespesasPorCategoria(txs, cats, user, month, year, now);
            && SortedBy(r, ByTotalDesc())
            && (forall i, j :: 0 <= i < j < |r| ==> EntryKey(r[i]) != EntryKey(r[j]))
  {
    var rows := PeriodJoin(txs, cats, user, ChosenPeriod(month, year, now));
    var es := CategoryEntries(rows);
    ByTotalDescIsTotalPreorder();
    SortBySorted(es, ByTotalDesc());
    SortedEntriesHaveDistinctKeys(rows, es);
  }

  /** Peeling the first row off the groups' totals: it counts once, in its own group. */
  lemma {:induction false} PeelRow(rows: seq<TxRow>, ks: seq<(string, string)>)
    requires rows != [] && NoDuplicates(ks)
    ensures SumOf(Entries(rows, ks), EntryTotal)
            == (if rows[0].tx.kind == Despesa && RowKey(rows[0]) in ks then rows[0].tx.amount else 0)
               + SumOf(Entries(rows[1..], ks), EntryTotal)
  {
    if ks != [] {
      assert NoDuplicates(ks[1..]) by {
        forall i, j | 0 <= i < j < |ks[1..]| ensures ks[1..][i] != ks[1..][j] {
          assert ks[1..][i] == ks[i + 1] && ks[1..][j] == ks[j + 1];
        }
      }
      PeelRow(rows, ks[1..]);
      assert ks[0] !in ks[1..] by {
        forall k | 0 <= k < |ks[1..]| ensures ks[1..][k] != ks[0] {
          assert ks[1..][k] == ks[k + 1];
        }
      }
      assert RowKey(rows[0]) in ks <==> RowKey(rows[0]) == ks[0] || RowKey(rows[0]) in ks[1..];
      assert Entries(rows, ks)[1..] == Entries(rows, ks[1..]);
      assert Entries(rows[1..], ks)[1..] == Entries(rows[1..], ks[1..]);
    }
  }

  /** A group with no expense row totals zero. */
  lemma {:induction false} AbsentGroupIsZero(rows: seq<TxRow>, key: (string, string))
    requires forall r :: r in rows ==> !IsExpenseWithKey(r, key)
    ensures GroupTotal(rows, key) == 0
  {
    if rows != [] {
      assert forall r :: r in rows[1..] ==> r in rows;
      AbsentGroupIsZero(rows[1..], key);
    }
  }

  /** The groups partition the expense rows: their totals add up to all expenses. */
  lemma {:induction false} GroupTotalsPartitionExpenses(rows: seq<TxRow>)
    ensures SumOf(Entries(rows, ExpenseKeys(rows)), EntryTotal) == RowSum(rows, Despesa)
  {
    if rows != [] {
      var rest := ExpenseKeys(rows[1..]);
      GroupTotalsPartitionExpenses(rows[1..]);
      PeelRow(rows, ExpenseKeys(rows));
      if rows[0].tx.kind == Despesa && RowKey(rows[0]) !in rest {
        var ks := ExpenseKeys(rows);
        assert ks == [RowKey(rows[0])] + rest;
        AbsentGroupIsZero(rows[1..], RowKey(rows[0]));
        assert Entries(rows[1..], ks)[1..] == Entries(rows[1..], rest);
      }
    }
  }

  /** A lossless join carries the same amounts. */
  lemma {:induction false} JoinKeepsSums(txs: seq<Transaction>, cats: seq<Category>, k: TxKind)
    requires CategoriesExist(txs, cats)
    ensures RowSum(Join(txs, cats), k) == Sum(txs, k)
  {
    if txs != [] {
      assert txs[0] in txs;
      var c :| c in cats && c.id == txs[0].category;
      assert forall t :: t in txs[1..] ==> t in txs;
      JoinKeepsSums(txs[1..], cats, k);
      var i := IndexOf(cats, (c: Category) => c.id == txs[0].category);
      assert i >= 0;
      var row := TxRow(txs[0], cats[i].name, cats[i].color, cats[i].icon);
      assert Join(txs, cats) == [row] + Join(txs[1..], cats);
      assert ([row] + Join(txs[1..], cats))[1..] == Join(txs[1..], cats);
    }
  }

  /** In a valid store the per-category totals add up to the period's `total_despesas`. */
  lemma ExpenseTotalsAddUp(txs: seq<Transaction>, cats: seq<Category>, next: int, user: UserId,
                           month: Option<int>, year: Option<int>, now: Period)
    requires TransactionsOk(txs, cats, next)
    ensures SumOf(DespesasPorCategoria(txs, cats, user, month, year, now), EntryTotal)
            == Resumo(txs, user, month, year, now).expenses
  {
    var p := ChosenPeriod(month, year, now);
    var sel := PeriodRows(txs, user, p);
    var rows := Join(sel, cats);
    var es := CategoryEntries(rows);
    SortKeepsSum(es, ByTotalDesc(), EntryTotal);
    GroupTotalsPartitionExpenses(rows);
    ValidCategoriesExist(txs, cats, next, sel);
    JoinKeepsSums(sel, cats, Despesa);
  }

  // ---------------------------------------------------------------- months of a year

  /** The query-string `ano`, else the current year. */
  function YearOf(year: Option<int>, now: Period): int {
    if year.Some? then year.value else now.year
  }

  /** `WHERE id_usuario = @id_usuario AND YEAR(data_transacao) = @ano` */
  function YearRows(txs: seq<Transaction>, user: UserId, y: int): (r: seq<Transaction>)
    ensures forall t :: t in r <==> t in txs && t.user == user && t.date.year == y
  {
    Filter(txs, (t: Transaction) => t.user == user && t.date.year == y)
  }

  /** The rows of one `MONTH(data_transacao)` group. */
  function MonthRows(rows: seq<Transaction>, m: int): (r: seq<Transaction>)
    ensures forall t :: t in r <==> t in rows && t.date.month == m
  {
    if rows == [] then []
    else (if rows[0].date.month == m then [rows[0]] else []) + MonthRows(rows[1..], m)
  }

  /** Months are numbered from 1. (A named constant rather than a literal, so that the
      verifier does not unfold the month recursion twelve times wherever it appears.) */
  const FirstMonth: int := 1

  /** The months from `from` on that have rows, ascending: the groups of
      `GROUP BY MONTH(data_transacao) ORDER BY mes`. */
  function ActiveMonths(rows: seq<Transaction>, from: int): (ms: seq<int>)
    requires 1 <= from <= 13
    ensures forall i :: 0 <= i < |ms| ==> from <= ms[i] <= 12
    ensures forall i, j :: 0 <= i < j < |ms| ==> ms[i] < ms[j]
    ensures forall m :: from <= m <= 12 ==> (m in ms <==> MonthRows(rows, m) != [])
    decreases 13 - from
  {
    if from == 13 then []
    else if MonthRows(rows, from) != [] then [from] + ActiveMonths(rows, from + 1)
    else ActiveMonths(rows, from + 1)
  }

  /** One slot of the monthly series. */
  datatype MonthTotals = MonthTotals(month: int, income: int, expenses: int)

  /** The expected content of slot `m`: that month's income and expenses. */
  function MonthSlot(rows: seq<Transaction>, m: int): MonthTotals {
    MonthTotals(m, Sum(MonthRows(rows, m), Receita), Sum(MonthRows(rows, m), Despesa))
  }

  /** The rows of the grouped query: one per month with transactions, ascending. */
  function TotalsByMonth(rows: seq<Transaction>): (gs: seq<MonthTotals>)
    ensures var ms := ActiveMonths(rows, FirstMonth);
            |gs| == |ms| && forall i :: 0 <= i < |gs| ==> gs[i] == MonthSlot(rows, ms[i])
  {
    var ms := ActiveMonths(rows, FirstMonth);
    seq(|ms|, i requires 0 <= i < |ms| => MonthSlot(rows, ms[i]))
  }

  /** A month without transactions has zero sums. */
  lemma EmptyMonthIsZero(rows: seq<Transaction>, m: int)
    requires MonthRows(rows, m) == []
    ensures MonthSlot(rows, m) == MonthTotals(m, 0, 0)
    ensures Net(MonthRows(rows, m)) == 0
  {
  }

  /** `obterReceitasDespesasPorMes`: the caller's rows of the year, grouped by month, then
      spread over twelve slots. */
  method ReceitasDespesasPorMes(db: Database, user: UserId, year: Option<int>, now: Period)
    returns (r: seq<MonthTotals>)
    ensures |r| == 12
    ensures forall i :: 0 <= i < 12 ==> r[i] == MonthSlot(YearRows(db.transactions, user, YearOf(year, now)), i + 1)
    ensures forall i :: 0 <= i < 12 && MonthRows(YearRows(db.transactions, user, YearOf(year, now)), i + 1) == [] ==>
              r[i].income == 0 && r[i].expenses == 0
  {
    var rows := YearRows(db.transactions, user, YearOf(year, now));
    var groups := TotalsByMonth(rows);
    r := FillMonths(groups);
    ghost var ms := ActiveMonths(rows, FirstMonth);
    forall i | 0 <= i < 12 ensures r[i] == MonthSlot(rows, i + 1) {
      SlotsAreMonthTotals(groups, ms, rows, |groups|, i + 1);
      if !GroupedBefore(ms, |groups|, i + 1) {
        EmptyMonthIsZero(rows, i + 1);
      }
    }
    forall i | 0 <= i < 12 && MonthRows(rows, i + 1) == [] ensures r[i].income == 0 && r[i].expenses == 0 {
      EmptyMonthIsZero(rows, i + 1);
    }
  }

  /** Slot `m` once the first `n` groups have been written: the last of them that is for
      month `m`, or zeros when none is. */
  function SlotAfter(groups: seq<MonthTotals>, n: nat, m: int): MonthTotals
    requires n <= |groups|
  {
    if n == 0 then MonthTotals(m, 0, 0)
    else if groups[n - 1].month == m then groups[n - 1]
    else SlotAfter(groups, n - 1, m)
  }

  /** The loop of `obterReceitasDespesasPorMes`: twelve slots, slot i for month i + 1,
      starting at zero; each group overwrites the slot of its month. */
  method FillMonths(groups: seq<MonthTotals>) returns (r: seq<MonthTotals>)
    requires forall g :: g in groups ==> 1 <= g.month <= 12
    ensures |r| == 12
    ensures forall i :: 0 <= i < 12 ==> r[i] == SlotAfter(groups, |groups|, i + 1)
  {
    var months := new MonthTotals[12](i => MonthTotals(i + 1, 0, 0));
    for k := 0 to |groups|
      invariant forall i :: 0 <= i < 12 ==> months[i] == SlotAfter(groups, k, i + 1)
    {
      var g := groups[k];
      assert g in groups;
      months[g.month - 1] := g;
    }
    r := months[..];
  }

  /** One of the first `k` groups is month `m`. */
  predicate GroupedBefore(ms: seq<int>, k: int, m: int) {
    exists j :: 0 <= j < k && j < |ms| && ms[j] == m
  }

  /** Writing the first `n` groups, each carrying the sums of its month, fills slot `m`
      with that month's sums when one of them is month `m`, and leaves its zeros
      otherwise. */
  lemma {:induction false} SlotsAreMonthTotals(groups: seq<MonthTotals>, ms: seq<int>, rows: seq<Transaction>,
                                               n: nat, m: int)
    requires n <= |groups| == |ms|
    requires forall j :: 0 <= j < |groups| ==> groups[j] == MonthSlot(rows, ms[j])
    ensures SlotAfter(groups, n, m) == if GroupedBefore(ms, n, m) then MonthSlot(rows, m) else MonthTotals(m, 0, 0)
  {
    if n > 0 {
      SlotsAreMonthTotals(groups, ms, rows, n - 1, m);
      assert groups[n - 1] == MonthSlot(rows, ms[n - 1]);
      if ms[n - 1] == m {
        assert GroupedBefore(ms, n, m);
      } else {
        assert GroupedBefore(ms, n, m) <==> GroupedBefore(ms, n - 1, m);
      }
    }
  }

  // ---------------------------------------------------------------- obterEvolucaoSaldo

  /** A row of the grouped query of `obterEvolucaoSaldo`: a month and its net. */
  datatype MonthNet = MonthNet(month: int, net: int)

  function NetByMonth(rows: seq<Transaction>): (gs: seq<MonthNet>)
    ensures var ms := ActiveMonths(rows, FirstMonth);
            |gs| == |ms| && forall i :: 0 <= i < |gs| ==> gs[i] == MonthNet(ms[i], Net(MonthRows(rows, ms[i])))
  {
    var ms := ActiveMonths(rows, FirstMonth);
    seq(|ms|, i requires 0 <= i < |ms| => MonthNet(ms[i], Net(MonthRows(rows, ms[i]))))
  }

  /** The balance accumulated over months 1 to m. */
  function RunningBalance(rows: seq<Transaction>, m: int): int
    decreases m
  {
    if m <= 0 then 0 else RunningBalance(rows, m - 1) + Net(MonthRows(rows, m))
  }

  /** One point of the balance evolution. */
  datatype MonthBalance = MonthBalance(month: int, balance: int)

  function MonthIs(m: int): MonthNet -> bool {
    (g: MonthNet) => g.month == m
  }

  /** `obterEvolucaoSaldo`: the caller's rows of the year, grouped by month, then
      accumulated into twelve points. */
  method EvolucaoSaldo(db: Database, user: UserId, year: Option<int>, now: Period)
    returns (r: seq<MonthBalance>)
    ensures |r| == 12
    ensures forall i :: 0 <= i < 12 ==>
              r[i] == MonthBalance(i + 1, RunningBalance(YearRows(db.transactions, user, YearOf(year, now)), i + 1))
  {
    var rows := YearRows(db.transactions, user, YearOf(year, now));
    var groups := NetByMonth(rows);
    r := AccumulateBalances(groups);
    forall x | 1 <= x <= 12 ensures GroupNet(groups, x) == Net(MonthRows(rows, x)) {
      FoundGroupIsMonthNet(rows, x);
    }
    forall i | 0 <= i < 12 ensures r[i].balance == RunningBalance(rows, i + 1) {
      GroupBalanceIsRunningBalance(groups, rows, i + 1);
    }
  }

  /** The net of month `m`'s group, or zero when the month has no group. */
  function GroupNet(groups: seq<MonthNet>, m: int): int {
    var k := IndexOf(groups, MonthIs(m));
    if k >= 0 then groups[k].net else 0
  }

  /** The balance through month `m` as the loop accumulates it from the groups. */
  function GroupBalance(groups: seq<MonthNet>, m: int): int
    decreases m
  {
    if m <= 0 then 0 else GroupBalance(groups, m - 1) + GroupNet(groups, m)
  }

  /** The loop of `obterEvolucaoSaldo`: point i carries month i + 1 and the balance
      accumulated through it, adding each month's net when that month has a group. */
  method AccumulateBalances(groups: seq<MonthNet>) returns (r: seq<MonthBalance>)
    ensures |r| == 12
    ensures forall i :: 0 <= i < 12 ==> r[i] == MonthBalance(i + 1, GroupBalance(groups, i + 1))
  {
    var balance := 0;
    r := [];
    var i := 0;
    while i < 12
      invariant 0 <= i <= 12
      invariant |r| == i
      invariant balance == GroupBalance(groups, i)
      invariant forall j :: 0 <= j < i ==> r[j] == MonthBalance(j + 1, GroupBalance(groups, j + 1))
    {
      var k := IndexOf(groups, MonthIs(i + 1));
      if k >= 0 {
        balance := balance + groups[k].net;
      }
      r := r + [MonthBalance(i + 1, balance)];
      i := i + 1;
    }
  }

  /** Groups whose nets agree with the rows' month by month accumulate to the rows'
      running balance. */
  lemma {:induction false} GroupBalanceIsRunningBalance(groups: seq<MonthNet>, rows: seq<Transaction>, m: int)
    requires forall x :: 1 <= x <= m ==> GroupNet(groups, x) == Net(MonthRows(rows, x))
    ensures GroupBalance(groups, m) == RunningBalance(rows, m)
    decreases m
  {
    if m > 0 {
      GroupBalanceIsRunningBalance(groups, rows, m - 1);
    }
  }

  /** Looking month `m` up among the groups of the query yields that month's net, and a
      month with no group has none. */
  lemma FoundGroupIsMonthNet(rows: seq<Transaction>, m: int)
    requires 1 <= m <= 12
    ensures GroupNet(NetByMonth(rows), m) == Net(MonthRows(rows, m))
  {
    var gs := NetByMonth(rows);
    var ms := ActiveMonths(rows, FirstMonth);
    var k := IndexOf(gs, MonthIs(m));
    if k >= 0 {
      assert MonthIs(m)(gs[k]);
    } else {
      assert m !in ms by {
        forall j | 0 <= j < |ms| ensures ms[j] != m {
          assert !MonthIs(m)(gs[j]);
        }
      }
      EmptyMonthIsZero(rows, m);
    }
  }

  /** Each step of the evolution is that month's income minus its expenses, as the
      monthly series shows them. */
  lemma EvolutionStepIsMonthlyNet(rows: seq<Transaction>, m: int)
    requires 1 <= m <= 12
    ensures RunningBalance(rows, m) - RunningBalance(rows, m - 1) == MonthSlot(rows, m).income - MonthSlot(rows, m).expenses
  {
    NetIsIncomeMinusExpenses(MonthRows(rows, m));
  }

  /** Peeling the first row off a month group. */
  lemma MonthRowsPeel(rows: seq<Transaction>, m: int)
    requires rows != []
    ensures Net(MonthRows(rows, m)) == (if rows[0].date.month == m then Signed(rows[0]) else 0) + Net(MonthRows(rows[1..], m))
  {
    if rows[0].date.month == m {
      assert MonthRows(rows, m) == [rows[0]] + MonthRows(rows[1..], m);
      assert ([rows[0]] + MonthRows(rows[1..], m))[1..] == MonthRows(rows[1..], m);
    } else {
      assert MonthRows(rows, m) == MonthRows(rows[1..], m);
    }
  }

  lemma {:induction false} RunningBalancePeel(rows: seq<Transaction>, m: int)
    requires rows != []
    ensures RunningBalance(rows, m) == (if 1 <= rows[0].date.month <= m then Signed(rows[0]) else 0)
                                       + RunningBalance(rows[1..], m)
    decreases m
  {
    if m > 0 {
      RunningBalancePeel(rows, m - 1);
      MonthRowsPeel(rows, m);
    }
  }

  /** The December point is the net of the whole year: the months partition the year. */
  lemma {:induction false} YearEndBalanceIsYearNet(rows: seq<Transaction>)
    ensures RunningBalance(rows, 12) == Net(rows)
  {
    if rows != [] {
      RunningBalancePeel(rows, 12);
      YearEndBalanceIsYearNet(rows[1..]);
    }
  }

  // ---------------------------------------------------------------- obterTransacoesRecentes

  /** `ORDER BY t.data_transacao DESC, t.id_transacao DESC`: `a` comes no later than `b`. */
  predicate NewerOrSame(a: Transaction, b: Transaction) {
    DateLe(b.date, a.date) && (a.date == b.date ==> a.id >= b.id)
  }

  function NewestFirst(): (TxRow, TxRow) -> bool {
    (x: TxRow, y: TxRow) => NewerOrSame(x.tx, y.tx)
  }

  lemma NewestFirstIsTotalPreorder()
    ensures TotalPreorder(NewestFirst())
  {
  }

  /** `WHERE t.id_usuario = @id_usuario` */
  function UserRows(txs: seq<Transaction>, user: UserId): (r: seq<Transaction>)
    ensures forall t :: t in r <==> t in txs && t.user == user
  {
    Filter(txs, (t: Transaction) => t.user == user)
  }

  /** The caller's transactions joined with their categories. */
  function UserJoin(txs: seq<Transaction>, cats: seq<Category>, user: UserId): (r: seq<TxRow>)
    ensures forall row :: row in r ==> row.tx in txs && row.tx.user == user
  {
    Join(UserRows(txs, user), cats)
  }

  /** `obterTransacoesRecentes`: the first `limite` (default 10) of the caller's rows,
      newest first; a negative count makes `TOP` fail. */
  function Recentes(txs: seq<Transaction>, cats: seq<Category>, user: UserId, limit: Option<int>)
    : (r: Result<seq<TxRow>>)
    ensures r.Ok? <==> limit.GetOr(10) >= 0
    ensures r.Err? ==> r.error == ServerError
    ensures r.Ok? ==> |r.value| <= limit.GetOr(10)
    ensures r.Ok? ==> forall row :: row in r.value ==> row.tx in txs && row.tx.user == user
  {
    var n := limit.GetOr(10);
    if n < 0 then Err(ServerError)
    else
      var all := SortBy(UserJoin(txs, cats, user), NewestFirst());
      SortKeepsRows(UserJoin(txs, cats, user), NewestFirst());
      Ok(if n <= |all| then all[..n] else all)
  }

  /** The rows come newest first, and every row of the caller left out is no newer than
      any row returned. */
  lemma RecentesAreTheNewest(txs: seq<Transaction>, cats: seq<Category>, user: UserId, limit: Option<int>)
    requires limit.GetOr(10) >= 0
    ensures var r := Recentes(txs, cats, user, limit).value;
            && SortedBy(r, NewestFirst())
            && (forall x, y :: x in r && y in UserJoin(txs, cats, user) && y !in r ==> NewerOrSame(x.tx, y.tx))
  {
    var n := limit.GetOr(10);
    var joined := UserJoin(txs, cats, user);
    var all := SortBy(joined, NewestFirst());
    NewestFirstIsTotalPreorder();
    SortBySorted(joined, NewestFirst());
    SortKeepsRows(joined, NewestFirst());
    var m := if n <= |all| then n else |all|;
    assert Recentes(txs, cats, user, limit).value == all[..m];
    PrefixComesFirst(all, NewestFirst(), m);
  }

  /** In a valid store exactly min(limite, number of the caller's transactions) rows come
      back: the join loses none of them. */
  lemma RecentesCount(txs: seq<Transaction>, cats: seq<Category>, next: int, user: UserId, limit: Option<int>)
    requires TransactionsOk(txs, cats, next) && limit.GetOr(10) >= 0
    ensures var mine := UserRows(txs, user);
            |Recentes(txs, cats, user, limit).value| == if limit.GetOr(10) <= |mine| then limit.GetOr(10) else |mine|
  {
    var mine := UserRows(txs, user);
    ValidCategoriesExist(txs, cats, next, mine);
    JoinKeepsEveryRow(mine, cats);
  }
}
