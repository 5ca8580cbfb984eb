# GestEasy controllers in Dafny

This project models the business logic of the four backend controllers of GestEasy, a
personal-finance application:

- categories (`categoriasController.js`);
- transactions (`transacoesController.js`);
- budgets (`orcamentosController.js`);
- the dashboard (`dashboardController.js`).

The relational store becomes a `Database` object. It holds the `categorias`, `transacoes` and
`orcamentos` tables as sequences of rows, plus the IDENTITY counters that number new rows.

Each controller action becomes a Dafny method or function that takes an
already-authenticated user id. Each SQL statement becomes its effect on those sequences.
The HTTP answer becomes a `Result` that is either `Ok` or `Err` with a reason: missing
fields, invalid type, non-positive amount, invalid month or year, invalid category, not
found, duplicate, nothing to update, in use, or server error.

Modelling conventions:

- Money is integer cents, because the columns are `DECIMAL(15,2)`.
- A date is a (year, month, day) triple with month 1..12 and day 1..31.
- JavaScript truthiness is explicit:
  - An absent or empty string is "not given", except for the destructuring defaults of
    category creation (`tipo`, `cor`, `icone`), which replace only an absent field: there an
    empty string is kept, so an empty `tipo` is refused and an empty colour is stored.
  - An absent or zero JSON number is "not given".
  - A query-string value that is present is a string, so even "0" counts as given.
- The current time (`GETDATE()`, `new Date()`) is a parameter: `now`.

The store invariant `Database.Valid` has three parts:

- category ids are unique, and category names are unique per user;
- every transaction is positive and uses one of its owner's categories;
- every budget has a month in 1..12, a year of at least 2000, a positive limit and one of
  its owner's categories, and (user, category, month, year) is unique.

Every mutating operation preserves `Valid`.

Files:

- `domain.dfy`: records, enums, `Result`, truthiness, period choice.
- `seqs.dfy`: selection, lookup and deletion of rows.
- `sorting.dfy`: `ORDER BY` as a comparator sort, with permutation, order, sum and `TOP` lemmas.
- `store.dfy`: the `Database` class, invariants, ownership lookups, the category join.
- `categorias.dfy`, `transacoes.dfy`, `orcamentos.dfy`, `dashboard.dfy`: one module per controller.

Behaviour of the handlers that the model keeps as it is:

- The budget-update duplicate check treats an omitted month or year as matching any value,
  instead of re-checking against the period the update produces.
- A zero amount, limit, month or year in an update counts as "not given" rather than as an
  invalid value.
- Budgets and dashboard periods use the requested period only when both `mes` and `ano` are
  given, otherwise the current month.

## Model

| member | source | states |
|---|---|---|
| Domain.ParseTxKind | backend/src/controllers/transacoesController.js:198 | a transaction type is accepted exactly when it is "receita" or "despesa", and the parsed kind prints back as the input |
| Domain.ParseCategoryKind | backend/src/controllers/categoriasController.js:105 | a category type is accepted exactly when it is "receita", "despesa" or "ambos", and the parsed kind prints back as the input |
| Domain.ChosenPeriod | backend/src/controllers/orcamentosController.js:15-22 | the period is (mes, ano) when both are given, otherwise the current month |
| Store.FindCategory | backend/src/controllers/categoriasController.js:67 | a category index is found exactly when the caller owns a category with that id, and it points at that row |
| Store.FindTransaction | backend/src/controllers/transacoesController.js:284 | a transaction index is found unless no row has both that id and that owner |
| Store.FindBudget | backend/src/controllers/orcamentosController.js:249 | a budget index is found unless no row has both that id and that owner |
| Store.Join | backend/src/controllers/transacoesController.js:32 | the inner join yields no more rows than there are transactions, each carrying a transaction of the input |
| Store.JoinPairsWithCategory | backend/src/controllers/transacoesController.js:27-32 | the join keeps exactly the transactions whose category row exists, once each and in table order, and each row carries the name, colour and icon of a category with the id its transaction names |
| Store.JoinKeepsEveryRow | backend/src/controllers/transacoesController.js:32 | when every category exists the join loses no transaction and keeps table order |
| Store.CategoryChangeKeepsRefs | backend/src/controllers/categoriasController.js:234-238 | adding or editing a category without changing its id or owner keeps every transaction's and budget's ownership facts |
| Store.RemoveUnusedCategory | backend/src/controllers/categoriasController.js:290-301 | removing a category no transaction or budget refers to keeps all three table invariants |
| Categorias.ByNameIsTotalPreorder | backend/src/controllers/categoriasController.js:30 | name order is total and transitive |
| Categorias.SortedByName | backend/src/controllers/categoriasController.js:30 | sorting by name yields rows in ascending name order |
| Categorias.Listar | backend/src/controllers/categoriasController.js:19-30 | the result holds exactly the caller's categories, narrowed to the requested type or 'ambos' when a type is given, each once at most, in ascending name order |
| Categorias.BuscarPorId | backend/src/controllers/categoriasController.js:55-75 | a category is returned exactly when the caller owns one with that id; otherwise the result is not-found |
| Categorias.KeepingOwnNameIsAllowed | backend/src/controllers/categoriasController.js:186-199 | in a valid store a category's current name is never held by another of the owner's categories, so keeping it passes the duplicate check |
| Categorias.Criar | backend/src/controllers/categoriasController.js:95-138 | checks run in order: missing name, then bad type (default 'ambos'), then a name the user already has; the request succeeds exactly when it passes all three; an error leaves the store unchanged; success appends the exact row with defaults '#6c757d' and 'fa-folder' and keeps the store valid |
| Categorias.EditKeepsStoreValid | backend/src/controllers/categoriasController.js:186-238 | an edit that keeps id and owner and takes no other category's name keeps the store valid |
| Categorias.Atualizar | backend/src/controllers/categoriasController.js:163-238 | checks run in order: bad type, then not-found, then a name held by another of the caller's categories, then an empty patch; the request succeeds exactly when it passes all four, so sending the category's current name back is accepted; an error leaves the store unchanged; success replaces only that row, each given field set and the rest kept |
| Categorias.TransactionsUsing | backend/src/controllers/categoriasController.js:284 | the count is zero exactly when no transaction of any user references the category |
| Categorias.BudgetsUsing | backend/src/controllers/categoriasController.js:285 | the count is zero exactly when no budget of any user references the category |
| Categorias.Deletar | backend/src/controllers/categoriasController.js:267-301 | not-found for a category the caller does not own; refused with both counts while anything references it; succeeds exactly for an owned, unreferenced category, and then exactly that category is removed; an error leaves the store unchanged |
| Transacoes.BuildConditions | backend/src/controllers/transacoesController.js:39-63 | the AND-chain built from the supplied filters holds for a transaction exactly when it passes every supplied filter |
| Transacoes.Selected | backend/src/controllers/transacoesController.js:33-63 | a transaction is selected exactly when it is the caller's and passes every filter |
| Transacoes.SortColumnOf | backend/src/controllers/transacoesController.js:66-67 | the sort column is valor or tipo exactly when that name is requested, and data_transacao otherwise |
| Transacoes.IsAscending | backend/src/controllers/transacoesController.js:68 | ascending order is chosen exactly when `ordem` is given and spells "asc" in any letter case, the long s 'ſ' counting as 's'; the default is descending |
| Transacoes.AscendingSpellings | backend/src/controllers/transacoesController.js:68 | a string upper-cases to "ASC" exactly when it spells "asc" in any letter case, with 'ſ' (which `toUpperCase` maps to 'S') counting as 's' |
| Transacoes.RowOrderIsTotalPreorder | backend/src/controllers/transacoesController.js:70 | every sort column and direction is a total, transitive order |
| Transacoes.CeilDiv | backend/src/controllers/transacoesController.js:125 | the page count p satisfies total <= p*limite < total + limite |
| Transacoes.Window | backend/src/controllers/transacoesController.js:73-76 | row i of the page is row offset+i of the listing; the page is full when enough rows remain, holds the rest otherwise, never more than `limite`, and is empty past the end |
| Transacoes.PageHasRowsIffWithinPages | backend/src/controllers/transacoesController.js:73-76 | a page has rows exactly when its number is at most total_paginas |
| Transacoes.OffsetSign | backend/src/controllers/transacoesController.js:73 | with a positive limit the offset is negative exactly for pages before the first |
| Transacoes.SameConditionsSameRows | backend/src/controllers/transacoesController.js:81-116 | the count query's selection built from the same filters is the page query's selection |
| Transacoes.ListingProperties | backend/src/controllers/transacoesController.js:20-116 | in a valid store the joined listing is sorted, every row is the caller's and passes the filters, and it has as many rows as the count query counts |
| Transacoes.PageOfListing | backend/src/controllers/transacoesController.js:73-116 | in a valid store the listing has as many rows as the count query selects, and any page of it is sorted and holds only the caller's rows that pass every filter |
| Transacoes.WindowOfSorted | backend/src/controllers/transacoesController.js:74 | a page of a sorted listing is sorted and holds only listing rows |
| Transacoes.Listar | backend/src/controllers/transacoesController.js:4-127 | fails exactly when page < 1 or limite <= 0 (defaults 1 and 50). Otherwise the rows are the requested window of the sorted, joined, filtered listing; the total counts the same filter set; total_paginas = ceil(total/limite); rows are sorted, at most limite, and each is the caller's and passes every filter |
| Transacoes.BuscarPorId | backend/src/controllers/transacoesController.js:145-168 | a joined row is returned exactly when the caller owns a transaction with that id, and it carries the name and colour of the category that transaction names |
| Transacoes.Criar | backend/src/controllers/transacoesController.js:191-239 | checks run in order: missing field, then bad type, then amount <= 0, then a foreign category; the request succeeds exactly when it passes all four; an error leaves the store unchanged; success appends exactly the new row (empty description stored as NULL) and keeps the store valid |
| Transacoes.Atualizar | backend/src/controllers/transacoesController.js:264-355 | checks run in order: bad type, then a non-zero amount <= 0, then not-found, then a foreign new category, then no field; the request succeeds exactly when it passes all five; an error leaves the store unchanged; success replaces only that row, each given field set, data_atualizacao refreshed |
| Transacoes.PatchKeepsStoreValid | backend/src/controllers/transacoesController.js:264-355 | an update that passed the type, amount and category checks keeps every transaction invariant |
| Transacoes.Deletar | backend/src/controllers/transacoesController.js:381-397 | succeeds exactly when the caller owns the row, and then exactly the caller's row with that id goes and all others stay; otherwise not-found with the store unchanged |
| Orcamentos.ByUsageDescIsTotalPreorder | backend/src/controllers/orcamentosController.js:38 | descending usage order is total and transitive |
| Orcamentos.Listar | backend/src/controllers/orcamentosController.js:15-38 | exactly the caller's budgets of the chosen period, by percentual_usado descending |
| Orcamentos.BuscarPorId | backend/src/controllers/orcamentosController.js:67-91 | a budget is returned exactly when the caller owns one with that id |
| Orcamentos.Criar | backend/src/controllers/orcamentosController.js:121-197 | checks run in order: missing field, then month outside 1..12, then year < 2000, then limit <= 0, then a foreign category, then an existing (user, category, month, year); the request succeeds exactly when it passes all six; an error leaves the store unchanged; after success the tuple is held by exactly the new row and the store stays valid |
| Orcamentos.AppendKeepsBudgetsOk | backend/src/controllers/orcamentosController.js:121-197 | appending a new budget with in-range fields, an owned category and a free (user, category, month, year) keeps every budget invariant, and the tuple is then taken |
| Orcamentos.ClashFound | backend/src/controllers/orcamentosController.js:259-283 | with month and year both given, the duplicate query finds a row exactly when another budget holds the resulting (user, category, month, year); with neither given, exactly when the caller has any other budget in that category |
| Orcamentos.PassingCheckKeepsKeysUnique | backend/src/controllers/orcamentosController.js:259-283 | when the duplicate query (run only if mes or ano is given) finds nothing, no other budget holds the updated row's (user, category, month, year) |
| Orcamentos.PatchKeepsStoreValid | backend/src/controllers/orcamentosController.js:222-320 | an update that passed the range and duplicate checks keeps every budget invariant |
| Orcamentos.OmittedMonthMatchesAnyMonth | backend/src/controllers/orcamentosController.js:264-273 | an omitted month matches any month in the duplicate query, so an update whose resulting tuple is free can still be refused |
| Orcamentos.Atualizar | backend/src/controllers/orcamentosController.js:222-320 | checks run in order: month, then year, then limit, then not-found, then the wildcard duplicate query, then an empty patch; the request succeeds exactly when it passes all six; an error leaves the store unchanged; success changes only the given limit, month and year of that row and never its category |
| Orcamentos.Deletar | backend/src/controllers/orcamentosController.js:348-364 | succeeds exactly when the caller owns the budget, and then exactly that row goes; otherwise not-found with the store unchanged |
| Dashboard.NetIsIncomeMinusExpenses | backend/src/controllers/dashboardController.js:27-29 | the signed sum equals income minus expenses over any rows |
| Dashboard.PeriodRows | backend/src/controllers/dashboardController.js:15-31 | exactly the caller's transactions dated in the period's month and year |
| Dashboard.Resumo | backend/src/controllers/dashboardController.js:15-43 | income and expenses are the sums over the caller's rows in the chosen period; saldo = receitas - despesas; all zero for an empty period; the reported period is the period summed |
| Dashboard.ReportedPeriodMislabelsTotals | backend/src/controllers/dashboardController.js:42-43 | with only mes given, the handler reports a month other than the one it summed |
| Dashboard.ReportedPeriodAgreesWhenBothOrNeither | backend/src/controllers/dashboardController.js:15-22 | the handler's label matches the summed period when both or neither of mes/ano are given, and differs when only a different mes is given |
| Dashboard.ExpenseKeys | backend/src/controllers/dashboardController.js:86 | the group keys are distinct, one for each (name, colour) of an expense row |
| Dashboard.CategoryEntries | backend/src/controllers/dashboardController.js:76-86 | one entry per (name, colour) of an expense row, each carrying its group's total, no entry twice |
| Dashboard.DespesasPorCategoria | backend/src/controllers/dashboardController.js:76-88 | every entry is the total of an expense group of the period, and every expense row's group has an entry |
| Dashboard.ByTotalDescIsTotalPreorder | backend/src/controllers/dashboardController.js:87 | descending total order is total and transitive |
| Dashboard.SortedEntriesHaveDistinctKeys | backend/src/controllers/dashboardController.js:86-87 | ordering the groups keeps one entry per (name, colour) |
| Dashboard.ExpensesByCategoryOrdered | backend/src/controllers/dashboardController.js:86-87 | entries come by total descending, with no two entries for one (name, colour) |
| Dashboard.GroupTotalsPartitionExpenses | backend/src/controllers/dashboardController.js:80-86 | the group totals add up to the sum of all expense rows |
| Dashboard.JoinKeepsSums | backend/src/controllers/dashboardController.js:82 | a lossless join keeps the per-type sums |
| Dashboard.ExpenseTotalsAddUp | backend/src/controllers/dashboardController.js:76-88 | in a valid store the category totals add up to the summary's total_despesas for the same period |
| Dashboard.YearRows | backend/src/controllers/dashboardController.js:120-133 | exactly the caller's transactions of the chosen year |
| Dashboard.MonthRows | backend/src/controllers/dashboardController.js:134 | exactly the rows of that month |
| Dashboard.ActiveMonths | backend/src/controllers/dashboardController.js:134-135 | months in ascending order within range, containing a month exactly when it has rows |
| Dashboard.TotalsByMonth | backend/src/controllers/dashboardController.js:127-136 | one group per month with rows, ascending, carrying that month's income and expenses |
| Dashboard.EmptyMonthIsZero | backend/src/controllers/dashboardController.js:139-143 | a month without rows has zero income, expenses and net |
| Dashboard.FillMonths | backend/src/controllers/dashboardController.js:139-151 | exactly 12 slots; slot i holds the last group for month i+1, or month i+1 with zeros when no group has that month |
| Dashboard.SlotsAreMonthTotals | backend/src/controllers/dashboardController.js:139-151 | when every group carries its month's sums, the filled slot for month m holds that month's income and expenses if some group has month m, and zeros otherwise |
| Dashboard.ReceitasDespesasPorMes | backend/src/controllers/dashboardController.js:120-151 | exactly 12 entries; entry i is month i+1 with that month's income and expenses, and zeros when it has no transactions |
| Dashboard.NetByMonth | backend/src/controllers/dashboardController.js:186-194 | one group per month with rows, ascending, carrying that month's net |
| Dashboard.FoundGroupIsMonthNet | backend/src/controllers/dashboardController.js:199-202 | the net found for month m among the grouped query's rows is that month's net, zero when no group has month m |
| Dashboard.AccumulateBalances | backend/src/controllers/dashboardController.js:197-207 | exactly 12 points; point i is month i+1 carrying the sum of the nets of the groups for months 1..i+1 |
| Dashboard.GroupBalanceIsRunningBalance | backend/src/controllers/dashboardController.js:197-205 | when each month's group net agrees with the rows' net for that month, the accumulated group nets equal the running balance of the rows |
| Dashboard.EvolucaoSaldo | backend/src/controllers/dashboardController.js:168-207 | exactly 12 entries; entry i is month i+1 with the balance accumulated through that month |
| Dashboard.EvolutionStepIsMonthlyNet | backend/src/controllers/dashboardController.js:130-131 | each step of the balance evolution equals the monthly series' income minus expenses for that month (so entry 0 is January's net) |
| Dashboard.YearEndBalanceIsYearNet | backend/src/controllers/dashboardController.js:197-207 | the December balance is the net of the whole year |
| Dashboard.NewestFirstIsTotalPreorder | backend/src/controllers/dashboardController.js:246 | newest-first ordering by date, then id, is total and transitive |
| Dashboard.UserRows | backend/src/controllers/dashboardController.js:245 | exactly the caller's transactions |
| Dashboard.UserJoin | backend/src/controllers/dashboardController.js:243-245 | every joined row carries one of the caller's transactions |
| Dashboard.Recentes | backend/src/controllers/dashboardController.js:227-246 | fails exactly for a negative limite (default 10); otherwise at most limite rows, all the caller's |
| Dashboard.RecentesAreTheNewest | backend/src/controllers/dashboardController.js:234-246 | rows come by date descending, then id descending, and no row left out is newer than a returned one |
| Dashboard.RecentesCount | backend/src/controllers/dashboardController.js:234-245 | in a valid store exactly min(limite, number of the caller's transactions) rows come back |

## Left out

- HTTP routing, status codes and JSON envelopes are not modelled. Each outcome is an `Ok` value or an `Err` reason.
- Authentication, JWT, sessions and the PDF/CSV export are not modelled. `authController.js`, `auth.js` and `exportController.js` are not part of this model.
- The database view `vw_orcamentos_status` is not part of this model, so `percentual_usado` and `status_alerta` are not modelled. `Orcamentos.Listar` takes the percentage as a parameter `usage`, and the view's columns are not returned.
- `parseFloat` and floating-point output conversions are not modelled: money is exact integer cents.
- Transacoes.Criar, Transacoes.Atualizar, Orcamentos.Criar, Orcamentos.Atualizar: sub-cent input is not modelled. An amount or limit strictly between 0 and 0.005 passes the `> 0` check on the raw number but is stored as 0.00 by the DECIMAL(15,2) binding. The model's integer cents exclude this input, so its invariant that every stored amount and limit is positive does not cover it.
- Non-numeric query-string values (`parseInt` giving NaN, `sql.Int` conversion errors) are not modelled. Page, limit, month and year are already integers.
- Transacoes.Contains: `LIKE '%busca%'` is plain, case-sensitive substring containment. `%`/`_` wildcards inside `busca` and the database collation are not modelled.
- Collation is not modelled anywhere else either. Name uniqueness, `tipo` comparison and name ordering use exact, code-point comparison.
- Transacoes.Upper: only the ASCII letters and the long s 'ſ' (upper-cased to 'S') are mapped. The other non-ASCII case mappings, including the ones that change length such as 'ß' to "SS", are not modelled; none of them yields "ASC".
- SQL leaves the order of rows with equal sort keys open. The model fixes it: equal rows keep their table order.
- Concurrency is not modelled. Operations run one at a time, so check-then-insert races on the uniqueness rules do not arise.
- Dates are not checked as real calendar dates: only month 1..12 and day 1..31 are enforced. The date strings' parsing is not modelled.
- Categorias.Criar: a `tipo`, colour or icon given as JSON `null` is not modelled (the source refuses a null `tipo` and stores a null colour or icon, since a default replaces only an absent field). The model treats an absent field as "use the default".
- Transacoes.Criar, Transacoes.Atualizar, Orcamentos.Criar, Orcamentos.Atualizar: the DECIMAL(15,2) bound is not modelled. An amount or limit of 10^13 units or more is refused by the database, and the handler answers 500; the model accepts it, because money is an unbounded integer of cents.
- The 32-bit range of the `sql.Int` parameters (ids, month, year) is not modelled; an out-of-range value makes the database call fail with a 500.
- Transacoes.BuscarPorId: the returned row also carries the category icon, which the source's query does not select.
- The column default of `data_atualizacao` on insert is not modelled: `updatedAt` is `None` until the first update.
- Timezones are not modelled. The current month and timestamp come from the `now` parameter.

## Findings

| source | as written | input that shows it | evidently intended | confidence | as-written member | corrected member |
|---|---|---|---|---|---|---|
| backend/src/controllers/dashboardController.js:15-22, 42-43 | totals are summed for (mes, ano) only when both are given, but the response reports `mes \|\| current month` and `ano \|\| current year` separately | `mes=3`, no `ano`, in October 2026: October's totals are labelled March 2026 | the reported period is the one whose totals are returned | high, not executed | Dashboard.ReportedPeriodMislabelsTotals | Dashboard.Resumo |
