/** The budget controller: a spending limit per user, category, month and year, listed by
    period, read by id, created, partially updated and deleted. */
module Orcamentos {
  import opened Domain
  import opened Seqs
  import opened Sorting
  import opened Store

  // ---------------------------------------------------------------- listar

  /** `ORDER BY percentual_usado DESC`, where `usage` is the view's percentage column. */
  function ByUsageDesc(usage: Budget -> int): (Budget, Budget) -> bool {
    (a: Budget, b: Budget) => usage(a) >= usage(b)
  }

  lemma ByUsageDescIsTotalPreorder(usage: Budget -> int)
    ensures TotalPreorder(ByUsageDesc(usage))
  {
  }

  /** The rows of `vw_orcamentos_status` for the caller in one period. */
  predicate InPeriod(b: Budget, user: UserId, p: Period) {
    b.user == user && b.month == p.month && b.year == p.year
  }

  /** `listar`: the caller's budgets of the chosen period, highest usage first. */
  method Listar(db: Database, user: UserId, month: Option<int>, year: Option<int>, now: Period,
                usage: Budget -> int) returns (r: seq<Budget>)
    ensures forall b :: b in r <==> b in db.budgets && InPeriod(b, user, ChosenPeriod(month, year, now))
    ensures multiset(r) <= multiset(db.budgets)
    ensures SortedBy(r, ByUsageDesc(usage))
    ensures forall i, j :: 0 <= i < j < |r| ==> usage(r[i]) >= usage(r[j])
  {
    var period := if month.Some? && year.Some? then Period(month.value, year.value) else now;
    var selected := Filter(db.budgets, (b: Budget) => InPeriod(b, user, period));
    r := SortBy(selected, ByUsageDesc(usage));
    ByUsageDescIsTotalPreorder(usage);
    SortBySorted(selected, ByUsageDesc(usage));
    SortKeepsRows(selected, ByUsageDesc(usage));
  }

  // ---------------------------------------------------------------- buscarPorId

  /** `buscarPorId`: the budget only when both its id and its owner match. */
  method BuscarPorId(db: Database, user: UserId, id: int) returns (r: Result<Budget>)
    ensures r.Ok? <==> exists b :: b in db.budgets && b.id == id && b.user == user
    ensures r.Ok? ==> r.value in db.budgets && r.value.id == id && r.value.user == user
    ensures r.Err? ==> r.error == NotFound
  {
    var i := FindBudget(db.budgets, id, user);
    if i < 0 {
      return Err(NotFound);
    }
    r := Ok(db.budgets[i]);
  }

  // ---------------------------------------------------------------- criar

  /** The caller already has a budget for that category, month and year. */
  predicate KeyTaken(bs: seq<Budget>, user: UserId, category: int, month: int, year: int) {
    exists b :: b in bs && BudgetKey(b) == (user, category, month, year)
  }

  /** The request body of `criar`; None is a field left out or null. */
  datatype NewBudget = NewBudget(category: Option<int>, month: Option<int>, year: Option<int>, limit: Option<int>)

  predicate AllRequiredGiven(input: NewBudget) {
    GivenNum(input.category) && GivenNum(input.month) && GivenNum(input.year) && GivenNum(input.limit)
  }

  /** `criar`: required fields, month, year, limit, the category's owner and the
      uniqueness of (user, category, month, year), in that order, before the INSERT. */
  method Criar(db: Database, user: UserId, input: NewBudget) returns (r: Result<Budget>)
    requires db.Valid()
    modifies db
    ensures db.Valid()
    ensures !AllRequiredGiven(input) ==> r == Err(MissingFields)
    ensures AllRequiredGiven(input) && !(1 <= input.month.value <= 12) ==> r == Err(InvalidMonth)
    ensures (AllRequiredGiven(input) && 1 <= input.month.value <= 12 && input.year.value < 2000)
            ==> r == Err(InvalidYear)
    ensures (AllRequiredGiven(input) && 1 <= input.month.value <= 12 && input.year.value >= 2000
             && input.limit.value < 0) ==> r == Err(NonPositiveAmount)
    ensures (AllRequiredGiven(input) && 1 <= input.month.value <= 12 && input.year.value >= 2000
             && input.limit.value > 0 && !OwnsCategory(old(db.categories), input.category.value, user))
            ==> r == Err(InvalidCategory)
    ensures (AllRequiredGiven(input) && 1 <= input.month.value <= 12 && input.year.value >= 2000
             && input.limit.value > 0 && OwnsCategory(old(db.categories), input.category.value, user)
             && KeyTaken(old(db.budgets), user, input.category.value, input.month.value, input.year.value))
            ==> r == Err(Duplicate)
    ensures r.Ok? <==>
      && AllRequiredGiven(input) && 1 <= input.month.value <= 12 && input.year.value >= 2000
      && input.limit.value > 0 && OwnsCategory(old(db.categories), input.category.value, user)
      && !KeyTaken(old(db.budgets), user, input.category.value, input.month.value, input.year.value)
    ensures r.Err? ==> unchanged(db)
    ensures r.Ok? ==>
      && AllRequiredGiven(input)
      && !KeyTaken(old(db.budgets), user, input.category.value, input.month.value, input.year.value)
      && r.value == Budget(old(db.nextBudgetId), user, input.category.value, input.month.value,
                           input.year.value, input.limit.value, None)
      && db.budgets == old(db.budgets) + [r.value]
      && KeyTaken(db.budgets, user, input.category.value, input.month.value, input.year.value)
      && db.nextBudgetId == old(db.nextBudgetId) + 1
      && db.categories == old(db.categories) && db.nextCategoryId == old(db.nextCategoryId)
      && db.transactions == old(db.transactions) && db.nextTransactionId == old(db.nextTransactionId)
  {
    if !AllRequiredGiven(input) {
      return Err(MissingFields);
    }
    var category, month, year, limit := input.category.value, input.month.value, input.year.value, input.limit.value;
    if month < 1 || month > 12 {
      return Err(InvalidMonth);
    }
    if year < 2000 {
      return Err(InvalidYear);
    }
    if limit <= 0 {
      return Err(NonPositiveAmount);
    }
    if FindCategory(db.categories, category, user) < 0 {
      return Err(InvalidCategory);
    }
    var existing := IndexOf(db.budgets, (b: Budget) => BudgetKey(b) == (user, category, month, year));
    if existing >= 0 {
      assert db.budgets[existing] in db.budgets;
      return Err(Duplicate);
    }
    var row := Budget(db.nextBudgetId, user, category, month, year, limit, None);
    AppendKeepsBudgetsOk(db.budgets, row, db.categories, db.nextBudgetId);
    db.budgets := db.budgets + [row];
    db.nextBudgetId := db.nextBudgetId + 1;
    r := Ok(row);
  }

  /** Appending an in-range row whose id is the counter's and whose (user, category,
      month, year) is free keeps every budget invariant, and the tuple is then taken. */
  lemma AppendKeepsBudgetsOk(bs: seq<Budget>, row: Budget, cats: seq<Category>, next: int)
    requires BudgetsOk(bs, cats, next) && row.id == next
    requires 1 <= row.month <= 12 && row.year >= 2000 && row.limit > 0
    requires OwnsCategory(cats, row.category, row.user)
    requires !KeyTaken(bs, row.user, row.category, row.month, row.year)
    ensures BudgetsOk(bs + [row], cats, next + 1)
    ensures KeyTaken(bs + [row], row.user, row.category, row.month, row.year)
  {
    assert forall j :: 0 <= j < |bs| ==> BudgetKey(bs[j]) != BudgetKey(row) by {
      forall j | 0 <= j < |bs| ensures BudgetKey(bs[j]) != BudgetKey(row) {
        assert bs[j] in bs;
      }
    }
    assert forall j :: 0 <= j < |bs| ==> BudgetId(bs[j]) != BudgetId(row) by {
      forall j | 0 <= j < |bs| ensures BudgetId(bs[j]) != BudgetId(row) {
        assert bs[j] in bs;
      }
    }
    assert row in bs + [row] && BudgetKey(row) == (row.user, row.category, row.month, row.year);
  }

  // ---------------------------------------------------------------- atualizar

  /** The request body of `atualizar`; a zero or absent value is "not provided". The
      category is not part of it: an update never moves a budget to another category. */
  datatype BudgetPatch = BudgetPatch(limit: Option<int>, month: Option<int>, year: Option<int>)

  predicate BadMonth(p: BudgetPatch) {
    GivenNum(p.month) && !(1 <= p.month.value <= 12)
  }

  predicate BadYear(p: BudgetPatch) {
    GivenNum(p.year) && p.year.value < 2000
  }

  predicate BadLimit(p: BudgetPatch) {
    GivenNum(p.limit) && p.limit.value < 0
  }

  predicate NoField(p: BudgetPatch) {
    !GivenNum(p.limit) && !GivenNum(p.month) && !GivenNum(p.year)
  }

  /** `mes = ISNULL(@mes, mes)`: a month or year left out matches every row. */
  predicate MatchesOrAny(given: Option<int>, value: int) {
    GivenNum(given) ==> value == given.value
  }

  /** The duplicate query of `atualizar`: another budget of the caller, in the same
      category, whose month and year match the supplied ones, any value matching an
      omitted one. */
  predicate ClashFound(bs: seq<Budget>, user: UserId, category: int, id: int, p: BudgetPatch): (r: bool)
    ensures GivenNum(p.month) && GivenNum(p.year) ==>
      (r <==> exists b :: b in bs && b.id != id && BudgetKey(b) == (user, category, p.month.value, p.year.value))
    ensures !GivenNum(p.month) && !GivenNum(p.year) ==>
      (r <==> exists b :: b in bs && b.id != id && b.user == user && b.category == category)
  {
    exists b :: b in bs && b.user == user && b.category == category && b.id != id
      && MatchesOrAny(p.month, b.month) && MatchesOrAny(p.year, b.year)
  }

  /** The row after the UPDATE: each supplied field replaced, the category kept. */
  function Patched(b: Budget, p: BudgetPatch, now: int): Budget {
    b.(limit := if GivenNum(p.limit) then p.limit.value else b.limit,
       month := if GivenNum(p.month) then p.month.value else b.month,
       year := if GivenNum(p.year) then p.year.value else b.year,
       updatedAt := Some(now))
  }

  /** When the duplicate query finds nothing, the patched row's (user, category, month,
      year) is held by no other budget, so the uniqueness rule survives the UPDATE. */
  lemma PassingCheckKeepsKeysUnique(bs: seq<Budget>, i: nat, p: BudgetPatch, now: int)
    requires i < |bs| && DistinctKeys(bs, BudgetId) && DistinctKeys(bs, BudgetKey)
    requires (GivenNum(p.month) || GivenNum(p.year)) ==> !ClashFound(bs, bs[i].user, bs[i].category, bs[i].id, p)
    ensures forall j :: 0 <= j < |bs| && j != i ==> BudgetKey(bs[j]) != BudgetKey(Patched(bs[i], p, now))
  {
    var row := Patched(bs[i], p, now);
    forall j | 0 <= j < |bs| && j != i ensures BudgetKey(bs[j]) != BudgetKey(row) {
      assert bs[j] in bs;
      assert BudgetId(bs[j]) != BudgetId(bs[i]) && BudgetKey(bs[j]) != BudgetKey(bs[i]) by {
        if j < i {
        } else {
        }
      }
    }
  }

  /** A patch that passed the range checks and the duplicate query keeps every budget
      invariant of the store. */
  lemma PatchKeepsStoreValid(bs: seq<Budget>, i: nat, p: BudgetPatch, now: int, cats: seq<Category>, next: int)
    requires i < |bs| && BudgetsOk(bs, cats, next)
    requires !BadMonth(p) && !BadYear(p) && !BadLimit(p)
    requires (GivenNum(p.month) || GivenNum(p.year)) ==> !ClashFound(bs, bs[i].user, bs[i].category, bs[i].id, p)
    ensures BudgetsOk(bs[i := Patched(bs[i], p, now)], cats, next)
  {
    var row := Patched(bs[i], p, now);
    assert bs[i] in bs;
    PassingCheckKeepsKeysUnique(bs, i, p, now);
    UpdateKeepsDistinctKeys(bs, i, row, BudgetKey);
    UpdateKeepsDistinctKeys(bs, i, row, BudgetId);
    forall b | b in bs[i := row] ensures b == row || b in bs {
      var k :| 0 <= k < |bs| && bs[i := row][k] == b;
      if k != i {
        assert bs[k] == b;
      }
    }
  }

  /** The wildcard makes the check stricter than the uniqueness rule: moving the March 2024
      budget to 2025 while keeping its month is refused because an April 2025 budget exists
      in the same category, although no budget holds (category, March, 2025). */
  lemma OmittedMonthMatchesAnyMonth()
    ensures var bs := [Budget(1, 7, 3, 3, 2024, 10000, None), Budget(2, 7, 3, 4, 2025, 10000, None)];
            var p := BudgetPatch(None, None, Some(2025));
            && ClashFound(bs, 7, 3, 1, p)
            && !KeyTaken(bs, 7, 3, Patched(bs[0], p, 0).month, Patched(bs[0], p, 0).year)
  {
    var bs := [Budget(1, 7, 3, 3, 2024, 10000, None), Budget(2, 7, 3, 4, 2025, 10000, None)];
    assert bs[1] in bs;
  }

  /** `atualizar`: month, year and limit checks, then ownership, then the duplicate query
      when a month or year is supplied, then at least one field, then the UPDATE. */
  method Atualizar(db: Database, user: UserId, id: int, patch: BudgetPatch, now: int)
    returns (r: Result<Budget>)
    requires db.Valid()
    modifies db
    ensures db.Valid()
    ensures BadMonth(patch) ==> r == Err(InvalidMonth)
    ensures !BadMonth(patch) && BadYear(patch) ==> r == Err(InvalidYear)
    ensures !BadMonth(patch) && !BadYear(patch) && BadLimit(patch) ==> r == Err(NonPositiveAmount)
    ensures (!BadMonth(patch) && !BadYear(patch) && !BadLimit(patch)
             && FindBudget(old(db.budgets), id, user) < 0) ==> r == Err(NotFound)
    ensures (!BadMonth(patch) && !BadYear(patch) && !BadLimit(patch)
             && FindBudget(old(db.budgets), id, user) >= 0 && (GivenNum(patch.month) || GivenNum(patch.year))
             && ClashFound(old(db.budgets), user, old(db.budgets)[FindBudget(old(db.budgets), id, user)].category,
                           id, patch)) ==> r == Err(Duplicate)
    ensures (!BadMonth(patch) && !BadYear(patch) && !BadLimit(patch)
             && FindBudget(old(db.budgets), id, user) >= 0 && NoField(patch)) ==> r == Err(NothingToUpdate)
    ensures r.Ok? <==>
      && !BadMonth(patch) && !BadYear(patch) && !BadLimit(patch)
      && FindBudget(old(db.budgets), id, user) >= 0
      && ((GivenNum(patch.month) || GivenNum(patch.year))
          ==> !ClashFound(old(db.budgets), user, old(db.budgets)[FindBudget(old(db.budgets), id, user)].category,
                          id, patch))
      && !NoField(patch)
    ensures r.Err? ==> unchanged(db)
    ensures r.Ok? ==>
      var i := FindBudget(old(db.budgets), id, user);
      && i >= 0 && !NoField(patch)
      && r.value == Patched(old(db.budgets)[i], patch, now)
      && r.value.category == old(db.budgets)[i].category
      && db.budgets == old(db.budgets)[i := r.value]
      && db.nextBudgetId == old(db.nextBudgetId)
      && db.categories == old(db.categories) && db.nextCategoryId == old(db.nextCategoryId)
      && db.transactions == old(db.transactions) && db.nextTransactionId == old(db.nextTransactionId)
  {
    if GivenNum(patch.month) && (patch.month.value < 1 || patch.month.value > 12) {
      return Err(InvalidMonth);
    }
    if GivenNum(patch.year) && patch.year.value < 2000 {
      return Err(InvalidYear);
    }
    if GivenNum(patch.limit) && patch.limit.value <= 0 {
      return Err(NonPositiveAmount);
    }
    var i := FindBudget(db.budgets, id, user);
    if i < 0 {
      return Err(NotFound);
    }
    var current := db.budgets[i];
    if GivenNum(patch.month) || GivenNum(patch.year) {
      var clash := IndexOf(db.budgets, (b: Budget) =>
        b.user == user && b.category == current.category && b.id != id
        && MatchesOrAny(patch.month, b.month) && MatchesOrAny(patch.year, b.year));
      if clash >= 0 {
        assert db.budgets[clash] in db.budgets;
        return Err(Duplicate);
      }
    }
    // The SET list, one assignment per supplied field, then the timestamp.
    var row := current;
    var fields := 0;
    if GivenNum(patch.limit) {
      row := row.(limit := patch.limit.value);
      fields := fields + 1;
    }
    if GivenNum(patch.month) {
      row := row.(month := patch.month.value);
      fields := fields + 1;
    }
    if GivenNum(patch.year) {
      row := row.(year := patch.year.value);
      fields := fields + 1;
    }
    row := row.(updatedAt := Some(now));
    if fields == 0 {
      return Err(NothingToUpdate);
    }
    assert row == Patched(current, patch, now);
    PatchKeepsStoreValid(db.budgets, i, patch, now, db.categories, db.nextBudgetId);
    db.budgets := db.budgets[i := row];
    r := Ok(row);
  }

  // ---------------------------------------------------------------- deletar

  /** `deletar`: not found unless the caller owns the budget; otherwise exactly that row goes. */
  method Deletar(db: Database, user: UserId, id: int) returns (r: Result<()>)
    requires db.Valid()
    modifies db
    ensures db.Valid()
    ensures r.Ok? <==> FindBudget(old(db.budgets), id, user) >= 0
    ensures r.Err? ==> r.error == NotFound && unchanged(db)
    ensures r.Ok? ==>
      && FindBudget(old(db.budgets), id, user) >= 0
      && db.budgets == RemoveAt(old(db.budgets), FindBudget(old(db.budgets), id, user))
      && (forall b :: b in db.budgets <==> b in old(db.budgets) && !(b.id == id && b.user == user))
      && db.nextBudgetId == old(db.nextBudgetId)
      && db.categories == old(db.categories) && db.nextCategoryId == old(db.nextCategoryId)
      && db.transactions == old(db.transactions) && db.nextTransactionId == old(db.nextTransactionId)
  {
    var i := FindBudget(db.budgets, id, user);
    if i < 0 {
      return Err(NotFound);
    }
    RemoveAtByKey(db.budgets, i, BudgetId);
    RemoveAtByKey(db.budgets, i, BudgetKey);
    db.budgets := RemoveAt(db.budgets, i);
    r := Ok(());
  }
}
