/** The transaction controller: filtered, sorted and paginated listing with a total count,
    read by id, create, partial update and delete of a user's transactions. */
module Transacoes {
  import opened Domain
  import opened Seqs
  import opened Sorting
  import opened Store

  // ---------------------------------------------------------------- filters

  /** The optional query-string filters of `listar`; None is a parameter left out or empty. */
  datatype Filters = Filters(
    from: Option<Date>, to: Option<Date>, category: Option<int>, kind: Option<string>, search: Option<string>)

  /** `part` occurs in `text`: `descricao LIKE '%busca%'` read as plain containment. */
  predicate Contains(text: string, part: string) {
    exists i :: 0 <= i <= |text| - |part| && OccursAt(text, part, i)
  }

  predicate OccursAt(text: string, part: string, i: int) {
    0 <= i && i + |part| <= |text| && text[i..i + |part|] == part
  }

  /** A transaction passes every supplied filter: the filters are joined with AND, and a
      filter left out constrains nothing. A NULL description matches no search. */
  predicate Matches(f: Filters, t: Transaction) {
    && (f.from.Some? ==> DateLe(f.from.value, t.date))
    && (f.to.Some? ==> DateLe(t.date, f.to.value))
    && (f.category.Some? ==> t.category == f.category.value)
    && (GivenStr(f.kind) ==> TxKindName(t.kind) == f.kind.value)
    && (GivenStr(f.search) ==> t.description.Some? && Contains(t.description.value, f.search.value))
  }

  /** One `AND ...` appended to the WHERE clause. */
  datatype Condition =
    | DateFrom(from: Date)          // t.data_transacao >= @data_inicial
    | DateTo(to: Date)              // t.data_transacao <= @data_final
    | CategoryIs(category: int)     // t.id_categoria = @id_categoria
    | KindIs(kind: string)          // t.tipo = @tipo
    | DescriptionLike(part: string) // t.descricao LIKE @busca

  predicate Holds(c: Condition, t: Transaction) {
    match c
    case DateFrom(d) => DateLe(d, t.date)
    case DateTo(d) => DateLe(t.date, d)
    case CategoryIs(id) => t.category == id
    case KindIs(k) => TxKindName(t.kind) == k
    case DescriptionLike(p) => t.description.Some? && Contains(t.description.value, p)
  }

  predicate AllHold(cs: seq<Condition>, t: Transaction) {
    forall i :: 0 <= i < |cs| ==> Holds(cs[i], t)
  }

  /** The first `n` filters of `Matches`, in the order the WHERE clause appends them. */
  predicate MatchesFirst(f: Filters, n: nat, t: Transaction) {
    && (n > 0 && f.from.Some? ==> DateLe(f.from.value, t.date))
    && (n > 1 && f.to.Some? ==> DateLe(t.date, f.to.value))
    && (n > 2 && f.category.Some? ==> t.category == f.category.value)
    && (n > 3 && GivenStr(f.kind) ==> TxKindName(t.kind) == f.kind.value)
    && (n > 4 && GivenStr(f.search) ==> t.description.Some? && Contains(t.description.value, f.search.value))
  }

  lemma AllHoldAppend(cs: seq<Condition>, c: Condition)
    ensures forall t :: AllHold(cs + [c], t) <==> AllHold(cs, t) && Holds(c, t)
  {
    forall t ensures AllHold(cs + [c], t) <==> AllHold(cs, t) && Holds(c, t) {
      if AllHold(cs + [c], t) {
        assert (cs + [c])[|cs|] == c;
        forall i | 0 <= i < |cs| ensures Holds(cs[i], t) {
          assert (cs + [c])[i] == cs[i];
        }
      }
    }
  }

  /** Builds the WHERE clause one supplied filter at a time, as both the page query and
      the count query do; the conjunction it builds is exactly `Matches`. */
  method BuildConditions(f: Filters) returns (cs: seq<Condition>)
    ensures |cs| <= 5
    ensures forall t :: AllHold(cs, t) <==> Matches(f, t)
  {
    cs := [];
    if f.from.Some? {
      AllHoldAppend(cs, DateFrom(f.from.value));
      cs := cs + [DateFrom(f.from.value)];
    }
    assert forall t :: AllHold(cs, t) <==> MatchesFirst(f, 1, t);
    if f.to.Some? {
      AllHoldAppend(cs, DateTo(f.to.value));
      cs := cs + [DateTo(f.to.value)];
    }
    assert forall t :: AllHold(cs, t) <==> MatchesFirst(f, 2, t);
    if f.category.Some? {
      AllHoldAppend(cs, CategoryIs(f.category.value));
      cs := cs + [CategoryIs(f.category.value)];
    }
    assert forall t :: AllHold(cs, t) <==> MatchesFirst(f, 3, t);
    if GivenStr(f.kind) {
      AllHoldAppend(cs, KindIs(f.kind.value));
      cs := cs + [KindIs(f.kind.value)];
    }
    assert forall t :: AllHold(cs, t) <==> MatchesFirst(f, 4, t);
    if GivenStr(f.search) {
      AllHoldAppend(cs, DescriptionLike(f.search.value));
      cs := cs + [DescriptionLike(f.search.value)];
    }
    assert forall t :: AllHold(cs, t) <==> MatchesFirst(f, 5, t);
  }

  /** The caller's transactions that pass the filters, in table order. */
  function Selected(txs: seq<Transaction>, user: UserId, f: Filters): (r: seq<Transaction>)
    ensures forall t :: t in r <==> t in txs && t.user == user && Matches(f, t)
  {
    Filter(txs, (t: Transaction) => t.user == user && Matches(f, t))
  }

  // ---------------------------------------------------------------- ordering

  /** The allow-listed sort columns. */
  datatype SortColumn = ByDate | ByAmount | ByKind

  /** `ordenar_por`, defaulting to 'data_transacao' and falling back to it for any column
      outside the allow-list. */
  function SortColumnOf(orderBy: Option<string>): (c: SortColumn)
    ensures orderBy.Some? && orderBy.value == "valor" <==> c == ByAmount
    ensures orderBy.Some? && orderBy.value == "tipo" <==> c == ByKind
  {
    match orderBy.GetOr("data_transacao")
    case "valor" => ByAmount
    case "tipo" => ByKind
    case _ => ByDate
  }

  /** Upper case of one character: the ASCII letters, and the long s, which
      `toUpperCase()` maps to 'S'. */
  function UpperChar(c: char): char {
    if 'a' <= c <= 'z' then (c as int - 32) as char
    else if c == '\U{17F}' then 'S'
    else c
  }

  /** `toUpperCase()`, character by character. */
  function Upper(s: string): string {
    if s == [] then [] else [UpperChar(s[0])] + Upper(s[1..])
  }

  /** "asc" in any letter case, with the long s 'ſ' standing for 's'. */
  predicate AscSpelling(s: string) {
    && |s| == 3
    && (s[0] == 'a' || s[0] == 'A')
    && (s[1] == 's' || s[1] == 'S' || s[1] == '\U{17F}')
    && (s[2] == 'c' || s[2] == 'C')
  }

  /** `ordem`, defaulting to 'DESC': ascending only when it upper-cases to "ASC". */
  function IsAscending(order: Option<string>): (r: bool)
    ensures r <==> order.Some? && AscSpelling(order.value)
  {
    AscendingSpellings(order.GetOr("DESC"));
    Upper(order.GetOr("DESC")) == "ASC"
  }

  /** Exactly the spellings of "asc" in any letter case select ascending order. */
  lemma {:induction false} AscendingSpellings(s: string)
    ensures Upper(s) == "ASC" <==> AscSpelling(s)
  {
    if |s| == 3 {
      var s1 := s[1..];
      var s2 := s1[1..];
      assert s2[1..] == [];
      assert Upper(s2) == [UpperChar(s[2])];
      assert Upper(s1) == [UpperChar(s[1]), UpperChar(s[2])];
      assert Upper(s) == [UpperChar(s[0]), UpperChar(s[1]), UpperChar(s[2])];
    } else if s != [] {
      assert |Upper(s)| == |s| by { UpperKeepsLength(s); }
    }
  }

  lemma {:induction false} UpperKeepsLength(s: string)
    ensures |Upper(s)| == |s|
  {
    if s != [] {
      UpperKeepsLength(s[1..]);
    }
  }

  function KindRank(k: TxKind): int {
    match k
    case Despesa => 0  // 'despesa' < 'receita'
    case Receita => 1
  }

  /** Ascending order on one column. */
  predicate ColumnLe(col: SortColumn, a: Transaction, b: Transaction) {
    match col
    case ByDate => DateLe(a.date, b.date)
    case ByAmount => a.amount <= b.amount
    case ByKind => KindRank(a.kind) <= KindRank(b.kind)
  }

  /** `ORDER BY t.<col> ASC|DESC` on joined rows. */
  function RowOrder(col: SortColumn, asc: bool): (TxRow, TxRow) -> bool {
    (x: TxRow, y: TxRow) => if asc then ColumnLe(col, x.tx, y.tx) else ColumnLe(col, y.tx, x.tx)
  }

  lemma RowOrderIsTotalPreorder(col: SortColumn, asc: bool)
    ensures TotalPreorder(RowOrder(col, asc))
  {
  }

  // ---------------------------------------------------------------- pagination

  /** `Math.ceil(total / limit)` for a positive limit. */
  function CeilDiv(total: nat, limit: int): (pages: nat)
    requires limit > 0
    ensures total <= pages * limit < total + limit
  {
    (total + limit - 1) / limit
  }

  /** Rows `offset` up to `offset + limit` of `s`: OFFSET ... FETCH NEXT ... ROWS ONLY. */
  function Window<T>(s: seq<T>, offset: nat, limit: nat): (r: seq<T>)
    ensures |r| <= limit
    ensures forall i :: 0 <= i < |r| ==> offset + i < |s| && r[i] == s[offset + i]
    ensures offset + limit <= |s| ==> |r| == limit
    ensures offset <= |s| < offset + limit ==> |r| == |s| - offset
    ensures offset >= |s| ==> r == []
  {
    if offset >= |s| then []
    else if offset + limit <= |s| then s[offset..offset + limit]
    else s[offset..]
  }

  /** Page `page` (counted from 1) holds rows exactly when it is one of the `total_paginas`
      pages. */
  lemma PageHasRowsIffWithinPages<T>(s: seq<T>, page: int, limit: int)
    requires page >= 1 && limit > 0
    ensures Window(s, PageOffset(page, limit), limit) != [] <==> page <= CeilDiv(|s|, limit)
  {
    var pages := CeilDiv(|s|, limit);
    if page <= pages {
      MulMonotone(page - 1, pages - 1, limit);
      assert (pages - 1) * limit == pages * limit - limit;
    } else {
      MulMonotone(pages, page - 1, limit);
    }
  }

  /** With a positive limit the offset is negative exactly for pages before the first. */
  lemma OffsetSign(page: int, limit: int)
    requires limit > 0
    ensures (page - 1) * limit >= 0 <==> page >= 1
  {
    if page >= 1 {
      MulMonotone(0, page - 1, limit);
    } else {
      MulMonotone(1, 1 - page, limit);
      assert (page - 1) * limit == -((1 - page) * limit);
    }
  }

  /** The OFFSET of page `page` (counted from 1). */
  function PageOffset(page: int, limit: int): nat
    requires page >= 1 && limit > 0
  {
    OffsetSign(page, limit);
    (page - 1) * limit
  }

  lemma MulMonotone(a: int, b: int, m: int)
    requires 0 <= a <= b && m >= 0
    ensures a * m <= b * m
  {
  }

  // ---------------------------------------------------------------- listar

  /** Every row the page query can return, in the requested order: the caller's filtered
      transactions joined with their categories, then sorted. */
  function Listing(txs: seq<Transaction>, cats: seq<Category>, user: UserId, f: Filters,
                   col: SortColumn, asc: bool): seq<TxRow>
  {
    SortBy(Join(Selected(txs, user, f), cats), RowOrder(col, asc))
  }

  /** The listing is ordered, holds only the caller's rows that pass every filter, and, in
      a valid store, has exactly as many rows as the count query counts. */
  lemma ListingProperties(db_txs: seq<Transaction>, cats: seq<Category>, next: int, user: UserId,
                          f: Filters, col: SortColumn, asc: bool)
    requires TransactionsOk(db_txs, cats, next)
    ensures SortedBy(Listing(db_txs, cats, user, f, col, asc), RowOrder(col, asc))
    ensures forall row :: row in Listing(db_txs, cats, user, f, col, asc) ==>
              row.tx in db_txs && row.tx.user == user && Matches(f, row.tx)
    ensures |Listing(db_txs, cats, user, f, col, asc)| == |Selected(db_txs, user, f)|
  {
    var sel := Selected(db_txs, user, f);
    RowOrderIsTotalPreorder(col, asc);
    SortBySorted(Join(sel, cats), RowOrder(col, asc));
    SortKeepsRows(Join(sel, cats), RowOrder(col, asc));
    ValidCategoriesExist(db_txs, cats, next, sel);
    JoinKeepsEveryRow(sel, cats);
  }

  /** The paging block of the response. */
  datatype Pagination = Pagination(page: int, limit: int, total: nat, pages: nat)

  datatype Page = Page(rows: seq<TxRow>, pagination: Pagination)

  /** Selection of the caller's rows under the filters built by `BuildConditions`. */
  function SelectedBy(txs: seq<Transaction>, user: UserId, cs: seq<Condition>): seq<Transaction> {
    Filter(txs, (t: Transaction) => t.user == user && AllHold(cs, t))
  }

  lemma {:induction false} SameConditionsSameRows(txs: seq<Transaction>, user: UserId, cs: seq<Condition>, f: Filters)
    requires forall t :: AllHold(cs, t) <==> Matches(f, t)
    ensures SelectedBy(txs, user, cs) == Selected(txs, user, f)
  {
    if txs != [] {
      SameConditionsSameRows(txs[1..], user, cs, f);
    }
  }

  /** `listar`: one page of the caller's filtered transactions in the requested order, and
      a count of all of them under the same filters. A page before the first or a limit
      that is not positive makes the OFFSET/FETCH clause fail. */
  method Listar(db: Database, user: UserId, f: Filters, orderBy: Option<string>, order: Option<string>,
                page: Option<int>, limit: Option<int>) returns (r: Result<Page>)
    requires db.Valid()
    ensures r.Ok? <==> page.GetOr(1) >= 1 && limit.GetOr(50) > 0
    ensures r.Err? ==> r.error == ServerError
    ensures r.Ok? ==>
      var p, l := page.GetOr(1), limit.GetOr(50);
      var col, asc := SortColumnOf(orderBy), IsAscending(order);
      var all := Listing(db.transactions, db.categories, user, f, col, asc);
      && r.value.rows == Window(all, PageOffset(p, l), l)
      && r.value.pagination == Pagination(p, l, |all|, CeilDiv(|all|, l))
      && |all| == |Selected(db.transactions, user, f)|
      && |r.value.rows| <= l
      && SortedBy(r.value.rows, RowOrder(col, asc))
      && (forall row :: row in r.value.rows ==>
            row.tx in db.transactions && row.tx.user == user && Matches(f, row.tx))
  {
    var p, l := page.GetOr(1), limit.GetOr(50);
    var col, asc := SortColumnOf(orderBy), IsAscending(order);
    // The page query.
    var pageConditions := BuildConditions(f);
    if l <= 0 {
      return Err(ServerError);
    }
    var offset := (p - 1) * l;
    OffsetSign(p, l);
    if offset < 0 {
      return Err(ServerError);
    }
    assert offset == PageOffset(p, l);
    var rows := SortBy(Join(SelectedBy(db.transactions, user, pageConditions), db.categories), RowOrder(col, asc));
    SameConditionsSameRows(db.transactions, user, pageConditions, f);
    assert rows == Listing(db.transactions, db.categories, user, f, col, asc);
    var pageRows := Window(rows, offset, l);
    // The count query, built again from the same parameters.
    var countConditions := BuildConditions(f);
    var total := |SelectedBy(db.transactions, user, countConditions)|;
    SameConditionsSameRows(db.transactions, user, countConditions, f);
    PageOfListing(db.transactions, db.categories, db.nextTransactionId, user, f, col, asc, offset, l);
    r := Ok(Page(pageRows, Pagination(p, l, total, CeilDiv(total, l))));
  }

  /** A page of the listing is ordered and holds only the caller's matching rows, and the
      listing has as many rows as the count query counts. */
  lemma PageOfListing(txs: seq<Transaction>, cats: seq<Category>, next: int, user: UserId,
                      f: Filters, col: SortColumn, asc: bool, offset: nat, l: nat)
    requires TransactionsOk(txs, cats, next)
    ensures |Listing(txs, cats, user, f, col, asc)| == |Selected(txs, user, f)|
    ensures SortedBy(Window(Listing(txs, cats, user, f, col, asc), offset, l), RowOrder(col, asc))
    ensures forall row :: row in Window(Listing(txs, cats, user, f, col, asc), offset, l) ==>
              row.tx in txs && row.tx.user == user && Matches(f, row.tx)
  {
    ListingProperties(txs, cats, next, user, f, col, asc);
    WindowOfSorted(Listing(txs, cats, user, f, col, asc), offset, l, RowOrder(col, asc));
  }

  /** A window of an ordered table is ordered and holds only rows of the table. */
  lemma WindowOfSorted<T>(s: seq<T>, offset: nat, limit: nat, le: (T, T) -> bool)
    requires SortedBy(s, le)
    ensures SortedBy(Window(s, offset, limit), le)
    ensures forall x :: x in Window(s, offset, limit) ==> x in s
  {
    var w := Window(s, offset, limit);
    if offset < |s| {
      forall i, j | 0 <= i < j < |w| ensures le(w[i], w[j]) {
        assert w[i] == s[offset + i] && w[j] == s[offset + j];
      }
      forall x | x in w ensures x in s {
        var i :| 0 <= i < |w| && w[i] == x;
        assert s[offset + i] == x;
      }
    }
  }

  // ---------------------------------------------------------------- buscarPorId

  /** `buscarPorId`: the joined row only when both the id and the owner match. */
  method BuscarPorId(db: Database, user: UserId, id: int) returns (r: Result<TxRow>)
    requires db.Valid()
    ensures r.Ok? <==> exists t :: t in db.transactions && t.id == id && t.user == user
    ensures r.Ok? ==> r.value.tx in db.transactions && r.value.tx.id == id && r.value.tx.user == user
    ensures r.Ok? ==> JoinedWith(r.value, db.categories)
    ensures r.Err? ==> r.error == NotFound
  {
    var i := FindTransaction(db.transactions, id, user);
    if i < 0 {
      return Err(NotFound);
    }
    var t := db.transactions[i];
    assert t in db.transactions;
    var k := IndexOf(db.categories, (c: Category) => c.id == t.category);
    if k < 0 {
      assert false;
      return Err(NotFound);
    }
    assert db.categories[k] in db.categories;
    r := Ok(TxRow(t, db.categories[k].name, db.categories[k].color, db.categories[k].icon));
  }

  // ---------------------------------------------------------------- criar

  /** The request body of `criar`; None is a field left out, null or empty. */
  datatype NewTransaction = NewTransaction(
    kind: Option<string>, amount: Option<int>, date: Option<Date>, category: Option<int>, description: Option<string>)

  predicate AllRequiredGiven(input: NewTransaction) {
    GivenStr(input.kind) && GivenNum(input.amount) && input.date.Some? && GivenNum(input.category)
  }

  /** `criar`: required fields, then type, then a positive amount, then the category's
      owner, in that order; only then the INSERT. */
  method Criar(db: Database, user: UserId, input: NewTransaction) returns (r: Result<Transaction>)
    requires db.Valid()
    modifies db
    ensures db.Valid()
    ensures !AllRequiredGiven(input) ==> r == Err(MissingFields)
    ensures AllRequiredGiven(input) && ParseTxKind(input.kind.value).None? ==> r == Err(InvalidKind)
    ensures (AllRequiredGiven(input) && ParseTxKind(input.kind.value).Some? && input.amount.value < 0)
            ==> r == Err(NonPositiveAmount)
    ensures (AllRequiredGiven(input) && ParseTxKind(input.kind.value).Some? && input.amount.value > 0
             && !OwnsCategory(old(db.categories), input.category.value, user)) ==> r == Err(InvalidCategory)
    ensures r.Ok? <==>
      && AllRequiredGiven(input) && ParseTxKind(input.kind.value).Some? && input.amount.value > 0
      && OwnsCategory(old(db.categories), input.category.value, user)
    ensures r.Err? ==> unchanged(db)
    ensures r.Ok? ==>
      && AllRequiredGiven(input) && input.amount.value > 0
      && OwnsCategory(old(db.categories), input.category.value, user)
      && Some(r.value.kind) == ParseTxKind(input.kind.value)
      && r.value == Transaction(old(db.nextTransactionId), user, input.category.value, r.value.kind,
                                input.amount.value, input.date.value,
                                if GivenStr(input.description) then input.description else None, None)
      && db.transactions == old(db.transactions) + [r.value]
      && db.nextTransactionId == old(db.nextTransactionId) + 1
      && db.categories == old(db.categories) && db.nextCategoryId == old(db.nextCategoryId)
      && db.budgets == old(db.budgets) && db.nextBudgetId == old(db.nextBudgetId)
  {
    if !AllRequiredGiven(input) {
      return Err(MissingFields);
    }
    var kind := ParseTxKind(input.kind.value);
    if kind.None? {
      return Err(InvalidKind);
    }
    if input.amount.value <= 0 {
      return Err(NonPositiveAmount);
    }
    if FindCategory(db.categories, input.category.value, user) < 0 {
      return Err(InvalidCategory);
    }
    var row := Transaction(db.nextTransactionId, user, input.category.value, kind.value,
                           input.amount.value, input.date.value,
                           if GivenStr(input.description) then input.description else None, None);
    db.transactions := db.transactions + [row];
    db.nextTransactionId := db.nextTransactionId + 1;
    r := Ok(row);
  }

  // ---------------------------------------------------------------- atualizar

  /** The request body of `atualizar`. A zero amount, an empty type and a missing date or
      category are "not provided"; `description` is None only when the field is absent, and
      Some(None) is an explicit null. */
  datatype TransactionPatch = TransactionPatch(
    kind: Option<string>, amount: Option<int>, date: Option<Date>, category: Option<int>,
    description: Option<Option<string>>)

  predicate BadKind(p: TransactionPatch) {
    GivenStr(p.kind) && ParseTxKind(p.kind.value).None?
  }

  predicate BadAmount(p: TransactionPatch) {
    GivenNum(p.amount) && p.amount.value < 0
  }

  predicate NoField(p: TransactionPatch) {
    !GivenStr(p.kind) && !GivenNum(p.amount) && p.date.None? && !GivenNum(p.category) && p.description.None?
  }

  /** The row after the UPDATE: each provided field replaced, the rest kept, and
      `data_atualizacao` set to the current time. */
  function Patched(t: Transaction, p: TransactionPatch, now: int): Transaction
    requires !BadKind(p)
  {
    t.(kind := if GivenStr(p.kind) then ParseTxKind(p.kind.value).value else t.kind,
       amount := if GivenNum(p.amount) then p.amount.value else t.amount,
       date := if p.date.Some? then p.date.value else t.date,
       category := if GivenNum(p.category) then p.category.value else t.category,
       description := if p.description.Some? then p.description.value else t.description,
       updatedAt := Some(now))
  }

  /** An update that passed the type, amount and category checks keeps every transaction
      positive, in one of its owner's categories, and keeps ids unique. */
  lemma PatchKeepsStoreValid(txs: seq<Transaction>, i: nat, p: TransactionPatch, now: int,
                             cats: seq<Category>, next: int)
    requires i < |txs| && TransactionsOk(txs, cats, next)
    requires !BadKind(p) && !BadAmount(p)
    requires GivenNum(p.category) ==> OwnsCategory(cats, p.category.value, txs[i].user)
    ensures TransactionsOk(txs[i := Patched(txs[i], p, now)], cats, next)
  {
    var row := Patched(txs[i], p, now);
    assert txs[i] in txs;
    UpdateKeepsDistinctKeys(txs, i, row, TransactionId);
    forall t | t in txs[i := row] ensures t == row || t in txs {
      var k :| 0 <= k < |txs| && txs[i := row][k] == t;
      if k != i {
        assert txs[k] == t;
      }
    }
  }

  /** `atualizar`: type and amount checks, then ownership of the transaction, then
      ownership of a new category, then at least one field, then the UPDATE. */
  method Atualizar(db: Database, user: UserId, id: int, patch: TransactionPatch, now: int)
    returns (r: Result<Transaction>)
    requires db.Valid()
    modifies db
    ensures db.Valid()
    ensures BadKind(patch) ==> r == Err(InvalidKind)
    ensures !BadKind(patch) && BadAmount(patch) ==> r == Err(NonPositiveAmount)
    ensures (!BadKind(patch) && !BadAmount(patch) && FindTransaction(old(db.transactions), id, user) < 0)
            ==> r == Err(NotFound)
    ensures (!BadKind(patch) && !BadAmount(patch) && FindTransaction(old(db.transactions), id, user) >= 0
             && GivenNum(patch.category) && !OwnsCategory(old(db.categories), patch.category.value, user))
            ==> r == Err(InvalidCategory)
    ensures (!BadKind(patch) && !BadAmount(patch) && FindTransaction(old(db.transactions), id, user) >= 0
             && NoField(patch)) ==> r == Err(NothingToUpdate)
    ensures r.Ok? <==>
      && !BadKind(patch) && !BadAmount(patch) && FindTransaction(old(db.transactions), id, user) >= 0
      && (GivenNum(patch.category) ==> OwnsCategory(old(db.categories), patch.category.value, user))
      && !NoField(patch)
    ensures r.Err? ==> unchanged(db)
    ensures r.Ok? ==>
      var i := FindTransaction(old(db.transactions), id, user);
      && i >= 0 && !BadKind(patch) && !NoField(patch)
      && r.value == Patched(old(db.transactions)[i], patch, now)
      && db.transactions == old(db.transactions)[i := r.value]
      && db.nextTransactionId == old(db.nextTransactionId)
      && db.categories == old(db.categories) && db.nextCategoryId == old(db.nextCategoryId)
      && db.budgets == old(db.budgets) && db.nextBudgetId == old(db.nextBudgetId)
  {
    if BadKind(patch) {
      return Err(InvalidKind);
    }
    if GivenNum(patch.amount) && patch.amount.value <= 0 {
      return Err(NonPositiveAmount);
    }
    var i := FindTransaction(db.transactions, id, user);
    if i < 0 {
      return Err(NotFound);
    }
    if GivenNum(patch.category) && FindCategory(db.categories, patch.category.value, user) < 0 {
      return Err(InvalidCategory);
    }
    // The SET list, one assignment per provided field, then the timestamp.
    var row := db.transactions[i];
    var fields := 0;
    if GivenStr(patch.kind) {
      row := row.(kind := ParseTxKind(patch.kind.value).value);
      fields := fields + 1;
    }
    if GivenNum(patch.amount) {
      row := row.(amount := patch.amount.value);
      fields := fields + 1;
    }
    if patch.date.Some? {
      row := row.(date := patch.date.value);
      fields := fields + 1;
    }
    if GivenNum(patch.category) {
      row := row.(category := patch.category.value);
      fields := fields + 1;
    }
    if patch.description.Some? {
      row := row.(description := patch.description.value);
      fields := fields + 1;
    }
    row := row.(updatedAt := Some(now));
    if fields == 0 {
      return Err(NothingToUpdate);
    }
    assert row == Patched(db.transactions[i], patch, now);
    PatchKeepsStoreValid(db.transactions, i, patch, now, db.categories, db.nextTransactionId);
    db.transactions := db.transactions[i := row];
    r := Ok(row);
  }

  // ---------------------------------------------------------------- deletar

  /** `deletar`: not found unless the caller owns the row; otherwise exactly that row goes. */
  method Deletar(db: Database, user: UserId, id: int) returns (r: Result<()>)
    requires db.Valid()
    modifies db
    ensures db.Valid()
    ensures r.Ok? <==> FindTransaction(old(db.transactions), id, user) >= 0
    ensures r.Err? ==> r.error == NotFound && unchanged(db)
    ensures r.Ok? ==>
      && FindTransaction(old(db.transactions), id, user) >= 0
      && db.transactions == RemoveAt(old(db.transactions), FindTransaction(old(db.transactions), id, user))
      && (forall t :: t in db.transactions <==> t in old(db.transactions) && !(t.id == id && t.user == user))
      && db.nextTransactionId == old(db.nextTransactionId)
      && db.categories == old(db.categories) && db.nextCategoryId == old(db.nextCategoryId)
      && db.budgets == old(db.budgets) && db.nextBudgetId == old(db.nextBudgetId)
  {
    var i := FindTransaction(db.transactions, id, user);
    if i < 0 {
      return Err(NotFound);
    }
    RemoveAtByKey(db.transactions, i, TransactionId);
    db.transactions := RemoveAt(db.transactions, i);
    r := Ok(());
  }
}
