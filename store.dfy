/** The relational store the controllers query: the `categorias`, `transacoes` and
    `orcamentos` tables as sequences of rows, with the IDENTITY counters that number new
    rows, and the invariants the controllers' checks keep. */
module Store {
  import opened Domain
  import opened Seqs

  function CategoryId(c: Category): int { c.id }
  function CategoryNameKey(c: Category): (UserId, string) { (c.user, c.name) }
  function TransactionId(t: Transaction): int { t.id }
  function BudgetId(b: Budget): int { b.id }
  /** The uniqueness key of a budget: one limit per user, category, month and year. */
  function BudgetKey(b: Budget): (UserId, int, int, int) { (b.user, b.category, b.month, b.year) }

  /** `SELECT id_categoria FROM categorias WHERE id_categoria = @id AND id_usuario = @user` finds a row. */
  predicate OwnsCategory(cats: seq<Category>, id: int, user: UserId) {
    exists c :: c in cats && c.id == id && c.user == user
  }

  /** Category ids are unique and below the IDENTITY counter; names are unique per user. */
  ghost predicate CategoriesOk(cats: seq<Category>, next: int) {
    && (forall c :: c in cats ==> c.id < next)
    && DistinctKeys(cats, CategoryId)
    && DistinctKeys(cats, CategoryNameKey)
  }

  /** Transaction ids are unique; every amount is positive; every transaction's category
      belongs to the transaction's owner. */
  ghost predicate TransactionsOk(txs: seq<Transaction>, cats: seq<Category>, next: int) {
    && (forall t :: t in txs ==> t.id < next && t.amount > 0 && OwnsCategory(cats, t.category, t.user))
    && DistinctKeys(txs, TransactionId)
  }

  /** Budget ids are unique; month, year and limit are in range; the category belongs to
      the budget's owner; (user, category, month, year) is unique. */
  ghost predicate BudgetsOk(bs: seq<Budget>, cats: seq<Category>, next: int) {
    && (forall b :: b in bs ==>
          b.id < next && 1 <= b.month <= 12 && b.year >= 2000 && b.limit > 0
          && OwnsCategory(cats, b.category, b.user))
    && DistinctKeys(bs, BudgetId)
    && DistinctKeys(bs, BudgetKey)
  }

  class Database {
    var categories: seq<Category>
    var transactions: seq<Transaction>
    var budgets: seq<Budget>
    var nextCategoryId: int
    var nextTransactionId: int
    var nextBudgetId: int

    ghost predicate Valid()
      reads this
    {
      && CategoriesOk(categories, nextCategoryId)
      && TransactionsOk(transactions, categories, nextTransactionId)
      && BudgetsOk(budgets, categories, nextBudgetId)
    }

    /** An empty store whose IDENTITY columns start at 1. */
    constructor ()
      ensures Valid()
      ensures categories == [] && transactions == [] && budgets == []
      ensures nextCategoryId == 1 && nextTransactionId == 1 && nextBudgetId == 1
    {
      categories, transactions, budgets := [], [], [];
      nextCategoryId, nextTransactionId, nextBudgetId := 1, 1, 1;
    }
  }

  /** Index of the caller's category with that id, or -1. */
  function FindCategory(cats: seq<Category>, id: int, user: UserId): (r: int)
    ensures -1 <= r < |cats|
    ensures r >= 0 ==> cats[r].id == id && cats[r].user == user
    ensures r >= 0 <==> OwnsCategory(cats, id, user)
  {
    IndexOf(cats, (c: Category) => c.id == id && c.user == user)
  }

  /** Index of the caller's transaction with that id, or -1. */
  function FindTransaction(txs: seq<Transaction>, id: int, user: UserId): (r: int)
    ensures -1 <= r < |txs|
    ensures r >= 0 ==> txs[r].id == id && txs[r].user == user
    ensures r < 0 <==> forall t :: t in txs ==> !(t.id == id && t.user == user)
  {
    IndexOf(txs, (t: Transaction) => t.id == id && t.user == user)
  }

  /** Index of the caller's budget with that id, or -1. */
  function FindBudget(bs: seq<Budget>, id: int, user: UserId): (r: int)
    ensures -1 <= r < |bs|
    ensures r >= 0 ==> bs[r].id == id && bs[r].user == user
    ensures r < 0 <==> forall b :: b in bs ==> !(b.id == id && b.user == user)
  {
    IndexOf(bs, (b: Budget) => b.id == id && b.user == user)
  }

  /** Replacing one row by a row with a key no other row has keeps the keys distinct. */
  lemma UpdateKeepsDistinctKeys<T, K>(s: seq<T>, i: nat, x: T, key: T -> K)
    requires i < |s| && DistinctKeys(s, key)
    requires forall j :: 0 <= j < |s| && j != i ==> key(s[j]) != key(x)
    ensures DistinctKeys(s[i := x], key)
  {
  }

  /** A new category, or an edit that keeps a category's id and owner, leaves every
      ownership fact about the other tables true. */
  lemma CategoryChangeKeepsRefs(cats: seq<Category>, cats': seq<Category>, txs: seq<Transaction>,
                                bs: seq<Budget>, nt: int, nb: int)
    requires forall c :: c in cats ==> exists c' :: c' in cats' && c'.id == c.id && c'.user == c.user
    requires TransactionsOk(txs, cats, nt) && BudgetsOk(bs, cats, nb)
    ensures TransactionsOk(txs, cats', nt) && BudgetsOk(bs, cats', nb)
  {
    forall id, user | OwnsCategory(cats, id, user) ensures OwnsCategory(cats', id, user) {
      var c :| c in cats && c.id == id && c.user == user;
      var c' :| c' in cats' && c'.id == c.id && c'.user == c.user;
    }
  }

  /** Removing a category that no transaction and no budget refers to keeps the store valid. */
  lemma RemoveUnusedCategory(cats: seq<Category>, i: nat, txs: seq<Transaction>, bs: seq<Budget>,
                             nc: int, nt: int, nb: int)
    requires i < |cats|
    requires CategoriesOk(cats, nc) && TransactionsOk(txs, cats, nt) && BudgetsOk(bs, cats, nb)
    requires forall t :: t in txs ==> t.category != cats[i].id
    requires forall b :: b in bs ==> b.category != cats[i].id
    ensures CategoriesOk(RemoveAt(cats, i), nc)
    ensures TransactionsOk(txs, RemoveAt(cats, i), nt) && BudgetsOk(bs, RemoveAt(cats, i), nb)
  {
    var rest := RemoveAt(cats, i);
    RemoveAtByKey(cats, i, CategoryId);
    RemoveAtByKey(cats, i, CategoryNameKey);
    forall id, user | OwnsCategory(cats, id, user) && id != cats[i].id
      ensures OwnsCategory(rest, id, user)
    {
      var c :| c in cats && c.id == id && c.user == user;
      assert CategoryId(c) != CategoryId(cats[i]);
      assert c in rest;
    }
  }

  /** A transaction joined with its category's display fields. */
  datatype TxRow = TxRow(tx: Transaction, categoryName: string, categoryColor: string, categoryIcon: string)

  /** `transacoes t INNER JOIN categorias c ON t.id_categoria = c.id_categoria`: a
      transaction whose category row is missing drops out. */
  function Join(txs: seq<Transaction>, cats: seq<Category>): (r: seq<TxRow>)
    ensures |r| <= |txs|
    ensures forall row :: row in r ==> row.tx in txs
  {
    if txs == [] then []
    else
      var k := IndexOf(cats, (c: Category) => c.id == txs[0].category);
      var rest := Join(txs[1..], cats);
      assert forall row :: row in rest ==> row.tx in txs by {
        forall row | row in rest ensures row.tx in txs {
          assert row.tx in txs[1..];
        }
      }
      if k < 0 then rest
      else [TxRow(txs[0], cats[k].name, cats[k].color, cats[k].icon)] + rest
  }

  /** A joined row carries the name, colour and icon of a category whose id is the one its
      transaction names. */
  predicate JoinedWith(row: TxRow, cats: seq<Category>) {
    exists c :: c in cats && c.id == row.tx.category
      && row.categoryName == c.name && row.categoryColor == c.color && row.categoryIcon == c.icon
  }

  /** The transactions whose category row exists: the ones the inner join keeps. */
  function HasCategory(cats: seq<Category>): Transaction -> bool {
    (t: Transaction) => exists c :: c in cats && c.id == t.category
  }

  /** The transactions of joined rows, in row order. */
  function TxsOf(rows: seq<TxRow>): (r: seq<Transaction>)
    ensures |r| == |rows|
    ensures forall i :: 0 <= i < |rows| ==> r[i] == rows[i].tx
  {
    if rows == [] then [] else [rows[0].tx] + TxsOf(rows[1..])
  }

  /** The inner join keeps exactly the transactions whose category exists, in table order,
      once each, and pairs each with its category's display fields. */
  lemma {:induction false} JoinPairsWithCategory(txs: seq<Transaction>, cats: seq<Category>)
    ensures TxsOf(Join(txs, cats)) == Filter(txs, HasCategory(cats))
    ensures forall row :: row in Join(txs, cats) ==> JoinedWith(row, cats)
  {
    if txs != [] {
      JoinPairsWithCategory(txs[1..], cats);
      var rest := Join(txs[1..], cats);
      var k := IndexOf(cats, (c: Category) => c.id == txs[0].category);
      assert txs == [txs[0]] + txs[1..];
      if k < 0 {
        assert !HasCategory(cats)(txs[0]) by {
          forall c | c in cats ensures c.id != txs[0].category {
            var j :| 0 <= j < |cats| && cats[j] == c;
          }
        }
      } else {
        var row := TxRow(txs[0], cats[k].name, cats[k].color, cats[k].icon);
        assert cats[k] in cats;
        assert HasCategory(cats)(txs[0]);
        assert JoinedWith(row, cats);
        assert ([row] + rest)[1..] == rest;
        assert TxsOf([row] + rest) == [txs[0]] + TxsOf(rest);
      }
    }
  }

  /** Every transaction's category row exists, as the store invariant guarantees. */
  predicate CategoriesExist(txs: seq<Transaction>, cats: seq<Category>) {
    forall t :: t in txs ==> exists c :: c in cats && c.id == t.category
  }

  /** When every category exists the join loses no row and keeps table order. */
  lemma {:induction false} JoinKeepsEveryRow(txs: seq<Transaction>, cats: seq<Category>)
    requires CategoriesExist(txs, cats)
    ensures |Join(txs, cats)| == |txs|
    ensures forall i :: 0 <= i < |txs| ==> Join(txs, cats)[i].tx == txs[i]
  {
    if txs != [] {
      assert txs[0] in txs;
      var c :| c in cats && c.id == txs[0].category;
      var k := IndexOf(cats, (c: Category) => c.id == txs[0].category);
      assert k >= 0;
      assert forall t :: t in txs[1..] ==> t in txs;
      JoinKeepsEveryRow(txs[1..], cats);
    }
  }

  /** The store invariant implies that every category a transaction names exists. */
  lemma ValidCategoriesExist(txs: seq<Transaction>, cats: seq<Category>, next: int, sub: seq<Transaction>)
    requires TransactionsOk(txs, cats, next)
    requires forall t :: t in sub ==> t in txs
    ensures CategoriesExist(sub, cats)
  {
  }
}
