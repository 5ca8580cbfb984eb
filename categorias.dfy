/** The category controller: list, read, create, update and delete a user's categories. */
module Categorias {
  import opened Domain
  import opened Seqs
  import opened Sorting
  import opened Store

  const DefaultKind: string := "ambos"
  const DefaultColor: string := "#6c757d"
  const DefaultIcon: string := "fa-folder"

  /** `ORDER BY nome ASC`: names compared character by character, a prefix first. */
  predicate NameLe(a: string, b: string) {
    a == [] || (b != [] && (a[0] < b[0] || (a[0] == b[0] && NameLe(a[1..], b[1..]))))
  }

  lemma {:induction false} NameLeTotal(a: string, b: string)
    ensures NameLe(a, b) || NameLe(b, a)
  {
    if a != [] && b != [] && a[0] == b[0] {
      NameLeTotal(a[1..], b[1..]);
    }
  }

  lemma {:induction false} NameLeTransitive(a: string, b: string, c: string)
    requires NameLe(a, b) && NameLe(b, c)
    ensures NameLe(a, c)
  {
    if a != [] && b != [] && c != [] && a[0] == b[0] && b[0] == c[0] {
      NameLeTransitive(a[1..], b[1..], c[1..]);
    }
  }

  function ByName(): (Category, Category) -> bool {
    (x: Category, y: Category) => NameLe(x.name, y.name)
  }

  /** Ordering by name is an admissible ORDER BY key. */
  lemma ByNameIsTotalPreorder()
    ensures TotalPreorder(ByName())
  {
    forall x: Category, y: Category ensures ByName()(x, y) || ByName()(y, x) {
      NameLeTotal(x.name, y.name);
    }
    forall x: Category, y: Category, z: Category | ByName()(x, y) && ByName()(y, z)
      ensures ByName()(x, z)
    {
      NameLeTransitive(x.name, y.name, z.name);
    }
  }

  /** Sorting by name yields a permutation ordered by name. */
  lemma SortedByName(s: seq<Category>)
    ensures SortedBy(SortBy(s, ByName()), ByName())
  {
    ByNameIsTotalPreorder();
    SortBySorted(s, ByName());
  }

  /** The WHERE clause of `listar`: the caller's rows, and with a `tipo` filter only those
      of that type or of type 'ambos'. */
  predicate Listed(c: Category, user: UserId, kind: Option<string>) {
    c.user == user && (GivenStr(kind) ==> CategoryKindName(c.kind) == kind.value || c.kind == Ambos)
  }

  /** `listar`: the caller's categories, narrowed by type when one is asked for, by name. */
  method Listar(db: Database, user: UserId, kind: Option<string>) returns (r: seq<Category>)
    ensures forall c :: c in r <==> c in db.categories && Listed(c, user, kind)
    ensures multiset(r) <= multiset(db.categories)
    ensures SortedBy(r, ByName())
  {
    var selected := Filter(db.categories, (c: Category) => c.user == user);
    if GivenStr(kind) {
      selected := Filter(selected, (c: Category) => CategoryKindName(c.kind) == kind.value || c.kind == Ambos);
    }
    r := SortBy(selected, ByName());
    SortedByName(selected);
    SortKeepsRows(selected, ByName());
  }

  /** `buscarPorId`: the category only when both its id and its owner match. */
  method BuscarPorId(db: Database, user: UserId, id: int) returns (r: Result<Category>)
    ensures r.Ok? <==> OwnsCategory(db.categories, id, user)
    ensures r.Ok? ==> r.value in db.categories && r.value.id == id && r.value.user == user
    ensures r.Err? ==> r.error == NotFound
  {
    var i := FindCategory(db.categories, id, user);
    if i < 0 {
      return Err(NotFound);
    }
    r := Ok(db.categories[i]);
  }

  /** The caller already has a category with that name. */
  predicate NameTaken(cats: seq<Category>, user: UserId, name: string) {
    exists c :: c in cats && c.user == user && c.name == name
  }

  /** Another of the caller's categories, not the one with id `id`, has that name. */
  predicate NameTakenByOther(cats: seq<Category>, user: UserId, name: string, id: int) {
    exists c :: c in cats && c.user == user && c.name == name && c.id != id
  }

  /** Renaming a category to the name it already has never counts as a duplicate. */
  lemma KeepingOwnNameIsAllowed(cats: seq<Category>, next: int, i: nat)
    requires CategoriesOk(cats, next) && i < |cats|
    ensures !NameTakenByOther(cats, cats[i].user, cats[i].name, cats[i].id)
  {
    forall c | c in cats && c.user == cats[i].user && c.name == cats[i].name ensures c.id == cats[i].id {
      var k :| 0 <= k < |cats| && cats[k] == c;
      assert CategoryNameKey(cats[k]) == CategoryNameKey(cats[i]);
    }
  }

  /** The request body of `criar`; None is a field left out of the body. */
  datatype NewCategory = NewCategory(name: Option<string>, kind: Option<string>, color: Option<string>, icon: Option<string>)

  /** `criar`: defaults for the type, colour and icon, then a name check, a type check and
      the per-user name uniqueness check, in that order, before the INSERT. */
  method Criar(db: Database, user: UserId, input: NewCategory) returns (r: Result<Category>)
    requires db.Valid()
    modifies db
    ensures db.Valid()
    ensures !GivenStr(input.name) ==> r == Err(MissingFields)
    ensures GivenStr(input.name) && ParseCategoryKind(input.kind.GetOr(DefaultKind)).None?
            ==> r == Err(InvalidKind)
    ensures (GivenStr(input.name) && ParseCategoryKind(input.kind.GetOr(DefaultKind)).Some?
             && NameTaken(old(db.categories), user, input.name.value)) ==> r == Err(Duplicate)
    ensures r.Ok? <==>
      && GivenStr(input.name) && ParseCategoryKind(input.kind.GetOr(DefaultKind)).Some?
      && !NameTaken(old(db.categories), user, input.name.value)
    ensures r.Err? ==> unchanged(db)
    ensures r.Ok? ==>
      && GivenStr(input.name) && !NameTaken(old(db.categories), user, input.name.value)
      && ParseCategoryKind(input.kind.GetOr(DefaultKind)) == Some(r.value.kind)
      && r.value == Category(old(db.nextCategoryId), user, input.name.value, r.value.kind,
                             input.color.GetOr(DefaultColor), input.icon.GetOr(DefaultIcon))
      && db.categories == old(db.categories) + [r.value]
      && db.nextCategoryId == old(db.nextCategoryId) + 1
      && db.transactions == old(db.transactions) && db.nextTransactionId == old(db.nextTransactionId)
      && db.budgets == old(db.budgets) && db.nextBudgetId == old(db.nextBudgetId)
  {
    if !GivenStr(input.name) {
      return Err(MissingFields);
    }
    var name := input.name.value;
    var kind := ParseCategoryKind(input.kind.GetOr(DefaultKind));
    if kind.None? {
      return Err(InvalidKind);
    }
    var taken := IndexOf(db.categories, (c: Category) => c.name == name && c.user == user);
    if taken >= 0 {
      assert db.categories[taken] in db.categories;
      return Err(Duplicate);
    }
    var row := Category(db.nextCategoryId, user, name, kind.value,
                        input.color.GetOr(DefaultColor), input.icon.GetOr(DefaultIcon));
    ghost var cats := db.categories;
    db.categories := db.categories + [row];
    db.nextCategoryId := db.nextCategoryId + 1;
    r := Ok(row);
    CategoryChangeKeepsRefs(cats, db.categories, db.transactions, db.budgets, db.nextTransactionId, db.nextBudgetId);
  }

  /** Replacing a category by an edit with the same id and owner, and either its old name
      or a name none of the owner's other categories has, keeps the store valid. */
  lemma EditKeepsStoreValid(cats: seq<Category>, i: nat, row: Category, txs: seq<Transaction>,
                            bs: seq<Budget>, nc: int, nt: int, nb: int)
    requires i < |cats| && row.id == cats[i].id && row.user == cats[i].user
    requires row.name == cats[i].name || !NameTakenByOther(cats, row.user, row.name, row.id)
    requires CategoriesOk(cats, nc) && TransactionsOk(txs, cats, nt) && BudgetsOk(bs, cats, nb)
    ensures CategoriesOk(cats[i := row], nc)
    ensures TransactionsOk(txs, cats[i := row], nt) && BudgetsOk(bs, cats[i := row], nb)
  {
    KeepingOwnNameIsAllowed(cats, nc, i);
    forall j | 0 <= j < |cats| && j != i ensures CategoryNameKey(cats[j]) != CategoryNameKey(row) {
      assert cats[j] in cats;
      assert CategoryId(cats[j]) != CategoryId(cats[i]);
    }
    UpdateKeepsDistinctKeys(cats, i, row, CategoryNameKey);
    UpdateKeepsDistinctKeys(cats, i, row, CategoryId);
    var cats' := cats[i := row];
    forall c | c in cats ensures exists c' :: c' in cats' && c'.id == c.id && c'.user == c.user {
      var k :| 0 <= k < |cats| && cats[k] == c;
      assert cats'[k] in cats';
    }
    CategoryChangeKeepsRefs(cats, cats', txs, bs, nt, nb);
  }

  /** The request body of `atualizar`; a field that is absent or empty is not changed. */
  datatype CategoryPatch = CategoryPatch(name: Option<string>, kind: Option<string>, color: Option<string>, icon: Option<string>)

  function PatchValue(given: Option<string>, current: string): string {
    if GivenStr(given) then given.value else current
  }

  /** `atualizar`: a type check, then ownership, then (for a new name) uniqueness against
      the caller's other categories, then the patch, which must change at least one field. */
  method Atualizar(db: Database, user: UserId, id: int, patch: CategoryPatch) returns (r: Result<Category>)
    requires db.Valid()
    modifies db
    ensures db.Valid()
    ensures GivenStr(patch.kind) && ParseCategoryKind(patch.kind.value).None? ==> r == Err(InvalidKind)
    ensures (!(GivenStr(patch.kind) && ParseCategoryKind(patch.kind.value).None?)
             && !OwnsCategory(old(db.categories), id, user)) ==> r == Err(NotFound)
    ensures (OwnsCategory(old(db.categories), id, user) && !(GivenStr(patch.kind) && ParseCategoryKind(patch.kind.value).None?)
             && GivenStr(patch.name) && NameTakenByOther(old(db.categories), user, patch.name.value, id))
            ==> r == Err(Duplicate)
    ensures (OwnsCategory(old(db.categories), id, user) && !GivenStr(patch.kind) && !GivenStr(patch.name)
             && !GivenStr(patch.color) && !GivenStr(patch.icon)) ==> r == Err(NothingToUpdate)
    ensures r.Ok? <==>
      && !(GivenStr(patch.kind) && ParseCategoryKind(patch.kind.value).None?)
      && OwnsCategory(old(db.categories), id, user)
      && !(GivenStr(patch.name) && NameTakenByOther(old(db.categories), user, patch.name.value, id))
      && (GivenStr(patch.name) || GivenStr(patch.kind) || GivenStr(patch.color) || GivenStr(patch.icon))
    // Sending the category's current name back is accepted.
    ensures (!(GivenStr(patch.kind) && ParseCategoryKind(patch.kind.value).None?)
             && OwnsCategory(old(db.categories), id, user) && GivenStr(patch.name)
             && patch.name.value == old(db.categories)[FindCategory(old(db.categories), id, user)].name)
            ==> r.Ok?
    ensures r.Err? ==> unchanged(db)
    ensures r.Ok? ==>
      var i := FindCategory(old(db.categories), id, user);
      var before := old(db.categories)[i];
      && i >= 0
      && (GivenStr(patch.name) || GivenStr(patch.kind) || GivenStr(patch.color) || GivenStr(patch.icon))
      && r.value.id == id && r.value.user == user
      && r.value.name == PatchValue(patch.name, before.name)
      && r.value.kind == (if GivenStr(patch.kind) then ParseCategoryKind(patch.kind.value).value else before.kind)
      && r.value.color == PatchValue(patch.color, before.color)
      && r.value.icon == PatchValue(patch.icon, before.icon)
      && db.categories == old(db.categories)[i := r.value]
      && db.nextCategoryId == old(db.nextCategoryId)
      && db.transactions == old(db.transactions) && db.nextTransactionId == old(db.nextTransactionId)
      && db.budgets == old(db.budgets) && db.nextBudgetId == old(db.nextBudgetId)
  {
    if GivenStr(patch.kind) && ParseCategoryKind(patch.kind.value).None? {
      return Err(InvalidKind);
    }
    var i := FindCategory(db.categories, id, user);
    if i < 0 {
      return Err(NotFound);
    }
    KeepingOwnNameIsAllowed(db.categories, db.nextCategoryId, i);
    if GivenStr(patch.name) {
      var name := patch.name.value;
      var other := IndexOf(db.categories, (c: Category) => c.name == name && c.user == user && c.id != id);
      if other >= 0 {
        assert db.categories[other] in db.categories;
        return Err(Duplicate);
      }
    }
    // The SET list, one assignment per provided field.
    var row := db.categories[i];
    var fields := 0;
    if GivenStr(patch.name) {
      row := row.(name := patch.name.value);
      fields := fields + 1;
    }
    if GivenStr(patch.kind) {
      row := row.(kind := ParseCategoryKind(patch.kind.value).value);
      fields := fields + 1;
    }
    if GivenStr(patch.color) {
      row := row.(color := patch.color.value);
      fields := fields + 1;
    }
    if GivenStr(patch.icon) {
      row := row.(icon := patch.icon.value);
      fields := fields + 1;
    }
    if fields == 0 {
      return Err(NothingToUpdate);
    }
    EditKeepsStoreValid(db.categories, i, row, db.transactions, db.budgets,
                        db.nextCategoryId, db.nextTransactionId, db.nextBudgetId);
    db.categories := db.categories[i := row];
    r := Ok(row);
  }

  /** `SELECT COUNT(*) FROM transacoes WHERE id_categoria = @id` (over every user's rows). */
  function TransactionsUsing(txs: seq<Transaction>, id: int): (n: nat)
    ensures n == 0 <==> forall t :: t in txs ==> t.category != id
  {
    var using := Filter(txs, (t: Transaction) => t.category == id);
    assert |using| > 0 ==> using[0] in using;
    |using|
  }

  /** `SELECT COUNT(*) FROM orcamentos WHERE id_categoria = @id` (over every user's rows). */
  function BudgetsUsing(bs: seq<Budget>, id: int): (n: nat)
    ensures n == 0 <==> forall b :: b in bs ==> b.category != id
  {
    var using := Filter(bs, (b: Budget) => b.category == id);
    assert |using| > 0 ==> using[0] in using;
    |using|
  }

  /** `deletar`: not found unless the caller owns the category; refused while any
      transaction or budget refers to it; otherwise that one row goes. */
  method Deletar(db: Database, user: UserId, id: int) returns (r: Result<()>)
    requires db.Valid()
    modifies db
    ensures db.Valid()
    ensures !OwnsCategory(old(db.categories), id, user) ==> r == Err(NotFound)
    ensures (OwnsCategory(old(db.categories), id, user)
             && (TransactionsUsing(old(db.transactions), id) > 0 || BudgetsUsing(old(db.budgets), id) > 0))
            ==> r == Err(InUse(TransactionsUsing(old(db.transactions), id), BudgetsUsing(old(db.budgets), id)))
    ensures r.Ok? <==>
      && OwnsCategory(old(db.categories), id, user)
      && TransactionsUsing(old(db.transactions), id) == 0 && BudgetsUsing(old(db.budgets), id) == 0
    ensures r.Err? ==> unchanged(db)
    ensures r.Ok? ==>
      && OwnsCategory(old(db.categories), id, user)
      && (forall t :: t in db.transactions ==> t.category != id)
      && (forall b :: b in db.budgets ==> b.category != id)
      && db.categories == RemoveAt(old(db.categories), FindCategory(old(db.categories), id, user))
      && (forall c :: c in db.categories <==> c in old(db.categories) && c.id != id)
      && db.nextCategoryId == old(db.nextCategoryId)
      && db.transactions == old(db.transactions) && db.nextTransactionId == old(db.nextTransactionId)
      && db.budgets == old(db.budgets) && db.nextBudgetId == old(db.nextBudgetId)
  {
    var i := FindCategory(db.categories, id, user);
    if i < 0 {
      return Err(NotFound);
    }
    var inTransactions := TransactionsUsing(db.transactions, id);
    var inBudgets := BudgetsUsing(db.budgets, id);
    if inTransactions > 0 || inBudgets > 0 {
      return Err(InUse(inTransactions, inBudgets));
    }
    RemoveUnusedCategory(db.categories, i, db.transactions, db.budgets,
                         db.nextCategoryId, db.nextTransactionId, db.nextBudgetId);
    RemoveAtByKey(db.categories, i, CategoryId);
    db.categories := RemoveAt(db.categories, i);
    r := Ok(());
  }
}
