/** Records of the personal-finance store and the values the controllers exchange.
    Money is held in integer cents (the columns are DECIMAL(15,2)); dates are
    calendar (year, month, day) triples as a SQL DATE column holds them. */
module Domain {

  datatype Option<T> = None | Some(value: T) {
    function GetOr(default: T): T {
      match this
      case Some(v) => v
      case None => default
    }
  }

  type UserId = int

  /** A SQL DATE: the column type rules out a month outside 1..12 or a day outside 1..31. */
  datatype Ymd = Ymd(year: int, month: int, day: int)
  type Date = d: Ymd | 1 <= d.month <= 12 && 1 <= d.day <= 31 witness Ymd(2000, 1, 1)

  /** Chronological order on dates: year first, then month, then day. */
  predicate DateLe(a: Date, b: Date) {
    a.year < b.year || (a.year == b.year && (a.month < b.month || (a.month == b.month && a.day <= b.day)))
  }

  /** A calendar month of a year: the period dashboards and budgets are scoped by. */
  datatype Period = Period(month: int, year: int)

  /** The period a request asks for through its `mes` and `ano` query-string values: the
      one given when both are present (a query-string value is a string, so "0" counts as
      present), otherwise the current month `now`. */
  function ChosenPeriod(month: Option<int>, year: Option<int>, now: Period): (p: Period)
    ensures month.Some? && year.Some? ==> p == Period(month.value, year.value)
    ensures month.None? || year.None? ==> p == now
  {
    if month.Some? && year.Some? then Period(month.value, year.value) else now
  }

  /** `tipo` of a transaction: 'receita' (income) or 'despesa' (expense). */
  datatype TxKind = Receita | Despesa

  function TxKindName(k: TxKind): string {
    match k
    case Receita => "receita"
    case Despesa => "despesa"
  }

  /** The check `['receita', 'despesa'].includes(tipo)`. */
  function ParseTxKind(s: string): (r: Option<TxKind>)
    ensures r.Some? <==> (s == "receita" || s == "despesa")
    ensures r.Some? ==> TxKindName(r.value) == s
  {
    if s == "receita" then Some(Receita)
    else if s == "despesa" then Some(Despesa)
    else None
  }

  /** `tipo` of a category: it may also be 'ambos' (both). */
  datatype CategoryKind = ForIncome | ForExpense | Ambos

  function CategoryKindName(k: CategoryKind): string {
    match k
    case ForIncome => "receita"
    case ForExpense => "despesa"
    case Ambos => "ambos"
  }

  /** The check `['receita', 'despesa', 'ambos'].includes(tipo)`. */
  function ParseCategoryKind(s: string): (r: Option<CategoryKind>)
    ensures r.Some? <==> (s == "receita" || s == "despesa" || s == "ambos")
    ensures r.Some? ==> CategoryKindName(r.value) == s
  {
    if s == "receita" then Some(ForIncome)
    else if s == "despesa" then Some(ForExpense)
    else if s == "ambos" then Some(Ambos)
    else None
  }

  /** A row of `categorias`. */
  datatype Category = Category(id: int, user: UserId, name: string, kind: CategoryKind, color: string, icon: string)

  /** A row of `transacoes`; `updatedAt` is `data_atualizacao`, None until the first update
      (the column's default is not part of this model). */
  datatype Transaction = Transaction(
    id: int, user: UserId, category: int, kind: TxKind, amount: int,
    date: Date, description: Option<string>, updatedAt: Option<int>)

  /** A row of `orcamentos`: a spending limit for one category in one month of one year. */
  datatype Budget = Budget(
    id: int, user: UserId, category: int, month: int, year: int, limit: int, updatedAt: Option<int>)

  /** Why a controller refused a request; each stands for one response message. */
  datatype Error =
    | MissingFields        // "... são obrigatórios." / "Nome da categoria é obrigatório."
    | InvalidKind          // "Tipo deve ser ..."
    | NonPositiveAmount    // "Valor ... deve ser maior que zero."
    | InvalidMonth         // "Mês deve estar entre 1 e 12."
    | InvalidYear          // "Ano inválido."
    | InvalidCategory      // "Categoria inválida."
    | NotFound             // "... não encontrada/o." (absent or owned by another user)
    | Duplicate            // "Já existe ..."
    | NothingToUpdate      // "Nenhum campo para atualizar."
    | InUse(transactions: nat, budgets: nat)  // category still referenced
    | ServerError          // the query itself fails and the handler answers 500

  datatype Result<T> = Ok(value: T) | Err(error: Error)

  /** JavaScript truthiness of an optional string: absent, null and "" are all falsy. */
  predicate GivenStr(o: Option<string>) {
    o.Some? && o.value != ""
  }

  /** JavaScript truthiness of an optional JSON number: absent, null and 0 are all falsy. */
  predicate GivenNum(o: Option<int>) {
    o.Some? && o.value != 0
  }
}
