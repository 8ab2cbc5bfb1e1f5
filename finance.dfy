/** The financial ledger (src/components/FinancialDashboard.tsx), local
    branch: validated insertion of income and expense records at the front
    of the array stored under "dentclinic-financial-records", the type and
    category filters of the table, and the three totals shown above it. */
module Finance {
  import opened Lists
  import opened Text
  import opened Storage

  const RecordsKey := "dentclinic-financial-records"

  datatype RecordType = Income | Expense

  /** A stored record; amounts are exact reals. */
  datatype FinancialRecord = FinancialRecord(
    id: string,
    kind: RecordType,
    description: string,
    amount: real,
    date: string,
    category: string)

  const IncomeCategories: seq<string> := ["Consulta", "Procedimento", "Produto", "Outro"]
  const ExpenseCategories: seq<string> :=
    ["Material", "Salário", "Aluguel", "Marketing", "Impostos", "Manutenção", "Utilidades", "Outro"]

  // ------------------------------------------------------------ the form

  /** The new-record form. `amount` is the number typed in the amount box,
      `None` while the box is empty. */
  datatype RecordForm = RecordForm(
    kind: RecordType,
    description: string,
    amount: Option<real>,
    date: string,
    category: string)

  /** `getCategoriesForType`: the categories offered for a type. */
  function CategoriesFor(kind: RecordType): seq<string> {
    if kind == Income then IncomeCategories else ExpenseCategories
  }

  /** The form's category is one the form offers for its type. */
  predicate FormConsistent(form: RecordForm) {
    form.category in CategoriesFor(form.kind)
  }

  /** The form as it opens, and as it is reset after a record is added. */
  function InitialForm(today: string): (form: RecordForm)
    ensures form.kind == Income && form.description == "" && form.amount.None? && form.date == today
    ensures form.category == IncomeCategories[0] && FormConsistent(form)
  {
    RecordForm(Income, "", None, today, IncomeCategories[0])
  }

  /** The form's type selector: choosing a type moves the category to the
      first one of that type's list and leaves every other field alone. */
  function ChangeFormType(form: RecordForm, kind: RecordType): (r: RecordForm)
    ensures r.kind == kind && r.category == CategoriesFor(kind)[0]
    ensures r.description == form.description && r.amount == form.amount && r.date == form.date
    ensures FormConsistent(r)
  {
    form.(kind := kind, category := if kind == Income then IncomeCategories[0] else ExpenseCategories[0])
  }

  /** A submission is refused when the description is blank, the amount is
      empty, or the amount is not positive. */
  predicate Rejected(form: RecordForm) {
    IsBlank(form.description) || form.amount.None? || form.amount.value <= 0.0
  }

  /** The record an accepted submission stores. */
  function NewRecord(form: RecordForm, id: string): (r: FinancialRecord)
    requires !Rejected(form)
    ensures r.id == id && r.kind == form.kind && r.description == form.description
    ensures r.amount == form.amount.value && r.amount > 0.0
    ensures r.date == form.date && r.category == form.category
  {
    FinancialRecord(id, form.kind, form.description, form.amount.value, form.date, form.category)
  }

  /** The id each stored record carries. */
  function IdOf(r: FinancialRecord): string {
    r.id
  }

  /** Every stored amount is positive, which validation guarantees for
      every record the form adds. */
  ghost predicate AllPositive(rs: seq<FinancialRecord>) {
    forall i :: 0 <= i < |rs| ==> rs[i].amount > 0.0
  }

  /** `handleSubmit`, local branch; `id` stands for `generateId()`. */
  method SubmitRecord(key: StorageKey<FinancialRecord>, form: RecordForm, id: string) returns (accepted: bool)
    requires key.name == RecordsKey
    requires id !in Ids(key.Loaded(), IdOf)
    modifies key
    ensures accepted == !Rejected(form)
    ensures !accepted ==> key.entry == old(key.entry)
    ensures accepted ==> key.entry == Present([NewRecord(form, id)] + old(key.Loaded()))
    ensures AllPositive(old(key.Loaded())) ==> AllPositive(key.Loaded())
    ensures UniqueIds(old(key.Loaded()), IdOf) ==> UniqueIds(key.Loaded(), IdOf)
  {
    if Rejected(form) {
      return false;
    }
    var recordData := NewRecord(form, id);
    var devRecords := key.Loaded();
    var updatedRecords := [recordData] + devRecords;
    forall i, j | 0 <= i < j < |updatedRecords| && UniqueIds(devRecords, IdOf)
      ensures updatedRecords[i].id != updatedRecords[j].id
    {
      if i == 0 {
        assert devRecords[j - 1] in devRecords;
      }
    }
    key.Save(updatedRecords);
    accepted := true;
  }

  // ------------------------------------------------------------- filters

  datatype TypeFilter = AllTypes | OnlyType(kind: RecordType)

  /** The two selectors above the table. A category of `None`, or an empty
      string, selects every category. */
  datatype Filters = Filters(kind: TypeFilter, category: Option<string>)

  /** The type selector; changing it clears the category selector. */
  function SelectType(f: Filters, kind: TypeFilter): (r: Filters)
    ensures r.kind == kind && r.category.None?
  {
    Filters(kind, None)
  }

  /** The category selector: picking "all categories" (the empty value)
      clears it. */
  function SelectCategory(f: Filters, value: string): (r: Filters)
    ensures r.kind == f.kind
    ensures value == "" ==> r.category.None?
    ensures value != "" ==> r.category == Some(value)
  {
    f.(category := if value == "" then None else Some(value))
  }

  predicate TypeMatches(r: FinancialRecord, t: TypeFilter) {
    t.AllTypes? || r.kind == t.kind
  }

  predicate CategoryMatches(r: FinancialRecord, c: Option<string>) {
    c.None? || c.value == "" || r.category == c.value
  }

  /** `filteredRecords`: the records whose type and category both pass. */
  function FilteredRecords(rs: seq<FinancialRecord>, f: Filters): (r: seq<FinancialRecord>)
    ensures forall i :: 0 <= i < |r| ==> TypeMatches(r[i], f.kind) && CategoryMatches(r[i], f.category)
    ensures forall x :: multiset(r)[x] ==
              if TypeMatches(x, f.kind) && CategoryMatches(x, f.category) then multiset(rs)[x] else 0
  {
    Filter(rs, (x: FinancialRecord) => TypeMatches(x, f.kind) && CategoryMatches(x, f.category))
  }

  /** The table keeps the stored order. */
  lemma FilteredRecordsKeepOrder(rs: seq<FinancialRecord>, f: Filters)
    ensures IsSubsequence(FilteredRecords(rs, f), rs)
  {
    FilterIsSubsequence(rs, (x: FinancialRecord) => TypeMatches(x, f.kind) && CategoryMatches(x, f.category));
  }

  /** With no type and no category selected the table shows every record. */
  lemma NoFilterShowsAll(rs: seq<FinancialRecord>, f: Filters)
    ensures FilteredRecords(rs, SelectType(f, AllTypes)) == rs
  {
    FilterKeepsAll(rs, (x: FinancialRecord) => TypeMatches(x, AllTypes) && CategoryMatches(x, None));
  }

  // -------------------------------------------------------------- totals

  predicate IsIncome(r: FinancialRecord) {
    r.kind == Income
  }

  predicate IsExpense(r: FinancialRecord) {
    r.kind == Expense
  }

  function Amount(r: FinancialRecord): real {
    r.amount
  }

  /** `totalIncome` of the listed records. */
  function TotalIncome(shown: seq<FinancialRecord>): real {
    Sum(Filter(shown, IsIncome), Amount)
  }

  /** `totalExpenses` of the listed records. */
  function TotalExpenses(shown: seq<FinancialRecord>): real {
    Sum(Filter(shown, IsExpense), Amount)
  }

  /** `balance`. */
  function Balance(shown: seq<FinancialRecord>): real {
    TotalIncome(shown) - TotalExpenses(shown)
  }

  /** A record's effect on the balance: plus its amount for income, minus
      it for an expense. */
  function SignedAmount(r: FinancialRecord): real {
    if r.kind == Income then r.amount else -r.amount
  }

  /** Both totals together add up every listed amount. */
  lemma {:induction false} TotalsCoverEverything(shown: seq<FinancialRecord>)
    ensures TotalIncome(shown) + TotalExpenses(shown) == Sum(shown, Amount)
    decreases |shown|
  {
    if shown != [] {
      var x, rest := shown[0], shown[1..];
      assert shown == [x] + rest;
      TotalsCoverEverything(rest);
      FilterCons(x, rest, IsIncome);
      FilterCons(x, rest, IsExpense);
      SumCons(x, rest, Amount);
      if x.kind == Income {
        SumCons(x, Filter(rest, IsIncome), Amount);
      } else {
        SumCons(x, Filter(rest, IsExpense), Amount);
      }
    }
  }

  /** The balance is the signed sum of the listed records, one record at a
      time. */
  lemma {:induction false} BalanceIsSignedSum(shown: seq<FinancialRecord>)
    ensures Balance(shown) == Sum(shown, SignedAmount)
    decreases |shown|
  {
    if shown != [] {
      var x, rest := shown[0], shown[1..];
      assert shown == [x] + rest;
      BalanceIsSignedSum(rest);
      FilterCons(x, rest, IsIncome);
      FilterCons(x, rest, IsExpense);
      SumCons(x, rest, SignedAmount);
      if x.kind == Income {
        SumCons(x, Filter(rest, IsIncome), Amount);
      } else {
        SumCons(x, Filter(rest, IsExpense), Amount);
      }
    }
  }

  /** A record added in front changes the balance of the table by its signed
      amount when the filters show it, and not at all otherwise. */
  lemma BalanceAfterInsert(rec: FinancialRecord, rs: seq<FinancialRecord>, f: Filters)
    ensures Balance(FilteredRecords([rec] + rs, f)) ==
            Balance(FilteredRecords(rs, f))
            + (if TypeMatches(rec, f.kind) && CategoryMatches(rec, f.category) then SignedAmount(rec) else 0.0)
  {
    var p := (x: FinancialRecord) => TypeMatches(x, f.kind) && CategoryMatches(x, f.category);
    FilterConcat([rec], rs, p);
    BalanceIsSignedSum(FilteredRecords([rec] + rs, f));
    BalanceIsSignedSum(FilteredRecords(rs, f));
    if p(rec) {
      assert Filter([rec], p) == [rec];
      SumCons(rec, FilteredRecords(rs, f), SignedAmount);
    } else {
      assert Filter([rec], p) == [];
    }
  }

  /** With the type filter on income no expense is listed, so the expense
      total is zero; and the other way round. */
  lemma OneTypeFilterZeroesTheOther(rs: seq<FinancialRecord>, f: Filters)
    ensures f.kind == OnlyType(Income) ==> TotalExpenses(FilteredRecords(rs, f)) == 0.0
    ensures f.kind == OnlyType(Expense) ==> TotalIncome(FilteredRecords(rs, f)) == 0.0
  {
    var shown := FilteredRecords(rs, f);
    if f.kind == OnlyType(Income) {
      FilterKeepsNone(shown, IsExpense);
    }
    if f.kind == OnlyType(Expense) {
      FilterKeepsNone(shown, IsIncome);
    }
  }

  /** With positive amounts stored, neither total is negative, whatever the
      filters. */
  lemma TotalsNonNegative(rs: seq<FinancialRecord>, f: Filters)
    requires AllPositive(rs)
    ensures TotalIncome(FilteredRecords(rs, f)) >= 0.0
    ensures TotalExpenses(FilteredRecords(rs, f)) >= 0.0
  {
    var shown := FilteredRecords(rs, f);
    forall i | 0 <= i < |shown| ensures shown[i].amount > 0.0 {
      assert shown[i] in multiset(shown);
    }
    SumNonNegative(Filter(shown, IsIncome), Amount);
    SumNonNegative(Filter(shown, IsExpense), Amount);
  }
}
