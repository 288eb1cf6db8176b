/** The tax arithmetic (js/calculator.js): a flat rate on income, chosen by the
    tenant type, and the per-object and overall figures read from the store. */
module Calculator {
  import opened Wrappers
  import opened Records
  import opened Store

  /** The tenant type the source treats specially; every other value gets the
      other rate. */
  const Physical: string := "physical"

  /** `tenantType === 'physical' ? 0.04 : 0.06`, exact. */
  function TaxRate(tenantType: string): (rate: real)
    ensures tenantType == Physical <==> rate == 0.04
    ensures tenantType != Physical <==> rate == 0.06
  {
    if tenantType == Physical then 0.04 else 0.06
  }

  /** What `calculate` and `calculateOverall` compute. */
  datatype Summary = Summary(totalIncome: real, totalExpenses: real, taxAmount: real, netProfit: real)

  /** What `calculateForObject` returns; `taxRate` is the rate as a percent. */
  datatype ObjectSummary = ObjectSummary(
    totalIncome: real, totalExpenses: real, taxAmount: real, netProfit: real, taxRate: real)

  /** The six calculator fields as `parseFloat` read them: `None` where the
      field was empty or not a number, which `|| 0` turns into 0. */
  datatype CalculatorForm = CalculatorForm(
    rentIncome: Option<real>,
    additionalIncome: Option<real>,
    mortgageExpense: Option<real>,
    utilitiesExpense: Option<real>,
    maintenanceExpense: Option<real>,
    otherExpenses: Option<real>)

  /** The tax and profit lines, written out alike in all three computations of
      the source: tax is income times the rate, and expenses only lower the
      profit. */
  function Settle(totalIncome: real, totalExpenses: real, tenantType: string): (s: Summary)
    ensures s.totalIncome == totalIncome && s.totalExpenses == totalExpenses
    ensures s.taxAmount == totalIncome * TaxRate(tenantType)
    ensures s.netProfit + s.taxAmount + s.totalExpenses == s.totalIncome
    ensures totalIncome >= 0.0 ==> 0.0 <= s.taxAmount <= totalIncome
    ensures totalIncome >= 0.0 ==> s.netProfit <= totalIncome - totalExpenses
  {
    var taxAmount := totalIncome * TaxRate(tenantType);
    Summary(totalIncome, totalExpenses, taxAmount, totalIncome - taxAmount - totalExpenses)
  }

  /** `reduce((sum, contract) => sum + contract.rentAmount, 0)`. */
  function SumRent(rows: seq<Row<Contract>>): real {
    if rows == [] then 0.0 else rows[0].value.rentAmount + SumRent(rows[1..])
  }

  /** `reduce((sum, expense) => sum + expense.amount, 0)`. */
  function SumAmounts(rows: seq<Row<Expense>>): real {
    if rows == [] then 0.0 else rows[0].value.amount + SumAmounts(rows[1..])
  }

  /** Reference definition of the rent the objects `ids` earn: over every stored
      contract, its rent when it belongs to one of them and is active, else 0. */
  function RentOf(contracts: seq<Row<Contract>>, ids: set<Id>): real {
    if contracts == [] then 0.0
    else
      var c := contracts[0].value;
      (if c.objectId in ids && c.IsActive() then c.rentAmount else 0.0) + RentOf(contracts[1..], ids)
  }

  /** Reference definition of what the objects `ids` spent. */
  function SpentOf(expenses: seq<Row<Expense>>, ids: set<Id>): real {
    if expenses == [] then 0.0
    else
      var e := expenses[0].value;
      (if e.objectId in ids then e.amount else 0.0) + SpentOf(expenses[1..], ids)
  }

  /** Filtering by object, then by `isActive`, then summing the rent is the
      reference sum. */
  lemma {:induction false} FilteredRent(contracts: seq<Row<Contract>>, objectId: Id)
    ensures SumRent(ActiveOf(ContractsOf(contracts, objectId))) == RentOf(contracts, {objectId})
  {
    if contracts != [] {
      FilteredRent(contracts[1..], objectId);
    }
  }

  lemma {:induction false} FilteredSpent(expenses: seq<Row<Expense>>, objectId: Id)
    ensures SumAmounts(ExpensesOf(expenses, objectId)) == SpentOf(expenses, {objectId})
  {
    if expenses != [] {
      FilteredSpent(expenses[1..], objectId);
    }
  }

  /** The calculator's session state: the selected tenant type. */
  class TaxCalculator {
    var tenantType: string

    constructor ()
      ensures tenantType == Physical
    {
      tenantType := Physical;
    }

    /** The `change` handler of the `tenantType` radio buttons. */
    method SelectTenantType(value: string)
      modifies this
      ensures tenantType == value
    {
      tenantType := value;
    }

    /** `getCurrentTaxRate`: the rate in percent. */
    function GetCurrentTaxRate(): (percent: int)
      reads this
      ensures percent as real == TaxRate(tenantType) * 100.0
      ensures percent == 4 || percent == 6
    {
      if tenantType == Physical then 4 else 6
    }

    /** `updateTaxLabel`: the caption over the tax line. */
    function TaxLabel(): (caption: string)
      reads this
      ensures caption == "Налог (4%):" <==> GetCurrentTaxRate() == 4
      ensures caption == "Налог (6%):" <==> GetCurrentTaxRate() == 6
    {
      if tenantType == Physical then "Налог (4%):" else "Налог (6%):"
    }

    /** `calculate`: income and expense fields summed, an unreadable field
        counting as 0, then taxed at the selected rate. */
    function Calculate(form: CalculatorForm): (s: Summary)
      reads this
      ensures s.totalIncome == form.rentIncome.GetOr(0.0) + form.additionalIncome.GetOr(0.0)
      ensures s.totalExpenses == form.mortgageExpense.GetOr(0.0) + form.utilitiesExpense.GetOr(0.0)
                                 + form.maintenanceExpense.GetOr(0.0) + form.otherExpenses.GetOr(0.0)
      ensures s.taxAmount == s.totalIncome * TaxRate(tenantType)
      ensures s.netProfit == s.totalIncome - s.taxAmount - s.totalExpenses
    {
      var totalIncome := form.rentIncome.GetOr(0.0) + form.additionalIncome.GetOr(0.0);
      var totalExpenses := form.mortgageExpense.GetOr(0.0) + form.utilitiesExpense.GetOr(0.0)
                           + form.maintenanceExpense.GetOr(0.0) + form.otherExpenses.GetOr(0.0);
      Settle(totalIncome, totalExpenses, tenantType)
    }

    /** `calculateForObject(objectId, tenantType = 'physical')`: the rent of the
        object's active contracts and the amounts of its expenses. */
    static function CalculateForObject(db: Database, objectId: Id, tenantType: string := Physical): (r: ObjectSummary)
      reads db.contracts, db.expenses
      ensures r.totalIncome == RentOf(db.contracts.rows, {objectId})
      ensures r.totalExpenses == SpentOf(db.expenses.rows, {objectId})
      ensures r.taxAmount == r.totalIncome * TaxRate(tenantType)
      ensures r.netProfit == r.totalIncome - r.taxAmount - r.totalExpenses
      ensures r.taxRate == TaxRate(tenantType) * 100.0
    {
      FilteredRent(db.contracts.rows, objectId);
      FilteredSpent(db.expenses.rows, objectId);
      var totalIncome := SumRent(ActiveOf(db.GetContractsByObject(objectId)));
      var totalExpenses := SumAmounts(db.GetExpensesByObject(objectId));
      var s := Settle(totalIncome, totalExpenses, tenantType);
      ObjectSummary(s.totalIncome, s.totalExpenses, s.taxAmount, s.netProfit, TaxRate(tenantType) * 100.0)
    }

    /** `calculateOverall(tenantType = 'physical')`: per-object totals added up
        over the stored objects, then taxed once. */
    static method CalculateOverall(db: Database, tenantType: string := Physical) returns (s: Summary)
      ensures s.totalIncome == IncomeOver(db.contracts.rows, db.objects.rows)
      ensures s.totalExpenses == SpentOver(db.expenses.rows, db.objects.rows)
      ensures s.taxAmount == s.totalIncome * TaxRate(tenantType)
      ensures s.netProfit == s.totalIncome - s.taxAmount - s.totalExpenses
    {
      var objects := db.objects.rows;
      var totalIncome, totalExpenses := 0.0, 0.0;
      var i := 0;
      while i < |objects|
        invariant 0 <= i <= |objects|
        invariant totalIncome == IncomeOver(db.contracts.rows, objects[..i])
        invariant totalExpenses == SpentOver(db.expenses.rows, objects[..i])
      {
        var calculation := CalculateForObject(db, objects[i].id, tenantType);
        totalIncome := totalIncome + calculation.totalIncome;
        totalExpenses := totalExpenses + calculation.totalExpenses;
        assert objects[..i + 1][..i] == objects[..i];
        i := i + 1;
      }
      assert objects[..i] == objects;
      s := Settle(totalIncome, totalExpenses, tenantType);
    }
  }

  /** The income of the objects `objects`, object by object. */
  function IncomeOver(contracts: seq<Row<Contract>>, objects: seq<Row<RealtyObject>>): real {
    if objects == [] then 0.0
    else IncomeOver(contracts, objects[..|objects| - 1]) + RentOf(contracts, {objects[|objects| - 1].id})
  }

  /** The expenses of the objects `objects`, object by object. */
  function SpentOver(expenses: seq<Row<Expense>>, objects: seq<Row<RealtyObject>>): real {
    if objects == [] then 0.0
    else SpentOver(expenses, objects[..|objects| - 1]) + SpentOf(expenses, {objects[|objects| - 1].id})
  }

  /** The tax of the objects `objects` computed one object at a time. */
  function TaxOver(contracts: seq<Row<Contract>>, objects: seq<Row<RealtyObject>>, tenantType: string): real {
    if objects == [] then 0.0
    else TaxOver(contracts, objects[..|objects| - 1], tenantType)
         + RentOf(contracts, {objects[|objects| - 1].id}) * TaxRate(tenantType)
  }

  /** Taxing object by object and taxing the summed income agree: the overall
      tax is the sum of the per-object taxes. */
  lemma {:induction false} OverallTaxIsSumOfObjectTaxes(
    contracts: seq<Row<Contract>>, objects: seq<Row<RealtyObject>>, tenantType: string)
    ensures TaxOver(contracts, objects, tenantType) == IncomeOver(contracts, objects) * TaxRate(tenantType)
  {
    if objects != [] {
      OverallTaxIsSumOfObjectTaxes(contracts, objects[..|objects| - 1], tenantType);
    }
  }

  /** The rent of two disjoint groups of objects adds up. */
  lemma {:induction false} RentSplits(contracts: seq<Row<Contract>>, s: set<Id>, t: set<Id>)
    requires s !! t
    ensures RentOf(contracts, s + t) == RentOf(contracts, s) + RentOf(contracts, t)
  {
    if contracts != [] {
      RentSplits(contracts[1..], s, t);
    }
  }

  lemma {:induction false} SpentSplits(expenses: seq<Row<Expense>>, s: set<Id>, t: set<Id>)
    requires s !! t
    ensures SpentOf(expenses, s + t) == SpentOf(expenses, s) + SpentOf(expenses, t)
  {
    if expenses != [] {
      SpentSplits(expenses[1..], s, t);
    }
  }

  /** Summing over the stored objects counts every active contract of a stored
      object exactly once, and no contract whose object is not stored. */
  lemma {:induction false} OverallIncomeCountsStoredObjects(
    contracts: seq<Row<Contract>>, objects: seq<Row<RealtyObject>>)
    requires Ascending(objects)
    ensures IncomeOver(contracts, objects) == RentOf(contracts, IdsOf(objects))
  {
    if objects != [] {
      var prefix, last := objects[..|objects| - 1], objects[|objects| - 1];
      assert objects == prefix + [last];
      OverallIncomeCountsStoredObjects(contracts, prefix);
      IdsOfSnoc(objects, |objects| - 1);
      assert objects[..|objects|] == objects;
      RentSplits(contracts, IdsOf(prefix), {last.id});
      calc {
        IncomeOver(contracts, objects);
        IncomeOver(contracts, prefix) + RentOf(contracts, {last.id});
        RentOf(contracts, IdsOf(prefix)) + RentOf(contracts, {last.id});
        RentOf(contracts, IdsOf(prefix) + {last.id});
        RentOf(contracts, IdsOf(objects));
      }
    } else {
      assert IdsOf(objects) == {};
      NoContractsNoRent(contracts, {});
    }
  }

  /** Likewise for expenses. */
  lemma {:induction false} OverallExpensesCountStoredObjects(
    expenses: seq<Row<Expense>>, objects: seq<Row<RealtyObject>>)
    requires Ascending(objects)
    ensures SpentOver(expenses, objects) == SpentOf(expenses, IdsOf(objects))
  {
    if objects != [] {
      var prefix, last := objects[..|objects| - 1], objects[|objects| - 1];
      assert objects == prefix + [last];
      OverallExpensesCountStoredObjects(expenses, prefix);
      IdsOfSnoc(objects, |objects| - 1);
      assert objects[..|objects|] == objects;
      SpentSplits(expenses, IdsOf(prefix), {last.id});
      calc {
        SpentOver(expenses, objects);
        SpentOver(expenses, prefix) + SpentOf(expenses, {last.id});
        SpentOf(expenses, IdsOf(prefix)) + SpentOf(expenses, {last.id});
        SpentOf(expenses, IdsOf(prefix) + {last.id});
        SpentOf(expenses, IdsOf(objects));
      }
    } else {
      assert IdsOf(objects) == {};
      NoExpensesNothingSpent(expenses, {});
    }
  }

  /** Objects with no contracts earn nothing. */
  lemma {:induction false} NoContractsNoRent(contracts: seq<Row<Contract>>, ids: set<Id>)
    requires forall row :: row in contracts ==> row.value.objectId !in ids
    ensures RentOf(contracts, ids) == 0.0
  {
    if contracts != [] {
      HeadIsMember(contracts);
      NoContractsNoRent(contracts[1..], ids);
    }
  }

  /** Objects with no expenses spent nothing. */
  lemma {:induction false} NoExpensesNothingSpent(expenses: seq<Row<Expense>>, ids: set<Id>)
    requires forall row :: row in expenses ==> row.value.objectId !in ids
    ensures SpentOf(expenses, ids) == 0.0
  {
    if expenses != [] {
      HeadIsMember(expenses);
      NoExpensesNothingSpent(expenses[1..], ids);
    }
  }

  /** A contract that is not active, or belongs to none of the objects, adds
      nothing: removing it leaves the rent unchanged. */
  lemma {:induction false} UncountedContractAddsNothing(contracts: seq<Row<Contract>>, id: Id, ids: set<Id>)
    requires Ascending(contracts)
    requires forall row :: row in contracts && row.id == id ==> !(row.value.IsActive() && row.value.objectId in ids)
    ensures RentOf(Remove(contracts, id), ids) == RentOf(contracts, ids)
  {
    if contracts != [] {
      HeadIsMember(contracts);
      UncountedContractAddsNothing(contracts[1..], id, ids);
      if contracts[0].id != id {
        assert ([contracts[0]] + Remove(contracts[1..], id))[1..] == Remove(contracts[1..], id);
      }
    }
  }

  /** An update that writes a contract without `isActive` takes that contract
      out of the income: the rent is as if the contract had been deleted. */
  lemma EditedContractStopsCounting(contracts: seq<Row<Contract>>, id: Id, c: Contract, ids: set<Id>)
    requires Ascending(contracts) && !c.IsActive()
    ensures RentOf(Upsert(contracts, id, c), ids) == RentOf(Remove(contracts, id), ids)
  {
    var edited := Upsert(contracts, id, c);
    AscendingUnique(Remove(edited, id), Remove(contracts, id));
    UncountedContractAddsNothing(edited, id, ids);
  }

  /** An object no contract and no expense refers to yields all zeros. */
  lemma UnusedObjectYieldsZeros(db: Database, objectId: Id, tenantType: string)
    requires forall row :: row in db.contracts.rows ==> row.value.objectId != objectId
    requires forall row :: row in db.expenses.rows ==> row.value.objectId != objectId
    ensures var r := TaxCalculator.CalculateForObject(db, objectId, tenantType);
      r.totalIncome == 0.0 && r.totalExpenses == 0.0 && r.taxAmount == 0.0 && r.netProfit == 0.0
  {
    NoContractsNoRent(db.contracts.rows, {objectId});
    NoExpensesNothingSpent(db.expenses.rows, {objectId});
  }
}
