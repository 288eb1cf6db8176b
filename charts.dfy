/** The data behind the two analytics charts (js/charts.js): the six-month
    window of `groupByMonth` and the per-object revenue of
    `updateObjectsChart`. */
module Charts {
  import opened Records
  import opened Store
  import opened Calculator

  /** The month abbreviations, January first. */
  const Months: seq<string> :=
    ["Янв", "Фев", "Мар", "Апр", "Май", "Июн", "Июл", "Авг", "Сен", "Окт", "Ноя", "Дек"]

  /** How many months the chart shows, ending with the current one. */
  const Window: nat := 6

  /** `(currentMonth - i + 12) % 12`: the month `i` months before `currentMonth`. */
  function MonthsBack(currentMonth: int, i: int): (m: int)
    requires 0 <= currentMonth < 12 && 0 <= i < 12
    ensures 0 <= m < 12
    ensures (m + i) % 12 == currentMonth
  {
    (currentMonth - i + 12) % 12
  }

  /** The label loop of `groupByMonth`: counting `i` down from 5 to 0, push the
      name of the month `i` months back. */
  method MonthLabels(currentMonth: int) returns (labels: seq<string>)
    requires 0 <= currentMonth < 12
    ensures |labels| == Window
    ensures forall k :: 0 <= k < Window ==> labels[k] == Months[MonthsBack(currentMonth, Window - 1 - k)]
    ensures labels[Window - 1] == Months[currentMonth]
  {
    labels := [];
    var i := Window as int - 1;
    while i >= 0
      invariant -1 <= i < Window
      invariant |labels| == Window - 1 - i
      invariant forall k :: 0 <= k < |labels| ==> labels[k] == Months[MonthsBack(currentMonth, Window - 1 - k)]
    {
      var monthIndex := MonthsBack(currentMonth, i);
      labels := labels + [Months[monthIndex]];
      i := i - 1;
    }
  }

  /** Neighbouring labels are neighbouring months, December followed by
      January. */
  lemma MonthWindowIsConsecutive(currentMonth: int, k: int)
    requires 0 <= currentMonth < 12 && 0 < k < Window
    ensures MonthsBack(currentMonth, Window - 1 - k) == (MonthsBack(currentMonth, Window - k) + 1) % 12
  {
    var x := currentMonth - Window + k + 12;
    if x < 12 {
      assert MonthsBack(currentMonth, Window - k) == x && MonthsBack(currentMonth, Window - 1 - k) == (x + 1) % 12;
    } else {
      assert MonthsBack(currentMonth, Window - k) == x - 12 && MonthsBack(currentMonth, Window - 1 - k) == x + 1 - 12;
    }
  }

  /** The six labels are six different months. */
  lemma MonthWindowIsDistinct(currentMonth: int, j: int, k: int)
    requires 0 <= currentMonth < 12 && 0 <= j < k < Window
    ensures Months[MonthsBack(currentMonth, Window - 1 - k)] != Months[MonthsBack(currentMonth, Window - 1 - j)]
  {
    var a, b := MonthsBack(currentMonth, Window - 1 - k), MonthsBack(currentMonth, Window - 1 - j);
    assert a != b;
    MonthNamed(a);
    MonthNamed(b);
  }

  /** The month a label names, back from the label. */
  function MonthOf(name: string): int {
    match name
    case "Янв" => 0 case "Фев" => 1 case "Мар" => 2 case "Апр" => 3
    case "Май" => 4 case "Июн" => 5 case "Июл" => 6 case "Авг" => 7
    case "Сен" => 8 case "Окт" => 9 case "Ноя" => 10 case "Дек" => 11
    case _ => -1
  }

  /** Every month's label names that month, so no two months share a label. */
  lemma MonthNamed(m: int)
    requires 0 <= m < 12
    ensures MonthOf(Months[m]) == m
  {
  }

  /** Demo amount drawn from `draw` in [0, 1): `Math.floor(draw * scale) + base`. */
  function DemoAmount(draw: real, scale: int, base: int): (amount: int)
    requires 0.0 <= draw < 1.0 && scale > 0
    ensures base <= amount < base + scale
  {
    (draw * scale as real).Floor + base
  }

  /** `groupByMonth`: six labels ending at `currentMonth`, and two arrays of six
      demo amounts. The source draws the amounts from `Math.random`; here the
      draws are parameters. */
  method GroupByMonth(currentMonth: int, incomeDraws: seq<real>, expenseDraws: seq<real>)
    returns (labels: seq<string>, income: array<int>, expenses: array<int>)
    requires 0 <= currentMonth < 12
    requires |incomeDraws| == Window && |expenseDraws| == Window
    requires forall k :: 0 <= k < Window ==> 0.0 <= incomeDraws[k] < 1.0 && 0.0 <= expenseDraws[k] < 1.0
    ensures fresh(income) && fresh(expenses) && income != expenses
    ensures |labels| == income.Length == expenses.Length == Window
    ensures forall k :: 0 <= k < Window ==> labels[k] == Months[MonthsBack(currentMonth, Window - 1 - k)]
    ensures forall k :: 0 <= k < Window ==>
              && income[k] == DemoAmount(incomeDraws[k], 100000, 50000)
              && expenses[k] == DemoAmount(expenseDraws[k], 30000, 10000)
  {
    income := new int[Window](_ => 0);
    expenses := new int[Window](_ => 0);
    labels := MonthLabels(currentMonth);
    for i := 0 to Window
      invariant forall k :: 0 <= k < i ==>
                  && income[k] == DemoAmount(incomeDraws[k], 100000, 50000)
                  && expenses[k] == DemoAmount(expenseDraws[k], 30000, 10000)
    {
      income[i] := DemoAmount(incomeDraws[i], 100000, 50000);
      expenses[i] := DemoAmount(expenseDraws[i], 30000, 10000);
    }
  }

  /** Reference definition: the objects, in store order, whose active contracts
      bring in a positive rent. */
  function Earners(contracts: seq<Row<Contract>>, objects: seq<Row<RealtyObject>>): (r: seq<Row<RealtyObject>>)
    ensures |r| <= |objects|
    ensures forall row :: row in r <==> row in objects && RentOf(contracts, {row.id}) > 0.0
  {
    if objects == [] then []
    else
      var last := objects[|objects| - 1];
      var prefix := Earners(contracts, objects[..|objects| - 1]);
      assert objects == objects[..|objects| - 1] + [last];
      if RentOf(contracts, {last.id}) > 0.0 then prefix + [last] else prefix
  }

  /** Objects in key order give earners in key order, so by `AscendingUnique`
      the earners are listed in the order of the objects. */
  lemma {:induction false} EarnersInKeyOrder(contracts: seq<Row<Contract>>, objects: seq<Row<RealtyObject>>)
    requires Ascending(objects)
    ensures Ascending(Earners(contracts, objects))
  {
    if objects != [] {
      var n := |objects| - 1;
      EarnersInKeyOrder(contracts, objects[..n]);
      assert forall row :: row in Earners(contracts, objects[..n]) ==> row in objects[..n];
      assert forall row :: row in objects[..n] ==> row.id < objects[n].id;
    }
  }

  /** One more object extends the earners of the shorter list by that object
      exactly when it earns. */
  lemma EarnersSnoc(contracts: seq<Row<Contract>>, objects: seq<Row<RealtyObject>>, i: int)
    requires 0 <= i < |objects|
    ensures Earners(contracts, objects[..i + 1]) ==
      Earners(contracts, objects[..i]) + if RentOf(contracts, {objects[i].id}) > 0.0 then [objects[i]] else []
  {
    assert objects[..i + 1][..i] == objects[..i];
  }

  /** `labels` and `data` are the chart series of `objects`: the name and the
      (positive) income of each earner, position by position. */
  ghost predicate Charted(contracts: seq<Row<Contract>>, objects: seq<Row<RealtyObject>>, labels: seq<string>, data: seq<real>) {
    var earners := Earners(contracts, objects);
    && |labels| == |data| == |earners|
    && forall k :: 0 <= k < |earners| ==>
         && labels[k] == earners[k].value.name
         && data[k] == RentOf(contracts, {earners[k].id})
         && data[k] > 0.0
  }

  /** One turn of the chart loop: an earning object adds its name and income,
      any other object adds nothing. */
  lemma ChartedSnoc(contracts: seq<Row<Contract>>, objects: seq<Row<RealtyObject>>, i: int, labels: seq<string>, data: seq<real>)
    requires 0 <= i < |objects| && Charted(contracts, objects[..i], labels, data)
    ensures var rent := RentOf(contracts, {objects[i].id});
      if rent > 0.0 then Charted(contracts, objects[..i + 1], labels + [objects[i].value.name], data + [rent])
      else Charted(contracts, objects[..i + 1], labels, data)
  {
    EarnersSnoc(contracts, objects, i);
  }

  /** The income `updateObjectsChart` reads off `calculateForObject`. */
  method ObjectIncome(db: Database, objectId: Id) returns (income: real)
    ensures income == RentOf(db.contracts.rows, {objectId})
  {
    income := TaxCalculator.CalculateForObject(db, objectId).totalIncome;
  }

  /** `updateObjectsChart`: one label (the name) and one value (the income)
      per object with a positive income, in the order of the objects. */
  method UpdateObjectsChart(db: Database) returns (labels: seq<string>, data: seq<real>)
    ensures var earners := Earners(db.contracts.rows, db.objects.rows);
      && |labels| == |data| == |earners|
      && forall k :: 0 <= k < |earners| ==>
           && labels[k] == earners[k].value.name
           && data[k] == RentOf(db.contracts.rows, {earners[k].id})
           && data[k] > 0.0
  {
    var objects, contracts := db.objects.rows, db.contracts.rows;
    labels, data := [], [];
    for i := 0 to |objects|
      invariant Charted(contracts, objects[..i], labels, data)
    {
      ChartedSnoc(contracts, objects, i, labels, data);
      var income := ObjectIncome(db, objects[i].id);
      if income > 0.0 {
        labels := labels + [objects[i].value.name];
        data := data + [income];
      }
    }
    assert objects[..|objects|] == objects;
  }
}
