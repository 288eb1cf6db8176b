/** The record store (js/database.js): four IndexedDB object stores with key
    path `id` and a key generator, held in memory, with the cascade deletes. */
module Store {
  import opened Wrappers
  import opened Records

  /** One object store. `rows` is what `getAll` returns (records in key order);
      `current` is the key generator's next number; `issued` is every key the
      generator has handed out, kept for the specification only. */
  class Table<R(==,!new)> {
    var rows: seq<Row<R>>
    var current: Id
    ghost var issued: set<Id>

    ghost predicate Valid()
      reads this
    {
      && 1 <= current
      && Ascending(rows)
      && (forall row :: row in rows ==> row.id < current)
      && (forall k :: k in issued ==> k < current)
    }

    /** An empty store whose generator starts at 1. */
    constructor ()
      ensures Valid()
      ensures rows == [] && current == 1 && issued == {}
    {
      rows := [];
      current := 1;
      issued := {};
    }

    /** `get(storeName, id)`: the stored record, or `None` for a missing key. */
    function Get(id: Id): (r: Option<R>)
      reads this
      requires Valid()
      ensures r.Some? <==> id in IdsOf(rows)
      ensures forall v :: r == Some(v) <==> Row(id, v) in rows
    {
      var r := Lookup(rows, id);
      forall v ensures r == Some(v) <==> Row(id, v) in rows {
        LookupFinds(rows, id, v);
      }
      r
    }

    /** `add(storeName, data)`: the generator's number becomes the key. */
    method Add(value: R) returns (id: Id)
      requires Valid()
      modifies this
      ensures Valid()
      ensures id == old(current) && current == id + 1
      ensures id !in IdsOf(old(rows)) && id !in old(issued)
      ensures issued == old(issued) + {id}
      ensures rows == old(rows) + [Row(id, value)]
      ensures Get(id) == Some(value)
    {
      id := current;
      rows := rows + [Row(id, value)];
      current := current + 1;
      issued := issued + {id};
      LookupFinds(rows, id, value);
    }

    /** `update(storeName, id, data)` is `put({...data, id})`: the record under
        `id` becomes exactly `value`, whether or not the key was present, and a
        key at or above the generator's number moves the generator past it. */
    method Put(id: Id, value: R)
      requires Valid()
      modifies this
      ensures Valid()
      ensures rows == Upsert(old(rows), id, value)
      ensures Get(id) == Some(value)
      ensures forall k :: k != id ==> Get(k) == old(Get(k))
      ensures current == if old(current) <= id then id + 1 else old(current)
      ensures issued == old(issued)
    {
      rows := Upsert(rows, id, value);
      if current <= id {
        current := id + 1;
      }
      LookupFinds(rows, id, value);
      forall k | k != id
        ensures Get(k) == old(Get(k))
      {
        UpsertElsewhere(old(rows), id, value, k);
      }
    }

    /** `delete(storeName, id)`: only that key goes; an absent key is no error
        and changes nothing. */
    method Delete(id: Id)
      requires Valid()
      modifies this
      ensures Valid()
      ensures rows == Remove(old(rows), id)
      ensures Get(id) == None
      ensures forall k :: k != id ==> Get(k) == old(Get(k))
      ensures id !in IdsOf(old(rows)) ==> rows == old(rows)
      ensures current == old(current) && issued == old(issued)
    {
      if id !in IdsOf(rows) {
        RemoveAbsent(rows, id);
      }
      rows := Remove(rows, id);
      forall k | k != id
        ensures Get(k) == old(Get(k))
      {
        RemoveElsewhere(old(rows), id, k);
      }
    }
  }

  function ContractsOf(rows: seq<Row<Contract>>, objectId: Id): seq<Row<Contract>> {
    Where(rows, (c: Contract) => c.objectId == objectId)
  }

  function ActiveOf(rows: seq<Row<Contract>>): seq<Row<Contract>> {
    Where(rows, (c: Contract) => c.IsActive())
  }

  function PaymentsOf(rows: seq<Row<Payment>>, contractId: Id): seq<Row<Payment>> {
    Where(rows, (p: Payment) => p.contractId == contractId)
  }

  function ExpensesOf(rows: seq<Row<Expense>>, objectId: Id): seq<Row<Expense>> {
    Where(rows, (e: Expense) => e.objectId == objectId)
  }

  /** The stores, named as the cascade deletes touch them. */
  datatype StoreName = ObjectStore | ContractStore | PaymentStore | ExpenseStore

  /** One `delete(storeName, id)` as it was issued. */
  datatype Deletion = Deletion(store: StoreName, id: Id)

  function DeletionsOf<R>(store: StoreName, rows: seq<Row<R>>): (r: seq<Deletion>)
    ensures |r| == |rows|
    ensures forall k :: 0 <= k < |rows| ==> r[k] == Deletion(store, rows[k].id)
  {
    seq(|rows|, k requires 0 <= k < |rows| => Deletion(store, rows[k].id))
  }

  /** The deletes that `deleteContract` issues for each of `owned` in turn, while
      the payments are `payments`: its payments, then the contract. */
  function ContractCascade(owned: seq<Row<Contract>>, payments: seq<Row<Payment>>): seq<Deletion> {
    if owned == [] then []
    else
      var last := owned[|owned| - 1];
      ContractCascade(owned[..|owned| - 1], payments)
        + DeletionsOf(PaymentStore, PaymentsOf(payments, last.id)) + [Deletion(ContractStore, last.id)]
  }

  /** The whole database: the four stores of `RentTaxDB`. `deletions` records,
      for the specification only, every single-record delete in the order the
      methods issue them. */
  class Database {
    const objects: Table<RealtyObject>
    const contracts: Table<Contract>
    const payments: Table<Payment>
    const expenses: Table<Expense>
    ghost var deletions: seq<Deletion>

    ghost predicate Valid()
      reads this, objects, contracts, payments, expenses
    {
      objects.Valid() && contracts.Valid() && payments.Valid() && expenses.Valid()
    }

    constructor ()
      ensures Valid()
      ensures fresh(objects) && fresh(contracts) && fresh(payments) && fresh(expenses)
      ensures objects.rows == [] && contracts.rows == [] && payments.rows == [] && expenses.rows == []
      ensures objects.current == 1 && contracts.current == 1 && payments.current == 1 && expenses.current == 1
      ensures objects.issued == {} && contracts.issued == {} && payments.issued == {} && expenses.issued == {}
      ensures deletions == []
    {
      objects := new Table();
      contracts := new Table();
      payments := new Table();
      expenses := new Table();
      deletions := [];
    }

    /** `addObject`: the record, stamped with `createdAt`, under a new key. */
    method AddObject(realty: RealtyObject, now: Timestamp) returns (id: Id)
      requires Valid()
      modifies objects
      ensures Valid()
      ensures id !in IdsOf(old(objects.rows)) && id !in old(objects.issued)
      ensures id == old(objects.current) && objects.current == id + 1 && objects.issued == old(objects.issued) + {id}
      ensures objects.rows == old(objects.rows) + [Row(id, realty.(createdAt := Some(now)))]
    {
      id := objects.Add(realty.(createdAt := Some(now)));
    }

    /** `addContract`: `createdAt` is stamped and `isActive` is set to true after
        the caller's fields, so it wins over whatever the caller passed. The
        owning object is not looked up. */
    method AddContract(contract: Contract, now: Timestamp) returns (id: Id)
      requires Valid()
      modifies contracts
      ensures Valid()
      ensures id !in IdsOf(old(contracts.rows)) && id !in old(contracts.issued)
      ensures id == old(contracts.current) && contracts.current == id + 1 && contracts.issued == old(contracts.issued) + {id}
      ensures contracts.rows == old(contracts.rows) + [Row(id, contract.(createdAt := Some(now), isActive := Some(true)))]
      ensures contracts.Get(id).Some? && contracts.Get(id).value.IsActive()
    {
      id := contracts.Add(contract.(createdAt := Some(now), isActive := Some(true)));
    }

    /** `updateObject`: the whole record at `id` becomes `realty`. */
    method UpdateObject(id: Id, realty: RealtyObject)
      requires Valid()
      modifies objects
      ensures Valid()
      ensures objects.rows == Upsert(old(objects.rows), id, realty)
      ensures objects.Get(id) == Some(realty)
      ensures objects.current == (if old(objects.current) <= id then id + 1 else old(objects.current))
      ensures objects.issued == old(objects.issued)
    {
      objects.Put(id, realty);
    }

    /** `updateContract`: the whole record at `id` becomes `contract`; nothing
        re-stamps `isActive` or `createdAt`. */
    method UpdateContract(id: Id, contract: Contract)
      requires Valid()
      modifies contracts
      ensures Valid()
      ensures contracts.rows == Upsert(old(contracts.rows), id, contract)
      ensures contracts.Get(id) == Some(contract)
      ensures contracts.current == (if old(contracts.current) <= id then id + 1 else old(contracts.current))
      ensures contracts.issued == old(contracts.issued)
    {
      contracts.Put(id, contract);
    }

    /** `addPayment`: the owning contract is not looked up. */
    method AddPayment(payment: Payment, now: Timestamp) returns (id: Id)
      requires Valid()
      modifies payments
      ensures Valid()
      ensures id !in IdsOf(old(payments.rows)) && id !in old(payments.issued)
      ensures id == old(payments.current) && payments.current == id + 1 && payments.issued == old(payments.issued) + {id}
      ensures payments.rows == old(payments.rows) + [Row(id, payment.(createdAt := Some(now)))]
    {
      id := payments.Add(payment.(createdAt := Some(now)));
    }

    /** `addExpense`: the owning object is not looked up. */
    method AddExpense(expense: Expense, now: Timestamp) returns (id: Id)
      requires Valid()
      modifies expenses
      ensures Valid()
      ensures id !in IdsOf(old(expenses.rows)) && id !in old(expenses.issued)
      ensures id == old(expenses.current) && expenses.current == id + 1 && expenses.issued == old(expenses.issued) + {id}
      ensures expenses.rows == old(expenses.rows) + [Row(id, expense.(createdAt := Some(now)))]
    {
      id := expenses.Add(expense.(createdAt := Some(now)));
    }

    /** `getContractsByObject`: the contracts whose `objectId` is the argument. */
    function GetContractsByObject(objectId: Id): (r: seq<Row<Contract>>)
      reads contracts
      ensures forall row :: row in r <==> row in contracts.rows && row.value.objectId == objectId
      ensures Ascending(contracts.rows) ==> Ascending(r)
    {
      ContractsOf(contracts.rows, objectId)
    }

    /** `getActiveContracts`: the contracts whose `isActive` is truthy. */
    function GetActiveContracts(): (r: seq<Row<Contract>>)
      reads contracts
      ensures forall row :: row in r <==> row in contracts.rows && row.value.IsActive()
      ensures Ascending(contracts.rows) ==> Ascending(r)
    {
      ActiveOf(contracts.rows)
    }

    /** `getPaymentsByContract`: the payments whose `contractId` is the argument. */
    function GetPaymentsByContract(contractId: Id): (r: seq<Row<Payment>>)
      reads payments
      ensures forall row :: row in r <==> row in payments.rows && row.value.contractId == contractId
      ensures Ascending(payments.rows) ==> Ascending(r)
    {
      PaymentsOf(payments.rows, contractId)
    }

    /** `getExpensesByObject`: the expenses whose `objectId` is the argument. */
    function GetExpensesByObject(objectId: Id): (r: seq<Row<Expense>>)
      reads expenses
      ensures forall row :: row in r <==> row in expenses.rows && row.value.objectId == objectId
      ensures Ascending(expenses.rows) ==> Ascending(r)
    {
      ExpensesOf(expenses.rows, objectId)
    }

    /** `getRecentPayments(limit)`: the payments newest first, cut by
        `slice(0, limit)`; they are the newest ones stored. */
    function GetRecentPayments(limit: int := 10): (r: seq<Row<Payment>>)
      reads payments
      ensures 0 <= limit ==> |r| == if limit < |payments.rows| then limit else |payments.rows|
      ensures limit < 0 ==> |r| == if |payments.rows| + limit < 0 then 0 else |payments.rows| + limit
      ensures NewestFirst(r)
      ensures multiset(r) <= multiset(payments.rows)
      ensures forall x, y :: x in r && y in payments.rows && y !in r ==> y.value.date <= x.value.date
    {
      var sorted := SortNewestFirst(payments.rows);
      var r := sorted[..SliceEnd(|sorted|, limit)];
      RecentAreNewest(payments.rows, sorted, |r|);
      r
    }

    /** `deletePayment`. */
    method DeletePayment(id: Id)
      requires Valid()
      modifies this, payments
      ensures Valid()
      ensures payments.rows == Remove(old(payments.rows), id)
      ensures payments.current == old(payments.current) && payments.issued == old(payments.issued)
      ensures deletions == old(deletions) + [Deletion(PaymentStore, id)]
    {
      payments.Delete(id);
      deletions := deletions + [Deletion(PaymentStore, id)];
    }

    /** `deleteExpense`. */
    method DeleteExpense(id: Id)
      requires Valid()
      modifies this, expenses
      ensures Valid()
      ensures expenses.rows == Remove(old(expenses.rows), id)
      ensures expenses.current == old(expenses.current) && expenses.issued == old(expenses.issued)
      ensures deletions == old(deletions) + [Deletion(ExpenseStore, id)]
    {
      expenses.Delete(id);
      deletions := deletions + [Deletion(ExpenseStore, id)];
    }

    /** The loop `for (const payment of payments) await this.deletePayment(payment.id)`. */
    method DeletePayments(owned: seq<Row<Payment>>)
      requires Valid()
      requires forall row :: row in owned ==> row in payments.rows
      modifies this, payments
      ensures Valid()
      ensures forall row :: row in payments.rows <==> row in old(payments.rows) && row !in owned
      ensures payments.current == old(payments.current) && payments.issued == old(payments.issued)
      ensures deletions == old(deletions) + DeletionsOf(PaymentStore, owned)
    {
      var i := 0;
      while i < |owned|
        invariant 0 <= i <= |owned|
        invariant Valid()
        invariant forall row :: row in payments.rows <==> row in old(payments.rows) && row !in owned[..i]
        invariant payments.current == old(payments.current) && payments.issued == old(payments.issued)
        invariant deletions == old(deletions) + DeletionsOf(PaymentStore, owned[..i])
      {
        ghost var before := payments.rows;
        DeletePayment(owned[i].id);
        RemoveNext(old(payments.rows), before, payments.rows, owned, i);
        DeletionsOfSnoc(PaymentStore, owned, i);
        i := i + 1;
      }
      assert owned[..i] == owned;
    }

    /** `deleteContract`: first each payment of the contract, one at a time,
        then the contract itself. */
    method DeleteContract(id: Id)
      requires Valid()
      modifies this, contracts, payments
      ensures Valid()
      ensures contracts.rows == Remove(old(contracts.rows), id)
      ensures forall row :: row in payments.rows <==> row in old(payments.rows) && row.value.contractId != id
      ensures forall row :: row in payments.rows ==> row.value.contractId != id
      ensures contracts.current == old(contracts.current) && contracts.issued == old(contracts.issued)
      ensures payments.current == old(payments.current) && payments.issued == old(payments.issued)
      ensures deletions == old(deletions) + DeletionsOf(PaymentStore, old(GetPaymentsByContract(id)))
                           + [Deletion(ContractStore, id)]
    {
      var owned := GetPaymentsByContract(id);
      DeletePayments(owned);
      contracts.Delete(id);
      deletions := deletions + [Deletion(ContractStore, id)];
    }

    /** The loop `for (const expense of expenses) await this.deleteExpense(expense.id)`. */
    method DeleteExpenses(owned: seq<Row<Expense>>)
      requires Valid()
      requires forall row :: row in owned ==> row in expenses.rows
      modifies this, expenses
      ensures Valid()
      ensures forall row :: row in expenses.rows <==> row in old(expenses.rows) && row !in owned
      ensures expenses.current == old(expenses.current) && expenses.issued == old(expenses.issued)
      ensures deletions == old(deletions) + DeletionsOf(ExpenseStore, owned)
    {
      var i := 0;
      while i < |owned|
        invariant 0 <= i <= |owned|
        invariant Valid()
        invariant forall row :: row in expenses.rows <==> row in old(expenses.rows) && row !in owned[..i]
        invariant expenses.current == old(expenses.current) && expenses.issued == old(expenses.issued)
        invariant deletions == old(deletions) + DeletionsOf(ExpenseStore, owned[..i])
      {
        ghost var before := expenses.rows;
        DeleteExpense(owned[i].id);
        RemoveNext(old(expenses.rows), before, expenses.rows, owned, i);
        DeletionsOfSnoc(ExpenseStore, owned, i);
        i := i + 1;
      }
      assert owned[..i] == owned;
    }

    /** The loop `for (const contract of contracts) await this.deleteContract(contract.id)`. */
    method DeleteContracts(owned: seq<Row<Contract>>)
      requires Valid()
      requires Ascending(owned) && forall row :: row in owned ==> row in contracts.rows
      modifies this, contracts, payments
      ensures Valid()
      ensures forall row :: row in contracts.rows <==> row in old(contracts.rows) && row !in owned
      ensures forall row :: row in payments.rows <==> row in old(payments.rows) && row.value.contractId !in IdsOf(owned)
      ensures contracts.current == old(contracts.current) && contracts.issued == old(contracts.issued)
      ensures payments.current == old(payments.current) && payments.issued == old(payments.issued)
      ensures deletions == old(deletions) + ContractCascade(owned, old(payments.rows))
    {
      var i := 0;
      while i < |owned|
        invariant 0 <= i <= |owned|
        invariant Valid()
        invariant forall row :: row in contracts.rows <==> row in old(contracts.rows) && row !in owned[..i]
        invariant forall row :: row in payments.rows <==> row in old(payments.rows) && row.value.contractId !in IdsOf(owned[..i])
        invariant contracts.current == old(contracts.current) && contracts.issued == old(contracts.issued)
        invariant payments.current == old(payments.current) && payments.issued == old(payments.issued)
        invariant deletions == old(deletions) + ContractCascade(owned[..i], old(payments.rows))
      {
        ghost var before := contracts.rows;
        ghost var paid := payments.rows;
        ghost var logged := deletions;
        DeleteContract(owned[i].id);
        RemoveNext(old(contracts.rows), before, contracts.rows, owned, i);
        PaymentStep(old(payments.rows), paid, payments.rows, owned, i);
        IdsOfSnoc(owned, i);
        PaymentsOfUnaffected(old(payments.rows), paid, IdsOf(owned[..i]), owned[i].id);
        LogStep(old(payments.rows), paid, old(deletions), logged, deletions, owned, i);
        i := i + 1;
      }
      assert owned[..i] == owned;
    }

    /** `deleteObject`: first each contract of the object (each with its
        payments), then each expense of the object, then the object. */
    method DeleteObject(id: Id)
      requires Valid()
      modifies this, objects, contracts, payments, expenses
      ensures Valid()
      ensures objects.rows == Remove(old(objects.rows), id)
      ensures forall row :: row in contracts.rows <==> row in old(contracts.rows) && row.value.objectId != id
      ensures forall row :: row in expenses.rows <==> row in old(expenses.rows) && row.value.objectId != id
      ensures forall row :: row in payments.rows <==>
                row in old(payments.rows) && row.value.contractId !in IdsOf(old(GetContractsByObject(id)))
      ensures objects.current == old(objects.current) && objects.issued == old(objects.issued)
      ensures contracts.current == old(contracts.current) && contracts.issued == old(contracts.issued)
      ensures payments.current == old(payments.current) && payments.issued == old(payments.issued)
      ensures expenses.current == old(expenses.current) && expenses.issued == old(expenses.issued)
      ensures deletions == old(deletions)
                           + ContractCascade(old(GetContractsByObject(id)), old(payments.rows))
                           + DeletionsOf(ExpenseStore, old(GetExpensesByObject(id)))
                           + [Deletion(ObjectStore, id)]
    {
      var owned := GetContractsByObject(id);
      DeleteContracts(owned);
      var spent := GetExpensesByObject(id);
      DeleteExpenses(spent);
      objects.Delete(id);
      deletions := deletions + [Deletion(ObjectStore, id)];
    }
  }

  lemma DeletionsOfSnoc<R>(store: StoreName, rows: seq<Row<R>>, i: nat)
    requires i < |rows|
    ensures DeletionsOf(store, rows[..i + 1]) == DeletionsOf(store, rows[..i]) + [Deletion(store, rows[i].id)]
  {
  }

  lemma IdsOfSnoc<R>(rows: seq<Row<R>>, i: nat)
    requires i < |rows|
    ensures IdsOf(rows[..i + 1]) == IdsOf(rows[..i]) + {rows[i].id}
    ensures Ascending(rows) ==> rows[i].id !in IdsOf(rows[..i])
  {
    assert rows[..i + 1] == rows[..i] + [rows[i]];
  }

  /** One turn of the loop in `DeleteContracts`, for the payments: after the
      payments of `owned[i]` go, those of `owned[..i + 1]` are gone. */
  lemma PaymentStep(p0: seq<Row<Payment>>, p1: seq<Row<Payment>>, p2: seq<Row<Payment>>,
                    owned: seq<Row<Contract>>, i: nat)
    requires i < |owned|
    requires forall row :: row in p1 <==> row in p0 && row.value.contractId !in IdsOf(owned[..i])
    requires forall row :: row in p2 <==> row in p1 && row.value.contractId != owned[i].id
    ensures forall row :: row in p2 <==> row in p0 && row.value.contractId !in IdsOf(owned[..i + 1])
  {
    IdsOfSnoc(owned, i);
  }

  /** One turn of the loop in `DeleteContracts`, for the log: the deletes of
      `owned[i]` are those its cascade names on the starting payments. */
  lemma LogStep(p0: seq<Row<Payment>>, p1: seq<Row<Payment>>,
                d0: seq<Deletion>, d1: seq<Deletion>, d2: seq<Deletion>,
                owned: seq<Row<Contract>>, i: nat)
    requires i < |owned| && PaymentsOf(p1, owned[i].id) == PaymentsOf(p0, owned[i].id)
    requires d1 == d0 + ContractCascade(owned[..i], p0)
    requires d2 == d1 + DeletionsOf(PaymentStore, PaymentsOf(p1, owned[i].id)) + [Deletion(ContractStore, owned[i].id)]
    ensures d2 == d0 + ContractCascade(owned[..i + 1], p0)
  {
    CascadeSnoc(owned, i, p0);
    var cc, x, y := ContractCascade(owned[..i], p0), DeletionsOf(PaymentStore, PaymentsOf(p0, owned[i].id)),
                    [Deletion(ContractStore, owned[i].id)];
    assert d2 == d0 + cc + x + y;
    assert d0 + cc + x + y == d0 + (cc + x + y);
  }

  lemma CascadeSnoc(owned: seq<Row<Contract>>, i: nat, payments: seq<Row<Payment>>)
    requires i < |owned|
    ensures ContractCascade(owned[..i + 1], payments)
            == ContractCascade(owned[..i], payments)
               + DeletionsOf(PaymentStore, PaymentsOf(payments, owned[i].id)) + [Deletion(ContractStore, owned[i].id)]
  {
    var done := owned[..i + 1];
    assert done[..|done| - 1] == owned[..i] && done[|done| - 1] == owned[i];
  }

  /** Deleting the payments of other contracts leaves the payments of
      `contractId` as they were. */
  lemma PaymentsOfUnaffected(start: seq<Row<Payment>>, now: seq<Row<Payment>>, gone: set<Id>, contractId: Id)
    requires Ascending(start) && Ascending(now) && contractId !in gone
    requires forall row :: row in now <==> row in start && row.value.contractId !in gone
    ensures PaymentsOf(now, contractId) == PaymentsOf(start, contractId)
  {
    AscendingUnique(PaymentsOf(now, contractId), PaymentsOf(start, contractId));
  }

  /** Non-increasing dates: newest first. */
  ghost predicate NewestFirst(rows: seq<Row<Payment>>) {
    forall i, j :: 0 <= i < j < |rows| ==> rows[i].value.date >= rows[j].value.date
  }

  /** Places `p` before the first row that is not newer than it. */
  function InsertNewestFirst(p: Row<Payment>, sorted: seq<Row<Payment>>): (r: seq<Row<Payment>>)
    ensures multiset(r) == multiset(sorted) + multiset{p}
    ensures forall x :: x in r ==> x in sorted || x == p
  {
    if sorted == [] || sorted[0].value.date <= p.value.date then
      [p] + sorted
    else
      assert sorted == [sorted[0]] + sorted[1..];
      [sorted[0]] + InsertNewestFirst(p, sorted[1..])
  }

  lemma ConsNewestFirst(head: Row<Payment>, tail: seq<Row<Payment>>)
    requires NewestFirst(tail)
    requires forall x :: x in tail ==> x.value.date <= head.value.date
    ensures NewestFirst([head] + tail)
  {
    var r := [head] + tail;
    forall i, j | 0 <= i < j < |r| ensures r[i].value.date >= r[j].value.date {
      if i == 0 { assert r[j] in tail; }
      else { assert r[i] == tail[i - 1] && r[j] == tail[j - 1]; }
    }
  }

  lemma {:induction false} InsertKeepsNewestFirst(p: Row<Payment>, sorted: seq<Row<Payment>>)
    requires NewestFirst(sorted)
    ensures NewestFirst(InsertNewestFirst(p, sorted))
  {
    if sorted == [] || sorted[0].value.date <= p.value.date {
      ConsNewestFirst(p, sorted);
    } else {
      var tail := InsertNewestFirst(p, sorted[1..]);
      InsertKeepsNewestFirst(p, sorted[1..]);
      forall x | x in tail ensures x.value.date <= sorted[0].value.date {
        if x != p {
          var k :| 0 <= k < |sorted[1..]| && sorted[1..][k] == x;
          assert sorted[k + 1] == x;
        }
      }
      ConsNewestFirst(sorted[0], tail);
    }
  }

  /** `Array.prototype.sort` with the comparator `date(b) - date(a)`: a stable
      sort, newest first. */
  function SortNewestFirst(rows: seq<Row<Payment>>): (r: seq<Row<Payment>>)
    ensures multiset(r) == multiset(rows)
    ensures NewestFirst(r)
  {
    if rows == [] then []
    else
      assert rows == [rows[0]] + rows[1..];
      InsertKeepsNewestFirst(rows[0], SortNewestFirst(rows[1..]));
      InsertNewestFirst(rows[0], SortNewestFirst(rows[1..]))
  }

  /** A prefix of the sorted payments holds the newest ones. */
  lemma RecentAreNewest(rows: seq<Row<Payment>>, sorted: seq<Row<Payment>>, n: nat)
    requires multiset(sorted) == multiset(rows) && NewestFirst(sorted) && n <= |sorted|
    ensures multiset(sorted[..n]) <= multiset(rows)
    ensures forall x, y :: x in sorted[..n] && y in rows && y !in sorted[..n] ==> y.value.date <= x.value.date
  {
    assert sorted == sorted[..n] + sorted[n..];
    forall x, y | x in sorted[..n] && y in rows && y !in sorted[..n]
      ensures y.value.date <= x.value.date
    {
      assert y in multiset(sorted);
      assert y in sorted[n..];
      var i :| 0 <= i < n && sorted[i] == x;
      var j :| n <= j < |sorted| && sorted[j] == y;
    }
  }
}
