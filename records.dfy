/** The records kept in the four object stores, and the rows of a store:
    a key together with the record stored under it, listed in key order. */
module Records {
  import opened Wrappers

  type Id = int

  /** An ISO-8601 instant, as `new Date().toISOString()` yields it. */
  type Timestamp = string

  /** A rental property (store `objects`). `objectType` is the source's `type`. */
  datatype RealtyObject = RealtyObject(
    name: string,
    address: string,
    objectType: string,
    baseRentRate: real,
    createdAt: Option<Timestamp>)

  /** A lease (store `contracts`). `isActive` and `createdAt` are present only
      when the record was written with them; an update replaces the whole record. */
  datatype Contract = Contract(
    objectId: Id,
    tenantName: string,
    startDate: string,
    endDate: string,
    rentAmount: real,
    paymentSchedule: string,
    isActive: Option<bool>,
    createdAt: Option<Timestamp>)
  {
    /** JavaScript truthiness of `contract.isActive`: an absent field is falsy. */
    predicate IsActive() {
      isActive == Some(true)
    }
  }

  /** A payment under a contract (store `payments`); `date` is a comparable instant. */
  datatype Payment = Payment(
    contractId: Id,
    amount: real,
    date: int,
    createdAt: Option<Timestamp>)

  /** An expense of a property (store `expenses`). */
  datatype Expense = Expense(
    objectId: Id,
    amount: real,
    date: int,
    createdAt: Option<Timestamp>)

  /** A stored record together with its key (the store's key path is `id`). */
  datatype Row<R> = Row(id: Id, value: R)

  /** Keys strictly increase along the rows: the order in which an object store
      lists its records, and what makes every key occur at most once. */
  ghost predicate Ascending<R>(rows: seq<Row<R>>) {
    forall i, j :: 0 <= i < j < |rows| ==> rows[i].id < rows[j].id
  }

  function IdsOf<R(==)>(rows: seq<Row<R>>): set<Id> {
    set row | row in rows :: row.id
  }

  /** Two rows of an ascending sequence with the same key are the same row. */
  lemma AscendingKeysIdentify<R>(rows: seq<Row<R>>, a: Row<R>, b: Row<R>)
    requires Ascending(rows) && a in rows && b in rows && a.id == b.id
    ensures a == b
  {
    var i :| 0 <= i < |rows| && rows[i] == a;
    var j :| 0 <= j < |rows| && rows[j] == b;
    assert !(i < j) && !(j < i);
  }

  lemma HeadIsMember<R>(rows: seq<Row<R>>)
    ensures rows != [] ==> rows[0] in rows
  {
  }

  /** An ascending sequence of rows is determined by which rows it holds. */
  lemma {:induction false} AscendingUnique<R>(a: seq<Row<R>>, b: seq<Row<R>>)
    requires Ascending(a) && Ascending(b)
    requires forall row :: row in a <==> row in b
    ensures a == b
  {
    if a != [] {
      assert a[0] in b && b[0] in a;
      assert a[0] == b[0] by {
        var i :| 0 <= i < |b| && b[i] == a[0];
        var j :| 0 <= j < |a| && a[j] == b[0];
        AscendingKeysIdentify(a, a[0], b[0]);
      }
      forall row ensures row in a[1..] <==> row in b[1..] {
        if row in a[1..] {
          var k :| 1 <= k < |a| && a[k] == row;
          assert row.id > a[0].id && row in b;
          var m :| 0 <= m < |b| && b[m] == row;
          assert m != 0 && b[1..][m - 1] == row;
        }
        if row in b[1..] {
          var k :| 1 <= k < |b| && b[k] == row;
          assert row.id > b[0].id && row in a;
          var m :| 0 <= m < |a| && a[m] == row;
          assert m != 0 && a[1..][m - 1] == row;
        }
      }
      AscendingUnique(a[1..], b[1..]);
      assert a == [a[0]] + a[1..] && b == [b[0]] + b[1..];
    } else {
      HeadIsMember(b);
    }
  }

  /** The record stored under `id`, if any: IndexedDB `get`. */
  function Lookup<R(==)>(rows: seq<Row<R>>, id: Id): (r: Option<R>)
    ensures r.Some? ==> Row(id, r.value) in rows
    ensures r.None? ==> id !in IdsOf(rows)
  {
    if rows == [] then None
    else if rows[0].id == id then Some(rows[0].value)
    else Lookup(rows[1..], id)
  }

  /** In an ascending sequence the lookup finds exactly the stored row. */
  lemma LookupFinds<R>(rows: seq<Row<R>>, id: Id, v: R)
    requires Ascending(rows)
    ensures Lookup(rows, id) == Some(v) <==> Row(id, v) in rows
  {
    if Row(id, v) in rows {
      var r := Lookup(rows, id);
      if r.Some? {
        AscendingKeysIdentify(rows, Row(id, v), Row(id, r.value));
      }
    }
  }

  /** The rows to keep after a store receives `id := v` (IndexedDB `put`):
      the row with that key is replaced, or the row is inserted at its place. */
  function Upsert<R(==,!new)>(rows: seq<Row<R>>, id: Id, v: R): (r: seq<Row<R>>)
    requires Ascending(rows)
    ensures Ascending(r)
    ensures forall row :: row in r <==> (row in rows && row.id != id) || row == Row(id, v)
  {
    if rows == [] then [Row(id, v)]
    else if rows[0].id == id then
      assert forall k :: 1 <= k < |rows| ==> rows[k].id != id;
      [Row(id, v)] + rows[1..]
    else if id < rows[0].id then [Row(id, v)] + rows
    else
      var tail := Upsert(rows[1..], id, v);
      assert forall row :: row in tail ==> rows[0].id < row.id;
      [rows[0]] + tail
  }

  /** The rows left after a store deletes `id` (IndexedDB `delete`). */
  function Remove<R(==,!new)>(rows: seq<Row<R>>, id: Id): (r: seq<Row<R>>)
    requires Ascending(rows)
    ensures Ascending(r)
    ensures forall row :: row in r <==> row in rows && row.id != id
  {
    if rows == [] then []
    else
      var tail := Remove(rows[1..], id);
      assert forall row :: row in tail ==> rows[0].id < row.id;
      if rows[0].id == id then tail else [rows[0]] + tail
  }

  /** The rows whose record satisfies `keep`, in their order: `Array.filter`. */
  function Where<R(==,!new)>(rows: seq<Row<R>>, keep: R -> bool): (r: seq<Row<R>>)
    ensures |r| <= |rows|
    ensures forall row :: row in r <==> row in rows && keep(row.value)
    ensures Ascending(rows) ==> Ascending(r)
  {
    if rows == [] then []
    else
      var tail := Where(rows[1..], keep);
      assert Ascending(rows) ==> forall row :: row in tail ==> rows[0].id < row.id;
      if keep(rows[0].value) then [rows[0]] + tail else tail
  }

  /** Writing key `id` leaves the lookup of every other key as it was. */
  lemma {:induction false} UpsertElsewhere<R(!new)>(rows: seq<Row<R>>, id: Id, v: R, k: Id)
    requires Ascending(rows) && k != id
    ensures Lookup(Upsert(rows, id, v), k) == Lookup(rows, k)
  {
    if rows != [] {
      var up := Upsert(rows, id, v);
      if rows[0].id == id {
        assert up == [Row(id, v)] + rows[1..];
        assert up[1..] == rows[1..];
      } else if id < rows[0].id {
        assert up == [Row(id, v)] + rows;
        assert up[1..] == rows;
      } else {
        var tail := Upsert(rows[1..], id, v);
        assert up == [rows[0]] + tail;
        assert up[1..] == tail;
        UpsertElsewhere(rows[1..], id, v, k);
      }
    }
  }

  /** Removing key `id` leaves the lookup of every other key as it was. */
  lemma {:induction false} RemoveElsewhere<R(!new)>(rows: seq<Row<R>>, id: Id, k: Id)
    requires Ascending(rows) && k != id
    ensures Lookup(Remove(rows, id), k) == Lookup(rows, k)
  {
    if rows != [] {
      RemoveElsewhere(rows[1..], id, k);
      if rows[0].id != id {
        assert Remove(rows, id)[1..] == Remove(rows[1..], id);
      }
    }
  }

  /** One more step of deleting the rows of `owned`, one key at a time. */
  lemma RemoveNext<R>(start: seq<Row<R>>, before: seq<Row<R>>, after: seq<Row<R>>, owned: seq<Row<R>>, i: nat)
    requires Ascending(start) && i < |owned| && owned[i] in start
    requires forall row :: row in before <==> row in start && row !in owned[..i]
    requires forall row :: row in after <==> row in before && row.id != owned[i].id
    ensures forall row :: row in after <==> row in start && row !in owned[..i + 1]
  {
    assert owned[..i + 1] == owned[..i] + [owned[i]];
    forall row | row in start && row.id == owned[i].id
      ensures row == owned[i]
    {
      AscendingKeysIdentify(start, row, owned[i]);
    }
  }

  /** Deleting an absent key changes nothing. */
  lemma RemoveAbsent<R(!new)>(rows: seq<Row<R>>, id: Id)
    requires Ascending(rows) && id !in IdsOf(rows)
    ensures Remove(rows, id) == rows
  {
    AscendingUnique(Remove(rows, id), rows);
  }

  /** The end index `Array.prototype.slice(0, end)` stops at: a negative end
      counts from the back, and the result is clamped to the length. */
  function SliceEnd(len: nat, end: int): (k: nat)
    ensures k <= len
    ensures 0 <= end ==> k == if end < len then end else len
    ensures end < 0 ==> k == if len + end < 0 then 0 else len + end
  {
    if end < 0 then (if len + end < 0 then 0 else len + end)
    else if end < len then end else len
  }
}
