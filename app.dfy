/** The helpers of the application shell (js/app.js): the digits-only input
    filter, the paste splice, the keydown rule, the object-type labels, what
    the dashboard shows and the guard of `saveContract`. */
module App {
  import opened Wrappers
  import opened Records
  import opened Store
  import opened Calculator

  /** `\d` in a JavaScript regular expression: an ASCII digit, `[0-9]`. */
  predicate IsDigit(c: char) {
    '0' <= c <= '9'
  }

  /** `s.replace(/[^\d]/g, '')`: the digits of `s`, in order. */
  function DigitsOnly(s: string): (r: string)
    ensures forall k :: 0 <= k < |r| ==> IsDigit(r[k])
    ensures |r| <= |s| && (|r| == |s| <==> r == s)
    ensures (forall k :: 0 <= k < |s| ==> IsDigit(s[k])) <==> r == s
  {
    if s == [] then []
    else if IsDigit(s[0]) then [s[0]] + DigitsOnly(s[1..])
    else DigitsOnly(s[1..])
  }

  /** Every digit occurs in the result as often as in `s`, and nothing else
      occurs in it. */
  lemma {:induction false} DigitsOnlyKeepsEveryDigit(s: string)
    ensures forall c :: multiset(DigitsOnly(s))[c] == if IsDigit(c) then multiset(s)[c] else 0
  {
    if s != [] {
      DigitsOnlyKeepsEveryDigit(s[1..]);
      assert s == [s[0]] + s[1..];
    }
  }

  /** Filtering commutes with concatenation, so the digits keep their order. */
  lemma {:induction false} DigitsOnlyAppend(a: string, b: string)
    ensures DigitsOnly(a + b) == DigitsOnly(a) + DigitsOnly(b)
  {
    if a != [] {
      assert (a + b)[0] == a[0] && (a + b)[1..] == a[1..] + b;
      DigitsOnlyAppend(a[1..], b);
      if IsDigit(a[0]) {
        assert [a[0]] + (DigitsOnly(a[1..]) + DigitsOnly(b)) == [a[0]] + DigitsOnly(a[1..]) + DigitsOnly(b);
      }
    } else {
      assert a + b == b;
    }
  }

  /** Filtering twice filters nothing more. */
  lemma DigitsOnlyIdempotent(s: string)
    ensures DigitsOnly(DigitsOnly(s)) == DigitsOnly(s)
  {
  }

  /** The value of a text field together with its caret position. */
  datatype Field = Field(value: string, cursor: int)

  /** The `input` handler: when filtering removed something, the field gets the
      filtered value and the caret moves back by the number of characters
      removed; otherwise (`None`) the field is left alone. */
  function InputCleanup(value: string, cursor: int): (r: Option<Field>)
    ensures r.None? <==> forall k :: 0 <= k < |value| ==> IsDigit(value[k])
    ensures r.Some? ==> r.value.value == DigitsOnly(value) && |r.value.value| < |value|
    ensures r.Some? ==> r.value.cursor == cursor - (|value| - |r.value.value|)
  {
    var cleanValue := DigitsOnly(value);
    if value != cleanValue then
      Some(Field(cleanValue, cursor - (|value| - |cleanValue|)))
    else None
  }

  /** When every removed character stood before the caret, which is the case
      for text just typed, pasted or dropped at the caret, the caret lands
      after the same digits as before. */
  lemma CleanupKeepsCaretAfterSameDigits(value: string, cursor: int)
    requires 0 <= cursor <= |value|
    requires forall k :: cursor <= k < |value| ==> IsDigit(value[k])
    requires InputCleanup(value, cursor).Some?
    ensures var f := InputCleanup(value, cursor).value;
      0 <= f.cursor <= |f.value| &&
      f.value[..f.cursor] == DigitsOnly(value[..cursor]) &&
      f.value[f.cursor..] == value[cursor..]
  {
    assert value == value[..cursor] + value[cursor..];
    DigitsOnlyAppend(value[..cursor], value[cursor..]);
    assert DigitsOnly(value[cursor..]) == value[cursor..];
  }

  /** The `paste` handler: the digits of the clipboard text replace the
      selection `[start, end)` and the caret goes right after them; clipboard
      text without digits leaves the field alone (`None`). The browser keeps
      `start <= end <= |value|`. */
  function Paste(value: string, start: int, end: int, pasted: string): (r: Option<Field>)
    requires 0 <= start <= end <= |value|
    ensures r.None? <==> DigitsOnly(pasted) == []
    ensures r.Some? ==> var digits := DigitsOnly(pasted);
      |r.value.value| == |value| - (end - start) + |digits| &&
      r.value.value[..start] == value[..start] &&
      r.value.value[start..start + |digits|] == digits &&
      r.value.value[start + |digits|..] == value[end..] &&
      r.value.cursor == start + |digits|
    ensures r.Some? && (forall k :: 0 <= k < |value| ==> IsDigit(value[k])) ==>
      forall k :: 0 <= k < |r.value.value| ==> IsDigit(r.value.value[k])
  {
    var numbersOnly := DigitsOnly(pasted);
    if numbersOnly != [] then
      var newValue := value[..start] + numbersOnly + value[end..];
      Some(Field(newValue, start + |numbersOnly|))
    else None
  }

  /** Keys the `keydown` handler lets through besides digits. */
  const AllowedKeys: seq<string> :=
    ["Backspace", "Delete", "Tab", "ArrowLeft", "ArrowRight",
     "ArrowUp", "ArrowDown", "Home", "End", "Enter"]

  /** Letters let through together with Ctrl (select all, copy, paste, cut). */
  const CtrlKeys: seq<string> := ["a", "c", "v", "x"]

  /** Whether `keydown` leaves the key alone (true) or calls `preventDefault`. */
  function KeyAllowed(key: string, ctrl: bool): (ok: bool)
    ensures ctrl && key in CtrlKeys ==> ok
    ensures key in AllowedKeys ==> ok
    ensures |key| == 1 && IsDigit(key[0]) ==> ok
    ensures ok ==> (ctrl && key in CtrlKeys) || key in AllowedKeys || (|key| == 1 && IsDigit(key[0]))
  {
    if ctrl && key in CtrlKeys then true
    else key in AllowedKeys || (|key| == 1 && IsDigit(key[0]))
  }

  /** A printable character gets through without Ctrl exactly when it is a
      digit. */
  lemma TypedCharacterAllowedIffDigit(c: char)
    ensures KeyAllowed([c], false) <==> IsDigit(c)
  {
    assert forall k :: 0 <= k < |AllowedKeys| ==> |AllowedKeys[k]| > 1;
  }

  /** With Ctrl, a letter other than a, c, v and x is still refused. */
  lemma CtrlLetterAllowedIffClipboardKey(c: char)
    requires 'a' <= c <= 'z'
    ensures KeyAllowed([c], true) <==> [c] in CtrlKeys
  {
    assert forall k :: 0 <= k < |AllowedKeys| ==> |AllowedKeys[k]| > 1;
  }

  /** `getObjectTypeText`: the four known types get their labels, any other
      value comes back as it is. */
  function GetObjectTypeText(objectType: string): (text: string)
    ensures objectType == "apartment" ==> text == "Квартира"
    ensures objectType == "house" ==> text == "Дом"
    ensures objectType == "room" ==> text == "Комната"
    ensures objectType == "commercial" ==> text == "Коммерческая"
    ensures objectType !in {"apartment", "house", "room", "commercial"} ==> text == objectType
  {
    match objectType
    case "apartment" => "Квартира"
    case "house" => "Дом"
    case "room" => "Комната"
    case "commercial" => "Коммерческая"
    case _ => objectType
  }

  /** A label is never itself a type, so labelling twice changes nothing, and
      different known types get different labels. */
  lemma ObjectTypeTextStable(objectType: string, other: string)
    ensures GetObjectTypeText(GetObjectTypeText(objectType)) == GetObjectTypeText(objectType)
    ensures GetObjectTypeText(objectType) == GetObjectTypeText(other) && objectType != other ==>
      objectType !in {"apartment", "house", "room", "commercial"} ||
      other !in {"apartment", "house", "room", "commercial"}
  {
  }

  /** Number of upcoming payments the dashboard lists. */
  const UpcomingShown: nat := 5

  /** What `loadDashboard` writes into the page. */
  datatype Dashboard = Dashboard(
    totalProfit: real,
    activeObjects: nat,
    totalObjects: nat,
    nextTax: real,
    upcomingCount: nat,
    upcoming: seq<Row<Contract>>,
    recent: seq<Row<Payment>>)

  /** `loadDashboard`: the overall figures at the rate the calculator has
      selected, the count of active contracts with at most the first five of
      them listed, and the five most recent payments. */
  method LoadDashboard(db: Database, calculator: TaxCalculator) returns (d: Dashboard)
    ensures d.totalObjects == d.activeObjects == |db.objects.rows|
    ensures d.nextTax == IncomeOver(db.contracts.rows, db.objects.rows) * TaxRate(calculator.tenantType)
    ensures d.totalProfit == IncomeOver(db.contracts.rows, db.objects.rows) - d.nextTax
                             - SpentOver(db.expenses.rows, db.objects.rows)
    ensures d.upcomingCount == |db.GetActiveContracts()|
    ensures |d.upcoming| == if d.upcomingCount < UpcomingShown then d.upcomingCount else UpcomingShown
    ensures d.upcoming == db.GetActiveContracts()[..|d.upcoming|]
    ensures forall row :: row in d.upcoming ==> row in db.contracts.rows && row.value.IsActive()
    ensures d.recent == db.GetRecentPayments(5)
  {
    var objects := db.objects.rows;
    var contracts := db.contracts.rows;
    var payments := db.GetRecentPayments(5);
    var overallCalculation := TaxCalculator.CalculateOverall(db, calculator.tenantType);
    var activeContracts := ActiveOf(contracts);
    var shown := if |activeContracts| < UpcomingShown then |activeContracts| else UpcomingShown;
    assert forall row :: row in activeContracts[..shown] ==> row in activeContracts;
    d := Dashboard(overallCalculation.netProfit, |objects|, |objects|, overallCalculation.taxAmount,
                   |activeContracts|, activeContracts[..shown], payments);
  }

  /** `loadAnalytics`: the overall figures at the default rate, whatever the
      calculator has selected. */
  method LoadAnalytics(db: Database) returns (s: Summary)
    ensures s.totalIncome == IncomeOver(db.contracts.rows, db.objects.rows)
    ensures s.totalExpenses == SpentOver(db.expenses.rows, db.objects.rows)
    ensures s.taxAmount == s.totalIncome * 0.04
    ensures s.netProfit == s.totalIncome - s.taxAmount - s.totalExpenses
  {
    s := TaxCalculator.CalculateOverall(db);
  }

  /** The object cards of `loadObjects` are computed at the default rate too. */
  lemma ObjectCardsUseDefaultRate(db: Database, objectId: Id)
    ensures TaxCalculator.CalculateForObject(db, objectId).taxRate == 4.0
    ensures TaxCalculator.CalculateForObject(db, objectId).taxAmount
            == RentOf(db.contracts.rows, {objectId}) * 0.04
  {
  }

  /** The contract form as `saveContract` reads it. */
  datatype ContractForm = ContractForm(
    objectId: Id,
    tenantName: string,
    startDate: string,
    endDate: string,
    rentAmount: real,
    paymentSchedule: string)
  {
    /** `contractData`: the form's six fields and nothing else. */
    function Record(): (c: Contract)
      ensures c.objectId == objectId && c.tenantName == tenantName && c.rentAmount == rentAmount
      ensures c.startDate == startDate && c.endDate == endDate && c.paymentSchedule == paymentSchedule
      ensures c.isActive == None && c.createdAt == None
    {
      Contract(objectId, tenantName, startDate, endDate, rentAmount, paymentSchedule, None, None)
    }
  }

  datatype SaveOutcome = NoObjects | Updated(id: Id) | Added(id: Id)

  /** `saveContract`: refused while there are no objects; otherwise the form
      replaces the contract being edited, or is added as a new one. The chosen
      object is not checked to exist. */
  method SaveContract(db: Database, contractId: Option<Id>, form: ContractForm, now: Timestamp)
    returns (outcome: SaveOutcome)
    requires db.Valid()
    modifies db.contracts
    ensures db.Valid()
    ensures old(db.objects.rows) == [] <==> outcome == NoObjects
    ensures outcome == NoObjects ==>
              && db.contracts.rows == old(db.contracts.rows)
              && db.contracts.current == old(db.contracts.current)
              && db.contracts.issued == old(db.contracts.issued)
    ensures outcome.Updated? ==>
              && contractId == Some(outcome.id)
              && db.contracts.rows == Upsert(old(db.contracts.rows), outcome.id, form.Record())
              && db.contracts.Get(outcome.id).Some?
              && !db.contracts.Get(outcome.id).value.IsActive()
              && db.contracts.current == (if old(db.contracts.current) <= outcome.id then outcome.id + 1 else old(db.contracts.current))
              && db.contracts.issued == old(db.contracts.issued)
    ensures outcome.Added? ==>
              && contractId == None
              && outcome.id !in IdsOf(old(db.contracts.rows)) && outcome.id !in old(db.contracts.issued)
              && outcome.id == old(db.contracts.current) && db.contracts.current == outcome.id + 1
              && db.contracts.issued == old(db.contracts.issued) + {outcome.id}
              && db.contracts.rows == old(db.contracts.rows)
                   + [Row(outcome.id, form.Record().(createdAt := Some(now), isActive := Some(true)))]
  {
    var objects := db.objects.rows;
    if |objects| == 0 {
      return NoObjects;
    }
    var contractData := form.Record();
    if contractId.Some? {
      db.UpdateContract(contractId.value, contractData);
      outcome := Updated(contractId.value);
    } else {
      var id := db.AddContract(contractData, now);
      outcome := Added(id);
    }
  }
}
