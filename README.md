# Rental-income bookkeeping: a verified model

This project models the core of a browser application that keeps a landlord's books, in Dafny. The landlord's records are properties ("objects"), leases ("contracts"), rent payments and expenses. The application keeps them in four IndexedDB object stores. The model covers four parts:

- **The record store** (`js/database.js`), modelled in `database.dfy` with `records.dfy`.
  - Each object store is a `Store.Table`, a class holding the rows in key order and the key generator's next number.
  - `Store.Database` holds the four tables.
  - It also carries the typed `add…`, `update…` and lookup operations and the getRecentPayments sort.
  - It carries the two cascade deletes. Deleting a contract deletes its payments first. Deleting an object deletes its contracts (each with its payments), then its expenses, then the object.
  - A ghost log records each single-record deletion in the order it happens.
- **The tax arithmetic** (`js/calculator.js`), in `calculator.dfy`.
  - The rate is 4 % for tenant type `physical` and 6 % for anything else.
  - Covered: the form calculation, the per-object figures, and the overall figures summed object by object.
- **The helpers of the application shell** (`js/app.js`), in `app.dfy`.
  - The input filters: digits only, paste and the `input` clean-up.
  - The keydown rule and the object-type labels.
  - What the dashboard and analytics pages compute.
  - The `saveContract` guard and its whole-record update.
- **The chart data** (`js/charts.js`), in `charts.dfy`.
  - The six-month label window of `groupByMonth`.
  - The per-object revenue series of `updateObjectsChart`.

Modelling decisions:

- Money is `real`. The rates are the exact rationals 0.04 and 0.06.
- Ids are `int`. Dates of payments and expenses are comparable `int`s.
- A text field is `string`. In the calculator form, a field that `parseFloat` cannot read is `None`, which `|| 0` turns into 0.
- The clock is a `now` parameter of the operations that stamp `createdAt`.
- `Math.random` and `new Date().getMonth()` are parameters of `groupByMonth`.
- The source is asynchronous. The model runs its steps in order.

## Model

| member | source | states |
|---|---|---|
| Records.Lookup | js/database.js:68-76 | a found record is stored under that key; a missing key is no stored key |
| Records.LookupFinds | js/database.js:68-76 | with keys unique, lookup yields `v` exactly when the row `(id, v)` is stored |
| Records.AscendingUnique | js/database.js:78-88 | two key-ordered row lists with the same rows are the same list, so `getAll` order is determined by the contents |
| Records.Upsert | js/database.js:90-98 | after a put the rows are the old rows with a different key plus exactly `(id, v)`, still in key order |
| Records.UpsertElsewhere | js/database.js:90-98 | a put leaves the record under every other key as it was |
| Records.Remove | js/database.js:100-108 | after a delete the rows are the old rows with a different key, still in key order |
| Records.RemoveElsewhere | js/database.js:100-108 | a delete leaves the record under every other key as it was |
| Records.RemoveAbsent | js/database.js:100-108 | deleting a key that is not stored changes nothing |
| Records.Where | js/database.js:154-162 | a filter keeps exactly the rows whose record passes, in order, never more than it had |
| Records.RemoveNext | js/database.js:129-131 | one turn of a deletion loop: the rows left are the rows before the loop minus the first `i + 1` children |
| Store.Table.constructor | js/database.js:24 | a new store is empty and its key generator starts at 1 |
| Store.Table.Get | js/database.js:68-76 | returns `Some(v)` exactly when `(id, v)` is stored, `None` exactly when the key is absent |
| Store.Table.Add | js/database.js:58-66 | the new key is the generator's number, is not a stored key and was never issued before (even after deletes); the record is appended and found under it |
| Store.Table.Put | js/database.js:90-98 | the record under `id` becomes exactly `value` (insert when absent), every other key keeps its record, and a key at or above the generator moves the generator past it |
| Store.Table.Delete | js/database.js:100-108 | the key is gone, every other key keeps its record, an absent key changes nothing, the generator is untouched |
| Store.Database.constructor | js/database.js:22-47 | four empty stores, each with its key generator at 1 and no key issued, and an empty deletion log |
| Store.Database.AddObject | js/database.js:111-116 | the object is stored under a fresh key with `createdAt` set to the clock; the key is the generator's number, which moves on by one and joins the issued keys, so no key is handed out twice even after deletes |
| Store.Database.AddContract | js/database.js:142-148 | the contract is stored under a fresh key with `createdAt` stamped and `isActive` true whatever the input said; its object is not checked; the key is the generator's number, which moves on by one and joins the issued keys, so no key is handed out twice even after deletes |
| Store.Database.UpdateObject | js/database.js:122-124 | the object under `id` becomes exactly the given record; the generator moves past `id` when `id` is at or above it, and the issued keys stay as they were |
| Store.Database.UpdateContract | js/database.js:164-166 | the contract under `id` becomes exactly the given record, losing `isActive` and `createdAt` unless the record has them; the generator moves past `id` when `id` is at or above it, and the issued keys stay as they were |
| Store.Database.AddPayment | js/database.js:179-184 | the payment is stored under a fresh key with `createdAt` stamped; its contract is not checked; the key is the generator's number, which moves on by one and joins the issued keys, so no key is handed out twice even after deletes |
| Store.Database.AddExpense | js/database.js:207-212 | the expense is stored under a fresh key with `createdAt` stamped; its object is not checked; the key is the generator's number, which moves on by one and joins the issued keys, so no key is handed out twice even after deletes |
| Store.Database.GetContractsByObject | js/database.js:154-157 | exactly the contracts whose `objectId` is the argument, in key order |
| Store.Database.GetActiveContracts | js/database.js:159-162 | exactly the contracts whose `isActive` is set, in key order |
| Store.Database.GetPaymentsByContract | js/database.js:190-193 | exactly the payments whose `contractId` is the argument, in key order |
| Store.Database.GetExpensesByObject | js/database.js:218-221 | exactly the expenses whose `objectId` is the argument, in key order |
| Store.Database.GetRecentPayments | js/database.js:195-200 | `min(limit, n)` stored payments for a non-negative limit (`n + limit`, at least 0, for a negative one), newest first, none older than a payment left out |
| Store.Database.DeletePayment | js/database.js:202-204 | delete on the payments store, logged |
| Store.Database.DeleteExpense | js/database.js:223-225 | delete on the expenses store, logged |
| Store.Database.DeletePayments | js/database.js:170-173 | the loop of `deleteContract`: every listed payment is gone, nothing else is, one log entry per payment in order |
| Store.Database.DeleteContract | js/database.js:168-176 | the contract is gone and so is every payment of it; other contracts and payments, objects and expenses are unchanged; the payments go before the contract |
| Store.Database.DeleteExpenses | js/database.js:133-136 | the expense loop of `deleteObject`: every listed expense is gone, nothing else is |
| Store.Database.DeleteContracts | js/database.js:128-131 | the contract loop of `deleteObject`: the listed contracts and all their payments are gone, one cascade after the other |
| Store.Database.DeleteObject | js/database.js:126-139 | the object, its contracts, their payments and its expenses are gone, everything else stays, and the log shows children deleted before parents |
| Store.DeletionsOfSnoc | js/database.js:129-136 | the log of a longer list extends the log of its prefix by one entry |
| Store.IdsOfSnoc | js/database.js:129-131 | the keys of a longer list are those of its prefix plus one; in key order the new key is not among them |
| Store.PaymentStep | js/database.js:129-131 | one contract cascade removes that contract's payments from what is left |
| Store.LogStep | js/database.js:129-131 | one contract cascade extends the log by that contract's payments and then the contract |
| Store.CascadeSnoc | js/database.js:129-131 | the cascade log of a longer list extends that of its prefix |
| Store.PaymentsOfUnaffected | js/database.js:129-131 | deleting other contracts' payments leaves a contract's payments as they were |
| Store.InsertNewestFirst | js/database.js:198 | inserting a payment keeps the same payments plus the new one |
| Store.ConsNewestFirst | js/database.js:198 | a payment at least as new as the head of a newest-first list can go in front |
| Store.InsertKeepsNewestFirst | js/database.js:198 | inserting into a newest-first list gives a newest-first list |
| Store.SortNewestFirst | js/database.js:198 | the sort is a permutation of the payments and is newest first |
| Store.RecentAreNewest | js/database.js:197-199 | a prefix of the sorted list holds no payment older than one it leaves out |
| Calculator.TaxRate | js/calculator.js:46 | 0.04 exactly for tenant type `physical`, 0.06 exactly for every other value |
| Calculator.Settle | js/calculator.js:47-49 | tax is income times the rate; profit plus tax plus expenses is income; with income at least 0, tax lies between 0 and income and profit is at most income minus expenses |
| Calculator.FilteredRent | js/calculator.js:81-85 | filtering by object and by `isActive` and summing equals the reference rent sum over all contracts |
| Calculator.FilteredSpent | js/calculator.js:82-86 | filtering by object and summing equals the reference expense sum |
| Calculator.TaxCalculator.constructor | js/calculator.js:2-5 | the tenant type starts as `physical` |
| Calculator.TaxCalculator.SelectTenantType | js/calculator.js:10-11 | the change handler sets the tenant type to the selected value |
| Calculator.TaxCalculator.GetCurrentTaxRate | js/calculator.js:123-125 | the rate as a percent, 4 or 6, agreeing with `TaxRate` |
| Calculator.TaxCalculator.TaxLabel | js/calculator.js:27-32 | the caption shows 4 % or 6 % exactly when the current rate is 4 or 6 |
| Calculator.TaxCalculator.Calculate | js/calculator.js:34-52 | income is rent plus additional income, expenses the four expense fields, an unreadable field counting as 0; tax and profit follow the settle rule at the selected rate |
| Calculator.TaxCalculator.CalculateForObject | js/calculator.js:80-99 | income is the rent of the object's active contracts, expenses all the object's expense amounts, and the rate is reported as a percent |
| Calculator.TaxCalculator.CalculateOverall | js/calculator.js:101-122 | the totals are the per-object totals summed over the stored objects, taxed once at the chosen rate |
| Calculator.OverallTaxIsSumOfObjectTaxes | js/calculator.js:106-113 | taxing the summed income equals summing the per-object taxes |
| Calculator.RentSplits | js/calculator.js:106-109 | the rent of two disjoint groups of objects adds up |
| Calculator.SpentSplits | js/calculator.js:106-109 | the expenses of two disjoint groups of objects add up |
| Calculator.OverallIncomeCountsStoredObjects | js/calculator.js:102-109 | the overall income counts each active contract of a stored object once and no contract of a missing object |
| Calculator.OverallExpensesCountStoredObjects | js/calculator.js:102-109 | the overall expenses count each expense of a stored object once and none of a missing object |
| Calculator.NoContractsNoRent | js/calculator.js:84-85 | objects without contracts earn 0 |
| Calculator.NoExpensesNothingSpent | js/calculator.js:86 | objects without expenses spend 0 |
| Calculator.UncountedContractAddsNothing | js/calculator.js:84-85 | an inactive contract, or one of another object, adds nothing to the rent |
| Calculator.EditedContractStopsCounting | js/calculator.js:84 | a contract rewritten without `isActive` earns nothing, as if deleted |
| Calculator.UnusedObjectYieldsZeros | js/calculator.js:80-99 | an object no record refers to yields zero income, expenses, tax and profit |
| App.DigitsOnly | js/app.js:146 | only digits remain; no longer than the input; the input comes back unchanged exactly when it is all digits |
| App.DigitsOnlyKeepsEveryDigit | js/app.js:146 | every digit occurs as often as in the input and nothing else occurs |
| App.DigitsOnlyAppend | js/app.js:146 | filtering a concatenation concatenates the filtered parts, so the digits keep their order |
| App.DigitsOnlyIdempotent | js/app.js:171 | filtering a filtered value changes nothing |
| App.InputCleanup | js/app.js:168-182 | the field is rewritten exactly when it held a non-digit, to its digits, with the caret moved back by the number removed |
| App.CleanupKeepsCaretAfterSameDigits | js/app.js:174-177 | when the removed characters stood before the caret, the caret lands after the same digits as before |
| App.Paste | js/app.js:141-165 | no digits pasted leaves the field alone; otherwise the value is the text before the selection, the pasted digits, the text after it, of the stated length, with the caret after the digits, and an all-digit field stays all digits |
| App.KeyAllowed | js/app.js:122-138 | a key passes exactly when Ctrl is held with a/c/v/x, or it is one of the listed editing keys, or it is a single digit; every other key is prevented |
| App.TypedCharacterAllowedIffDigit | js/app.js:124-137 | without Ctrl a one-character key passes exactly when it is a digit |
| App.CtrlLetterAllowedIffClipboardKey | js/app.js:130-137 | with Ctrl a lower-case letter passes exactly when it is a, c, v or x |
| App.GetObjectTypeText | js/app.js:688-696 | the four known types get their labels, any other value comes back unchanged |
| App.ObjectTypeTextStable | js/app.js:688-696 | labelling twice is labelling once, and two known types never share a label |
| App.LoadDashboard | js/app.js:284-307 | overall tax and profit at the calculator's selected rate; the object counts; the number of active contracts with at most the first five listed; the five newest payments |
| App.LoadAnalytics | js/app.js:426-435 | the overall figures at the default 4 % rate, whatever is selected, with profit = income − tax − expenses |
| App.ObjectCardsUseDefaultRate | js/app.js:329 | the object cards report the 4 % rate |
| App.ContractForm.Record | js/app.js:592-599 | the saved record holds the six form fields and neither `isActive` nor `createdAt` |
| App.SaveContract | js/app.js:582-617 | nothing is written and the key generator is untouched when there are no objects; an edit replaces the whole contract, which then no longer counts as active, and moves the generator as a put does; a new contract is added active under the generator's next, never issued key; the chosen object is not checked |
| Charts.MonthsBack | js/charts.js:154 | the month index is in 0..11 and lies the given number of months before the current one, modulo 12 |
| Charts.MonthLabels | js/charts.js:152-156 | six labels; label k names the month `5 - k` months back, the last one the current month |
| Charts.MonthWindowIsConsecutive | js/charts.js:153-155 | each label's month follows the previous one's, December wrapping to January |
| Charts.MonthWindowIsDistinct | js/charts.js:145-155 | the six labels are six different months |
| Charts.MonthNamed | js/charts.js:145 | each month label names its month |
| Charts.DemoAmount | js/charts.js:161-162 | `floor(draw * scale) + base` lies in `[base, base + scale)` |
| Charts.GroupByMonth | js/charts.js:143-166 | six labels and two fresh arrays of six amounts, income in [50000, 150000) and expenses in [10000, 40000) |
| Charts.Earners | js/charts.js:128-136 | exactly the stored objects with positive income, never more |
| Charts.EarnersInKeyOrder | js/charts.js:128-136 | objects in key order give earners in key order, so by `Records.AscendingUnique` the earners come in the objects' order |
| Charts.EarnersSnoc | js/charts.js:128-136 | one more object extends the earners by that object exactly when its income is positive |
| Charts.ChartedSnoc | js/charts.js:128-139 | one loop turn appends the object's name and income exactly when the income is positive |
| Charts.ObjectIncome | js/charts.js:129 | the income the chart reads off `calculateForObject(object.id)` is the reference rent of that object's active contracts |
| Charts.UpdateObjectsChart | js/charts.js:124-141 | the labels and values are the names and incomes of exactly the objects with positive income, position by position, in object order |

## Left out

- Opening and upgrading the database, its versioning, the secondary indexes and the unused `settings` store (js/database.js:9-55). The model starts from four empty stores.
- Promises, `async`/`await` and transactions. Each operation runs to completion before the next. A delete that fails midway through a cascade is not modelled.
- `getObjects`, `getContracts`, `getPayments` and `getExpenses` are the `rows` of the corresponding table. `getAll(storeName, indexName)` with an index is never called by the core and is not modelled.
- A record passed to `add` that carries its own `id` would use that key. The callers never pass one, so `Add` always takes the generator's key.
- The key generator's upper limit of 2^53 (section 2.11 of the W3C Indexed Database API) is not modelled. Keys are unbounded.
- `createdAt` is a timestamp parameter, and `new Date(x)` parsing becomes `int` dates.
- `parseFloat` and `parseInt` are not modelled. The model receives the parsed numbers. Only the calculator form has `None` for NaN. The contract form's `objectId` and `rentAmount` (js/app.js:593,597) are plain `int` and `real` with no `|| 0`. So the model cannot produce the NaN rent that an empty amount field would store, nor the NaN object id.
- IEEE floating-point rounding is not modelled, for example `income * 0.04` or `taxRate * 100`. The arithmetic is exact.
- Loose `==` between string and number ids: ids are `int` throughout.
- DOM work is not modelled: event wiring, element writes, modals, `confirm`, notifications, formatting, theme and `localStorage`. `App.Paste` requires `start <= end <= |value|`, which the browser guarantees for a selection.
- App.InputCleanup: the caret value may come out negative, as the source computes it. The browser's clamping of `setSelectionRange` is not modelled.
- App.InputCleanup: lengths and the caret count Unicode characters, while JavaScript's `length`, `selectionStart` and `substring` count UTF-16 code units. For a value with characters outside the Basic Multilingual Plane after the caret, the source's caret differs from the model's by the number of such characters.
- App.GetObjectTypeText: a type that names a property of `Object.prototype` (such as `constructor`) yields that property in the source. This is not modelled.
- App.LoadDashboard: the recent-transaction and upcoming-payment lists are returned, not rendered.
- JSON export (js/app.js:722-745) and Chart.js construction and redraws (js/charts.js:18-102) are not modelled.
- Store.Database.GetRecentPayments is weaker than the source: the relative order of payments with equal dates is not stated. The source's `Array.prototype.sort` is stable, so it keeps them in key order.
- The application has no landlord categories, no 13 % rate, no foreign-key validation and no "not found" errors on update or delete. The model follows the code and has none of them either.
