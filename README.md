# Monthly expense ledger — a Dafny model

This project models the core of a browser page for tracking monthly expenses (`script.js`).
The user logs expenses, each with a description, an amount, a category and a creation timestamp.
The page shows the chosen month's records, the month's total, a per-day breakdown and a per-category pie chart.

The model has four modules:

- `Expense` (`expense.dfy`) defines the record. The timestamp is represented only by the two things the page derives from it: the month index (`getMonth()`, 0–11) and the local date string (`toLocaleDateString()`).
- `Aggregate` (`aggregate.dfy`) holds the pure views as functions with lemmas:
  - the month filter (`InMonth`);
  - the mapping from a row of the filtered view to its position in the full list (`ViewToRaw`);
  - the `reduce` total (`Total`);
  - the per-key specification of the daily and category totals: first-occurrence key order (`DistinctKeys`) and per-key sums (`SumFor`, `Tally`).
- `Totals` (`totals.dfy`) is the imperative accumulation. A plain JavaScript object is modelled as an insertion-ordered dictionary (`Dict`). The `forEach` loop that fills it is `GroupTotals`, and it keeps the source's truthiness test (`if (totals[key]) … += … else … =`). The daily totals and the category totals both use this one loop.
- `Session` (`session.dfy`) holds the page's state as a class `Ledger`:
  - the record list `records`, changed in place by `push` and `splice`;
  - the active month `currentMonth`;
  - a ghost field `persisted` for the storage slot, which every change rewrites with the whole list.

  `Valid()` states that the storage mirrors memory. The event handlers are the methods `SubmitRecord` (the add button with its validation guard), `ClickDelete` (the delete button as wired) and `SelectMonth` (a month tab). `Scenario` walks through an example session.

The clock is not modelled. The current month at start-up and the month and date of a new record are parameters. The storage slot's content at start-up is the constructor's parameter.

Three facts about the code shape the model:

- The add guard rejects only an empty description and NaN (`!isNaN`), so `Infinity` would pass it.
- The month filter compares only the month index, so a record from the same month of another year is shown too.
- The delete button deletes by view position. This is modelled as written (`ClickDelete`), and a corrected version is modelled beside it (`DeleteShown`); see Findings.

## Model

| member | source | states |
|---|---|---|
| `Expense.RemoveAt` | script.js:125 | `splice(i, 1)` at a valid position: one element shorter, elements before `i` kept, elements after it shifted down by one |
| `Aggregate.InMonth` | script.js:51 | the month filter returns no more records than the ledger holds |
| `Aggregate.InMonthMembers` | script.js:51 | a record is in the filtered list if and only if it is in the ledger and its month is the selected month (both directions) |
| `Aggregate.ViewToRaw` | script.js:86-93 | view row `i` comes from a ledger position `j` with `i <= j < |records|`; the record there is the one shown at row `i`, and it lies in the month |
| `Aggregate.ViewToRawIncreasing` | script.js:51 | the filter keeps relative order: later view rows come from strictly later ledger positions |
| `Aggregate.RawToView` | script.js:51 | the filter misses nothing: every in-month record at ledger position `j` is shown, at the row given by the count of in-month records before `j` |
| `Aggregate.ViewIndexIsRawIndex` | script.js:143-146 | the view row number equals the ledger position of the record shown there if and only if every record at ledger positions `0..i` is in the selected month |
| `Aggregate.DeleteThroughView` | script.js:124-126 | removing the ledger record behind view row `i` makes the filtered list lose exactly its row `i` |
| `Aggregate.DeleteThroughViewKeepsOtherMonths` | script.js:124-126 | removing the ledger record behind a view row leaves the filtered list of every other month unchanged |
| `Aggregate.DeleteByViewIndexMissesShownRecord` | script.js:143-148 | counterexample: with January then February records and February shown, removing ledger position 0 removes the hidden January record and keeps the shown one |
| `Aggregate.Total` | script.js:52 | the `reduce` left fold; no contract of its own, pinned down by `TotalAppend`, `TotalOfMonth`, `EmptyMonth` and `TallyTotal` |
| `Aggregate.TotalAppend` | script.js:52 | the `reduce` total of a concatenation is the sum of the two totals |
| `Aggregate.TotalOfMonth` | script.js:50-52 | the total of the filtered records equals the sum, over the whole ledger, of the amounts of the records in the month |
| `Aggregate.EmptyMonth` | script.js:50-52 | when no record lies in the month, the filtered list is empty and the total is 0 |
| `Aggregate.DistinctKeysMembers` | script.js:58-70 | a date (or category) appears among the emitted keys if and only if some record carries it |
| `Aggregate.DistinctKeysDistinct` | script.js:58-70 | no key is emitted twice |
| `Aggregate.DistinctKeysPrefix` | script.js:58-70 | the keys of any prefix of the records are a prefix of the keys of all of them, so keys come out in order of first occurrence |
| `Aggregate.SumForAbsent` | script.js:62-66 | a key that no record carries sums to 0 |
| `Aggregate.TallyStep` | script.js:60-67 | appending a record raises the sum over a list of distinct keys by its amount exactly when its key is in that list |
| `Aggregate.TallyTotal` | script.js:56-101 | the per-key sums over the distinct keys add up to the `reduce` total, for dates and for categories alike |
| `Totals.Dict.Truthy` | script.js:62 | the condition `totals[key]`: the key is present and its value is not 0; no contract of its own, its use is covered by `Dict.Add` and `AddKeepsGroups` |
| `Totals.Dict.Set` | script.js:65 | assigning a property: the new key goes after the existing keys, which keep their places; the key gets the value and every other entry is unchanged |
| `Totals.Dict.Add` | script.js:97-101 | the truthiness-guarded `+=`/`=`: on either branch the key ends up holding its previous sum (0 when absent) plus the amount, keys keep their order, and no other entry changes |
| `Totals.Dict.Values` | script.js:108 | `Object.values`, index-matched with the keys; no contract of its own, tied to the per-key sums by `GroupTotals` |
| `Totals.AddKeepsGroups` | script.js:62-66 | one step of the truthiness-guarded accumulation keeps the grouped sums correct, including when a key's running sum is 0 and it is overwritten |
| `Totals.GroupTotals` | script.js:58-67 | the accumulated object lists each key once, in first-occurrence order, maps each to the sum of its records' amounts, and its values add up to the total |
| `Session.Ledger.constructor` | script.js:11-12 | start-up: records are what the slot holds, storage mirrors memory, and the month is today's |
| `Session.Ledger.Shown` | script.js:86 | the records of the active month (the filter repeated at lines 51, 57 and 86); no contract of its own, characterised by `InMonthMembers`, `ViewToRawIncreasing` and `RawToView` |
| `Session.Ledger.AddRecord` | script.js:112-122 | appends exactly one record at the end, leaving earlier records unchanged; afterwards the slot holds the whole new list |
| `Session.Ledger.DeleteRecord` | script.js:124-128 | removes the element at `index` of the full list, or nothing when the index is past the end; the slot is rewritten with the new list in both cases |
| `Session.Ledger.SubmitRecord` | script.js:130-141 | adds the record if and only if the description is non-empty and the amount is a number; otherwise records and slot are unchanged; records with non-empty descriptions stay that way |
| `Session.Ledger.SelectMonth` | script.js:150-156 | sets the active month, leaving records and slot unchanged |
| `Session.Ledger.ClickDelete` | script.js:143-148 | as wired, removes ledger position `viewIndex` itself; this is the shown record's position if and only if positions `0..viewIndex` all lie in the month, and in that case the shown list loses exactly that row |
| `Session.Ledger.DeleteShown` | script.js:143-148 | the corrected button removes the ledger record behind the view row, so the shown list loses exactly that row and every other month's list is unchanged |
| `Session.Ledger.UpdateTotalUsage` | script.js:50-54 | the month total is the sum of the shown amounts, equals the in-month sum over the whole ledger, and is 0 when no record is in the month |
| `Session.Ledger.UpdateDailyUsage` | script.js:56-76 | one line per distinct date of the shown records in first-occurrence order, each with that date's sum; the lines add up to the month total |
| `Session.Ledger.RenderRecords` | script.js:83-110 | the shown list, the total, the daily lines, and the daily lines' distinct dates, the chart's index-matched labels (distinct categories in first-occurrence order) and values (per-category sums); daily and category sums both equal the total |
| `Scenario.LunchAndBusSummaries` | script.js:83-110 | for a Lunch of 1500 (Food) and a Bus of 300 (Transport) in one month: both are shown, the chart has labels Food and Transport with values 1500 and 300, and another month shows nothing |

## Left out

- DOM and rendering are not modelled: list items, `innerHTML`, text such as `"… MMK"`, clearing the form fields, toggling the active tab class, and the event-listener wiring. They are user-interface plumbing. The re-render after each change is the separate query method `RenderRecords`.
- The Chart.js pie chart's configuration and `pieChart.update()` are not modelled: they are calls into a foreign library. The model produces the labels and values that are bound to it.
- Date handling is not modelled: `new Date(...)`, `toISOString`, the time zone of `getMonth`, `toLocaleDateString` and `formatDateTime`. They depend on locale and environment. A record carries its month index and date string directly.
- The storage internals are not modelled: `localStorage`, `JSON.stringify` and `JSON.parse`. The slot is a ghost copy of the list, so the serialise/parse round trip is an identity by construction. Two failure cases are not modelled either: a corrupted slot, which makes `JSON.parse` throw at start-up, and a failed write.
- Amount parsing and floating-point arithmetic are not modelled. Amounts are integers, and `parseFloat` becomes a `Parsed` value (a number or NaN). `parseFloat` can also return `Infinity`, which passes the NaN guard; the model cannot represent it.
- Key order of `Object.keys` is simplified: JavaScript lists integer-like property names such as `"42"` first, in ascending order. The model uses insertion order for every key. Locale date strings are never integer-like, but a category could be.
- `Totals.GroupTotals`, `Aggregate.TallyTotal` and `Session.Ledger.RenderRecords` promise correct per-key sums for every key string, but a `{}` object literal inherits the properties of `Object.prototype`. A category named `toString`, `constructor` or `valueOf` reads as an inherited function, which counts as true, so `script.js:98` concatenates strings. A category named `__proto__` is never stored. The model treats every name as an ordinary own property.
- The delete button's string-valued `data-index` and its conversion inside `splice` are not modelled: the index is a natural number.
- The tab's `parseInt(data-month)` is not modelled. It is taken to yield a month index 0–11 and not NaN.

## Findings

| source | as written | input that shows it | evidently intended | confidence | as-written member | corrected member |
|---|---|---|---|---|---|---|
| script.js:143-148 | the delete button's `data-index` is the row's position in the month-filtered list, and `deleteRecord` applies it to the full list | ledger [Lunch in January, Bus in February], February selected, delete button of row 0 (Bus): the January Lunch is removed and Bus stays | remove the record shown in that row | high (proved; not executed) | `Session.Ledger.ClickDelete` | `Session.Ledger.DeleteShown` |
