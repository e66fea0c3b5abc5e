/** The ledger the page holds for a session: the record list, the active month
    filter and the storage slot the list is written to after every change. */
module Session {
  import opened Expense
  import opened Aggregate
  import opened Totals

  /** What reading the storage slot yields: the stored list, or the empty list when
      nothing has been stored yet (`JSON.parse(null) || []`). */
  function Loaded(slot: Option<seq<Record>>): seq<Record>
  {
    match slot
    case None => []
    case Some(stored) => stored
  }

  class Ledger {
    /** All records, in insertion order. */
    var records: seq<Record>
    /** The month whose records are shown and summed. */
    var currentMonth: Month
    /** The storage slot's content. */
    ghost var persisted: Option<seq<Record>>

    /** Storage mirrors memory: reloading the slot gives the records held now. */
    ghost predicate Valid()
      reads this
    {
      Loaded(persisted) == records
    }

    /** Page start-up: read the slot, and select the month of the current date. */
    constructor (slot: Option<seq<Record>>, today: Month)
      ensures Valid()
      ensures records == Loaded(slot) && persisted == slot && currentMonth == today
    {
      records := Loaded(slot);
      currentMonth := today;
      persisted := slot;
    }

    /** The records listed on the page, in ledger order. */
    function Shown(): seq<Record>
      reads this
    {
      InMonth(records, currentMonth)
    }

    /** Append one record stamped with the current date, then store the whole list. */
    method AddRecord(description: string, amount: int, category: string, month: Month, dateKey: string)
      modifies this
      ensures Valid()
      ensures records == old(records) + [Record(description, amount, category, month, dateKey)]
      ensures persisted == Some(records)
      ensures currentMonth == old(currentMonth)
    {
      records := records + [Record(description, amount, category, month, dateKey)];
      persisted := Some(records);
    }

    /** `records.splice(index, 1)`, then store the whole list. An index past the end removes
        nothing, but the list is still stored. */
    method DeleteRecord(index: nat)
      modifies this
      ensures Valid()
      ensures records == if index < |old(records)| then RemoveAt(old(records), index) else old(records)
      ensures persisted == Some(records)
      ensures currentMonth == old(currentMonth)
    {
      if index < |records| {
        records := RemoveAt(records, index);
      }
      persisted := Some(records);
    }

    /** The add button: add the record only when the description is non-empty and the
        amount parsed to a number; otherwise nothing changes, in memory or in storage. */
    method SubmitRecord(description: string, amount: Parsed, category: string, month: Month, dateKey: string)
      returns (added: bool)
      requires Valid()
      modifies this
      ensures Valid()
      ensures added <==> description != [] && amount.Number?
      ensures added ==> records == old(records) + [Record(description, amount.value, category, month, dateKey)]
      ensures !added ==> records == old(records) && persisted == old(persisted)
      ensures currentMonth == old(currentMonth)
      ensures Described(old(records)) ==> Described(records)
    {
      added := description != [] && amount.Number?;
      if added {
        AddRecord(description, amount.value, category, month, dateKey);
      }
    }

    /** A month tab: select the month whose records are shown. */
    method SelectMonth(month: Month)
      modifies this
      ensures currentMonth == month
      ensures records == old(records) && persisted == old(persisted)
    {
      currentMonth := month;
    }

    /** A delete button as the page wires it: the button of view row `viewIndex` passes that
        view position to `DeleteRecord`, which applies it to the full list. The shown record
        is the one removed only when every record up to that position is in the shown month. */
    method ClickDelete(viewIndex: nat)
      requires Valid()
      requires viewIndex < |Shown()|
      modifies this
      ensures Valid() && persisted == Some(records) && currentMonth == old(currentMonth)
      ensures records == RemoveAt(old(records), viewIndex)
      ensures ViewToRaw(old(records), currentMonth, viewIndex) == viewIndex
          <==> forall j :: 0 <= j <= viewIndex ==> old(records)[j].month == currentMonth
      ensures (forall j :: 0 <= j <= viewIndex ==> old(records)[j].month == currentMonth)
          ==> Shown() == RemoveAt(old(Shown()), viewIndex)
    {
      ViewIndexIsRawIndex(records, currentMonth, viewIndex);
      ghost var raw := ViewToRaw(records, currentMonth, viewIndex);
      DeleteThroughView(records, currentMonth, viewIndex);
      DeleteRecord(viewIndex);
      assert raw == viewIndex ==> records == RemoveAt(old(records), raw);
    }

    /** A delete button that removes the record it is shown next to: the view position is
        mapped to its ledger position first. The shown list loses exactly that row, and
        the views of all other months are unchanged. */
    method DeleteShown(viewIndex: nat)
      requires Valid()
      requires viewIndex < |Shown()|
      modifies this
      ensures Valid() && persisted == Some(records) && currentMonth == old(currentMonth)
      ensures records == RemoveAt(old(records), ViewToRaw(old(records), currentMonth, viewIndex))
      ensures Shown() == RemoveAt(old(Shown()), viewIndex)
      ensures forall m: Month :: m != currentMonth ==> InMonth(records, m) == InMonth(old(records), m)
    {
      var raw := ViewToRaw(records, currentMonth, viewIndex);
      DeleteThroughView(records, currentMonth, viewIndex);
      forall m: Month | m != currentMonth
        ensures InMonth(RemoveAt(records, raw), m) == InMonth(records, m)
      {
        DeleteThroughViewKeepsOtherMonths(records, currentMonth, viewIndex, m);
      }
      DeleteRecord(raw);
    }

    /** The month total: the sum of the shown amounts, which is the sum of the amounts
        of the ledger's records in the selected month. */
    method UpdateTotalUsage() returns (total: int)
      ensures total == Total(Shown())
      ensures total == AmountIn(records, currentMonth)
      ensures (forall j :: 0 <= j < |records| ==> records[j].month != currentMonth) ==> total == 0
    {
      total := Total(InMonth(records, currentMonth));
      TotalOfMonth(records, currentMonth);
      if forall j :: 0 <= j < |records| ==> records[j].month != currentMonth {
        EmptyMonth(records, currentMonth);
      }
    }

    /** The daily list: one line per date of the shown records, in order of first
        occurrence, with the sum of that date's amounts; the lines add up to the month total. */
    method UpdateDailyUsage() returns (dates: seq<string>, amounts: seq<int>)
      ensures dates == DistinctKeys(Shown(), ByDate) && Distinct(dates)
      ensures |amounts| == |dates|
      ensures forall i :: 0 <= i < |dates| ==> amounts[i] == SumFor(Shown(), ByDate, dates[i])
      ensures SumInts(amounts) == Total(Shown())
    {
      var daily := GroupTotals(InMonth(records, currentMonth), ByDate);
      dates, amounts := daily.keys, daily.Values();
    }

    /** The full page refresh: the shown list (whose row `i` carries delete index `i`), the
        month total, the daily list, and the chart's labels and values, index-matched, one
        per category of the shown records. All three summaries add up to the same total. */
    method RenderRecords() returns (shown: seq<Record>, total: int, dates: seq<string>, amounts: seq<int>,
                                    labels: seq<string>, values: seq<int>)
      ensures shown == Shown()
      ensures total == Total(shown)
      ensures dates == DistinctKeys(shown, ByDate) && |amounts| == |dates|
      ensures forall i :: 0 <= i < |dates| ==> amounts[i] == SumFor(shown, ByDate, dates[i])
      ensures Distinct(dates)
      ensures labels == DistinctKeys(shown, ByCategory) && Distinct(labels) && |values| == |labels|
      ensures forall i :: 0 <= i < |labels| ==> values[i] == SumFor(shown, ByCategory, labels[i])
      ensures SumInts(amounts) == total && SumInts(values) == total
    {
      shown := InMonth(records, currentMonth);
      var categoryTotals := GroupTotals(shown, ByCategory);
      total := UpdateTotalUsage();
      dates, amounts := UpdateDailyUsage();
      labels, values := categoryTotals.keys, categoryTotals.Values();
    }
  }
}

/** A session as a user would drive it: two expenses in the current month, a look at an
    empty month, and the deletion of the first expense while its month is shown. */
module Scenario {
  import opened Expense
  import opened Aggregate
  import opened Session

  /** The summaries of a Lunch and a Bus expense on one date. */
  lemma LunchAndBusSummaries(month: Month, date: string, other: Month)
    requires other != month
    ensures var lunch := Record("Lunch", 1500, "Food", month, date);
            var bus := Record("Bus", 300, "Transport", month, date);
            && InMonth([lunch, bus], month) == [lunch, bus]
            && DistinctKeys([lunch, bus], ByCategory) == ["Food", "Transport"]
            && Tally([lunch, bus], ByCategory, ["Food", "Transport"]) == [1500, 300]
            && InMonth([lunch, bus], other) == []
  {
    var lunch := Record("Lunch", 1500, "Food", month, date);
    var bus := Record("Bus", 300, "Transport", month, date);
    assert [lunch, bus][1..] == [bus] && [bus][1..] == [];
    assert [lunch, bus][..1] == [lunch] && [lunch][..0] == [];
    assert DistinctKeys([lunch], ByCategory) == ["Food"];
    assert SumFor([lunch], ByCategory, "Food") == 1500 && SumFor([lunch], ByCategory, "Transport") == 0;
  }

  /** From an empty slot: add Lunch, then Bus, and read the summaries of the month. */
  method LunchAndBus(today: Month, date: string) returns (ledger: Ledger)
    ensures fresh(ledger) && ledger.Valid() && ledger.currentMonth == today
    ensures ledger.records == [Record("Lunch", 1500, "Food", today, date), Record("Bus", 300, "Transport", today, date)]
  {
    ledger := new Ledger(None, today);
    var added := ledger.SubmitRecord("Lunch", Number(1500), "Food", today, date);
    assert added;
    var total := ledger.UpdateTotalUsage();
    assert total == 1500;
    added := ledger.SubmitRecord("Bus", Number(300), "Transport", today, date);
    LunchAndBusSummaries(today, date, if today == 0 then 1 else 0);
    var shown, dates, amounts, labels, values;
    shown, total, dates, amounts, labels, values := ledger.RenderRecords();
    assert total == 1800;
    assert labels == ["Food", "Transport"] && values == [1500, 300];
  }

  /** Continuing that session: a rejected add, a look at an empty month, and the deletion
      of Lunch while the current month is shown, which leaves only Bus, in memory and in storage. */
  method RejectViewAndDelete(ledger: Ledger, today: Month, other: Month, date: string)
    requires other != today && ledger.Valid() && ledger.currentMonth == today
    requires ledger.records == [Record("Lunch", 1500, "Food", today, date), Record("Bus", 300, "Transport", today, date)]
    modifies ledger
  {
    ghost var bus := Record("Bus", 300, "Transport", today, date);
    var added := ledger.SubmitRecord("", Number(20), "Food", today, date);
    assert !added && |ledger.records| == 2;

    LunchAndBusSummaries(today, date, other);
    ledger.SelectMonth(other);
    var shown, total, dates, amounts, labels, values := ledger.RenderRecords();
    assert total == 0 && dates == [] && labels == [];

    ledger.SelectMonth(today);
    ledger.DeleteShown(0);
    assert ledger.records == [bus];
    total := ledger.UpdateTotalUsage();
    assert total == 300;
    assert ledger.persisted == Some([bus]);
  }

  /** The delete hazard on a live ledger: with a January and a February record and
      February selected, the button next to the February record removes the January one
      as the page is wired, and the February one once the view position is mapped. */
  method DeleteAcrossMonths()
  {
    var jan := Record("Lunch", 1500, "Food", 0, "1/5/2026");
    var feb := Record("Bus", 300, "Transport", 1, "2/3/2026");
    var ledger := new Ledger(Some([jan, feb]), 1);
    assert [jan, feb][1..] == [feb] && [feb][1..] == [];
    assert InMonth([feb], 1) == [feb];
    assert ledger.Shown() == [feb];
    ledger.ClickDelete(0);
    assert ledger.records == [feb] && ledger.Shown() == [feb];

    ledger := new Ledger(Some([jan, feb]), 1);
    assert ledger.records == [jan, feb] && ledger.Shown() == [feb];
    ledger.DeleteShown(0);
    assert ledger.records == [jan];
    assert ledger.Shown() == [];
  }
}
