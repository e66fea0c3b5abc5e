/** The month-scoped views of the ledger as pure functions: the month filter,
    the view-to-ledger index mapping it induces, the total, and the per-key
    sums and first-occurrence key order that the daily and category summaries
    are specified by. */
module Aggregate {
  import opened Expense

  // ---------------------------------------------------------------------------
  // The month filter
  // ---------------------------------------------------------------------------

  /** The records whose month is `m`, in ledger order (`records.filter(...)`). */
  function InMonth(rs: seq<Record>, m: Month): (v: seq<Record>)
    ensures |v| <= |rs|
  {
    if rs == [] then []
    else if rs[0].month == m then [rs[0]] + InMonth(rs[1..], m)
    else InMonth(rs[1..], m)
  }

  /** A record is shown exactly when it is in the ledger and lies in month `m`. */
  lemma {:induction false} InMonthMembers(rs: seq<Record>, m: Month, r: Record)
    ensures r in InMonth(rs, m) <==> r in rs && r.month == m
  {
    if rs != [] {
      InMonthMembers(rs[1..], m, r);
      assert rs == [rs[0]] + rs[1..];
    }
  }

  /** The ledger position of the record shown at view position `i`. */
  function ViewToRaw(rs: seq<Record>, m: Month, i: nat): (j: nat)
    requires i < |InMonth(rs, m)|
    ensures i <= j < |rs|
    ensures rs[j] == InMonth(rs, m)[i] && rs[j].month == m
    decreases |rs|
  {
    if rs[0].month == m then
      if i == 0 then 0 else 1 + ViewToRaw(rs[1..], m, i - 1)
    else
      1 + ViewToRaw(rs[1..], m, i)
  }

  /** The view keeps ledger order: later view positions come from later ledger positions. */
  lemma {:induction false} ViewToRawIncreasing(rs: seq<Record>, m: Month, i: nat, k: nat)
    requires i < k < |InMonth(rs, m)|
    ensures ViewToRaw(rs, m, i) < ViewToRaw(rs, m, k)
    decreases |rs|
  {
    if rs[0].month == m {
      if i > 0 {
        ViewToRawIncreasing(rs[1..], m, i - 1, k - 1);
      }
    } else {
      ViewToRawIncreasing(rs[1..], m, i, k);
    }
  }

  /** The view misses nothing: the in-month record at ledger position `j` is shown,
      at the position given by the number of in-month records before it. */
  lemma {:induction false} RawToView(rs: seq<Record>, m: Month, j: nat)
    requires j < |rs| && rs[j].month == m
    ensures |InMonth(rs[..j], m)| < |InMonth(rs, m)|
    ensures ViewToRaw(rs, m, |InMonth(rs[..j], m)|) == j
    decreases j
  {
    if j > 0 {
      assert rs[..j][1..] == rs[1..][..j - 1];
      assert rs[..j][0] == rs[0];
      RawToView(rs[1..], m, j - 1);
    }
  }

  /** The delete hazard: view position `i` is the same number as the ledger position of
      the record shown there exactly when ledger positions 0..i all lie in month `m`. */
  lemma {:induction false} ViewIndexIsRawIndex(rs: seq<Record>, m: Month, i: nat)
    requires i < |InMonth(rs, m)|
    ensures ViewToRaw(rs, m, i) == i <==> forall j :: 0 <= j <= i ==> rs[j].month == m
    decreases |rs|
  {
    if rs[0].month == m && i > 0 {
      ViewIndexIsRawIndex(rs[1..], m, i - 1);
      assert (forall j :: 0 <= j <= i - 1 ==> rs[1..][j].month == m)
         <==> (forall j :: 1 <= j <= i ==> rs[j].month == m);
    }
  }

  /** Removing the ledger record behind view position `i` removes exactly view entry `i`. */
  lemma {:induction false} DeleteThroughView(rs: seq<Record>, m: Month, i: nat)
    requires i < |InMonth(rs, m)|
    ensures InMonth(RemoveAt(rs, ViewToRaw(rs, m, i)), m) == RemoveAt(InMonth(rs, m), i)
    decreases |rs|
  {
    var j := ViewToRaw(rs, m, i);
    if j > 0 {
      assert RemoveAt(rs, j) == [rs[0]] + RemoveAt(rs[1..], j - 1);
      if rs[0].month == m {
        DeleteThroughView(rs[1..], m, i - 1);
        assert RemoveAt(InMonth(rs, m), i) == [rs[0]] + RemoveAt(InMonth(rs[1..], m), i - 1);
      } else {
        DeleteThroughView(rs[1..], m, i);
      }
    } else {
      assert RemoveAt(rs, 0) == rs[1..];
    }
  }

  /** Removing the ledger record behind a view position leaves every other month's view as it was. */
  lemma {:induction false} DeleteThroughViewKeepsOtherMonths(rs: seq<Record>, m: Month, i: nat, other: Month)
    requires i < |InMonth(rs, m)| && other != m
    ensures InMonth(RemoveAt(rs, ViewToRaw(rs, m, i)), other) == InMonth(rs, other)
    decreases |rs|
  {
    var j := ViewToRaw(rs, m, i);
    if j > 0 {
      assert RemoveAt(rs, j) == [rs[0]] + RemoveAt(rs[1..], j - 1);
      if rs[0].month == m {
        DeleteThroughViewKeepsOtherMonths(rs[1..], m, i - 1, other);
      } else {
        DeleteThroughViewKeepsOtherMonths(rs[1..], m, i, other);
      }
    } else {
      assert RemoveAt(rs, 0) == rs[1..];
    }
  }

  /** What the program does instead: it removes ledger position `i` itself. With one
      January record followed by one February record and February selected, the view
      shows only the February record at position 0, yet the January record is removed. */
  lemma DeleteByViewIndexMissesShownRecord()
    ensures var jan := Record("Lunch", 1500, "Food", 0, "1/5/2026");
            var feb := Record("Bus", 300, "Transport", 1, "2/3/2026");
            && InMonth([jan, feb], 1) == [feb]
            && RemoveAt([jan, feb], 0) == [feb]
            && InMonth(RemoveAt([jan, feb], 0), 1) != RemoveAt(InMonth([jan, feb], 1), 0)
  {
  }

  // ---------------------------------------------------------------------------
  // The total
  // ---------------------------------------------------------------------------

  /** `reduce((sum, r) => sum + r.amount, 0)`: a left fold over the records. */
  function Total(rs: seq<Record>): int
  {
    if rs == [] then 0 else Total(rs[..|rs| - 1]) + rs[|rs| - 1].amount
  }

  lemma {:induction false} TotalAppend(a: seq<Record>, b: seq<Record>)
    ensures Total(a + b) == Total(a) + Total(b)
    decreases |b|
  {
    if b != [] {
      assert (a + b)[..|a + b| - 1] == a + b[..|b| - 1];
      assert (a + b)[|a + b| - 1] == b[|b| - 1];
      TotalAppend(a, b[..|b| - 1]);
    } else {
      assert a + b == a;
    }
  }

  /** Reference definition of a month's total, read off the whole ledger. */
  function AmountIn(rs: seq<Record>, m: Month): int
  {
    if rs == [] then 0
    else (if rs[0].month == m then rs[0].amount else 0) + AmountIn(rs[1..], m)
  }

  /** The total of the filtered records is the sum of the in-month amounts of the whole ledger. */
  lemma {:induction false} TotalOfMonth(rs: seq<Record>, m: Month)
    ensures Total(InMonth(rs, m)) == AmountIn(rs, m)
  {
    if rs != [] {
      TotalOfMonth(rs[1..], m);
      if rs[0].month == m {
        TotalAppend([rs[0]], InMonth(rs[1..], m));
        assert [rs[0]][..0] == [];
      }
    }
  }

  /** A month with no records has an empty view and a total of 0. */
  lemma {:induction false} EmptyMonth(rs: seq<Record>, m: Month)
    requires forall j :: 0 <= j < |rs| ==> rs[j].month != m
    ensures InMonth(rs, m) == [] && Total(InMonth(rs, m)) == 0
  {
    if rs != [] {
      EmptyMonth(rs[1..], m);
    }
  }

  // ---------------------------------------------------------------------------
  // Per-key sums (daily totals and category totals)
  // ---------------------------------------------------------------------------

  /** The distinct keys of `rs` for field `f`, in order of first occurrence. */
  function DistinctKeys(rs: seq<Record>, f: Field): seq<string>
  {
    if rs == [] then []
    else
      var d := DistinctKeys(rs[..|rs| - 1], f);
      var k := Key(rs[|rs| - 1], f);
      if k in d then d else d + [k]
  }

  /** The sum of the amounts of the records of `rs` whose key for `f` is `k`. */
  function SumFor(rs: seq<Record>, f: Field, k: string): int
  {
    if rs == [] then 0
    else SumFor(rs[..|rs| - 1], f, k) + (if Key(rs[|rs| - 1], f) == k then rs[|rs| - 1].amount else 0)
  }

  /** The per-key sums listed in the order of `ks`. */
  function Tally(rs: seq<Record>, f: Field, ks: seq<string>): seq<int>
  {
    seq(|ks|, i requires 0 <= i < |ks| => SumFor(rs, f, ks[i]))
  }

  function SumInts(xs: seq<int>): int
  {
    if xs == [] then 0 else SumInts(xs[..|xs| - 1]) + xs[|xs| - 1]
  }

  /** A key is emitted exactly when some record carries it. */
  lemma {:induction false} DistinctKeysMembers(rs: seq<Record>, f: Field, k: string)
    ensures k in DistinctKeys(rs, f) <==> exists j :: 0 <= j < |rs| && Key(rs[j], f) == k
    decreases |rs|
  {
    if rs != [] {
      var p := rs[..|rs| - 1];
      DistinctKeysMembers(p, f, k);
      if exists j :: 0 <= j < |rs| && Key(rs[j], f) == k {
        var j :| 0 <= j < |rs| && Key(rs[j], f) == k;
        if j < |p| {
          assert Key(p[j], f) == k;
        }
      }
      if exists j :: 0 <= j < |p| && Key(p[j], f) == k {
        var j :| 0 <= j < |p| && Key(p[j], f) == k;
        assert Key(rs[j], f) == k;
      }
    }
  }

  /** No key is emitted twice. */
  lemma {:induction false} DistinctKeysDistinct(rs: seq<Record>, f: Field)
    ensures Distinct(DistinctKeys(rs, f))
    decreases |rs|
  {
    if rs != [] {
      DistinctKeysDistinct(rs[..|rs| - 1], f);
    }
  }

  /** Keys are emitted in order of first occurrence: the keys of any prefix of the
      records are a prefix of the keys of all of them, so a new key is only ever appended. */
  lemma {:induction false} DistinctKeysPrefix(rs: seq<Record>, f: Field, n: nat)
    requires n <= |rs|
    ensures DistinctKeys(rs[..n], f) <= DistinctKeys(rs, f)
    decreases |rs|
  {
    if n < |rs| {
      var p := rs[..|rs| - 1];
      assert rs[..n] == p[..n];
      DistinctKeysPrefix(p, f, n);
    } else {
      assert rs[..n] == rs;
    }
  }

  /** A key no record carries sums to 0. */
  lemma {:induction false} SumForAbsent(rs: seq<Record>, f: Field, k: string)
    requires forall j :: 0 <= j < |rs| ==> Key(rs[j], f) != k
    ensures SumFor(rs, f, k) == 0
    decreases |rs|
  {
    if rs != [] {
      SumForAbsent(rs[..|rs| - 1], f, k);
    }
  }

  /** Appending a record adds its amount to the tally of distinct keys exactly when its key is listed. */
  lemma {:induction false} TallyStep(rs: seq<Record>, r: Record, f: Field, ks: seq<string>)
    requires Distinct(ks)
    ensures SumInts(Tally(rs + [r], f, ks))
         == SumInts(Tally(rs, f, ks)) + (if Key(r, f) in ks then r.amount else 0)
    decreases |ks|
  {
    if ks != [] {
      var q := ks[..|ks| - 1];
      var k := ks[|ks| - 1];
      assert ks == q + [k];
      assert Tally(rs + [r], f, ks)[..|q|] == Tally(rs + [r], f, q);
      assert Tally(rs, f, ks)[..|q|] == Tally(rs, f, q);
      assert (rs + [r])[..|rs|] == rs;
      TallyStep(rs, r, f, q);
    }
  }

  /** The per-key sums over the distinct keys add up to the total: the daily totals and the
      category totals of a list of records each sum to that list's total. */
  lemma {:induction false} TallyTotal(rs: seq<Record>, f: Field)
    ensures SumInts(Tally(rs, f, DistinctKeys(rs, f))) == Total(rs)
    decreases |rs|
  {
    if rs != [] {
      var p := rs[..|rs| - 1];
      var r := rs[|rs| - 1];
      var d := DistinctKeys(p, f);
      var k := Key(r, f);
      assert rs == p + [r];
      TallyTotal(p, f);
      DistinctKeysDistinct(p, f);
      TallyStep(p, r, f, d);
      if k !in d {
        assert Tally(rs, f, d + [k])[..|d|] == Tally(rs, f, d);
        forall j | 0 <= j < |p| ensures Key(p[j], f) != k {
          DistinctKeysMembers(p, f, k);
        }
        SumForAbsent(p, f, k);
      }
    }
  }
}
