/** The values the expense tracker stores and reads: a record of one expense,
    the month index used as the active filter, and the two fields that the
    summaries group by. */
module Expense {

  /** A calendar month as `Date.prototype.getMonth` reports it: 0 is January, 11 is December. */
  type Month = m: int | 0 <= m < 12

  /** One logged expense. The creation timestamp is represented by the two things
      the program derives from it: its calendar month and its local date string. */
  datatype Record = Record(
    description: string,
    amount: int,
    category: string,
    month: Month,
    dateKey: string)

  /** The field a summary groups by: the local date (daily totals) or the category (chart). */
  datatype Field = ByDate | ByCategory

  function Key(r: Record, f: Field): string
  {
    match f
    case ByDate => r.dateKey
    case ByCategory => r.category
  }

  datatype Option<T> = None | Some(value: T)

  /** The result of `parseFloat` on the amount field: a number, or NaN for text that is not one. */
  datatype Parsed = Number(value: int) | NaN

  /** Every record has a non-empty description. */
  predicate Described(rs: seq<Record>)
  {
    forall j :: 0 <= j < |rs| ==> rs[j].description != []
  }

  predicate Distinct(ks: seq<string>)
  {
    forall p, q :: 0 <= p < q < |ks| ==> ks[p] != ks[q]
  }

  /** `splice(i, 1)` on a valid position `i`: the sequence without its element `i`. */
  function RemoveAt<T>(s: seq<T>, i: nat): (r: seq<T>)
    requires i < |s|
    ensures |r| == |s| - 1
    ensures forall j :: 0 <= j < i ==> r[j] == s[j]
    ensures forall j :: i <= j < |r| ==> r[j] == s[j + 1]
  {
    s[..i] + s[i + 1..]
  }
}
