/** The daily-totals and category-totals accumulation: a loop over the shown
    records that updates the entries of a plain JavaScript object. */
module Totals {
  import opened Expense
  import opened Aggregate

  /** A plain object used as a dictionary from strings to numbers. `keys` is the
      property order `Object.keys` reports: the order in which keys were first set;
      assigning to an existing key keeps its place. */
  datatype Dict = Dict(keys: seq<string>, vals: map<string, int>) {

    ghost predicate Valid()
    {
      Distinct(keys) && forall k :: k in vals <==> k in keys
    }

    /** `dict[k]` used as a condition: present and not 0 (NaN cannot occur). */
    predicate Truthy(k: string)
    {
      k in vals && vals[k] != 0
    }

    /** `dict[k] = v`: a new key is placed after the existing ones, which keep their places. */
    function Set(k: string, v: int): (r: Dict)
      requires Valid()
      ensures r.Valid()
      ensures r.keys == if k in keys then keys else keys + [k]
      ensures r.vals[k] == v && forall j :: j in vals && j != k ==> j in r.vals && r.vals[j] == vals[j]
    {
      Dict(if k in vals then keys else keys + [k], vals[k := v])
    }

    /** `if (dict[k]) { dict[k] += amount; } else { dict[k] = amount; }`. Whichever branch the test takes, the entry ends up as the previous sum (0 when
        absent) plus `amount`, and no other entry changes. */
    function Add(k: string, amount: int): (r: Dict)
      requires Valid()
      ensures r.Valid()
      ensures r.keys == if k in keys then keys else keys + [k]
      ensures r.vals[k] == (if k in vals then vals[k] else 0) + amount
      ensures forall j :: j in vals && j != k ==> j in r.vals && r.vals[j] == vals[j]
    {
      if Truthy(k) then Set(k, vals[k] + amount) else Set(k, amount)
    }

    /** `Object.values(dict)`, index-matched with `keys`. */
    function Values(): seq<int>
      requires Valid()
    {
      seq(|keys|, i requires 0 <= i < |keys| => vals[keys[i]])
    }
  }

  /** `d` holds the grouped sums of `rs`: every key of `rs` once, in order of first
      occurrence, each mapped to the sum of the amounts of its records. */
  ghost predicate Groups(d: Dict, rs: seq<Record>, f: Field)
  {
    && d.Valid()
    && d.keys == DistinctKeys(rs, f)
    && forall k :: k in d.vals ==> d.vals[k] == SumFor(rs, f, k)
  }

  /** One iteration of the accumulation loop keeps `Groups`, whichever branch the
      truthiness test takes: a key whose running sum is 0 is overwritten with the
      amount, which is the same as adding the amount to 0. */
  lemma AddKeepsGroups(d: Dict, rs: seq<Record>, r: Record, f: Field)
    requires Groups(d, rs, f)
    ensures Groups(d.Add(Key(r, f), r.amount), rs + [r], f)
  {
    var k := Key(r, f);
    var rs' := rs + [r];
    var d' := d.Add(k, r.amount);
    assert rs'[..|rs|] == rs;
    assert rs'[|rs'| - 1] == r;
    assert DistinctKeys(rs', f) == if k in DistinctKeys(rs, f) then DistinctKeys(rs, f) else DistinctKeys(rs, f) + [k];
    if k !in d.vals {
      DistinctKeysMembers(rs, f, k);
      SumForAbsent(rs, f, k);
    }
    forall j | j in d'.vals
      ensures d'.vals[j] == SumFor(rs', f, j)
    {
      assert SumFor(rs', f, j) == SumFor(rs, f, j) + (if j == k then r.amount else 0);
    }
  }

  /** The `forEach` that accumulates the totals object (daily totals by date, or
      category totals by category). The result lists every key of `rs` once, in order
      of first occurrence, mapped to the sum of that key's amounts; its values, in key
      order, add up to the total of `rs`. */
  method GroupTotals(rs: seq<Record>, f: Field) returns (d: Dict)
    ensures d.Valid()
    ensures d.keys == DistinctKeys(rs, f)
    ensures forall k :: k in d.vals ==> d.vals[k] == SumFor(rs, f, k)
    ensures d.Values() == Tally(rs, f, d.keys)
    ensures SumInts(d.Values()) == Total(rs)
  {
    d := Dict([], map[]);
    var i := 0;
    while i < |rs|
      invariant 0 <= i <= |rs|
      invariant Groups(d, rs[..i], f)
    {
      AddKeepsGroups(d, rs[..i], rs[i], f);
      assert rs[..i] + [rs[i]] == rs[..i + 1];
      d := d.Add(Key(rs[i], f), rs[i].amount);
      i := i + 1;
    }
    assert rs[..i] == rs;
    TallyTotal(rs, f);
  }
}
