/**
 Aggregates over a (filtered) table: total revenue, distinct counts, the
 mean line revenue, and revenue summed per value of one column.

 Sums over rows are taken from the last row backwards, so a table grows at
 its end exactly as the grouping below consumes it.
 */
module Aggregates {
  import opened Transactions

  datatype Option<T> = None | Some(value: T)

  /** Sum of the line revenue of all rows. */
  function Total(rows: seq<Row>): int {
    if |rows| == 0 then 0 else Total(rows[..|rows| - 1]) + rows[|rows| - 1].lineRevenue
  }

  /** The distinct values a column takes in the table. */
  function KeySet(rows: seq<Row>, col: Column): set<string> {
    if |rows| == 0 then {} else KeySet(rows[..|rows| - 1], col) + {KeyOf(rows[|rows| - 1], col)}
  }

  /** Every row's value is a distinct value and every distinct value is
      some row's; there are no more of them than rows, and at least one in
      a non-empty table. */
  lemma KeySetSpec(rows: seq<Row>, col: Column)
    ensures forall i :: 0 <= i < |rows| ==> KeyOf(rows[i], col) in KeySet(rows, col)
    ensures forall k :: k in KeySet(rows, col) ==> exists i :: 0 <= i < |rows| && KeyOf(rows[i], col) == k
    ensures |KeySet(rows, col)| <= |rows|
    ensures |rows| > 0 ==> |KeySet(rows, col)| >= 1
  {
    forall i | 0 <= i < |rows| ensures KeyOf(rows[i], col) in KeySet(rows, col) {
      KeySetHas(rows, col, i);
    }
    forall k | k in KeySet(rows, col) ensures exists i :: 0 <= i < |rows| && KeyOf(rows[i], col) == k {
      KeySetFrom(rows, col, k);
    }
    KeySetSize(rows, col);
  }

  /** Row `i`'s value is among the distinct values. */
  lemma {:induction false} KeySetHas(rows: seq<Row>, col: Column, i: nat)
    requires i < |rows|
    ensures KeyOf(rows[i], col) in KeySet(rows, col)
  {
    var init := rows[..|rows| - 1];
    if i < |init| {
      assert init[i] == rows[i];
      KeySetHas(init, col, i);
    }
  }

  /** Each distinct value is some row's. */
  lemma {:induction false} KeySetFrom(rows: seq<Row>, col: Column, k: string)
    requires k in KeySet(rows, col)
    ensures exists i :: 0 <= i < |rows| && KeyOf(rows[i], col) == k
  {
    var init := rows[..|rows| - 1];
    if k != KeyOf(rows[|rows| - 1], col) {
      KeySetFrom(init, col, k);
      var i :| 0 <= i < |init| && KeyOf(init[i], col) == k;
      assert init[i] == rows[i];
    }
  }

  /** There are at most as many distinct values as rows, and at least one
      in a non-empty table. */
  lemma {:induction false} KeySetSize(rows: seq<Row>, col: Column)
    ensures |KeySet(rows, col)| <= |rows|
    ensures |rows| > 0 ==> |KeySet(rows, col)| >= 1
  {
    if |rows| > 0 {
      KeySetSize(rows[..|rows| - 1], col);
      assert KeyOf(rows[|rows| - 1], col) in KeySet(rows, col);
    }
  }

  /** The number of distinct values of a column, collected in one pass. */
  method CountDistinct(rows: seq<Row>, col: Column) returns (n: nat)
    ensures n == |KeySet(rows, col)|
  {
    var seen: set<string> := {};
    var i := 0;
    while i < |rows|
      invariant 0 <= i <= |rows|
      invariant seen == KeySet(rows[..i], col)
    {
      assert rows[..i + 1][..i] == rows[..i];
      assert KeySet(rows[..i + 1], col) == KeySet(rows[..i], col) + {KeyOf(rows[i], col)};
      seen := seen + {KeyOf(rows[i], col)};
      i := i + 1;
    }
    assert rows[..|rows|] == rows;
    n := |seen|;
  }

  /** An exact fraction `num / den`. */
  datatype Ratio = Ratio(num: int, den: nat)

  /** The smaller of two amounts. */
  function Min(a: int, b: int): int {
    if a <= b then a else b
  }

  /** The larger of two amounts. */
  function Max(a: int, b: int): int {
    if a <= b then b else a
  }

  /** The smallest line revenue of a non-empty table. */
  function MinRevenue(rows: seq<Row>): int
    requires |rows| > 0
  {
    if |rows| == 1 then rows[0].lineRevenue
    else Min(MinRevenue(rows[..|rows| - 1]), rows[|rows| - 1].lineRevenue)
  }

  /** The largest line revenue of a non-empty table. */
  function MaxRevenue(rows: seq<Row>): int
    requires |rows| > 0
  {
    if |rows| == 1 then rows[0].lineRevenue
    else Max(MaxRevenue(rows[..|rows| - 1]), rows[|rows| - 1].lineRevenue)
  }

  /** The smallest and the largest line revenue bound every row's, and
      each is some row's. */
  lemma {:induction false} RevenueBounds(rows: seq<Row>)
    requires |rows| > 0
    ensures forall i :: 0 <= i < |rows| ==> MinRevenue(rows) <= rows[i].lineRevenue <= MaxRevenue(rows)
    ensures exists i :: 0 <= i < |rows| && rows[i].lineRevenue == MinRevenue(rows)
    ensures exists i :: 0 <= i < |rows| && rows[i].lineRevenue == MaxRevenue(rows)
  {
    if |rows| > 1 {
      var init := rows[..|rows| - 1];
      var last := |rows| - 1;
      RevenueBounds(init);
      assert forall i :: 0 <= i < |init| ==> init[i] == rows[i];
      var lo :| 0 <= lo < |init| && init[lo].lineRevenue == MinRevenue(init);
      var hi :| 0 <= hi < |init| && init[hi].lineRevenue == MaxRevenue(init);
      if rows[last].lineRevenue < MinRevenue(init) { lo := last; }
      if rows[last].lineRevenue > MaxRevenue(init) { hi := last; }
      assert rows[lo].lineRevenue == MinRevenue(rows);
      assert rows[hi].lineRevenue == MaxRevenue(rows);
    } else {
      assert rows[0].lineRevenue == MinRevenue(rows) == MaxRevenue(rows);
    }
  }

  /** Mean line revenue: the total over the number of rows, and no value
      at all for an empty table. The fraction lies between the smallest
      and the largest line revenue. */
  function MeanRevenue(rows: seq<Row>): (mean: Option<Ratio>)
    ensures mean.None? <==> |rows| == 0
    ensures mean.Some? ==> mean.value.den == |rows| && mean.value.num == Total(rows)
    ensures mean.Some? ==>
      MinRevenue(rows) * mean.value.den <= mean.value.num <= MaxRevenue(rows) * mean.value.den
  {
    if |rows| == 0 then None
    else
      RevenueBounds(rows);
      TotalWithin(rows, MinRevenue(rows), MaxRevenue(rows));
      Some(Ratio(Total(rows), |rows|))
  }

  /** Bounds on each row bound the total: `lo * n <= Total <= hi * n`. */
  lemma {:induction false} TotalWithin(rows: seq<Row>, lo: int, hi: int)
    requires forall i :: 0 <= i < |rows| ==> lo <= rows[i].lineRevenue <= hi
    ensures lo * |rows| <= Total(rows) <= hi * |rows|
  {
    if |rows| > 0 {
      var init := rows[..|rows| - 1];
      assert forall i :: 0 <= i < |init| ==> init[i] == rows[i];
      TotalWithin(init, lo, hi);
      assert lo * |rows| == lo * |init| + lo;
      assert hi * |rows| == hi * |init| + hi;
    }
  }

  /** The mean lies between the smallest and the largest line revenue. */
  lemma MeanWithinRange(rows: seq<Row>, lo: int, hi: int)
    requires forall i :: 0 <= i < |rows| ==> lo <= rows[i].lineRevenue <= hi
    ensures MeanRevenue(rows).Some? ==>
      lo * MeanRevenue(rows).value.den <= MeanRevenue(rows).value.num <= hi * MeanRevenue(rows).value.den
  {
    TotalWithin(rows, lo, hi);
  }

  /** The four headline numbers of the dashboard. */
  datatype Kpis = Kpis(totalRevenue: int, transactions: nat, meanRevenue: Ratio, customers: nat)

  /** The headline numbers of a non-empty table; `None` for an empty one,
      where the mean has no value. */
  method ComputeKpis(rows: seq<Row>) returns (kpis: Option<Kpis>)
    ensures kpis.None? <==> |rows| == 0
    ensures kpis.Some? ==>
      && kpis.value.totalRevenue == Total(rows)
      && kpis.value.transactions == |KeySet(rows, TransactionId)|
      && kpis.value.customers == |KeySet(rows, CustomerId)|
      && 1 <= kpis.value.transactions <= |rows|
      && 1 <= kpis.value.customers <= |rows|
      && MeanRevenue(rows) == Some(kpis.value.meanRevenue)
  {
    var mean := MeanRevenue(rows);
    if mean.None? {
      return None;
    }
    KeySetSpec(rows, TransactionId);
    KeySetSpec(rows, CustomerId);
    var transactions := CountDistinct(rows, TransactionId);
    var customers := CountDistinct(rows, CustomerId);
    kpis := Some(Kpis(Total(rows), transactions, mean.value, customers));
  }

  /** Revenue summed for one value of a column. */
  datatype Group = Group(key: string, revenue: int)

  /** The keys appearing in a list of groups. */
  function GroupKeys(gs: seq<Group>): set<string> {
    set g | g in gs :: g.key
  }

  /** No key occurs twice. */
  predicate DistinctKeys(gs: seq<Group>) {
    forall i, j :: 0 <= i < j < |gs| ==> gs[i].key != gs[j].key
  }

  /** Sum of the revenue of all groups. */
  function SumGroups(gs: seq<Group>): int {
    if |gs| == 0 then 0 else gs[0].revenue + SumGroups(gs[1..])
  }

  /** Summing a list with one more group in front. */
  lemma SumCons(g: Group, gs: seq<Group>)
    ensures SumGroups([g] + gs) == g.revenue + SumGroups(gs)
  {
    assert ([g] + gs)[1..] == gs;
  }

  /** Taking out the group at position `j` takes its revenue off the sum. */
  lemma {:induction false} SumRemove(b: seq<Group>, j: nat)
    requires j < |b|
    ensures SumGroups(b) == b[j].revenue + SumGroups(b[..j] + b[j + 1..])
  {
    if j == 0 {
      assert b[..0] + b[1..] == b[1..];
    } else {
      var tail := b[1..];
      assert b[..j] + b[j + 1..] == [b[0]] + (tail[..j - 1] + tail[j..]);
      SumRemove(tail, j - 1);
      SumCons(b[0], tail[..j - 1] + tail[j..]);
    }
  }

  /** Taking out the group at position `j` takes one copy of it out of
      the list's groups. */
  lemma RemoveOne(b: seq<Group>, j: nat)
    requires j < |b|
    ensures multiset(b[..j] + b[j + 1..]) == multiset(b) - multiset{b[j]}
  {
    assert b == b[..j] + [b[j]] + b[j + 1..];
  }

  /** The tail holds the list's groups less one copy of the first. */
  lemma RemoveHead(a: seq<Group>)
    requires |a| > 0
    ensures multiset(a[1..]) == multiset(a) - multiset{a[0]}
  {
    assert a == [a[0]] + a[1..];
  }

  /** Lists holding the same groups have the same total revenue, whatever
      their order. */
  lemma {:induction false} SameGroupsSameSum(a: seq<Group>, b: seq<Group>)
    requires multiset(a) == multiset(b)
    ensures SumGroups(a) == SumGroups(b)
  {
    if |a| == 0 {
      assert b == [] by {
        assert |multiset(b)| == 0;
      }
    } else {
      var j := PositionOf(a[0], b);
      var rest := b[..j] + b[j + 1..];
      assert multiset(a[1..]) == multiset(rest) by {
        RemoveOne(b, j);
        RemoveHead(a);
      }
      SameGroupsSameSum(a[1..], rest);
      SumStep(a, b, j);
    }
  }

  /** Matching the first group of `a` with the group at `j` in `b`: equal
      sums of the remainders give equal sums. */
  lemma SumStep(a: seq<Group>, b: seq<Group>, j: nat)
    requires |a| > 0 && j < |b| && b[j] == a[0]
    requires SumGroups(a[1..]) == SumGroups(b[..j] + b[j + 1..])
    ensures SumGroups(a) == SumGroups(b)
  {
    SumRemove(b, j);
  }

  /** A position holding a group that the list holds. */
  lemma PositionOf(x: Group, b: seq<Group>) returns (j: nat)
    requires x in multiset(b)
    ensures j < |b| && b[j] == x
  {
    j :| j < |b| && b[j] == x;
  }

  /** The revenue recorded for `key`, and zero for a key with no group. */
  function Lookup(gs: seq<Group>, key: string): (revenue: int)
    ensures key !in GroupKeys(gs) ==> revenue == 0
  {
    if |gs| == 0 then 0
    else if gs[0].key == key then gs[0].revenue
    else
      assert GroupKeys(gs[1..]) <= GroupKeys(gs) by {
        forall g | g in gs[1..] ensures g in gs { }
      }
      Lookup(gs[1..], key)
  }

  /** Among groups with distinct keys, a group's key looks up its own
      revenue. */
  lemma {:induction false} LookupMember(gs: seq<Group>, g: Group)
    requires DistinctKeys(gs) && g in gs
    ensures Lookup(gs, g.key) == g.revenue
  {
    if gs[0] != g {
      assert g in gs[1..];
      var j :| 1 <= j < |gs| && gs[j] == g;
      assert gs[0].key != gs[j].key;
      LookupMember(gs[1..], g);
    }
  }

  /** Groups with distinct keys: as many groups as keys. */
  lemma {:induction false} DistinctKeysCount(gs: seq<Group>)
    requires DistinctKeys(gs)
    ensures |GroupKeys(gs)| == |gs|
  {
    if |gs| > 0 {
      DistinctKeysCount(gs[1..]);
      KeysCons(gs[0], gs[1..]);
      HeadKeyNotInTail(gs);
      assert gs == [gs[0]] + gs[1..];
    }
  }

  /** The keys of a list with one more group in front. */
  lemma KeysCons(g: Group, gs: seq<Group>)
    ensures GroupKeys([g] + gs) == {g.key} + GroupKeys(gs)
  {
    assert forall h :: h in [g] + gs <==> h == g || h in gs;
  }

  /** Lists holding the same groups have the same keys. */
  lemma SameGroupsSameKeys(a: seq<Group>, b: seq<Group>)
    requires multiset(a) == multiset(b)
    ensures GroupKeys(a) == GroupKeys(b)
  {
    assert forall x :: x in a <==> x in multiset(a);
    assert forall x :: x in b <==> x in multiset(b);
  }

  /** With distinct keys, the first key does not occur again. */
  lemma HeadKeyNotInTail(gs: seq<Group>)
    requires |gs| > 0 && DistinctKeys(gs)
    ensures gs[0].key !in GroupKeys(gs[1..])
  {
    forall g | g in gs[1..] ensures g.key != gs[0].key {
      var j :| 0 <= j < |gs[1..]| && gs[1..][j] == g;
      assert gs[j + 1] == g;
    }
  }

  /** Adds `amount` to the group of `key`, opening a new group at the end
      when the key has none yet. */
  function AddTo(gs: seq<Group>, key: string, amount: int): (added: seq<Group>)
    requires DistinctKeys(gs)
    ensures DistinctKeys(added)
    ensures GroupKeys(added) == GroupKeys(gs) + {key}
    ensures SumGroups(added) == SumGroups(gs) + amount
    ensures forall k :: Lookup(added, k) == Lookup(gs, k) + (if k == key then amount else 0)
  {
    if |gs| == 0 then [Group(key, amount)]
    else if gs[0].key == key then
      var added := [Group(key, gs[0].revenue + amount)] + gs[1..];
      HeadKeyNotInTail(gs);
      KeysCons(added[0], gs[1..]);
      KeysCons(gs[0], gs[1..]);
      assert gs == [gs[0]] + gs[1..];
      assert added[1..] == gs[1..];
      added
    else
      var tail := AddTo(gs[1..], key, amount);
      var added := [gs[0]] + tail;
      HeadKeyNotInTail(gs);
      KeysCons(gs[0], tail);
      KeysCons(gs[0], gs[1..]);
      assert gs == [gs[0]] + gs[1..];
      assert added[1..] == tail;
      assert DistinctKeys(added) by {
        forall i, j | 0 <= i < j < |added| ensures added[i].key != added[j].key {
          if i == 0 {
            assert added[j] in tail;
          } else {
            assert added[i] == tail[i - 1] && added[j] == tail[j - 1];
          }
        }
      }
      added
  }

  /** Revenue of the rows whose column holds `key`. */
  function GroupRevenue(rows: seq<Row>, col: Column, key: string): int {
    if |rows| == 0 then 0
    else
      GroupRevenue(rows[..|rows| - 1], col, key)
      + (if KeyOf(rows[|rows| - 1], col) == key then rows[|rows| - 1].lineRevenue else 0)
  }

  /** Group-by-sum: exactly one group per distinct value of the column
      present in the table, holding that value's full revenue; absent
      values get no group, and the groups together hold the table's whole
      revenue. */
  function GroupSum(rows: seq<Row>, col: Column): (gs: seq<Group>)
    ensures DistinctKeys(gs)
    ensures GroupKeys(gs) == KeySet(rows, col)
    ensures |gs| == |KeySet(rows, col)|
    ensures forall k :: Lookup(gs, k) == GroupRevenue(rows, col, k)
    ensures forall g :: g in gs ==> g.revenue == GroupRevenue(rows, col, g.key)
    ensures SumGroups(gs) == Total(rows)
  {
    if |rows| == 0 then []
    else
      var last := rows[|rows| - 1];
      var gs := AddTo(GroupSum(rows[..|rows| - 1], col), KeyOf(last, col), last.lineRevenue);
      DistinctKeysCount(gs);
      assert forall g :: g in gs ==> g.revenue == GroupRevenue(rows, col, g.key) by {
        forall g | g in gs ensures g.revenue == GroupRevenue(rows, col, g.key) {
          LookupMember(gs, g);
        }
      }
      gs
  }
}
