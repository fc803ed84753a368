/**
 Ordering of grouped revenue: the bar charts sorted by revenue, and the
 top-five tables of products and customers. Only the order by revenue is
 modelled; the relative order of groups with equal revenue is left open,
 as the dashboard's sort promises none.
 */
module Ranking {
  import opened Transactions
  import opened Aggregates

  /** `a` may stand before `b`: no more revenue when ascending, no less
      when descending. */
  predicate InOrder(a: Group, b: Group, ascending: bool) {
    if ascending then a.revenue <= b.revenue else a.revenue >= b.revenue
  }

  /** Every group may stand before every later one. */
  predicate Ranked(gs: seq<Group>, ascending: bool) {
    forall i, j :: 0 <= i < j < |gs| ==> InOrder(gs[i], gs[j], ascending)
  }

  /** A group that may stand before every member of a ranked list may
      head it. */
  lemma RankedCons(x: Group, s: seq<Group>, ascending: bool)
    requires Ranked(s, ascending)
    requires forall y :: y in s ==> InOrder(x, y, ascending)
    ensures Ranked([x] + s, ascending)
  {
    var xs := [x] + s;
    forall i, j | 0 <= i < j < |xs| ensures InOrder(xs[i], xs[j], ascending) {
      if i == 0 {
        assert xs[j] == s[j - 1];
      } else {
        assert xs[i] == s[i - 1] && xs[j] == s[j - 1];
      }
    }
  }

  /** Inserts a group into a ranked list. */
  function Place(g: Group, ranked: seq<Group>, ascending: bool): (placed: seq<Group>)
    requires Ranked(ranked, ascending)
    ensures Ranked(placed, ascending)
    ensures multiset(placed) == multiset(ranked) + multiset{g}
  {
    if |ranked| == 0 then [g]
    else if InOrder(g, ranked[0], ascending) then
      assert forall y :: y in ranked ==> InOrder(g, y, ascending) by {
        forall y | y in ranked ensures InOrder(g, y, ascending) {
          var j :| 0 <= j < |ranked| && ranked[j] == y;
          if j > 0 { assert InOrder(ranked[0], ranked[j], ascending); }
        }
      }
      RankedCons(g, ranked, ascending);
      [g] + ranked
    else
      var rest := Place(g, ranked[1..], ascending);
      assert ranked == [ranked[0]] + ranked[1..];
      assert forall y :: y in rest ==> InOrder(ranked[0], y, ascending) by {
        forall y | y in rest ensures InOrder(ranked[0], y, ascending) {
          assert y in multiset(rest);
          if y != g {
            assert y in multiset(ranked[1..]);
            var j :| 0 <= j < |ranked[1..]| && ranked[1..][j] == y;
            assert ranked[j + 1] == y;
          }
        }
      }
      RankedCons(ranked[0], rest, ascending);
      [ranked[0]] + rest
  }

  /** Placing a group adds its revenue to the list's sum. */
  lemma {:induction false} PlaceAddsRevenue(g: Group, ranked: seq<Group>, ascending: bool)
    requires Ranked(ranked, ascending)
    ensures SumGroups(Place(g, ranked, ascending)) == SumGroups(ranked) + g.revenue
  {
    if |ranked| == 0 {
      SumCons(g, []);
      assert [g] + [] == [g];
    } else if InOrder(g, ranked[0], ascending) {
      SumCons(g, ranked);
    } else {
      PlaceAddsRevenue(g, ranked[1..], ascending);
      SumCons(ranked[0], Place(g, ranked[1..], ascending));
    }
  }

  /** A group whose key is new may head a list with distinct keys. */
  lemma DistinctCons(x: Group, s: seq<Group>)
    requires DistinctKeys(s) && x.key !in GroupKeys(s)
    ensures DistinctKeys([x] + s)
  {
    var xs := [x] + s;
    forall i, j | 0 <= i < j < |xs| ensures xs[i].key != xs[j].key {
      if i == 0 {
        assert xs[j] in s;
      } else {
        assert xs[i] == s[i - 1] && xs[j] == s[j - 1];
      }
    }
  }

  /** The keys of a list with one more group at the end. */
  lemma KeysSnoc(gs: seq<Group>, g: Group)
    ensures GroupKeys(gs + [g]) == GroupKeys(gs) + {g.key}
  {
    assert forall h :: h in gs + [g] <==> h in gs || h == g;
  }

  /** Placing a group whose key is new keeps keys distinct. */
  lemma {:induction false} PlaceKeepsDistinct(g: Group, ranked: seq<Group>, ascending: bool)
    requires Ranked(ranked, ascending) && DistinctKeys(ranked) && g.key !in GroupKeys(ranked)
    ensures DistinctKeys(Place(g, ranked, ascending))
  {
    if |ranked| == 0 {
    } else if InOrder(g, ranked[0], ascending) {
      DistinctCons(g, ranked);
    } else {
      var tail := ranked[1..];
      assert g.key !in GroupKeys(tail) && ranked[0].key != g.key && ranked[0].key !in GroupKeys(tail) by {
        assert ranked == [ranked[0]] + tail;
        KeysCons(ranked[0], tail);
        HeadKeyNotInTail(ranked);
      }
      PlaceKeepsDistinct(g, tail, ascending);
      var rest := Place(g, tail, ascending);
      assert ranked[0].key !in GroupKeys(rest) by {
        SameGroupsSameKeys(rest, tail + [g]);
        KeysSnoc(tail, g);
      }
      DistinctCons(ranked[0], rest);
    }
  }

  /** The groups reordered by revenue: a permutation that is ranked. */
  function SortByRevenue(gs: seq<Group>, ascending: bool): (sorted: seq<Group>)
    ensures Ranked(sorted, ascending)
    ensures multiset(sorted) == multiset(gs)
  {
    if |gs| == 0 then []
    else
      assert gs == [gs[0]] + gs[1..];
      Place(gs[0], SortByRevenue(gs[1..], ascending), ascending)
  }

  /** Sorting keeps the total revenue. */
  lemma {:induction false} SortKeepsSum(gs: seq<Group>, ascending: bool)
    ensures SumGroups(SortByRevenue(gs, ascending)) == SumGroups(gs)
  {
    if |gs| > 0 {
      SortKeepsSum(gs[1..], ascending);
      PlaceAddsRevenue(gs[0], SortByRevenue(gs[1..], ascending), ascending);
    }
  }

  /** Sorting keeps distinct keys distinct. */
  lemma {:induction false} SortKeepsDistinct(gs: seq<Group>, ascending: bool)
    requires DistinctKeys(gs)
    ensures DistinctKeys(SortByRevenue(gs, ascending))
  {
    if |gs| > 0 {
      var rest := SortByRevenue(gs[1..], ascending);
      SortKeepsDistinct(gs[1..], ascending);
      HeadKeyNotInTail(gs);
      SameGroupsSameKeys(rest, gs[1..]);
      PlaceKeepsDistinct(gs[0], rest, ascending);
    }
  }

  /** The first `n` groups by descending revenue (all of them when there
      are fewer): each chosen group has at least the revenue of every group
      left out. */
  function Top(gs: seq<Group>, n: nat): (top: seq<Group>)
    ensures |top| == if n < |gs| then n else |gs|
    ensures Ranked(top, false)
    ensures multiset(top) <= multiset(gs)
    ensures DistinctKeys(gs) ==> DistinctKeys(top)
    ensures forall t, g :: t in top && g in gs && g !in top ==> t.revenue >= g.revenue
  {
    var sorted := SortByRevenue(gs, false);
    assert DistinctKeys(gs) ==> DistinctKeys(sorted) by {
      if DistinctKeys(gs) { SortKeepsDistinct(gs, false); }
    }
    var k := if n < |gs| then n else |gs|;
    assert |sorted| == |gs| by {
      assert |multiset(sorted)| == |multiset(gs)|;
    }
    PrefixOfRanked(sorted, k);
    assert forall g :: g in gs ==> g in sorted by {
      forall g | g in gs ensures g in sorted {
        assert g in multiset(gs);
      }
    }
    sorted[..k]
  }

  /** A prefix of a descending ranking is ranked, keeps distinct keys, is
      drawn from the ranking, and beats every group after it. */
  lemma PrefixOfRanked(sorted: seq<Group>, k: nat)
    requires Ranked(sorted, false) && k <= |sorted|
    ensures Ranked(sorted[..k], false)
    ensures multiset(sorted[..k]) <= multiset(sorted)
    ensures DistinctKeys(sorted) ==> DistinctKeys(sorted[..k])
    ensures forall t, g :: t in sorted[..k] && g in sorted && g !in sorted[..k] ==> t.revenue >= g.revenue
  {
    var top := sorted[..k];
    assert forall i :: 0 <= i < k ==> top[i] == sorted[i];
    assert sorted == top + sorted[k..];
    assert multiset(sorted) == multiset(top) + multiset(sorted[k..]);
    forall t, g | t in top && g in sorted && g !in top ensures t.revenue >= g.revenue {
      var j :| 0 <= j < |sorted| && sorted[j] == g;
      var i :| 0 <= i < |top| && top[i] == t;
      assert InOrder(sorted[i], sorted[j], false);
    }
  }

  /** The top-five ranking of products or customers. */
  const TopCount: nat := 5

  /** Top five keys of a column by summed revenue: `min(5, distinct keys)`
      entries, distinct keys, non-increasing revenue, each entry holding its
      key's full revenue, and no key left out that earns more than a chosen
      one. */
  function TopFive(rows: seq<Row>, col: Column): (top: seq<Group>)
    ensures |top| == if TopCount < |KeySet(rows, col)| then TopCount else |KeySet(rows, col)|
    ensures Ranked(top, false)
    ensures DistinctKeys(top)
    ensures forall t :: t in top ==> t.revenue == GroupRevenue(rows, col, t.key) && t.key in KeySet(rows, col)
    ensures forall t, g :: t in top && g in GroupSum(rows, col) && g !in top ==> t.revenue >= g.revenue
  {
    var gs := GroupSum(rows, col);
    var top := Top(gs, TopCount);
    assert forall t :: t in top ==> t in gs by {
      forall t | t in top ensures t in gs {
        assert t in multiset(top);
      }
    }
    top
  }

}
