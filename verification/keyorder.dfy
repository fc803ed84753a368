/**
 The key order of a group-by: pandas' `groupby` sorts its keys, and for
 text keys that is Python's string order, code point by code point with a
 proper prefix first. The charts that are not re-sorted by revenue show
 their groups in this order.
 */
module KeyOrder {
  import opened Transactions
  import opened Aggregates

  /** `a` comes strictly before `b` in Python's string order. */
  predicate Below(a: string, b: string)
    decreases |a|
  {
    if |a| == 0 then |b| > 0
    else if |b| == 0 then false
    else a[0] < b[0] || (a[0] == b[0] && Below(a[1..], b[1..]))
  }

  /** No string comes before itself. */
  lemma {:induction false} BelowIrreflexive(a: string)
    ensures !Below(a, a)
  {
    if |a| > 0 {
      BelowIrreflexive(a[1..]);
    }
  }

  /** The order is transitive. */
  lemma {:induction false} BelowTransitive(a: string, b: string, c: string)
    requires Below(a, b) && Below(b, c)
    ensures Below(a, c)
  {
    if |a| > 0 && a[0] == b[0] && b[0] == c[0] {
      BelowTransitive(a[1..], b[1..], c[1..]);
    }
  }

  /** Of two different strings, one comes before the other. */
  lemma {:induction false} BelowTotal(a: string, b: string)
    requires a != b
    ensures Below(a, b) || Below(b, a)
  {
    if |a| > 0 && |b| > 0 && a[0] == b[0] {
      assert a == [a[0]] + a[1..];
      assert b == [b[0]] + b[1..];
      BelowTotal(a[1..], b[1..]);
    }
  }

  /** Keys strictly increasing in string order. */
  predicate KeySorted(gs: seq<Group>) {
    forall i, j :: 0 <= i < j < |gs| ==> Below(gs[i].key, gs[j].key)
  }

  /** Strictly increasing keys are distinct. */
  lemma KeySortedIsDistinct(gs: seq<Group>)
    requires KeySorted(gs)
    ensures DistinctKeys(gs)
  {
    forall i, j | 0 <= i < j < |gs| ensures gs[i].key != gs[j].key {
      BelowIrreflexive(gs[i].key);
    }
  }

  /** A group whose key comes before every key of a key-sorted list may
      head it. */
  lemma KeySortedCons(x: Group, s: seq<Group>)
    requires KeySorted(s)
    requires forall y :: y in s ==> Below(x.key, y.key)
    ensures KeySorted([x] + s)
  {
    var xs := [x] + s;
    forall i, j | 0 <= i < j < |xs| ensures Below(xs[i].key, xs[j].key) {
      if i == 0 {
        assert xs[j] == s[j - 1];
      } else {
        assert xs[i] == s[i - 1] && xs[j] == s[j - 1];
      }
    }
  }

  /** A key before the first of a key-sorted list is before all of
      them. */
  lemma BelowHeadBelowAll(x: Group, gs: seq<Group>)
    requires KeySorted(gs) && |gs| > 0 && Below(x.key, gs[0].key)
    ensures forall y :: y in gs ==> Below(x.key, y.key)
  {
    forall y | y in gs ensures Below(x.key, y.key) {
      var j :| 0 <= j < |gs| && gs[j] == y;
      if j > 0 { BelowTransitive(x.key, gs[0].key, gs[j].key); }
    }
  }

  /** The head of a key-sorted list stays before everything in a list
      holding its tail and one group with a later key. */
  lemma HeadBelowRest(gs: seq<Group>, g: Group, rest: seq<Group>)
    requires KeySorted(gs) && |gs| > 0 && Below(gs[0].key, g.key)
    requires multiset(rest) == multiset(gs[1..]) + multiset{g}
    ensures forall y :: y in rest ==> Below(gs[0].key, y.key)
  {
    var tail := gs[1..];
    forall y | y in rest ensures Below(gs[0].key, y.key) {
      assert y in multiset(rest);
      if y != g {
        assert y in multiset(tail);
        var j :| 0 <= j < |tail| && tail[j] == y;
        assert gs[j + 1] == y;
      }
    }
  }

  /** Inserts a group with a new key into a key-sorted list. */
  function InsertByKey(g: Group, gs: seq<Group>): (out: seq<Group>)
    requires KeySorted(gs) && g.key !in GroupKeys(gs)
    ensures KeySorted(out)
    ensures multiset(out) == multiset(gs) + multiset{g}
  {
    if |gs| == 0 then [g]
    else if Below(g.key, gs[0].key) then
      BelowHeadBelowAll(g, gs);
      KeySortedCons(g, gs);
      [g] + gs
    else
      var tail := gs[1..];
      assert gs == [gs[0]] + tail;
      assert Below(gs[0].key, g.key) && g.key !in GroupKeys(tail) by {
        KeysCons(gs[0], tail);
        BelowTotal(gs[0].key, g.key);
      }
      var rest := InsertByKey(g, tail);
      HeadBelowRest(gs, g, rest);
      KeySortedCons(gs[0], rest);
      [gs[0]] + rest
  }

  /** Groups with distinct keys reordered by key: a key-sorted
      permutation. */
  function SortByKey(gs: seq<Group>): (sorted: seq<Group>)
    requires DistinctKeys(gs)
    ensures KeySorted(sorted)
    ensures multiset(sorted) == multiset(gs)
  {
    if |gs| == 0 then []
    else
      var tail := gs[1..];
      assert gs == [gs[0]] + tail;
      assert DistinctKeys(tail) by {
        forall i, j | 0 <= i < j < |tail| ensures tail[i].key != tail[j].key {
          assert tail[i] == gs[i + 1] && tail[j] == gs[j + 1];
        }
      }
      var rest := SortByKey(tail);
      assert gs[0].key !in GroupKeys(rest) by {
        HeadKeyNotInTail(gs);
        SameGroupsSameKeys(rest, tail);
      }
      InsertByKey(gs[0], rest)
  }

  /** A list of groups is determined by its groups once its keys are
      strictly increasing: there is one key-sorted arrangement only. */
  lemma {:induction false} KeySortedUnique(a: seq<Group>, b: seq<Group>)
    requires KeySorted(a) && KeySorted(b) && multiset(a) == multiset(b)
    ensures a == b
  {
    if |a| == 0 {
      assert |multiset(b)| == 0;
    } else {
      assert a[0] in multiset(b);
      assert |b| > 0;
      assert b[0] in multiset(a);
      var j :| 0 <= j < |b| && b[j] == a[0];
      var i :| 0 <= i < |a| && a[i] == b[0];
      if a[0] != b[0] {
        assert Below(a[0].key, b[0].key) && Below(b[0].key, a[0].key) by {
          assert i > 0 && j > 0;
        }
        BelowTransitive(a[0].key, b[0].key, a[0].key);
        BelowIrreflexive(a[0].key);
        assert false;
      }
      assert a == [a[0]] + a[1..];
      assert b == [b[0]] + b[1..];
      assert multiset(a[1..]) == multiset(a) - multiset{a[0]};
      assert multiset(b[1..]) == multiset(b) - multiset{b[0]};
      KeySortedUnique(a[1..], b[1..]);
    }
  }

  /** Group-by-sum with the keys in sorted order, as `groupby().sum()`
      returns it: strictly increasing keys, exactly the column's distinct
      values, each holding its value's full revenue. */
  function GroupSumByKey(rows: seq<Row>, col: Column): (gs: seq<Group>)
    ensures KeySorted(gs)
    ensures multiset(gs) == multiset(GroupSum(rows, col))
    ensures GroupKeys(gs) == KeySet(rows, col)
    ensures forall g :: g in gs ==> g.revenue == GroupRevenue(rows, col, g.key)
  {
    var sorted := SortByKey(GroupSum(rows, col));
    SameGroupsSameKeys(sorted, GroupSum(rows, col));
    assert forall g :: g in sorted ==> g in GroupSum(rows, col) by {
      forall g | g in sorted ensures g in GroupSum(rows, col) {
        assert g in multiset(sorted);
      }
    }
    sorted
  }
}
