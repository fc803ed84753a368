/**
 The dashboard's row filter. The user's criteria name five dimensions: an
 inclusive date range, a set of stores, one channel, a set of categories
 and a set of customer segments. Each dimension is applied as its own
 step, in that order, and only when it is active: the date range only
 when both endpoints are chosen, a set only when it is non-empty, the
 channel only when it is not the sentinel "All".

 `Pipeline` is the step-by-step filter as the dashboard runs it; `Where`
 is a one-pass filter by the conjunction of the dimensions; `Matches` is
 the same conjunction written out field by field. The lemmas connect the
 three and derive idempotence, commutativity and the inactive no-op.
 */
module Filters {
  import opened Transactions

  /** The channel choice that means "every channel". */
  const AllChannels: string := "All"

  /** The user's selections. `dateRange` is the list the date picker
      returns, which holds fewer than two dates while a range is being
      picked. */
  datatype Criteria = Criteria(
    dateRange: seq<int>,
    stores: seq<string>,
    channel: string,
    categories: seq<string>,
    segments: seq<string>)

  /** One filtering dimension with its selection. */
  datatype Dimension =
    | DateRange(bounds: seq<int>)
    | StoreIn(stores: seq<string>)
    | ChannelIs(channel: string)
    | CategoryIn(categories: seq<string>)
    | SegmentIn(segments: seq<string>)

  /** Whether the dashboard applies the dimension at all. */
  predicate Active(d: Dimension) {
    match d
    case DateRange(b) => |b| == 2
    case StoreIn(s) => |s| > 0
    case ChannelIs(ch) => ch != AllChannels
    case CategoryIn(s) => |s| > 0
    case SegmentIn(s) => |s| > 0
  }

  /** Whether a row gets past the dimension; an inactive dimension passes
      every row. */
  predicate Passes(d: Dimension, r: Row) {
    match d
    case DateRange(b) => |b| == 2 ==> b[0] <= r.txn.date <= b[1]
    case StoreIn(s) => |s| > 0 ==> r.txn.storeLocation in s
    case ChannelIs(ch) => ch != AllChannels ==> r.txn.channel == ch
    case CategoryIn(s) => |s| > 0 ==> r.txn.productCategory in s
    case SegmentIn(s) => |s| > 0 ==> r.txn.customerSegment in s
  }

  /** Whether a row gets past every dimension in `ds`. */
  predicate PassesAll(ds: seq<Dimension>, r: Row) {
    forall i :: 0 <= i < |ds| ==> Passes(ds[i], r)
  }

  /** `a` is `b` with some elements removed, the rest in their order. */
  predicate IsSubsequence<T(==)>(a: seq<T>, b: seq<T>)
    decreases |b|
  {
    && |a| <= |b|
    && (|a| == 0
        || (a[0] == b[0] && IsSubsequence(a[1..], b[1..]))
        || IsSubsequence(a, b[1..]))
  }

  /** One-pass filter by every dimension in `ds`. */
  function Where(rows: seq<Row>, ds: seq<Dimension>): seq<Row> {
    if |rows| == 0 then []
    else if PassesAll(ds, rows[0]) then [rows[0]] + Where(rows[1..], ds)
    else Where(rows[1..], ds)
  }

  /** The one-pass filter keeps the rows passing every dimension in `ds`:
      an order-preserving subsequence of the input in which each passing
      row keeps its full multiplicity and each failing row is gone. */
  lemma {:induction false} WhereSpec(rows: seq<Row>, ds: seq<Dimension>)
    ensures IsSubsequence(Where(rows, ds), rows)
    ensures forall i :: 0 <= i < |Where(rows, ds)| ==> PassesAll(ds, Where(rows, ds)[i])
    ensures forall r :: multiset(Where(rows, ds))[r] == if PassesAll(ds, r) then multiset(rows)[r] else 0
  {
    if |rows| > 0 {
      WhereSpec(rows[1..], ds);
      assert rows == [rows[0]] + rows[1..];
      var rest := Where(rows[1..], ds);
      if PassesAll(ds, rows[0]) {
        assert ([rows[0]] + rest)[1..] == rest;
      }
    }
  }

  /** One guarded step of the dashboard's filter: an inactive dimension
      leaves the table as it is. */
  function ApplyStep(rows: seq<Row>, d: Dimension): seq<Row> {
    if Active(d) then Where(rows, [d]) else rows
  }

  /** The guarded steps applied one after another, `ds[0]` first. */
  function Pipeline(rows: seq<Row>, ds: seq<Dimension>): seq<Row>
    decreases |ds|
  {
    if |ds| == 0 then rows else Pipeline(ApplyStep(rows, ds[0]), ds[1..])
  }

  /** The dimensions of a criteria value, in the order the dashboard
      applies them. */
  function Dimensions(c: Criteria): seq<Dimension> {
    [DateRange(c.dateRange), StoreIn(c.stores), ChannelIs(c.channel),
     CategoryIn(c.categories), SegmentIn(c.segments)]
  }

  /** Reference definition: a row satisfies every active selection. */
  predicate Matches(c: Criteria, r: Row) {
    && (|c.dateRange| == 2 ==> c.dateRange[0] <= r.txn.date && r.txn.date <= c.dateRange[1])
    && (|c.stores| > 0 ==> r.txn.storeLocation in c.stores)
    && (c.channel != AllChannels ==> r.txn.channel == c.channel)
    && (|c.categories| > 0 ==> r.txn.productCategory in c.categories)
    && (|c.segments| > 0 ==> r.txn.customerSegment in c.segments)
  }

  /** The filtered table the dashboard aggregates: an order-preserving
      subsequence of the input holding exactly the rows that satisfy every
      active selection, none dropped and none duplicated. */
  function FilterRows(rows: seq<Row>, c: Criteria): (kept: seq<Row>)
    ensures IsSubsequence(kept, rows)
    ensures forall i :: 0 <= i < |kept| ==> Matches(c, kept[i])
    ensures forall r :: multiset(kept)[r] == if Matches(c, r) then multiset(rows)[r] else 0
  {
    PipelineIsWhere(rows, Dimensions(c));
    WhereSpec(rows, Dimensions(c));
    MatchesIsPassesAll(c);
    Pipeline(rows, Dimensions(c))
  }

  lemma MatchesIsPassesAll(c: Criteria)
    ensures forall r :: Matches(c, r) <==> PassesAll(Dimensions(c), r)
  {
    forall r ensures Matches(c, r) <==> PassesAll(Dimensions(c), r) {
      var ds := Dimensions(c);
      assert (Passes(ds[0], r) && Passes(ds[1], r) && Passes(ds[2], r)
              && Passes(ds[3], r) && Passes(ds[4], r)) <==> PassesAll(ds, r);
    }
  }

  lemma PassesAllConcat(a: seq<Dimension>, b: seq<Dimension>, r: Row)
    ensures PassesAll(a + b, r) <==> PassesAll(a, r) && PassesAll(b, r)
  {
    if PassesAll(a, r) && PassesAll(b, r) {
      forall i | 0 <= i < |a + b| ensures Passes((a + b)[i], r) {
        if i < |a| { assert (a + b)[i] == a[i]; } else { assert (a + b)[i] == b[i - |a|]; }
      }
    }
    if PassesAll(a + b, r) {
      forall i | 0 <= i < |a| ensures Passes(a[i], r) { assert (a + b)[i] == a[i]; }
      forall i | 0 <= i < |b| ensures Passes(b[i], r) { assert (a + b)[|a| + i] == b[i]; }
    }
  }

  /** A filter none of whose rows fail changes nothing. */
  lemma {:induction false} WhereKeepsAll(rows: seq<Row>, ds: seq<Dimension>)
    requires forall i :: 0 <= i < |rows| ==> PassesAll(ds, rows[i])
    ensures Where(rows, ds) == rows
  {
    if |rows| > 0 {
      WhereKeepsAll(rows[1..], ds);
    }
  }

  /** Two filters that agree on every row of the table give the same
      result. */
  lemma {:induction false} WhereCongruent(rows: seq<Row>, a: seq<Dimension>, b: seq<Dimension>)
    requires forall i :: 0 <= i < |rows| ==> (PassesAll(a, rows[i]) <==> PassesAll(b, rows[i]))
    ensures Where(rows, a) == Where(rows, b)
  {
    if |rows| > 0 {
      WhereCongruent(rows[1..], a, b);
    }
  }

  /** Filtering twice is filtering once by both lists of dimensions. */
  lemma {:induction false} WhereWhere(rows: seq<Row>, a: seq<Dimension>, b: seq<Dimension>)
    ensures Where(Where(rows, a), b) == Where(rows, a + b)
  {
    if |rows| > 0 {
      WhereWhere(rows[1..], a, b);
      PassesAllConcat(a, b, rows[0]);
      var rest := Where(rows[1..], a);
      if PassesAll(a, rows[0]) {
        assert Where(rows, a) == [rows[0]] + rest;
        assert ([rows[0]] + rest)[1..] == rest;
      }
    }
  }

  /** A guarded step is the one-pass filter by its dimension. */
  lemma ApplyStepIsWhere(rows: seq<Row>, d: Dimension)
    ensures ApplyStep(rows, d) == Where(rows, [d])
  {
    if !Active(d) {
      forall i | 0 <= i < |rows| ensures PassesAll([d], rows[i]) {
        assert [d][0] == d;
      }
      WhereKeepsAll(rows, [d]);
    }
  }

  /** Running the guarded steps in sequence is one conjunctive filter. */
  lemma {:induction false} PipelineIsWhere(rows: seq<Row>, ds: seq<Dimension>)
    ensures Pipeline(rows, ds) == Where(rows, ds)
    decreases |ds|
  {
    if |ds| == 0 {
      forall i | 0 <= i < |rows| ensures PassesAll(ds, rows[i]) { }
      WhereKeepsAll(rows, ds);
    } else {
      var first := ApplyStep(rows, ds[0]);
      ApplyStepIsWhere(rows, ds[0]);
      PipelineIsWhere(first, ds[1..]);
      WhereWhere(rows, [ds[0]], ds[1..]);
      assert [ds[0]] + ds[1..] == ds;
    }
  }

  /** A row passing every dimension of `a` passes every dimension that
      also occurs in `a`. */
  lemma PassesAllSubset(a: seq<Dimension>, b: seq<Dimension>, r: Row)
    requires forall j :: 0 <= j < |b| ==> b[j] in a
    requires PassesAll(a, r)
    ensures PassesAll(b, r)
  {
    forall j | 0 <= j < |b| ensures Passes(b[j], r) {
      var k :| 0 <= k < |a| && a[k] == b[j];
    }
  }

  /** The order of the steps does not matter: any two lists naming the
      same dimensions filter alike. */
  lemma PipelineOrderIrrelevant(rows: seq<Row>, a: seq<Dimension>, b: seq<Dimension>)
    requires forall d :: d in a <==> d in b
    ensures Pipeline(rows, a) == Pipeline(rows, b)
  {
    PipelineIsWhere(rows, a);
    PipelineIsWhere(rows, b);
    forall i | 0 <= i < |rows| ensures PassesAll(a, rows[i]) <==> PassesAll(b, rows[i]) {
      if PassesAll(a, rows[i]) { PassesAllSubset(a, b, rows[i]); }
      if PassesAll(b, rows[i]) { PassesAllSubset(b, a, rows[i]); }
    }
    WhereCongruent(rows, a, b);
  }

  /** Any two guarded steps commute. */
  lemma StepsCommute(rows: seq<Row>, d1: Dimension, d2: Dimension)
    ensures ApplyStep(ApplyStep(rows, d1), d2) == ApplyStep(ApplyStep(rows, d2), d1)
  {
    ApplyStepIsWhere(rows, d1);
    ApplyStepIsWhere(rows, d2);
    ApplyStepIsWhere(ApplyStep(rows, d1), d2);
    ApplyStepIsWhere(ApplyStep(rows, d2), d1);
    WhereWhere(rows, [d1], [d2]);
    WhereWhere(rows, [d2], [d1]);
    forall i | 0 <= i < |rows| ensures PassesAll([d1] + [d2], rows[i]) <==> PassesAll([d2] + [d1], rows[i]) {
      PassesAllConcat([d1], [d2], rows[i]);
      PassesAllConcat([d2], [d1], rows[i]);
    }
    WhereCongruent(rows, [d1] + [d2], [d2] + [d1]);
  }

  /** A row passing every dimension but the inactive `ds[i]` passes all
      of `ds`, and conversely. */
  lemma PassesAllOmit(ds: seq<Dimension>, i: nat, r: Row)
    requires i < |ds| && !Active(ds[i])
    ensures PassesAll(ds, r) <==> PassesAll(ds[..i] + ds[i + 1..], r)
  {
    var rest := ds[..i] + ds[i + 1..];
    if PassesAll(rest, r) {
      forall k | 0 <= k < |ds| ensures Passes(ds[k], r) {
        if k < i { assert rest[k] == ds[k]; }
        else if k > i { assert rest[k - 1] == ds[k]; }
      }
    }
    if PassesAll(ds, r) {
      forall k | 0 <= k < |rest| ensures Passes(rest[k], r) {
        if k < i { assert rest[k] == ds[k]; } else { assert rest[k] == ds[k + 1]; }
      }
    }
  }

  /** A step whose selection is inactive can be left out of the
      sequence without changing the result. */
  lemma OmitInactive(rows: seq<Row>, ds: seq<Dimension>, i: nat)
    requires i < |ds| && !Active(ds[i])
    ensures Pipeline(rows, ds) == Pipeline(rows, ds[..i] + ds[i + 1..])
  {
    var rest := ds[..i] + ds[i + 1..];
    PipelineIsWhere(rows, ds);
    PipelineIsWhere(rows, rest);
    forall j | 0 <= j < |rows| ensures PassesAll(ds, rows[j]) <==> PassesAll(rest, rows[j]) {
      PassesAllOmit(ds, i, rows[j]);
    }
    WhereCongruent(rows, ds, rest);
  }

  /** Filtering the filtered table again by the same criteria changes
      nothing. */
  lemma FilterIdempotent(rows: seq<Row>, c: Criteria)
    ensures FilterRows(FilterRows(rows, c), c) == FilterRows(rows, c)
  {
    var ds := Dimensions(c);
    var once := FilterRows(rows, c);
    PipelineIsWhere(once, ds);
    PipelineIsWhere(rows, ds);
    WhereWhere(rows, ds, ds);
    forall i | 0 <= i < |rows| ensures PassesAll(ds + ds, rows[i]) <==> PassesAll(ds, rows[i]) {
      PassesAllConcat(ds, ds, rows[i]);
    }
    WhereCongruent(rows, ds + ds, ds);
  }

  /** An empty store, category or segment selection, the channel "All",
      or a date range without two endpoints filters exactly as if that
      dimension were not there. */
  lemma EmptySelectionsAreNoOps(rows: seq<Row>, c: Criteria)
    ensures |c.dateRange| != 2 ==>
      FilterRows(rows, c) == Pipeline(rows, [StoreIn(c.stores), ChannelIs(c.channel), CategoryIn(c.categories), SegmentIn(c.segments)])
    ensures |c.stores| == 0 ==>
      FilterRows(rows, c) == Pipeline(rows, [DateRange(c.dateRange), ChannelIs(c.channel), CategoryIn(c.categories), SegmentIn(c.segments)])
    ensures c.channel == AllChannels ==>
      FilterRows(rows, c) == Pipeline(rows, [DateRange(c.dateRange), StoreIn(c.stores), CategoryIn(c.categories), SegmentIn(c.segments)])
    ensures |c.categories| == 0 ==>
      FilterRows(rows, c) == Pipeline(rows, [DateRange(c.dateRange), StoreIn(c.stores), ChannelIs(c.channel), SegmentIn(c.segments)])
    ensures |c.segments| == 0 ==>
      FilterRows(rows, c) == Pipeline(rows, [DateRange(c.dateRange), StoreIn(c.stores), ChannelIs(c.channel), CategoryIn(c.categories)])
  {
    var ds := Dimensions(c);
    forall i | 0 <= i < 5 && !Active(ds[i])
      ensures FilterRows(rows, c) == Pipeline(rows, ds[..i] + ds[i + 1..])
    {
      OmitInactive(rows, ds, i);
    }
    assert ds[..0] + ds[1..] == [StoreIn(c.stores), ChannelIs(c.channel), CategoryIn(c.categories), SegmentIn(c.segments)];
    assert ds[..1] + ds[2..] == [DateRange(c.dateRange), ChannelIs(c.channel), CategoryIn(c.categories), SegmentIn(c.segments)];
    assert ds[..2] + ds[3..] == [DateRange(c.dateRange), StoreIn(c.stores), CategoryIn(c.categories), SegmentIn(c.segments)];
    assert ds[..3] + ds[4..] == [DateRange(c.dateRange), StoreIn(c.stores), ChannelIs(c.channel), SegmentIn(c.segments)];
    assert ds[..4] + ds[5..] == [DateRange(c.dateRange), StoreIn(c.stores), ChannelIs(c.channel), CategoryIn(c.categories)];
  }
}
