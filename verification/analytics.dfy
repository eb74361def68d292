/**
 * The analytics page: spending per category, largest first, and spending per
 * calendar month with the years folded together.
 */
module Analytics {
  import opened Types
  import opened Spending
  import opened Wrappers
  import Seqs
  import Calendar

  /**
   * The `categoryData` memo: the categories with spending, sorted by amount,
   * largest first; categories with equal amounts stay in category order.
   */
  function CategoryBreakdown(es: seq<Expense>, categories: seq<Category>): (r: seq<Slice>)
    ensures multiset(r) == multiset(PositiveSlices(es, categories))
    ensures forall i :: 0 <= i < |r| ==> r[i].amount > 0.0 && r[i] in CategorySlices(es, categories)
    ensures forall i, j :: 0 <= i < j < |r| ==> r[i].amount >= r[j].amount
  {
    var positive := PositiveSlices(es, categories);
    var r := Seqs.SortDesc(positive, SliceAmount);
    forall i | 0 <= i < |r| ensures r[i].amount > 0.0 && r[i] in CategorySlices(es, categories) {
      assert r[i] in multiset(positive);
    }
    forall i, j | 0 <= i < j < |r| ensures r[i].amount >= r[j].amount {
      assert SliceAmount(r[i]) >= SliceAmount(r[j]);
    }
    r
  }

  /** Categories with equal amounts appear in the breakdown in category-list order. */
  lemma BreakdownTiesKeepCategoryOrder(es: seq<Expense>, categories: seq<Category>, amount: real)
    ensures Seqs.KeyClass(CategoryBreakdown(es, categories), SliceAmount, amount)
         == Seqs.KeyClass(PositiveSlices(es, categories), SliceAmount, amount)
  {
    Seqs.SortDescStable(PositiveSlices(es, categories), SliceAmount, amount);
  }

  /** Every category with spending has exactly its total in the breakdown. */
  lemma BreakdownCoversSpending(es: seq<Expense>, categories: seq<Category>, c: int)
    requires 0 <= c < |categories| && CategoryTotal(es, categories[c].id) > 0.0
    ensures Slice(categories[c].name, CategoryTotal(es, categories[c].id), categories[c].color) in CategoryBreakdown(es, categories)
  {
    var positive := PositiveSlices(es, categories);
    var s := CategorySlices(es, categories)[c];
    assert s in positive;
    assert s in multiset(CategoryBreakdown(es, categories));
  }

  const MonthNames: seq<string> := ["Jan", "Feb", "Mar", "Apr", "May", "Jun", "Jul", "Aug", "Sep", "Oct", "Nov", "Dec"]

  datatype MonthBucket = MonthBucket(month: string, amount: real)

  /** The `monthlyTrend` memo: one bucket per calendar month, January first, each summing that month in every year. */
  function MonthlyTrend(es: seq<Expense>): (r: seq<MonthBucket>)
    ensures |r| == 12
    ensures forall m :: 0 <= m < 12 ==> r[m] == MonthBucket(MonthNames[m], MonthTotal(es, m))
  {
    seq(12, m requires 0 <= m < 12 => MonthBucket(MonthNames[m], MonthTotal(es, m)))
  }

  /** The sum of the bucket amounts. */
  function BucketSum(r: seq<MonthBucket>): real
    decreases |r|
  {
    if |r| == 0 then 0.0 else BucketSum(r[..|r| - 1]) + r[|r| - 1].amount
  }

  lemma MonthTotalCons(e: Expense, rest: seq<Expense>, m: int)
    ensures MonthTotal([e] + rest, m) == MonthTotal(rest, m) + (if MonthIndex(e) == Some(m) then e.amount else 0.0)
  {
    Seqs.FilterCons(e, rest, InMonth(m));
    if MonthIndex(e) == Some(m) {
      assert ([e] + Seqs.Filter(rest, InMonth(m)))[1..] == Seqs.Filter(rest, InMonth(m));
    }
  }

  /** Raising one bucket by `x` raises the sum by `x`. */
  lemma {:induction false} BucketSumBump(a: seq<MonthBucket>, b: seq<MonthBucket>, m: int, x: real)
    requires |a| == |b|
    requires forall i :: 0 <= i < |a| ==> a[i].amount == b[i].amount + (if i == m then x else 0.0)
    ensures BucketSum(a) == BucketSum(b) + (if 0 <= m < |a| then x else 0.0)
    decreases |a|
  {
    if |a| > 0 {
      var n := |a| - 1;
      BucketSumBump(a[..n], b[..n], m, x);
    }
  }

  /** Buckets that are all empty sum to zero. */
  lemma {:induction false} BucketSumZero(a: seq<MonthBucket>)
    requires forall i :: 0 <= i < |a| ==> a[i].amount == 0.0
    ensures BucketSum(a) == 0.0
    decreases |a|
  {
    if |a| > 0 {
      BucketSumZero(a[..|a| - 1]);
    }
  }

  /** The twelve buckets add up to the total spend when every stored date reads as a date. */
  lemma {:induction false} MonthlyTrendSumsToTotal(es: seq<Expense>)
    requires AllDatesValid(es)
    ensures BucketSum(MonthlyTrend(es)) == Total(es)
    decreases |es|
  {
    if |es| == 0 {
      forall i | 0 <= i < 12 ensures MonthlyTrend(es)[i].amount == 0.0 {
        assert Seqs.Filter(es, InMonth(i)) == [];
      }
      BucketSumZero(MonthlyTrend(es));
    } else {
      var e, rest := es[0], es[1..];
      assert es == [e] + rest;
      var m := MonthIndex(e).value;
      forall i | 0 <= i < 12
        ensures MonthlyTrend(es)[i].amount == MonthlyTrend(rest)[i].amount + (if i == m then e.amount else 0.0)
      {
        MonthTotalCons(e, rest, i);
      }
      BucketSumBump(MonthlyTrend(es), MonthlyTrend(rest), m, e.amount);
      MonthlyTrendSumsToTotal(rest);
    }
  }

  /** January of one year and January of another fall into the same bucket. */
  lemma MonthsFoldYears(a: Expense, b: Expense)
    requires a.date == Calendar.FormatIso(Calendar.Date(2023, 1, 5))
    requires b.date == Calendar.FormatIso(Calendar.Date(2024, 1, 20))
    ensures MonthlyTrend([a, b])[0].amount == a.amount + b.amount
  {
    Calendar.ParseFormatIso(Calendar.Date(2023, 1, 5));
    Calendar.ParseFormatIso(Calendar.Date(2024, 1, 20));
    MonthTotalCons(a, [b], 0);
    MonthTotalCons(b, [], 0);
    assert [a, b] == [a] + [b];
    assert [b] == [b] + [];
    assert MonthTotal([], 0) == 0.0;
  }
}
