/**
 * The dashboard's derived data: the four summary statistics, the seven-day
 * trend, the category pie, adding an expense, and the recent-expenses list.
 */
module Dashboard {
  import opened Wrappers
  import opened Types
  import opened Spending
  import Seqs
  import Calendar
  import ExpenseForm

  /**
   * The keys of the `catCounts` object built by `reduce` over the expenses:
   * each category id once, in the order of its first appearance.
   */
  function CategoryKeys(es: seq<Expense>): (r: seq<string>)
    ensures forall x :: x in r <==> exists i :: 0 <= i < |es| && es[i].categoryId == x
    ensures forall p, q :: 0 <= p < q < |r| ==> r[p] != r[q]
    decreases |es|
  {
    if |es| == 0 then []
    else
      var init := CategoryKeys(es[..|es| - 1]);
      var c := es[|es| - 1].categoryId;
      assert forall i :: 0 <= i < |es| - 1 ==> es[..|es| - 1][i] == es[i];
      if c in init then init else init + [c]
  }

  /** The keys seen in a prefix of the expenses are a prefix of all keys. */
  lemma {:induction false} CategoryKeysPrefix(es: seq<Expense>, m: nat)
    requires m <= |es|
    ensures CategoryKeys(es[..m]) <= CategoryKeys(es)
    decreases |es| - m
  {
    if m < |es| {
      var init := es[..|es| - 1];
      assert init[..m] == es[..m];
      CategoryKeysPrefix(init, m);
    } else {
      assert es[..m] == es;
    }
  }

  datatype CategoryCount = CategoryCount(id: string, amount: real)

  function CountAmount(c: CategoryCount): real { c.amount }

  /** `Object.entries(catCounts)`: each key with the summed amount of its expenses. */
  function CategoryCounts(es: seq<Expense>): (r: seq<CategoryCount>)
    ensures |r| == |CategoryKeys(es)|
    ensures forall p :: 0 <= p < |r| ==> r[p] == CategoryCount(CategoryKeys(es)[p], CategoryTotal(es, CategoryKeys(es)[p]))
  {
    var keys := CategoryKeys(es);
    seq(|keys|, p requires 0 <= p < |keys| => CategoryCount(keys[p], CategoryTotal(es, keys[p])))
  }

  /**
   * The id at the head of the counts after the stable descending sort: a
   * category with the largest total, and of those the one whose first expense
   * comes first.
   */
  function TopCategoryId(es: seq<Expense>): (t: string)
    requires |es| > 0
    ensures exists i :: 0 <= i < |es| && es[i].categoryId == t
    ensures forall i :: 0 <= i < |es| ==> CategoryTotal(es, es[i].categoryId) <= CategoryTotal(es, t)
    ensures forall k :: 0 <= k < |es| && CategoryTotal(es, es[k].categoryId) == CategoryTotal(es, t) ==>
      exists j :: 0 <= j <= k && es[j].categoryId == t
  {
    var counts := CategoryCounts(es);
    assert es[0].categoryId in CategoryKeys(es);
    var sorted := Seqs.SortDesc(counts, CountAmount);
    TopCategoryFacts(es, counts, sorted);
    sorted[0].id
  }

  lemma TopCategoryFacts(es: seq<Expense>, counts: seq<CategoryCount>, sorted: seq<CategoryCount>)
    requires |es| > 0 && counts == CategoryCounts(es) && sorted == Seqs.SortDesc(counts, CountAmount)
    requires |sorted| > 0
    ensures exists i :: 0 <= i < |es| && es[i].categoryId == sorted[0].id
    ensures forall i :: 0 <= i < |es| ==> CategoryTotal(es, es[i].categoryId) <= CategoryTotal(es, sorted[0].id)
    ensures forall k :: 0 <= k < |es| && CategoryTotal(es, es[k].categoryId) == CategoryTotal(es, sorted[0].id) ==>
      exists j :: 0 <= j <= k && es[j].categoryId == sorted[0].id
  {
    var pt := HeadIsACount(es, counts, sorted);
    assert sorted[0].id in CategoryKeys(es);
    forall i | 0 <= i < |es| ensures CategoryTotal(es, es[i].categoryId) <= sorted[0].amount {
      HeadIsMaximal(es, counts, sorted, i);
    }
    var pmin := HeadIsFirstMaximal(counts, sorted, pt);
    forall k | 0 <= k < |es| && CategoryTotal(es, es[k].categoryId) == sorted[0].amount
      ensures exists j :: 0 <= j <= k && es[j].categoryId == sorted[0].id
    {
      TiedKeyComesLater(es, counts, k, pmin, sorted[0].amount);
    }
  }

  lemma HeadIsACount(es: seq<Expense>, counts: seq<CategoryCount>, sorted: seq<CategoryCount>) returns (pt: nat)
    requires counts == CategoryCounts(es) && sorted == Seqs.SortDesc(counts, CountAmount)
    requires |sorted| > 0
    ensures pt < |counts| && counts[pt] == sorted[0]
    ensures sorted[0].amount == CategoryTotal(es, sorted[0].id)
  {
    assert sorted[0] in multiset(counts);
    pt :| 0 <= pt < |counts| && counts[pt] == sorted[0];
  }

  lemma HeadIsMaximal(es: seq<Expense>, counts: seq<CategoryCount>, sorted: seq<CategoryCount>, i: int)
    requires counts == CategoryCounts(es) && sorted == Seqs.SortDesc(counts, CountAmount)
    requires |sorted| > 0 && 0 <= i < |es|
    ensures CategoryTotal(es, es[i].categoryId) <= sorted[0].amount
  {
    var keys := CategoryKeys(es);
    var x := es[i].categoryId;
    assert x in keys;
    var px :| 0 <= px < |keys| && keys[px] == x;
    assert counts[px] in multiset(sorted);
    var q :| 0 <= q < |sorted| && sorted[q] == counts[px];
    if q > 0 {
      assert CountAmount(sorted[0]) >= CountAmount(sorted[q]);
    }
  }

  lemma HeadIsFirstMaximal(counts: seq<CategoryCount>, sorted: seq<CategoryCount>, pt: nat) returns (pmin: nat)
    requires sorted == Seqs.SortDesc(counts, CountAmount)
    requires |sorted| > 0 && pt < |counts| && counts[pt] == sorted[0]
    ensures pmin < |counts| && counts[pmin] == sorted[0]
    ensures forall p :: 0 <= p < pmin ==> counts[p].amount != sorted[0].amount
  {
    var m := sorted[0].amount;
    var keep := Seqs.HasKey(CountAmount, m);
    assert keep(counts[pt]);
    pmin := Seqs.FindIndex(counts, keep).value;
    Seqs.SortDescStable(counts, CountAmount, m);
    Seqs.FilterFirst(sorted, keep, 0);
    Seqs.FilterFirst(counts, keep, pmin);
  }

  lemma TiedKeyComesLater(es: seq<Expense>, counts: seq<CategoryCount>, k: int, pmin: nat, m: real)
    requires counts == CategoryCounts(es)
    requires 0 <= k < |es| && pmin < |counts| && counts[pmin].amount == m
    requires forall p :: 0 <= p < pmin ==> counts[p].amount != m
    requires CategoryTotal(es, es[k].categoryId) == m
    ensures exists j :: 0 <= j <= k && es[j].categoryId == counts[pmin].id
  {
    var keys := CategoryKeys(es);
    var x := es[k].categoryId;
    var prefix := CategoryKeys(es[..k + 1]);
    CategoryKeysPrefix(es, k + 1);
    assert es[..k + 1][k].categoryId == x;
    assert x in prefix;
    var px :| 0 <= px < |prefix| && prefix[px] == x;
    assert keys[px] == x;
    assert counts[px].amount == m;
    assert pmin <= px;
    assert prefix[pmin] == counts[pmin].id;
    assert counts[pmin].id in prefix;
    var j :| 0 <= j < k + 1 && es[..k + 1][j].categoryId == counts[pmin].id;
    assert es[j].categoryId == counts[pmin].id;
  }

  /** `Math.max(...expenses.map(e => e.amount))` on a non-empty list. */
  function MaxAmount(es: seq<Expense>): (m: real)
    requires |es| > 0
    ensures forall i :: 0 <= i < |es| ==> es[i].amount <= m
    ensures exists i :: 0 <= i < |es| && es[i].amount == m
    decreases |es|
  {
    if |es| == 1 then es[0].amount
    else
      var rest := MaxAmount(es[1..]);
      assert forall i :: 1 <= i < |es| ==> es[i] == es[1..][i - 1];
      if es[0].amount >= rest then es[0].amount else rest
  }

  /** `new Set(expenses.map(e => e.date))`: the distinct date strings. */
  function ActiveDays(es: seq<Expense>): (days: set<string>)
    ensures forall d :: d in days <==> exists i :: 0 <= i < |es| && es[i].date == d
    ensures |es| > 0 ==> |days| >= 1
  {
    var days := set i | 0 <= i < |es| :: es[i].date;
    assert |es| > 0 ==> es[0].date in days;
    days
  }

  /** The `stats` memo: total, average per active day, top category name, largest amount. */
  function Stats(es: seq<Expense>, categories: seq<Category>): (s: DashboardStats)
    ensures |es| == 0 ==> s == DashboardStats(0.0, 0.0, "N/A", 0.0)
    ensures s.totalSpend == Total(es)
    ensures |es| > 0 ==> |ActiveDays(es)| >= 1 && s.avgDaily == s.totalSpend / (|ActiveDays(es)| as real)
    ensures |es| > 0 ==> s.biggestTransaction == MaxAmount(es)
    ensures |es| > 0 ==> s.topCategory == NameOr(categories, TopCategoryId(es), "Other")
  {
    if |es| == 0 then DashboardStats(0.0, 0.0, "N/A", 0.0)
    else
      var total := Total(es);
      DashboardStats(total, PerDay(total, |ActiveDays(es)|), NameOr(categories, TopCategoryId(es), "Other"), MaxAmount(es))
  }

  /** `total / Math.max(days, 1)`. */
  function PerDay(total: real, days: nat): (avg: real)
    ensures days >= 1 ==> avg == total / (days as real)
    ensures days == 0 ==> avg == total
  {
    var divisor := if days > 1 then days else 1;
    total / (divisor as real)
  }

  /** The dashboard's totals ignore the order of the expense list. */
  lemma StatsTotalsOrderIndependent(a: seq<Expense>, b: seq<Expense>, categories: seq<Category>)
    requires multiset(a) == multiset(b)
    ensures Stats(a, categories).totalSpend == Stats(b, categories).totalSpend
    ensures Stats(a, categories).avgDaily == Stats(b, categories).avgDaily
    ensures Stats(a, categories).biggestTransaction == Stats(b, categories).biggestTransaction
  {
    TotalPermutation(a, b);
    ActiveDaysPermutation(a, b);
    if |a| > 0 {
      assert a[0] in multiset(b);
      MaxAmountPermutation(a, b);
    }
  }

  lemma ActiveDaysPermutation(a: seq<Expense>, b: seq<Expense>)
    requires multiset(a) == multiset(b)
    ensures ActiveDays(a) == ActiveDays(b)
  {
    forall d | d in ActiveDays(a) ensures d in ActiveDays(b) {
      var i :| 0 <= i < |a| && a[i].date == d;
      assert a[i] in multiset(b);
      var j :| 0 <= j < |b| && b[j] == a[i];
    }
    forall d | d in ActiveDays(b) ensures d in ActiveDays(a) {
      var i :| 0 <= i < |b| && b[i].date == d;
      assert b[i] in multiset(a);
      var j :| 0 <= j < |a| && a[j] == b[i];
    }
  }

  lemma MaxAmountPermutation(a: seq<Expense>, b: seq<Expense>)
    requires multiset(a) == multiset(b) && |a| > 0 && |b| > 0
    ensures MaxAmount(a) == MaxAmount(b)
  {
    var ma := MaxAmount(a);
    var mb := MaxAmount(b);
    var i :| 0 <= i < |a| && a[i].amount == ma;
    var j :| 0 <= j < |b| && b[j].amount == mb;
    assert a[i] in multiset(b);
    assert b[j] in multiset(a);
    var i' :| 0 <= i' < |b| && b[i'] == a[i];
    var j' :| 0 <= j' < |a| && a[j'] == b[j];
  }

  /** Ties are not order-independent: swapping two equal-total categories swaps the top one. */
  lemma TopCategoryTieFollowsListOrder(x: Expense, y: Expense)
    requires x.categoryId != y.categoryId && x.amount == y.amount
    ensures TopCategoryId([x, y]) == x.categoryId
    ensures TopCategoryId([y, x]) == y.categoryId
  {
    TiedFirstWins(x, y);
    TiedFirstWins(y, x);
  }

  lemma TiedFirstWins(x: Expense, y: Expense)
    requires x.categoryId != y.categoryId && x.amount == y.amount
    ensures TopCategoryId([x, y]) == x.categoryId
  {
    PairTotals(x, y);
    TopOfTiedPair(x, y, TopCategoryId([x, y]));
  }

  /** Any id with the properties `TopCategoryId` promises is, for a tied pair, the first one's. */
  lemma TopOfTiedPair(x: Expense, y: Expense, t: string)
    requires x.amount == y.amount
    requires CategoryTotal([x, y], x.categoryId) == x.amount
    requires CategoryTotal([x, y], y.categoryId) == y.amount
    requires exists i :: 0 <= i < 2 && [x, y][i].categoryId == t
    requires forall k :: 0 <= k < 2 && CategoryTotal([x, y], [x, y][k].categoryId) == CategoryTotal([x, y], t) ==>
      exists j :: 0 <= j <= k && [x, y][j].categoryId == t
    ensures t == x.categoryId
  {
    var es := [x, y];
    assert CategoryTotal(es, t) == x.amount;
    assert CategoryTotal(es, es[0].categoryId) == CategoryTotal(es, t);
  }

  lemma PairTotals(x: Expense, y: Expense)
    requires x.categoryId != y.categoryId
    ensures CategoryTotal([x, y], x.categoryId) == x.amount
    ensures CategoryTotal([x, y], y.categoryId) == y.amount
  {
    TotalWherePair(x, y, InCategory(x.categoryId));
    TotalWherePair(x, y, InCategory(y.categoryId));
  }

  /** The seven days of the trend chart: six days before `today` up to `today`, oldest first. */
  function Last7Days(today: Calendar.Date): (r: seq<Calendar.Date>)
    requires Calendar.ValidDate(today)
    ensures |r| == 7 && r[6] == today
    ensures forall i :: 0 <= i < 7 ==> Calendar.ValidDate(r[i]) && today.year - 1 <= r[i].year <= today.year
    ensures forall i :: 0 <= i < 6 ==> Calendar.NextDay(r[i]) == r[i + 1]
  {
    var r := seq(7, i requires 0 <= i < 7 => Calendar.DaysBefore(today, 6 - i));
    WindowFacts(today, r);
    r
  }

  lemma WindowFacts(today: Calendar.Date, r: seq<Calendar.Date>)
    requires Calendar.ValidDate(today)
    requires |r| == 7 && forall i :: 0 <= i < 7 ==> r[i] == Calendar.DaysBefore(today, 6 - i)
    ensures forall i :: 0 <= i < 7 ==> Calendar.ValidDate(r[i]) && today.year - 1 <= r[i].year
    ensures forall i :: 0 <= i < 6 ==> Calendar.NextDay(r[i]) == r[i + 1]
  {
    forall i | 0 <= i < 7 ensures today.year - 1 <= r[i].year {
      Calendar.DaysBeforeYear(today, 6 - i);
    }
    forall i | 0 <= i < 6 ensures Calendar.NextDay(r[i]) == r[i + 1] {
      assert r[i] == Calendar.PrevDay(r[i + 1]);
      Calendar.NextPrevRoundTrip(r[i + 1]);
    }
  }

  datatype DayTotal = DayTotal(date: Calendar.Date, amount: real)

  /** The `chartData` memo: each of the last seven days with the summed amount of the expenses dated that day. */
  function DailySeries(es: seq<Expense>, today: Calendar.Date): (r: seq<DayTotal>)
    requires Calendar.ValidDate(today) && 1 <= today.year <= 9999
    ensures |r| == 7
    ensures forall i :: 0 <= i < 7 ==>
      (r[i].date == Last7Days(today)[i]
       && Calendar.IsoYear(r[i].date)
       && r[i].amount == DateTotal(es, Calendar.FormatIso(r[i].date)))
  {
    var days := Last7Days(today);
    seq(7, i requires 0 <= i < 7 => DayTotal(days[i], DateTotal(es, Calendar.FormatIso(days[i]))))
  }

  /** A day with no expense dated on it shows 0. */
  lemma QuietDayIsZero(es: seq<Expense>, today: Calendar.Date, i: int)
    requires Calendar.ValidDate(today) && 1 <= today.year <= 9999 && 0 <= i < 7
    requires forall k :: 0 <= k < |es| ==> es[k].date != Calendar.FormatIso(Last7Days(today)[i])
    ensures DailySeries(es, today)[i].amount == 0.0
  {
    TotalWhereNone(es, OnDate(Calendar.FormatIso(Last7Days(today)[i])));
  }

  /** A new expense dated on the i-th day of the window raises that day's bar by its amount and no other. */
  lemma NewExpenseRaisesOneBar(es: seq<Expense>, e: Expense, today: Calendar.Date, i: int)
    requires Calendar.ValidDate(today) && 1 <= today.year <= 9999 && 0 <= i < 7
    requires e.date == Calendar.FormatIso(Last7Days(today)[i])
    ensures DailySeries(es + [e], today)[i].amount == DailySeries(es, today)[i].amount + e.amount
    ensures forall j :: 0 <= j < 7 && j != i ==> DailySeries(es + [e], today)[j].amount == DailySeries(es, today)[j].amount
  {
    var days := Last7Days(today);
    forall j | 0 <= j < 7
      ensures DailySeries(es + [e], today)[j].amount
           == DailySeries(es, today)[j].amount + (if j == i then e.amount else 0.0)
    {
      TotalWhereAppend(es, e, OnDate(Calendar.FormatIso(days[j])));
      if j != i {
        assert days[i] != days[j] by {
          DistinctWindowDays(today, i, j);
        }
        if Calendar.FormatIso(days[j]) == Calendar.FormatIso(days[i]) {
          Calendar.FormatIsoInjective(days[j], days[i]);
        }
      }
    }
  }

  lemma DistinctWindowDays(today: Calendar.Date, i: int, j: int)
    requires Calendar.ValidDate(today) && 0 <= i < 7 && 0 <= j < 7 && i != j
    ensures Last7Days(today)[i] != Last7Days(today)[j]
  {
    var days := Last7Days(today);
    var lo := if i < j then i else j;
    var hi := if i < j then j else i;
    assert Calendar.Before(days[lo], days[hi]) by {
      var k := lo;
      while k < hi
        invariant lo <= k <= hi
        invariant k == lo || Calendar.Before(days[lo], days[k])
      {
        assert Calendar.Before(days[k], days[k + 1]);
        if k > lo {
          Calendar.BeforeTransitive(days[lo], days[k], days[k + 1]);
        }
        k := k + 1;
      }
    }
  }

  /** The `categoryPieData` memo: the categories with spending, in category order. */
  function PieData(es: seq<Expense>, categories: seq<Category>): (r: seq<Slice>)
    ensures forall i :: 0 <= i < |r| ==> r[i].amount > 0.0
    ensures Seqs.IsSubsequence(r, CategorySlices(es, categories))
    ensures forall s :: multiset(r)[s] == if s.amount > 0.0 then multiset(CategorySlices(es, categories))[s] else 0
  {
    PositiveSlices(es, categories)
  }

  /** `handleAddExpense`: the new record is appended and the others stay as they were. */
  function AddExpense(es: seq<Expense>, draft: ExpenseForm.Draft, freshId: string, now: int): (r: seq<Expense>)
    requires draft.amount.Some?
    ensures |r| == |es| + 1 && r[..|es|] == es
    ensures r[|es|].id == freshId && r[|es|].createdAt == now && r[|es|].amount == draft.amount.value
    ensures r[|es|] == ExpenseForm.FromDraft(draft, freshId, now)
    ensures Total(r) == Total(es) + draft.amount.value
  {
    var e := ExpenseForm.FromDraft(draft, freshId, now);
    TotalConcat(es, [e]);
    assert (es + [e])[..|es|] == es;
    es + [e]
  }

  function CreatedKey(e: Expense): real { e.createdAt as real }

  /**
   * The recent-expenses list: the expenses sorted by `createdAt`, newest
   * first, cut to five.
   */
  function RecentExpenses(es: seq<Expense>): (r: seq<Expense>)
    ensures |r| == if |es| < 5 then |es| else 5
    ensures forall i, j :: 0 <= i < j < |r| ==> r[i].createdAt >= r[j].createdAt
    ensures forall x :: multiset(r)[x] <= multiset(es)[x]
    ensures forall x, i :: 0 <= i < |r| && multiset(r)[x] < multiset(es)[x] ==> x.createdAt <= r[i].createdAt
  {
    var sorted := Seqs.SortDesc(es, CreatedKey);
    var n := if |es| < 5 then |es| else 5;
    PrefixOfSortedIsTop(sorted, n);
    sorted[..n]
  }

  lemma PrefixOfSortedIsTop(sorted: seq<Expense>, n: nat)
    requires n <= |sorted| && Seqs.SortedDesc(sorted, CreatedKey)
    ensures forall i, j :: 0 <= i < j < n ==> sorted[..n][i].createdAt >= sorted[..n][j].createdAt
    ensures forall x :: multiset(sorted[..n])[x] <= multiset(sorted)[x]
    ensures forall x, i :: 0 <= i < n && multiset(sorted[..n])[x] < multiset(sorted)[x] ==> x.createdAt <= sorted[..n][i].createdAt
  {
    forall i, j | 0 <= i < j < n ensures sorted[..n][i].createdAt >= sorted[..n][j].createdAt {
      assert CreatedKey(sorted[i]) >= CreatedKey(sorted[j]);
    }
    var r := sorted[..n];
    assert sorted == r + sorted[n..];
    assert multiset(sorted) == multiset(r) + multiset(sorted[n..]);
    forall x, i | 0 <= i < n && multiset(r)[x] < multiset(sorted)[x] ensures x.createdAt <= sorted[i].createdAt {
      assert x in multiset(sorted[n..]);
      var j :| 0 <= j < |sorted| - n && sorted[n..][j] == x;
      assert CreatedKey(sorted[i]) >= CreatedKey(sorted[n + j]);
    }
  }
}
