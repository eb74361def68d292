/**
 * Sums over expense lists: the `filter(...).reduce((sum, e) => sum + e.amount, 0)`
 * pattern the dashboard and the analytics page share.
 */
module Spending {
  import opened Types
  import opened Wrappers
  import Seqs
  import Calendar

  /** The sum of all amounts; 0 for the empty list. */
  function Total(es: seq<Expense>): (t: real)
    ensures |es| == 1 ==> t == es[0].amount
    decreases |es|
  {
    if |es| == 0 then 0.0 else es[0].amount + Total(es[1..])
  }

  /** Amounts that are none of them negative have a sum that is not negative. */
  lemma {:induction false} TotalNonNegative(es: seq<Expense>)
    requires forall i :: 0 <= i < |es| ==> es[i].amount >= 0.0
    ensures Total(es) >= 0.0
    decreases |es|
  {
    if |es| > 0 {
      assert forall i :: 0 <= i < |es| - 1 ==> es[1..][i] == es[i + 1];
      TotalNonNegative(es[1..]);
    }
  }

  lemma {:induction false} TotalConcat(a: seq<Expense>, b: seq<Expense>)
    ensures Total(a + b) == Total(a) + Total(b)
    decreases |a|
  {
    if |a| == 0 {
      assert a + b == b;
    } else {
      assert (a + b)[1..] == a[1..] + b;
      TotalConcat(a[1..], b);
    }
  }

  /** The total does not depend on the order of the list. */
  lemma {:induction false} TotalPermutation(a: seq<Expense>, b: seq<Expense>)
    requires multiset(a) == multiset(b)
    ensures Total(a) == Total(b)
    decreases |a|
  {
    if |a| > 0 {
      assert a[0] in multiset(b);
      var k :| 0 <= k < |b| && b[k] == a[0];
      var rest := b[..k] + b[k + 1..];
      RemoveAt(b, k);
      assert a == [a[0]] + a[1..];
      assert multiset(a) == multiset{a[0]} + multiset(a[1..]);
      assert multiset(a[1..]) == multiset(a) - multiset{a[0]};
      assert multiset(rest) == multiset(b) - multiset{a[0]};
      TotalPermutation(a[1..], rest);
      TotalRemoveAt(b, k);
    }
  }

  /** Taking out the element at `k` takes one copy of it out of the multiset. */
  lemma RemoveAt(b: seq<Expense>, k: nat)
    requires k < |b|
    ensures multiset(b) == multiset{b[k]} + multiset(b[..k] + b[k + 1..])
  {
    assert b == b[..k] + [b[k]] + b[k + 1..];
  }

  /** Taking out the element at `k` takes its amount out of the total. */
  lemma TotalRemoveAt(b: seq<Expense>, k: nat)
    requires k < |b|
    ensures Total(b) == b[k].amount + Total(b[..k] + b[k + 1..])
  {
    var x, m, y := b[..k], [b[k]], b[k + 1..];
    assert b == (x + m) + y;
    TotalConcat(x + m, y);
    TotalConcat(x, m);
    TotalConcat(x, y);
    assert Total(m) == b[k].amount;
  }

  /** The sum of the amounts of the expenses that satisfy `p`. */
  function TotalWhere(es: seq<Expense>, p: Expense -> bool): real
  {
    Total(Seqs.Filter(es, p))
  }

  /** Appending an expense adds its amount to exactly the sums whose filter it passes. */
  lemma TotalWhereAppend(es: seq<Expense>, e: Expense, p: Expense -> bool)
    ensures TotalWhere(es + [e], p) == TotalWhere(es, p) + (if p(e) then e.amount else 0.0)
  {
    Seqs.FilterConcat(es, [e], p);
    TotalConcat(Seqs.Filter(es, p), Seqs.Filter([e], p));
    assert [e][1..] == [];
  }

  /** A filtered sum over two expenses. */
  lemma TotalWherePair(x: Expense, y: Expense, p: Expense -> bool)
    ensures TotalWhere([x, y], p) == (if p(x) then x.amount else 0.0) + (if p(y) then y.amount else 0.0)
  {
    assert [x, y] == [x] + [y];
    assert [x] == [] + [x];
    TotalWhereAppend([], x, p);
    TotalWhereAppend([x], y, p);
  }

  /** A sum over expenses none of which passes the filter is 0. */
  lemma {:induction false} TotalWhereNone(es: seq<Expense>, p: Expense -> bool)
    requires forall i :: 0 <= i < |es| ==> !p(es[i])
    ensures TotalWhere(es, p) == 0.0
    decreases |es|
  {
    if |es| > 0 {
      TotalWhereNone(es[1..], p);
    }
  }

  /** A filtered sum that every expense passes is the whole sum. */
  lemma TotalWhereAll(es: seq<Expense>, p: Expense -> bool)
    requires forall i :: 0 <= i < |es| ==> p(es[i])
    ensures TotalWhere(es, p) == Total(es)
  {
    Seqs.FilterKeepsAll(es, p);
  }

  /** The two extremes of a filtered sum: nothing passes, or everything does. */
  lemma TotalWhereExtremes(es: seq<Expense>, p: Expense -> bool)
    ensures (forall i :: 0 <= i < |es| ==> !p(es[i])) ==> TotalWhere(es, p) == 0.0
    ensures (forall i :: 0 <= i < |es| ==> p(es[i])) ==> TotalWhere(es, p) == Total(es)
  {
    if forall i :: 0 <= i < |es| ==> !p(es[i]) {
      TotalWhereNone(es, p);
    }
    if forall i :: 0 <= i < |es| ==> p(es[i]) {
      TotalWhereAll(es, p);
    }
  }

  function InCategory(id: string): Expense -> bool
  {
    (e: Expense) => e.categoryId == id
  }

  /** `expenses.filter(e => e.categoryId === id).reduce(...)`. */
  function CategoryTotal(es: seq<Expense>, id: string): (t: real)
    ensures (forall i :: 0 <= i < |es| ==> es[i].categoryId != id) ==> t == 0.0
    ensures (forall i :: 0 <= i < |es| ==> es[i].categoryId == id) ==> t == Total(es)
  {
    TotalWhereExtremes(es, InCategory(id));
    TotalWhere(es, InCategory(id))
  }

  function OnDate(date: string): Expense -> bool
  {
    (e: Expense) => e.date == date
  }

  /** `expenses.filter(e => e.date === date).reduce(...)`. */
  function DateTotal(es: seq<Expense>, date: string): (t: real)
    ensures (forall i :: 0 <= i < |es| ==> es[i].date != date) ==> t == 0.0
    ensures (forall i :: 0 <= i < |es| ==> es[i].date == date) ==> t == Total(es)
  {
    TotalWhereExtremes(es, OnDate(date));
    TotalWhere(es, OnDate(date))
  }

  /**
   * `new Date(e.date).getMonth()`: the zero-based month of the stored date, or
   * None for a string that does not read as a date (getMonth gives NaN).
   */
  function MonthIndex(e: Expense): (r: Option<int>)
    ensures r.Some? ==> 0 <= r.value < 12
    ensures Calendar.ParseIso(e.date).Some? ==> r == Some(Calendar.ParseIso(e.date).value.month - 1)
    ensures Calendar.ParseIso(e.date).None? ==> r.None?
  {
    match Calendar.ParseIso(e.date)
    case Some(d) => Some(d.month - 1)
    case None => None
  }

  function InMonth(idx: int): Expense -> bool
  {
    (e: Expense) => MonthIndex(e) == Some(idx)
  }

  /** `expenses.filter(e => new Date(e.date).getMonth() === idx).reduce(...)`. */
  function MonthTotal(es: seq<Expense>, idx: int): (t: real)
    ensures !(0 <= idx < 12) ==> t == 0.0
    ensures (forall i :: 0 <= i < |es| ==> MonthIndex(es[i]) == Some(idx)) ==> t == Total(es)
  {
    TotalWhereExtremes(es, InMonth(idx));
    TotalWhere(es, InMonth(idx))
  }

  /** Every stored date reads as a calendar date. */
  predicate AllDatesValid(es: seq<Expense>)
  {
    forall i :: 0 <= i < |es| ==> Calendar.ParseIso(es[i].date).Some?
  }

  /** One chart entry per category: its name, the summed amount of its expenses, and its colour. */
  datatype Slice = Slice(name: string, amount: real, color: string)

  function SliceAmount(s: Slice): real { s.amount }

  function IsPositive(s: Slice): bool { s.amount > 0.0 }

  /** `categories.map(cat => ({ name, amount: <sum of its expenses>, color }))`. */
  function CategorySlices(es: seq<Expense>, categories: seq<Category>): (r: seq<Slice>)
    ensures |r| == |categories|
    ensures forall i :: 0 <= i < |r| ==>
      r[i] == Slice(categories[i].name, CategoryTotal(es, categories[i].id), categories[i].color)
  {
    seq(|categories|, i requires 0 <= i < |categories| =>
      Slice(categories[i].name, CategoryTotal(es, categories[i].id), categories[i].color))
  }

  /** `.filter(d => d.amount > 0)`: the slices of the categories that have spending, in category order. */
  function PositiveSlices(es: seq<Expense>, categories: seq<Category>): (r: seq<Slice>)
    ensures Seqs.IsSubsequence(r, CategorySlices(es, categories))
    ensures forall s :: s in r <==> s in CategorySlices(es, categories) && s.amount > 0.0
    ensures forall s :: multiset(r)[s] == if s.amount > 0.0 then multiset(CategorySlices(es, categories))[s] else 0
  {
    var all := CategorySlices(es, categories);
    var r := Seqs.Filter(all, IsPositive);
    Seqs.FilterMembers(all, IsPositive);
    r
  }

  /** An expense whose category id no category has adds to no slice. */
  lemma UnknownCategoryAddsNothing(es: seq<Expense>, e: Expense, categories: seq<Category>)
    requires forall c :: 0 <= c < |categories| ==> categories[c].id != e.categoryId
    ensures PositiveSlices(es + [e], categories) == PositiveSlices(es, categories)
  {
    forall c | 0 <= c < |categories| ensures CategoryTotal(es + [e], categories[c].id) == CategoryTotal(es, categories[c].id) {
      TotalWhereAppend(es, e, InCategory(categories[c].id));
    }
    assert CategorySlices(es + [e], categories) == CategorySlices(es, categories);
  }
}
