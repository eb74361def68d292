/**
 * The expenses page: the searchable, filterable list sorted newest date
 * first, saving an edited or new expense, deleting, and the CSV export.
 */
module ExpensesPage {
  import opened Wrappers
  import opened Types
  import opened Text
  import Seqs
  import Calendar
  import ExpenseForm
  import Dashboard

  /** The search box matches the merchant or the notes, ignoring ASCII case. */
  predicate MatchesSearch(e: Expense, search: string): (b: bool)
    ensures search == "" ==> b
    ensures Contains(e.merchant, search) ==> b
    ensures e.notes.Some? && Contains(e.notes.value, search) ==> b
    ensures b <==> ((exists i :: OccursAt(ToLower(e.merchant), ToLower(search), i))
      || (e.notes.Some? && exists i :: OccursAt(ToLower(e.notes.value), ToLower(search), i)))
  {
    ContainsIff(ToLower(e.merchant), ToLower(search));
    ContainsIff(ToLower(e.notes.GetOr("")), ToLower(search));
    var hit := Contains(ToLower(e.merchant), ToLower(search))
      || (e.notes.Some? && Contains(ToLower(e.notes.value), ToLower(search)));
    if search == "" then
      assert ToLower(search) == "";
      ContainsEmpty(ToLower(e.merchant));
      hit
    else if Contains(e.merchant, search) then
      ContainsLower(e.merchant, search);
      hit
    else if e.notes.Some? && Contains(e.notes.value, search) then
      ContainsLower(e.notes.value, search);
      hit
    else
      hit
  }

  /** The category selector: `"all"` or one category id. */
  predicate MatchesCategory(e: Expense, filterCategory: string): (b: bool)
    ensures filterCategory == "all" ==> b
    ensures filterCategory != "all" ==> (b <==> e.categoryId == filterCategory)
  {
    filterCategory == "all" || e.categoryId == filterCategory
  }

  function Shown(search: string, filterCategory: string): Expense -> bool
  {
    (e: Expense) => MatchesSearch(e, search) && MatchesCategory(e, filterCategory)
  }

  /**
   * The sort key of `new Date(e.date).getTime()`: the day's position in
   * calendar order; a date that does not read is given a key below every
   * real date.
   */
  function DateKey(e: Expense): (k: real)
    ensures Calendar.ParseIso(e.date).None? <==> k == -1.0
    ensures Calendar.ParseIso(e.date).Some? ==> k >= 0.0
  {
    match Calendar.ParseIso(e.date)
    case Some(d) => Calendar.DayKey(d) as real
    case None => -1.0
  }

  /** On readable dates the key orders expenses as their calendar days are ordered. */
  lemma DateKeyOrder(a: Expense, b: Expense)
    requires Calendar.ParseIso(a.date).Some? && Calendar.ParseIso(b.date).Some?
    ensures DateKey(a) < DateKey(b) <==> Calendar.Before(Calendar.ParseIso(a.date).value, Calendar.ParseIso(b.date).value)
    ensures DateKey(a) == DateKey(b) <==> Calendar.ParseIso(a.date) == Calendar.ParseIso(b.date)
  {
    Calendar.DayKeyOrder(Calendar.ParseIso(a.date).value, Calendar.ParseIso(b.date).value);
  }

  /** `filteredExpenses`: the shown expenses, latest date first. */
  function FilteredExpenses(es: seq<Expense>, search: string, filterCategory: string): (r: seq<Expense>)
    ensures forall e :: multiset(r)[e] == if Shown(search, filterCategory)(e) then multiset(es)[e] else 0
    ensures forall i :: 0 <= i < |r| ==> MatchesSearch(r[i], search) && MatchesCategory(r[i], filterCategory)
    ensures Seqs.SortedDesc(r, DateKey)
  {
    var shown := Seqs.Filter(es, Shown(search, filterCategory));
    var r := Seqs.SortDesc(shown, DateKey);
    ReorderedStillShown(shown, r, search, filterCategory);
    r
  }

  lemma ReorderedStillShown(shown: seq<Expense>, r: seq<Expense>, search: string, filterCategory: string)
    requires multiset(r) == multiset(shown)
    requires forall i :: 0 <= i < |shown| ==> Shown(search, filterCategory)(shown[i])
    ensures forall i :: 0 <= i < |r| ==> MatchesSearch(r[i], search) && MatchesCategory(r[i], filterCategory)
  {
    forall i | 0 <= i < |r| ensures MatchesSearch(r[i], search) && MatchesCategory(r[i], filterCategory) {
      assert r[i] in multiset(shown);
      var k :| 0 <= k < |shown| && shown[k] == r[i];
      assert Shown(search, filterCategory)(shown[k]);
    }
  }

  /** An expense is listed exactly when it is stored and passes both filters. */
  lemma FilteredMembership(es: seq<Expense>, search: string, filterCategory: string, e: Expense)
    ensures e in FilteredExpenses(es, search, filterCategory)
        <==> e in es && MatchesSearch(e, search) && MatchesCategory(e, filterCategory)
  {
    var r := FilteredExpenses(es, search, filterCategory);
    assert e in r <==> multiset(r)[e] > 0;
    assert e in es <==> multiset(es)[e] > 0;
  }

  /** Among listed expenses with readable dates, no later date comes after an earlier one. */
  lemma FilteredNewestFirst(es: seq<Expense>, search: string, filterCategory: string, i: int, j: int)
    requires var r := FilteredExpenses(es, search, filterCategory);
      0 <= i < j < |r| && Calendar.ParseIso(r[i].date).Some? && Calendar.ParseIso(r[j].date).Some?
    ensures var r := FilteredExpenses(es, search, filterCategory);
      !Calendar.Before(Calendar.ParseIso(r[i].date).value, Calendar.ParseIso(r[j].date).value)
  {
    var r := FilteredExpenses(es, search, filterCategory);
    var a, b := Calendar.ParseIso(r[i].date).value, Calendar.ParseIso(r[j].date).value;
    assert DateKey(r[i]) >= DateKey(r[j]);
    Calendar.DayKeyOrder(a, b);
  }

  /** Expenses on the same day keep their stored order. */
  lemma FilteredSameDayKeepsOrder(es: seq<Expense>, search: string, filterCategory: string, k: real)
    ensures Seqs.KeyClass(FilteredExpenses(es, search, filterCategory), DateKey, k)
         == Seqs.KeyClass(Seqs.Filter(es, Shown(search, filterCategory)), DateKey, k)
  {
    Seqs.SortDescStable(Seqs.Filter(es, Shown(search, filterCategory)), DateKey, k);
  }

  /** With an empty search and the "all" category, every stored expense is listed. */
  lemma NoFilterListsEverything(es: seq<Expense>)
    ensures multiset(FilteredExpenses(es, "", "all")) == multiset(es)
  {
    forall e ensures Shown("", "all")(e) {
      ContainsEmpty(ToLower(e.merchant));
    }
  }

  /**
   * `{ ...e, ...exp }`: the stored expense overwritten by the submitted form
   * state, field by field; an optional field the form does not hold keeps its
   * stored value. The form always holds an amount, and a submitted one is a
   * number, since the form rejects a falsy amount before saving.
   */
  function Merge(e: Expense, draft: ExpenseForm.Draft): (r: Expense)
    requires draft.amount.Some?
    ensures r.date == draft.date && r.merchant == draft.merchant && r.categoryId == draft.categoryId
    ensures r.paymentMethod == draft.paymentMethod
    ensures draft.id.Some? ==> r.id == draft.id.value
    ensures draft.id.None? ==> r.id == e.id
    ensures r.amount == draft.amount.value
    ensures draft.notes.Some? ==> r.notes == draft.notes
    ensures draft.notes.None? ==> r.notes == e.notes
    ensures draft.receiptImage.Some? ==> r.receiptImage == draft.receiptImage
    ensures draft.receiptImage.None? ==> r.receiptImage == e.receiptImage
    ensures draft.createdAt.Some? ==> r.createdAt == draft.createdAt.value
    ensures draft.createdAt.None? ==> r.createdAt == e.createdAt
  {
    Expense(
      draft.id.GetOr(e.id), draft.amount.value, draft.date, draft.categoryId, draft.merchant,
      draft.paymentMethod, if draft.notes.Some? then draft.notes else e.notes,
      if draft.receiptImage.Some? then draft.receiptImage else e.receiptImage,
      draft.createdAt.GetOr(e.createdAt))
  }

  /** Saving a form opened on an expense without changes gives the same expense back. */
  lemma MergeUnchanged(e: Expense)
    ensures Merge(e, ExpenseForm.EditDraft(e)) == e
  {
  }

  /** Saving while editing: every expense with the edited id takes the form state, the rest stay. */
  function SaveEdited(es: seq<Expense>, editingId: string, draft: ExpenseForm.Draft): (r: seq<Expense>)
    requires draft.amount.Some?
    ensures |r| == |es|
    ensures forall i :: 0 <= i < |es| ==> r[i] == if es[i].id == editingId then Merge(es[i], draft) else es[i]
  {
    seq(|es|, i requires 0 <= i < |es| => if es[i].id == editingId then Merge(es[i], draft) else es[i])
  }

  /** Re-saving an expense's own form state leaves the list as it was, when ids are distinct. */
  lemma SaveEditedUnchanged(es: seq<Expense>, k: int)
    requires 0 <= k < |es|
    requires forall i, j :: 0 <= i < j < |es| ==> es[i].id != es[j].id
    ensures SaveEdited(es, es[k].id, ExpenseForm.EditDraft(es[k])) == es
  {
    var r := SaveEdited(es, es[k].id, ExpenseForm.EditDraft(es[k]));
    forall i | 0 <= i < |es| ensures r[i] == es[i] {
      if i != k {
        assert es[i].id != es[k].id;
      }
    }
  }

  /** `handleSave`: edit in place when a record is being edited, otherwise append a new record. */
  function Save(es: seq<Expense>, editing: Option<Expense>, draft: ExpenseForm.Draft, freshId: string, now: int): (r: seq<Expense>)
    requires draft.amount.Some?
    ensures editing.Some? ==> r == SaveEdited(es, editing.value.id, draft)
    ensures editing.None? ==> |r| == |es| + 1 && r[..|es|] == es && r[|es|] == ExpenseForm.FromDraft(draft, freshId, now)
  {
    match editing
    case Some(e) => SaveEdited(es, e.id, draft)
    case None => Dashboard.AddExpense(es, draft, freshId, now)
  }

  function IdIsNot(id: string): Expense -> bool
  {
    (e: Expense) => e.id != id
  }

  /** `handleDelete` once confirmed: every expense with that id is removed, the rest keep their order. */
  function DeleteExpense(es: seq<Expense>, id: string): (r: seq<Expense>)
    ensures forall i :: 0 <= i < |r| ==> r[i].id != id
    ensures Seqs.IsSubsequence(r, es)
    ensures forall e: Expense :: e.id != id ==> multiset(r)[e] == multiset(es)[e]
  {
    Seqs.Filter(es, IdIsNot(id))
  }

  /** Deleting a freshly added expense by its new id restores the list. */
  lemma DeleteUndoesAdd(es: seq<Expense>, draft: ExpenseForm.Draft, freshId: string, now: int)
    requires draft.amount.Some?
    requires forall i :: 0 <= i < |es| ==> es[i].id != freshId
    ensures DeleteExpense(Save(es, None, draft, freshId, now), freshId) == es
  {
    var added := Save(es, None, draft, freshId, now);
    assert added == es + [ExpenseForm.FromDraft(draft, freshId, now)];
    Seqs.FilterConcat(es, [ExpenseForm.FromDraft(draft, freshId, now)], IdIsNot(freshId));
    Seqs.FilterKeepsAll(es, IdIsNot(freshId));
  }

  /** The CSV header row. */
  const CsvHeader: seq<string> := ["Date", "Merchant", "Category", "Amount", "Payment Method", "Notes"]

  /**
   * One expense's CSV fields; `amountText` stands for JavaScript's
   * number-to-string conversion.
   */
  function CsvFields(e: Expense, categories: seq<Category>, amountText: real -> string): (r: seq<string>)
    ensures |r| == |CsvHeader|
    ensures r[0] == e.date && r[1] == e.merchant && r[3] == amountText(e.amount) && r[4] == e.paymentMethod.Label()
    ensures r[5] == e.notes.GetOr("")
    ensures r[2] == NameOr(categories, e.categoryId, "Unknown")
    ensures (forall i :: 0 <= i < |categories| ==> categories[i].id != e.categoryId) ==> r[2] == "Unknown"
  {
    [e.date, e.merchant, NameOr(categories, e.categoryId, "Unknown"), amountText(e.amount),
      e.paymentMethod.Label(), e.notes.GetOr("")]
  }

  function CsvRow(fields: seq<string>): string
  {
    Join(fields, ",")
  }

  function CsvLines(es: seq<Expense>, categories: seq<Category>, amountText: real -> string): (r: seq<string>)
    ensures |r| == |es|
    ensures forall i :: 0 <= i < |es| ==> r[i] == CsvRow(CsvFields(es[i], categories, amountText))
  {
    seq(|es|, i requires 0 <= i < |es| => CsvRow(CsvFields(es[i], categories, amountText)))
  }

  /** No comma and no newline anywhere in one expense's fields. */
  predicate PlainFields(e: Expense, categories: seq<Category>, amountText: real -> string)
  {
    var fields := CsvFields(e, categories, amountText);
    forall k :: 0 <= k < |fields| ==> ',' !in fields[k] && '\n' !in fields[k]
  }

  /** The header and every expense line, before they are joined by newlines. */
  function CsvRows(es: seq<Expense>, categories: seq<Category>, amountText: real -> string): (rows: seq<string>)
    ensures |rows| == |es| + 1 && rows[0] == CsvRow(CsvHeader)
    ensures forall i :: 0 <= i < |es| ==> rows[i + 1] == CsvRow(CsvFields(es[i], categories, amountText))
  {
    var lines := CsvLines(es, categories, amountText);
    assert forall i :: 0 <= i < |es| ==> ([CsvRow(CsvHeader)] + lines)[i + 1] == lines[i];
    [CsvRow(CsvHeader)] + lines
  }

  lemma HeaderSingleLine()
    ensures '\n' !in CsvRow(CsvHeader)
  {
    JoinAvoids(CsvHeader, ",", '\n');
  }

  lemma RowSingleLine(e: Expense, categories: seq<Category>, amountText: real -> string)
    requires PlainFields(e, categories, amountText)
    ensures '\n' !in CsvRow(CsvFields(e, categories, amountText))
  {
    JoinAvoids(CsvFields(e, categories, amountText), ",", '\n');
  }

  /** No row holds a newline when no field does. */
  lemma CsvRowsSingleLine(es: seq<Expense>, categories: seq<Category>, amountText: real -> string)
    requires forall i :: 0 <= i < |es| ==> PlainFields(es[i], categories, amountText)
    ensures forall j :: 0 <= j < |es| + 1 ==> '\n' !in CsvRows(es, categories, amountText)[j]
  {
    var rows := CsvRows(es, categories, amountText);
    forall j | 0 <= j < |es| + 1 ensures '\n' !in rows[j] {
      if j == 0 {
        HeaderSingleLine();
      } else {
        RowSingleLine(es[j - 1], categories, amountText);
      }
    }
  }

  /** The exported text: the header line and one line per listed expense, joined by newlines. */
  function CsvText(es: seq<Expense>, categories: seq<Category>, amountText: real -> string): (r: string)
    ensures CsvRow(CsvHeader) <= r
    ensures |es| == 0 ==> r == CsvRow(CsvHeader)
  {
    Join(CsvRows(es, categories, amountText), "\n")
  }

  /**
   * When no field holds a comma or a newline, the export reads back: one
   * line per expense after the header, and each line splits into that
   * expense's six fields.
   */
  lemma CsvReadsBack(es: seq<Expense>, categories: seq<Category>, amountText: real -> string)
    requires forall i :: 0 <= i < |es| ==> PlainFields(es[i], categories, amountText)
    ensures var lines := Split(CsvText(es, categories, amountText), '\n');
      |lines| == |es| + 1 && Split(lines[0], ',') == CsvHeader
      && forall i :: 0 <= i < |es| ==> Split(lines[i + 1], ',') == CsvFields(es[i], categories, amountText)
  {
    var rows := CsvRows(es, categories, amountText);
    CsvRowsSingleLine(es, categories, amountText);
    SplitJoin(rows, '\n');
    HeaderReadsBack();
    forall i | 0 <= i < |es| ensures Split(rows[i + 1], ',') == CsvFields(es[i], categories, amountText) {
      RowReadsBack(es[i], categories, amountText);
    }
  }

  lemma HeaderReadsBack()
    ensures Split(CsvRow(CsvHeader), ',') == CsvHeader
  {
    SplitJoin(CsvHeader, ',');
  }

  lemma RowReadsBack(e: Expense, categories: seq<Category>, amountText: real -> string)
    requires PlainFields(e, categories, amountText)
    ensures Split(CsvRow(CsvFields(e, categories, amountText)), ',') == CsvFields(e, categories, amountText)
  {
    SplitJoin(CsvFields(e, categories, amountText), ',');
  }

  lemma LabelHasNoComma(p: PaymentMethod)
    ensures ',' !in p.Label()
  {
  }

  /** A merchant name holding a comma shifts the columns: its line splits into seven fields. */
  lemma CommaInMerchantShiftsColumns(e: Expense, categories: seq<Category>, amountText: real -> string)
    requires e.merchant == "Smith, Jones"
    requires ',' !in e.date && ',' !in NameOr(categories, e.categoryId, "Unknown")
    requires ',' !in amountText(e.amount) && ',' !in e.notes.GetOr("")
    ensures |Split(CsvRow(CsvFields(e, categories, amountText)), ',')| == 7
  {
    var f := CsvFields(e, categories, amountText);
    LabelHasNoComma(e.paymentMethod);
    assert "Smith" + "," + " Jones" == e.merchant;
    assert f == [f[0], "Smith" + "," + " Jones"] + f[2..];
    SplitSeesExtraField(f[0], "Smith", " Jones", f[2..]);
  }
}
