/**
 * The decisions of the expense form: its initial state, what happens when the
 * merchant field loses focus (rules first, then the suggestion oracle), and
 * the validation and rule-learning policy on submit. The oracle's answer for
 * the merchant is a parameter (None when it is unavailable or fails).
 */
module ExpenseForm {
  import opened Wrappers
  import opened Types
  import opened DataService
  import opened Text
  import Calendar

  /**
   * The form state (`Partial<Expense>`). `amount` is None when the field holds
   * no number (`parseFloat` gave NaN); `id` and `createdAt` are present only
   * when the form was opened on an existing expense.
   */
  datatype Draft = Draft(
    id: Option<string>,
    amount: Option<real>,
    date: string,
    categoryId: string,
    merchant: string,
    paymentMethod: PaymentMethod,
    notes: Option<string>,
    receiptImage: Option<string>,
    createdAt: Option<int>)

  /** The state of a form opened to add an expense on the day `today`. */
  function NewDraft(today: Calendar.Date): (d: Draft)
    requires Calendar.ValidDate(today) && Calendar.IsoYear(today)
    ensures d.amount == Some(0.0) && d.merchant == "" && d.notes == Some("")
    ensures d.categoryId == OtherCategoryId && d.paymentMethod == DebitCard
    ensures Calendar.ParseIso(d.date) == Some(today)
    ensures d.id.None? && d.createdAt.None? && d.receiptImage.None?
  {
    Calendar.ParseFormatIso(today);
    Draft(None, Some(0.0), Calendar.FormatIso(today), "cat-other", "", DebitCard, Some(""), None, None)
  }

  /** The state of a form opened on an existing expense: the expense itself. */
  function EditDraft(e: Expense): (d: Draft)
    ensures d.id == Some(e.id) && d.amount == Some(e.amount) && d.createdAt == Some(e.createdAt)
    ensures d.merchant == e.merchant && d.categoryId == e.categoryId && d.date == e.date
    ensures d.paymentMethod == e.paymentMethod && d.notes == e.notes && d.receiptImage == e.receiptImage
  {
    Draft(Some(e.id), Some(e.amount), e.date, e.categoryId, e.merchant, e.paymentMethod, e.notes, e.receiptImage, Some(e.createdAt))
  }

  /**
   * `{ ...draft, id, createdAt }`: the record a saved new draft becomes, with a
   * generated id and the creation time. Only drafts that passed validation are
   * saved, so the amount is a number.
   */
  function FromDraft(draft: Draft, id: string, createdAt: int): (e: Expense)
    requires draft.amount.Some?
    ensures e.id == id && e.createdAt == createdAt && e.amount == draft.amount.value
    ensures EditDraft(e) == draft.(id := Some(id), createdAt := Some(createdAt))
  {
    Expense(id, draft.amount.value, draft.date, draft.categoryId, draft.merchant, draft.paymentMethod,
      draft.notes, draft.receiptImage, createdAt)
  }

  /** The outcome of a blur: the new form state, and whether the oracle was asked. */
  datatype BlurOutcome = BlurOutcome(draft: Draft, consultedOracle: bool)

  /** Blur does nothing for an empty merchant, or for an unchanged merchant while editing. */
  predicate BlurSkipped(draft: Draft, initial: Option<Expense>)
  {
    draft.merchant == "" || (initial.Some? && draft.merchant == initial.value.merchant)
  }

  /** A non-empty category id (the truthiness test the form applies to rule and oracle answers). */
  predicate Truthy(answer: Option<string>)
  {
    answer.Some? && answer.value != ""
  }

  /** `handleMerchantBlur`. */
  function OnMerchantBlur(draft: Draft, initial: Option<Expense>, rules: seq<CategorizationRule>, oracle: Option<string>): (r: BlurOutcome)
    ensures r.draft == draft.(categoryId := r.draft.categoryId)
    ensures BlurSkipped(draft, initial) ==> r == BlurOutcome(draft, false)
    ensures !BlurSkipped(draft, initial) && Truthy(MatchRule(rules, draft.merchant)) ==>
      r == BlurOutcome(draft.(categoryId := MatchRule(rules, draft.merchant).value), false)
    ensures r.consultedOracle <==> !BlurSkipped(draft, initial) && !Truthy(MatchRule(rules, draft.merchant))
    ensures r.consultedOracle && Truthy(oracle) ==> r.draft.categoryId == oracle.value
    ensures r.consultedOracle && !Truthy(oracle) ==> r.draft == draft
  {
    if BlurSkipped(draft, initial) then BlurOutcome(draft, false)
    else
      var matched := MatchRule(rules, draft.merchant);
      if Truthy(matched) then BlurOutcome(draft.(categoryId := matched.value), false)
      else if Truthy(oracle) then BlurOutcome(draft.(categoryId := oracle.value), true)
      else BlurOutcome(draft, true)
  }

  /** After a blur the category is unchanged, the category of a stored rule, or the oracle's answer. */
  lemma BlurCategorySources(draft: Draft, initial: Option<Expense>, rules: seq<CategorizationRule>, oracle: Option<string>)
    ensures var c := OnMerchantBlur(draft, initial, rules, oracle).draft.categoryId;
      c == draft.categoryId
      || (exists i :: 0 <= i < |rules| && rules[i].categoryId == c)
      || oracle == Some(c)
  {
  }

  /**
   * The oracle's answer is adopted without checking it against the category
   * list: an id no category has still becomes the draft's category.
   */
  lemma OracleAnswerUnchecked(draft: Draft, categories: seq<Category>, answer: string)
    requires !BlurSkipped(draft, None) && answer != ""
    requires FindCategory(categories, answer).None?
    ensures OnMerchantBlur(draft, None, [], Some(answer)).draft.categoryId == answer
    ensures FindCategory(categories, OnMerchantBlur(draft, None, [], Some(answer)).draft.categoryId).None?
  {
  }

  /** `!formData.amount`: zero and NaN are falsy, every other number (negative ones included) is not. */
  predicate FalsyAmount(amount: Option<real>)
  {
    amount.None? || amount.value == 0.0
  }

  /** The rule-learning policy: on edit only when the category changed, on create whenever a category is set. */
  predicate LearnsRule(draft: Draft, initial: Option<Expense>)
  {
    if initial.Some? then draft.categoryId != initial.value.categoryId
    else draft.merchant != "" && draft.categoryId != ""
  }

  datatype SubmitOutcome = Rejected | Saved(draft: Draft, rules: seq<CategorizationRule>)

  /** `handleSubmit`: validate, possibly learn a rule for the merchant, and hand the draft to the page. */
  function OnSubmit(draft: Draft, initial: Option<Expense>, rules: seq<CategorizationRule>, freshId: string): (r: SubmitOutcome)
    ensures r.Rejected? <==> FalsyAmount(draft.amount) || draft.merchant == ""
    ensures r.Saved? ==> r.draft == draft && r.draft.amount.Some? && r.draft.amount.value != 0.0
    ensures r.Saved? && LearnsRule(draft, initial) ==> r.rules == AddRule(rules, draft.merchant, draft.categoryId, freshId)
    ensures r.Saved? && !LearnsRule(draft, initial) ==> r.rules == rules
  {
    if FalsyAmount(draft.amount) || draft.merchant == "" then Rejected
    else if LearnsRule(draft, initial) then Saved(draft, AddRule(rules, draft.merchant, draft.categoryId, freshId))
    else Saved(draft, rules)
  }

  /** A negative amount passes validation. */
  lemma NegativeAmountAccepted(draft: Draft, initial: Option<Expense>, rules: seq<CategorizationRule>, freshId: string)
    requires draft.amount.Some? && draft.amount.value < 0.0 && draft.merchant != ""
    ensures OnSubmit(draft, initial, rules, freshId).Saved?
  {
  }

  /** While editing, a rule is learned exactly when the category was changed. */
  lemma EditLearnsIffCategoryChanged(draft: Draft, e: Expense, rules: seq<CategorizationRule>, freshId: string)
    requires UniqueKeywords(rules)
    requires OnSubmit(draft, Some(e), rules, freshId).Saved?
    ensures OnSubmit(draft, Some(e), rules, freshId).rules != rules ==> draft.categoryId != e.categoryId
    ensures draft.categoryId != e.categoryId ==>
      var learned := OnSubmit(draft, Some(e), rules, freshId).rules;
      UniqueKeywords(learned)
      && exists i :: 0 <= i < |learned| && EqualsIgnoreCase(learned[i].keyword, draft.merchant) && learned[i].categoryId == draft.categoryId
  {
    if draft.categoryId != e.categoryId {
      AddRuleLearns(rules, draft.merchant, draft.categoryId, freshId);
      AddRulePreservesUniqueKeywords(rules, draft.merchant, draft.categoryId, freshId);
    }
  }

  /** While creating, every accepted submit with a category learns it; without one the rules stay. */
  lemma CreateLearnsWhenCategorySet(draft: Draft, rules: seq<CategorizationRule>, freshId: string)
    requires OnSubmit(draft, None, rules, freshId).Saved?
    ensures draft.categoryId == "" ==> OnSubmit(draft, None, rules, freshId).rules == rules
    ensures draft.categoryId != "" ==>
      var learned := OnSubmit(draft, None, rules, freshId).rules;
      exists i :: 0 <= i < |learned| && EqualsIgnoreCase(learned[i].keyword, draft.merchant) && learned[i].categoryId == draft.categoryId
  {
    if draft.categoryId != "" {
      AddRuleLearns(rules, draft.merchant, draft.categoryId, freshId);
    }
  }

  /**
   * Learning on create feeds the next blur: once an expense for a merchant no
   * rule covered is saved, a new form for that merchant takes the saved
   * category from the rules without asking the oracle.
   */
  lemma CreateThenBlurUsesLearnedRule(
    draft: Draft, rules: seq<CategorizationRule>, freshId: string,
    today: Calendar.Date, oracle: Option<string>)
    requires draft.merchant != "" && draft.categoryId != "" && !FalsyAmount(draft.amount)
    requires MatchRule(rules, draft.merchant) == None
    requires Calendar.ValidDate(today) && Calendar.IsoYear(today)
    ensures var learned := OnSubmit(draft, None, rules, freshId).rules;
      OnMerchantBlur(NewDraft(today).(merchant := draft.merchant), None, learned, oracle)
        == BlurOutcome(NewDraft(today).(merchant := draft.merchant, categoryId := draft.categoryId), false)
  {
    assert draft.merchant + "" == draft.merchant;
    LearnedKeywordResolvesExtensions(rules, draft.merchant, draft.categoryId, freshId, "");
  }
}
