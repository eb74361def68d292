/** The records the app stores, and its built-in constants. */
module Types {
  import opened Wrappers

  datatype Category = Category(id: string, name: string, color: string, icon: string, isCustom: Option<bool>)

  datatype PaymentMethod = Cash | CreditCard | DebitCard | BankTransfer | DigitalWallet
  {
    /** The string the source stores for the method. */
    function Label(): string
    {
      match this
      case Cash => "Cash"
      case CreditCard => "Credit Card"
      case DebitCard => "Debit Card"
      case BankTransfer => "Bank Transfer"
      case DigitalWallet => "Digital Wallet"
    }
  }

  /**
   * A stored expense. `date` is the `YYYY-MM-DD` string as entered; `createdAt`
   * is the millisecond timestamp taken when the record was created.
   */
  datatype Expense = Expense(
    id: string,
    amount: real,
    date: string,
    categoryId: string,
    merchant: string,
    paymentMethod: PaymentMethod,
    notes: Option<string>,
    receiptImage: Option<string>,
    createdAt: int)

  datatype CategorizationRule = CategorizationRule(id: string, keyword: string, categoryId: string)

  datatype DashboardStats = DashboardStats(totalSpend: real, avgDaily: real, topCategory: string, biggestTransaction: real)

  /** The eleven built-in categories, in the order every category list starts with. */
  const DefaultCategories: seq<Category> := [
    Category("cat-food", "Food & Drinks", "#EF4444", "Utensils", None),
    Category("cat-ent", "Entertainment", "#8B5CF6", "Film", None),
    Category("cat-shop", "Shopping", "#EC4899", "ShoppingBag", None),
    Category("cat-trans", "Transportation", "#F59E0B", "Car", None),
    Category("cat-housing", "Housing", "#3B82F6", "Home", None),
    Category("cat-utils", "Utilities", "#10B981", "Zap", None),
    Category("cat-health", "Health", "#EF4444", "HeartPulse", None),
    Category("cat-edu", "Education", "#6366F1", "BookOpen", None),
    Category("cat-travel", "Travel", "#06B6D4", "Plane", None),
    Category("cat-subs", "Subscriptions", "#6B7280", "Repeat", None),
    Category("cat-other", "Other", "#9CA3AF", "MoreHorizontal", None)
  ]

  const OtherCategoryId: string := "cat-other"

  /** `categories.find(c => c.id === id)`. */
  function FindCategory(categories: seq<Category>, id: string): (r: Option<Category>)
    ensures r.Some? <==> exists i :: 0 <= i < |categories| && categories[i].id == id
    ensures r.Some? ==> r.value in categories && r.value.id == id
    decreases |categories|
  {
    if |categories| == 0 then None
    else if categories[0].id == id then Some(categories[0])
    else
      var r := FindCategory(categories[1..], id);
      assert forall i :: 1 <= i < |categories| ==> categories[i] == categories[1..][i - 1];
      r
  }

  /**
   * `categories.find(c => c.id === id)?.name || fallback`: the name of the
   * category with that id, or `fallback` when there is none or its name is empty.
   */
  function NameOr(categories: seq<Category>, id: string, fallback: string): (name: string)
    ensures (exists i :: 0 <= i < |categories| && categories[i].id == id && categories[i].name == name) || name == fallback
    ensures (forall i :: 0 <= i < |categories| ==> categories[i].id != id) ==> name == fallback
    ensures FindCategory(categories, id).Some? && FindCategory(categories, id).value.name != "" ==>
      name == FindCategory(categories, id).value.name
    ensures FindCategory(categories, id).None? || FindCategory(categories, id).value.name == "" ==> name == fallback
  {
    match FindCategory(categories, id)
    case Some(c) => if c.name != "" then c.name else fallback
    case None => fallback
  }

  /** `categories.find(c => c.id === id)` returns the first category carrying that id. */
  lemma {:induction false} FindCategoryFirst(categories: seq<Category>, id: string, k: nat)
    requires k < |categories| && categories[k].id == id
    requires forall j :: 0 <= j < k ==> categories[j].id != id
    ensures FindCategory(categories, id) == Some(categories[k])
    decreases k
  {
    if k > 0 {
      FindCategoryFirst(categories[1..], id, k - 1);
    }
  }

  /** The category ids are pairwise distinct. */
  predicate DistinctIds(categories: seq<Category>)
  {
    forall i, j :: 0 <= i < j < |categories| ==> categories[i].id != categories[j].id
  }

  lemma DefaultCategoriesDistinct()
    ensures |DefaultCategories| == 11
    ensures DistinctIds(DefaultCategories)
    ensures DefaultCategories[10].id == OtherCategoryId
  {
  }
}
