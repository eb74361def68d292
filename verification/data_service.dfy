/**
 * The rule store of the data service: resolving a merchant to a category by
 * the first rule whose keyword occurs in it, and learning a rule by
 * case-insensitive upsert on the whole keyword. The stored rule list is an
 * explicit parameter and result instead of a read and a write of local
 * storage.
 */
module DataService {
  import opened Wrappers
  import opened Text
  import opened Types
  import Seqs

  /** A rule fires for a merchant when its lower-cased keyword occurs in the lower-cased merchant. */
  predicate RuleMatches(rule: CategorizationRule, merchant: string)
  {
    Contains(ToLower(merchant), ToLower(rule.keyword))
  }

  function Matcher(merchant: string): CategorizationRule -> bool
  {
    (rule: CategorizationRule) => RuleMatches(rule, merchant)
  }

  /** `rules[i]` is the first rule, in stored order, that fires for `merchant`. */
  predicate FirstMatchAt(rules: seq<CategorizationRule>, merchant: string, i: int)
  {
    0 <= i < |rules| && RuleMatches(rules[i], merchant)
    && forall j :: 0 <= j < i ==> !RuleMatches(rules[j], merchant)
  }

  /** `matchRule`: the category of the first rule that fires, or None when no rule does. */
  function MatchRule(rules: seq<CategorizationRule>, merchant: string): (r: Option<string>)
    ensures r.None? <==> forall i :: 0 <= i < |rules| ==> !RuleMatches(rules[i], merchant)
    ensures r.Some? ==> exists i :: FirstMatchAt(rules, merchant, i) && rules[i].categoryId == r.value
  {
    match Seqs.FindIndex(rules, Matcher(merchant))
    case None => None
    case Some(i) =>
      assert FirstMatchAt(rules, merchant, i);
      Some(rules[i].categoryId)
  }

  /** Whatever rule comes first among those that fire decides the result. */
  lemma MatchRuleFirst(rules: seq<CategorizationRule>, merchant: string, i: int)
    requires FirstMatchAt(rules, merchant, i)
    ensures MatchRule(rules, merchant) == Some(rules[i].categoryId)
  {
    var r := MatchRule(rules, merchant);
    var k :| FirstMatchAt(rules, merchant, k) && rules[k].categoryId == r.value;
  }

  /** The rules after a rule that fires are never consulted. */
  lemma MatchRuleIgnoresLaterRules(rules: seq<CategorizationRule>, more: seq<CategorizationRule>, merchant: string)
    requires MatchRule(rules, merchant).Some?
    ensures MatchRule(rules + more, merchant) == MatchRule(rules, merchant)
  {
    var i :| FirstMatchAt(rules, merchant, i) && rules[i].categoryId == MatchRule(rules, merchant).value;
    assert FirstMatchAt(rules + more, merchant, i);
    MatchRuleFirst(rules + more, merchant, i);
  }

  /** A rule with an empty keyword fires for every merchant, so it shadows every rule after it. */
  lemma EmptyKeywordShadows(rules: seq<CategorizationRule>, i: int, merchant: string)
    requires 0 <= i < |rules| && rules[i].keyword == ""
    ensures MatchRule(rules, merchant).Some?
    ensures MatchRule(rules, merchant) == MatchRule(rules[..i + 1], merchant)
  {
    assert ToLower(rules[i].keyword) == "";
    ContainsEmpty(ToLower(merchant));
    assert RuleMatches(rules[..i + 1][i], merchant);
    assert rules == rules[..i + 1] + rules[i + 1..];
    MatchRuleIgnoresLaterRules(rules[..i + 1], rules[i + 1..], merchant);
  }

  /** `rules[i]` is the first rule whose keyword equals `keyword` ignoring case. */
  predicate FirstKeywordAt(rules: seq<CategorizationRule>, keyword: string, i: int)
  {
    0 <= i < |rules| && EqualsIgnoreCase(rules[i].keyword, keyword)
    && forall j :: 0 <= j < i ==> !EqualsIgnoreCase(rules[j].keyword, keyword)
  }

  /** Some rule has `keyword` ignoring case. */
  predicate KnownKeyword(rules: seq<CategorizationRule>, keyword: string)
  {
    exists i :: 0 <= i < |rules| && EqualsIgnoreCase(rules[i].keyword, keyword)
  }

  function SameKeyword(keyword: string): CategorizationRule -> bool
  {
    (rule: CategorizationRule) => EqualsIgnoreCase(rule.keyword, keyword)
  }

  /**
   * `addRule`: when a rule's keyword equals `keyword` ignoring case, the first
   * such rule takes the new category; otherwise a rule with the keyword as
   * typed and the generated id `freshId` is appended.
   */
  function AddRule(rules: seq<CategorizationRule>, keyword: string, categoryId: string, freshId: string): (r: seq<CategorizationRule>)
    ensures KnownKeyword(rules, keyword) ==>
      |r| == |rules|
      && exists j :: FirstKeywordAt(rules, keyword, j)
           && r[j] == rules[j].(categoryId := categoryId)
           && forall i :: 0 <= i < |rules| && i != j ==> r[i] == rules[i]
    ensures !KnownKeyword(rules, keyword) ==>
      |r| == |rules| + 1 && r[..|rules|] == rules
      && r[|rules|] == CategorizationRule(freshId, keyword, categoryId)
  {
    match Seqs.FindIndex(rules, SameKeyword(keyword))
    case Some(j) =>
      assert FirstKeywordAt(rules, keyword, j);
      rules[j := rules[j].(categoryId := categoryId)]
    case None =>
      rules + [CategorizationRule(freshId, keyword, categoryId)]
  }

  /** After learning, some rule carries the keyword (ignoring case) and the learned category. */
  lemma AddRuleLearns(rules: seq<CategorizationRule>, keyword: string, categoryId: string, freshId: string)
    ensures var r := AddRule(rules, keyword, categoryId, freshId);
      exists i :: 0 <= i < |r| && EqualsIgnoreCase(r[i].keyword, keyword) && r[i].categoryId == categoryId
  {
    var r := AddRule(rules, keyword, categoryId, freshId);
    if !KnownKeyword(rules, keyword) {
      assert EqualsIgnoreCase(r[|rules|].keyword, keyword);
    }
  }

  /** Ids and keywords are never changed by learning, only categories. */
  lemma AddRuleKeepsIdsAndKeywords(rules: seq<CategorizationRule>, keyword: string, categoryId: string, freshId: string)
    ensures forall i :: 0 <= i < |rules| ==>
      AddRule(rules, keyword, categoryId, freshId)[i].id == rules[i].id
      && AddRule(rules, keyword, categoryId, freshId)[i].keyword == rules[i].keyword
  {
    var r := AddRule(rules, keyword, categoryId, freshId);
    if KnownKeyword(rules, keyword) {
      var j :| FirstKeywordAt(rules, keyword, j) && r[j] == rules[j].(categoryId := categoryId)
        && forall i :: 0 <= i < |rules| && i != j ==> r[i] == rules[i];
    } else {
      assert forall i :: 0 <= i < |rules| ==> r[i] == r[..|rules|][i];
    }
  }

  /** At most one rule has a given keyword first; learning reads the same index. */
  lemma FirstKeywordUnique(rules: seq<CategorizationRule>, keyword: string, a: int, b: int)
    requires FirstKeywordAt(rules, keyword, a) && FirstKeywordAt(rules, keyword, b)
    ensures a == b
  {
  }

  /** Learning what the first rule for a keyword already says changes nothing. */
  lemma AddRuleAlreadyLearned(rules: seq<CategorizationRule>, keyword: string, categoryId: string, freshId: string, j: int)
    requires FirstKeywordAt(rules, keyword, j) && rules[j].categoryId == categoryId
    ensures AddRule(rules, keyword, categoryId, freshId) == rules
  {
    var r := AddRule(rules, keyword, categoryId, freshId);
    var j2 :| FirstKeywordAt(rules, keyword, j2) && r[j2] == rules[j2].(categoryId := categoryId)
      && forall i :: 0 <= i < |rules| && i != j2 ==> r[i] == rules[i];
    FirstKeywordUnique(rules, keyword, j, j2);
  }

  /** Learning the same keyword and category twice gives the list learning it once gives. */
  lemma AddRuleIdempotent(rules: seq<CategorizationRule>, keyword: string, categoryId: string, id1: string, id2: string)
    ensures AddRule(AddRule(rules, keyword, categoryId, id1), keyword, categoryId, id2)
         == AddRule(rules, keyword, categoryId, id1)
  {
    var r1 := AddRule(rules, keyword, categoryId, id1);
    if KnownKeyword(rules, keyword) {
      var j :| FirstKeywordAt(rules, keyword, j) && r1[j] == rules[j].(categoryId := categoryId)
        && forall i :: 0 <= i < |rules| && i != j ==> r1[i] == rules[i];
      assert forall i :: 0 <= i < j ==> r1[i].keyword == rules[i].keyword;
      AddRuleAlreadyLearned(r1, keyword, categoryId, id2, j);
    } else {
      var n := |rules|;
      assert forall i :: 0 <= i < n ==> r1[i] == r1[..n][i];
      assert forall i :: 0 <= i < n ==> !EqualsIgnoreCase(r1[i].keyword, keyword);
      AddRuleAlreadyLearned(r1, keyword, categoryId, id2, n);
    }
  }

  /** No two rules have keywords that are equal ignoring case. */
  predicate UniqueKeywords(rules: seq<CategorizationRule>)
  {
    forall i, j :: 0 <= i < j < |rules| ==> !EqualsIgnoreCase(rules[i].keyword, rules[j].keyword)
  }

  /** Learning keeps keywords unique: the upsert never adds a second rule for a keyword. */
  lemma AddRulePreservesUniqueKeywords(rules: seq<CategorizationRule>, keyword: string, categoryId: string, freshId: string)
    requires UniqueKeywords(rules)
    ensures UniqueKeywords(AddRule(rules, keyword, categoryId, freshId))
  {
    var r := AddRule(rules, keyword, categoryId, freshId);
    AddRuleKeepsIdsAndKeywords(rules, keyword, categoryId, freshId);
    if !KnownKeyword(rules, keyword) {
      forall i, j | 0 <= i < j < |r| ensures !EqualsIgnoreCase(r[i].keyword, r[j].keyword) {
        if j == |rules| {
          assert r[j].keyword == keyword;
        }
      }
    }
  }

  /**
   * The sharp edge between learning and resolving: a keyword learned from one
   * merchant also fires for every merchant that extends it, and does so as
   * long as no earlier rule fires for that merchant.
   */
  lemma LearnedKeywordResolvesExtensions(rules: seq<CategorizationRule>, keyword: string, categoryId: string, freshId: string, suffix: string)
    requires MatchRule(rules, keyword + suffix) == None
    ensures MatchRule(AddRule(rules, keyword, categoryId, freshId), keyword + suffix) == Some(categoryId)
  {
    var merchant := keyword + suffix;
    ToLowerConcat(keyword, suffix);
    ContainsPrefix(ToLower(keyword), ToLower(suffix));
    assert forall i :: 0 <= i < |rules| && EqualsIgnoreCase(rules[i].keyword, keyword) ==> RuleMatches(rules[i], merchant);
    assert !KnownKeyword(rules, keyword);
    var r := AddRule(rules, keyword, categoryId, freshId);
    assert RuleMatches(r[|rules|], merchant);
    assert forall j :: 0 <= j < |rules| ==> r[j] == rules[j] by {
      assert forall j :: 0 <= j < |rules| ==> r[j] == r[..|rules|][j];
    }
    assert FirstMatchAt(r, merchant, |rules|);
    MatchRuleFirst(r, merchant, |rules|);
  }

  /**
   * Learning never overrides a match that already exists through a different
   * keyword: the new rule is appended behind the rule that fires.
   */
  lemma LearnedRuleShadowed(rules: seq<CategorizationRule>, merchant: string, categoryId: string, freshId: string)
    requires MatchRule(rules, merchant).Some?
    requires !KnownKeyword(rules, merchant)
    ensures MatchRule(AddRule(rules, merchant, categoryId, freshId), merchant) == MatchRule(rules, merchant)
  {
    var r := AddRule(rules, merchant, categoryId, freshId);
    assert r == rules + [CategorizationRule(freshId, merchant, categoryId)];
    MatchRuleIgnoresLaterRules(rules, [CategorizationRule(freshId, merchant, categoryId)], merchant);
  }

  /** Learning "Starbucks" lets "Starbucks Reserve" resolve to the learned category. */
  lemma StarbucksReserveResolves()
    ensures MatchRule(AddRule([], "Starbucks", "cat-food", "r1"), "Starbucks Reserve") == Some("cat-food")
  {
    assert "Starbucks" + " Reserve" == "Starbucks Reserve";
    LearnedKeywordResolvesExtensions([], "Starbucks", "cat-food", "r1", " Reserve");
  }

  /**
   * First match wins over the learned exact rule: with a "cafe" rule stored
   * first, learning "Blue Cafe Co" appends a second rule that the "cafe" rule
   * keeps shadowing for that very merchant.
   */
  lemma BlueCafeStaysWithFirstRule()
    ensures var rules := [CategorizationRule("r1", "cafe", "cat-food")];
      && MatchRule(rules, "Blue Cafe Co") == Some("cat-food")
      && |AddRule(rules, "Blue Cafe Co", "cat-shop", "r2")| == 2
      && MatchRule(AddRule(rules, "Blue Cafe Co", "cat-shop", "r2"), "Blue Cafe Co") == Some("cat-food")
  {
    var rules := [CategorizationRule("r1", "cafe", "cat-food")];
    var lower := ToLower("Blue Cafe Co");
    assert lower == "blue cafe co";
    assert ToLower("cafe") == "cafe";
    assert OccursAt(lower, "cafe", 5);
    ContainsIff(lower, "cafe");
    assert FirstMatchAt(rules, "Blue Cafe Co", 0);
    MatchRuleFirst(rules, "Blue Cafe Co", 0);
    assert !EqualsIgnoreCase("cafe", "Blue Cafe Co");
    assert !KnownKeyword(rules, "Blue Cafe Co");
    LearnedRuleShadowed(rules, "Blue Cafe Co", "cat-shop", "r2");
  }
}
