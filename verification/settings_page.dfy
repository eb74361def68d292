/**
 * The settings page: adding a custom category from a prompt answer and
 * deleting a categorisation rule.
 */
module SettingsPage {
  import opened Wrappers
  import opened Types
  import opened Numerals
  import Seqs
  import Text
  import DataService

  /** `Math.floor(Math.random() * 16777215)` lies in `[0, ColorRange)`. */
  const ColorRange: nat := 16777215

  lemma SixHexDigits()
    ensures Power(16, 6) == 16777216
  {
    assert Power(16, 2) == 256;
    assert Power(16, 4) == 256 * Power(16, 2);
  }

  /** The colour string as the page builds it: `#` and the hexadecimal digits, unpadded. */
  function ColorAsWritten(draw: nat): (r: string)
    requires draw < ColorRange
    ensures 2 <= |r| <= 7 && r[0] == '#'
    ensures AllDigits(r[1..], 16) && ParseNat(r[1..], 16) == draw
    ensures draw > 0 ==> r[1] != '0'
    ensures forall k :: 1 <= k && draw < Power(16, k) ==> |r| <= k + 1
  {
    SixHexDigits();
    NatToStringLength(draw, 16, 6);
    ParseNatToString(draw, 16);
    var r := "#" + NatToString(draw, 16);
    assert r[1..] == NatToString(draw, 16);
    forall k | 1 <= k && draw < Power(16, k) ensures |NatToString(draw, 16)| <= k {
      NatToStringLength(draw, 16, k);
    }
    r
  }

  /** Small draws give short colours: 2748 becomes "#abc", which CSS reads as #aabbcc, not #000abc. */
  lemma ColorAsWrittenShort()
    ensures ColorAsWritten(2748) == "#abc"
    ensures |ColorAsWritten(2748)| != 7
  {
    DivModFacts(2748, 16);
    DivModFacts(171, 16);
    assert NatToString(10, 16) == "a";
    assert NatToString(171, 16) == "a" + [DigitChar(11)];
    assert NatToString(2748, 16) == NatToString(171, 16) + [DigitChar(12)];
  }

  /** The colour a new category gets: `#` and exactly six hexadecimal digits that denote the draw. */
  function CategoryColor(draw: nat): (r: string)
    requires draw < ColorRange
    ensures |r| == 7 && r[0] == '#'
    ensures AllDigits(r[1..], 16) && ParseNat(r[1..], 16) == draw
  {
    SixHexDigits();
    NatToStringLength(draw, 16, 6);
    ParseNatToString(draw, 16);
    PadZerosParse(NatToString(draw, 16), 6, 16);
    var r := "#" + PadZeros(NatToString(draw, 16), 6);
    assert r[1..] == PadZeros(NatToString(draw, 16), 6);
    r
  }

  /** Different draws give different colours. */
  lemma CategoryColorInjective(a: nat, b: nat)
    requires a < ColorRange && b < ColorRange && CategoryColor(a) == CategoryColor(b)
    ensures a == b
  {
    assert CategoryColor(a)[1..] == CategoryColor(b)[1..];
  }

  /** The id of a category created at time `now` (milliseconds): `cat-` and the decimal digits. */
  function CustomCategoryId(now: nat): (id: string)
    ensures |id| >= 5 && id[..4] == "cat-" && AllDigits(id[4..], 10)
    ensures ParseNat(id[4..], 10) == now
  {
    var id := "cat-" + NatToString(now, 10);
    assert id[4..] == NatToString(now, 10);
    ParseNatToString(now, 10);
    id
  }

  /**
   * `handleAddCategory`: a missing or empty prompt answer changes nothing;
   * otherwise a custom category is appended, with the id taken from the clock
   * and the colour built from the random draw as the page builds it, unpadded.
   */
  function AddCategory(categories: seq<Category>, answer: Option<string>, now: nat, draw: nat): (r: seq<Category>)
    requires draw < ColorRange
    ensures answer.None? || answer.value == "" ==> r == categories
    ensures answer.Some? && answer.value != "" ==>
      |r| == |categories| + 1 && r[..|categories|] == categories
      && r[|categories|] == Category(CustomCategoryId(now), answer.value, ColorAsWritten(draw), "MoreHorizontal", Some(true))
  {
    if answer.None? || answer.value == "" then categories
    else categories + [Category(CustomCategoryId(now), answer.value, ColorAsWritten(draw), "MoreHorizontal", Some(true))]
  }

  /** The page can give a new category a three-digit colour. */
  lemma AddCategoryShortColor(categories: seq<Category>, name: string, now: nat)
    requires name != ""
    ensures AddCategory(categories, Some(name), now, 2748)[|categories|].color == "#abc"
  {
  }

  /** `handleAddCategory` with the colour zero-padded to six hexadecimal digits. */
  function AddCategoryFixed(categories: seq<Category>, answer: Option<string>, now: nat, draw: nat): (r: seq<Category>)
    requires draw < ColorRange
    ensures answer.None? || answer.value == "" ==> r == categories
    ensures answer.Some? && answer.value != "" ==>
      |r| == |categories| + 1 && r[..|categories|] == categories
      && r[|categories|] == Category(CustomCategoryId(now), answer.value, CategoryColor(draw), "MoreHorizontal", Some(true))
  {
    if answer.None? || answer.value == "" then categories
    else categories + [Category(CustomCategoryId(now), answer.value, CategoryColor(draw), "MoreHorizontal", Some(true))]
  }

  /** The corrected page differs from the page only in the colour, and its colour always has six digits. */
  lemma AddCategoryFixedOnlyColor(categories: seq<Category>, answer: Option<string>, now: nat, draw: nat)
    requires draw < ColorRange
    ensures |AddCategoryFixed(categories, answer, now, draw)| == |AddCategory(categories, answer, now, draw)|
    ensures forall i :: 0 <= i < |AddCategory(categories, answer, now, draw)| ==>
      AddCategoryFixed(categories, answer, now, draw)[i]
        == AddCategory(categories, answer, now, draw)[i].(color := AddCategoryFixed(categories, answer, now, draw)[i].color)
    ensures forall i :: |categories| <= i < |AddCategoryFixed(categories, answer, now, draw)| ==>
      |AddCategoryFixed(categories, answer, now, draw)[i].color| == 7
  {
  }

  /** Categories added at different times get different ids. */
  lemma CustomIdsDifferAcrossTimes(a: nat, b: nat)
    requires a != b
    ensures CustomCategoryId(a) != CustomCategoryId(b)
  {
  }

  /** A custom id never equals a built-in one: those continue with a letter after `cat-`. */
  lemma CustomIdNotBuiltIn(now: nat, i: int)
    requires 0 <= i < |DefaultCategories|
    ensures DefaultCategories[i].id != CustomCategoryId(now)
  {
    var id := CustomCategoryId(now);
    assert IsDigit(id[4], 10);
    assert !IsDigit(DefaultCategories[i].id[4], 10);
  }

  /** Adding to the built-in list at any time keeps every id distinct. */
  lemma AddToDefaultsKeepsIdsDistinct(answer: Option<string>, now: nat, draw: nat)
    requires draw < ColorRange
    ensures DistinctIds(AddCategory(DefaultCategories, answer, now, draw))
  {
    DefaultCategoriesDistinct();
    var r := AddCategory(DefaultCategories, answer, now, draw);
    if |r| > |DefaultCategories| {
      forall i | 0 <= i < |DefaultCategories| ensures r[i].id != r[|DefaultCategories|].id {
        CustomIdNotBuiltIn(now, i);
      }
    }
  }

  /** Two categories added within the same millisecond share an id. */
  lemma SameMillisecondSharesId(categories: seq<Category>, a: string, b: string, now: nat, draw1: nat, draw2: nat)
    requires a != "" && b != "" && draw1 < ColorRange && draw2 < ColorRange
    ensures var r := AddCategory(AddCategory(categories, Some(a), now, draw1), Some(b), now, draw2);
      |r| == |categories| + 2 && !DistinctIds(r)
  {
    var r := AddCategory(AddCategory(categories, Some(a), now, draw1), Some(b), now, draw2);
    assert r[|categories|].id == r[|categories| + 1].id;
  }

  function RuleIdIsNot(id: string): CategorizationRule -> bool
  {
    (rule: CategorizationRule) => rule.id != id
  }

  /** `handleDeleteRule`: every rule with that id is removed, the rest keep their order. */
  function DeleteRule(rules: seq<CategorizationRule>, id: string): (r: seq<CategorizationRule>)
    ensures forall i :: 0 <= i < |r| ==> r[i].id != id
    ensures Seqs.IsSubsequence(r, rules)
    ensures forall rule: CategorizationRule :: rule.id != id ==> multiset(r)[rule] == multiset(rules)[rule]
  {
    Seqs.Filter(rules, RuleIdIsNot(id))
  }

  /** Deleting a just-learned rule undoes the learning, when its keyword was new and its id fresh. */
  lemma DeleteUndoesLearning(rules: seq<CategorizationRule>, keyword: string, categoryId: string, freshId: string)
    requires !DataService.KnownKeyword(rules, keyword)
    requires forall i :: 0 <= i < |rules| ==> rules[i].id != freshId
    ensures DeleteRule(DataService.AddRule(rules, keyword, categoryId, freshId), freshId) == rules
  {
    var learned := DataService.AddRule(rules, keyword, categoryId, freshId);
    assert learned == rules + [CategorizationRule(freshId, keyword, categoryId)];
    Seqs.FilterConcat(rules, [CategorizationRule(freshId, keyword, categoryId)], RuleIdIsNot(freshId));
    Seqs.FilterKeepsAll(rules, RuleIdIsNot(freshId));
  }

  function KeywordsDiffer(): (CategorizationRule, CategorizationRule) -> bool
  {
    (a: CategorizationRule, b: CategorizationRule) => !Text.EqualsIgnoreCase(a.keyword, b.keyword)
  }

  /** Deleting rules keeps keywords unique. */
  lemma DeleteRuleKeepsUniqueKeywords(rules: seq<CategorizationRule>, id: string)
    requires DataService.UniqueKeywords(rules)
    ensures DataService.UniqueKeywords(DeleteRule(rules, id))
  {
    Seqs.FilterKeepsPairwise(rules, RuleIdIsNot(id), KeywordsDiffer());
  }

  /** After a deletion, any category the rules still suggest comes from a rule that was stored before. */
  lemma DeleteRuleSuggestsOnlyStored(rules: seq<CategorizationRule>, id: string, merchant: string)
    requires DataService.MatchRule(DeleteRule(rules, id), merchant).Some?
    ensures exists k :: (0 <= k < |rules| && rules[k].id != id && DataService.RuleMatches(rules[k], merchant)
      && rules[k].categoryId == DataService.MatchRule(DeleteRule(rules, id), merchant).value)
  {
    var r := DeleteRule(rules, id);
    var i :| DataService.FirstMatchAt(r, merchant, i) && r[i].categoryId == DataService.MatchRule(r, merchant).value;
    assert r[i] in multiset(rules);
    var k :| 0 <= k < |rules| && rules[k] == r[i];
  }
}
