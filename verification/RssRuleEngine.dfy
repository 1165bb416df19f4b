/** RssRuleEngine of src/core/rss/rss_rule_engine.cc; the keyword test itself is a parameter. */
module RssRuleEngine {
  import opened Sequences
  import opened RssTypes

  /** keywordMatch(text, keyword, use_regex) */
  type KeywordMatch = (string, string, bool) -> bool

  /** A rule covers an item: right feed, some include keyword (or none given), no exclude keyword. */
  ghost predicate Covers(kw: KeywordMatch, rule: RssRule, item: Entry) {
    && (rule.feedIds == [] || item.feedId in rule.feedIds)
    && (rule.includeKeywords == [] || exists k <- rule.includeKeywords :: kw(item.title, k, rule.useRegex))
    && !exists k <- rule.excludeKeywords :: kw(item.title, k, rule.useRegex)
  }

  /** So there are three ways not to be covered. */
  lemma RefusedExactly(kw: KeywordMatch, rule: RssRule, item: Entry)
    ensures !Covers(kw, rule, item) <==>
              || (rule.feedIds != [] && forall f <- rule.feedIds :: f != item.feedId)
              || (rule.includeKeywords != [] && forall k <- rule.includeKeywords :: !kw(item.title, k, rule.useRegex))
              || (exists k :: k in rule.excludeKeywords && kw(item.title, k, rule.useRegex))
  {
  }

  method Evaluate(kw: KeywordMatch, rule: RssRule, item: Entry) returns (matched: bool)
    ensures matched <==> Covers(kw, rule, item)
  {
    if rule.feedIds != [] && item.feedId !in rule.feedIds {
      return false;
    }
    var includeOk := rule.includeKeywords == [];
    for i := 0 to |rule.includeKeywords|
      invariant includeOk <==> rule.includeKeywords == []
      invariant forall j :: 0 <= j < i ==> !kw(item.title, rule.includeKeywords[j], rule.useRegex)
    {
      if kw(item.title, rule.includeKeywords[i], rule.useRegex) {
        includeOk := true;
        break;
      }
    }
    if !includeOk {
      return false;
    }
    for i := 0 to |rule.excludeKeywords|
      invariant forall j :: 0 <= j < i ==> !kw(item.title, rule.excludeKeywords[j], rule.useRegex)
    {
      if kw(item.title, rule.excludeKeywords[i], rule.useRegex) {
        return false;
      }
    }
    return true;
  }

  /** The position of the first enabled rule that covers the item. */
  ghost function FirstMatch(kw: KeywordMatch, rules: seq<RssRule>, item: Entry): (r: Option<nat>)
    ensures r.Some? ==> r.value < |rules| && rules[r.value].enabled && Covers(kw, rules[r.value], item)
    ensures forall j :: 0 <= j < (if r.Some? then r.value else |rules|) ==>
              !(rules[j].enabled && Covers(kw, rules[j], item))
    decreases |rules|
  {
    if rules == [] then None
    else
      var r := FirstMatch(kw, rules[..|rules| - 1], item);
      var last := rules[|rules| - 1];
      if r.Some? then r
      else if last.enabled && Covers(kw, last, item) then Some(|rules| - 1)
      else None
  }

  method FindFirstEnabledMatch(kw: KeywordMatch, rules: seq<RssRule>, item: Entry) returns (r: Option<nat>)
    ensures r == FirstMatch(kw, rules, item)
  {
    for i := 0 to |rules|
      invariant forall j :: 0 <= j < i ==> !(rules[j].enabled && Covers(kw, rules[j], item))
    {
      if !rules[i].enabled {
        continue;
      }
      var matched := Evaluate(kw, rules[i], item);
      if matched {
        return Some(i);
      }
    }
    return None;
  }
}
