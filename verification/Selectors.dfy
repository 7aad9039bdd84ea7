/** Which patterns can read a property: the selectors a fact write invalidates (knowledge_service.py). */
module Selectors {
  import opened Text
  import opened Evaluator

  /** The property code and every wildcard over one of its dotted prefixes. */
  function FactPropertySelectors(property: string): set<string> {
    var parts := Split(property, '.');
    {property} + set i | 1 <= i < |parts| :: Join(parts[..i], '.') + ".*"
  }

  lemma MatchedPatternIsSelector(property: string, pattern: string)
    requires MatchesPattern(property, pattern)
    ensures pattern in FactPropertySelectors(property)
  {
    if pattern != property {
      var k := |pattern| - 2;
      assert pattern == pattern[..k] + ".*";
      assert pattern[..k + 1] == pattern[..k] + ".";
      assert property[..k + 1] == pattern[..k + 1] && property[k] == '.';
      assert pattern[..k] == property[..k + 1][..k] == property[..k];
      var n := PrefixAtSeparatorIsJoined(property, '.', k);
      assert Join(Split(property, '.')[..n], '.') + ".*" == pattern;
    }
  }

  lemma SelectorIsMatchedPattern(property: string, pattern: string)
    requires pattern in FactPropertySelectors(property)
    ensures MatchesPattern(property, pattern)
  {
    if pattern != property {
      var parts := Split(property, '.');
      var n :| 1 <= n < |parts| && pattern == Join(parts[..n], '.') + ".*";
      var k := JoinedPrefixEndsAtSeparator(property, '.', n);
      assert pattern == property[..k] + ".*";
      assert pattern[..|pattern| - 1] == property[..k] + "." == property[..k + 1];
      assert pattern[|pattern| - 2..] == ".*";
    }
  }

  /** Selector completeness: a pattern reads a property exactly when it is one of the property's selectors. */
  lemma SelectorsAreExactlyThePatterns(property: string, pattern: string)
    ensures MatchesPattern(property, pattern) <==> pattern in FactPropertySelectors(property)
  {
    if MatchesPattern(property, pattern) {
      MatchedPatternIsSelector(property, pattern);
    }
    if pattern in FactPropertySelectors(property) {
      SelectorIsMatchedPattern(property, pattern);
    }
  }
}
