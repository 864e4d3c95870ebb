/** Key names shown as symbols: `replace_keys` of `keyhint/utils.py` and
    `keyhint/binding.py` (identical), the reduced `replace_keys` of
    `src/keyhint/utils.py`, and `_beautify_keys` of `pyshortcuts/display.py`.
    Each is a fixed list of `str.replace` calls applied in order, so a later
    rule sees the output of the earlier ones. */
module KeyNames {
  import opened Text

  /** One `text = text.replace(pat, rep)` step. */
  datatype Rule = Rule(pat: string, rep: string)

  predicate ValidRules(rules: seq<Rule>) {
    forall i :: 0 <= i < |rules| ==> |rules[i].pat| > 0
  }

  /** The text contains none of the rules' patterns. */
  predicate NoPattern(text: string, rules: seq<Rule>) {
    forall i :: 0 <= i < |rules| ==> !Contains(text, rules[i].pat)
  }

  /** The replacement steps, applied in list order. */
  function ApplyRules(text: string, rules: seq<Rule>): string
    requires ValidRules(rules)
    decreases |rules|
  {
    if rules == [] then text
    else ApplyRules(Replace(text, rules[0].pat, rules[0].rep), rules[1..])
  }

  /** Down, Up, Left, Right. */
  function ArrowRules(): (r: seq<Rule>)
    ensures ValidRules(r)
  {
    [Rule("Down", "\U{2193}"), Rule("Up", "\U{2191}"), Rule("Left", "\U{2190}"), Rule("Right", "\U{2192}")]
  }

  /** Direction, PlusMinus (before Plus and Minus), Plus, Minus, Slash. */
  function SymbolRules(): (r: seq<Rule>)
    ensures ValidRules(r)
  {
    [Rule("Direction", "\U{2190}\U{2193}\U{2191}\U{2192}"), Rule("PlusMinus", "\U{00B1}"),
     Rule("Plus", "\U{FF0B}"), Rule("Minus", "\U{2212}"), Rule("Slash", "/")]
  }

  function FullRules(): (r: seq<Rule>)
    ensures ValidRules(r)
  {
    ArrowRules() + SymbolRules()
  }

  /** The lower-case names of `_beautify_keys`: up, down, left, right, enter,
      shift, super. */
  function BeautifyRules(): (r: seq<Rule>)
    ensures ValidRules(r)
  {
    [Rule("up", "\U{2191}"), Rule("down", "\U{2193}"), Rule("left", "\U{2190}"), Rule("right", "\U{2192}"),
     Rule("enter", "\U{21B5}"), Rule("shift", "\U{21E7}"), Rule("super", "\U{1F427}")]
  }

  /** Only the exact texts `PageUp` and `PageDown` get a space after `Page`. */
  function PageSpacing(text: string): (r: string)
    ensures text == "PageUp" ==> r == "Page Up"
    ensures text == "PageDown" ==> r == "Page Down"
    ensures text != "PageUp" && text != "PageDown" ==> r == text
  {
    if text == "PageUp" || text == "PageDown" then
      PageSpacingStep(text[4..]);
      Replace(text, "Page", "Page ")
    else text
  }

  lemma PageSpacingStep(rest: string)
    requires rest == "Up" || rest == "Down"
    ensures Replace("Page" + rest, "Page", "Page ") == "Page " + rest
  {
    ReplaceHead("Page", rest, "Page ");
    NotContainsChar(rest, "Page", 0);
    ReplaceAbsent(rest, "Page", "Page ");
  }

  /** `replace_keys` of `keyhint/utils.py` and `keyhint/binding.py`: the
      page spacing, then the arrow rules, then the symbol rules.  A text that
      names no key comes back as it was. */
  function ReplaceKeys(text: string): (r: string)
    ensures text != "PageUp" && text != "PageDown" && NoPattern(text, FullRules()) ==> r == text
  {
    ApplyRulesUntouchedIf(text, FullRules());
    ApplyRules(PageSpacing(text), FullRules())
  }

  /** `replace_keys` of `src/keyhint/utils.py`: the page spacing and the
      arrow rules only. */
  function ReplaceKeysReduced(text: string): (r: string)
    ensures text != "PageUp" && text != "PageDown" && NoPattern(text, ArrowRules()) ==> r == text
  {
    ApplyRulesUntouchedIf(text, ArrowRules());
    ApplyRules(PageSpacing(text), ArrowRules())
  }

  /** `_beautify_keys` of `pyshortcuts/display.py`: the seven lower-case
      names, without page spacing. */
  function BeautifyKeys(text: string): (r: string)
    ensures NoPattern(text, BeautifyRules()) ==> r == text
  {
    ApplyRulesUntouchedIf(text, BeautifyRules());
    ApplyRules(text, BeautifyRules())
  }

  /** Text containing none of the patterns passes through every rule
      unchanged. */
  lemma {:induction false} ApplyRulesUntouched(text: string, rules: seq<Rule>)
    requires ValidRules(rules) && NoPattern(text, rules)
    ensures ApplyRules(text, rules) == text
  {
    if rules != [] {
      ReplaceAbsent(text, rules[0].pat, rules[0].rep);
      ApplyRulesUntouched(text, rules[1..]);
    }
  }

  /** Rules are applied one after the other: a list of rules splits into
      consecutive parts. */
  lemma {:induction false} ApplyRulesAppend(text: string, rules1: seq<Rule>, rules2: seq<Rule>)
    requires ValidRules(rules1) && ValidRules(rules2)
    ensures ValidRules(rules1 + rules2)
    ensures ApplyRules(text, rules1 + rules2) == ApplyRules(ApplyRules(text, rules1), rules2)
    decreases |rules1|
  {
    if rules1 == [] {
      assert rules1 + rules2 == rules2;
    } else {
      assert (rules1 + rules2)[1..] == rules1[1..] + rules2;
      ApplyRulesAppend(Replace(text, rules1[0].pat, rules1[0].rep), rules1[1..], rules2);
    }
  }

  lemma ApplyRulesUntouchedIf(text: string, rules: seq<Rule>)
    requires ValidRules(rules)
    ensures NoPattern(text, rules) ==> ApplyRules(text, rules) == text
  {
    if NoPattern(text, rules) {
      ApplyRulesUntouched(text, rules);
    }
  }

  /** The reduced `replace_keys` is the first half of the full one: the full
      version continues from its output with the symbol rules. */
  lemma ReplaceKeysExtendsReduced(text: string)
    ensures ReplaceKeys(text) == ApplyRules(ReplaceKeysReduced(text), SymbolRules())
  {
    ApplyRulesAppend(PageSpacing(text), ArrowRules(), SymbolRules());
  }

  /** Exactly one rule, the `k`-th, finds its pattern on the way. */
  lemma OneRuleFires(t: string, rules: seq<Rule>, k: nat, t1: string)
    requires ValidRules(rules) && k < |rules|
    requires NoPattern(t, rules[..k])
    requires Replace(t, rules[k].pat, rules[k].rep) == t1
    requires NoPattern(t1, rules[k + 1..])
    ensures ApplyRules(t, rules) == t1
  {
    ApplyRulesUntouched(t, rules[..k]);
    ApplyRulesAppend(t, rules[..k], rules[k..]);
    assert rules[..k] + rules[k..] == rules;
    assert rules[k..][1..] == rules[k + 1..];
    ApplyRulesUntouched(t1, rules[k + 1..]);
  }

  /** A text lacking, for each rule, one chosen character of its pattern
      contains none of the patterns. */
  lemma NoPatternByChars(text: string, rules: seq<Rule>, idx: seq<nat>)
    requires |idx| == |rules|
    requires forall i :: 0 <= i < |rules| ==> idx[i] < |rules[i].pat| && rules[i].pat[idx[i]] !in text
    ensures NoPattern(text, rules)
  {
    forall i | 0 <= i < |rules|
      ensures !Contains(text, rules[i].pat)
    {
      NotContainsChar(text, rules[i].pat, idx[i]);
    }
  }

  /** `PageUp` becomes `Page ↑`. */
  lemma ReplaceKeysPageUp()
    ensures ReplaceKeys("PageUp") == "Page \U{2191}"
  {
    var t, t1 := "Page Up", "Page \U{2191}";
    PageUpBefore(t);
    PageUpReplaced(t, t1);
    PageUpAfter(t1);
    OneRuleFires(t, FullRules(), 1, t1);
  }

  lemma PageUpBefore(t: string)
    requires t == "Page Up"
    ensures NoPattern(t, FullRules()[..1])
  {
    NoPatternByChars(t, FullRules()[..1], [0]);
  }

  lemma PageUpAfter(t1: string)
    requires t1 == "Page \U{2191}"
    ensures NoPattern(t1, FullRules()[2..])
  {
    NoPatternByChars(t1, FullRules()[2..], [0, 0, 0, 4, 1, 0, 0]);
  }

  lemma PageUpReplaced(t: string, t1: string)
    requires t == "Page Up" && t1 == "Page \U{2191}"
    ensures Replace(t, FullRules()[1].pat, FullRules()[1].rep) == t1
  {
    ReplaceSkip("Page ", "Up", "Up", "\U{2191}");
    ReplaceWhole("Up", "\U{2191}");
    assert "Page " + "Up" == t;
  }

  /** `PageDown` becomes `Page ↓`. */
  lemma ReplaceKeysPageDown()
    ensures ReplaceKeys("PageDown") == "Page \U{2193}"
  {
    var t, t1 := "Page Down", "Page \U{2193}";
    PageDownReplaced(t, t1);
    PageDownAfter(t1);
    OneRuleFires(t, FullRules(), 0, t1);
  }

  lemma PageDownAfter(t1: string)
    requires t1 == "Page \U{2193}"
    ensures NoPattern(t1, FullRules()[1..])
  {
    NoPatternByChars(t1, FullRules()[1..], [0, 0, 0, 0, 4, 1, 0, 0]);
  }

  lemma PageDownReplaced(t: string, t1: string)
    requires t == "Page Down" && t1 == "Page \U{2193}"
    ensures Replace(t, FullRules()[0].pat, FullRules()[0].rep) == t1
  {
    ReplaceSkip("Page ", "Down", "Down", "\U{2193}");
    ReplaceWhole("Down", "\U{2193}");
    assert "Page " + "Down" == t;
  }

  /** `PlusMinus` becomes `±`: its rule runs before the `Plus` and `Minus`
      rules could split it. */
  lemma ReplaceKeysPlusMinus()
    ensures ReplaceKeys("PlusMinus") == "\U{00B1}"
  {
    var t, t1 := "PlusMinus", "\U{00B1}";
    PlusMinusBefore(t);
    ReplaceWhole(t, t1);
    PlusMinusAfter(t1);
    OneRuleFires(t, FullRules(), 5, t1);
  }

  lemma PlusMinusBefore(t: string)
    requires t == "PlusMinus"
    ensures NoPattern(t, FullRules()[..5])
  {
    NoPatternByChars(t, FullRules()[..5], [0, 0, 0, 0, 0]);
  }

  lemma PlusMinusAfter(t1: string)
    requires t1 == "\U{00B1}"
    ensures NoPattern(t1, FullRules()[6..])
  {
    NoPatternByChars(t1, FullRules()[6..], [0, 0, 0]);
  }

  /** `Direction` becomes the four arrows `←↓↑→`. */
  lemma ReplaceKeysDirection()
    ensures ReplaceKeys("Direction") == "\U{2190}\U{2193}\U{2191}\U{2192}"
  {
    var t, t1 := "Direction", "\U{2190}\U{2193}\U{2191}\U{2192}";
    DirectionBefore(t);
    ReplaceWhole(t, t1);
    DirectionAfter(t1);
    OneRuleFires(t, FullRules(), 4, t1);
  }

  lemma DirectionBefore(t: string)
    requires t == "Direction"
    ensures NoPattern(t, FullRules()[..4])
  {
    NoPatternByChars(t, FullRules()[..4], [2, 0, 0, 0]);
  }

  lemma DirectionAfter(t1: string)
    requires t1 == "\U{2190}\U{2193}\U{2191}\U{2192}"
    ensures NoPattern(t1, FullRules()[5..])
  {
    NoPatternByChars(t1, FullRules()[5..], [0, 0, 0, 0]);
  }

  /** `Plus` becomes the full-width plus `＋` in the full version and stays
      as it is in the reduced one. */
  lemma ReplaceKeysPlusReduced()
    ensures ReplaceKeys("Plus") == "\U{FF0B}"
    ensures ReplaceKeysReduced("Plus") == "Plus"
  {
    var t, t1 := "Plus", "\U{FF0B}";
    PlusBefore(t);
    ReplaceWhole(t, t1);
    PlusAfter(t1);
    OneRuleFires(t, FullRules(), 6, t1);
    PlusNoArrow(t);
    ApplyRulesUntouched(t, ArrowRules());
  }

  lemma PlusBefore(t: string)
    requires t == "Plus"
    ensures NoPattern(t, FullRules()[..6])
  {
    NoPatternByChars(t, FullRules()[..6], [0, 0, 0, 0, 0, 4]);
  }

  lemma PlusAfter(t1: string)
    requires t1 == "\U{FF0B}"
    ensures NoPattern(t1, FullRules()[7..])
  {
    NoPatternByChars(t1, FullRules()[7..], [0, 0]);
  }

  lemma PlusNoArrow(t: string)
    requires t == "Plus"
    ensures NoPattern(t, ArrowRules())
  {
    NoPatternByChars(t, ArrowRules(), [0, 0, 0, 0]);
  }

  /** `up` is replaced first, so `super` becomes `s↑er` and the rule for
      `super` never sees it. */
  lemma BeautifySuper()
    ensures BeautifyKeys("super") == "s\U{2191}er"
  {
    var t, t1 := "super", "s\U{2191}er";
    SuperReplaced(t, t1);
    SuperAfter(t1);
    OneRuleFires(t, BeautifyRules(), 0, t1);
  }

  lemma SuperAfter(t1: string)
    requires t1 == "s\U{2191}er"
    ensures NoPattern(t1, BeautifyRules()[1..])
  {
    NoPatternByChars(t1, BeautifyRules()[1..], [0, 0, 1, 1, 1, 1]);
  }

  lemma SuperReplaced(t: string, t1: string)
    requires t == "super" && t1 == "s\U{2191}er"
    ensures Replace(t, BeautifyRules()[0].pat, BeautifyRules()[0].rep) == t1
  {
    ReplaceSkip("s", "uper", "up", "\U{2191}");
    ReplaceHead("up", "er", "\U{2191}");
    NotContainsChar("er", "up", 0);
    ReplaceAbsent("er", "up", "\U{2191}");
    assert "s" + "uper" == t;
    assert "up" + "er" == "uper";
  }
}
