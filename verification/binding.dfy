/** Turning the text of a keybinding into styled key labels
    (`keyhint/binding.py`, and `create_bindings` of `keyhint/handler.py`),
    and the text a binding row is searched by. */
module Binding {
  import opened Text
  import opened KeyNames

  /** The text of one label and its CSS classes. */
  datatype StyledKey = StyledKey(text: string, classes: seq<string>)

  /** Tokens drawn dimmed between two keycaps. */
  const Dividers: seq<string> := ["+", "/", "&", "or"]

  /** `\/`, `\+` and `\&` let a keycap show a divider character. */
  function KeyEscapes(): (r: seq<Rule>)
    ensures ValidRules(r)
  {
    [Rule("\\/", "/"), Rule("\\+", "+"), Rule("\\&", "&")]
  }

  /** `style_key`: a divider is kept verbatim and dimmed; anything else is
      unescaped and drawn as a keycap.  Exactly one class either way. */
  function StyleKey(text: string): (r: StyledKey)
    ensures |r.classes| == 1
    ensures text in Dividers <==> r.classes == ["dim-label"]
    ensures text in Dividers ==> r.text == text
    ensures text !in Dividers ==> r == StyledKey(ApplyRules(text, KeyEscapes()), ["keycap"])
  {
    if text in Dividers then StyledKey(text, ["dim-label"])
    else StyledKey(ApplyRules(text, KeyEscapes()), ["keycap"])
  }

  /** A keycap without a backslash is shown exactly as written. */
  lemma StyleKeyPlain(text: string)
    requires '\\' !in text && text !in Dividers
    ensures StyleKey(text) == StyledKey(text, ["keycap"])
  {
    var rules := KeyEscapes();
    NotContainsChar(text, rules[0].pat, 0);
    NotContainsChar(text, rules[1].pat, 0);
    NotContainsChar(text, rules[2].pat, 0);
    ApplyRulesUntouched(text, rules);
  }

  /** An escaped divider becomes the divider character, drawn as a keycap. */
  lemma StyleKeyEscapedSlash()
    ensures StyleKey("\\/") == StyledKey("/", ["keycap"])
  {
    var rules := KeyEscapes();
    ReplaceWhole("\\/", "/");
    NotContainsChar("/", rules[1].pat, 0);
    NotContainsChar("/", rules[2].pat, 0);
    OneRuleFires("\\/", rules, 0, "/");
  }

  /** The key texts of a binding: text starting with a backtick is one key
      with every backtick removed; other text is split on whitespace. */
  function Tokenise(text: string): (r: seq<string>)
    ensures StartsWith(text, "`") ==> |r| == 1 && '`' !in r[0]
    ensures StartsWith(text, "`") ==> r == [Without(text, '`')]
    ensures !StartsWith(text, "`") ==> r == Split(text)
  {
    if StartsWith(text, "`") then
      ReplaceCharByEmpty(text, '`');
      [Replace(text, "`", "")]
    else Split(text)
  }

  /** A blank-joined key list whose first key does not start with a
      backtick tokenises back into the same keys. */
  lemma TokeniseJoinSpace(ws: seq<string>)
    requires forall i :: 0 <= i < |ws| ==> |ws[i]| > 0 && NoSpace(ws[i])
    requires ws != [] ==> ws[0][0] != '`'
    ensures Tokenise(JoinSpace(ws)) == ws
  {
    if ws != [] {
      JoinSpacePrefix(ws);
      assert JoinSpace(ws)[0] == ws[0][0];
    }
    SplitJoinSpace(ws);
  }

  lemma {:induction false} JoinSpacePrefix(ws: seq<string>)
    requires ws != []
    ensures ws[0] <= JoinSpace(ws)
  {
    if |ws| > 1 {
      assert JoinSpace(ws) == ws[0] + (" " + JoinSpace(ws[1..]));
    }
  }

  /** The labels of `create_shortcut`: each token is stripped, its key names
      replaced by symbols, and styled. */
  function CreateShortcut(text: string): (r: seq<StyledKey>)
    ensures |r| == |Tokenise(text)|
    ensures forall i :: 0 <= i < |r| ==> r[i] == StyleKey(ReplaceKeys(Strip(Tokenise(text)[i])))
  {
    var keys := Tokenise(text);
    seq(|keys|, i requires 0 <= i < |keys| => StyleKey(ReplaceKeys(Strip(keys[i]))))
  }

  /** For whitespace-separated text the strip is a no-op: each label comes
      straight from one whitespace-free word of the text. */
  lemma CreateShortcutWords(text: string)
    requires !StartsWith(text, "`")
    ensures |CreateShortcut(text)| == |Split(text)|
    ensures forall i :: 0 <= i < |Split(text)| ==>
              CreateShortcut(text)[i] == StyleKey(ReplaceKeys(Split(text)[i]))
  {
    forall i | 0 <= i < |Split(text)|
      ensures Strip(Split(text)[i]) == Split(text)[i]
    {
      StripNoSpace(Split(text)[i]);
    }
  }

  /** The older `create_bindings` of `keyhint/handler.py`: only `+` and `/`
      are separators, only `\/` and `\+` are unescaped.  Its key-name
      replacement comes from a `keyhint.utils` revision that is not part of
      this model, so it is the parameter `replace`. */
  function HandlerKeyEscapes(): (r: seq<Rule>)
    ensures ValidRules(r)
  {
    [Rule("\\/", "/"), Rule("\\+", "+")]
  }

  function HandlerStyleKey(key: string): (r: StyledKey)
    ensures |r.classes| == 1
    ensures key in ["+", "/"] <==> r == StyledKey(key, ["separator"])
    ensures key !in ["+", "/"] ==> r == StyledKey(ApplyRules(key, HandlerKeyEscapes()), ["key"])
  {
    if key in ["+", "/"] then StyledKey(key, ["separator"])
    else StyledKey(ApplyRules(key, HandlerKeyEscapes()), ["key"])
  }

  function CreateBindings(text: string, replace: string -> string): (r: seq<StyledKey>)
    ensures |r| == |Tokenise(text)|
    ensures forall i :: 0 <= i < |r| ==> r[i] == HandlerStyleKey(replace(Strip(Tokenise(text)[i])))
  {
    var keys := Tokenise(text);
    seq(|keys|, i requires 0 <= i < |keys| => HandlerStyleKey(replace(Strip(keys[i]))))
  }

  /** The two stylings agree on what counts as a separator except for `&`
      and `or`, which only `style_key` dims. */
  lemma DividerSets(key: string)
    ensures HandlerStyleKey(key).classes == ["separator"] ==> StyleKey(key).classes == ["dim-label"]
    ensures StyleKey("&").classes == ["dim-label"] && HandlerStyleKey("&").classes == ["key"]
  {
  }

  /** `Row.filter_text`: shortcut, caption and section title, blank-separated. */
  function FilterText(shortcut: string, caption: string, section: string): (r: string)
    ensures |r| == |shortcut| + |caption| + |section| + 2
    ensures shortcut <= r
    ensures r[|shortcut|] == ' ' && r[|shortcut| + 1 + |caption|] == ' '
    ensures r[|shortcut| + 1..|shortcut| + 1 + |caption|] == caption
    ensures r[|r| - |section|..] == section
  {
    shortcut + " " + caption + " " + section
  }

  /** Whatever occurs in one of the three parts occurs in the filter text, so
      a search for it can find the row. */
  lemma FilterTextContains(shortcut: string, caption: string, section: string, sub: string)
    requires Contains(shortcut, sub) || Contains(caption, sub) || Contains(section, sub)
    ensures Contains(FilterText(shortcut, caption, section), sub)
  {
    FilterTextParts(shortcut, caption, section);
    if Contains(shortcut, sub) {
      ContainsIn(shortcut, sub, [], " " + caption + " " + section);
    } else if Contains(caption, sub) {
      ContainsIn(caption, sub, shortcut + " ", " " + section);
    } else {
      ContainsIn(section, sub, shortcut + " " + caption + " ", []);
    }
  }

  /** The filter text split around each of its three parts. */
  lemma FilterTextParts(shortcut: string, caption: string, section: string)
    ensures var r := shortcut + " " + caption + " " + section;
      && r == [] + shortcut + (" " + caption + " " + section)
      && r == (shortcut + " ") + caption + (" " + section)
      && r == (shortcut + " " + caption + " ") + section + []
  {
  }
}
