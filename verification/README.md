# keyhint, modelled in Dafny

keyhint shows the keyboard shortcuts of the application in the active window.
This project models the deterministic core behind that window, across the
package's generations.

- **Cheatsheet pipeline** of the TOML-based `keyhint/sheets.py` and
  `keyhint/utils.py`:
  - user sheets are merged over the default sheets by `id`, with Python
    `dict.update` semantics for the `section` and `match` tables;
  - `include` references are expanded into `"[id] title"` sections, in place,
    with a `ValueError` for a missing target;
  - hidden sheets are dropped and empty sections pruned;
  - a sheet is looked up by id, and the best sheet for the active window is
    chosen by two stable length sorts.
- **YAML hint loader and lookups** of `src/keyhint/utils.py`,
  `src/keyhint/window.py`, `keyhint/handler.py` and `keyhint/keyhint.py`:
  - the shallow merge by id and the sort by title;
  - first-match lookups;
  - the three "option > active window > fallback > first entry" chains.
- **JSON handler pipelines**:
  - `keyhint/handlers/select_hints_handler.py` and `load_hints_handler.py`,
    with the "Application unknown!" / "no hints found" defaulting;
  - the `pyshortcuts` and `pyshortcut` predecessors, including the last
    match winning in `set_application` and the unchecked dereference in
    `LoadShortcutsHandler`.
- **Text helpers**:
  - the ordered substring replacements `replace_keys` (three variants) and
    `_beautify_keys`;
  - `style_key` and the handler's key styling;
  - shortcut tokenising and the search-filter text and match;
  - desktop-environment classification from environment variables;
  - `check_state`, the orientation mapping, and new-sheet file naming.
- **Layout arithmetic**:
  - the greedy packing of sections into columns (`src/keyhint/window.py`);
  - the frame and row counters and paddings of the Tk window
    (`show_hints_handler.py`);
  - the heading rows of `pyshortcuts/display.py`.

## How the model is built

- Python dictionaries are `Dict.Dict<K, V>`: sequences of pairs with unique
  keys, kept in insertion order.
  - `Dict.Put` is `d[k] = v`.
  - `Dict.Update` is `d.update(e)`: an existing key keeps its place and takes
    the new value, and new keys are appended in `e`'s order.
  - `Dict.IsUpdate` states that meaning independently of the loop.
- A cheatsheet is `Sheets.Sheet` and a hint is `Hints.Hint`. The sheet's
  `id` and the hint's `id` and `title` are always present; a document
  without them is left out (see "## Left out"). Every other field is an `Option`, because the source
  tells absence apart (`dict.get`, `pop(..., {})`, `KeyError`).
- Python exceptions are `Wrappers.PyError` (`KeyError`, `ValueError`,
  `StopIteration`, `TypeError`). Operations that can raise return a
  `Result`.
- `re.search` is the uninterpreted parameter `Search(pattern, text,
  ignoreCase)`. Every matching property is stated relative to it.
- Mutating loops become pure functions that return the new list. Four loops
  are methods with invariants: column packing, the Tk layout, the new-sheet
  file name search and `set_application`.
- File reading, JSON/YAML/TOML parsing, the version probes and
  `remove_emojis` are parameters.

## Model

| member | source | states |
|---|---|---|
| `Dict.Update` | keyhint/sheets.py:91-93 | `d.update(e)` satisfies `IsUpdate`: a key of `e` reads `e`'s value, any other key reads `d`'s; `d`'s keys keep their order and `e`'s new keys follow in `e`'s order |
| `Dict.IsUpdateUnique` | keyhint/sheets.py:91-93 | the update is fully determined: two dictionaries that are both updates of `d` by `e` are equal |
| `Dict.UpdateByEmpty` | keyhint/sheets.py:91-92 | updating by the `{}` that `pop("section", {})` yields for a missing table leaves the dictionary unchanged |
| `Dict.Prefixed` | keyhint/sheets.py:68-71 | every title of the included sheet becomes `prefix + title`, position by position, with identical bindings |
| `Dict.PrefixedGet` | keyhint/sheets.py:68-71 | looking up `prefix + t` in the prefixed table gives the original value of `t`, and every prefixed key starts with the prefix |
| `Dict.FilterValues` | keyhint/sheets.py:77-80 | the pruned table holds a key exactly when the original holds it with a non-empty value, with that value, in the original order |
| `Seqs.FindFirst` | keyhint/sheets.py:87-94 | the index found satisfies the test and no earlier element does; `None` exactly when no element does |
| `Seqs.LastMatch` | pyshortcut/shortcuts.py:22-29 | the index found satisfies the test and no later element does; `None` exactly when no element does |
| `Seqs.FilterAppend` | keyhint/sheets.py:83-84 | a list comprehension with a condition distributes over concatenation, so it keeps the surviving elements in order |
| `Matching.FilterOrRaise` | keyhint/sheets.py:130-135 | the comprehension succeeds exactly when every condition evaluates. It then keeps the accepted elements. Otherwise it raises the error of the first element whose condition raised |
| `Matching.RegexPair` | keyhint/sheets.py:133-134 | the `and` of two `re.search` calls on a `match` table: true exactly when both patterns exist and match. A missing first key raises `KeyError`, and so does a missing second key once the first pattern matched |
| `Matching.MatchPairPatterns` | keyhint/sheets.py:133-134 | a record accepted by the match test has both patterns, and both matched |
| `Sorting.SortBy` | keyhint/sheets.py:44 | sorting returns a permutation of its input |
| `Sorting.SortBySorted` | keyhint/sheets.py:44 | under a total, transitive order the result is sorted |
| `Sorting.SortByStable` | keyhint/sheets.py:141-144 | the sort is stable: elements that all compare equal keep their relative order |
| `Sorting.TwoKeyBest` | keyhint/sheets.py:140-147 | after the minor-key sort and then the major-key sort, both descending, the head has the largest major key and, among those, the largest minor key; it is the first such element in input order |
| `Sorting.BestOfFilter` | keyhint/sheets.py:130-147 | the same choice read back in the unfiltered list: the head is a matching element at index `j`, maximal on both keys, and no earlier matching element ties with it |
| `Text.ReplaceAbsent` | keyhint/utils.py:136-144 | `str.replace` leaves a text that does not contain the pattern unchanged |
| `Text.ReplaceSkip` | keyhint/utils.py:136-144 | a prefix without the pattern's first character passes through `str.replace` untouched |
| `Text.ReplaceHead` | keyhint/utils.py:136-144 | an occurrence at the start is replaced, and the scan resumes after it (non-overlapping, left to right) |
| `Text.ReplaceCharByEmpty` | keyhint/binding.py:71 | replacing one character by the empty string removes every occurrence of it and nothing else |
| `Text.Split` | keyhint/binding.py:71 | `str.split()` yields non-empty words without whitespace |
| `Text.SplitWord` | keyhint/binding.py:71 | a non-empty text without whitespace splits into itself alone |
| `Text.SplitAtSpace` | keyhint/binding.py:71 | any whitespace character separates: the words of `u + [c] + v` are the words of `u` followed by those of `v`, so runs of blanks, tabs and leading or trailing whitespace yield no words. With `SplitWord` and the empty case this fixes the result for every text: the maximal non-whitespace runs, in order |
| `Text.SplitJoinSpace` | keyhint/binding.py:71 | splitting words joined by single spaces gives the words back |
| `Text.Strip` | keyhint/binding.py:73 | `str.strip()` gives a slice `s[i..i + |r|]` that neither starts nor ends with whitespace, with only whitespace of `s` outside it; already stripped text is unchanged |
| `Text.TrimmedUnique` | keyhint/binding.py:73 | at most one slice of `s` meets that description |
| `Text.StripUnique` | keyhint/binding.py:73 | any text meeting the description of `str.strip()` is `Strip(s)`, so the contract characterises the result completely |
| `Text.NatToStringInjective` | keyhint/window.py:611-614 | distinct counters give distinct decimal strings |
| `Text.StrLeTotal` | keyhint/window.py:339 | string order is total |
| `Text.StrLeTransitive` | keyhint/window.py:339 | string order is transitive |
| `Text.StrLeAntisymmetric` | keyhint/window.py:339 | string order is antisymmetric |
| `Sheets.FindFirstSameIds` | keyhint/sheets.py:88-89 | lists with the same ids in the same order have the same first sheet for every id |
| `Sheets.SortById` | keyhint/sheets.py:44 | the default and the user sheets are reordered by id, as a permutation, sorted |
| `Sheets.UpdateOrAppend` | keyhint/sheets.py:87-98 | an unseen id is appended. Otherwise only the first sheet with that id changes, with the same length. Its `section` and `match` are updated key-wise by the user's tables, missing ones counting as `{}`, and the other user fields overwrite the default's. The default lacking `section` or `match` raises `KeyError` |
| `Sheets.UpdateOrAppendKeepsTables` | keyhint/sheets.py:91-92 | a user sheet without `section` and `match` leaves the default's tables as they were |
| `Sheets.UpdateOrAppendIds` | keyhint/sheets.py:87-98 | merging one sheet keeps the existing ids in place, adds at most one sheet, and the user's id is present afterwards |
| `Sheets.MergeAll` | keyhint/sheets.py:113-114 | merging all user sheets keeps the default ids as a prefix, adds at most one sheet per user sheet, and every user id is present |
| `Sheets.NotFoundMessageNames` | keyhint/sheets.py:65 | the error message names both the missing sheet and the sheet including it |
| `Sheets.IncludeOne` | keyhint/sheets.py:62-72 | one include succeeds exactly when the target exists and both sheets have a `section` table; it fails with the error naming the pair. On success only the including sheet changes: its sections are updated by the target's sections prefixed `"[target] "`, and ids, order and the other fields stay |
| `Sheets.IncludeOneContents` | keyhint/sheets.py:67-72 | after an include, every section `t` of the target is present as `"[target] t"` with the same bindings, and every own title not starting with `[` keeps its bindings |
| `Sheets.IncludeAll` | keyhint/sheets.py:62-72 | all includes of one sheet succeed exactly when each of them can; a failure is the error of the first include that cannot. On success only that sheet's sections change, and its own sections are kept |
| `Sheets.IncludeOneAdds` | keyhint/sheets.py:67-72 | one include keeps every section title of every sheet and adds `"[target] t"` to the including sheet for every section title `t` of the target |
| `Sheets.IncludeAllAdds` | keyhint/sheets.py:61-72 | after all includes of one sheet, every title of the target of each include is present there under its prefix, and no title of any sheet is lost |
| `Sheets.ExpandFrom` | keyhint/sheets.py:61-73 | expanding sheets `i..` in place succeeds exactly when every include from `i` on can be resolved in the list as it then is. A failure reports the first failing include in sheet-then-include order. Headers and own sections are kept, and sheets before `i` are untouched |
| `Sheets.ExpandFromAdds` | keyhint/sheets.py:61-73 | after expanding sheets `i..`, every include of those sheets shows: each section title `t` its target had in the original list is a title `"[target] t"` of the including sheet; no title is lost |
| `Sheets.ExpandIncludes` | keyhint/sheets.py:59-74 | `_expand_includes` succeeds exactly when every include of every sheet names an existing sheet with sections. It keeps ids, order, every non-section field and every own section. For every include of every sheet, each section title `t` of the target becomes a title `"[target] t"` of the including sheet |
| `Sheets.ExpandValueError` | keyhint/sheets.py:62-66 | a `ValueError` from expansion names a missing target and the sheet that includes it |
| `Sheets.RemoveHidden` | keyhint/sheets.py:83-84 | exactly the sheets whose `hidden` is not true survive |
| `Sheets.RemoveHiddenAppend` | keyhint/sheets.py:83-84 | the filter keeps the surviving sheets in their order: it distributes over concatenation, and one sheet survives exactly when it is not hidden |
| `Sheets.PruneSections` | keyhint/sheets.py:79 | a sheet keeps exactly its non-empty sections, with their bindings, in their original order (the table is `Dict.FilterValues` of the original), and nothing else changes. A sheet without `section` raises `KeyError` |
| `Sheets.RemoveEmptySections` | keyhint/sheets.py:77-80 | every sheet is pruned, in place, and the list length is kept. Any sheet without `section` makes the step raise `KeyError` |
| `Sheets.LoadSheets` | keyhint/sheets.py:101-120 | after sort, merge, expansion, hidden filter and pruning, no sheet is hidden, and every sheet has a `section` table whose sections are all non-empty |
| `Sheets.GetSheetById` | keyhint/sheets.py:123-124 | the first sheet with the id; `StopIteration` exactly when no sheet has it |
| `Sheets.GetSheetIdByActiveWindow` | keyhint/sheets.py:127-147 | the result raises exactly when some sheet's match test raises. It is `None` exactly when every sheet was examined and none matched |
| `Sheets.GetSheetIdByActiveWindowBest` | keyhint/sheets.py:130-147 | a returned id is that of a matching sheet with the longest `regex_wmclass` and, among those, the longest `regex_title`; it is the earliest such sheet in list order |
| `SheetUtils.MergeUserSheet` | keyhint/utils.py:104-116 | an unseen id is appended. Otherwise the first sheet with the id is updated: every user field except `section` overwrites the default's, `match` wholesale, and the sections are merged key-wise. A user sheet or default without `section` raises `KeyError` |
| `SheetUtils.MergeReplacesMatch` | keyhint/utils.py:109-110 | the user's `match` table replaces the default's wholesale, unlike `keyhint/sheets.py` |
| `SheetUtils.MergeUserSheetIds` | keyhint/utils.py:104-116 | merging one user sheet keeps the ids in place, adds at most one sheet, and the user's id is present afterwards |
| `SheetUtils.MergeAllUtils` | keyhint/utils.py:104-116 | the merge keeps the default ids as a prefix, adds at most one sheet per user sheet, and every user id is present |
| `SheetUtils.LoadSheetsUtils` | keyhint/utils.py:92-121 | the same pipeline with the older merge, and the same guarantees: nothing hidden, every section non-empty |
| `SheetExamples.ExpandCascade` | keyhint/utils.py:66-78 | expansion works in place: if `c` includes `b` and `b` includes `a`, then `c` also gets `"[b] [a] s"` |
| `SheetExamples.HiddenSheetCanBeIncluded` | keyhint/sheets.py:116-118 | includes run before the hidden filter, so a hidden sheet's sections still reach the sheet that includes it |
| `Hints.SortByTitle` | src/keyhint/utils.py:60 | hints are reordered by title, as a permutation, sorted |
| `Hints.ShallowUpdate` | src/keyhint/utils.py:97 | `hint.update(user_hint)` is shallow: each top-level field present in the user hint replaces the default's whole value |
| `Hints.ShallowUpdateDropsGroups` | src/keyhint/utils.py:97 | a default group missing from the user's `hints` is lost, where a key-wise update would have kept it |
| `Hints.MergeHint` | src/keyhint/utils.py:93-102 | one user hint replaces the fields of the first hint with its id, in place, leaving the others; an unseen id is appended |
| `Hints.MergeHints` | src/keyhint/utils.py:92-102 | an empty user list changes nothing. Default ids stay in place as a prefix, at most one hint is added per user hint, and every user id is present |
| `Hints.MergeHintsFresh` | src/keyhint/utils.py:100-102 | user hints with distinct ids that are all unseen are appended after the defaults, in user-list order |
| `Hints.LoadHints` | src/keyhint/utils.py:80-104 | after both sorts and the merge, every default and every user id is present; without user hints the result is the defaults sorted by title |
| `Hints.GetHintById` | src/keyhint/window.py:57-61 | the first hint with the id, or `None` exactly when no hint has it. The same loop appears in keyhint/handler.py and keyhint/keyhint.py |
| `Hints.HintIdsTitles` | src/keyhint/window.py:54-55 | one `(id, title)` pair per hint, in list order |
| `Hints.FirstMatchId` | src/keyhint/window.py:66-78 | raises exactly when some hint's match test raises. `None` exactly when no hint matched both patterns case-insensitively |
| `Hints.FirstMatchIdFirst` | keyhint/keyhint.py:292-308 | a found id is that of the first hint in list order matching both patterns, with no ranking by specificity |
| `Hints.SrcAppropriateHintId` | src/keyhint/window.py:84-86 | a non-empty `hint` option wins outright |
| `Hints.SrcAppropriateHintIdChain` | src/keyhint/window.py:80-104 | otherwise, the first available of: the active-window match, a non-empty `default-hint` option, the first dropdown entry. An empty dropdown raises |
| `Hints.SrcAppropriateHintIdFirstEntry` | src/keyhint/window.py:98-101 | with no option and no match, the first hint of the list is shown |
| `Hints.HandlerAppropriateHintId` | keyhint/handler.py:38-65 | a present `hint` option is returned even when empty, without matching. Otherwise the first match is returned. `default-hint` is used only when nothing matched, and `None` when it is absent |
| `Hints.EmptyHintOption` | keyhint/handler.py:40-43 | on an empty `hint` option the handler returns `""` while the newer window goes on to the active-window match |
| `Hints.KeyhintInitialPick` | keyhint/keyhint.py:53-57 | the window selects the matched id, which belongs to a hint, or the first dropdown row exactly when no hint matches |
| `Columns.DistributeInColumns` | src/keyhint/window.py:129-153 | the columns concatenated give the sections back in order. No column is produced exactly when there is no section. Only the first column can be empty, exactly when the first section alone does not fit. A column of two or more sections is lower than the limit. Each later column starts with a section that did not fit below the previous column |
| `Columns.FlattenAppend` | src/keyhint/window.py:145-151 | closing a column appends its sections after those of the columns before |
| `KeyNames.PageSpacing` | keyhint/utils.py:133-134 | exactly `"PageUp"` and `"PageDown"` gain a space after `"Page"`; any other text is unchanged |
| `KeyNames.ApplyRulesAppend` | keyhint/utils.py:136-144 | applying a list of rules is applying its first part and then the rest, so the order of the rules is the order of the source's statements |
| `KeyNames.ReplaceKeys` | keyhint/binding.py:10-32 | the page spacing and then the rule table (arrows, then symbols) applied in statement order by `ApplyRules`; text other than `PageUp`/`PageDown` naming no key comes back unchanged. The concrete lemmas below pin what each key name becomes |
| `KeyNames.ReplaceKeysReduced` | src/keyhint/utils.py:107-123 | the page spacing and the arrow rules only, in statement order; text other than `PageUp`/`PageDown` without `Down`/`Up`/`Left`/`Right` comes back unchanged |
| `KeyNames.BeautifyKeys` | pyshortcuts/display.py:101-109 | the seven lower-case rules in statement order, without page spacing; text containing none of the seven names comes back unchanged |
| `KeyNames.ReplaceKeysExtendsReduced` | src/keyhint/utils.py:116-123 | the full `replace_keys` is the reduced one followed by the symbol rules |
| `KeyNames.ReplaceKeysPageUp` | keyhint/utils.py:133-137 | `"PageUp"` becomes `"Page ↑"` |
| `KeyNames.ReplaceKeysPageDown` | keyhint/utils.py:133-136 | `"PageDown"` becomes `"Page ↓"` |
| `KeyNames.ReplaceKeysPlusMinus` | keyhint/utils.py:141-143 | `"PlusMinus"` becomes `"±"`, because its rule runs before the `Plus` and `Minus` rules |
| `KeyNames.ReplaceKeysDirection` | keyhint/utils.py:136-140 | `"Direction"` becomes `"←↓↑→"` |
| `KeyNames.ReplaceKeysPlusReduced` | src/keyhint/utils.py:116-123 | `"Plus"` becomes `"＋"` in the full variant and stays `"Plus"` in the reduced one |
| `KeyNames.BeautifySuper` | pyshortcuts/display.py:102-108 | `"super"` becomes `"s↑er"`, because `up` is replaced first, so the super rule never fires on it |
| `Binding.StyleKey` | keyhint/binding.py:35-52 | the dividers `+`, `/`, `&`, `or` are returned verbatim with class `dim-label`. Any other token has its escapes removed and gets `keycap`. There is always exactly one class |
| `Binding.StyleKeyPlain` | keyhint/binding.py:47-52 | a non-divider token without a backslash is returned unchanged as a keycap |
| `Binding.StyleKeyEscapedSlash` | keyhint/binding.py:48 | an escaped slash is shown as a plain `/` keycap, not a divider |
| `Binding.Tokenise` | keyhint/binding.py:71 | text starting with a backtick is one key with every backtick removed; other text is split on whitespace |
| `Binding.TokeniseJoinSpace` | keyhint/binding.py:71 | tokenising keys joined by spaces gives the keys back |
| `Binding.CreateShortcut` | keyhint/binding.py:67-79 | one styled label per token, in order: each token is stripped, key names are replaced, then it is styled |
| `Binding.CreateShortcutWords` | keyhint/binding.py:71-74 | without a leading backtick there is one label per whitespace-separated word |
| `Binding.HandlerStyleKey` | keyhint/handler.py:97-102 | `+` and `/` are separators, verbatim. Any other key has `\/` and `\+` unescaped and is styled as a key. There is exactly one class |
| `Binding.CreateBindings` | keyhint/handler.py:85-105 | one label per token of the same tokenising, each replaced by the handler's `replace_keys` and styled |
| `Binding.DividerSets` | keyhint/handler.py:97 | every handler separator is also a divider in `keyhint/binding.py`, but `&` is a divider only there |
| `Binding.FilterText` | keyhint/binding.py:64 | the filter text is the shortcut, a space, the label, a space and the section, each at its place |
| `Binding.FilterTextContains` | keyhint/binding.py:64 | anything found in the shortcut, the label or the section is found in the filter text |
| `SheetWindow.CheckState` | keyhint/window.py:42-49 | the callback is skipped exactly when the action has a state type and the state equals the new one. Otherwise the state is set when the new value is truthy, and the callback runs |
| `SheetWindow.CheckStateIdempotent` | keyhint/window.py:42-49 | requesting the same truthy state twice runs the callback only once |
| `SheetWindow.DropdownIds` | keyhint/window.py:339 | the dropdown holds every sheet id, as a permutation, in sorted order |
| `SheetWindow.DropdownFirstIsLeast` | keyhint/window.py:339 | the first dropdown entry is the least sheet id |
| `SheetWindow.AppropriateSheetId` | keyhint/window.py:688-691 | a non-empty cli `cheatsheet` wins outright, without a toast |
| `SheetWindow.AppropriateSheetIdChain` | keyhint/window.py:684-715 | otherwise, the first available of: the active-window match, a non-empty fallback, the first dropdown item, `"keyhint"`; errors of the match propagate. The toast is shown exactly when no window match was found |
| `SheetWindow.AppropriateSheetIdFallsToLeast` | keyhint/window.py:704-715 | with no cli option, no match and no fallback, the least sheet id is shown |
| `SheetWindow.BindingsMatch` | keyhint/window.py:744-747 | an empty search keeps every row; otherwise a row is kept exactly when the lower-cased search text occurs, at some position, in the lower-cased filter text |
| `SheetWindow.BindingsMatchNarrows` | keyhint/window.py:744-747 | a row kept by a longer search text is kept by any part of it |
| `SheetWindow.BindingsMatchRow` | keyhint/window.py:744-747 | a search found in a row's shortcut, label or section keeps the row |
| `SheetWindow.GtkOrientation` | keyhint/window.py:404-409 | GTK `VERTICAL` exactly for `"horizontal"`; every other value gives `HORIZONTAL` |
| `SheetWindow.NewSheetTitle` | keyhint/window.py:590 | the title is the window class lower-cased, with spaces removed |
| `SheetWindow.CandidateInjective` | keyhint/window.py:608-613 | the candidate file names `title.toml`, `title_1.toml`, … are pairwise distinct |
| `SheetWindow.NewSheetFileName` | keyhint/window.py:608-614 | the chosen name is the first candidate not among the existing files; every earlier candidate exists. The search ends after at most as many steps as there are files |
| `Desktop.IsUsingWayland` | keyhint/context.py:15-21 | Wayland exactly when `WAYLAND_DISPLAY` is set, whatever its value |
| `Desktop.WaylandEvenWhenEmpty` | keyhint/context.py:21 | an empty `WAYLAND_DISPLAY` counts; `XDG_SESSION_TYPE=wayland` alone does not |
| `Desktop.GnomeSession` | keyhint/context.py:82-86 | the session id, with the `"this-is-deprecated"` placeholder read as empty |
| `Desktop.ReadVars` | keyhint/context.py:79-86 | the variables are read with `""` for a missing one; `XDG_CURRENT_DESKTOP` is lower-cased, and the Gnome session id is never the deprecated placeholder |
| `Desktop.DesktopEnvironment` | keyhint/context.py:77-103 | the six overwriting tests amount to a priority list: Awesome > Hyprland > Unity > Sway > KDE > Gnome |
| `Desktop.NotDetectedIff` | keyhint/context.py:88-103 | the result is `"not detected"` exactly when no test holds |
| `Desktop.DeprecatedGnomeIdIgnored` | keyhint/context.py:85-86 | the placeholder Gnome id and a missing id classify alike |
| `Desktop.UpperCaseDesktop` | keyhint/context.py:80-95 | the desktop names are compared lower-cased: `XDG_CURRENT_DESKTOP=SWAY` is Sway |
| `Handlers.WindowProperties` | keyhint/handlers/select_hints_handler.py:103-108 | the fallback hints are the single group `"Properties of active Window"` with the window's class and name |
| `Handlers.ReplaceIfUnknown` | keyhint/handlers/select_hints_handler.py:88-108 | an empty app name becomes `"Application unknown!"`. Empty hints become the window-properties group, with context `"no hints found"` and the window name passed through `remove_emojis`. Non-empty hints and the other fields stay |
| `Handlers.ReplaceIfUnknownIdempotent` | keyhint/handlers/select_hints_handler.py:88-108 | applying the defaulting twice changes nothing more |
| `Handlers.GetAppHints` | keyhint/handlers/select_hints_handler.py:58-72 | the first application whose class equals the window's, ignoring case; none exactly when no class is equal |
| `Handlers.GetAppContextHints` | keyhint/handlers/select_hints_handler.py:74-86 | the first context whose pattern is found in the searched text; none exactly when no pattern is found |
| `Handlers.SelectFields` | keyhint/handlers/select_hints_handler.py:34-49 | the app fields are set only when an app is found; hints and context fields only when a context is found as well |
| `Handlers.SelectHintsHandle` | keyhint/handlers/select_hints_handler.py:32-56 | the handler as written. Without an app the data is only defaulted. With an app its class pattern is recorded, and there is always an app name and some hints |
| `Handlers.SelectIgnoresWindowName` | keyhint/handlers/select_hints_handler.py:82 | as written, a context whose pattern matches the window name is missed when the searched field is empty, so "no hints found" is shown; the corrected handler shows the context |
| `Handlers.SelectHintsHandleByWmName` | keyhint/handlers/select_hints_handler.py:74-86 | the corrected handler, searching the window name, keeps the same guarantees as the handler as written |
| `Handlers.SelectByWmNameShowsContext` | keyhint/handlers/select_hints_handler.py:43-49 | with the correction, a context matching the window name with non-empty hints is shown with its name and pattern |
| `Handlers.GetApp` | keyhint/handlers/load_hints_handler.py:57-67 | the first index entry whose class pattern is found in the window class, case-sensitively; none exactly when no pattern is found |
| `Handlers.GetContextHints` | keyhint/handlers/load_hints_handler.py:69-81 | the first context whose pattern is found in the window name; none exactly when no pattern is found |
| `Handlers.LoadHintsHandle` | keyhint/handlers/load_hints_handler.py:29-55 | without an app the data is only defaulted. With an app its name and pattern are taken. A matched context with hints is shown with its name, and an unmatched context falls back to the defaulting. There is always an app name and some hints |
| `Handlers.LoadHintsHandleStable` | keyhint/handlers/load_hints_handler.py:29-55 | running the handler again on its own output, when an app and a context with hints matched, changes nothing |
| `Shortcuts.GetShortcuts` | pyshortcuts/shortcuts.py:22-26 | the context chosen by window name inside the app chosen by window class. With no app, subscripting `None` raises `TypeError` |
| `Shortcuts.GetShortcutsChosen` | pyshortcuts/shortcuts.py:28-56 | a returned context comes from the first matching app's file and is the first matching context there |
| `Shortcuts.GetContextShortcuts` | pyshortcuts/shortcuts.py:44-56 | the first context of the application file whose `wm_name` pattern is found in the window name; `None` exactly when no pattern is found |
| `Shortcuts.LoadShortcutsHandle` | pyshortcuts/handlers/load_shortcuts_handler.py:14-41 | succeeds exactly when both an app and a context match, since both are dereferenced unchecked; the failure is `TypeError`. On success the app's and context's fields are copied into the request |
| `Shortcuts.UnknownAppFails` | pyshortcuts/handlers/load_shortcuts_handler.py:26-28 | a window whose class no index entry matches makes the handler fail |
| `Shortcuts.SetApplication` | pyshortcut/shortcuts.py:21-35 | with no match the application and shortcuts stay as they were; otherwise both are those of the last matching entry |
| `Shortcuts.LastMatchWins` | pyshortcut/shortcuts.py:22-29 | of two matching entries the later one is kept, where a first-match lookup keeps the earlier |
| `TkLayout.Padding` | keyhint/handlers/show_hints_handler.py:90-94 | a group title has padding `(0, 5)` exactly at row 1 and `(15, 5)` elsewhere; bindings have `(2, 2)` |
| `TkLayout.PlaceItems` | keyhint/handlers/show_hints_handler.py:121-145 | every label is placed after the previous one. A new frame is opened, at row 1, before a title when the row exceeds `max_rows - 4`, and before a binding when the row reaches `max_rows`. The frame count is one more than the last label's frame. `acutal_max_rows` is the largest row reached after a binding |
| `TkLayout.CreateLayout` | keyhint/handlers/show_hints_handler.py:121-145 | the group titles and bindings are laid out in that way, inside the frames counted |
| `TkLayout.FramesContiguous` | keyhint/handlers/show_hints_handler.py:114-119 | frames are filled left to right without gaps |
| `TkLayout.FramesGrow` | keyhint/handlers/show_hints_handler.py:114-119 | frames never decrease along the drawing order |
| `TkLayout.FirstFrameEmpty` | keyhint/handlers/show_hints_handler.py:127-133 | the first frame stays empty exactly when fewer than five rows are allowed, and then every label is in a later frame |
| `TkLayout.TitleText` | keyhint/handlers/show_hints_handler.py:147-149 | the title is the app name, followed by `" (context)"` unless the context lower-cased is `"default"` |
| `TkLayout.LayoutKeys` | pyshortcuts/display.py:86-99 | keys on the left, beautified when asked, and descriptions on the right, binding by binding |
| `TkLayout.DisplayLayout` | pyshortcuts/display.py:60-84 | two rows per group, in order: a heading padded `(0, 0)` for the first group and `heading_pad` after it, then its key columns |

## Left out

- Widget construction and rendering are not modelled: GTK, Tk and PySimpleGUI windows, CSS, dialogs, toasts and markup escaping. Only the decisions feeding them are.
- Active-window detection (`xprop`, `gdbus` and their output parsing) is not modelled. The window class and title are inputs.
- File reading and parsing are parameters or inputs: TOML/YAML/JSON loading, `glob`, config paths, and the JSON file an index entry names (`loadContexts`, `load`). Which file names exist is a set given to `SheetWindow.NewSheetFileName`. The write and `xdg-open` are left out.
- The regex engine is not modelled: `re.search` is an uninterpreted predicate, and regex syntax errors are not modelled.
- The version probes `get_gnome_version` and `get_kde_version` are string parameters, because they run external programs.
- `remove_emojis` is a function parameter.
- `keyhint/handler.py` calls a `replace_keys` whose revision is not visible, so `Binding.CreateBindings` takes it as a parameter.
- `str.lower` is modelled for ASCII letters only; Unicode case mapping is not.
- `screen_height // 1.3` is floating point. `Columns.DistributeInColumns` takes the limit as an integer. For integer heights, `h < x` and `h < ceil(x)` agree.
- The row heights measured from GTK widgets are integer parameters, and so is `max_rows` (15 when the config does not set it).
- The JSON records of the handlers and of `pyshortcuts` are modelled with every key present. A missing key there only raises `KeyError` and decides nothing. Of the sheet fields, only `id` is assumed present; the absence of every other field is modelled, but not its value type: each field holds the type the default sheets use.
- `Sheets.RemoveHidden`: `hidden` is a boolean, so the model keeps a sheet exactly when `hidden` is missing or `false`. Python tests the truthiness of whatever value the TOML file gives (keyhint/sheets.py:84, keyhint/utils.py:89), so `hidden = "false"` or `hidden = 1` would hide a sheet there; such non-boolean values are not modelled.
- `Sheets.SortById`, `Sheets.LoadSheets`, `SheetUtils.LoadSheetsUtils`: a sheet without `id` makes `sorted(..., key=lambda k: k["id"])` raise `KeyError`, which stops the whole load; this error path is not modelled. It includes the `{}` that `_load_toml` returns for a file that does not parse, so one broken file stops the load rather than being skipped.
- `Hints.SortByTitle`, `Hints.LoadHints`: likewise, a hint without `title` (including the `{}` that `_load_yaml` returns for a file that does not parse) makes the sort by title raise `KeyError`, which is not modelled.
- `SheetUtils.LoadSheetsUtils`: states the invariants of the result (nothing hidden, no empty section) and not the full composition; each stage carries its own contract.
- `TkLayout.PlaceItems` walks the labels in drawing order (`TkLayout.Items`) rather than as two nested loops; the visiting order is the same.
- `Hints.LoadHints`: states that every id survives and that an empty user list gives the sorted defaults, but does not repeat the per-position merge facts; those are on `Hints.MergeHint` and `Hints.MergeHints`.
- `Sheets.ExpandIncludes`: states which `"[target] t"` titles the whole expansion adds, not their bindings. The bindings are stated per include by `Sheets.IncludeOneContents`; across the whole list, a target expanded earlier may have changed its own `[`-titles first.
- `SheetUtils.MergeAllUtils`: states ids, order and length; the per-sheet merge is stated by `SheetUtils.MergeUserSheet`, one sheet at a time.
- `Sheets.MergeAll`: states ids, order and length; the per-sheet merge is stated by `Sheets.UpdateOrAppend`, one sheet at a time.
- `Sheets.LoadSheets`: states the invariants of the result (nothing hidden, no empty section) and not the full composition; each stage carries its own contract.
- Logging, `print`, the handler chaining of `abstract_handler.py`, `core.py` entry points, `config.py` persistence and `data_model.__repr__` are not modelled: they have no behaviour to state.

## Findings

| source | as written | input that shows it | evidently intended | confidence | as-written member | corrected member |
|---|---|---|---|---|---|---|
| keyhint/handlers/select_hints_handler.py:82 | the context pattern is searched in `data.context_wm_name_regex`, a field that is empty until a context is found | an app whose only context pattern matches the window name but not the empty string, with non-empty hints | search the window name, as `load_hints_handler.py:77` does | medium, not executed | `Handlers.SelectIgnoresWindowName` (on `Handlers.SelectHintsHandle`) | `Handlers.SelectByWmNameShowsContext` (on `Handlers.SelectHintsHandleByWmName`) |
