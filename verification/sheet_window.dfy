/** The decisions of the GTK window of `keyhint/window.py` that do not
    depend on widgets: the action-state guard, the choice of the sheet to
    show, the order of the sheet dropdown, the search filter of the binding
    rows, the orientation setting, and the name of a new sheet file. */
module SheetWindow {
  import opened Wrappers
  import opened Seqs
  import opened Sorting
  import opened Text
  import opened Matching
  import opened Sheets
  import opened Binding

  // ---------------------------------------------------------------------
  // `check_state`.

  /** A `Gio.SimpleAction`: whether it is stateful, and its current state. */
  datatype Action<S> = Action(hasStateType: bool, state: Option<S>)

  /** The action after the guard, and whether the wrapped callback ran. */
  datatype Guarded<S> = Guarded(action: Action<S>, runs: bool)

  /** The `check_state` decorator: a stateful action whose state already
      equals the requested one is left alone; otherwise the requested state
      is stored when it is truthy (`truthy` is `bool(GLib.Variant)`), and the
      callback runs. */
  function CheckState<S(==)>(a: Action<S>, requested: Option<S>, truthy: S -> bool): (r: Guarded<S>)
    ensures !r.runs <==> a.hasStateType && a.state == requested
    ensures r.action.hasStateType == a.hasStateType
    ensures r.action.state == a.state || r.action.state == requested
    ensures r.action.state != a.state ==> r.runs && requested.Some? && truthy(requested.value)
    ensures r.runs && requested.Some? && truthy(requested.value) ==> r.action.state == requested
  {
    if a.hasStateType && a.state == requested then Guarded(a, false)
    else if requested.Some? && truthy(requested.value) then Guarded(a.(state := requested), true)
    else Guarded(a, true)
  }

  /** Requesting the same truthy state twice runs the callback at most once
      for a stateful action, and the second request changes nothing. */
  lemma CheckStateIdempotent<S>(a: Action<S>, s: S, truthy: S -> bool)
    requires a.hasStateType && truthy(s)
    ensures CheckState(CheckState(a, Some(s), truthy).action, Some(s), truthy)
            == Guarded(CheckState(a, Some(s), truthy).action, false)
    ensures CheckState(a, Some(s), truthy).action.state == Some(s)
  {
  }

  // ---------------------------------------------------------------------
  // The sheet dropdown and the choice of the sheet to show.

  function StrOrder(): (string, string) -> bool {
    (a: string, b: string) => StrLe(a, b)
  }

  /** `init_sheet_dropdown`: every sheet id, in sorted order. */
  function DropdownIds(sheets: seq<Sheet>): (r: seq<string>)
    ensures multiset(r) == multiset(Ids(sheets))
    ensures SortedBy(r, StrOrder())
  {
    StrOrderTotalTransitive();
    SortBySorted(Ids(sheets), StrOrder());
    SortBy(Ids(sheets), StrOrder())
  }

  lemma StrOrderTotalTransitive()
    ensures Total(StrOrder()) && Transitive(StrOrder())
  {
    forall a, b ensures StrOrder()(a, b) || StrOrder()(b, a) {
      StrLeTotal(a, b);
    }
    forall a, b, c | StrOrder()(a, b) && StrOrder()(b, c) ensures StrOrder()(a, c) {
      StrLeTransitive(a, b, c);
    }
  }

  /** The first dropdown entry is the least sheet id. */
  lemma DropdownFirstIsLeast(sheets: seq<Sheet>)
    requires sheets != []
    ensures DropdownIds(sheets) != []
    ensures DropdownIds(sheets)[0] in Ids(sheets)
    ensures forall k :: 0 <= k < |sheets| ==> StrLe(DropdownIds(sheets)[0], sheets[k].id)
  {
    var r := DropdownIds(sheets);
    assert |r| == |Ids(sheets)| == |sheets|;
    assert r[0] in multiset(r);
    forall k | 0 <= k < |sheets|
      ensures StrLe(r[0], sheets[k].id)
    {
      assert Ids(sheets)[k] == sheets[k].id;
      assert sheets[k].id in multiset(r);
      var m :| 0 <= m < |r| && r[m] == sheets[k].id;
      if m > 0 {
        assert StrOrder()(r[0], r[m]);
      } else {
        StrLeTotal(r[0], r[0]);
      }
    }
  }

  /** The sheet to show and whether the "create a new sheet" toast was
      shown on the way. */
  datatype SheetChoice = SheetChoice(id: string, toastShown: bool)

  /** `get_appropriate_sheet_id`: the first truthy of the command-line
      sheet, the best match for the active window, and the configured
      fallback; failing those, the first dropdown entry, or `"keyhint"` when
      the dropdown has none.  `dropdown` is the dropdown's model, which may be
      missing. */
  function AppropriateSheetId(cliSheet: Option<string>, sheets: seq<Sheet>, wmClass: string, title: string,
                              search: Search, fallback: string, dropdown: Option<seq<string>>)
    : (r: Result<SheetChoice, PyError>)
    ensures cliSheet.Some? && cliSheet.value != "" ==> r == Success(SheetChoice(cliSheet.value, false))
  {
    if cliSheet.Some? && cliSheet.value != "" then Success(SheetChoice(cliSheet.value, false))
    else
      var matched :- GetSheetIdByActiveWindow(sheets, wmClass, title, search);
      if matched.Some? && matched.value != "" then Success(SheetChoice(matched.value, false))
      else if fallback != "" then Success(SheetChoice(fallback, true))
      else if dropdown.Some? && dropdown.value != [] then Success(SheetChoice(dropdown.value[0], true))
      else Success(SheetChoice("keyhint", true))
  }

  /** The priority chain: every outcome names the source it came from, and a
      source is consulted only when all earlier ones came up empty. */
  lemma AppropriateSheetIdChain(cliSheet: Option<string>, sheets: seq<Sheet>, wmClass: string, title: string,
                                search: Search, fallback: string, dropdown: Option<seq<string>>)
    requires !(cliSheet.Some? && cliSheet.value != "")
    ensures var r := AppropriateSheetId(cliSheet, sheets, wmClass, title, search, fallback, dropdown);
            var m := GetSheetIdByActiveWindow(sheets, wmClass, title, search);
            && (r.Failure? <==> m.Failure?)
            && (r.Failure? ==> r.error == m.error)
            && (r.Success? && m.value.Some? && m.value.value != "" ==> r.value == SheetChoice(m.value.value, false))
            && (r.Success? && !(m.value.Some? && m.value.value != "") ==>
                  r.value.toastShown
                  && (fallback != "" ==> r.value.id == fallback)
                  && (fallback == "" && dropdown.Some? && dropdown.value != [] ==> r.value.id == dropdown.value[0])
                  && (fallback == "" && !(dropdown.Some? && dropdown.value != []) ==> r.value.id == "keyhint"))
  {
  }

  /** With nothing chosen by option, window or configuration, the sheet shown
      is the least sheet id, since the dropdown lists the ids in order. */
  lemma AppropriateSheetIdFallsToLeast(sheets: seq<Sheet>, wmClass: string, title: string, search: Search)
    requires sheets != []
    requires GetSheetIdByActiveWindow(sheets, wmClass, title, search) == Success(None)
    ensures var r := AppropriateSheetId(None, sheets, wmClass, title, search, "", Some(DropdownIds(sheets)));
            && r.Success? && r.value.toastShown && r.value.id in Ids(sheets)
            && forall k :: 0 <= k < |sheets| ==> StrLe(r.value.id, sheets[k].id)
  {
    DropdownFirstIsLeast(sheets);
  }

  // ---------------------------------------------------------------------
  // Searching the binding rows.

  /** `bindings_match_func`: an empty search keeps every row; otherwise a
      row is kept when the search text occurs in its filter text, ignoring
      case. */
  function BindingsMatch(searchText: string, filterText: string): (r: bool)
    ensures searchText == "" ==> r
    ensures searchText != "" ==> (r <==> Contains(Lower(filterText), Lower(searchText)))
  {
    searchText == "" || Contains(Lower(filterText), Lower(searchText))
  }

  /** Typing more narrows the result: a row kept for a search text is kept
      for every part of it. */
  lemma BindingsMatchNarrows(longer: string, shorter: string, filterText: string)
    requires Contains(longer, shorter)
    requires BindingsMatch(longer, filterText)
    ensures BindingsMatch(shorter, filterText)
  {
    if shorter != "" && longer != "" {
      ContainsLower(longer, shorter);
      ContainsTrans(Lower(filterText), Lower(longer), Lower(shorter));
    }
  }

  /** A row is found by any text occurring in its shortcut, label or section
      title. */
  lemma BindingsMatchRow(shortcut: string, caption: string, section: string, searchText: string)
    requires Contains(shortcut, searchText) || Contains(caption, searchText) || Contains(section, searchText)
    ensures BindingsMatch(searchText, FilterText(shortcut, caption, section))
  {
    FilterTextContains(shortcut, caption, section, searchText);
    ContainsLower(FilterText(shortcut, caption, section), searchText);
  }

  // ---------------------------------------------------------------------
  // Orientation and new sheet files.

  datatype Orientation = Horizontal | Vertical

  /** The GTK orientation is the opposite of the configured value, which
      names the direction the user scrolls in. */
  function GtkOrientation(value: string): (r: Orientation)
    ensures r == Vertical <==> value == "horizontal"
    ensures value == "vertical" ==> r == Horizontal
  {
    if value == "horizontal" then Vertical else Horizontal
  }

  /** The id and file stem of a new sheet: the window class lower-cased with
      its blanks removed. */
  function NewSheetTitle(wmClass: string): (r: string)
    ensures r == Without(Lower(wmClass), ' ')
    ensures ' ' !in r
    ensures forall i :: 0 <= i < |r| ==> !('A' <= r[i] <= 'Z')
  {
    var l := Lower(wmClass);
    ReplaceCharByEmpty(l, ' ');
    assert forall x :: x in l ==> !('A' <= x <= 'Z');
    assert forall i :: 0 <= i < |Without(l, ' ')| ==> Without(l, ' ')[i] in l;
    Replace(Lower(wmClass), " ", "")
  }

  /** The `n`-th file name tried: `title.toml`, then `title_1.toml`,
      `title_2.toml`, and so on. */
  function Candidate(title: string, n: nat): string {
    if n == 0 then title + ".toml" else title + "_" + NatToString(n) + ".toml"
  }

  lemma CandidateInjective(title: string, n: nat, m: nat)
    requires Candidate(title, n) == Candidate(title, m)
    ensures n == m
  {
    if n != 0 && m != 0 {
      var c := Candidate(title, n);
      var k := |title| + 1;
      assert c[k..|c| - 5] == NatToString(n);
      assert Candidate(title, m)[k..|c| - 5] == NatToString(m);
      NatToStringInjective(n, m);
    }
  }

  /** The naming loop of `on_create_new_sheet`: the first candidate that is
      not an existing file.  It terminates because the candidates are
      pairwise distinct and only finitely many files exist. */
  method NewSheetFileName(title: string, existing: set<string>) returns (name: string, n: nat)
    ensures name == Candidate(title, n) && name !in existing
    ensures forall k :: 0 <= k < n ==> Candidate(title, k) in existing
    ensures n <= |existing|
  {
    n := 0;
    name := Candidate(title, 0);
    ghost var tried: set<string> := {};
    while name in existing
      invariant name == Candidate(title, n)
      invariant tried <= existing && |tried| == n
      invariant forall k :: 0 <= k < n ==> Candidate(title, k) in existing
      invariant forall k :: k >= n ==> Candidate(title, k) !in tried
      decreases |existing| - |tried|
    {
      forall k | k >= n + 1
        ensures Candidate(title, k) != name
      {
        if Candidate(title, k) == name {
          CandidateInjective(title, k, n);
        }
      }
      tried := tried + {name};
      n := n + 1;
      name := Candidate(title, n);
      assert |tried| <= |existing| by {
        SubsetCard(tried, existing);
      }
    }
    SubsetCard(tried, existing);
  }

  lemma SubsetCard<T>(a: set<T>, b: set<T>)
    requires a <= b
    ensures |a| <= |b|
  {
    assert b == a + (b - a);
  }
}
