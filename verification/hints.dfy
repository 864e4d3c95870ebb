/** The hint records of the YAML-based versions: the loader of
    `src/keyhint/utils.py` (sort by title, shallow merge of user hints), the
    lookups shared by `src/keyhint/window.py`, `keyhint/handler.py` and
    `keyhint/keyhint.py`, and their three ways of choosing the hint to
    show. */
module Hints {
  import opened Wrappers
  import opened Seqs
  import opened Sorting
  import opened Text
  import opened Dict
  import opened Matching

  /** Group title -> (shortcut -> description). */
  type Groups = Dict<string, Dict<string, string>>

  /** One parsed YAML hint document.  `id` and `title` are always present
      (the loaders sort by title and merge by id); `match` and `hints` may be
      missing. */
  datatype Hint = Hint(id: string, title: string, matchTable: Option<Dict<string, string>>, hints: Option<Groups>)

  const ProcessKey := "regex_process"
  const HintTitleKey := "regex_title"

  /** The ids of the hints, in list order. */
  function HintIds(hints: seq<Hint>): seq<string> {
    Map(hints, (h: Hint) => h.id)
  }

  function HintHasId(id: string): Hint -> bool {
    (h: Hint) => h.id == id
  }

  // ---------------------------------------------------------------------
  // Loading (`src/keyhint/utils.py`).

  function TitleLe(): (Hint, Hint) -> bool {
    (a: Hint, b: Hint) => StrLe(a.title, b.title)
  }

  /** `sorted(hints, key=lambda k: k["title"])`. */
  function SortByTitle(hints: seq<Hint>): (r: seq<Hint>)
    ensures multiset(r) == multiset(hints)
    ensures SortedBy(r, TitleLe())
  {
    forall a, b ensures TitleLe()(a, b) || TitleLe()(b, a) {
      StrLeTotal(a.title, b.title);
    }
    forall a, b, c | TitleLe()(a, b) && TitleLe()(b, c) ensures TitleLe()(a, c) {
      StrLeTransitive(a.title, b.title, c.title);
    }
    SortBySorted(hints, TitleLe());
    SortBy(hints, TitleLe())
  }

  /** `hint.update(user_hint)`: every key the user document has replaces the
      default's whole value; nothing is merged below the top level. */
  function ShallowUpdate(base: Hint, user: Hint): (r: Hint)
    requires base.id == user.id
    ensures r.id == base.id && r.title == user.title
    ensures user.matchTable.Some? ==> r.matchTable == user.matchTable
    ensures user.matchTable.None? ==> r.matchTable == base.matchTable
    ensures user.hints.Some? ==> r.hints == user.hints
    ensures user.hints.None? ==> r.hints == base.hints
  {
    Hint(base.id, user.title,
         if user.matchTable.Some? then user.matchTable else base.matchTable,
         if user.hints.Some? then user.hints else base.hints)
  }

  /** Unlike the section merge of the sheet loaders, a default group the
      user document does not repeat is lost. */
  lemma ShallowUpdateDropsGroups(base: Hint, user: Hint, group: string)
    requires base.id == user.id
    requires base.hints.Some? && HasKey(base.hints.value, group)
    requires user.hints.Some? && !HasKey(user.hints.value, group)
    ensures ShallowUpdate(base, user).hints.Some?
    ensures !HasKey(ShallowUpdate(base, user).hints.value, group)
    ensures HasKey(Update(base.hints.value, user.hints.value), group)
  {
    var merged := Update(base.hints.value, user.hints.value);
    assert Get(base.hints.value, group).Some?;
    assert Get(merged, group) == Get(base.hints.value, group);
  }

  /** One pass of the loop of `load_hints`: the first default with the
      user's id is updated in place, otherwise the user hint is appended. */
  function MergeHint(hints: seq<Hint>, user: Hint): (r: seq<Hint>)
    ensures FindFirst(hints, HintHasId(user.id)).None? ==> r == hints + [user]
    ensures FindFirst(hints, HintHasId(user.id)).Some? ==>
              var i := FindFirst(hints, HintHasId(user.id)).value;
              && |r| == |hints|
              && r[i] == ShallowUpdate(hints[i], user)
              && forall k :: 0 <= k < |hints| && k != i ==> r[k] == hints[k]
  {
    match FindFirst(hints, HintHasId(user.id))
    case None => hints + [user]
    case Some(i) => hints[i := ShallowUpdate(hints[i], user)]
  }

  function MergeHints(hints: seq<Hint>, users: seq<Hint>): (r: seq<Hint>)
    ensures users == [] ==> r == hints
    ensures |hints| <= |r| <= |hints| + |users|
    ensures HintIds(r)[..|hints|] == HintIds(hints)
    ensures forall u :: 0 <= u < |users| ==> users[u].id in HintIds(r)
    decreases |users|
  {
    if users == [] then hints
    else
      var next := MergeHint(hints, users[0]);
      MergeHintIds(hints, users[0]);
      var r := MergeHints(next, users[1..]);
      MergeHintsStep(hints, users, next, r);
      r
  }

  /** Merging one hint keeps the ids in place and makes the user's id one of
      them. */
  lemma MergeHintIds(hints: seq<Hint>, user: Hint)
    ensures var next := MergeHint(hints, user);
      && |hints| <= |next| <= |hints| + 1
      && HintIds(next)[..|hints|] == HintIds(hints)
      && user.id in HintIds(next)
  {
    var next := MergeHint(hints, user);
    assert HintIds(next)[..|hints|] == HintIds(hints);
    if FindFirst(hints, HintHasId(user.id)).Some? {
      assert HintIds(next)[FindFirst(hints, HintHasId(user.id)).value] == user.id;
    } else {
      assert HintIds(next)[|hints|] == user.id;
    }
  }

  /** The ids kept and added by merging the first user hint stay through the
      merging of the others. */
  lemma MergeHintsStep(hints: seq<Hint>, users: seq<Hint>, next: seq<Hint>, r: seq<Hint>)
    requires users != []
    requires |hints| <= |next| && HintIds(next)[..|hints|] == HintIds(hints) && users[0].id in HintIds(next)
    requires |next| <= |r| && HintIds(r)[..|next|] == HintIds(next)
    requires forall u :: 0 <= u < |users[1..]| ==> users[1..][u].id in HintIds(r)
    ensures HintIds(r)[..|hints|] == HintIds(hints)
    ensures forall u :: 0 <= u < |users| ==> users[u].id in HintIds(r)
  {
    assert HintIds(r)[..|hints|] == HintIds(r)[..|next|][..|hints|];
    assert forall u :: 1 <= u < |users| ==> users[u] == users[1..][u - 1];
    var k :| 0 <= k < |next| && HintIds(next)[k] == users[0].id;
    assert HintIds(r)[k] == HintIds(r)[..|next|][k];
  }

  /** User hints with new, distinct ids are appended after the defaults in
      user-list order. */
  lemma {:induction false} MergeHintsFresh(hints: seq<Hint>, users: seq<Hint>)
    requires forall u :: 0 <= u < |users| ==> users[u].id !in HintIds(hints)
    requires forall u, v :: 0 <= u < v < |users| ==> users[u].id != users[v].id
    ensures MergeHints(hints, users) == hints + users
    decreases |users|
  {
    if users != [] {
      var u0, rest := users[0], users[1..];
      var next := hints + [u0];
      AbsentNotFound(hints, u0.id);
      assert MergeHints(hints, users) == MergeHints(next, rest);
      FreshRest(hints, users);
      MergeHintsFresh(next, rest);
      AppendCons(hints, users);
    }
  }

  lemma AppendCons<T>(xs: seq<T>, ys: seq<T>)
    requires ys != []
    ensures (xs + [ys[0]]) + ys[1..] == xs + ys
  {
  }

  /** After the first fresh hint is appended, the others are still fresh
      and distinct. */
  lemma FreshRest(hints: seq<Hint>, users: seq<Hint>)
    requires users != []
    requires forall u :: 0 <= u < |users| ==> users[u].id !in HintIds(hints)
    requires forall u, v :: 0 <= u < v < |users| ==> users[u].id != users[v].id
    ensures forall u :: 0 <= u < |users[1..]| ==> users[1..][u].id !in HintIds(hints + [users[0]])
    ensures forall u, v :: 0 <= u < v < |users[1..]| ==> users[1..][u].id != users[1..][v].id
  {
    var next, rest := hints + [users[0]], users[1..];
    assert HintIds(next) == HintIds(hints) + [users[0].id];
    forall u | 0 <= u < |rest| ensures rest[u].id !in HintIds(next) {
      assert rest[u] == users[u + 1];
    }
    forall u, v | 0 <= u < v < |rest| ensures rest[u].id != rest[v].id {
      assert rest[u] == users[u + 1] && rest[v] == users[v + 1];
    }
  }

  lemma AbsentNotFound(hints: seq<Hint>, id: string)
    requires id !in HintIds(hints)
    ensures FindFirst(hints, HintHasId(id)).None?
  {
    forall j | 0 <= j < |hints| ensures !HintHasId(id)(hints[j]) {
      assert HintIds(hints)[j] == hints[j].id;
    }
  }

  /** `load_hints`: both lists sorted by title, then merged.  No id is lost:
      every default and every user hint has its id in the result. */
  function LoadHints(defaults: seq<Hint>, users: seq<Hint>): (r: seq<Hint>)
    ensures |defaults| <= |r| <= |defaults| + |users|
    ensures forall d :: 0 <= d < |defaults| ==> defaults[d].id in HintIds(r)
    ensures forall u :: 0 <= u < |users| ==> users[u].id in HintIds(r)
    ensures users == [] ==> r == SortByTitle(defaults)
  {
    var sortedDefaults := SortByTitle(defaults);
    var sortedUsers := SortByTitle(users);
    var r := MergeHints(sortedDefaults, sortedUsers);
    PrefixIdsKept(sortedDefaults, r);
    PermutedIdsKept(defaults, sortedDefaults, r);
    PermutedIdsKept(users, sortedUsers, r);
    r
  }

  lemma PrefixIdsKept(hints: seq<Hint>, r: seq<Hint>)
    requires |hints| <= |r| && HintIds(r)[..|hints|] == HintIds(hints)
    ensures forall v :: 0 <= v < |hints| ==> hints[v].id in HintIds(r)
  {
    forall v | 0 <= v < |hints| ensures hints[v].id in HintIds(r) {
      assert HintIds(hints)[v] == hints[v].id;
      assert HintIds(r)[..|hints|][v] == HintIds(r)[v];
    }
  }

  /** Sorting before merging loses no id: an id of the sorted list that the
      merge keeps is an id of the unsorted one. */
  lemma PermutedIdsKept(xs: seq<Hint>, sorted: seq<Hint>, r: seq<Hint>)
    requires multiset(xs) == multiset(sorted)
    requires forall v :: 0 <= v < |sorted| ==> sorted[v].id in HintIds(r)
    ensures forall d :: 0 <= d < |xs| ==> xs[d].id in HintIds(r)
  {
    forall d | 0 <= d < |xs| ensures xs[d].id in HintIds(r) {
      assert xs[d] in multiset(sorted);
      var v :| 0 <= v < |sorted| && sorted[v] == xs[d];
    }
  }

  // ---------------------------------------------------------------------
  // Lookups.

  /** `get_hints_by_id` (three identical copies): the first hint with the
      id, or `None`. */
  function GetHintById(hints: seq<Hint>, id: string): (r: Option<Hint>)
    ensures r.None? <==> id !in HintIds(hints)
    ensures r.Some? ==> exists j :: 0 <= j < |hints| && r.value == hints[j] && r.value.id == id
                                   && forall k :: 0 <= k < j ==> hints[k].id != id
  {
    match FindFirst(hints, HintHasId(id))
    case None =>
      assert forall k :: 0 <= k < |hints| ==> HintIds(hints)[k] != id;
      None
    case Some(j) =>
      assert HintIds(hints)[j] == id;
      assert forall k :: 0 <= k < j ==> !HintHasId(id)(hints[k]);
      Some(hints[j])
  }

  /** `get_hint_ids_titles`: one `(id, title)` pair per hint, in list order. */
  function HintIdsTitles(hints: seq<Hint>): (r: seq<(string, string)>)
    ensures |r| == |hints|
    ensures forall i :: 0 <= i < |hints| ==> r[i] == (hints[i].id, hints[i].title)
  {
    seq(|hints|, i requires 0 <= i < |hints| => (hints[i].id, hints[i].title))
  }

  /** The list-comprehension condition shared by the three versions: both
      patterns of the hint's `match` table match, case-insensitively. */
  function HintMatch(wmClass: string, title: string, search: Search): Hint -> Result<bool, PyError> {
    (h: Hint) => MatchPair(h.matchTable, ProcessKey, HintTitleKey, wmClass, title, true, search)
  }

  /** The id of the first matching hint in list order, or `None`; there is no
      ranking by specificity.  A hint without a `match` table or without one
      of its two patterns raises `KeyError`. */
  function FirstMatchId(hints: seq<Hint>, wmClass: string, title: string, search: Search): (r: Result<Option<string>, PyError>)
    ensures r.Success? <==> forall k :: 0 <= k < |hints| ==> HintMatch(wmClass, title, search)(hints[k]).Success?
    ensures r == Success(None) <==>
              forall k :: 0 <= k < |hints| ==> HintMatch(wmClass, title, search)(hints[k]) == Success(false)
  {
    var ms :- FilterOrRaise(hints, HintMatch(wmClass, title, search));
    if ms == [] then
      Success(None)
    else
      Success(Some(ms[0].id))
  }

  /** A found id belongs to the first hint in list order whose patterns both
      match; every hint before it was checked and did not match. */
  lemma FirstMatchIdFirst(hints: seq<Hint>, wmClass: string, title: string, search: Search) returns (j: nat)
    requires FirstMatchId(hints, wmClass, title, search).Success?
    requires FirstMatchId(hints, wmClass, title, search).value.Some?
    ensures j < |hints| && FirstMatchId(hints, wmClass, title, search).value.value == hints[j].id
    ensures HintMatch(wmClass, title, search)(hints[j]) == Success(true)
    ensures forall k :: 0 <= k < j ==> HintMatch(wmClass, title, search)(hints[k]) == Success(false)
  {
    j := FilterHead(hints, Accepts(HintMatch(wmClass, title, search)));
  }

  // ---------------------------------------------------------------------
  // Choosing the hint to show.

  /** Python truthiness of an optional string. */
  predicate Truthy(s: Option<string>) {
    s.Some? && s.value != ""
  }

  /** `_get_appropriate_hint_id` of `src/keyhint/window.py`.  `options` are
      the command-line options; `comboIds` are the ids of the hint dropdown,
      whose first entry is read without a check, so an empty dropdown raises
      `TypeError` (the message here is the model's own wording). */
  function SrcAppropriateHintId(options: Dict<string, string>, hints: seq<Hint>, wmClass: string, title: string,
                                search: Search, comboIds: seq<string>): (r: Result<string, PyError>)
    ensures Truthy(Get(options, "hint")) ==> r == Success(Get(options, "hint").value)
  {
    var h1 := Get(options, "hint");
    var h2 :- if Truthy(h1) then Success(h1) else FirstMatchId(hints, wmClass, title, search);
    var h3 := if !Truthy(h2) && HasKey(options, "default-hint") then Get(options, "default-hint") else h2;
    if Truthy(h3) then Success(h3.value)
    else if comboIds == [] then Failure(TypeError("empty hint dropdown"))
    else Success(comboIds[0])
  }

  /** The priority of `src/keyhint/window.py`: a truthy `hint` option, then a
      truthy window match, then a truthy `default-hint` option, then the first
      dropdown entry. */
  lemma SrcAppropriateHintIdChain(options: Dict<string, string>, hints: seq<Hint>, wmClass: string, title: string,
                                  search: Search, comboIds: seq<string>)
    requires !Truthy(Get(options, "hint"))
    ensures var r := SrcAppropriateHintId(options, hints, wmClass, title, search, comboIds);
            var m := FirstMatchId(hints, wmClass, title, search);
            && (m.Failure? ==> r == Failure(m.error))
            && (m.Success? && Truthy(m.value) ==> r == Success(m.value.value))
            && (m.Success? && !Truthy(m.value) && Truthy(Get(options, "default-hint")) ==>
                  r == Success(Get(options, "default-hint").value))
            && (m.Success? && !Truthy(m.value) && !Truthy(Get(options, "default-hint")) ==>
                  (comboIds == [] <==> r.Failure?) && (comboIds != [] ==> r == Success(comboIds[0])))
  {
  }

  /** With the dropdown filled from the hints, a window that matches nothing
      and no options, the first hint in list order is shown. */
  lemma SrcAppropriateHintIdFirstEntry(hints: seq<Hint>, wmClass: string, title: string, search: Search)
    requires hints != []
    requires FirstMatchId(hints, wmClass, title, search) == Success(None)
    ensures SrcAppropriateHintId([], hints, wmClass, title, search, HintIds(hints)) == Success(hints[0].id)
  {
  }

  /** `get_appropriate_hint_id` of `keyhint/handler.py`: a `hint` option is
      returned whenever present, even empty; otherwise the first match, and
      only when nothing matched the `default-hint` option, or `None`. */
  function HandlerAppropriateHintId(options: Dict<string, string>, hints: seq<Hint>, wmClass: string, title: string,
                                    search: Search): (r: Result<Option<string>, PyError>)
    ensures HasKey(options, "hint") ==> r == Success(Get(options, "hint"))
    ensures !HasKey(options, "hint") ==>
              var m := FirstMatchId(hints, wmClass, title, search);
              && (m.Failure? <==> r.Failure?)
              && (m.Success? && m.value.Some? ==> r == m)
              && (m == Success(None) ==> r == Success(Get(options, "default-hint")))
  {
    if HasKey(options, "hint") then Success(Get(options, "hint"))
    else
      var m :- FirstMatchId(hints, wmClass, title, search);
      if m.Some? then Success(m)
      else if HasKey(options, "default-hint") then Success(Get(options, "default-hint"))
      else Success(None)
  }

  /** The two versions differ on an empty `hint` option: the handler returns
      it, the newer window treats it as missing and goes on to match the
      window. */
  lemma EmptyHintOption(hints: seq<Hint>, wmClass: string, title: string, search: Search, comboIds: seq<string>)
    requires FirstMatchId(hints, wmClass, title, search) == Success(Some("m")) && "m" != ""
    ensures HandlerAppropriateHintId([("hint", "")], hints, wmClass, title, search) == Success(Some(""))
    ensures SrcAppropriateHintId([("hint", "")], hints, wmClass, title, search, comboIds) == Success("m")
  {
    assert HasKey([("hint", "")], "hint") by {
      assert Keys([("hint", "")]) == ["hint"];
    }
  }

  /** The dropdown selection of `keyhint/keyhint.py`: the chosen id, or the
      first row when there is none. */
  datatype ComboPick = ActiveId(id: string) | ActiveIndex(index: nat)

  function InitialPick(hintId: Option<string>): (r: ComboPick)
    ensures hintId.Some? <==> r.ActiveId?
    ensures hintId.Some? ==> r.id == hintId.value
    ensures hintId.None? ==> r == ActiveIndex(0)
  {
    if hintId.Some? then ActiveId(hintId.value) else ActiveIndex(0)
  }

  /** In `keyhint/keyhint.py` the window selects the first matching hint or,
      when nothing matches, the first row of the dropdown. */
  lemma KeyhintInitialPick(hints: seq<Hint>, wmClass: string, title: string, search: Search)
    requires FirstMatchId(hints, wmClass, title, search).Success?
    ensures var pick := InitialPick(FirstMatchId(hints, wmClass, title, search).value);
            (pick == ActiveIndex(0) <==>
               forall k :: 0 <= k < |hints| ==> HintMatch(wmClass, title, search)(hints[k]) == Success(false))
            && (pick.ActiveId? ==> pick.id in HintIds(hints))
  {
    var m := FirstMatchId(hints, wmClass, title, search);
    if m.value.Some? {
      var j := FirstMatchIdFirst(hints, wmClass, title, search);
      assert HintIds(hints)[j] == hints[j].id;
    }
  }
}
