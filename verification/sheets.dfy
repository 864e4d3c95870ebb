/** The cheatsheet pipeline of `keyhint/sheets.py`: user sheets are merged
    over the default sheets by id, `include` references are expanded, hidden
    sheets are dropped and empty sections pruned; then a sheet is looked up by
    id or chosen for the active window. */
module Sheets {
  import opened Wrappers
  import opened Seqs
  import opened Sorting
  import opened Text
  import opened Dict
  import opened Matching

  /** Shortcut -> description. */
  type Bindings = Dict<string, string>

  /** Section title -> bindings. */
  type Sections = Dict<string, Bindings>

  /** One parsed TOML sheet.  Only `id` is always present (every loader sorts
      by it); the other keys may be missing from the document, which the
      operations below distinguish. */
  datatype Sheet = Sheet(
    id: string,
    url: Option<string>,
    hidden: Option<bool>,
    includes: Option<seq<string>>,
    matchTable: Option<Dict<string, string>>,
    section: Option<Sections>)

  const WmClassKey := "regex_wmclass"
  const TitleKey := "regex_title"

  /** The ids of the sheets, in list order. */
  function Ids(sheets: seq<Sheet>): seq<string> {
    Map(sheets, (s: Sheet) => s.id)
  }

  function HasId(id: string): Sheet -> bool {
    (s: Sheet) => s.id == id
  }

  /** Lists with the same ids in the same order have the same first sheet for
      every id. */
  lemma {:induction false} FindFirstSameIds(a: seq<Sheet>, b: seq<Sheet>, id: string)
    requires Ids(a) == Ids(b)
    ensures FindFirst(a, HasId(id)) == FindFirst(b, HasId(id))
  {
    if a != [] {
      assert a[0].id == Ids(a)[0] == Ids(b)[0] == b[0].id;
      assert Ids(a[1..]) == Ids(a)[1..] && Ids(b[1..]) == Ids(b)[1..];
      FindFirstSameIds(a[1..], b[1..], id);
    }
  }

  // ---------------------------------------------------------------------
  // Sorting by id (`sorted(sheets, key=lambda k: k["id"])`).

  function IdLe(): (Sheet, Sheet) -> bool {
    (a: Sheet, b: Sheet) => StrLe(a.id, b.id)
  }

  /** The default and the user sheets are each sorted by id, stably. */
  function SortById(sheets: seq<Sheet>): (r: seq<Sheet>)
    ensures multiset(r) == multiset(sheets)
    ensures SortedBy(r, IdLe())
  {
    forall a, b ensures IdLe()(a, b) || IdLe()(b, a) {
      StrLeTotal(a.id, b.id);
    }
    forall a, b, c | IdLe()(a, b) && IdLe()(b, c) ensures IdLe()(a, c) {
      StrLeTransitive(a.id, b.id, c.id);
    }
    SortBySorted(sheets, IdLe());
    SortBy(sheets, IdLe())
  }

  // ---------------------------------------------------------------------
  // Merging a user sheet (`_update_or_append`).

  /** `merged` is `base` after `base["section"].update(user.get("section", {}))`,
      `base["match"].update(user.get("match", {}))` and `base.update(user)`:
      sections and match patterns are merged key by key, the other fields the
      user gives replace the base's. */
  ghost predicate MergedOver(merged: Sheet, base: Sheet, user: Sheet) {
    && base.section.Some? && base.matchTable.Some?
    && merged.id == base.id
    && merged.url == (if user.url.Some? then user.url else base.url)
    && merged.hidden == (if user.hidden.Some? then user.hidden else base.hidden)
    && merged.includes == (if user.includes.Some? then user.includes else base.includes)
    && merged.section.Some? && IsUpdate(merged.section.value, base.section.value, user.section.GetOr([]))
    && merged.matchTable.Some? && IsUpdate(merged.matchTable.value, base.matchTable.value, user.matchTable.GetOr([]))
  }

  /** Merges one user sheet into the list: the first sheet with the same id is
      updated in place, and a sheet with an unseen id is appended. */
  function UpdateOrAppend(sheets: seq<Sheet>, user: Sheet): (r: Result<seq<Sheet>, PyError>)
    ensures FindFirst(sheets, HasId(user.id)).None? ==> r == Success(sheets + [user])
    ensures FindFirst(sheets, HasId(user.id)).Some? ==>
              var i := FindFirst(sheets, HasId(user.id)).value;
              && (sheets[i].section.None? ==> r == Failure(KeyError("section")))
              && (sheets[i].section.Some? && sheets[i].matchTable.None? ==> r == Failure(KeyError("match")))
              && (r.Success? <==> sheets[i].section.Some? && sheets[i].matchTable.Some?)
              && (r.Success? ==>
                    && |r.value| == |sheets|
                    && MergedOver(r.value[i], sheets[i], user)
                    && forall k :: 0 <= k < |sheets| && k != i ==> r.value[k] == sheets[k])
  {
    match FindFirst(sheets, HasId(user.id))
    case None => Success(sheets + [user])
    case Some(i) =>
      var base := sheets[i];
      if base.section.None? then Failure(KeyError("section"))
      else if base.matchTable.None? then Failure(KeyError("match"))
      else
        var merged := base.(
          url := if user.url.Some? then user.url else base.url,
          hidden := if user.hidden.Some? then user.hidden else base.hidden,
          includes := if user.includes.Some? then user.includes else base.includes,
          section := Some(Update(base.section.value, user.section.GetOr([]))),
          matchTable := Some(Update(base.matchTable.value, user.matchTable.GetOr([]))));
        Success(sheets[i := merged])
  }

  /** A user sheet that gives neither sections nor match patterns leaves the
      sections and the patterns of the sheet it updates as they were. */
  lemma UpdateOrAppendKeepsTables(sheets: seq<Sheet>, user: Sheet)
    requires user.section.None? && user.matchTable.None?
    requires UpdateOrAppend(sheets, user).Success?
    requires FindFirst(sheets, HasId(user.id)).Some?
    ensures var i := FindFirst(sheets, HasId(user.id)).value;
      && UpdateOrAppend(sheets, user).value[i].section == sheets[i].section
      && UpdateOrAppend(sheets, user).value[i].matchTable == sheets[i].matchTable
  {
    var i := FindFirst(sheets, HasId(user.id)).value;
    UpdateByEmpty(sheets[i].section.value);
    UpdateByEmpty(sheets[i].matchTable.value);
  }

  /** Merging keeps the ids already in the list and makes the user's id one
      of them. */
  lemma UpdateOrAppendIds(sheets: seq<Sheet>, user: Sheet)
    requires UpdateOrAppend(sheets, user).Success?
    ensures var r := UpdateOrAppend(sheets, user).value;
      |sheets| <= |r| <= |sheets| + 1 && Ids(r)[..|sheets|] == Ids(sheets) && user.id in Ids(r)
  {
    var r := UpdateOrAppend(sheets, user).value;
    match FindFirst(sheets, HasId(user.id))
    case None =>
      assert Ids(r)[|sheets|] == user.id;
    case Some(i) =>
      assert Ids(r)[i] == user.id;
  }

  /** `for user_sheet in user_sheets: sheets = _update_or_append(sheets, user_sheet)`. */
  function MergeAll(sheets: seq<Sheet>, users: seq<Sheet>): (r: Result<seq<Sheet>, PyError>)
    ensures r.Success? ==> |sheets| <= |r.value| <= |sheets| + |users|
    ensures r.Success? ==> Ids(r.value)[..|sheets|] == Ids(sheets)
    ensures r.Success? ==> forall u :: 0 <= u < |users| ==> users[u].id in Ids(r.value)
    decreases |users|
  {
    if users == [] then Success(sheets)
    else
      match UpdateOrAppend(sheets, users[0])
      case Failure(e) => Failure(e)
      case Success(next) =>
        UpdateOrAppendIds(sheets, users[0]);
        var r := MergeAll(next, users[1..]);
        if r.Success? then
          MergeAllStep(sheets, users, next, r.value);
          r
        else r
  }

  /** The ids kept and added by merging the first user sheet stay through the
      merging of the others. */
  lemma MergeAllStep(sheets: seq<Sheet>, users: seq<Sheet>, next: seq<Sheet>, r: seq<Sheet>)
    requires users != []
    requires |sheets| <= |next| && Ids(next)[..|sheets|] == Ids(sheets) && users[0].id in Ids(next)
    requires |next| <= |r| && Ids(r)[..|next|] == Ids(next)
    requires forall u :: 0 <= u < |users[1..]| ==> users[1..][u].id in Ids(r)
    ensures Ids(r)[..|sheets|] == Ids(sheets)
    ensures forall u :: 0 <= u < |users| ==> users[u].id in Ids(r)
  {
    assert Ids(r)[..|sheets|] == Ids(r)[..|next|][..|sheets|];
    assert forall u :: 1 <= u < |users| ==> users[u] == users[1..][u - 1];
    var k :| 0 <= k < |next| && Ids(next)[k] == users[0].id;
    assert Ids(r)[k] == Ids(r)[..|next|][k];
  }

  // ---------------------------------------------------------------------
  // Expanding includes (`_expand_includes`).

  const SheetNoun := "Sheet"

  /** The message of the `ValueError` raised for an include that names no
      sheet; `noun` is the word the message starts with. */
  function NotFoundMessage(noun: string, target: string, includer: string): string {
    noun + " '" + target + "' included by '" + includer + "' not found!"
  }

  /** The message names the missing sheet and the sheet that includes it. */
  lemma NotFoundMessageNames(noun: string, target: string, includer: string)
    ensures Contains(NotFoundMessage(noun, target, includer), target)
    ensures Contains(NotFoundMessage(noun, target, includer), includer)
  {
    ContainsMiddle(noun + " '", target, "' included by '" + includer + "' not found!");
    assert NotFoundMessage(noun, target, includer)
        == (noun + " '") + target + ("' included by '" + includer + "' not found!");
    ContainsMiddle(noun + " '" + target + "' included by '", includer, "' not found!");
  }

  /** The title prefix an included section receives. */
  function IncludePrefix(id: string): string {
    "[" + id + "] "
  }

  function Incs(s: Sheet): seq<string> {
    s.includes.GetOr([])
  }

  /** Including `include` into sheet `i` can succeed: a sheet with that id
      exists, and both it and sheet `i` have a `section` table. */
  predicate IncludeOk(sheets: seq<Sheet>, i: nat, target: string)
    requires i < |sheets|
  {
    match FindFirst(sheets, HasId(target))
    case None => false
    case Some(j) => sheets[j].section.Some? && sheets[i].section.Some?
  }

  /** The exception raised when `IncludeOk` does not hold. */
  function IncludeError(sheets: seq<Sheet>, i: nat, target: string, noun: string): PyError
    requires i < |sheets|
  {
    if FindFirst(sheets, HasId(target)).None? then ValueError(NotFoundMessage(noun, target, sheets[i].id))
    else KeyError("section")
  }

  /** The two lists agree on every field except the contents of the section
      tables. */
  ghost predicate SameHeaders(a: seq<Sheet>, b: seq<Sheet>) {
    && |a| == |b|
    && Ids(a) == Ids(b)
    && forall k :: 0 <= k < |a| ==>
         && a[k].url == b[k].url && a[k].hidden == b[k].hidden && a[k].includes == b[k].includes
         && a[k].matchTable == b[k].matchTable && a[k].section.Some? == b[k].section.Some?
  }

  /** Every section title that does not start with `[` has the same bindings in
      both lists: an include only adds titles beginning with `[`. */
  ghost predicate OwnSectionsKept(a: seq<Sheet>, b: seq<Sheet>)
    requires |a| == |b|
  {
    forall k, t :: 0 <= k < |a| && a[k].section.Some? && b[k].section.Some? && !StartsWith(t, "[") ==>
      Get(b[k].section.value, t) == Get(a[k].section.value, t)
  }

  lemma SameHeadersIncludeOk(a: seq<Sheet>, b: seq<Sheet>, i: nat, target: string, noun: string)
    requires SameHeaders(a, b) && i < |a|
    ensures IncludeOk(a, i, target) == IncludeOk(b, i, target)
    ensures IncludeError(a, i, target, noun) == IncludeError(b, i, target, noun)
  {
    FindFirstSameIds(a, b, target);
    assert a[i].id == Ids(a)[i];
  }

  lemma SameHeadersTrans(a: seq<Sheet>, b: seq<Sheet>, c: seq<Sheet>)
    requires SameHeaders(a, b) && SameHeaders(b, c)
    ensures SameHeaders(a, c)
  {
  }

  /** `s["section"].update({IncludePrefix(id) + k: v for k, v in target["section"].items()})`
      for one include of sheet `i`, where `target` is the first sheet with
      that id in the current list. */
  function IncludeOne(sheets: seq<Sheet>, i: nat, target: string, noun: string): (r: Result<seq<Sheet>, PyError>)
    requires i < |sheets|
    ensures r.Success? <==> IncludeOk(sheets, i, target)
    ensures r.Failure? ==> r.error == IncludeError(sheets, i, target, noun)
    ensures r.Success? ==>
              var j := FindFirst(sheets, HasId(target)).value;
              && SameHeaders(sheets, r.value)
              && (forall k :: 0 <= k < |sheets| && k != i ==> r.value[k] == sheets[k])
              && IsUpdate(r.value[i].section.value, sheets[i].section.value,
                          Prefixed(sheets[j].section.value, IncludePrefix(target)))
  {
    match FindFirst(sheets, HasId(target))
    case None => Failure(ValueError(NotFoundMessage(noun, target, sheets[i].id)))
    case Some(j) =>
      var included := sheets[j];
      if included.section.None? then Failure(KeyError("section"))
      else
        var added := Prefixed(included.section.value, IncludePrefix(included.id));
        if sheets[i].section.None? then Failure(KeyError("section"))
        else
          var sec := Update(sheets[i].section.value, added);
          SetSectionHeaders(sheets, i, sec);
          Success(sheets[i := sheets[i].(section := Some(sec))])
  }

  /** Replacing the contents of an existing section table keeps the
      headers. */
  lemma SetSectionHeaders(sheets: seq<Sheet>, i: nat, sec: Sections)
    requires i < |sheets| && sheets[i].section.Some?
    ensures SameHeaders(sheets, sheets[i := sheets[i].(section := Some(sec))])
  {
    var r := sheets[i := sheets[i].(section := Some(sec))];
    assert forall k :: 0 <= k < |r| ==> Ids(r)[k] == Ids(sheets)[k];
  }

  /** After an include, the included sheet's sections appear in the including
      sheet under prefixed titles with identical bindings, and the titles that
      do not start with `[` are untouched. */
  lemma IncludeOneContents(sheets: seq<Sheet>, i: nat, target: string, noun: string, t: string)
    requires i < |sheets| && IncludeOne(sheets, i, target, noun).Success?
    ensures var r := IncludeOne(sheets, i, target, noun).value;
      var j := FindFirst(sheets, HasId(target)).value;
      && (Get(sheets[j].section.value, t).Some? ==>
            Get(r[i].section.value, IncludePrefix(target) + t) == Get(sheets[j].section.value, t))
      && (!StartsWith(t, "[") ==> Get(r[i].section.value, t) == Get(sheets[i].section.value, t))
  {
    var r := IncludeOne(sheets, i, target, noun).value;
    var j := FindFirst(sheets, HasId(target)).value;
    var added := Prefixed(sheets[j].section.value, IncludePrefix(target));
    PrefixedGet(sheets[j].section.value, IncludePrefix(target), t);
    if !StartsWith(t, "[") {
      assert t !in Keys(added);
    }
  }

  /** One include leaves the outcome of every later include of the same sheet
      as it was, and the sheet's own sections untouched. */
  lemma IncludeStep(sheets: seq<Sheet>, i: nat, incs: seq<string>, noun: string)
    requires i < |sheets| && incs != [] && IncludeOne(sheets, i, incs[0], noun).Success?
    ensures var next := IncludeOne(sheets, i, incs[0], noun).value;
      && SameHeaders(sheets, next) && OwnSectionsKept(sheets, next)
      && (forall k :: 0 <= k < |sheets| && k != i ==> next[k] == sheets[k])
      && (forall n :: 0 <= n < |incs| ==> IncludeOk(next, i, incs[n]) == IncludeOk(sheets, i, incs[n]))
      && (forall n :: 0 <= n < |incs| ==> IncludeError(next, i, incs[n], noun) == IncludeError(sheets, i, incs[n], noun))
  {
    var next := IncludeOne(sheets, i, incs[0], noun).value;
    forall n | 0 <= n < |incs|
      ensures IncludeOk(next, i, incs[n]) == IncludeOk(sheets, i, incs[n])
      ensures IncludeError(next, i, incs[n], noun) == IncludeError(sheets, i, incs[n], noun)
    {
      SameHeadersIncludeOk(sheets, next, i, incs[n], noun);
    }
    forall k, t | 0 <= k < |sheets| && sheets[k].section.Some? && next[k].section.Some? && !StartsWith(t, "[")
      ensures Get(next[k].section.value, t) == Get(sheets[k].section.value, t)
    {
      if k == i {
        IncludeOneContents(sheets, i, incs[0], noun, t);
      }
    }
  }

  lemma OwnSectionsKeptTrans(a: seq<Sheet>, b: seq<Sheet>, c: seq<Sheet>)
    requires SameHeaders(a, b) && SameHeaders(b, c)
    requires OwnSectionsKept(a, b) && OwnSectionsKept(b, c)
    ensures SameHeaders(a, c) && OwnSectionsKept(a, c)
  {
  }

  /** `e` is the error of include `incs[n]` into sheet `i`, which cannot
      succeed, while every include before it can. */
  ghost predicate IncludeFailsAt(sheets: seq<Sheet>, i: nat, incs: seq<string>, noun: string, e: PyError, n: nat)
    requires i < |sheets|
  {
    && n < |incs|
    && !IncludeOk(sheets, i, incs[n])
    && e == IncludeError(sheets, i, incs[n], noun)
    && forall m :: 0 <= m < n ==> IncludeOk(sheets, i, incs[m])
  }

  /** Includes `incs[n..]` into sheet `i`, one after the other. */
  function IncludeAll(sheets: seq<Sheet>, i: nat, incs: seq<string>, noun: string): (r: Result<seq<Sheet>, PyError>)
    requires i < |sheets|
    ensures r.Success? <==> forall n :: 0 <= n < |incs| ==> IncludeOk(sheets, i, incs[n])
    ensures r.Failure? ==> exists n: nat :: IncludeFailsAt(sheets, i, incs, noun, r.error, n)
    ensures r.Success? ==> SameHeaders(sheets, r.value) && OwnSectionsKept(sheets, r.value)
    ensures r.Success? ==> forall k :: 0 <= k < |sheets| && k != i ==> r.value[k] == sheets[k]
    decreases |incs|
  {
    if incs == [] then Success(sheets)
    else
      match IncludeOne(sheets, i, incs[0], noun)
      case Failure(e) =>
        assert IncludeFailsAt(sheets, i, incs, noun, e, 0);
        Failure(e)
      case Success(next) =>
        var r := IncludeAll(next, i, incs[1..], noun);
        IncludeStep(sheets, i, incs, noun);
        IncludeOkStep(sheets, i, incs, noun);
        if r.Failure? then
          IncludeFailureStep(sheets, i, incs, noun, r.error);
          r
        else
          OwnSectionsKeptTrans(sheets, next, r.value);
          r
  }

  /** A successful first include changes the outcome of no include into
      sheet `i`. */
  lemma IncludeKeepsOutcomes(sheets: seq<Sheet>, i: nat, incs: seq<string>, noun: string)
    requires i < |sheets| && incs != [] && IncludeOne(sheets, i, incs[0], noun).Success?
    ensures var next := IncludeOne(sheets, i, incs[0], noun).value;
      && IncludeOk(sheets, i, incs[0])
      && (forall n :: 1 <= n < |incs| ==>
            && incs[1..][n - 1] == incs[n]
            && IncludeOk(next, i, incs[n]) == IncludeOk(sheets, i, incs[n])
            && IncludeError(next, i, incs[n], noun) == IncludeError(sheets, i, incs[n], noun))
  {
    var next := IncludeOne(sheets, i, incs[0], noun).value;
    forall n | 1 <= n < |incs|
      ensures IncludeOk(next, i, incs[n]) == IncludeOk(sheets, i, incs[n])
      ensures IncludeError(next, i, incs[n], noun) == IncludeError(sheets, i, incs[n], noun)
    {
      SameHeadersIncludeOk(sheets, next, i, incs[n], noun);
    }
  }

  /** After a successful first include, the remaining includes all succeed
      on the new list exactly when all includes succeed on the old one. */
  lemma IncludeOkStep(sheets: seq<Sheet>, i: nat, incs: seq<string>, noun: string)
    requires i < |sheets| && incs != [] && IncludeOne(sheets, i, incs[0], noun).Success?
    ensures var next := IncludeOne(sheets, i, incs[0], noun).value;
      (forall n :: 0 <= n < |incs[1..]| ==> IncludeOk(next, i, incs[1..][n]))
      <==> (forall n :: 0 <= n < |incs| ==> IncludeOk(sheets, i, incs[n]))
  {
    var next := IncludeOne(sheets, i, incs[0], noun).value;
    IncludeKeepsOutcomes(sheets, i, incs, noun);
    if forall n :: 0 <= n < |incs[1..]| ==> IncludeOk(next, i, incs[1..][n]) {
      forall n | 0 <= n < |incs|
        ensures IncludeOk(sheets, i, incs[n])
      {
        if n > 0 {
          assert IncludeOk(next, i, incs[1..][n - 1]);
        }
      }
    }
    if forall n :: 0 <= n < |incs| ==> IncludeOk(sheets, i, incs[n]) {
      forall n | 0 <= n < |incs[1..]|
        ensures IncludeOk(next, i, incs[1..][n])
      {
        assert IncludeOk(sheets, i, incs[n + 1]);
      }
    }
  }

  /** A first failing include among the remaining ones, on the new list, is
      the first failing include of the whole list on the old one. */
  lemma IncludeFailureStep(sheets: seq<Sheet>, i: nat, incs: seq<string>, noun: string, e: PyError)
    requires i < |sheets| && incs != [] && IncludeOne(sheets, i, incs[0], noun).Success?
    requires exists n: nat :: IncludeFailsAt(IncludeOne(sheets, i, incs[0], noun).value, i, incs[1..], noun, e, n)
    ensures exists n: nat :: IncludeFailsAt(sheets, i, incs, noun, e, n)
  {
    var next := IncludeOne(sheets, i, incs[0], noun).value;
    IncludeKeepsOutcomes(sheets, i, incs, noun);
    var n: nat :| IncludeFailsAt(next, i, incs[1..], noun, e, n);
    assert incs[1..][n] == incs[n + 1];
    forall m | 0 <= m < n + 1
      ensures IncludeOk(sheets, i, incs[m])
    {
      if m > 0 {
        assert IncludeOk(next, i, incs[1..][m - 1]);
      }
    }
    assert IncludeFailsAt(sheets, i, incs, noun, e, n + 1);
  }

  /** Every include of every sheet from `i` on can succeed. */
  ghost predicate OkFrom(sheets: seq<Sheet>, i: nat)
    requires i <= |sheets|
  {
    forall k, n :: i <= k < |sheets| && 0 <= n < |Incs(sheets[k])| ==> IncludeOk(sheets, k, Incs(sheets[k])[n])
  }

  /** `e` is the error of include `n` of sheet `k`, which cannot succeed,
      while every include before it, sheet by sheet from `i` on and in list
      order within a sheet, can. */
  ghost predicate FailsAt(sheets: seq<Sheet>, i: nat, noun: string, e: PyError, k: nat, n: nat)
    requires i <= |sheets|
  {
    && i <= k < |sheets| && n < |Incs(sheets[k])|
    && !IncludeOk(sheets, k, Incs(sheets[k])[n])
    && e == IncludeError(sheets, k, Incs(sheets[k])[n], noun)
    && (forall m :: 0 <= m < n ==> IncludeOk(sheets, k, Incs(sheets[k])[m]))
    && (forall k', m :: i <= k' < k && 0 <= m < |Incs(sheets[k'])| ==> IncludeOk(sheets, k', Incs(sheets[k'])[m]))
  }

  /** `e` is the error of the first include from sheet `i` on that cannot
      succeed. */
  ghost predicate FirstFailure(sheets: seq<Sheet>, i: nat, noun: string, e: PyError)
    requires i <= |sheets|
  {
    exists k: nat, n: nat :: FailsAt(sheets, i, noun, e, k, n)
  }

  /** Expands the includes of sheets `i..` in turn.  Each sheet is expanded in
      the list as it stands, so a sheet expanded earlier is included together
      with the sections it pulled in itself. */
  function ExpandFrom(sheets: seq<Sheet>, i: nat, noun: string): (r: Result<seq<Sheet>, PyError>)
    requires i <= |sheets|
    ensures r.Success? <==> OkFrom(sheets, i)
    ensures r.Failure? ==> FirstFailure(sheets, i, noun, r.error)
    ensures r.Success? ==> SameHeaders(sheets, r.value) && OwnSectionsKept(sheets, r.value)
    ensures r.Success? ==> forall k :: 0 <= k < i ==> r.value[k] == sheets[k]
    decreases |sheets| - i
  {
    if i == |sheets| then Success(sheets)
    else
      match IncludeAll(sheets, i, Incs(sheets[i]), noun)
      case Failure(e) =>
        ExpandFailsHere(sheets, i, noun, e);
        Failure(e)
      case Success(next) =>
        var r := ExpandFrom(next, i + 1, noun);
        ExpandOkStep(sheets, i, next, noun);
        if r.Failure? then
          ExpandFailureStep(sheets, i, next, noun, r.error);
          r
        else
          OwnSectionsKeptTrans(sheets, next, r.value);
          r
  }

  /** The first sheet already fails: its first failing include is the first
      of all. */
  lemma ExpandFailsHere(sheets: seq<Sheet>, i: nat, noun: string, e: PyError)
    requires i < |sheets| && IncludeAll(sheets, i, Incs(sheets[i]), noun) == Failure(e)
    ensures !OkFrom(sheets, i) && FirstFailure(sheets, i, noun, e)
  {
    var n: nat :| IncludeFailsAt(sheets, i, Incs(sheets[i]), noun, e, n);
    assert FailsAt(sheets, i, noun, e, i, n);
  }

  /** Expanding sheet `i` changes neither the includes of any sheet nor
      whether, and how, each of them fails; and all of sheet `i`'s own
      includes succeed. */
  lemma ExpandOkStep(sheets: seq<Sheet>, i: nat, next: seq<Sheet>, noun: string)
    requires i < |sheets| && IncludeAll(sheets, i, Incs(sheets[i]), noun) == Success(next)
    ensures |next| == |sheets|
    ensures OkFrom(next, i + 1) <==> OkFrom(sheets, i)
    ensures forall k :: 0 <= k < |sheets| && k != i ==> next[k] == sheets[k]
  {
    SameHeadersAgree(sheets, next, noun);
  }

  /** A first failure among the later sheets of the expanded list is the
      first failure of the original list from sheet `i` on. */
  lemma ExpandFailureStep(sheets: seq<Sheet>, i: nat, next: seq<Sheet>, noun: string, e: PyError)
    requires i < |sheets| && IncludeAll(sheets, i, Incs(sheets[i]), noun) == Success(next)
    requires FirstFailure(next, i + 1, noun, e)
    ensures FirstFailure(sheets, i, noun, e)
  {
    var k: nat, n: nat :| FailsAt(next, i + 1, noun, e, k, n);
    SameHeadersAgree(sheets, next, noun);
    assert Incs(next[k]) == Incs(sheets[k]);
    ExpandOkBefore(sheets, i, next, noun, k);
    assert FailsAt(sheets, i, noun, e, k, n);
  }

  lemma ExpandOkBefore(sheets: seq<Sheet>, i: nat, next: seq<Sheet>, noun: string, k: nat)
    requires i < k <= |sheets| && IncludeAll(sheets, i, Incs(sheets[i]), noun) == Success(next)
    requires forall k', m :: i + 1 <= k' < k && 0 <= m < |Incs(next[k'])| ==> IncludeOk(next, k', Incs(next[k'])[m])
    ensures forall k', m :: i <= k' < k && 0 <= m < |Incs(sheets[k'])| ==> IncludeOk(sheets, k', Incs(sheets[k'])[m])
  {
    SameHeadersAgree(sheets, next, noun);
  }

  /** Two lists with the same headers agree on every include: its sheet's
      list of includes, whether it succeeds, and the error it raises. */
  lemma SameHeadersAgree(a: seq<Sheet>, b: seq<Sheet>, noun: string)
    requires SameHeaders(a, b)
    ensures forall k :: 0 <= k < |a| ==> Incs(b[k]) == Incs(a[k])
    ensures forall k, n :: 0 <= k < |a| && 0 <= n < |Incs(a[k])| ==>
              IncludeOk(b, k, Incs(a[k])[n]) == IncludeOk(a, k, Incs(a[k])[n])
              && IncludeError(b, k, Incs(a[k])[n], noun) == IncludeError(a, k, Incs(a[k])[n], noun)
  {
    forall k, n | 0 <= k < |a| && 0 <= n < |Incs(a[k])|
      ensures IncludeOk(b, k, Incs(a[k])[n]) == IncludeOk(a, k, Incs(a[k])[n])
      ensures IncludeError(b, k, Incs(a[k])[n], noun) == IncludeError(a, k, Incs(a[k])[n], noun)
    {
      SameHeadersIncludeOk(a, b, k, Incs(a[k])[n], noun);
    }
  }

  /** `_expand_includes(sheets)`. */
  function ExpandIncludes(sheets: seq<Sheet>, noun: string): (r: Result<seq<Sheet>, PyError>)
    ensures r.Success? <==>
              forall k, n :: 0 <= k < |sheets| && 0 <= n < |Incs(sheets[k])| ==> IncludeOk(sheets, k, Incs(sheets[k])[n])
    ensures r.Success? ==> SameHeaders(sheets, r.value) && OwnSectionsKept(sheets, r.value)
    ensures r.Success? ==>
              forall k, n :: 0 <= k < |sheets| && 0 <= n < |Incs(sheets[k])| ==>
                Included(sheets, r.value, k, Incs(sheets[k])[n])
  {
    var r := ExpandFrom(sheets, 0, noun);
    if r.Success? then
      ExpandFromAdds(sheets, 0, noun);
      r
    else
      r
  }

  // ---------------------------------------------------------------------
  // What an expansion adds.

  /** Every section title of a sheet in `a` is still a title of that sheet
      in `b`: `dict.update` never removes a key. */
  ghost predicate TitlesKept(a: seq<Sheet>, b: seq<Sheet>)
    requires |a| == |b|
  {
    forall k, t :: 0 <= k < |a| && a[k].section.Some? && b[k].section.Some? && t in Keys(a[k].section.value) ==>
      t in Keys(b[k].section.value)
  }

  /** Include `target` of sheet `k` shows in `r`: a sheet with that id
      exists in `orig`, and each section title `t` of the first such sheet
      is a title `"[target] t"` of sheet `k` in `r`. */
  ghost predicate Included(orig: seq<Sheet>, r: seq<Sheet>, k: nat, target: string)
    requires k < |r|
  {
    match FindFirst(orig, HasId(target))
    case None => false
    case Some(j) =>
      && orig[j].section.Some? && r[k].section.Some?
      && forall t :: t in Keys(orig[j].section.value) ==> IncludePrefix(target) + t in Keys(r[k].section.value)
  }

  /** One include adds the target's titles, prefixed, and removes none. */
  lemma IncludeOneAdds(sheets: seq<Sheet>, i: nat, target: string, noun: string)
    requires i < |sheets| && IncludeOne(sheets, i, target, noun).Success?
    ensures var next := IncludeOne(sheets, i, target, noun).value;
            |next| == |sheets| && TitlesKept(sheets, next) && Included(sheets, next, i, target)
  {
    var next := IncludeOne(sheets, i, target, noun).value;
    var j := FindFirst(sheets, HasId(target)).value;
    var added := Prefixed(sheets[j].section.value, IncludePrefix(target));
    forall t | t in Keys(sheets[j].section.value)
      ensures IncludePrefix(target) + t in Keys(next[i].section.value)
    {
      PrefixedGet(sheets[j].section.value, IncludePrefix(target), t);
      assert Get(next[i].section.value, IncludePrefix(target) + t) == Get(added, IncludePrefix(target) + t);
    }
  }

  /** A list whose titles only grew still shows an include. */
  lemma IncludedKept(orig: seq<Sheet>, a: seq<Sheet>, b: seq<Sheet>, k: nat, target: string)
    requires k < |a| && SameHeaders(a, b) && TitlesKept(a, b) && Included(orig, a, k, target)
    ensures Included(orig, b, k, target)
  {
  }

  /** An include resolved in `cur`, whose titles only grew from `orig`,
      shows every title the target had in `orig`. */
  lemma IncludedRebase(orig: seq<Sheet>, cur: seq<Sheet>, r: seq<Sheet>, k: nat, target: string)
    requires SameHeaders(orig, cur) && TitlesKept(orig, cur) && k < |r| && Included(cur, r, k, target)
    ensures Included(orig, r, k, target)
  {
    FindFirstSameIds(orig, cur, target);
  }

  /** All includes of sheet `i` show in the result, and no title is lost. */
  lemma {:induction false} IncludeAllAdds(sheets: seq<Sheet>, i: nat, incs: seq<string>, noun: string)
    requires i < |sheets| && IncludeAll(sheets, i, incs, noun).Success?
    ensures var r := IncludeAll(sheets, i, incs, noun).value;
            && |r| == |sheets| && TitlesKept(sheets, r)
            && forall n :: 0 <= n < |incs| ==> Included(sheets, r, i, incs[n])
    decreases |incs|
  {
    if incs != [] {
      var next := IncludeOne(sheets, i, incs[0], noun).value;
      var r := IncludeAll(sheets, i, incs, noun).value;
      assert r == IncludeAll(next, i, incs[1..], noun).value;
      IncludeOneAdds(sheets, i, incs[0], noun);
      IncludeAllAdds(next, i, incs[1..], noun);
      forall n | 0 <= n < |incs|
        ensures Included(sheets, r, i, incs[n])
      {
        if n == 0 {
          IncludedKept(sheets, next, r, i, incs[0]);
        } else {
          assert incs[1..][n - 1] == incs[n];
          IncludedRebase(sheets, next, r, i, incs[n]);
        }
      }
    }
  }

  /** Every include of every sheet from `i` on shows in the result, and no
      title is lost. */
  lemma {:induction false} ExpandFromAdds(sheets: seq<Sheet>, i: nat, noun: string)
    requires i <= |sheets| && ExpandFrom(sheets, i, noun).Success?
    ensures var r := ExpandFrom(sheets, i, noun).value;
            && |r| == |sheets| && TitlesKept(sheets, r)
            && forall k, n :: i <= k < |sheets| && 0 <= n < |Incs(sheets[k])| ==> Included(sheets, r, k, Incs(sheets[k])[n])
    decreases |sheets| - i
  {
    if i < |sheets| {
      var next := IncludeAll(sheets, i, Incs(sheets[i]), noun).value;
      var r := ExpandFrom(sheets, i, noun).value;
      assert r == ExpandFrom(next, i + 1, noun).value;
      IncludeAllAdds(sheets, i, Incs(sheets[i]), noun);
      ExpandFromAdds(next, i + 1, noun);
      SameHeadersAgree(sheets, next, noun);
      forall k, n | i <= k < |sheets| && 0 <= n < |Incs(sheets[k])|
        ensures Included(sheets, r, k, Incs(sheets[k])[n])
      {
        if k == i {
          IncludedKept(sheets, next, r, i, Incs(sheets[i])[n]);
        } else {
          assert Incs(next[k]) == Incs(sheets[k]);
          IncludedRebase(sheets, next, r, k, Incs(sheets[k])[n]);
        }
      }
    }
  }

  /** A `ValueError` from the expansion names an include that no sheet of the
      list has as its id, and the sheet that includes it. */
  lemma ExpandValueError(sheets: seq<Sheet>, noun: string)
    requires ExpandIncludes(sheets, noun).Failure?
    requires ExpandIncludes(sheets, noun).error.ValueError?
    ensures exists k, n :: 0 <= k < |sheets| && 0 <= n < |Incs(sheets[k])|
              && Incs(sheets[k])[n] !in Ids(sheets)
              && ExpandIncludes(sheets, noun).error.message == NotFoundMessage(noun, Incs(sheets[k])[n], sheets[k].id)
  {
    var e := ExpandIncludes(sheets, noun).error;
    var k: nat, n: nat :| FailsAt(sheets, 0, noun, e, k, n);
    var inc := Incs(sheets[k])[n];
    assert FindFirst(sheets, HasId(inc)).None?;
    assert inc !in Ids(sheets);
  }

  // ---------------------------------------------------------------------
  // Dropping hidden sheets and empty sections.

  /** `not s.get("hidden", False)`. */
  function Visible(): Sheet -> bool {
    (s: Sheet) => !s.hidden.GetOr(false)
  }

  /** `_remove_hidden`: the sheets not marked hidden, in their order. */
  function RemoveHidden(sheets: seq<Sheet>): (r: seq<Sheet>)
    ensures forall k :: 0 <= k < |r| ==> r[k] in sheets && !r[k].hidden.GetOr(false)
    ensures forall k :: 0 <= k < |sheets| && !sheets[k].hidden.GetOr(false) ==> sheets[k] in r
  {
    Filter(sheets, Visible())
  }

  /** Dropping hidden sheets keeps the visible ones in their order: it
      distributes over concatenation, sheet by sheet. */
  lemma RemoveHiddenAppend(a: seq<Sheet>, b: seq<Sheet>)
    ensures RemoveHidden(a + b) == RemoveHidden(a) + RemoveHidden(b)
    ensures |b| == 1 ==> RemoveHidden(b) == if b[0].hidden.GetOr(false) then [] else b
  {
    FilterAppend(a, b, Visible());
    if |b| == 1 {
      assert b[1..] == [];
    }
  }

  function NonEmpty(): Bindings -> bool {
    b => |b| > 0
  }

  /** `sheet["section"] = {k: v for k, v in sheet["section"].items() if v}`. */
  function PruneSections(s: Sheet): (r: Result<Sheet, PyError>)
    ensures r.Failure? <==> s.section.None?
    ensures r.Failure? ==> r.error == KeyError("section")
    ensures r.Success? ==> r.value == s.(section := r.value.section) && r.value.section.Some?
    ensures r.Success? ==> forall k :: 0 <= k < |r.value.section.value| ==> |r.value.section.value[k].1| > 0
    ensures r.Success? ==>
              forall t :: Get(r.value.section.value, t) == (if Get(s.section.value, t).Some? && |Get(s.section.value, t).value| > 0 then Get(s.section.value, t) else None)
    ensures r.Success? ==> r.value.section == Some(FilterValues(s.section.value, NonEmpty()))
  {
    match s.section
    case None => Failure(KeyError("section"))
    case Some(sec) => Success(s.(section := Some(FilterValues(sec, NonEmpty()))))
  }

  /** `_remove_empty_sections`: every sheet keeps its non-empty sections, in
      their order. */
  function RemoveEmptySections(sheets: seq<Sheet>): (r: Result<seq<Sheet>, PyError>)
    ensures r.Success? <==> forall k :: 0 <= k < |sheets| ==> sheets[k].section.Some?
    ensures r.Failure? ==> r.error == KeyError("section")
    ensures r.Success? ==> |r.value| == |sheets|
    ensures r.Success? ==> forall k :: 0 <= k < |sheets| ==> Success(r.value[k]) == PruneSections(sheets[k])
  {
    if sheets == [] then Success([])
    else
      match PruneSections(sheets[0])
      case Failure(e) => Failure(e)
      case Success(s) =>
        match RemoveEmptySections(sheets[1..])
        case Failure(e) =>
          assert forall k :: 1 <= k < |sheets| ==> sheets[k] == sheets[1..][k - 1];
          Failure(e)
        case Success(rest) =>
          assert forall k :: 1 <= k < |sheets| ==> sheets[k] == sheets[1..][k - 1];
          Success([s] + rest)
  }

  /** `load_sheets`: sort both lists by id, merge the user sheets over the
      defaults, expand includes, drop hidden sheets, prune empty sections. */
  function LoadSheets(defaults: seq<Sheet>, users: seq<Sheet>): (r: Result<seq<Sheet>, PyError>)
    ensures r.Success? ==> forall k :: 0 <= k < |r.value| ==> !r.value[k].hidden.GetOr(false)
    ensures r.Success? ==> forall k :: 0 <= k < |r.value| ==> r.value[k].section.Some?
    ensures r.Success? ==> forall k, n :: 0 <= k < |r.value| && 0 <= n < |r.value[k].section.value| ==>
                                         |r.value[k].section.value[n].1| > 0
  {
    var merged :- MergeAll(SortById(defaults), SortById(users));
    var expanded :- ExpandIncludes(merged, SheetNoun);
    var visible := RemoveHidden(expanded);
    var r :- RemoveEmptySections(visible);
    assert forall k :: 0 <= k < |r| ==> r[k] == visible[k].(section := r[k].section) by {
      forall k | 0 <= k < |r| ensures r[k] == visible[k].(section := r[k].section) {
        assert Success(r[k]) == PruneSections(visible[k]);
      }
    }
    Success(r)
  }

  // ---------------------------------------------------------------------
  // Lookup and active-window matching.

  /** `next(sheet for sheet in sheets if sheet["id"] == sheet_id)`. */
  function GetSheetById(sheets: seq<Sheet>, id: string): (r: Result<Sheet, PyError>)
    ensures r.Failure? <==> id !in Ids(sheets)
    ensures r.Failure? ==> r.error == StopIteration
    ensures r.Success? ==> exists j :: 0 <= j < |sheets| && r.value == sheets[j] && r.value.id == id
                                      && forall k :: 0 <= k < j ==> sheets[k].id != id
  {
    match FindFirst(sheets, HasId(id))
    case None =>
      Failure(StopIteration)
    case Some(j) =>
      assert Ids(sheets)[j] == id;
      assert forall k :: 0 <= k < j ==> !HasId(id)(sheets[k]);
      Success(sheets[j])
  }

  /** The comprehension's condition: both patterns of the sheet's `match`
      table match, case-insensitively. */
  function WindowMatch(wmClass: string, title: string, search: Search): Sheet -> Result<bool, PyError> {
    (h: Sheet) => MatchPair(h.matchTable, WmClassKey, TitleKey, wmClass, title, true, search)
  }

  function WmClassLen(): Sheet -> nat {
    (h: Sheet) => |PatternOf(h.matchTable, WmClassKey)|
  }

  function TitleLen(): Sheet -> nat {
    (h: Sheet) => |PatternOf(h.matchTable, TitleKey)|
  }

  /** `get_sheet_id_by_active_window`: among the sheets whose patterns match,
      sort by title-pattern length and then by class-pattern length, both
      descending, and take the first. */
  function GetSheetIdByActiveWindow(sheets: seq<Sheet>, wmClass: string, title: string, search: Search)
    : (r: Result<Option<string>, PyError>)
    ensures r.Success? <==> forall k :: 0 <= k < |sheets| ==> WindowMatch(wmClass, title, search)(sheets[k]).Success?
    ensures r == Success(None) <==>
              forall k :: 0 <= k < |sheets| ==> WindowMatch(wmClass, title, search)(sheets[k]) == Success(false)
  {
    var ms :- FilterOrRaise(sheets, WindowMatch(wmClass, title, search));
    if ms == [] then
      FilterNoneBack(sheets, Accepts(WindowMatch(wmClass, title, search)));
      Success(None)
    else
      Success(Some(SortBy(SortBy(ms, GeBy(TitleLen())), GeBy(WmClassLen()))[0].id))
  }

  /** An empty comprehension means no element satisfied the condition. */
  lemma FilterNoneBack<T>(xs: seq<T>, p: T -> bool)
    requires Filter(xs, p) == []
    ensures forall k :: 0 <= k < |xs| ==> !p(xs[k])
  {
  }

  /** The chosen sheet is the most specific match: no matching sheet has a
      longer class pattern, none with an equally long class pattern has a
      longer title pattern, and it is the first matching sheet in list order
      with both lengths. */
  lemma GetSheetIdByActiveWindowBest(sheets: seq<Sheet>, wmClass: string, title: string, search: Search)
      returns (j: nat)
    requires GetSheetIdByActiveWindow(sheets, wmClass, title, search).Success?
    requires GetSheetIdByActiveWindow(sheets, wmClass, title, search).value.Some?
    ensures j < |sheets| && GetSheetIdByActiveWindow(sheets, wmClass, title, search).value.value == sheets[j].id
    ensures WindowMatch(wmClass, title, search)(sheets[j]) == Success(true)
    ensures forall k :: 0 <= k < |sheets| && WindowMatch(wmClass, title, search)(sheets[k]) == Success(true) ==>
              WmClassLen()(sheets[k]) <= WmClassLen()(sheets[j])
    ensures forall k :: (0 <= k < |sheets| && WindowMatch(wmClass, title, search)(sheets[k]) == Success(true)
                         && WmClassLen()(sheets[k]) == WmClassLen()(sheets[j])) ==> TitleLen()(sheets[k]) <= TitleLen()(sheets[j])
    ensures forall k :: 0 <= k < j && WindowMatch(wmClass, title, search)(sheets[k]) == Success(true) ==>
              !(WmClassLen()(sheets[k]) == WmClassLen()(sheets[j]) && TitleLen()(sheets[k]) == TitleLen()(sheets[j]))
  {
    var m := Accepts(WindowMatch(wmClass, title, search));
    ActiveWindowFiltered(sheets, wmClass, title, search);
    j := BestOfFilter(sheets, m, TitleLen(), WmClassLen());
    var best := sheets[j];
    forall k | 0 <= k < j && WindowMatch(wmClass, title, search)(sheets[k]) == Success(true)
      ensures !(WmClassLen()(sheets[k]) == WmClassLen()(best) && TitleLen()(sheets[k]) == TitleLen()(best))
    {
      assert m(sheets[k]);
      assert !Tie(WmClassLen(), TitleLen(), best)(sheets[k]);
    }
  }

  /** A found sheet is the head of the matching sheets sorted by the two
      pattern lengths. */
  lemma ActiveWindowFiltered(sheets: seq<Sheet>, wmClass: string, title: string, search: Search)
    requires GetSheetIdByActiveWindow(sheets, wmClass, title, search).Success?
    requires GetSheetIdByActiveWindow(sheets, wmClass, title, search).value.Some?
    ensures var ms := Filter(sheets, Accepts(WindowMatch(wmClass, title, search)));
      && ms != []
      && GetSheetIdByActiveWindow(sheets, wmClass, title, search).value.value
         == SortBy(SortBy(ms, GeBy(TitleLen())), GeBy(WmClassLen()))[0].id
  {
  }
}
