/** The older loader of `keyhint/utils.py`.  Its include expansion, hidden
    filter and section pruning are those of `Sheets` (only the wording of the
    include error differs); its merge of a user sheet differs: the user's
    `section` is required and merged key by key, while every other field,
    `match` included, is replaced wholesale. */
module SheetUtils {
  import opened Wrappers
  import opened Seqs
  import opened Dict
  import opened Sheets

  const CheatsheetNoun := "Cheatsheet"

  /** `merged` is `base` after `base.update(user)` (without the user's
      section) followed by `base["section"].update(user_sections)`. */
  ghost predicate ReplacedOver(merged: Sheet, base: Sheet, user: Sheet) {
    && base.section.Some? && user.section.Some?
    && merged.id == base.id
    && merged.url == (if user.url.Some? then user.url else base.url)
    && merged.hidden == (if user.hidden.Some? then user.hidden else base.hidden)
    && merged.includes == (if user.includes.Some? then user.includes else base.includes)
    && merged.matchTable == (if user.matchTable.Some? then user.matchTable else base.matchTable)
    && merged.section.Some? && IsUpdate(merged.section.value, base.section.value, user.section.value)
  }

  /** One pass of the merge loop of `load_sheets`: the first sheet with the
      user sheet's id is updated in place, otherwise the user sheet is
      appended. */
  function MergeUserSheet(sheets: seq<Sheet>, user: Sheet): (r: Result<seq<Sheet>, PyError>)
    ensures FindFirst(sheets, HasId(user.id)).None? ==> r == Success(sheets + [user])
    ensures FindFirst(sheets, HasId(user.id)).Some? ==>
              var i := FindFirst(sheets, HasId(user.id)).value;
              && (r.Failure? <==> user.section.None? || sheets[i].section.None?)
              && (r.Failure? ==> r.error == KeyError("section"))
              && (r.Success? ==>
                    && |r.value| == |sheets|
                    && ReplacedOver(r.value[i], sheets[i], user)
                    && forall k :: 0 <= k < |sheets| && k != i ==> r.value[k] == sheets[k])
  {
    match FindFirst(sheets, HasId(user.id))
    case None => Success(sheets + [user])
    case Some(i) =>
      if user.section.None? then Failure(KeyError("section"))
      else
        var base := sheets[i];
        if base.section.None? then Failure(KeyError("section"))
        else
          var merged := base.(
            url := if user.url.Some? then user.url else base.url,
            hidden := if user.hidden.Some? then user.hidden else base.hidden,
            includes := if user.includes.Some? then user.includes else base.includes,
            matchTable := if user.matchTable.Some? then user.matchTable else base.matchTable,
            section := Some(Update(base.section.value, user.section.value)));
          Success(sheets[i := merged])
  }

  /** The two merges differ on `match`: here a user table replaces the
      default's, where `Sheets.UpdateOrAppend` merges the two key by key. */
  lemma MergeReplacesMatch(sheets: seq<Sheet>, user: Sheet)
    requires MergeUserSheet(sheets, user).Success? && user.matchTable.Some?
    requires FindFirst(sheets, HasId(user.id)).Some?
    ensures MergeUserSheet(sheets, user).value[FindFirst(sheets, HasId(user.id)).value].matchTable == user.matchTable
  {
  }

  /** Merging one user sheet keeps the ids already in the list and makes the
      user's id one of them. */
  lemma MergeUserSheetIds(sheets: seq<Sheet>, user: Sheet)
    requires MergeUserSheet(sheets, user).Success?
    ensures var r := MergeUserSheet(sheets, user).value;
      |sheets| <= |r| <= |sheets| + 1 && Ids(r)[..|sheets|] == Ids(sheets) && user.id in Ids(r)
  {
    var r := MergeUserSheet(sheets, user).value;
    match FindFirst(sheets, HasId(user.id))
    case None =>
      assert Ids(r)[|sheets|] == user.id;
    case Some(i) =>
      assert Ids(r)[i] == user.id;
  }

  /** The merge loop of `load_sheets`, with this module's merge. */
  function MergeAllUtils(sheets: seq<Sheet>, users: seq<Sheet>): (r: Result<seq<Sheet>, PyError>)
    ensures r.Success? ==> |sheets| <= |r.value| <= |sheets| + |users|
    ensures r.Success? ==> Ids(r.value)[..|sheets|] == Ids(sheets)
    ensures r.Success? ==> forall u :: 0 <= u < |users| ==> users[u].id in Ids(r.value)
    decreases |users|
  {
    if users == [] then Success(sheets)
    else
      match MergeUserSheet(sheets, users[0])
      case Failure(e) => Failure(e)
      case Success(next) =>
        MergeUserSheetIds(sheets, users[0]);
        var r := MergeAllUtils(next, users[1..]);
        if r.Success? then
          MergeAllStep(sheets, users, next, r.value);
          r
        else r
  }

  /** `load_sheets` of `keyhint/utils.py`: the same pipeline order as
      `Sheets.LoadSheets`, with this module's merge. */
  function LoadSheetsUtils(defaults: seq<Sheet>, users: seq<Sheet>): (r: Result<seq<Sheet>, PyError>)
    ensures r.Success? ==> forall k :: 0 <= k < |r.value| ==> !r.value[k].hidden.GetOr(false)
    ensures r.Success? ==> forall k :: 0 <= k < |r.value| ==> r.value[k].section.Some?
    ensures r.Success? ==> forall k, n :: 0 <= k < |r.value| && 0 <= n < |r.value[k].section.value| ==>
                                         |r.value[k].section.value[n].1| > 0
  {
    var merged :- MergeAllUtils(SortById(defaults), SortById(users));
    var expanded :- ExpandIncludes(merged, CheatsheetNoun);
    var visible := RemoveHidden(expanded);
    var r :- RemoveEmptySections(visible);
    assert forall k :: 0 <= k < |r| ==> r[k] == visible[k].(section := r[k].section) by {
      forall k | 0 <= k < |r| ensures r[k] == visible[k].(section := r[k].section) {
        assert Success(r[k]) == PruneSections(visible[k]);
      }
    }
    Success(r)
  }
}
