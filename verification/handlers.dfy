/** The handler chain of the JSON-based version (`keyhint/handlers/`):
    the application and context lookups of `select_hints_handler.py` and
    `load_hints_handler.py`, the fields each handler fills in, and the
    "unknown application / no hints" defaults both apply afterwards. */
module Handlers {
  import opened Wrappers
  import opened Seqs
  import opened Text
  import opened Dict
  import opened Matching
  import opened Hints

  /** The fields of `HintsData` the handlers read and write. */
  datatype HintsData = HintsData(
    wmClass: string,
    wmName: string,
    appName: string,
    appWmClassRegex: string,
    contextName: string,
    contextWmNameRegex: string,
    hints: Groups)

  const UnknownApp := "Application unknown!"
  const NoHints := "no hints found"
  const WindowGroup := "Properties of active Window"

  /** The group shown instead of hints: the window's class and name. */
  function WindowProperties(wmClass: string, wmName: string): (r: Groups)
    ensures Keys(r) == [WindowGroup]
    ensures Get(r, WindowGroup) == Some([("wm_class", wmClass), ("wm_name", wmName)])
  {
    [(WindowGroup, [("wm_class", wmClass), ("wm_name", wmName)])]
  }

  /** `_replace_data_if_unkown` (identical in both handlers).  An empty
      application name becomes "Application unknown!"; empty hints are
      replaced by the window's properties, with the window name stripped of
      emojis by `removeEmojis` (`helpers.remove_emojis`). */
  function ReplaceIfUnknown(data: HintsData, removeEmojis: string -> string): (r: HintsData)
    ensures r.appName != "" && r.hints != []
    ensures data.appName != "" ==> r.appName == data.appName
    ensures data.appName == "" ==> r.appName == UnknownApp
    ensures data.hints != [] ==> r.hints == data.hints && r.contextName == data.contextName && r.wmName == data.wmName
    ensures data.hints == [] ==>
              && r.contextName == NoHints
              && r.wmName == removeEmojis(data.wmName)
              && r.hints == WindowProperties(data.wmClass, r.wmName)
    ensures r.wmClass == data.wmClass && r.appWmClassRegex == data.appWmClassRegex
    ensures r.contextWmNameRegex == data.contextWmNameRegex
  {
    var named := if data.appName == "" then data.(appName := UnknownApp) else data;
    if named.hints != [] then named
    else
      var wmName := removeEmojis(named.wmName);
      named.(contextName := NoHints, wmName := wmName, hints := WindowProperties(named.wmClass, wmName))
  }

  /** Applying the defaults twice is applying them once. */
  lemma ReplaceIfUnknownIdempotent(data: HintsData, removeEmojis: string -> string)
    ensures ReplaceIfUnknown(ReplaceIfUnknown(data, removeEmojis), removeEmojis) == ReplaceIfUnknown(data, removeEmojis)
  {
  }

  // ---------------------------------------------------------------------
  // `select_hints_handler.py`: one list of applications with their contexts.

  datatype ContextHints = ContextHints(contextName: string, wmNameRegex: string, hints: Groups)
  datatype AppHints = AppHints(appName: string, wmClass: string, contexts: seq<ContextHints>)

  function SameClass(wmClass: string): AppHints -> bool {
    (a: AppHints) => Lower(a.wmClass) == Lower(wmClass)
  }

  function ContextMatches(text: string, search: Search): ContextHints -> bool {
    (c: ContextHints) => search(c.wmNameRegex, text, false)
  }

  /** `_get_app_hints`: the first application whose class equals the
      window's, ignoring case; no pattern matching is involved. */
  function GetAppHints(apps: seq<AppHints>, wmClass: string): (r: Option<AppHints>)
    ensures r.None? <==> forall j :: 0 <= j < |apps| ==> Lower(apps[j].wmClass) != Lower(wmClass)
    ensures r.Some? ==> exists j :: 0 <= j < |apps| && r.value == apps[j] && Lower(apps[j].wmClass) == Lower(wmClass)
                                    && forall i :: 0 <= i < j ==> Lower(apps[i].wmClass) != Lower(wmClass)
  {
    var r := FirstWhere(apps, SameClass(wmClass));
    assert forall j :: 0 <= j < |apps| ==> (SameClass(wmClass)(apps[j]) <==> Lower(apps[j].wmClass) == Lower(wmClass));
    r
  }

  /** `_get_app_context_hints` searches the context patterns, case-sensitively,
      in `text`; the handler passes the data's `context_wm_name_regex`. */
  function GetAppContextHints(contexts: seq<ContextHints>, text: string, search: Search): (r: Option<ContextHints>)
    ensures r.None? <==> forall j :: 0 <= j < |contexts| ==> !search(contexts[j].wmNameRegex, text, false)
    ensures r.Some? ==> exists j :: 0 <= j < |contexts| && r.value == contexts[j] && search(contexts[j].wmNameRegex, text, false)
                                    && forall i :: 0 <= i < j ==> !search(contexts[i].wmNameRegex, text, false)
  {
    var r := FirstWhere(contexts, ContextMatches(text, search));
    assert forall j :: 0 <= j < |contexts| ==>
      (ContextMatches(text, search)(contexts[j]) <==> search(contexts[j].wmNameRegex, text, false));
    r
  }

  /** The field updates of `SelectHintsHandler.handle`, before the defaults:
      the application fields only when an application is found, the context
      fields and hints only when a context of it is found as well.  `text` is
      what the contexts are searched in. */
  function SelectFields(data: HintsData, apps: seq<AppHints>, text: string, search: Search): (r: HintsData)
    ensures GetAppHints(apps, data.wmClass).None? ==> r == data
    ensures GetAppHints(apps, data.wmClass).Some? ==>
              var app := GetAppHints(apps, data.wmClass).value;
              var ctx := GetAppContextHints(app.contexts, text, search);
              && r.appName == app.appName && r.appWmClassRegex == app.wmClass
              && (ctx.None? ==> r == data.(appName := app.appName, appWmClassRegex := app.wmClass))
              && (ctx.Some? ==> r == data.(appName := app.appName, appWmClassRegex := app.wmClass,
                                           hints := ctx.value.hints, contextWmNameRegex := ctx.value.wmNameRegex,
                                           contextName := ctx.value.contextName))
  {
    match GetAppHints(apps, data.wmClass)
    case None => data
    case Some(app) =>
      var withApp := data.(appName := app.appName, appWmClassRegex := app.wmClass);
      match GetAppContextHints(app.contexts, text, search)
      case None => withApp
      case Some(ctx) =>
        withApp.(hints := ctx.hints, contextWmNameRegex := ctx.wmNameRegex, contextName := ctx.contextName)
  }

  /** `SelectHintsHandler.handle` as written: the contexts are searched in
      `data.context_wm_name_regex`, a field no earlier handler sets. */
  function SelectHintsHandle(data: HintsData, apps: seq<AppHints>, search: Search, removeEmojis: string -> string)
    : (r: HintsData)
    ensures r.appName != "" && r.hints != [] && r.wmClass == data.wmClass
    ensures GetAppHints(apps, data.wmClass).None? ==> r == ReplaceIfUnknown(data, removeEmojis)
    ensures GetAppHints(apps, data.wmClass).Some? ==> r.appWmClassRegex == GetAppHints(apps, data.wmClass).value.wmClass
  {
    ReplaceIfUnknown(SelectFields(data, apps, data.contextWmNameRegex, search), removeEmojis)
  }

  /** The handler as its documentation describes it: the contexts are
      searched in the window name. */
  function SelectHintsHandleByWmName(data: HintsData, apps: seq<AppHints>, search: Search, removeEmojis: string -> string)
    : (r: HintsData)
    ensures r.appName != "" && r.hints != [] && r.wmClass == data.wmClass
    ensures GetAppHints(apps, data.wmClass).None? ==> r == ReplaceIfUnknown(data, removeEmojis)
    ensures GetAppHints(apps, data.wmClass).Some? ==> r.appWmClassRegex == GetAppHints(apps, data.wmClass).value.wmClass
  {
    ReplaceIfUnknown(SelectFields(data, apps, data.wmName, search), removeEmojis)
  }

  /** The corrected handler shows the hints of the first context of the
      application whose pattern matches the window name. */
  lemma SelectByWmNameShowsContext(data: HintsData, apps: seq<AppHints>, search: Search, removeEmojis: string -> string)
    requires GetAppHints(apps, data.wmClass).Some?
    requires GetAppContextHints(GetAppHints(apps, data.wmClass).value.contexts, data.wmName, search).Some?
    requires GetAppContextHints(GetAppHints(apps, data.wmClass).value.contexts, data.wmName, search).value.hints != []
    ensures var ctx := GetAppContextHints(GetAppHints(apps, data.wmClass).value.contexts, data.wmName, search).value;
            var r := SelectHintsHandleByWmName(data, apps, search, removeEmojis);
            && search(ctx.wmNameRegex, data.wmName, false)
            && r.hints == ctx.hints && r.contextName == ctx.contextName && r.contextWmNameRegex == ctx.wmNameRegex
  {
  }

  /** As written, on fresh data (`context_wm_name_regex` still empty) a
      context whose pattern matches the window name but not the empty text is
      never chosen: the window's properties are shown instead of its hints. */
  lemma SelectIgnoresWindowName(data: HintsData, app: AppHints, ctx: ContextHints, search: Search,
                                removeEmojis: string -> string)
    requires data.contextWmNameRegex == "" && data.hints == []
    requires Lower(app.wmClass) == Lower(data.wmClass) && app.contexts == [ctx]
    requires search(ctx.wmNameRegex, data.wmName, false) && !search(ctx.wmNameRegex, "", false)
    requires ctx.hints != [] && ctx.contextName != NoHints
    ensures SelectHintsHandle(data, [app], search, removeEmojis).contextName == NoHints
    ensures SelectHintsHandleByWmName(data, [app], search, removeEmojis).contextName == ctx.contextName
    ensures SelectHintsHandleByWmName(data, [app], search, removeEmojis).hints == ctx.hints
  {
    assert GetAppHints([app], data.wmClass) == Some(app);
    assert GetAppContextHints(app.contexts, "", search).None?;
    assert GetAppContextHints(app.contexts, data.wmName, search) == Some(ctx);
  }

  // ---------------------------------------------------------------------
  // `load_hints_handler.py`: an index of applications, one JSON file each.

  datatype IndexEntry = IndexEntry(name: string, wmClass: string, json: string)
  datatype Context = Context(context: string, wmName: string, hints: Groups)

  function ClassMatches(wmClass: string, search: Search): IndexEntry -> bool {
    (e: IndexEntry) => search(e.wmClass, wmClass, false)
  }

  function NameMatches(wmName: string, search: Search): Context -> bool {
    (c: Context) => search(c.wmName, wmName, false)
  }

  /** `_get_app`: the first index entry whose class pattern is found in the
      window class, case-sensitively. */
  function GetApp(index: seq<IndexEntry>, wmClass: string, search: Search): (r: Option<IndexEntry>)
    ensures r.None? <==> forall j :: 0 <= j < |index| ==> !search(index[j].wmClass, wmClass, false)
    ensures r.Some? ==> exists j :: 0 <= j < |index| && r.value == index[j] && search(index[j].wmClass, wmClass, false)
                                    && forall i :: 0 <= i < j ==> !search(index[i].wmClass, wmClass, false)
  {
    var r := FirstWhere(index, ClassMatches(wmClass, search));
    assert forall j :: 0 <= j < |index| ==>
      (ClassMatches(wmClass, search)(index[j]) <==> search(index[j].wmClass, wmClass, false));
    r
  }

  /** `_get_context_hints`: the first context whose name pattern is found in
      the window name, case-sensitively. */
  function GetContextHints(wmName: string, contexts: seq<Context>, search: Search): (r: Option<Context>)
    ensures r.None? <==> forall j :: 0 <= j < |contexts| ==> !search(contexts[j].wmName, wmName, false)
    ensures r.Some? ==> exists j :: 0 <= j < |contexts| && r.value == contexts[j] && search(contexts[j].wmName, wmName, false)
                                    && forall i :: 0 <= i < j ==> !search(contexts[i].wmName, wmName, false)
  {
    var r := FirstWhere(contexts, NameMatches(wmName, search));
    assert forall j :: 0 <= j < |contexts| ==>
      (NameMatches(wmName, search)(contexts[j]) <==> search(contexts[j].wmName, wmName, false));
    r
  }

  /** `LoadHintsHandler.handle`.  `loadContexts` stands for reading the
      application's JSON file. */
  function LoadHintsHandle(data: HintsData, index: seq<IndexEntry>, loadContexts: string -> seq<Context>,
                           search: Search, removeEmojis: string -> string): (r: HintsData)
    ensures r.appName != "" && r.hints != [] && r.wmClass == data.wmClass
    ensures GetApp(index, data.wmClass, search).None? ==> r == ReplaceIfUnknown(data, removeEmojis)
    ensures GetApp(index, data.wmClass, search).Some? ==>
              var app := GetApp(index, data.wmClass, search).value;
              var ctx := GetContextHints(data.wmName, loadContexts(app.json), search);
              && r.appWmClassRegex == app.wmClass
              && (app.name != "" ==> r.appName == app.name)
              && (ctx.None? ==> r == ReplaceIfUnknown(data.(appName := app.name, appWmClassRegex := app.wmClass), removeEmojis))
              && (ctx.Some? ==> r.contextWmNameRegex == ctx.value.wmName)
              && (ctx.Some? && ctx.value.hints != [] ==>
                    r.hints == ctx.value.hints && r.contextName == ctx.value.context && r.wmName == data.wmName)
  {
    match GetApp(index, data.wmClass, search)
    case None => ReplaceIfUnknown(data, removeEmojis)
    case Some(app) =>
      var withApp := data.(appName := app.name, appWmClassRegex := app.wmClass);
      match GetContextHints(data.wmName, loadContexts(app.json), search)
      case None => ReplaceIfUnknown(withApp, removeEmojis)
      case Some(ctx) =>
        ReplaceIfUnknown(withApp.(hints := ctx.hints, contextWmNameRegex := ctx.wmName, contextName := ctx.context),
                         removeEmojis)
  }

  /** Running the handler on its own output, with the same window, index and
      files, changes nothing once hints were found: the lookups depend only on
      the window, which the handler does not change. */
  lemma LoadHintsHandleStable(data: HintsData, index: seq<IndexEntry>, loadContexts: string -> seq<Context>,
                              search: Search, removeEmojis: string -> string)
    requires GetApp(index, data.wmClass, search).Some?
    requires var app := GetApp(index, data.wmClass, search).value;
             var ctx := GetContextHints(data.wmName, loadContexts(app.json), search);
             ctx.Some? && ctx.value.hints != [] && app.name != ""
    ensures var once := LoadHintsHandle(data, index, loadContexts, search, removeEmojis);
            LoadHintsHandle(once, index, loadContexts, search, removeEmojis) == once
  {
  }
}
