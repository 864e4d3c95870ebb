/** The two predecessor packages: `pyshortcuts` (an index of applications,
    one JSON file of contexts each, chosen by window class and window name)
    and `pyshortcut` (an index chosen by window title alone).  The index
    entries are those of the hint handlers; a context keeps its groups under
    `shortcuts`. */
module Shortcuts {
  import opened Wrappers
  import opened Seqs
  import opened Matching
  import opened Hints
  import opened Handlers

  /** Subscripting the `None` an unsuccessful lookup returns. */
  const NoneSubscript := TypeError("'NoneType' object is not subscriptable")

  // ---------------------------------------------------------------------
  // `pyshortcuts/shortcuts.py`.

  /** A context of a `pyshortcuts` application file: its shortcut groups are
      stored under `shortcuts`, where keyhint's files use `hints`. */
  datatype ShortcutContext = ShortcutContext(context: string, wmName: string, shortcuts: Groups)

  function ShortcutNameMatches(wmName: string, search: Search): ShortcutContext -> bool {
    (c: ShortcutContext) => search(c.wmName, wmName, false)
  }

  /** `_get_context_shortcuts`: the first context whose name pattern is found
      in the window name, case-sensitively. */
  function GetContextShortcuts(wmName: string, contexts: seq<ShortcutContext>, search: Search): (r: Option<ShortcutContext>)
    ensures r.None? <==> forall j :: 0 <= j < |contexts| ==> !search(contexts[j].wmName, wmName, false)
    ensures r.Some? ==> exists j :: 0 <= j < |contexts| && r.value == contexts[j] && search(contexts[j].wmName, wmName, false)
                                    && forall i :: 0 <= i < j ==> !search(contexts[i].wmName, wmName, false)
  {
    var r := FirstWhere(contexts, ShortcutNameMatches(wmName, search));
    assert forall j :: 0 <= j < |contexts| ==>
      (ShortcutNameMatches(wmName, search)(contexts[j]) <==> search(contexts[j].wmName, wmName, false));
    r
  }

  /** `Shortcuts.get_shortcuts`: the application is chosen by window class,
      its file is read (`loadContexts`), and the context is chosen in it by
      window name.  With no application the file name is read from `None`,
      which raises `TypeError`; with no context the result is `None`. */
  function GetShortcuts(wmName: string, wmClass: string, index: seq<IndexEntry>,
                        loadContexts: string -> seq<ShortcutContext>, search: Search)
      : (r: Result<Option<ShortcutContext>, PyError>)
    ensures r.Failure? <==> GetApp(index, wmClass, search).None?
    ensures r.Failure? ==> r.error == NoneSubscript
    ensures r.Success? ==>
              r.value == GetContextShortcuts(wmName, loadContexts(GetApp(index, wmClass, search).value.json), search)
  {
    match GetApp(index, wmClass, search)
    case None => Failure(NoneSubscript)
    case Some(app) => Success(GetContextShortcuts(wmName, loadContexts(app.json), search))
  }

  /** A context returned comes from the file of the first application whose
      class pattern is found in the window class, and it is the first context
      there whose name pattern is found in the window name. */
  lemma GetShortcutsChosen(wmName: string, wmClass: string, index: seq<IndexEntry>,
                           loadContexts: string -> seq<ShortcutContext>, search: Search)
    requires GetShortcuts(wmName, wmClass, index, loadContexts, search).Success?
    requires GetShortcuts(wmName, wmClass, index, loadContexts, search).value.Some?
    ensures exists a :: 0 <= a < |index| && search(index[a].wmClass, wmClass, false)
              && (forall i :: 0 <= i < a ==> !search(index[i].wmClass, wmClass, false))
              && var contexts := loadContexts(index[a].json);
                 exists c :: 0 <= c < |contexts|
                   && GetShortcuts(wmName, wmClass, index, loadContexts, search).value.value == contexts[c]
                   && search(contexts[c].wmName, wmName, false)
                   && forall i :: 0 <= i < c ==> !search(contexts[i].wmName, wmName, false)
  {
    var app := GetApp(index, wmClass, search).value;
    var a :| 0 <= a < |index| && app == index[a] && search(index[a].wmClass, wmClass, false)
             && forall i :: 0 <= i < a ==> !search(index[i].wmClass, wmClass, false);
  }

  // ---------------------------------------------------------------------
  // `pyshortcuts/handlers/load_shortcuts_handler.py`.

  /** The fields of `ShortCutsData` the handler reads and writes. */
  datatype ShortcutsData = ShortcutsData(
    wmClass: string,
    wmName: string,
    appName: string,
    appWmClassRegex: string,
    contextName: string,
    contextWmNameRegex: string,
    shortcuts: Groups)

  /** `LoadShortcutsHandler.handle`: both lookups are dereferenced without a
      check, so a window without an application or without a context raises
      `TypeError`; otherwise the application's and the context's fields are
      copied into the request. */
  function LoadShortcutsHandle(request: ShortcutsData, index: seq<IndexEntry>, loadContexts: string -> seq<ShortcutContext>,
                               search: Search): (r: Result<ShortcutsData, PyError>)
    ensures r.Success? <==> GetShortcuts(request.wmName, request.wmClass, index, loadContexts, search).Success?
                            && GetShortcuts(request.wmName, request.wmClass, index, loadContexts, search).value.Some?
    ensures r.Failure? ==> r.error == NoneSubscript
    ensures r.Success? ==>
              var app := GetApp(index, request.wmClass, search).value;
              var ctx := GetShortcuts(request.wmName, request.wmClass, index, loadContexts, search).value.value;
              r.value == request.(appName := app.name, appWmClassRegex := app.wmClass,
                                  shortcuts := ctx.shortcuts, contextWmNameRegex := ctx.wmName, contextName := ctx.context)
  {
    match GetApp(index, request.wmClass, search)
    case None => Failure(NoneSubscript)
    case Some(app) =>
      var withApp := request.(appName := app.name, appWmClassRegex := app.wmClass);
      match GetContextShortcuts(request.wmName, loadContexts(app.json), search)
      case None => Failure(NoneSubscript)
      case Some(ctx) =>
        Success(withApp.(shortcuts := ctx.shortcuts, contextWmNameRegex := ctx.wmName, contextName := ctx.context))
  }

  /** Where the hint handler falls back to the window's properties because
      no application matched, the shortcut handler fails instead. */
  lemma UnknownAppFails(request: ShortcutsData, index: seq<IndexEntry>, loadContexts: string -> seq<ShortcutContext>,
                        search: Search)
    requires forall j :: 0 <= j < |index| ==> !search(index[j].wmClass, request.wmClass, false)
    ensures LoadShortcutsHandle(request, index, loadContexts, search) == Failure(NoneSubscript)
  {
  }

  // ---------------------------------------------------------------------
  // `pyshortcut/shortcuts.py`.

  /** An entry of the older index: an application chosen by a pattern on the
      window title. */
  datatype TitleEntry = TitleEntry(name: string, regex: string, json: string)

  function TitleMatches(windowTitle: string, search: Search): TitleEntry -> bool {
    (e: TitleEntry) => search(e.regex, windowTitle, false)
  }

  /** `Shortcuts.set_application`: the loop does not stop at a match, so every
      matching entry is taken in turn and its shortcuts read (`load`); the last
      match wins, and with no match the previous application and shortcuts
      stay. */
  method SetApplication<S>(index: seq<TitleEntry>, windowTitle: string, search: Search, load: string -> S,
                           app: Option<TitleEntry>, shortcuts: S)
      returns (app': Option<TitleEntry>, shortcuts': S)
    ensures LastMatch(index, TitleMatches(windowTitle, search)).None? ==> app' == app && shortcuts' == shortcuts
    ensures LastMatch(index, TitleMatches(windowTitle, search)).Some? ==>
              var j := LastMatch(index, TitleMatches(windowTitle, search)).value;
              app' == Some(index[j]) && shortcuts' == load(index[j].json)
    ensures app' != app ==> app'.Some? && search(app'.value.regex, windowTitle, false)
  {
    app', shortcuts' := app, shortcuts;
    var i := 0;
    while i < |index|
      invariant 0 <= i <= |index|
      invariant LastMatch(index[..i], TitleMatches(windowTitle, search)).None? ==> app' == app && shortcuts' == shortcuts
      invariant LastMatch(index[..i], TitleMatches(windowTitle, search)).Some? ==>
                  var j := LastMatch(index[..i], TitleMatches(windowTitle, search)).value;
                  app' == Some(index[j]) && shortcuts' == load(index[j].json)
    {
      assert index[..i + 1][..i] == index[..i];
      if search(index[i].regex, windowTitle, false) {
        app' := Some(index[i]);
        shortcuts' := load(index[i].json);
      }
      i := i + 1;
    }
    assert index[..i] == index;
  }

  /** Of two matching entries the older package keeps the later one, where
      a first-match lookup would keep the earlier. */
  lemma LastMatchWins(index: seq<TitleEntry>, windowTitle: string, search: Search, i: nat, j: nat)
    requires i < j < |index|
    requires search(index[i].regex, windowTitle, false) && search(index[j].regex, windowTitle, false)
    ensures FindFirst(index, TitleMatches(windowTitle, search)).Some?
    ensures LastMatch(index, TitleMatches(windowTitle, search)).Some?
    ensures FindFirst(index, TitleMatches(windowTitle, search)).value <= i
    ensures j <= LastMatch(index, TitleMatches(windowTitle, search)).value
  {
    assert TitleMatches(windowTitle, search)(index[i]);
    assert TitleMatches(windowTitle, search)(index[j]);
  }
}
