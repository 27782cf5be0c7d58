/**
 * generate_dashboard_html.py: read the credentials, list every workbook of
 * the site owned by mor.h, and record, for each workbook whose first view
 * has a content URL, its name, project, update time and viewer URL.
 */
module DashboardHtml {
  import opened Wrappers
  import opened Api
  import opened Pagination
  import Views

  // ---------------------------------------------------------------- credentials

  datatype Credentials = Credentials(server: Option<string>, siteName: string,
                                     patName: Option<string>, patValue: Option<string>)

  const NO_CREDENTIALS := "No credentials found. Set environment variables or create mcp.json"

  /** `d.get(k)` on a dictionary of strings. */
  function Lookup(d: map<string, string>, k: string): Option<string> {
    if k in d then Some(d[k]) else None
  }

  /** `os.environ.get('TABLEAU_SERVER')` is truthy. */
  predicate EnvironmentNamesServer(env: map<string, string>) {
    Truthy(Lookup(env, "TABLEAU_SERVER"))
  }

  /** The `tableau` section of mcp.json, `{}` when absent. */
  function TableauSection(config: map<string, map<string, string>>): map<string, string> {
    if "tableau" in config then config["tableau"] else map[]
  }

  /**
   * `get_credentials`. `env` is the process environment; `mcpJson` is the
   * parsed mcp.json, or None when the file does not exist.
   */
  function GetCredentials(env: map<string, string>, mcpJson: Option<map<string, map<string, string>>>)
    : (r: Result<Credentials, string>)
    ensures r.Failure? <==> !EnvironmentNamesServer(env) && mcpJson.None?
    ensures r.Failure? ==> r.error == NO_CREDENTIALS
    ensures EnvironmentNamesServer(env) ==> r.Success? && r.value.server == Some(env["TABLEAU_SERVER"])
  {
    if EnvironmentNamesServer(env) then
      Success(Credentials(Lookup(env, "TABLEAU_SERVER"), Lookup(env, "TABLEAU_SITE_NAME").GetOr(""),
                          Lookup(env, "TABLEAU_PAT_NAME"), Lookup(env, "TABLEAU_PAT_VALUE")))
    else match mcpJson
      case None => Failure(NO_CREDENTIALS)
      case Some(config) =>
        var tableau := TableauSection(config);
        Success(Credentials(Lookup(tableau, "SERVER"), Lookup(tableau, "SITE_NAME").GetOr(""),
                            Lookup(tableau, "PAT_NAME"), Lookup(tableau, "PAT_VALUE")))
  }

  /** When the environment names a server, mcp.json is never consulted. */
  lemma EnvironmentTakesPrecedence(env: map<string, string>,
                                   a: Option<map<string, map<string, string>>>,
                                   b: Option<map<string, map<string, string>>>)
    requires EnvironmentNamesServer(env)
    ensures GetCredentials(env, a) == GetCredentials(env, b)
    ensures GetCredentials(env, a).value.server == Some(env["TABLEAU_SERVER"])
    ensures GetCredentials(env, a).value.siteName == Lookup(env, "TABLEAU_SITE_NAME").GetOr("")
    ensures GetCredentials(env, a).value.patName == Lookup(env, "TABLEAU_PAT_NAME")
    ensures GetCredentials(env, a).value.patValue == Lookup(env, "TABLEAU_PAT_VALUE")
  {
  }

  /** An empty TABLEAU_SERVER counts as unset: the answer is as if it were absent. */
  lemma EmptyServerVariableIgnored(env: map<string, string>, mcpJson: Option<map<string, map<string, string>>>)
    requires "TABLEAU_SERVER" in env && env["TABLEAU_SERVER"] == ""
    ensures GetCredentials(env, mcpJson) == GetCredentials(env - {"TABLEAU_SERVER"}, mcpJson)
  {
  }

  /**
   * Without a server in the environment, every field comes from mcp.json's
   * `tableau` section, the site name defaulting to the empty string.
   */
  lemma ConfigurationFallback(env: map<string, string>, config: map<string, map<string, string>>)
    requires !EnvironmentNamesServer(env)
    ensures GetCredentials(env, Some(config)).Success?
    ensures var c := GetCredentials(env, Some(config)).value;
      && c.server == Lookup(TableauSection(config), "SERVER")
      && c.patName == Lookup(TableauSection(config), "PAT_NAME")
      && c.patValue == Lookup(TableauSection(config), "PAT_VALUE")
      && c.siteName == Lookup(TableauSection(config), "SITE_NAME").GetOr("")
  {
  }

  // ------------------------------------------------------------ workbook listing

  const OWNER := "mor.h"

  /** The workbooks whose owner's name is `owner`, in order. */
  function OwnedBy(wbs: seq<RawWorkbook>, owner: string): (r: seq<RawWorkbook>)
    ensures |r| <= |wbs|
  {
    if wbs == [] then []
    else
      var last := wbs[|wbs| - 1];
      OwnedBy(wbs[..|wbs| - 1], owner) + (if last.ownerName == Some(owner) then [last] else [])
  }

  lemma {:induction false} OwnedByConcat(a: seq<RawWorkbook>, b: seq<RawWorkbook>, owner: string)
    ensures OwnedBy(a + b, owner) == OwnedBy(a, owner) + OwnedBy(b, owner)
    decreases |b|
  {
    if b == [] {
      assert a + b == a;
    } else {
      assert (a + b)[..|a + b| - 1] == a + b[..|b| - 1];
      OwnedByConcat(a, b[..|b| - 1], owner);
    }
  }

  /** The filter keeps exactly the listed workbooks of that owner. */
  lemma {:induction false} OwnedByMembers(wbs: seq<RawWorkbook>, owner: string)
    ensures forall wb :: wb in OwnedBy(wbs, owner) <==> wb in wbs && wb.ownerName == Some(owner)
  {
    if wbs != [] {
      OwnedByMembers(wbs[..|wbs| - 1], owner);
      assert wbs == wbs[..|wbs| - 1] + [wbs[|wbs| - 1]];
    }
  }

  /** The inner `for wb in workbooks` loop: the page's workbooks owned by mor.h, in order. */
  method KeepOwned(workbooks: seq<RawWorkbook>) returns (kept: seq<RawWorkbook>)
    ensures kept == OwnedBy(workbooks, OWNER)
  {
    kept := [];
    var j := 0;
    while j < |workbooks|
      invariant 0 <= j <= |workbooks|
      invariant kept == OwnedBy(workbooks[..j], OWNER)
    {
      assert workbooks[..j + 1][..j] == workbooks[..j];
      if workbooks[j].ownerName == Some(OWNER) {
        kept := kept + [workbooks[j]];
      }
      j := j + 1;
    }
    assert workbooks[..|workbooks|] == workbooks;
  }

  /** What `get_all_workbooks` yields: mor.h's workbooks of every page read, or the failing status. */
  ghost function OwnersWorkbooks(pages: nat -> PageReply<RawWorkbook>): Fetched<RawWorkbook>
    requires Terminates(pages)
  {
    match Collection(pages)
    case Failed(status) => Failed(status)
    case Collected(items) => Collected(OwnedBy(items, OWNER))
  }

  /**
   * `get_all_workbooks`: the paging loop over the unfiltered listing; the
   * stopping test looks at the whole page, the owner filter only at what is kept.
   */
  method GetAllWorkbooks(pages: nat -> PageReply<RawWorkbook>) returns (r: Fetched<RawWorkbook>)
    requires Terminates(pages)
    ensures r == OwnersWorkbooks(pages)
  {
    ghost var bound :| 1 <= bound && StopsAt(pages(bound), bound);
    var allWorkbooks: seq<RawWorkbook> := [];
    var pageNumber: nat := 1;
    while true
      invariant 1 <= pageNumber <= bound
      invariant forall k :: 1 <= k < pageNumber ==> !StopsAt(pages(k), k)
      invariant allWorkbooks == OwnedBy(Gathered(pages, 1, pageNumber), OWNER)
      decreases bound - pageNumber
    {
      var data := pages(pageNumber);
      if data.PageError? {
        StopsFirstAt(pages, pageNumber);
        return Failed(data.status);
      }
      var workbooks := data.items;
      if |workbooks| == 0 {
        StopsFirstAt(pages, pageNumber);
        assert Gathered(pages, 1, pageNumber + 1) == Gathered(pages, 1, pageNumber);
        return Collected(allWorkbooks);
      }
      var kept := KeepOwned(workbooks);
      allWorkbooks := allWorkbooks + kept;
      OwnedByConcat(Gathered(pages, 1, pageNumber), workbooks, OWNER);
      var totalAvailable := data.Total();
      if pageNumber * PAGE_SIZE >= totalAvailable {
        StopsFirstAt(pages, pageNumber);
        return Collected(allWorkbooks);
      }
      pageNumber := pageNumber + 1;
    }
  }

  /** Every workbook returned belongs to mor.h. */
  lemma OnlyOwnersWorkbooks(pages: nat -> PageReply<RawWorkbook>)
    requires Terminates(pages)
    ensures OwnersWorkbooks(pages).Collected? ==>
      forall wb :: wb in OwnersWorkbooks(pages).items ==> wb.ownerName == Some(OWNER)
  {
    if Collection(pages).Collected? {
      OwnedByMembers(Collection(pages).items, OWNER);
    }
  }

  // ------------------------------------------------------------------ view URLs

  /**
   * `get_first_view_url`: the viewer URL of the first listed view, or None when
   * the request fails, lists no view, or the first view has no content URL.
   */
  function GetFirstViewUrl(server: string, reply: Reply<RawView>): (r: Option<string>)
    ensures r.Some? <==> reply.Received? && |reply.items| > 0 && Views.HasContentUrl(reply.items[0])
    ensures r.Some? ==> r.value == ViewUrl(server, ContentUrl(reply.items[0]))
    ensures r.Some? ==> |r.value| >= |server| + |VIEWS_PATH| && r.value[..|server| + |VIEWS_PATH|] == server + VIEWS_PATH
  {
    match reply
    case FetchFailed => None
    case Received(views) =>
      if |views| > 0 && ContentUrl(views[0]) != "" then Some(ViewUrl(server, ContentUrl(views[0])))
      else None
  }

  /** Only the first listed view matters; the ones after it are never looked at. */
  lemma FirstViewUrlIgnoresLaterViews(server: string, first: RawView, rest: seq<RawView>)
    ensures GetFirstViewUrl(server, Received([first] + rest)) == GetFirstViewUrl(server, Received([first]))
  {
  }

  /**
   * The URL this script records is one of the view URLs the enrichment script
   * builds for the same reply, though not necessarily its first (most viewed) one.
   */
  lemma FirstViewUrlAmongEnrichedViews(server: string, reply: Reply<RawView>)
    requires GetFirstViewUrl(server, reply).Some?
    ensures exists v :: v in Views.NormalisedViews(server, reply.ItemsOrEmpty())
                        && v.url == GetFirstViewUrl(server, reply).value
  {
    var raws := reply.ItemsOrEmpty();
    Views.NormalisedViewsAreTheUsableOnes(server, raws);
    assert raws[0] in raws;
    assert Views.MakeView(server, raws[0]) in Views.NormalisedViews(server, raws);
  }

  // ------------------------------------------------------------------- records

  datatype DashboardEntry = DashboardEntry(name: string, project: string, updated: string, url: string)

  function EntryFor(wb: RawWorkbook, url: string): DashboardEntry {
    DashboardEntry(wb.name.GetOr("Unnamed"), wb.projectName.GetOr("Unknown"), wb.updatedAt.GetOr(""), url)
  }

  /** The records the loop appends, in workbook order. */
  function Entries(server: string, wbs: seq<RawWorkbook>, viewsOf: Option<string> -> Reply<RawView>)
    : (r: seq<DashboardEntry>)
    ensures |r| <= |wbs|
  {
    if wbs == [] then []
    else
      var wb := wbs[|wbs| - 1];
      var url := GetFirstViewUrl(server, viewsOf(wb.id));
      Entries(server, wbs[..|wbs| - 1], viewsOf) + (if Truthy(url) then [EntryFor(wb, url.value)] else [])
  }

  /** The number of workbooks for which no URL was found. */
  function WithoutUrl(server: string, wbs: seq<RawWorkbook>, viewsOf: Option<string> -> Reply<RawView>): nat {
    if wbs == [] then 0
    else
      var wb := wbs[|wbs| - 1];
      WithoutUrl(server, wbs[..|wbs| - 1], viewsOf)
      + (if GetFirstViewUrl(server, viewsOf(wb.id)).None? then 1 else 0)
  }

  /**
   * The loop over the workbooks (lines after "Getting correct view URLs"):
   * the records, and the count reported as "workbooks have no views".
   */
  method AssembleDashboardData(server: string, workbooks: seq<RawWorkbook>,
                               viewsOf: Option<string> -> Reply<RawView>)
    returns (dashboardData: seq<DashboardEntry>, withoutViews: int)
    ensures dashboardData == Entries(server, workbooks, viewsOf)
    ensures withoutViews == WithoutUrl(server, workbooks, viewsOf)
  {
    dashboardData := [];
    var i := 0;
    while i < |workbooks|
      invariant 0 <= i <= |workbooks|
      invariant dashboardData == Entries(server, workbooks[..i], viewsOf)
    {
      var wb := workbooks[i];
      assert workbooks[..i + 1][..i] == workbooks[..i];
      var url := GetFirstViewUrl(server, viewsOf(wb.id));
      if Truthy(url) {
        dashboardData := dashboardData + [EntryFor(wb, url.value)];
      }
      i := i + 1;
    }
    assert workbooks[..|workbooks|] == workbooks;
    withoutViews := |workbooks| - |dashboardData|;
    EntriesAndMissingAddUp(server, workbooks, viewsOf);
  }

  /** Every workbook either yields a record or is counted as having no views, never both. */
  lemma {:induction false} EntriesAndMissingAddUp(server: string, wbs: seq<RawWorkbook>,
                                                  viewsOf: Option<string> -> Reply<RawView>)
    ensures |Entries(server, wbs, viewsOf)| + WithoutUrl(server, wbs, viewsOf) == |wbs|
  {
    if wbs != [] {
      EntriesAndMissingAddUp(server, wbs[..|wbs| - 1], viewsOf);
      var url := GetFirstViewUrl(server, viewsOf(wbs[|wbs| - 1].id));
      assert url.Some? ==> Truthy(url);
    }
  }

  /** A record exists exactly for each workbook whose first view has a URL, carrying that URL. */
  lemma {:induction false} EntriesMembers(server: string, wbs: seq<RawWorkbook>,
                                          viewsOf: Option<string> -> Reply<RawView>, e: DashboardEntry)
    ensures e in Entries(server, wbs, viewsOf) <==>
      exists wb :: wb in wbs && GetFirstViewUrl(server, viewsOf(wb.id)).Some?
                   && e == EntryFor(wb, GetFirstViewUrl(server, viewsOf(wb.id)).value)
  {
    if wbs != [] {
      var init := wbs[..|wbs| - 1];
      var last := wbs[|wbs| - 1];
      EntriesMembers(server, init, viewsOf, e);
      assert wbs == init + [last];
      var url := GetFirstViewUrl(server, viewsOf(last.id));
      assert url.Some? ==> Truthy(url);
      if e !in Entries(server, wbs, viewsOf) {
        forall wb | wb in wbs && GetFirstViewUrl(server, viewsOf(wb.id)).Some?
          ensures e != EntryFor(wb, GetFirstViewUrl(server, viewsOf(wb.id)).value)
        {
          if wb != last {
            assert wb in init;
          }
        }
      }
    }
  }

  /** Lines 113-132 after sign-in: list mor.h's workbooks, then build their records. */
  method GenerateDashboardData(server: string, pages: nat -> PageReply<RawWorkbook>,
                               viewsOf: Option<string> -> Reply<RawView>)
    returns (r: Result<seq<DashboardEntry>, int>, withoutViews: int)
    requires Terminates(pages)
    ensures OwnersWorkbooks(pages).Failed? ==> r == Failure(OwnersWorkbooks(pages).status)
    ensures OwnersWorkbooks(pages).Collected? ==>
      && r == Success(Entries(server, OwnersWorkbooks(pages).items, viewsOf))
      && withoutViews == WithoutUrl(server, OwnersWorkbooks(pages).items, viewsOf)
  {
    var workbooks := GetAllWorkbooks(pages);
    if workbooks.Failed? {
      return Failure(workbooks.status), 0;
    }
    var dashboardData;
    dashboardData, withoutViews := AssembleDashboardData(server, workbooks.items, viewsOf);
    r := Success(dashboardData);
  }
}
