# Tableau dashboard catalogue: the data shaping between the REST calls

Two Python scripts build a catalogue of Tableau dashboards from the Tableau
REST API.

- `fetch_enhanced_dashboard_data.py` does the following:
  - It pages through the workbooks of three production projects (ROC Protocol, Triage, ROC) and four playground projects (Playground, Mor, Guy, Yahel).
  - It enriches every workbook with the following:
    - its views, each with a viewer URL, sorted most viewed first;
    - its de-duplicated data sources;
    - its tags;
    - a description, either its own or a generated keyword sentence;
    - its sheet and view totals.
  - It keeps the workbooks that have at least one view, and drops guy.d's playground workbooks without "roc" in the name.
  - It sorts each category newest first.
- `generate_dashboard_html.py` does the following:
  - It reads credentials, from the environment first and then from mcp.json.
  - It pages through the site's workbooks, keeping those owned by mor.h.
  - It records each one whose first view has a content URL.

The model treats every server response as input data:
- A listing is a function from page number to a page reply: its items and `totalAvailable`, or an HTTP error status.
- A per-workbook request for views or connections is a `Reply`, which is either the items or a failure. The scripts catch such failures and carry on with an empty list, or with `None` for the first-view URL.
- Both scripts stop paging at the first page that meets any of these conditions:
  - it fails;
  - it comes back empty;
  - `page * 100 >= totalAvailable`.

The source loops until such a page comes. The model therefore requires `Pagination.Terminates`, which says that such a page exists. The loops are proved against `Pagination.Collection`, the concatenation of the pages up to the first stopping page.

The source has no classes. All of its state is local lists and sets that loops append to. So every loop is a Dafny `method` with a `while` loop over local `seq` and `set` variables. Each method is proved equal to a specification function defined on prefixes of the input. The properties are lemmas about those functions. Python's stable `list.sort(reverse=True)` is the function `Sorting.SortDesc`. The lemmas about it prove the following:
- it returns a permutation of its input;
- the result is sorted;
- it is stable.

Modules:
- `Wrappers`: the `Option` and `Result` types.
- `Text`: the Python string operations the scripts use:
  - `str.lower`;
  - `in` on strings;
  - `str.replace`;
  - `str.strip`;
  - `<` on strings.
- `Sorting`: `sort(key=…, reverse=True)`.
- `Api`: the raw JSON records and the viewer-URL format shared by both scripts.
- `Pagination`: the paging rule.
- `Views`, `DataSources`, `Descriptions` and `Enhancement`: `get_all_views_for_workbook`, `get_data_sources_for_workbook`, `generate_description` and `enhance_workbook_data`.
- `EnhancedFetch`: the project loops and the final selection of the fetch script.
- `DashboardHtml`: generate_dashboard_html.py.

Two behaviours of the code are easy to misread:
- **Connection de-duplication** (fetch_enhanced_dashboard_data.py:181-194). A connection whose database name was already seen is not simply dropped. The `elif` branch still adds an entry named by the connection's server address, provided that address is non-empty and unseen. `DataSources.SeenDatabaseUnseenServer` proves this after any earlier connections.
- **Keyword order** (fetch_enhanced_dashboard_data.py:104-109). "hourly" is tested before "alert", so a name such as "Hourly Alerts" gets the hourly sentence. `Descriptions.HourlyAlertsExample` proves this.

## Model

| member | source | states |
|---|---|---|
| Pagination.StopsFirstAt | fetch_enhanced_dashboard_data.py:52-60 | a page that stops the loop with none before it is the last page read: its error status is the result, or else the items of the pages up to it |
| Pagination.FirstStop | fetch_enhanced_dashboard_data.py:40-61 | the page that ends the loop is the first one that fails, is empty, or reaches `totalAvailable` |
| Pagination.PagesForTotal | fetch_enhanced_dashboard_data.py:57-61 | a server reporting a total T ≥ 1 and answering every needed page with items is asked for exactly ceil(T/100) pages |
| Pagination.TwoRequestsFor150 | fetch_enhanced_dashboard_data.py:36-63 | with totalAvailable 150 and pages of 100 and 50 items, two pages are requested and the 150 items are returned in page order |
| Pagination.EmptyFirstPage | fetch_enhanced_dashboard_data.py:51-53 | an empty first page ends the loop at once with no workbooks |
| EnhancedFetch.GetWorkbooksByProjectName | fetch_enhanced_dashboard_data.py:34-63 | the result is the items of pages 1 to the first stopping page, in page order, or that page's error status; the pages requested are exactly 1 to that page |
| EnhancedFetch.FetchProjects | fetch_enhanced_dashboard_data.py:271-276 | the workbooks of the projects, concatenated in project order; a failing listing aborts with its status |
| EnhancedFetch.GatherFailsFromPrefix | fetch_enhanced_dashboard_data.py:272-275 | once one project's listing fails, the collection of all projects fails with that status |
| Api.ViewUrl | fetch_enhanced_dashboard_data.py:79-87 | a view URL is the server, then `/#/views/`, then the content URL with every `/sheets/` replaced by `/` |
| Text.ReplaceWithoutOccurrence | fetch_enhanced_dashboard_data.py:79 | `replace` leaves a string without an occurrence of the pattern unchanged |
| Text.ReplaceAtFirstOccurrence | fetch_enhanced_dashboard_data.py:79 | `replace` rewrites the leftmost occurrence and continues after it, so occurrences are replaced left to right without overlap |
| Views.ViewCount | fetch_enhanced_dashboard_data.py:81-82 | the view count is 0 when `usage` is not a dictionary |
| Views.GetAllViewsForWorkbook | fetch_enhanced_dashboard_data.py:65-97 | the views are the listed views that have a content URL, in the stable most-viewed-first order; a failed request gives none |
| Views.UsableViewsMembers | fetch_enhanced_dashboard_data.py:76-89 | a view is appended exactly when it is built from a listed view with a non-empty content URL |
| Views.NormalisedViewsAreTheUsableOnes | fetch_enhanced_dashboard_data.py:75-92 | the output is never longer than the listing; every listed view with a content URL appears; every output view comes from one |
| Views.ViewUrlsFromContentUrls | fetch_enhanced_dashboard_data.py:77-87 | every output URL is the viewer URL of some listed view's non-empty content URL |
| Views.ViewsByDescendingCount | fetch_enhanced_dashboard_data.py:92 | the views are in non-increasing view-count order |
| Views.EqualCountsKeepOrder | fetch_enhanced_dashboard_data.py:92 | views with equal counts keep their listing order |
| Views.SortsExampleCounts | fetch_enhanced_dashboard_data.py:91-92 | views with counts 3, 0, 10 come out as 10, 3, 0 |
| Sorting.SortDesc | fetch_enhanced_dashboard_data.py:92 | the sort returns a permutation of its input |
| Sorting.SortDescSorted | fetch_enhanced_dashboard_data.py:323-324 | for a strict weak order on keys, no element ranks above one in front of it |
| Sorting.SortDescStable | fetch_enhanced_dashboard_data.py:323-324 | the elements with any one key keep their relative order |
| Text.Lower | fetch_enhanced_dashboard_data.py:101 | lower-casing keeps the length, leaves no capital letter, turns each capital into its small letter and keeps every other character in place |
| Descriptions.FirstMatch | fetch_enhanced_dashboard_data.py:104-151 | the chosen rule matches and no earlier rule does; no index means no rule matches |
| Descriptions.DescriptionOfFirstMatch | fetch_enhanced_dashboard_data.py:99-151 | the description is the sentence of the first rule, in the fixed order, whose keyword occurs in the lower-cased name |
| Descriptions.DescriptionWithoutKeyword | fetch_enhanced_dashboard_data.py:152-161 | with no keyword, ROC Protocol, Triage and ROC get their own sentences and any other project the generic one naming it |
| Descriptions.DescriptionRange | fetch_enhanced_dashboard_data.py:99-161 | every description is a rule sentence or the project fallback |
| Descriptions.HourlyComesFirst | fetch_enhanced_dashboard_data.py:104-109 | a name containing "hourly" gets the hourly sentence whatever else it contains |
| Descriptions.HourlyAlertsExample | fetch_enhanced_dashboard_data.py:101-105 | "Hourly Alerts" gets the hourly sentence |
| DataSources.GetDataSourcesForWorkbook | fetch_enhanced_dashboard_data.py:163-199 | the loop yields the de-duplicated list of the connections, keeping `seen` equal to the set of entry names as its invariant; a failed request gives none |
| DataSources.NamesDistinct | fetch_enhanced_dashboard_data.py:172-194 | entry names are pairwise distinct |
| DataSources.EntriesFollowConnections | fetch_enhanced_dashboard_data.py:174-194 | entries follow connection order, and each is named by its connection's non-empty database name or server address, with that connection's type and server |
| DataSources.EveryNameCovered | fetch_enhanced_dashboard_data.py:176-194 | every non-empty database name appears, and so does the server address of every connection without one |
| DataSources.SameDatabaseCollapses | fetch_enhanced_dashboard_data.py:181-187 | two connections to one database without a new server address give one entry, the first |
| DataSources.LaterDuplicateDropped | fetch_enhanced_dashboard_data.py:181-187 | after any connections, one whose database name and server address are each empty or already taken adds nothing |
| DataSources.PrefixStable | fetch_enhanced_dashboard_data.py:174-194 | later connections never change earlier entries: the entries of a prefix are a prefix of all the entries, so the first entry under a name wins |
| DataSources.SeenDatabaseUnseenServer | fetch_enhanced_dashboard_data.py:181-194 | after any connections, a connection whose database name was seen but whose non-empty server address was not adds exactly one entry, named by that address |
| DataSources.SeenDatabaseFallsBackToServer | fetch_enhanced_dashboard_data.py:188-194 | two connections to one database with different server addresses give the database entry and then the address entry |
| Enhancement.LabelsOf | fetch_enhanced_dashboard_data.py:224 | the label list is never longer than the tag list |
| Enhancement.LabelsOfConcat | fetch_enhanced_dashboard_data.py:224 | labels are taken tag by tag, in order |
| Enhancement.LabelsOfSingle | fetch_enhanced_dashboard_data.py:224 | a dictionary tag gives its label (default empty); any other tag gives nothing |
| Enhancement.TagLabels | fetch_enhanced_dashboard_data.py:219-226 | absent or non-dictionary `tags`, and an absent `tag`, give no labels; a single tag dictionary gives exactly its label (default empty); a list gives its dictionaries' labels |
| Text.Strip | fetch_enhanced_dashboard_data.py:231 | the result is a slice of the text with only whitespace outside it, and neither starts nor ends with whitespace, so exactly the surrounding whitespace is removed; it is empty exactly when the text is all whitespace |
| Text.StripKeepsTrimmedText | fetch_enhanced_dashboard_data.py:231 | text without surrounding whitespace is unchanged |
| Enhancement.NonBlankDescriptionTrimmed | fetch_enhanced_dashboard_data.py:231-233 | a description with a non-whitespace character is kept, stripped: the result equals Strip of it, with exactly its surrounding whitespace removed |
| Enhancement.ExistingDescriptionKept | fetch_enhanced_dashboard_data.py:231-233 | a non-blank, already trimmed description is kept verbatim |
| Enhancement.BlankDescriptionGenerated | fetch_enhanced_dashboard_data.py:231-235 | a missing or blank description is replaced by the generated one |
| Enhancement.SumSorted | fetch_enhanced_dashboard_data.py:238 | the total view count does not depend on the order of the views |
| Enhancement.EnhanceWorkbookData | fetch_enhanced_dashboard_data.py:201-258 | the record is assembled from the normalised views and de-duplicated data sources of its own requests |
| Enhancement.RecordCounts | fetch_enhanced_dashboard_data.py:237-255 | the sheet count is the number of views; the total is the sum of their counts; the URL is the first view's, which is a most viewed one |
| Enhancement.UrlPresentIffViews | fetch_enhanced_dashboard_data.py:250-255 | the record has a URL iff it has sheets iff a listed view has a content URL |
| EnhancedFetch.Consider | fetch_enhanced_dashboard_data.py:306-317 | one workbook contributes its record exactly when it is not skipped and its record has a URL |
| EnhancedFetch.KeepWorkbooks | fetch_enhanced_dashboard_data.py:280-284 | the loop keeps the admitted records in workbook order |
| EnhancedFetch.SelectDashboards | fetch_enhanced_dashboard_data.py:305-324 | a category's list is its admitted records, sorted by update time |
| EnhancedFetch.FetchSnapshot | fetch_enhanced_dashboard_data.py:264-331 | the snapshot holds both categories' lists and the given time; a failed listing aborts with its status, production first |
| EnhancedFetch.KeptMembers | fetch_enhanced_dashboard_data.py:281-284 | the records kept are exactly those of the admitted workbooks |
| EnhancedFetch.DashboardsMembers | fetch_enhanced_dashboard_data.py:305-324 | a category's list holds exactly the records of its admitted workbooks |
| EnhancedFetch.DashboardsHaveViews | fetch_enhanced_dashboard_data.py:283-284 | every listed dashboard has a sheet, a URL and its list's category, and is not a skipped guy.d workbook |
| EnhancedFetch.WorkbooksWithViewsListed | fetch_enhanced_dashboard_data.py:306-317 | a workbook with a view that has a content URL, and not skipped, is listed: nothing else is dropped |
| EnhancedFetch.GuysNonRocWorkbooksSkipped | fetch_enhanced_dashboard_data.py:307-313 | no playground dashboard is owned by guy.d without "roc" in its lower-cased name |
| EnhancedFetch.DashboardsNewestFirst | fetch_enhanced_dashboard_data.py:322-324 | each list is in non-increasing `updated` string order |
| EnhancedFetch.SameUpdateKeepsListingOrder | fetch_enhanced_dashboard_data.py:323-324 | dashboards with equal `updated` keep their order from the loop |
| DashboardHtml.GetCredentials | generate_dashboard_html.py:12-34 | credentials are missing, with the fixed message, exactly when the environment has no server and there is no mcp.json; a server in the environment always gives credentials with that server |
| DashboardHtml.EnvironmentTakesPrecedence | generate_dashboard_html.py:14-20 | with TABLEAU_SERVER set, mcp.json never matters and all four fields come from TABLEAU_SERVER, TABLEAU_SITE_NAME (default empty), TABLEAU_PAT_NAME and TABLEAU_PAT_VALUE |
| DashboardHtml.EmptyServerVariableIgnored | generate_dashboard_html.py:14 | an empty TABLEAU_SERVER acts as an absent one |
| DashboardHtml.ConfigurationFallback | generate_dashboard_html.py:22-32 | otherwise all four fields come from SERVER, SITE_NAME (default empty), PAT_NAME and PAT_VALUE of mcp.json's `tableau` section (default empty) |
| DashboardHtml.OwnedBy | generate_dashboard_html.py:73-75 | the owner filter never lengthens a page |
| DashboardHtml.OwnedByConcat | generate_dashboard_html.py:72-75 | filtering page by page equals filtering the concatenated pages |
| DashboardHtml.OwnedByMembers | generate_dashboard_html.py:73-75 | the filter keeps exactly the workbooks of that owner |
| DashboardHtml.KeepOwned | generate_dashboard_html.py:73-75 | the inner loop keeps a page's workbooks owned by mor.h, in order |
| DashboardHtml.GetAllWorkbooks | generate_dashboard_html.py:57-83 | the result is mor.h's workbooks of pages 1 to the first stopping page, judged on the unfiltered page, or that page's error status |
| DashboardHtml.OnlyOwnersWorkbooks | generate_dashboard_html.py:72-75 | every returned workbook is owned by mor.h |
| DashboardHtml.GetFirstViewUrl | generate_dashboard_html.py:85-106 | a URL is returned exactly when the request succeeds and the first view has a content URL, and it is that content URL's viewer URL, starting with the server and `/#/views/` |
| DashboardHtml.FirstViewUrlIgnoresLaterViews | generate_dashboard_html.py:93-102 | views after the first never change the result |
| DashboardHtml.FirstViewUrlAmongEnrichedViews | generate_dashboard_html.py:99-102 | the URL is one of the view URLs the fetch script builds from the same reply |
| DashboardHtml.Entries | generate_dashboard_html.py:119-129 | never more records than workbooks |
| DashboardHtml.AssembleDashboardData | generate_dashboard_html.py:117-132 | the loop yields the records and the count of workbooks without a URL |
| DashboardHtml.EntriesAndMissingAddUp | generate_dashboard_html.py:131-132 | records plus workbooks without views equal the number of workbooks |
| DashboardHtml.EntriesMembers | generate_dashboard_html.py:119-129 | a record exists exactly for each workbook whose first view has a URL, and carries that URL |
| DashboardHtml.GenerateDashboardData | generate_dashboard_html.py:112-132 | the run yields the records of mor.h's workbooks, or the failing page's status |

## Left out

- HTTP: sign-in, request URLs, headers, query parameters and the API version are not modelled. Responses are inputs. A listing page that raises becomes an error status that aborts the run. A failed views or connections request gives an empty list, or `None` for the first-view URL.
- File and JSON I/O: reading mcp.json, and writing dashboards_data.json and all_dashboards_data_enhanced.json. mcp.json is an input map. The snapshot is the `EnhancedFetch.Snapshot` value.
- The fetch script's own credential loading (fetch_enhanced_dashboard_data.py:10-17) reads fixed keys of mcp.json and fails on a missing key. It is plumbing before sign-in and is not modelled.
- The clock: `datetime.now().isoformat()` is a parameter of `EnhancedFetch.FetchSnapshot`.
- Console output (`print`) is observational and is left out.
- generate_enhanced_html.py is HTML templating with date formatting and embedded browser script, and is not part of this model.
- Pagination.Terminates: the source loops forever on a server that never sends a stopping page. The model requires that such a page exists instead of modelling non-termination.
- Text.Lower: only ASCII letters are folded. Python's `str.lower` also folds other scripts, which can change whether "roc" or a keyword is found in non-ASCII names.
- Views.ViewCount: JSON `null` and a missing key are both `None`. The source keeps a `null` count as `None` in the record, but sorts and sums it as 0. Counts are integers, and `int()` of a non-numeric count, which raises, is not modelled.
- Pagination.PageReply: `totalAvailable` is an integer. `int()` of a non-numeric string, which raises, is not modelled.
- Enhancement.Assemble: `size` is an integer defaulting to 0, whatever JSON type the server sends.
- DashboardHtml.GetCredentials: mcp.json's values are strings. A malformed mcp.json, which makes `json.load` raise, is not modelled.
- Enhancement.ResolveDescription: a JSON `null` description is read like an absent one and gets a generated description. In the source, `.strip()` on `None` raises and ends the run.
- Enhancement.NameOf: a JSON `null` name is read like an absent one, as "Unnamed". In the source, `name.lower()` on `None` raises when the description is blank.
- EnhancedFetch.SkippedAsNonRoc: a JSON `null` name is read as the empty string. In the source, `.lower()` on `None` raises for a guy.d playground workbook.
- Enhancement.ProjectOf, Enhancement.Assemble, DashboardHtml.OwnedBy, DashboardHtml.EntryFor: a JSON `null` `project` or `owner` object is read like an absent one, giving "Unknown" or no owner. In the source, `.get` on `None` raises and ends the run (fetch_enhanced_dashboard_data.py:228, 244, 307; generate_dashboard_html.py:74, 126).
- Views.MakeView, DataSources.TypeLabel, DataSources.ServerAddress, Enhancement.LabelsOf, Enhancement.TagLabels, Enhancement.Assemble: a JSON `null` view `name` or `id`, connection `type` or `serverAddress`, tag `label` or `createdAt` becomes the default ("Unnamed", "", "Unknown" or ""). The source stores `None` in the record instead (fetch_enhanced_dashboard_data.py:85-86, 176-177, 224, 226, 245).
- EnhancedFetch.SelectDashboards: comparing a `null` `updated` with a string raises in Python. The model treats a missing or null `updatedAt` as the empty string.
- Exceptions inside the per-workbook requests other than a failed request, for example non-dictionary JSON, are folded into `FetchFailed`.
