/**
 * The enrichment pipeline of fetch_enhanced_dashboard_data.py: page through
 * each project's workbooks, enrich every workbook, keep those with views
 * (and, among playground workbooks, drop guy.d's non-ROC ones), and order
 * each category by last update, newest first.
 */
module EnhancedFetch {
  import opened Wrappers
  import opened Api
  import opened Pagination
  import opened Enhancement
  import Text
  import Sorting

  /** The workbook listing, per project-name filter: page number to reply. */
  type Listing = string -> (nat -> PageReply<RawWorkbook>)

  /** The per-workbook sub-requests, by workbook id. */
  type ViewsOf = Option<string> -> Reply<RawView>
  type ConnectionsOf = Option<string> -> Reply<RawConnection>

  const PRODUCTION_PROJECTS: seq<string> := ["ROC Protocol", "Triage", "ROC"]
  const PLAYGROUND_PROJECTS: seq<string> := ["Playground", "Mor", "Guy", "Yahel"]

  /**
   * `get_workbooks_by_project_name`. The ghost `requested` lists the page
   * numbers asked for, in order.
   */
  method GetWorkbooksByProjectName(listing: Listing, projectName: string)
    returns (r: Fetched<RawWorkbook>, ghost requested: seq<nat>)
    requires Terminates(listing(projectName))
    ensures r == Collection(listing(projectName))
    ensures requested == PageRange(FirstStop(listing(projectName)))
  {
    var pages := listing(projectName);
    ghost var bound :| 1 <= bound && StopsAt(pages(bound), bound);
    var allWorkbooks: seq<RawWorkbook> := [];
    var pageNumber: nat := 1;
    requested := [];
    while true
      invariant 1 <= pageNumber <= bound
      invariant forall k :: 1 <= k < pageNumber ==> !StopsAt(pages(k), k)
      invariant allWorkbooks == Gathered(pages, 1, pageNumber)
      invariant requested == PageRange(pageNumber - 1)
      decreases bound - pageNumber
    {
      var data := pages(pageNumber);
      requested := requested + [pageNumber];
      assert requested == PageRange(pageNumber);
      if data.PageError? {
        StopsFirstAt(pages, pageNumber);
        return Failed(data.status), requested;
      }
      var workbooks := data.items;
      if |workbooks| == 0 {
        StopsFirstAt(pages, pageNumber);
        assert Gathered(pages, 1, pageNumber + 1) == allWorkbooks;
        return Collected(allWorkbooks), requested;
      }
      allWorkbooks := allWorkbooks + workbooks;
      var totalAvailable := data.Total();
      if pageNumber * PAGE_SIZE >= totalAvailable {
        StopsFirstAt(pages, pageNumber);
        return Collected(allWorkbooks), requested;
      }
      pageNumber := pageNumber + 1;
    }
  }

  ghost predicate AllTerminate(listing: Listing, projects: seq<string>) {
    forall p :: p in projects ==> Terminates(listing(p))
  }

  /** The workbooks of `projects`, project after project; the first failing page aborts. */
  ghost function Gather(listing: Listing, projects: seq<string>): Fetched<RawWorkbook>
    requires AllTerminate(listing, projects)
  {
    if projects == [] then Collected([])
    else
      var last := projects[|projects| - 1];
      assert last in projects;
      match Gather(listing, projects[..|projects| - 1])
      case Failed(status) => Failed(status)
      case Collected(before) =>
        match Collection(listing(last))
        case Failed(status) => Failed(status)
        case Collected(items) => Collected(before + items)
  }

  /** Once a prefix of the projects fails, the whole gathering fails with that status. */
  lemma {:induction false} GatherFailsFromPrefix(listing: Listing, projects: seq<string>, i: nat)
    requires AllTerminate(listing, projects)
    requires i <= |projects|
    requires Gather(listing, projects[..i]).Failed?
    ensures Gather(listing, projects) == Gather(listing, projects[..i])
    decreases |projects|
  {
    if i < |projects| {
      var init := projects[..|projects| - 1];
      assert init[..i] == projects[..i];
      GatherFailsFromPrefix(listing, init, i);
    } else {
      assert projects[..i] == projects;
    }
  }

  /** The `for proj_name in ...: ... extend(workbooks)` loop. */
  method FetchProjects(listing: Listing, projects: seq<string>) returns (r: Fetched<RawWorkbook>)
    requires AllTerminate(listing, projects)
    ensures r == Gather(listing, projects)
  {
    var workbooksSoFar: seq<RawWorkbook> := [];
    var i := 0;
    while i < |projects|
      invariant 0 <= i <= |projects|
      invariant Gather(listing, projects[..i]) == Collected(workbooksSoFar)
    {
      assert projects[..i + 1][..i] == projects[..i];
      assert projects[i] in projects;
      var workbooks;
      ghost var requested;
      workbooks, requested := GetWorkbooksByProjectName(listing, projects[i]);
      if workbooks.Failed? {
        assert Gather(listing, projects[..i + 1]) == Failed(workbooks.status);
        GatherFailsFromPrefix(listing, projects, i + 1);
        return Failed(workbooks.status);
      }
      workbooksSoFar := workbooksSoFar + workbooks.items;
      i := i + 1;
    }
    assert projects[..|projects|] == projects;
    return Collected(workbooksSoFar);
  }

  /** A playground workbook owned by guy.d whose lower-cased name lacks "roc" is skipped. */
  predicate SkippedAsNonRoc(wb: RawWorkbook) {
    wb.ownerName.GetOr("") == "guy.d" && !Text.Contains(Text.Lower(wb.name.GetOr("")), "roc")
  }

  function EnhancedOf(server: string, wb: RawWorkbook, category: Category,
                      viewsOf: ViewsOf, connectionsOf: ConnectionsOf): EnhancedWorkbook
  {
    Enhanced(server, wb, viewsOf(wb.id), connectionsOf(wb.id), category)
  }

  /** The workbook reaches the output: not skipped, and its record has a URL. */
  predicate Admitted(server: string, wb: RawWorkbook, category: Category,
                     viewsOf: ViewsOf, connectionsOf: ConnectionsOf)
  {
    !(category == Playground && SkippedAsNonRoc(wb))
    && Truthy(EnhancedOf(server, wb, category, viewsOf, connectionsOf).url)
  }

  /** The records appended by the loop, in workbook order. */
  function Kept(server: string, wbs: seq<RawWorkbook>, category: Category,
                viewsOf: ViewsOf, connectionsOf: ConnectionsOf): seq<EnhancedWorkbook>
  {
    if wbs == [] then []
    else
      var wb := wbs[|wbs| - 1];
      Kept(server, wbs[..|wbs| - 1], category, viewsOf, connectionsOf)
      + Step(server, wb, category, viewsOf, connectionsOf)
  }

  /** What one workbook contributes to its category's list. */
  function Step(server: string, wb: RawWorkbook, category: Category,
                viewsOf: ViewsOf, connectionsOf: ConnectionsOf): seq<EnhancedWorkbook>
  {
    if Admitted(server, wb, category, viewsOf, connectionsOf)
    then [EnhancedOf(server, wb, category, viewsOf, connectionsOf)] else []
  }

  /** The body of the selection loop for one workbook. */
  method Consider(server: string, wb: RawWorkbook, category: Category,
                  viewsOf: ViewsOf, connectionsOf: ConnectionsOf)
    returns (added: seq<EnhancedWorkbook>)
    ensures added == Step(server, wb, category, viewsOf, connectionsOf)
  {
    if category == Playground {
      var owner := wb.ownerName.GetOr("");
      if owner == "guy.d" && !Text.Contains(Text.Lower(wb.name.GetOr("")), "roc") {
        return [];
      }
    }
    var enhanced := EnhanceWorkbookData(server, wb, viewsOf(wb.id), connectionsOf(wb.id), category);
    if Truthy(enhanced.url) {
      return [enhanced];
    }
    return [];
  }

  function UpdatedOf(e: EnhancedWorkbook): string {
    e.updated
  }

  /** The sort key order of `sort(key=updated, reverse=True)`: the later string first. */
  function Later(a: string, b: string): bool {
    Text.LexLess(b, a)
  }

  function Dashboards(server: string, wbs: seq<RawWorkbook>, category: Category,
                      viewsOf: ViewsOf, connectionsOf: ConnectionsOf): seq<EnhancedWorkbook>
  {
    Sorting.SortDesc(Kept(server, wbs, category, viewsOf, connectionsOf), UpdatedOf, Later)
  }

  lemma KeptStep(server: string, wbs: seq<RawWorkbook>, i: nat, category: Category,
                 viewsOf: ViewsOf, connectionsOf: ConnectionsOf)
    requires i < |wbs|
    ensures Kept(server, wbs[..i + 1], category, viewsOf, connectionsOf)
         == Kept(server, wbs[..i], category, viewsOf, connectionsOf) + Step(server, wbs[i], category, viewsOf, connectionsOf)
  {
    assert wbs[..i + 1][..i] == wbs[..i];
  }

  /** The `for wb in ..._workbooks` loop: the admitted records, in workbook order. */
  method KeepWorkbooks(server: string, wbs: seq<RawWorkbook>, category: Category,
                       viewsOf: ViewsOf, connectionsOf: ConnectionsOf)
    returns (data: seq<EnhancedWorkbook>)
    ensures data == Kept(server, wbs, category, viewsOf, connectionsOf)
  {
    data := [];
    var i := 0;
    while i < |wbs|
      invariant 0 <= i <= |wbs|
      invariant data == Kept(server, wbs[..i], category, viewsOf, connectionsOf)
    {
      KeptStep(server, wbs, i, category, viewsOf, connectionsOf);
      var added := Consider(server, wbs[i], category, viewsOf, connectionsOf);
      data := data + added;
      i := i + 1;
    }
    assert wbs[..|wbs|] == wbs;
  }

  /**
   * One category's list: the selection loop and the `.sort` by `updated`,
   * newest first, after it. The owner filter only runs in the playground loop.
   */
  method SelectDashboards(server: string, wbs: seq<RawWorkbook>, category: Category,
                          viewsOf: ViewsOf, connectionsOf: ConnectionsOf)
    returns (data: seq<EnhancedWorkbook>)
    ensures data == Dashboards(server, wbs, category, viewsOf, connectionsOf)
  {
    data := KeepWorkbooks(server, wbs, category, viewsOf, connectionsOf);
    data := Sorting.SortDesc(data, UpdatedOf, Later);
  }

  datatype Snapshot = Snapshot(production: seq<EnhancedWorkbook>, playground: seq<EnhancedWorkbook>, lastUpdated: string)

  /**
   * The whole run after sign-in: both categories, or the status of the first
   * listing page that failed. `now` stands for the clock's ISO timestamp.
   */
  method FetchSnapshot(server: string, listing: Listing, viewsOf: ViewsOf,
                       connectionsOf: ConnectionsOf, now: string)
    returns (r: Result<Snapshot, int>)
    requires AllTerminate(listing, PRODUCTION_PROJECTS) && AllTerminate(listing, PLAYGROUND_PROJECTS)
    ensures Gather(listing, PRODUCTION_PROJECTS).Failed? ==>
      r == Failure(Gather(listing, PRODUCTION_PROJECTS).status)
    ensures Gather(listing, PRODUCTION_PROJECTS).Collected? && Gather(listing, PLAYGROUND_PROJECTS).Failed? ==>
      r == Failure(Gather(listing, PLAYGROUND_PROJECTS).status)
    ensures Gather(listing, PRODUCTION_PROJECTS).Collected? && Gather(listing, PLAYGROUND_PROJECTS).Collected? ==>
      r == Success(Snapshot(
        Dashboards(server, Gather(listing, PRODUCTION_PROJECTS).items, Production, viewsOf, connectionsOf),
        Dashboards(server, Gather(listing, PLAYGROUND_PROJECTS).items, Playground, viewsOf, connectionsOf),
        now))
  {
    var productionWorkbooks := FetchProjects(listing, PRODUCTION_PROJECTS);
    if productionWorkbooks.Failed? {
      return Failure(productionWorkbooks.status);
    }
    var productionData := SelectDashboards(server, productionWorkbooks.items, Production, viewsOf, connectionsOf);
    var playgroundWorkbooks := FetchProjects(listing, PLAYGROUND_PROJECTS);
    if playgroundWorkbooks.Failed? {
      return Failure(playgroundWorkbooks.status);
    }
    var playgroundData := SelectDashboards(server, playgroundWorkbooks.items, Playground, viewsOf, connectionsOf);
    return Success(Snapshot(productionData, playgroundData, now));
  }

  /** Ordering by `updated`, later first, is a strict weak order, so the sort is well behaved. */
  lemma LaterIsWeakOrder()
    ensures Sorting.WeakOrder(Later)
  {
    forall a, b | Later(a, b) ensures !Later(b, a) {
      Text.LexAsymmetric(b, a);
    }
    forall a, b, c | Later(a, c) ensures Later(a, b) || Later(b, c) {
      Text.LexTotal(a, b);
      if Text.LexLess(a, b) {
        Text.LexTransitive(c, a, b);
      }
    }
  }

  /** The records kept by the loop are exactly those of the admitted workbooks. */
  lemma {:induction false} KeptMembers(server: string, wbs: seq<RawWorkbook>, category: Category,
                                       viewsOf: ViewsOf, connectionsOf: ConnectionsOf)
    ensures forall e :: e in Kept(server, wbs, category, viewsOf, connectionsOf) <==>
      exists wb :: wb in wbs && Admitted(server, wb, category, viewsOf, connectionsOf)
                   && e == EnhancedOf(server, wb, category, viewsOf, connectionsOf)
  {
    if wbs != [] {
      var init := wbs[..|wbs| - 1];
      KeptMembers(server, init, category, viewsOf, connectionsOf);
      assert wbs == init + [wbs[|wbs| - 1]];
    }
  }

  /** A category's list holds exactly the records of its admitted workbooks. */
  lemma DashboardsMembers(server: string, wbs: seq<RawWorkbook>, category: Category,
                          viewsOf: ViewsOf, connectionsOf: ConnectionsOf)
    ensures forall e :: e in Dashboards(server, wbs, category, viewsOf, connectionsOf) <==>
      exists wb :: wb in wbs && Admitted(server, wb, category, viewsOf, connectionsOf)
                   && e == EnhancedOf(server, wb, category, viewsOf, connectionsOf)
  {
    KeptMembers(server, wbs, category, viewsOf, connectionsOf);
    var kept := Kept(server, wbs, category, viewsOf, connectionsOf);
    assert multiset(Dashboards(server, wbs, category, viewsOf, connectionsOf)) == multiset(kept);
    forall e ensures e in Dashboards(server, wbs, category, viewsOf, connectionsOf) <==> e in kept {
      assert e in multiset(kept) <==> e in kept;
    }
  }

  /**
   * Every listed dashboard has at least one sheet and a URL, belongs to the
   * list's category, and in the playground list is not a non-ROC workbook of guy.d.
   */
  lemma DashboardsHaveViews(server: string, wbs: seq<RawWorkbook>, category: Category,
                            viewsOf: ViewsOf, connectionsOf: ConnectionsOf, e: EnhancedWorkbook)
    requires e in Dashboards(server, wbs, category, viewsOf, connectionsOf)
    ensures e.sheetCount > 0 && e.url.Some? && e.category == category
    ensures exists wb :: wb in wbs && e == EnhancedOf(server, wb, category, viewsOf, connectionsOf)
                         && (category == Playground ==> !SkippedAsNonRoc(wb))
  {
    DashboardsMembers(server, wbs, category, viewsOf, connectionsOf);
    var wb :| wb in wbs && Admitted(server, wb, category, viewsOf, connectionsOf)
              && e == EnhancedOf(server, wb, category, viewsOf, connectionsOf);
    UrlPresentIffViews(server, wb, viewsOf(wb.id), connectionsOf(wb.id), category);
  }

  /**
   * Conversely, a workbook with a view that has a content URL, and that is
   * not a skipped playground workbook, is listed.
   */
  lemma WorkbooksWithViewsListed(server: string, wbs: seq<RawWorkbook>, category: Category,
                                 viewsOf: ViewsOf, connectionsOf: ConnectionsOf, wb: RawWorkbook)
    requires wb in wbs
    requires !(category == Playground && SkippedAsNonRoc(wb))
    requires exists raw :: raw in viewsOf(wb.id).ItemsOrEmpty() && Views.HasContentUrl(raw)
    ensures EnhancedOf(server, wb, category, viewsOf, connectionsOf)
            in Dashboards(server, wbs, category, viewsOf, connectionsOf)
  {
    UrlPresentIffViews(server, wb, viewsOf(wb.id), connectionsOf(wb.id), category);
    DashboardsMembers(server, wbs, category, viewsOf, connectionsOf);
  }

  /** guy.d's workbooks outside ROC never reach the playground list. */
  lemma GuysNonRocWorkbooksSkipped(server: string, wbs: seq<RawWorkbook>,
                                   viewsOf: ViewsOf, connectionsOf: ConnectionsOf)
    ensures forall e :: e in Dashboards(server, wbs, Playground, viewsOf, connectionsOf) ==>
      e.owner != "guy.d" || Text.Contains(Text.Lower(e.name), "roc")
  {
    forall e | e in Dashboards(server, wbs, Playground, viewsOf, connectionsOf)
      ensures e.owner != "guy.d" || Text.Contains(Text.Lower(e.name), "roc")
    {
      DashboardsHaveViews(server, wbs, Playground, viewsOf, connectionsOf, e);
    }
  }

  /** Each list runs from the most recently updated dashboard to the least. */
  lemma DashboardsNewestFirst(server: string, wbs: seq<RawWorkbook>, category: Category,
                              viewsOf: ViewsOf, connectionsOf: ConnectionsOf)
    ensures forall i, j :: 0 <= i < j < |Dashboards(server, wbs, category, viewsOf, connectionsOf)| ==>
      !Text.LexLess(Dashboards(server, wbs, category, viewsOf, connectionsOf)[i].updated,
                    Dashboards(server, wbs, category, viewsOf, connectionsOf)[j].updated)
  {
    LaterIsWeakOrder();
    Sorting.SortDescSorted(Kept(server, wbs, category, viewsOf, connectionsOf), UpdatedOf, Later);
  }

  /** Dashboards updated at the same time keep the order of the workbook listing. */
  lemma SameUpdateKeepsListingOrder(server: string, wbs: seq<RawWorkbook>, category: Category,
                                    viewsOf: ViewsOf, connectionsOf: ConnectionsOf, updated: string)
    ensures Sorting.WithKey(Dashboards(server, wbs, category, viewsOf, connectionsOf), UpdatedOf, updated)
         == Sorting.WithKey(Kept(server, wbs, category, viewsOf, connectionsOf), UpdatedOf, updated)
  {
    LaterIsWeakOrder();
    Sorting.SortDescStable(Kept(server, wbs, category, viewsOf, connectionsOf), UpdatedOf, Later, updated);
  }
}
