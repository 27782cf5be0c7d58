/**
 * `enhance_workbook_data`: one raw workbook, its views and its data sources
 * become one enriched record.
 */
module Enhancement {
  import opened Wrappers
  import opened Api
  import opened Views
  import opened DataSources
  import Text
  import Descriptions
  import Sorting

  datatype Category = Production | Playground

  datatype EnhancedWorkbook = EnhancedWorkbook(
    name: string,
    description: string,
    project: string,
    owner: string,
    created: string,
    updated: string,
    tags: seq<string>,
    views: seq<View>,
    dataSources: seq<DataSource>,
    sheetCount: nat,
    totalViews: int,
    size: int,
    category: Category,
    url: Option<string>)

  /** `[t.get('label', '') for t in tag_list if isinstance(t, dict)]` */
  function LabelsOf(entries: seq<TagEntry>): (r: seq<string>)
    ensures |r| <= |entries|
  {
    if entries == [] then []
    else
      (match entries[0]
       case TagObject(text) => [text.GetOr("")]
       case TagOther => []) + LabelsOf(entries[1..])
  }

  /** The labels keep the order of the entries they come from. */
  lemma {:induction false} LabelsOfConcat(a: seq<TagEntry>, b: seq<TagEntry>)
    ensures LabelsOf(a + b) == LabelsOf(a) + LabelsOf(b)
  {
    if a == [] {
      assert a + b == b;
    } else {
      assert (a + b)[1..] == a[1..] + b;
      LabelsOfConcat(a[1..], b);
    }
  }

  /** An object entry gives its label (or ""), any other entry gives none. */
  lemma LabelsOfSingle(entry: TagEntry)
    ensures entry.TagObject? ==> LabelsOf([entry]) == [entry.text.GetOr("")]
    ensures entry.TagOther? ==> LabelsOf([entry]) == []
  {
    assert [entry][1..] == [];
  }

  /** The tag labels of a workbook's `tags` value. */
  function TagLabels(tags: Option<Tags>): (r: seq<string>)
    ensures tags.None? || tags == Some(TagsOther) || tags == Some(TagsObject(None)) ==> r == []
    ensures tags.Some? && tags.value.TagsObject? && tags.value.tag.Some? && tags.value.tag.value.TagSingle? ==>
      r == (if tags.value.tag.value.entry.TagObject? then [tags.value.tag.value.entry.text.GetOr("")] else [])
    ensures tags.Some? && tags.value.TagsObject? && tags.value.tag.Some? && tags.value.tag.value.TagList? ==>
      r == LabelsOf(tags.value.tag.value.entries)
  {
    match tags
    case None => []
    case Some(TagsOther) => []
    case Some(TagsObject(None)) => []
    case Some(TagsObject(Some(TagList(entries)))) => LabelsOf(entries)
    case Some(TagsObject(Some(TagSingle(TagObject(text))))) => [text.GetOr("")]
    case Some(TagsObject(Some(TagSingle(TagOther)))) => []
  }

  function NameOf(wb: RawWorkbook): string {
    wb.name.GetOr("Unnamed")
  }

  function ProjectOf(wb: RawWorkbook): string {
    wb.projectName.GetOr("Unknown")
  }

  /** The trimmed existing description when it is not empty, else a generated one. */
  function ResolveDescription(wb: RawWorkbook): string {
    var existing := Text.Strip(wb.description.GetOr(""));
    if existing != "" then existing else Descriptions.GenerateDescription(NameOf(wb), ProjectOf(wb))
  }

  /**
   * A description with a non-whitespace character becomes itself without its
   * surrounding whitespace: a slice of it with only whitespace outside, which
   * neither starts nor ends with whitespace.
   */
  lemma NonBlankDescriptionTrimmed(wb: RawWorkbook, k: nat)
    requires k < |wb.description.GetOr("")| && !Text.IsSpace(wb.description.GetOr("")[k])
    ensures Text.SliceWithinSpace(wb.description.GetOr(""), ResolveDescription(wb))
    ensures ResolveDescription(wb) != []
    ensures !Text.IsSpace(ResolveDescription(wb)[0])
    ensures !Text.IsSpace(ResolveDescription(wb)[|ResolveDescription(wb)| - 1])
    ensures ResolveDescription(wb) == Text.Strip(wb.description.GetOr(""))
  {
    Text.StripNonBlank(wb.description.GetOr(""), k);
  }

  /** A description with text and no surrounding whitespace is kept verbatim. */
  lemma ExistingDescriptionKept(wb: RawWorkbook)
    requires wb.description.Some? && wb.description.value != []
    requires !Text.IsSpace(wb.description.value[0])
    requires !Text.IsSpace(wb.description.value[|wb.description.value| - 1])
    ensures ResolveDescription(wb) == wb.description.value
  {
    Text.StripKeepsTrimmedText(wb.description.value);
  }

  /** An absent or all-whitespace description is generated from name and project. */
  lemma BlankDescriptionGenerated(wb: RawWorkbook)
    requires forall k :: 0 <= k < |wb.description.GetOr("")| ==> Text.IsSpace(wb.description.GetOr("")[k])
    ensures ResolveDescription(wb) == Descriptions.GenerateDescription(NameOf(wb), ProjectOf(wb))
  {
  }

  /** `sum(int(v.get('viewCount', 0) or 0) for v in views)` */
  function SumCounts(vs: seq<View>): int {
    if vs == [] then 0 else vs[0].viewCount + SumCounts(vs[1..])
  }

  lemma {:induction false} SumInsert(x: View, s: seq<View>)
    ensures SumCounts(Sorting.Insert(x, s, CountOf, MoreViews)) == x.viewCount + SumCounts(s)
  {
    if s != [] && MoreViews(CountOf(s[0]), CountOf(x)) {
      var t := Sorting.Insert(x, s[1..], CountOf, MoreViews);
      SumInsert(x, s[1..]);
      assert ([s[0]] + t)[1..] == t;
    } else {
      assert ([x] + s)[1..] == s;
    }
  }

  /** Sorting the views does not change their total. */
  lemma {:induction false} SumSorted(s: seq<View>)
    ensures SumCounts(Sorting.SortDesc(s, CountOf, MoreViews)) == SumCounts(s)
  {
    if s != [] {
      SumSorted(s[1..]);
      SumInsert(s[0], Sorting.SortDesc(s[1..], CountOf, MoreViews));
    }
  }

  /** The record built from a workbook and its already fetched views and data sources. */
  function Assemble(wb: RawWorkbook, views: seq<View>, dataSources: seq<DataSource>, category: Category): EnhancedWorkbook {
    EnhancedWorkbook(
      name := NameOf(wb),
      description := ResolveDescription(wb),
      project := ProjectOf(wb),
      owner := wb.ownerName.GetOr("Unknown"),
      created := wb.createdAt.GetOr(""),
      updated := wb.updatedAt.GetOr(""),
      tags := TagLabels(wb.tags),
      views := views,
      dataSources := dataSources,
      sheetCount := |views|,
      totalViews := SumCounts(views),
      size := wb.size.GetOr(0),
      category := category,
      url := if views != [] then Some(views[0].url) else None)
  }

  function Enhanced(server: string, wb: RawWorkbook, viewReply: Reply<RawView>,
                    connReply: Reply<RawConnection>, category: Category): EnhancedWorkbook
  {
    Assemble(wb, NormalisedViews(server, viewReply.ItemsOrEmpty()), Deduplicated(connReply.ItemsOrEmpty()), category)
  }

  method EnhanceWorkbookData(server: string, wb: RawWorkbook, viewReply: Reply<RawView>,
                             connReply: Reply<RawConnection>, category: Category)
    returns (enhanced: EnhancedWorkbook)
    ensures enhanced == Enhanced(server, wb, viewReply, connReply, category)
  {
    var views := GetAllViewsForWorkbook(server, viewReply);
    var dataSources := GetDataSourcesForWorkbook(connReply);
    enhanced := Assemble(wb, views, dataSources, category);
  }

  /**
   * `sheet_count` is the number of views, `total_views` the sum of the view
   * counts of the listed views that have a content URL (whatever their order),
   * and the primary URL is the URL of a most viewed view.
   */
  lemma RecordCounts(server: string, wb: RawWorkbook, viewReply: Reply<RawView>,
                     connReply: Reply<RawConnection>, category: Category)
    ensures Enhanced(server, wb, viewReply, connReply, category).sheetCount
         == |Enhanced(server, wb, viewReply, connReply, category).views|
    ensures Enhanced(server, wb, viewReply, connReply, category).totalViews
         == SumCounts(UsableViews(server, viewReply.ItemsOrEmpty()))
    ensures Enhanced(server, wb, viewReply, connReply, category).views != [] ==>
      && Enhanced(server, wb, viewReply, connReply, category).url
         == Some(Enhanced(server, wb, viewReply, connReply, category).views[0].url)
      && forall v :: v in Enhanced(server, wb, viewReply, connReply, category).views ==>
           v.viewCount <= Enhanced(server, wb, viewReply, connReply, category).views[0].viewCount
  {
    var vs := NormalisedViews(server, viewReply.ItemsOrEmpty());
    SumSorted(UsableViews(server, viewReply.ItemsOrEmpty()));
    ViewsByDescendingCount(server, viewReply.ItemsOrEmpty());
    forall v | v in vs ensures v.viewCount <= vs[0].viewCount {
      var j :| 0 <= j < |vs| && vs[j] == v;
      if j > 0 {
        assert vs[0].viewCount >= vs[j].viewCount;
      }
    }
  }

  /**
   * The record has a (truthy) URL exactly when it has views, which is exactly
   * when the server listed a view with a non-empty content URL.
   */
  lemma UrlPresentIffViews(server: string, wb: RawWorkbook, viewReply: Reply<RawView>,
                           connReply: Reply<RawConnection>, category: Category)
    ensures Truthy(Enhanced(server, wb, viewReply, connReply, category).url)
        <==> Enhanced(server, wb, viewReply, connReply, category).sheetCount > 0
    ensures Truthy(Enhanced(server, wb, viewReply, connReply, category).url)
        <==> exists raw :: raw in viewReply.ItemsOrEmpty() && HasContentUrl(raw)
  {
    var raws := viewReply.ItemsOrEmpty();
    var vs := NormalisedViews(server, raws);
    NormalisedViewsAreTheUsableOnes(server, raws);
    if vs != [] {
      assert vs[0] in vs;
    }
  }
}
