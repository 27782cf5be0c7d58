/**
 * `get_all_views_for_workbook`: keep the views that have a content URL,
 * build their viewer URLs, and order them most viewed first.
 */
module Views {
  import opened Wrappers
  import opened Api
  import Sorting

  datatype View = View(name: string, id: string, url: string, viewCount: int)

  /** `usage.get('totalViewCount', 0)` when `usage` is an object (absent counts as `{}`), else 0. */
  function ViewCount(raw: RawView): (c: int)
    ensures raw.usage.Some? && raw.usage.value.UsageOther? ==> c == 0
  {
    match raw.usage
    case None => 0
    case Some(UsageObject(total)) => total.GetOr(0)
    case Some(UsageOther) => 0
  }

  predicate HasContentUrl(raw: RawView) {
    ContentUrl(raw) != ""
  }

  function MakeView(server: string, raw: RawView): View
    requires HasContentUrl(raw)
  {
    View(raw.name.GetOr("Unnamed"), raw.id.GetOr(""), ViewUrl(server, ContentUrl(raw)), ViewCount(raw))
  }

  /** The views the loop appends, in response order, before sorting. */
  function UsableViews(server: string, raws: seq<RawView>): (r: seq<View>)
    ensures |r| <= |raws|
  {
    if raws == [] then []
    else
      var last := raws[|raws| - 1];
      UsableViews(server, raws[..|raws| - 1]) + (if HasContentUrl(last) then [MakeView(server, last)] else [])
  }

  function CountOf(v: View): int {
    v.viewCount
  }

  /** The sort key order of `sort(key=viewCount, reverse=True)`: the larger count first. */
  function MoreViews(a: int, b: int): bool {
    a > b
  }

  function NormalisedViews(server: string, raws: seq<RawView>): seq<View> {
    Sorting.SortDesc(UsableViews(server, raws), CountOf, MoreViews)
  }

  method GetAllViewsForWorkbook(server: string, reply: Reply<RawView>) returns (viewData: seq<View>)
    ensures viewData == NormalisedViews(server, reply.ItemsOrEmpty())
  {
    var views := reply.ItemsOrEmpty();
    viewData := [];
    var i := 0;
    while i < |views|
      invariant 0 <= i <= |views|
      invariant viewData == UsableViews(server, views[..i])
    {
      var view := views[i];
      assert views[..i + 1][..i] == views[..i];
      var contentUrl := ContentUrl(view);
      if contentUrl != "" {
        viewData := viewData + [MakeView(server, view)];
      }
      i := i + 1;
    }
    assert views[..|views|] == views;
    viewData := Sorting.SortDesc(viewData, CountOf, MoreViews);
  }

  lemma CountOrderIsWeak()
    ensures Sorting.WeakOrder(MoreViews)
  {
  }

  /** Views come out in non-increasing view-count order. */
  lemma ViewsByDescendingCount(server: string, raws: seq<RawView>)
    ensures forall i, j :: 0 <= i < j < |NormalisedViews(server, raws)| ==>
      NormalisedViews(server, raws)[i].viewCount >= NormalisedViews(server, raws)[j].viewCount
  {
    CountOrderIsWeak();
    Sorting.SortDescSorted(UsableViews(server, raws), CountOf, MoreViews);
  }

  /** Views with equal counts keep the order the server listed them in. */
  lemma EqualCountsKeepOrder(server: string, raws: seq<RawView>, count: int)
    ensures Sorting.WithKey(NormalisedViews(server, raws), CountOf, count)
         == Sorting.WithKey(UsableViews(server, raws), CountOf, count)
  {
    CountOrderIsWeak();
    Sorting.SortDescStable(UsableViews(server, raws), CountOf, MoreViews, count);
  }

  lemma {:induction false} UsableViewsMembers(server: string, raws: seq<RawView>, v: View)
    ensures v in UsableViews(server, raws) <==>
      exists raw :: raw in raws && HasContentUrl(raw) && v == MakeView(server, raw)
  {
    if raws != [] {
      var init := raws[..|raws| - 1];
      var last := raws[|raws| - 1];
      UsableViewsMembers(server, init, v);
      assert raws == init + [last];
      if v !in UsableViews(server, raws) {
        forall raw | raw in raws && HasContentUrl(raw) ensures v != MakeView(server, raw) {
          if raw != last {
            assert raw in init;
          }
        }
      }
    }
  }

  /**
   * The output views are exactly the views built from the input views that
   * have a content URL: no view is invented, none with a content URL is lost,
   * and there are never more views than the server listed.
   */
  lemma NormalisedViewsAreTheUsableOnes(server: string, raws: seq<RawView>)
    ensures |NormalisedViews(server, raws)| <= |raws|
    ensures forall raw :: raw in raws && HasContentUrl(raw) ==> MakeView(server, raw) in NormalisedViews(server, raws)
    ensures forall v :: v in NormalisedViews(server, raws) ==>
      exists raw :: raw in raws && HasContentUrl(raw) && v == MakeView(server, raw)
  {
    var vs := NormalisedViews(server, raws);
    forall v ensures v in vs <==> exists raw :: raw in raws && HasContentUrl(raw) && v == MakeView(server, raw) {
      assert v in vs <==> v in multiset(vs);
      assert v in UsableViews(server, raws) <==> v in multiset(UsableViews(server, raws));
      UsableViewsMembers(server, raws, v);
    }
  }

  /** Each output view's URL is the viewer URL of some listed view's non-empty content URL. */
  lemma ViewUrlsFromContentUrls(server: string, raws: seq<RawView>)
    ensures forall v :: v in NormalisedViews(server, raws) ==>
      exists raw :: raw in raws && ContentUrl(raw) != "" && v.url == ViewUrl(server, ContentUrl(raw))
  {
    NormalisedViewsAreTheUsableOnes(server, raws);
  }

  /** The three counts [3, 0, 10] are stored as [10, 3, 0]. */
  lemma SortsExampleCounts(server: string, a: RawView, b: RawView, c: RawView)
    requires HasContentUrl(a) && HasContentUrl(b) && HasContentUrl(c)
    requires ViewCount(a) == 3 && ViewCount(b) == 0 && ViewCount(c) == 10
    ensures |NormalisedViews(server, [a, b, c])| == 3
    ensures NormalisedViews(server, [a, b, c])[0].viewCount == 10
    ensures NormalisedViews(server, [a, b, c])[1].viewCount == 3
    ensures NormalisedViews(server, [a, b, c])[2].viewCount == 0
  {
    var va, vb, vc := MakeView(server, a), MakeView(server, b), MakeView(server, c);
    assert [a, b, c][..2] == [a, b];
    assert [a, b][..1] == [a];
    assert [a][..0] == [];
    assert UsableViews(server, [a]) == [va];
    assert UsableViews(server, [a, b]) == [va, vb];
    assert UsableViews(server, [a, b, c]) == [va, vb, vc];
    assert [va, vb, vc][1..] == [vb, vc];
    assert [vb, vc][1..] == [vc];
    assert Sorting.SortDesc([vc], CountOf, MoreViews) == [vc];
    assert Sorting.Insert(vb, [vc], CountOf, MoreViews) == [vc, vb];
    assert Sorting.SortDesc([vb, vc], CountOf, MoreViews) == [vc, vb];
    assert [vc, vb][1..] == [vb];
    assert Sorting.Insert(va, [vb], CountOf, MoreViews) == [va, vb];
    assert Sorting.Insert(va, [vc, vb], CountOf, MoreViews) == [vc, va, vb];
  }
}
