/**
 * The dashboard server's JSON records as the scripts read them. A field the
 * scripts read with `.get(key, default)` is an `Option`, `None` meaning the
 * key is absent; the default is applied by the reader, as in the scripts.
 * A JSON `null` is not modelled: it reads like an absent key, except where
 * the README's "Left out" section says otherwise.
 */
module Api {
  import opened Wrappers
  import Text

  /** `usage` of a view: a JSON object (with an optional `totalViewCount`) or some other value. */
  datatype Usage = UsageObject(totalViewCount: Option<int>) | UsageOther

  datatype RawView = RawView(
    name: Option<string>,
    id: Option<string>,
    contentUrl: Option<string>,
    usage: Option<Usage>)

  datatype RawConnection = RawConnection(
    connectionType: Option<string>,
    serverAddress: Option<string>,
    datasourceName: Option<string>,
    dbname: Option<string>)

  /** One element of a `tag` list: a JSON object with an optional `label`, or anything else. */
  datatype TagEntry = TagObject(text: Option<string>) | TagOther

  /** The `tag` member of `tags`: a list, or a single value. */
  datatype TagMember = TagList(entries: seq<TagEntry>) | TagSingle(entry: TagEntry)

  /** The `tags` member of a workbook: an object with an optional `tag` member, or anything else. */
  datatype Tags = TagsObject(tag: Option<TagMember>) | TagsOther

  datatype RawWorkbook = RawWorkbook(
    id: Option<string>,
    name: Option<string>,
    projectName: Option<string>,
    ownerName: Option<string>,
    description: Option<string>,
    createdAt: Option<string>,
    updatedAt: Option<string>,
    size: Option<int>,
    tags: Option<Tags>)

  /** The answer to one per-workbook request (views, connections). */
  datatype Reply<T> = Received(items: seq<T>) | FetchFailed {
    /** The scripts catch every error of these requests and carry on with no items. */
    function ItemsOrEmpty(): seq<T> {
      if Received? then items else []
    }
  }

  function ContentUrl(v: RawView): string {
    v.contentUrl.GetOr("")
  }

  const VIEWS_PATH := "/#/views/"
  const SHEETS_SEGMENT := "/sheets/"

  /** `f"{SERVER}/#/views/{content_url.replace('/sheets/', '/')}"`, shared by both scripts. */
  function ViewUrl(server: string, contentUrl: string): (r: string)
    ensures |r| >= |server| + |VIEWS_PATH| && r[..|server| + |VIEWS_PATH|] == server + VIEWS_PATH
    ensures r[|server| + |VIEWS_PATH|..] == Text.ReplaceAll(contentUrl, SHEETS_SEGMENT, "/")
  {
    server + VIEWS_PATH + Text.ReplaceAll(contentUrl, SHEETS_SEGMENT, "/")
  }

  /** Python's truth value of an optional string: present and non-empty. */
  predicate Truthy(s: Option<string>) {
    s.Some? && s.value != ""
  }
}
