/** The data the tool handles: articles as the news service returns them and
    the snapshot that pairs the two collections it caches. */
module News {
  import opened Wrappers

  /** One news item. `title` and the source's `name` are read unconditionally
      by the listing and the detail view, so they are required here; the
      other fields may be absent. */
  datatype Article = Article(
    title: string,
    author: Option<string>,
    sourceName: string,
    description: Option<string>,
    url: Option<string>)

  /** The unit of caching: top headlines and the technology "everything"
      query, always stored and replaced together. */
  datatype Snapshot = Snapshot(headlines: seq<Article>, everything: seq<Article>)

  /** The snapshot used when nothing has been cached yet. */
  const EmptySnapshot: Snapshot := Snapshot([], [])
}
