/** The refresh rule of `fetchNews`: two fetches, all or nothing. Each fetch
    outcome is the list of articles the service returned, or None when the
    request failed, timed out, answered with a non-success status or lacked
    an `articles` field. An empty list is a success. */
module Aggregator {
  import opened Wrappers
  import opened News
  import opened Cache

  /** The snapshot a refresh hands to the commands, and the cache file as the
      refresh leaves it. */
  datatype Refresh = Refresh(snapshot: Snapshot, file: CacheFile)

  /** Decides a refresh from the two fetch outcomes and the cache file as it
      was before. */
  function FetchNews(file: CacheFile, headlines: Option<seq<Article>>, everything: Option<seq<Article>>): (r: Refresh)
    ensures headlines.None? || everything.None? ==>
      r.snapshot == LoadCache(file) && r.file == file
    ensures headlines.Some? && everything.Some? ==>
      r.snapshot.headlines == headlines.value && r.snapshot.everything == everything.value
      && r.file == Some(r.snapshot)
  {
    if headlines.None? || everything.None? then
      Refresh(LoadCache(file), file)
    else
      var latest := Snapshot(headlines.value, everything.value);
      Refresh(latest, SaveCache(file, latest))
  }

  /** Whatever the outcome, the snapshot handed to the commands is exactly
      what the cache file then reads back as. */
  lemma RefreshAgreesWithStore(file: CacheFile, headlines: Option<seq<Article>>, everything: Option<seq<Article>>)
    ensures LoadCache(FetchNews(file, headlines, everything).file) == FetchNews(file, headlines, everything).snapshot
  {
  }

  /** No partial snapshot is ever persisted: after a refresh the file is
      either untouched or holds both fetched collections together. */
  lemma NoPartialPersist(file: CacheFile, headlines: Option<seq<Article>>, everything: Option<seq<Article>>)
    ensures var r := FetchNews(file, headlines, everything);
      r.file == file
      || (headlines.Some? && everything.Some? && r.file == Some(Snapshot(headlines.value, everything.value)))
    ensures var r := FetchNews(file, headlines, everything);
      r.file != file ==> r.file.value.headlines == headlines.value && r.file.value.everything == everything.value
  {
  }

  /** A success on one side is discarded when the other side fails: the
      result does not depend on the successful outcome at all. */
  lemma OneFailureDiscardsTheOther(file: CacheFile, h1: Option<seq<Article>>, h2: Option<seq<Article>>, e1: Option<seq<Article>>, e2: Option<seq<Article>>)
    ensures FetchNews(file, None, e1) == FetchNews(file, None, e2)
    ensures FetchNews(file, h1, None) == FetchNews(file, h2, None)
  {
  }

  /** On the first run, with no cache file, two failed fetches give the empty
      snapshot and still write nothing. */
  lemma FirstRunFallback()
    ensures FetchNews(None, None, None) == Refresh(EmptySnapshot, None)
  {
  }

  /** A refresh after a successful one that then fails hands out the
      snapshot of the successful one. */
  lemma FallbackReturnsLastSuccess(file: CacheFile, h: seq<Article>, e: seq<Article>, h2: Option<seq<Article>>, e2: Option<seq<Article>>)
    requires h2.None? || e2.None?
    ensures FetchNews(FetchNews(file, Some(h), Some(e)).file, h2, e2).snapshot == Snapshot(h, e)
  {
  }
}
