/** The cache file as a single-slot store. The file either does not exist or
    holds one snapshot; writing JSON and parsing it back is the identity on
    snapshots, so the file's contents are the snapshot itself. */
module Cache {
  import opened Wrappers
  import opened News

  /** The state of the cache file: absent, or holding one snapshot. */
  type CacheFile = Option<Snapshot>

  /** Reads the cache: an absent file reads as the empty snapshot, a present
      one as the snapshot it holds. */
  function LoadCache(file: CacheFile): (s: Snapshot)
    ensures file.None? ==> s.headlines == [] && s.everything == []
    ensures file.Some? ==> s == file.value
  {
    file.GetOr(EmptySnapshot)
  }

  /** Writes `s` over whatever the file held before; no earlier contents are
      kept. */
  function SaveCache(file: CacheFile, s: Snapshot): (file': CacheFile)
    ensures file'.Some?
    ensures LoadCache(file') == s
  {
    Some(s)
  }

  /** Saving twice keeps only the second snapshot: the store has no history. */
  lemma SaveOverwrites(file: CacheFile, s1: Snapshot, s2: Snapshot)
    ensures SaveCache(SaveCache(file, s1), s2) == SaveCache(file, s2)
  {
  }

  /** What a save leaves behind does not depend on what was there before. */
  lemma SaveForgetsPrevious(file1: CacheFile, file2: CacheFile, s: Snapshot)
    ensures SaveCache(file1, s) == SaveCache(file2, s)
  {
  }
}
