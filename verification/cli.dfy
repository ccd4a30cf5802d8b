/** The command-line entry point `main`: refresh first, then run the one
    command named by the first argument on the snapshot the refresh chose.
    The arguments are `command` and `param` (absent when not given), and
    `parseInt` is the host's integer parser on a string, `None` standing for
    `NaN`. */
module Cli {
  import opened Wrappers
  import opened News
  import opened Cache
  import opened Aggregator
  import opened Presentation

  const ListHeadlinesCommand: string := "list-headlines"
  const ListTechCommand: string := "list-tech"
  const ViewHeadlineCommand: string := "view-headline"
  const ViewTechCommand: string := "view-tech"

  /** One of the four commands the tool understands. */
  predicate IsKnownCommand(command: Option<string>) {
    command.Some?
    && command.value in {ListHeadlinesCommand, ListTechCommand, ViewHeadlineCommand, ViewTechCommand}
  }

  /** The id a view command asks for. A missing argument is `undefined`,
      which `parseInt` turns into `NaN`. */
  function ParseId(param: Option<string>, parseInt: string -> Option<int>): (id: Option<int>)
    ensures param.None? ==> id.None?
    ensures param.Some? ==> id == parseInt(param.value)
  {
    match param
    case None => None
    case Some(p) => parseInt(p)
  }

  /** Runs one command on a snapshot. The headline commands work on
      `headlines`, the tech commands on `everything`; any other command, or
      none, shows the usage text and touches no collection. */
  function Dispatch(snapshot: Snapshot, command: Option<string>, param: Option<string>,
                    parseInt: string -> Option<int>): (out: Output)
    ensures out.Usage? <==> !IsKnownCommand(command)
    ensures out.Listing? <==> command == Some(ListHeadlinesCommand) || command == Some(ListTechCommand)
    ensures command == Some(ListHeadlinesCommand) ==> out == Listing(ListArticles(snapshot.headlines, param))
    ensures command == Some(ListTechCommand) ==> out == Listing(ListArticles(snapshot.everything, param))
    ensures command == Some(ViewHeadlineCommand) ==> out == ViewArticle(snapshot.headlines, ParseId(param, parseInt))
    ensures command == Some(ViewTechCommand) ==> out == ViewArticle(snapshot.everything, ParseId(param, parseInt))
    ensures (command == Some(ViewHeadlineCommand) || command == Some(ViewTechCommand)) && param.None? ==>
      out.InvalidId?
  {
    if command == Some(ListHeadlinesCommand) then Listing(ListArticles(snapshot.headlines, param))
    else if command == Some(ListTechCommand) then Listing(ListArticles(snapshot.everything, param))
    else if command == Some(ViewHeadlineCommand) then ViewArticle(snapshot.headlines, ParseId(param, parseInt))
    else if command == Some(ViewTechCommand) then ViewArticle(snapshot.everything, ParseId(param, parseInt))
    else Usage
  }

  /** Each command stays inside its own collection: a listing has no more
      lines than its collection has articles, and a view shows an article of
      its collection. */
  lemma DispatchStaysInCollection(snapshot: Snapshot, command: Option<string>, param: Option<string>,
                                  parseInt: string -> Option<int>)
    ensures var out := Dispatch(snapshot, command, param, parseInt);
      && (command == Some(ListHeadlinesCommand) ==> |out.lines| <= |snapshot.headlines|)
      && (command == Some(ListTechCommand) ==> |out.lines| <= |snapshot.everything|)
      && (command == Some(ViewHeadlineCommand) && out.Details? ==> out.article in snapshot.headlines)
      && (command == Some(ViewTechCommand) && out.Details? ==> out.article in snapshot.everything)
  {
  }

  /** The headline commands see nothing of `everything`. */
  lemma HeadlineCommandsIgnoreEverything(h: seq<Article>, e1: seq<Article>, e2: seq<Article>, param: Option<string>,
                                         parseInt: string -> Option<int>)
    ensures Dispatch(Snapshot(h, e1), Some(ListHeadlinesCommand), param, parseInt)
         == Dispatch(Snapshot(h, e2), Some(ListHeadlinesCommand), param, parseInt)
    ensures Dispatch(Snapshot(h, e1), Some(ViewHeadlineCommand), param, parseInt)
         == Dispatch(Snapshot(h, e2), Some(ViewHeadlineCommand), param, parseInt)
  {
  }

  /** The tech commands see nothing of `headlines`. */
  lemma TechCommandsIgnoreHeadlines(h1: seq<Article>, h2: seq<Article>, e: seq<Article>, param: Option<string>,
                                    parseInt: string -> Option<int>)
    ensures Dispatch(Snapshot(h1, e), Some(ListTechCommand), param, parseInt)
         == Dispatch(Snapshot(h2, e), Some(ListTechCommand), param, parseInt)
    ensures Dispatch(Snapshot(h1, e), Some(ViewTechCommand), param, parseInt)
         == Dispatch(Snapshot(h2, e), Some(ViewTechCommand), param, parseInt)
  {
  }

  /** A list command on one collection shows what a list command on the other
      would show had the collections been swapped. */
  lemma ListCommandsAreSymmetric(s: Snapshot, param: Option<string>, parseInt: string -> Option<int>)
    ensures Dispatch(s, Some(ListTechCommand), param, parseInt)
         == Dispatch(Snapshot(s.everything, s.headlines), Some(ListHeadlinesCommand), param, parseInt)
    ensures Dispatch(s, Some(ViewTechCommand), param, parseInt)
         == Dispatch(Snapshot(s.everything, s.headlines), Some(ViewHeadlineCommand), param, parseInt)
  {
  }

  /** The result of a whole run: what was shown and the cache file after. */
  datatype RunResult = RunResult(output: Output, file: CacheFile)

  /** One invocation of the tool: refresh from the two fetch outcomes, then
      dispatch the command on the snapshot the refresh returned. The refresh
      happens whatever the command, even for the usage text. */
  function Run(file: CacheFile, headlines: Option<seq<Article>>, everything: Option<seq<Article>>,
               command: Option<string>, param: Option<string>,
               parseInt: string -> Option<int>): (r: RunResult)
    ensures r.output.Usage? <==> !IsKnownCommand(command)
    ensures headlines.None? || everything.None? ==> r.file == file
    ensures headlines.Some? && everything.Some? ==> r.file == Some(Snapshot(headlines.value, everything.value))
    ensures r.output == Dispatch(LoadCache(r.file), command, param, parseInt)
  {
    var refreshed := FetchNews(file, headlines, everything);
    RefreshAgreesWithStore(file, headlines, everything);
    RunResult(Dispatch(refreshed.snapshot, command, param, parseInt), refreshed.file)
  }

  /** With the credential rejected both fetches fail: the cache file is left
      as it was, and `list-headlines` without a filter lists the cached
      headlines in their stored order, numbered from 1. */
  lemma FallbackListingScenario(file: CacheFile, parseInt: string -> Option<int>)
    ensures var r := Run(file, None, None, Some(ListHeadlinesCommand), None, parseInt);
      var cached := LoadCache(file).headlines;
      && r.file == file
      && r.output.Listing?
      && |r.output.lines| == |cached|
      && forall k :: 0 <= k < |cached| ==>
           r.output.lines[k].number == k + 1 && Describes(r.output.lines[k], cached[k])
  {
  }

  /** After two successful fetches a view command shows the freshly fetched
      article at the requested position, and a later run whose fetches fail
      shows that same article from the cache. */
  lemma ViewSurvivesLaterFailure(file: CacheFile, h: seq<Article>, e: seq<Article>, param: Option<string>,
                                 parseInt: string -> Option<int>)
    requires param.Some? && parseInt(param.value).Some? && 1 <= parseInt(param.value).value <= |h|
    ensures var r1 := Run(file, Some(h), Some(e), Some(ViewHeadlineCommand), param, parseInt);
      var r2 := Run(r1.file, None, Some(e), Some(ViewHeadlineCommand), param, parseInt);
      && r1.output == Details(h[parseInt(param.value).value - 1])
      && r2.output == r1.output
  {
  }
}
