# News CLI decision rules in Dafny

This project models the decision logic of a small command-line news client
(`index.js`). The client fetches two article collections from a news
service: top headlines, and an "everything" query for technology. It caches
the last pair that arrived in full, and lets the user list (optionally
filtered by title) or view one article of either collection by its 1-based
number.

The model is purely functional. The network, the console and the file system
are abstracted away.

- `wrappers.dfy` (`Wrappers`): `Option`, standing for `null`, `undefined` and `NaN`.
- `text.dfy` (`Text`): ASCII lower-casing, and substring containment as `includes` does it. The scan is proved equal to the positional definition.
- `news.dfy` (`News`): the `Article` and `Snapshot` records.
- `cache.dfy` (`Cache`): the cache file as a single-slot store `Option<Snapshot>`. JSON writing and parsing are the identity.
- `aggregator.dfy` (`Aggregator`): the all-or-nothing refresh rule of `fetchNews`. Each fetch outcome is `Option<seq<Article>>`.
- `presentation.dfy` (`Presentation`): the title filter, the numbered listing and the detail view by id.
- `cli.dfy` (`Cli`): command dispatch and one whole invocation (`main`).

Listing numbers are positions in the *filtered* list. After a filtered
`list-headlines`, `view-headline k` therefore shows the k-th article of the
whole collection, which need not be the one listed as `k`.
`Presentation.ListedNumbersIndexShown` states what the numbers do index.

## Model

| member | source | states |
|---|---|---|
| Text.LowerChar | index.js:70 | lower-casing maps each ASCII capital to its own lower-case letter ('A' to 'a' through 'Z' to 'z') and keeps every other character |
| Text.Lower | index.js:70 | lower-casing keeps the length and leaves no capital letter; each character is lower-cased on its own |
| Text.Contains | index.js:70 | `includes` finds the filter only in a title at least as long as the filter |
| Text.ContainsIgnoringCase | index.js:70 | the lower-cased title contains the lower-cased filter; a match needs a title at least as long as the filter, and the empty filter matches every title |
| Text.ContainsIffOccurs | index.js:70 | the left-to-right containment scan holds exactly when some position of the title starts an occurrence of the filter |
| Text.ContainsImpliesContainsIgnoringCase | index.js:70 | a filter that occurs verbatim in a title also matches it ignoring case |
| Text.ContainsIgnoringCaseSeesNoCase | index.js:70 | case-insensitive containment gives the same answer when either string is lower-cased first |
| Cache.LoadCache | index.js:13-16 | an absent cache file loads as empty headlines and empty everything; a present one loads as the snapshot it holds |
| Cache.SaveCache | index.js:19-21 | after a save the file exists and loads back as exactly the saved snapshot |
| Cache.SaveOverwrites | index.js:19-21 | a second save replaces the first completely; no history is kept |
| Cache.SaveForgetsPrevious | index.js:20 | the file after a save does not depend on what it held before |
| Aggregator.FetchNews | index.js:46-63 | if either fetch failed, the result is the loaded cache and the file is unchanged; if both succeeded, even with empty lists, the result holds the two lists and the file holds that snapshot |
| Aggregator.RefreshAgreesWithStore | index.js:55-62 | in both branches, loading the cache after the refresh returns exactly the snapshot the refresh returned |
| Aggregator.NoPartialPersist | index.js:55-62 | the file is either untouched or holds both fetched lists together; one list is never saved on its own |
| Aggregator.OneFailureDiscardsTheOther | index.js:55-58 | when one fetch fails, the other fetch's outcome has no influence on the result |
| Aggregator.FirstRunFallback | index.js:55-58 | with no cache file and both fetches failed, the refresh returns the empty snapshot and writes no file |
| Aggregator.FallbackReturnsLastSuccess | index.js:55-62 | a failed refresh after a successful one returns the snapshot the successful one fetched |
| Presentation.FilterByTitle | index.js:70 | the filtered list is no longer than the input and holds only input articles whose title contains the filter ignoring case |
| Presentation.FilterText | index.js:66 | an absent filter argument defaults to the empty text; a given one is used as it is |
| Presentation.Shown | index.js:66-71 | the shown articles are always the title-filtered list for the filter text, absent filter included; an absent or empty filter therefore shows the articles unchanged |
| Presentation.ListArticles | index.js:66-76 | a listing has exactly one line per shown article, so k lines for k filtered articles and never more than the input; line k is numbered k+1 and describes the k-th shown article, an input article whose title matches; with no or empty filter, line k describes article k and every article is listed |
| Presentation.ViewArticle | index.js:79-94 | an id shows an article exactly when it parsed and lies in 1..length, and then it shows the article at position id-1; NaN, zero, negative and too-large ids give only "Invalid ID" |
| Presentation.FilterAppend | index.js:70 | filtering a concatenation is the concatenation of the filtered parts |
| Presentation.FilterMembership | index.js:70 | an article is in the filtered list if and only if it is in the input and its title matches |
| Presentation.FilterKeepsExactlyMatching | index.js:70 | every input position whose title matches is kept, and every dropped position's title does not match |
| Presentation.FilterIsSubsequence | index.js:70 | the filtered list is an order-preserving subsequence of the input |
| Presentation.FilterKeepsAllIff | index.js:69-71 | filtering returns the input unchanged if and only if every title matches |
| Presentation.FilterIdempotent | index.js:69-70 | filtering twice with the same filter equals filtering once |
| Presentation.EmptyFilterKeepsAll | index.js:66-71 | filtering by the empty string keeps every article, so skipping the filter for "" changes nothing |
| Presentation.FilterIgnoresCase | index.js:70 | two filters that lower-case to the same text select the same articles |
| Presentation.ListingListsEveryMatch | index.js:69-74 | every input article whose title matches the filter text gets a line of the listing |
| Presentation.ListedNumbersIndexShown | index.js:73-74 | listing number k is the 1-based position of that line's article in the filtered list |
| Presentation.UnfilteredListingAgreesWithView | index.js:73-92 | without a filter, each printed number is a valid id, and viewing it shows the article on that line |
| Cli.ParseId | index.js:101-117 | a view command without an id argument parses as `NaN`; a given argument is parsed by `parseInt` |
| Cli.Dispatch | index.js:101-127 | usage is shown exactly for an unknown or absent command; list-headlines and list-tech are the listing of headlines and of everything with the given filter; view-headline and view-tech are the detail view of headlines and of everything for the parsed id; a view command without an id shows only "Invalid ID" |
| Cli.DispatchStaysInCollection | index.js:104-118 | a list command has no more lines than its collection has articles, and a view command shows an article of its own collection |
| Cli.HeadlineCommandsIgnoreEverything | index.js:104-114 | list-headlines and view-headline give the same output whatever the everything collection holds |
| Cli.TechCommandsIgnoreHeadlines | index.js:108-118 | list-tech and view-tech give the same output whatever the headlines collection holds |
| Cli.ListCommandsAreSymmetric | index.js:104-118 | the tech commands on a snapshot behave as the headline commands on the snapshot with its collections swapped |
| Cli.Run | index.js:97-129 | a run shows usage exactly for an unknown command; it leaves the cache file unchanged unless both fetches succeeded, and then the file holds both lists; the command runs on the refreshed snapshot, which is what the cache file then loads as |
| Cli.FallbackListingScenario | index.js:97-105 | with both fetches failed, list-headlines without a filter lists the cached headlines in stored order, numbered from 1, and leaves the file unchanged |
| Cli.ViewSurvivesLaterFailure | index.js:55-62 | an article viewed after a successful refresh is shown again by a later run whose refresh fails |

## Left out

- `safeFetch` (index.js:24-43): the HTTP request, its 5000 ms abort timer, the status check and the `articles` field check are network plumbing. Only their outcome is modelled, as a fetch result that is present or `None`. An empty array is a success, because an empty array is truthy in JavaScript.
- Environment loading of the API key and the two request URLs (index.js:7-9, 49-50) are configuration and string templates for an outside service.
- Real file I/O and JSON encoding (index.js:14-15, 20) are replaced by the `Option<Snapshot>` store, with serialisation as the identity. A corrupt cache file, on which `JSON.parse` throws unhandled, is not modelled. Neither is a failing read or write. A throwing `writeFileSync` (index.js:20) makes `fetchNews` and `main` reject unhandled, with no command output, and it may leave a partly written file.
- `parseInt` on a given argument is taken as a function parameter from strings (`None` for `NaN`). A missing argument is `undefined` and parses as `NaN`. The handling of whitespace, signs, trailing text and the `0x` prefix is not modelled.
- Text.LowerChar, Text.Lower: model ASCII lower-casing only. Non-ASCII capitals such as 'É' are kept, whereas full Unicode `toLowerCase` lowers them and can change the length; its tables are not part of this model.
- Articles missing `title` or `source`, and array entries that are not objects, are not modelled: `Article` requires both fields. In the code a missing `source` throws in the listing and the view (index.js:74, 90). A missing `title` prints as `undefined` when no filter is given (index.js:74, 88), and throws under a non-empty filter (index.js:70). Because every entry is a record, the falsy-entry case of the `!articles[idx]` test (index.js:81) cannot arise.
- Console output is not modelled: the log lines, the exact listing and detail text, and the usage message. A listing is modelled as its numbered lines, a detail view as the article it prints, and the usage text as one `Usage` value.
- The order and concurrency of the two awaited fetches are not modelled. Only their two outcomes reach the refresh rule.
