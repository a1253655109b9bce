# X watcher server core, in Dafny

This project models the server side of an X-account watcher. The watcher reads
each watched account's posts through Nitter RSS mirrors. It keeps the posts
that mention AI and stores everything in one JSON document. The model covers:

- the scan (`POST /api/scan`). For each enabled account it fetches the feed,
  sorts it newest first and walks it up to the account's last seen id. It
  captures the new AI-related posts, truncated to 200 characters, and
  advances the account's watermark in place. Finally it puts the captured
  items in front of the stored ones;
- the RSS adapter (`lib/x.ts`):
  - HTML entity decoding and tag stripping;
  - the first `<tag>…</tag>` body and the split into `<item>` blocks;
  - the fixed AI keyword test;
  - the loop over the three mirrors;
- `normalizeHandle`, which turns `@handle` or a profile URL into a handle;
- the document store (`lib/db.ts`): the defaults `readDb` fills in, and
  `ensureDb`/`readDb`/`writeDb`/`updateDb` over a single stored document;
- the keyword, account, settings and item routes: their input validation,
  the updater each one hands to `updateDb`, and the handlers.

Modules:

| module | file | models |
|---|---|---|
| `Base` | base.dfy | `Option`, `Result`, and the `Reply` of a route (a body, or a 400 with a message) |
| `Text` | text.dfy | the JavaScript string primitives used: `\s`/`trim`, `toLowerCase`, substring search |
| `Seqs` | seqs.dfy | `Array.prototype.filter` |
| `Sorting` | sorting.dfy | `sort` with `(a, b) => key(b).localeCompare(key(a))`, a stable sort, newest first |
| `Feed` | feed.dfy | lib/x.ts |
| `Normalize` | normalize.dfy | lib/normalize.ts |
| `Db` | db.dfy | lib/db.ts; the file is the field `Store.file` |
| `ScanRoute` | scan.dfy | app/api/scan/route.ts |
| `KeywordsRoute` | keywords.dfy | app/api/keywords/route.ts |
| `AccountsRoute` | accounts.dfy | app/api/accounts/route.ts |
| `ItemsRoute` | items.dfy | app/api/items/route.ts |
| `SettingsRoute` | settings.dfy | app/api/settings/route.ts |

The world outside the code becomes parameters:

- the network is `http: string -> HttpOutcome`, which maps a URL to a
  response or a network error. The scan sees it through
  `FeedsOf(http): string -> Result<seq<RssItem>, FetchError>`, which is what
  `fetchRss` resolves to or throws for each handle;
- `new URL(...)` is an oracle `parseUrl: string -> Option<string>`, which
  gives the pathname or nothing when the constructor throws;
- the clock reading `new Date().toISOString()` is a parameter `now`.

Imperative code stays imperative:

- The scan is `ScanRoute.Scan`. It is a `while` loop over an `array<Account>`
  whose elements it overwrites, as the route mutates the account objects.
  The inner walk is `ScanRoute.WalkFeed`, a loop with `break` and
  `continue`.
- `fetchRss` is `Feed.FetchRss`, a loop that keeps the last error.

Each method is proved against a specification function: `ScanResult`,
`CaptureAll`/`Kept`/`Cutoff` and `RssOutcome`. The properties the source
promises are lemmas about those functions.

## Model

| member | source | states |
|---|---|---|
| Text.Trim | lib/normalize.ts:2-3 | `trim` gives a slice of its input with no whitespace at either end and only whitespace around it; it is empty exactly when the input is all whitespace; a text already trimmed is kept |
| Text.FindLeftmost | lib/x.ts:47-51 | the literal search behind a regular-expression match finds an occurrence, and none earlier; when it finds nothing there is no occurrence at all |
| Text.Contains | lib/x.ts:74 | `includes` holds exactly when the pattern occurs at some index |
| Text.LowerIdempotent | lib/x.ts:73 | lower-casing a lower-cased text changes nothing |
| Seqs.Filter | app/api/keywords/route.ts:38 | `filter` keeps exactly the elements that satisfy the predicate, and only elements of the input |
| Seqs.FilterConcat | app/api/scan/route.ts:53 | filtering distributes over concatenation, so the order of the kept elements is preserved |
| Sorting.SortDesc | app/api/scan/route.ts:15-17 | the sorted feed is in non-increasing key order and has the input's length |
| Sorting.SortDescPermutes | app/api/scan/route.ts:15-17 | the sort only reorders: same elements, each as often |
| Sorting.SortDescStable | app/api/items/route.ts:6 | for every key, the elements with that key keep their relative input order (stability) |
| Sorting.SortDescOfSorted | app/api/scan/route.ts:15-17 | a sequence already newest first is left as it is |
| Sorting.SortDescHead | app/api/scan/route.ts:15-19 | the head of the sorted feed is an element with the greatest key, the first such in input order |
| Normalize.NormalizeHandle | lib/normalize.ts:1-19 | the handle never has whitespace at either end, and whitespace-only input gives `""` |
| Normalize.JoinSplit | lib/normalize.ts:9 | `split` loses nothing: joining the pieces with the separator gives the path back |
| Normalize.PlainHandleIsTrimmed | lib/normalize.ts:2-18 | input that starts neither with `@` nor with `http` once trimmed comes back merely trimmed |
| Normalize.AtIsDropped | lib/normalize.ts:4 | one leading `@` in front of a plain handle is removed |
| Normalize.AtHandle | lib/normalize.ts:4-18 | `"@elonmusk"` becomes `"elonmusk"` |
| Normalize.UrlGivesFirstSegment | lib/normalize.ts:7-12 | an `http…` input that `new URL` accepts, with a non-empty segment in its pathname, becomes the first such segment (empty segments skipped), with one leading `@` and edge whitespace then removed |
| Normalize.ProfileUrlGivesHandle | lib/normalize.ts:7-12 | a pathname `/seg` of one plain segment (the usual profile URL) yields exactly `seg` |
| Normalize.ProfileUrlExample | lib/normalize.ts:1-19 | `https://x.com/elonmusk`, whose pathname is `/elonmusk`, gives `elonmusk` |
| Normalize.NestedUrlGivesFirstSegment | lib/normalize.ts:7-12 | a pathname `/seg/…` with a plain first segment yields `seg` whatever follows |
| Normalize.UrlWithoutSegmentIsKept | lib/normalize.ts:7-16 | a URL with no non-empty path segment, or one `new URL` rejects, keeps the handle it had after the `@` step |
| Normalize.FirstPathSegment | lib/normalize.ts:9-11 | the first non-empty segment of `/seg/rest` is `seg` |
| Db.WithDefaults | lib/db.ts:70-89 | keywords are never empty: they are kept only when present and non-empty, otherwise the 14 defaults; accounts default only when absent (an empty list stays empty); items default to `[]`; the Telegram flag defaults to off; settings pass through |
| Db.ReadAfterWrite | lib/db.ts:70-94 | reading back a written document gives it back exactly when its keyword list is non-empty |
| Db.EmptyKeywordsReadAsDefaults | lib/db.ts:77 | a document written with no keywords reads back with the default keywords and is otherwise unchanged |
| Db.Ensured | lib/db.ts:60-68 | `ensureDb` keeps an existing document and creates the default one only when none exists |
| Db.Store.EnsureDb | lib/db.ts:60-68 | the file afterwards is the old one if there was one, else the default document |
| Db.Store.ReadDb | lib/db.ts:70-89 | returns the defaulted document, whose keyword list is non-empty, and leaves the file as `ensureDb` does |
| Db.Store.WriteDb | lib/db.ts:91-94 | the file holds exactly the document written |
| Db.Store.UpdateDb | lib/db.ts:96-103 | stores exactly the updater's result on the document read, and returns it; a later read gives it back when its keywords are non-empty |
| Feed.ReplaceAllUntouched | lib/x.ts:31-41 | a replacement leaves a text alone when the pattern's first character does not occur in it |
| Feed.ReplaceAllShrinks | lib/x.ts:31-41 | replacing by something no longer than the pattern never lengthens the text |
| Feed.ReplaceAllUnescapes | lib/x.ts:33 | the `&amp;` step inverts writing every `&` as `&amp;` |
| Feed.DecodeHtmlPlainText | lib/x.ts:31-41 | text without `&` is decoded to itself |
| Feed.DecodeHtmlShrinks | lib/x.ts:31-41 | decoding never lengthens a text |
| Feed.DecodeHtmlDecodesTwice | lib/x.ts:31-41 | because `&amp;` is replaced first, `"&amp;lt;"` decodes to `"<"` |
| Feed.TagsToSpacesNoTag | lib/x.ts:44 | after tags become spaces, no `<` is followed by a `>` |
| Feed.TagsToSpacesOfNoTag | lib/x.ts:44 | a text holding no tag is left as it is |
| Feed.CollapseSpacesCollapsed | lib/x.ts:44 | after `\s+` becomes one space, every whitespace character is a space and no two are adjacent |
| Feed.CollapseSpacesOfCollapsed | lib/x.ts:44 | collapsing an already collapsed text changes nothing |
| Feed.StripHtmlClean | lib/x.ts:43-45 | `stripHtml` output has no tag, no whitespace at either end and no run of whitespace |
| Feed.StripHtmlIdempotent | lib/x.ts:43-45 | stripping a stripped text changes nothing |
| Feed.NextBlock | lib/x.ts:48-49 | the next match of `open[\s\S]*?close` starts at or after the search position and lies within the text, holding both delimiters |
| Feed.FoundBlock | lib/x.ts:48-49 | the match found is the shortest one at the first opening delimiter |
| Feed.NoBlock | lib/x.ts:48-49 | when no match is found, no opening delimiter has a closing one after it |
| Feed.SpansMatch | lib/x.ts:54 | the global match yields the non-overlapping leftmost-shortest blocks in document order, and no further block is left after the last one |
| Feed.SpansBounds | lib/x.ts:54 | every matched block lies within the text, at or after the search position |
| Feed.ExtractTagAbsent | lib/x.ts:47-51 | `extractTag` finds nothing exactly when no opening tag (in any letter case) is followed by a closing tag |
| Feed.ExtractTagLeftmostShortest | lib/x.ts:47-51 | what `extractTag` finds is the body between the leftmost opening tag and the nearest closing tag after it |
| Feed.ItemSpans | lib/x.ts:54 | the item spans are the matches of `/<item>[\s\S]*?<\/item>/g`: non-overlapping leftmost-shortest blocks in document order, none left after the last, each within the document |
| Feed.ItemBlocks | lib/x.ts:54 | one block of text per matched span, in document order |
| Feed.ParseItem | lib/x.ts:55-69 | `id` is the trimmed guid, else the link; `url` is the trimmed link; `createdAt` is the raw pubDate; content comes from the title unless it is empty, else the description; the content is tag-free, trimmed and collapsed |
| Feed.ParseRss | lib/x.ts:53-70 | one candidate per `<item>` block, in document order |
| Feed.IsAiRelatedIgnoresCase | lib/x.ts:72-75 | the AI test ignores letter case |
| Feed.ContainsAiIsRelated | lib/x.ts:7-22 | the two letters `ai` anywhere, in any case, make a text AI-related |
| Feed.SaidIsAiRelated | lib/x.ts:72-75 | even `"said"` is AI-related |
| Feed.LlmAnnouncementIsAiRelated | lib/x.ts:72-75 | a text mentioning `LLM` is AI-related |
| Feed.WeatherIsNotAiRelated | lib/x.ts:72-75 | `"weather update"` is not AI-related |
| Feed.FetchRss | lib/x.ts:77-96 | succeeds exactly when some mirror answers with a 2xx status, and then returns the parse of the first such mirror's body; otherwise fails with the last mirror's error |
| ScanRoute.Truncate | app/api/scan/route.ts:30 | `slice(0, 200)` is a prefix of length min(200, len) |
| ScanRoute.Cutoff | app/api/scan/route.ts:22-23 | the walk stops at the first candidate carrying a truthy last seen id and visits every candidate before it; it visits all when the id is not truthy |
| ScanRoute.AccountCaptures | app/api/scan/route.ts:10-13 | a disabled account, a failed fetch or an empty feed contributes no item |
| ScanRoute.StepAccount | app/api/scan/route.ts:10-41 | disabled account unchanged; failed fetch sets only `lastCheckedAt`; empty feed leaves the account unchanged; otherwise `lastCheckedAt` is `now` and `lastSeenId` is the newest candidate's id when non-empty, else the old one |
| ScanRoute.WalkFeed | app/api/scan/route.ts:22-35 | the inner loop captures exactly the candidates before the cutoff that are not stored and are AI-related, in order |
| ScanRoute.VisitAccount | app/api/scan/route.ts:11-41 | one pass of the outer loop yields the account as `StepAccount` gives it and the items of `AccountCaptures` |
| ScanRoute.Scan | app/api/scan/route.ts:7-51 | the updater's result is the captured items (account order, newest first) followed by the stored items, with every account stepped |
| ScanRoute.Post | app/api/scan/route.ts:5-55 | the file holds the scan's result, and the answer is the result's items captured at `now` |
| ScanRoute.AccountCapturesOrigin | app/api/scan/route.ts:20-34 | each item an account contributes comes from a candidate before its cutoff, not stored before, AI-related, with id/url/createdAt copied, its handle, `capturedAt = now`, no `read` field, content a prefix of min(200, len) characters |
| ScanRoute.ScanItemOrigin | app/api/scan/route.ts:10-35 | each item the scan adds comes, in that way, from an enabled account's candidate |
| ScanRoute.CapturedAtNow | app/api/scan/route.ts:33 | every captured item carries the scan's clock reading |
| ScanRoute.ScanReturnsNewItems | app/api/scan/route.ts:44-53 | the stored items follow the new ones unchanged and in order, and the answer is the new items followed by any stored item with the same `capturedAt` |
| ScanRoute.ScanLeavesDisabledAccounts | app/api/scan/route.ts:10 | disabled accounts come out unchanged and the account list keeps its length |
| ScanRoute.ScanIgnoresDisabledFeeds | app/api/scan/route.ts:10-12 | disabled accounts are never fetched: what the network answers for them does not affect the result |
| ScanRoute.LatestIsNewest | app/api/scan/route.ts:15-19 | the new watermark candidate is the feed's post with the greatest `createdAt`, the first such in feed order |
| ScanRoute.WalkStopsAtLastSeen | app/api/scan/route.ts:22-23 | on a feed already newest first, the walk visits exactly the posts before the first one carrying the last seen id (with `[t5,t4,t3,t2,t1]` and `t2`: `t5,t4,t3`) |
| ScanRoute.RepeatedPostStoredTwice | app/api/scan/route.ts:20-24 | a post appearing twice in one feed is stored twice: ids are checked only against the items stored before the scan |
| ScanRoute.RevisitCapturesNothing | app/api/scan/route.ts:15-38 | an account visited once, whose captured ids are now stored, yields nothing when visited again over the same feed: its new watermark stops the walk at the first candidate, or every candidate before it is already stored |
| ScanRoute.RescanCapturesNothing | app/api/scan/route.ts:10-42 | over a list of accounts stepped once, a second pass with the captured ids stored captures nothing |
| ScanRoute.ScanTwiceCapturesNothing | app/api/scan/route.ts:7-51 | a second scan over the same feeds, at any later clock reading, captures nothing |
| KeywordsRoute.KeywordParam | app/api/keywords/route.ts:11-14 | the request is rejected exactly when the keyword is whitespace only; otherwise the keyword is the trimmed text |
| KeywordsRoute.AddKeyword | app/api/keywords/route.ts:16-24 | nothing changes when the list has the keyword up to case; accounts, items, flag and settings are kept |
| KeywordsRoute.RemoveKeyword | app/api/keywords/route.ts:36-39 | drops exactly the keywords equal up to case, keeps the others and nothing else changes |
| KeywordsRoute.SetTelegram | app/api/keywords/route.ts:47-56 | sets the Telegram flag and keeps every other field |
| KeywordsRoute.AddKeywordPresent | app/api/keywords/route.ts:16-24 | after `POST` the list holds the keyword up to case |
| KeywordsRoute.AddKeywordAppends | app/api/keywords/route.ts:20-23 | a new keyword goes at the end, after the others in order |
| KeywordsRoute.AddKeywordKeepsNoCaseDuplicates | app/api/keywords/route.ts:17 | a list with no duplicates up to case keeps none after `POST` |
| KeywordsRoute.AddKeywordIdempotent | app/api/keywords/route.ts:16-24 | posting a keyword twice is posting it once |
| KeywordsRoute.RemoveUndoesAdd | app/api/keywords/route.ts:16-39 | deleting a keyword just added, that was not there before, restores the document |
| KeywordsRoute.Get | app/api/keywords/route.ts:4-7 | answers the stored (defaulted, non-empty) keywords and the Telegram flag |
| KeywordsRoute.Post | app/api/keywords/route.ts:9-27 | a whitespace-only keyword is answered 400 with the file untouched; otherwise the file holds the document with the trimmed keyword added, and its keywords are answered |
| KeywordsRoute.Delete | app/api/keywords/route.ts:29-42 | a whitespace-only keyword is answered 400 with the file untouched; otherwise the file holds the document with the keyword removed, and its keywords are answered |
| KeywordsRoute.Patch | app/api/keywords/route.ts:44-58 | the flag becomes the truthiness of `telegramEnabled` and is answered |
| AccountsRoute.HandleParam | app/api/accounts/route.ts:12-15 | the request is rejected exactly when the normalised handle is empty, in particular for whitespace-only input |
| AccountsRoute.FindAccount | app/api/accounts/route.ts:24 | `find` gives the first account with exactly that handle, or nothing exactly when none has it |
| AccountsRoute.AddAccount | app/api/accounts/route.ts:16-26 | nothing changes when an account has exactly the handle; otherwise one account is appended after the others; items, keywords, flag and settings are kept |
| AccountsRoute.RemoveAccount | app/api/accounts/route.ts:37-40 | drops exactly the accounts with that handle, keeps the others and nothing else changes |
| AccountsRoute.NewAccountIsFresh | app/api/accounts/route.ts:17-24 | the appended account is enabled with no last seen id: the lookup on line 24 never finds anything |
| AccountsRoute.AddAccountPresent | app/api/accounts/route.ts:16-26 | after `POST` an account has the handle |
| AccountsRoute.AddAccountKeepsUniqueHandles | app/api/accounts/route.ts:17 | unique handles stay unique after `POST` |
| AccountsRoute.HandlesAreCaseSensitive | app/api/accounts/route.ts:17 | `alice` is added next to `Alice` |
| AccountsRoute.RemoveUndoesAdd | app/api/accounts/route.ts:16-40 | deleting an account just added, that was not there before, restores the document |
| AccountsRoute.Get | app/api/accounts/route.ts:5-8 | answers the stored (defaulted) accounts |
| AccountsRoute.Post | app/api/accounts/route.ts:10-29 | an empty normalised handle is answered 400 with the file untouched; otherwise the file holds the document with the account added, and its accounts are answered |
| AccountsRoute.Delete | app/api/accounts/route.ts:31-42 | an empty normalised handle is answered 400 with the file untouched; otherwise the file holds the document with the accounts removed, and its accounts are answered |
| ItemsRoute.NewestFirstSpec | app/api/items/route.ts:6 | the listing is a permutation of the stored items, in non-increasing `capturedAt` order, items with equal `capturedAt` in stored order |
| ItemsRoute.Get | app/api/items/route.ts:4-8 | answers the stored items newest first and leaves the document as it was |
| SettingsRoute.PollIntervalParam | app/api/settings/route.ts:11-14 | the request is rejected exactly when the value is not a number or is below 60000 |
| SettingsRoute.SetPollInterval | app/api/settings/route.ts:16-22 | sets `pollIntervalMs`, keeps the other settings fields (creating the record when absent) and every other field of the document |
| SettingsRoute.Threshold | app/api/settings/route.ts:12 | 60000 is accepted; 59999 and a non-number are rejected |
| SettingsRoute.SetPollIntervalTwice | app/api/settings/route.ts:16-22 | setting the interval twice is setting it to the second value |
| SettingsRoute.Get | app/api/settings/route.ts:4-7 | answers the stored settings record |
| SettingsRoute.Patch | app/api/settings/route.ts:9-25 | a rejected value is answered 400 with the file untouched; otherwise the file holds the document with the interval set, and its settings are answered |

## Left out

- The network call of `fetchRss` (lib/x.ts:82-89), including its headers, is the oracle `http`. The answer for a URL is fixed during one scan.
- The filesystem and JSON text of lib/db.ts: `mkdir`, `access`, `readFile`, `writeFile`, `JSON.parse` and `stringify`. The file is the parsed document `Store.file`. A document that is not valid JSON, and fields of the wrong type, are not modelled.
- Concurrency: overlapping `updateDb` calls, and the lost update between them, are out of scope. Each handler is one atomic step.
- The clock: `new Date().toISOString()` is the parameter `now`. `createdAt` and `capturedAt` are opaque strings.
- Sorting.StrLe: `localeCompare` is plain lexicographic order on characters, not the locale's collation.
- Text.LowerChar: `toLowerCase` and the `i` flag of `extractTag`'s regular expression lower only the ASCII letters.
- Text.IsSpace: the whitespace class is the one `\s` and `trim` share. Unicode normalisation and surrogate pairs are not modelled; strings are sequences of characters.
- SettingsRoute.PollIntervalParam: `Number(...)` and `Number.isFinite` are not modelled. The value arrives as an integer, or as nothing when it is not a finite number. A fractional interval is not modelled.
- KeywordsRoute.KeywordParam and AccountsRoute.HandleParam take the text of the field. `String(...)` of a non-string JSON value is not modelled.
- KeywordsRoute.Get answers the Telegram flag only. The other fields of `notifications` are not modelled: the document keeps `notifications.telegram.enabled` as one flag.
- Db.DbShape keeps the five fields the routes use. Other top-level fields of the stored document are not modelled.
- Normalize.ProfileUrlExample assumes what `new URL` gives for its literal URL, the pathname `/elonmusk`, since `new URL` is an oracle here.
- ScanRoute.Scan computes `existingIds` once before the loop, where the route rebuilds it for each account. `db.items` does not change during the loop, so the set is the same.
- ScanRoute.Scan copies `db.accounts` into an array and writes the stepped accounts back. The route's `db.accounts.map((acc) => ({ ...acc }))` copy is the identity on values and is not modelled separately.
- ScanRoute.Scan and Db.WithDefaults do not model the sharing of the default account list. When the stored document has no `accounts`, `readDb` hands out the module constant's own array (lib/db.ts:86), and the scan then updates those account objects in place (app/api/scan/route.ts:37-40). If the write after that scan does not happen, or the data file is removed, later default reads and `ensureDb` (lib/db.ts:66) in the same process see the default account with the scan's `lastSeenId` and `lastCheckedAt`. The model keeps `Db.DefaultDb` constant.
- ScanRoute.Truncate: keeps the first 200 characters of the sequence. JavaScript's `slice(0, 200)` counts UTF-16 code units, so a post with characters outside the Basic Multilingual Plane keeps fewer characters there and may end in half a surrogate pair.
- The React page app/page.tsx is not part of this model; it is presentation only.
- lib/x-playwright.ts is not part of this model; nothing calls it.
- lib/notify.ts is not part of this model; nothing calls it.
