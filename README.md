# Rently showings monitor — a Dafny model

This project models the core of a Kotlin service that polls a Rently activity-log page. The page embeds its table in an iframe. The service scrapes the showing rows from that table, keeps a persistent set of row fingerprints it has already seen, and sends the new rows to every configured notifier, one of them a Pushover push channel.

Modules (one per source file, plus two helpers):

- `Common` (`common.dfy`): `Option`, `Result`, and the filter-map that the row loop follows.
- `Text` (`text.dfy`): the Kotlin string operations the code relies on: `Char.isWhitespace`, `trim`, `isBlank`, `joinToString`, `Int.toString`, and "trim, then absent if empty". It also defines `Split`, which the program never calls. `Split` is the inverse of `joinToString` that states what a joined fingerprint, message or form body contains.
- `Rows` (`rows.dfy`): `ShowingRow`, its fingerprint and its display form.
- `Scraper` (`scraper.dfy`): `fetchShowings` with the browser replaced by a `Page` value that says what each lookup finds. Covers the URL precondition, the iframe lookup, the strict-then-fallback table choice, the row loop, the debug-reason sanitiser and the storage-state path.
- `Monitor` (`monitor.dfy`): the class `ShowingsMonitor`. Its `seen` field is the seen-showings store and its `log` records every save and notifier call in order. `Poll` is one cycle.
- `Pushover` (`pushover.dfy`): the credential guard, the title, the message (built in a loop), the form fields (a linked map extended in place) and the form-encoded body.

Facts about the source that the model carries:

- The push title is `New Rently showing(s): N`, with N the batch size in decimal (`src/main/kotlin/com/example/rently/notify/PushoverNotifier.kt:29`).
- Every new fingerprint is saved before any notifier is called (`src/main/kotlin/com/example/rently/monitor/ShowingsMonitor.kt:33-44`). A notifier failure therefore never causes a row to be sent again: notification is at most once per fingerprint.
- An absent `iframe#platform-iframe` makes `waitForSelector` throw, and no debug dump is written (`src/main/kotlin/com/example/rently/scrape/RentlyShowingsScraper.kt:87`). A dump is written only when the element exists but has no content frame (`src/main/kotlin/com/example/rently/scrape/RentlyShowingsScraper.kt:91-97`).
- The push message lists each row's raw name, date and source, untrimmed, unlike `toString` (`src/main/kotlin/com/example/rently/notify/PushoverNotifier.kt:30-36`). Scraped rows are already trimmed, so the two agree on scraper output.

## Model

| member | source | states |
|---|---|---|
| Text.TrimBounds | src/main/kotlin/com/example/rently/model/ShowingRow.kt:9 | `trim` returns a slice of its input; only whitespace is cut from either end |
| Text.Trim | src/main/kotlin/com/example/rently/model/ShowingRow.kt:9 | a trimmed string is empty or starts and ends with non-whitespace |
| Text.TrimBlank | src/main/kotlin/com/example/rently/scrape/RentlyShowingsScraper.kt:63 | a trimmed cell is blank iff the raw cell was blank, and then it is empty |
| Text.TrimIdempotent | src/main/kotlin/com/example/rently/scrape/RentlyShowingsScraper.kt:58-61 | trimming twice is the same as trimming once |
| Text.TrimIgnoresPadding | src/main/kotlin/com/example/rently/model/ShowingRow.kt:9 | adding whitespace around a string does not change its trim |
| Text.TrimmedNonEmpty | src/main/kotlin/com/example/rently/scrape/RentlyShowingsScraper.kt:170 | an optional setting is absent iff missing or blank; otherwise it is its non-empty trim (also lines 184 and PushoverNotifier.kt:46,50-51) |
| Text.TrimmedNonEmptyIdempotent | src/main/kotlin/com/example/rently/scrape/RentlyShowingsScraper.kt:184 | normalising an already normalised path changes nothing |
| Text.SplitJoin | src/main/kotlin/com/example/rently/notify/PushoverNotifier.kt:56 | splitting a `joinToString` result on its one-character separator returns the parts, when no part contains it |
| Text.NatToStringValue | src/main/kotlin/com/example/rently/notify/PushoverNotifier.kt:29 | reading back the decimal rendering of a size gives the size |
| Rows.Fingerprint | src/main/kotlin/com/example/rently/model/ShowingRow.kt:9 | the fingerprint is trimmed name, `\|`, trimmed date, `\|`, trimmed source |
| Rows.Display | src/main/kotlin/com/example/rently/model/ShowingRow.kt:10 | the display form is the four trimmed fields joined by ` \| `, in the order name, date, feedback, source |
| Rows.FingerprintIgnoresFeedback | src/main/kotlin/com/example/rently/model/ShowingRow.kt:9 | rows differing only in feedback have the same fingerprint |
| Rows.FingerprintIgnoresPadding | src/main/kotlin/com/example/rently/model/ShowingRow.kt:9 | whitespace around name, date or source does not change the fingerprint |
| Rows.FingerprintSplits | src/main/kotlin/com/example/rently/model/ShowingRow.kt:9 | when no trimmed identity field contains `\|`, splitting the fingerprint at `\|` recovers the three fields |
| Rows.FingerprintIdentifies | src/main/kotlin/com/example/rently/model/ShowingRow.kt:9 | for such rows, equal fingerprints iff equal trimmed name, date and source |
| Rows.FingerprintCollision | src/main/kotlin/com/example/rently/model/ShowingRow.kt:9 | a `\|` inside a field lets two different rows share a fingerprint |
| Scraper.ParseRow | src/main/kotlin/com/example/rently/scrape/RentlyShowingsScraper.kt:56-72 | a row is kept iff it has at least 4 cells and its name or date is non-blank; it is then the trimmed cells 0-3, all trimmed |
| Scraper.ParseRows | src/main/kotlin/com/example/rently/scrape/RentlyShowingsScraper.kt:48-73 | the row loop returns exactly the table's parsed rows, in table order |
| Scraper.ParseRowIgnoresExtraCells | src/main/kotlin/com/example/rently/scrape/RentlyShowingsScraper.kt:58-61 | cells after the fourth do not affect the row |
| Scraper.ParseRowKeepsBlankFeedback | src/main/kotlin/com/example/rently/scrape/RentlyShowingsScraper.kt:63 | blank feedback does not drop a row that has a name or a date; the feedback becomes empty |
| Scraper.ParsedAppend | src/main/kotlin/com/example/rently/scrape/RentlyShowingsScraper.kt:53-73 | parsing two tables concatenated is parsing each in turn (order preserved) |
| Scraper.ParsedLength | src/main/kotlin/com/example/rently/scrape/RentlyShowingsScraper.kt:53-73 | the output has at most as many rows as the table |
| Scraper.ParsedMembers | src/main/kotlin/com/example/rently/scrape/RentlyShowingsScraper.kt:53-73 | a row is in the output iff some table row parses to it |
| Scraper.ParsedRowsWellFormed | src/main/kotlin/com/example/rently/scrape/RentlyShowingsScraper.kt:58-63 | every output row is trimmed and has a non-blank name or date |
| Scraper.TryFindShowingsTable | src/main/kotlin/com/example/rently/scrape/RentlyShowingsScraper.kt:100-124 | strict selector first; the fallback is tried only if strict fails; both failing dumps `table_not_found` and is an error |
| Scraper.FetchShowings | src/main/kotlin/com/example/rently/scrape/RentlyShowingsScraper.kt:26-82 | a blank URL fails before any other work; success iff page, content frame and a table are found; result is the parsed chosen table; state saved only on success; each failure has its own error: an unreachable page and an absent iframe dump nothing and try no selector, a frame-less iframe dumps `platform_iframe_not_found`, a missing table dumps `table_not_found`; selectors tried are strict, then fallback only if strict fails; success dumps nothing |
| Scraper.Sanitize | src/main/kotlin/com/example/rently/scrape/RentlyShowingsScraper.kt:132 | same length; characters in `[a-zA-Z0-9._-]` kept, every other one becomes `_` |
| Scraper.SanitizeIsSafe | src/main/kotlin/com/example/rently/scrape/RentlyShowingsScraper.kt:151 | the sanitised reason has only safe characters, and sanitising is idempotent |
| Scraper.SanitizeKeepsSafe | src/main/kotlin/com/example/rently/scrape/RentlyShowingsScraper.kt:132 | a reason made only of safe characters is unchanged |
| Scraper.DebugFilesStayInDebugDir | src/main/kotlin/com/example/rently/scrape/RentlyShowingsScraper.kt:133-134 | with a safe timestamp, no debug file name contains a path separator |
| Monitor.ShowingsMonitor.constructor | src/main/kotlin/com/example/rently/monitor/ShowingsMonitor.kt:13-18 | a monitor starts with the given notifiers and store contents and an empty log |
| Monitor.ShowingsMonitor.Poll | src/main/kotlin/com/example/rently/monitor/ShowingsMonitor.kt:22-51 | batch = scraped rows whose fingerprint was not stored; store = old store + all scraped fingerprints; log gains all saves, then one call per notifier in order, or nothing when the batch is empty; a failed or empty scrape changes nothing |
| Monitor.ShowingsMonitor.SaveAll | src/main/kotlin/com/example/rently/monitor/ShowingsMonitor.kt:34 | every batch fingerprint is inserted (idempotently) and logged as a save, in batch order |
| Monitor.ShowingsMonitor.NotifyAll | src/main/kotlin/com/example/rently/monitor/ShowingsMonitor.kt:38-44 | every notifier is called with the batch, in list order, whatever the earlier ones did |
| Monitor.PollTwice | src/main/kotlin/com/example/rently/monitor/ShowingsMonitor.kt:30-46 | polling the same scrape twice: the second poll has an empty batch, stores nothing new and calls no notifier |
| Monitor.NewOnesMembers | src/main/kotlin/com/example/rently/monitor/ShowingsMonitor.kt:30 | a row is in the batch iff it was scraped and its fingerprint was not stored before the poll |
| Monitor.NewOnesKeepsDuplicates | src/main/kotlin/com/example/rently/monitor/ShowingsMonitor.kt:30 | a new row occurs in the batch as often as in the scrape, so duplicates within one scrape are all kept |
| Monitor.NewOnesAppend | src/main/kotlin/com/example/rently/monitor/ShowingsMonitor.kt:30 | the filter respects scrape order (it distributes over concatenation) |
| Monitor.NewOnesAllFresh | src/main/kotlin/com/example/rently/monitor/ShowingsMonitor.kt:30 | with no scraped fingerprint stored, the batch is the whole scrape |
| Monitor.NoNewOnes | src/main/kotlin/com/example/rently/monitor/ShowingsMonitor.kt:32 | an empty batch means every scraped fingerprint was already stored |
| Monitor.SavedFingerprints | src/main/kotlin/com/example/rently/monitor/ShowingsMonitor.kt:30-34 | saving only the batch still leaves every scraped fingerprint stored; nothing is removed |
| Monitor.NothingNewAfterPoll | src/main/kotlin/com/example/rently/monitor/ShowingsMonitor.kt:30-34 | after the scrape's fingerprints are stored, the same scrape gives an empty batch |
| Monitor.EachNotifierCalledOnce | src/main/kotlin/com/example/rently/monitor/ShowingsMonitor.kt:38-44 | in a cycle each configured notifier is called exactly once and no other notifier is called |
| Monitor.SavesBeforeNotifies | src/main/kotlin/com/example/rently/monitor/ShowingsMonitor.kt:33-44 | all saves precede all notifier calls; every call gets the whole batch; the saved fingerprints are exactly the batch's |
| Pushover.Credentials | src/main/kotlin/com/example/rently/notify/PushoverNotifier.kt:21-26 | no credentials iff token or user is missing or blank; otherwise both are trimmed and non-empty |
| Pushover.TrimmedOrEmptyBlank | src/main/kotlin/com/example/rently/notify/PushoverNotifier.kt:21-23 | a trimmed-or-empty setting is blank iff it is empty iff the setting is missing or blank |
| Pushover.Title | src/main/kotlin/com/example/rently/notify/PushoverNotifier.kt:29 | the title is `New Rently showing(s): ` followed by decimal digits, without a leading zero, whose value is the batch size |
| Pushover.BuildMessage | src/main/kotlin/com/example/rently/notify/PushoverNotifier.kt:30-36 | the `buildString` loop produces the specified message |
| Pushover.MessageOfEmptyBatch | src/main/kotlin/com/example/rently/notify/PushoverNotifier.kt:30-36 | an empty batch gives an empty message |
| Pushover.MessageLines | src/main/kotlin/com/example/rently/notify/PushoverNotifier.kt:30-35 | the message's lines are the first min(5, n) rows as `name \| date \| source`, then `… +K more` with K = n − 5 exactly when n > 5; no trailing newline |
| Pushover.PutNewKey | src/main/kotlin/com/example/rently/notify/PushoverNotifier.kt:47-51 | putting a new key into the linked map appends it at the end |
| Pushover.BuildForm | src/main/kotlin/com/example/rently/notify/PushoverNotifier.kt:39-51 | the in-place map building yields the specified field list |
| Pushover.FormKeys | src/main/kotlin/com/example/rently/notify/PushoverNotifier.kt:39-51 | keys in order: token, user, title, message; url and url_title iff the URL is non-blank; device and sound iff each is set and non-blank; no key repeats |
| Pushover.FormBodyParts | src/main/kotlin/com/example/rently/notify/PushoverNotifier.kt:56 | the body splits at `&` into one `key=encode(value)` part per field, in field order |
| Pushover.NotifyNewShowings | src/main/kotlin/com/example/rently/notify/PushoverNotifier.kt:20-64 | skipped iff credentials are blank; otherwise the posted body is the encoded form of title, message and fields; a failed POST is caught and reported as an outcome, never raised |

## Left out

- Playwright: launching the browser, contexts, navigation, timeouts, the network-idle wait, `innerText`, screenshots, and loading or saving the storage state. A `Page` value says what each lookup finds. A table is its body rows' cell texts.
- Debug dumps: the directory creation, file writes and `LocalDateTime.now()` are left out. Only the dump reasons and the sanitised file names are modelled, with the timestamp as a parameter.
- Scraper.Sanitize: works on code points. The JVM regex replaces a surrogate pair (one code point) with one `_`, so lengths agree in code points, not UTF-16 units. The source only passes ASCII reasons.
- The HTTP POST, `RestClient` and `java.net.URLEncoder`. `encode` is a function parameter, and the POST is reduced to whether it throws. The response status is only logged.
- The JPA entity and repository, and the first-seen timestamp. The store is a set of fingerprints with membership and idempotent insert.
- Spring scheduling (the fixed delay), the `@ConditionalOnProperty` enabling of the push notifier, configuration classes, the application bootstrap, the status controller, `ConsoleNotifier` (it only logs) and all logging. This includes the warning when no notifier is configured; with no notifiers the model's cycle saves and calls no one.
- Notifiers are identified by their position in the list. A notifier's success or failure is an input to `Poll`, not computed by running it.
