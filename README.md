# AnimePaheXtractor core, modelled in Dafny

AnimePaheXtractor is a desktop application that downloads anime episodes from
animepahe. This project models the decision and book-keeping logic around the
downloads and proves properties of it:

- **Variant selection** (`Extractor.getBestMatch`). The links response is
  flattened into one option list (`fetchEpisodeOptions`, `Serie.fetchOptions`).
  The options are grouped as audio → resolution → kwik URL. An audio group is
  picked with the fallback order requested, then `'jpn'`, then the first
  group. The resolution numerically closest to the requested quality is
  picked.
- **HLS playlist handling with resume state** (`Extractor.parseM3U` and the
  segment loop of `processEpisode`). This covers:
  - the segment lines after `#EXTINF:`;
  - the attribute list of `#EXT-X-KEY:`;
  - the `#EXT-X-METADATA:` line written for resuming;
  - the staleness check on the stored `streamURL`;
  - the rebuild of the per-segment status object;
  - the loop that downloads the segments not yet done, in ascending index
    order.
- **The two episode queues.**
  - `Extractor` queues a number only if it was never seen and drains first-in
    first-out, in fills of at most 7 slots.
  - `Extract` parses a comma-separated list, queues each unseen number, and
    drains last-in first-out. It reports what is left and carries on past
    every failure.
- **Small policies.**
  - the series folder name;
  - the retry policy of `apRequest.fetch`: three attempts and two recovery
    tasks;
  - the `Serie.siblings` registry;
  - the strict `X.Y.Z` version parser;
  - the platform → open-command table;
  - the byte-offset accounting of the resumable `downloadFile`.

The following are inputs to the model, not code in it:
- the network, the browser view, the file system, zlib, base64 and ffmpeg;
- the outcome of every request, file check, download and assembly, each given
  as a parameter (a function from the request to its result).

Modules follow the program's components:

| module | file | models |
|---|---|---|
| `Wrappers`, `Strings`, `SortedSets` | `wrappers.dfy`, `strings.dfy`, `sorted_sets.dfy` | `undefined`/errors; `split`, `join`, `includes`, the regex classes `\d \w \s .`; `Object.keys` order of integer keys and numeric `sort` |
| `Options` | `options.dfy` | option flattening |
| `Selection` | `selection.dfy` | `getBestMatch` |
| `Playlist` | `playlist.dfy` | the regular-expression scanning of playlist text |
| `Resume` | `resume.dfy` | `parseM3U` and the segment loop (class `SegmentLoop`) |
| `Queues` | `queues.dfy` | the seen-set filter and the status updates both queues share |
| `ExtractorQueue` | `extractor_queue.dfy` | `Extractor.queueEpisodes` / `runQueue` (class `Extractor`) |
| `ExtractQueue` | `extract_queue.dfy` | `Extract.queue` / `runQueue` (class `Extract`) |
| `Folder`, `ApRequest`, `Registry`, `Version`, `Platform`, `RangeDownload` | one file each | the small policies; `Registry` and `RangeDownload.Download` are classes |

Three behaviours of the code that the model keeps as written:
- `Extract.runQueue` throws a string for a missing episode, so the message
  reported is the string itself, `episode N not found`.
- `Serie.fetchOptions` has no emptiness check: an empty `data` gives an empty
  list. The drain loop then fails on `options[0].kwik`.
- An empty `#EXT-X-KEY` `URI` value is falsy, so no key file is requested for
  it.

## Model

| member | source | states |
|---|---|---|
| Options.FlattenLayout | app/apextractor.js:64-70 | the flat list has one option per key of every item, in item order then key order, and option `KeyCount(items[..i]) + j` is key `j` of item `i` with `resolution` set to that key |
| Options.FlattenOptions | app/database.js:190-193 | the nested push loops build exactly the flattened list |
| Options.FetchEpisodeOptions | app/apextractor.js:61-71 | fails with `No episode options found` exactly when `data` is absent or empty; otherwise returns the flattened list, one entry per key |
| Options.SerieFetchOptions | app/database.js:188-194 | fails exactly when `data` is absent (not iterable); an empty `data` gives an empty list; otherwise the flattened list |
| Selection.TreeAudio | app/apextractor.js:77-81 | the tree has a group for exactly the audio tracks offered; its first audio key is the first option's track |
| Selection.TreePairs | app/apextractor.js:77-81 | the tree holds exactly the offered (audio, resolution) pairs |
| Selection.TreeLastWins | app/apextractor.js:77-81 | when several options share audio and resolution, the stored URL is the last one's |
| Selection.ChosenAudio | app/apextractor.js:83 | the chosen audio is always a group of the tree |
| Selection.BestMatchAudio | app/apextractor.js:74-83 | the chosen group is the requested track (default `jpn`) when offered, else `jpn` when offered, else the first option's track |
| Selection.ClosestNearest | app/apextractor.js:84-85 | over strictly ascending keys the reduction returns a key with minimal distance to the quality; of equally near keys, the smaller; with quality `Infinity`, the smallest key |
| Selection.ChosenResolution | app/apextractor.js:84-85 | the chosen resolution is present in the chosen audio group |
| Selection.BestMatchResolution | app/apextractor.js:84-86 | the chosen resolution is offered for the chosen audio; it is nearest the quality among that track's options, with the smaller of equally near ones; with `Infinity` it is the smallest offered |
| Selection.FirstIncluding | app/apextractor.js:88 | the index of the first option whose kwik URL contains the URL; no earlier option contains it; `None` only when none does |
| Selection.GetBestMatch | app/apextractor.js:74-75 | fails with `No options to choose from` exactly on an empty option list |
| Selection.BestMatchUrl | app/apextractor.js:86-88 | the URL returned is the kwik URL of the last option with the chosen audio and resolution; the option reported exists and its kwik URL contains the URL |
| SortedSets.AscendingSpec | app/apextractor.js:84 | the key enumeration is strictly increasing and holds exactly the set's elements |
| SortedSets.AscendingRange | app/apextractor.js:126 | the indices `0..n-1` of a rebuilt status enumerate as `0, 1, …, n-1` |
| Strings.JoinSplit | app/apextractor.js:113 | joining the parts of a split with the separator gives back the string |
| Strings.SplitJoin | app/database.js:232 | splitting parts joined by a separator none of them holds gives back the parts |
| Strings.DecimalValue | app/main.js:49 | the decimal digits of `n` have the value `n` |
| Playlist.SegmentMatch | app/apextractor.js:121 | a match consumes a non-empty prefix and captures a non-empty line free of line terminators |
| Playlist.Segments | app/apextractor.js:121 | every segment is a non-empty line free of line terminators |
| Playlist.SegmentsOfRender | app/apextractor.js:121-122 | on a playlist written line by line, the segment list is exactly the URI line after each `#EXTINF` line, in playlist order |
| Playlist.RemoveQuotes | app/apextractor.js:114 | no `"` is left |
| Playlist.QuotedPairSplits | app/apextractor.js:114 | a part `K="V"` gives key `K` and value `V` |
| Playlist.ValueCutAtEquals | app/apextractor.js:114 | a value holding `=` is cut at it: only the text between the first and second `=` is kept |
| Playlist.AttributesOfQuoted | app/apextractor.js:113-117 | a written attribute list `K1="V1",K2="V2",…` maps each key to its value, a later key overwriting an earlier one |
| Playlist.TagLineFound | app/apextractor.js:101 | `/<tag>(.+)/` captures the rest of the line after the first tag occurrence |
| Playlist.TagSkipLines | app/apextractor.js:101 | lines that do not hold the tag are passed over by the search |
| Resume.FreshSpec | app/apextractor.js:125-128 | a rebuilt state lists the segments in order, has keys `0..n-1`, each entry `{url}` not done, and metadata `{streamURL: href, count: n, key}`; the key returned is the fetched bytes when non-empty |
| Resume.FastPath | app/apextractor.js:106 | a stored `streamURL` equal to the href returns the saved status and metadata unchanged, with the URLs in key order |
| Resume.FetchErrors | app/apextractor.js:106-122 | on a re-fetch: a failed playlist request, then a failed key request (made only when a key URI is named), then an empty segment list are the errors, in that order; otherwise the result is a success |
| Resume.Rebuild | app/apextractor.js:125-128 | a successful re-fetch yields one fresh entry per playlist segment, in order, with the href, the count and the fetched key bytes recorded |
| Resume.RequestsSuffice | app/apextractor.js:106-118 | the result of `parseM3U` depends only on the requests it makes: on the fast path it is the same whatever the playlist and key requests would give; when the playlist names no key URI it is the same whatever the key request would give |
| Resume.FreshUrls | app/apextractor.js:133 | the URLs of a rebuilt status, in key order, are the segments |
| Resume.MetadataLineFound | app/apextractor.js:129 | the metadata line written after the segment lines is the one the next run's `/#EXT-X-METADATA:(.+)/` captures |
| Resume.ResumeAfterRebuild | app/apextractor.js:98-106 | once a rebuilt state is stored, a call with the same href makes no request and returns the same state |
| Resume.StaleStateDiscarded | app/apextractor.js:125-126 | a stored `streamURL` that differs discards the saved statuses: every entry of the rebuilt status is not done, one per segment |
| Resume.PendingSpec | app/apextractor.js:219-220 | the loop visits exactly the entries not done, in strictly ascending index order |
| Resume.ResumeFromPrefix | app/apextractor.js:219-226 | with indices `0..n-1` of which `0..k-1` are done, the loop downloads `k, …, n-1` |
| Resume.MarkDoneSpec | app/apextractor.js:223 | marking keeps every index and URL, never clears `done`, sets `done` on the entries named and leaves the others unchanged |
| Resume.AllDoneAfterLoop | app/apextractor.js:219-226 | after a loop without failure every entry is done |
| Resume.SegmentLoop.DownloadMissing | app/apextractor.js:219-226 | downloads the pending entries in order up to and including the first failing one; `done` is set on exactly those that succeeded; it succeeds iff all pending downloads succeed |
| Resume.SegmentLoop.DownloadIn | app/apextractor.js:219-226 | the same over the key snapshot taken when the loop starts |
| Resume.Pass | app/apextractor.js:219-226 | the loop on the status value: the downloads made, the new status object and whether the loop completed, all as above |
| Queues.NewItemsMembers | app/apextractor.js:173-178 | a number is appended iff it occurs in the list and was never seen |
| Queues.NewItemsDistinct | app/database.js:233-238 | no number is appended twice |
| Queues.NewItemsConcat | app/apextractor.js:173-178 | queuing `a` then `b` appends what queuing `a + b` at once appends, in first-occurrence order |
| Queues.RequeueNothing | app/database.js:233-237 | re-queuing numbers all seen before appends nothing |
| Queues.DistinctFirst | app/database.js:232 | removing duplicates first (`new Set`) does not change what is appended |
| Queues.DistinctElements | app/database.js:232 | removing duplicates keeps the set of numbers |
| ExtractorQueue.Extractor.QueueEpisodes | app/apextractor.js:171-179 | appends the never-seen numbers in first-occurrence order, adds every number to `list`, and reports `'left'` with the new queue length |
| ExtractorQueue.Extractor.Refill | app/apextractor.js:187-192 | moves jobs from the front of the queue to the slots in order, never beyond 7 slots, stopping only when full or when the queue is empty |
| ExtractorQueue.BatchesSpec | app/apextractor.js:186-192 | the fills, one after another, are the queue in order; each holds 1 to 7 jobs and all but the last hold 7 |
| ExtractorQueue.Extractor.RunQueue | app/apextractor.js:183-200 | the queue is taken first-in first-out in those fills; afterwards it is empty; `'error'` with the count of all failures is reported when any episode failed, then `'end'` (the count once every episode has settled; see below) |
| ExtractQueue.TrimStartSpec | app/database.js:232 | trimming the front removes exactly the leading white space |
| ExtractQueue.TrimEndSpec | app/database.js:232 | trimming the end removes exactly the trailing white space |
| ExtractQueue.ShowToNumber | app/database.js:232 | `+` on a printed number gives the number back |
| ExtractQueue.PaddedToNumber | app/database.js:232 | white space around a token does not change its value |
| ExtractQueue.CoercedShown | app/database.js:232 | coercing printed numbers gives the numbers, and no printed number holds a comma |
| ExtractQueue.TokensRoundTrip | app/database.js:232 | splitting a comma-joined printed list and coercing each token gives the list back |
| ExtractQueue.Outcome | app/database.js:250-262 | one popped job yields at most one status update, never `'left'` |
| ExtractQueue.ReadyOutcome | app/database.js:256-259 | a job needing a download costs the options request and one download of the first option's kwik URL |
| ExtractQueue.StepWithoutRequest | app/database.js:251-254 | an episode missing from the series, or already on disk, makes no request; a missing one, and only a missing one, is reported as an error |
| ExtractQueue.DrainReportsLeft | app/database.js:247-249 | every job is popped whatever happens to it: the `'left'` counts go `n-1, …, 0` |
| ExtractQueue.DrainLastInFirstOut | app/database.js:247-259 | when every job needs a download, the downloads are made from the last queued number to the first |
| ExtractQueue.Extract.Queue | app/database.js:231-241 | `list` gains the tokens' numbers; the queue gains the distinct never-seen numbers in first-occurrence order; `'left'` is the new length |
| ExtractQueue.Extract.Enqueue | app/database.js:233-238 | the loop over the distinct numbers appends the never-seen ones in order and records all in `list` |
| ExtractQueue.Extract.Admit | app/database.js:234-237 | an unseen number joins `list` and the queue; a seen one changes nothing |
| ExtractQueue.Extract.Drain | app/database.js:247-263 | empties the queue; the updates and requests made are those of the drain, last job first |
| Folder.SanitizeAt | app/database.js:208 | the sanitised title has the title's length; a word character is kept, white space becomes `-`, anything else `_` |
| Folder.SanitizeSafe | app/database.js:208 | a sanitised title holds only word characters and `-`: no white space, no `/`, `\` or `.` |
| Folder.SanitizeWord | app/database.js:208 | a title of word characters is its own folder name |
| Folder.FolderStable | app/database.js:208-209 | the chosen name, stored back, is kept by a later call whatever the title |
| Folder.FolderFallback | app/database.js:208 | without a stored name the folder is made of safe characters only |
| ApRequest.Fetch | app/database.js:83-107 | the attempt loop computes the specified run |
| ApRequest.RunFromSpec | app/database.js:83-107 | at most 3 attempts; every attempt before the last failed and was followed by its task, which resolved; the last passed and gives its body, or failed with a rejecting task, or was the third and its error (or `fetch failed`) is returned; each task runs at most once, in order |
| ApRequest.AllAttemptsFail | app/database.js:102-106 | three failing attempts with resolving tasks run both tasks and return the third attempt's error, or `fetch failed` |
| ApRequest.FirstPassingWins | app/database.js:98-100 | the first attempt to pass gives the body |
| Registry.Registry.GetDetailsFromID | app/database.js:156-159 | the details of a registered id; the error `Couldn't retrieve Serie <id> from storage` otherwise |
| Registry.Registry.Create | app/database.js:152-154 | registers the series under its id, replacing an earlier one; its details are found afterwards and no other lookup changes |
| Version.ParseVersionSpec | app/main.js:46-49 | accepted exactly when the string is three non-empty digit groups separated by two dots; then the values of the groups; otherwise the error `Invalid version string: <s>` |
| Version.GroupsVersion | app/main.js:47-49 | three digit groups joined by dots parse to their values |
| Version.PrintedVersion | app/main.js:49 | a printed `a.b.c` parses back to `(a, b, c)` |
| Version.RejectsFourParts | app/main.js:47-48 | an extra part is rejected |
| Version.RejectsTwoParts | app/main.js:47-48 | a missing part is rejected |
| Version.RejectsEmptyGroup | app/main.js:47-48 | an empty group is rejected |
| Version.AcceptsLeadingZero | app/main.js:49 | a leading zero is accepted and ignored |
| Platform.OpenCmd | app/main.js:11-17 | `start` exactly for `win32`, `open` exactly for `darwin`, `xdg-open` for every other platform |
| RangeDownload.PlanFor | app/main.js:93-97 | the offset is the stored `completedBytes`, else 0; the `Range: bytes=<start>-` header is sent and the flag is `r+` exactly when it is positive, else `w` |
| RangeDownload.TotalOfLength | app/main.js:101 | the total is the content length plus the offset; an absent header counts as 0 |
| RangeDownload.OffsetsSpec | app/main.js:102-106 | after each chunk the offset is the initial one plus the bytes received so far, so it never decreases |
| RangeDownload.Download.OnData | app/main.js:102-107 | one chunk is written, advances the offset by its length, and is reported and saved with the new offset |
| RangeDownload.Download.Receive | app/main.js:102-113 | the whole response: every byte written in order, the offset advanced by the total length, one progress call and one save per chunk, then `total` saved at the end |
| RangeDownload.EndRecord | app/main.js:109-111 | the count saved at the end equals the bytes held exactly when the content length matches what was received |

## Left out

- Electron, the browser view, IPC, windows and the updater are not modelled. They are user interface and platform plumbing.
- Requests, file reads, `access` checks, zlib, base64 and ffmpeg are not modelled. Their outcomes are parameters of the model.
- File writes and `mkdir`/`rm` are assumed to succeed; no parameter stands for their outcome. This covers the playlist and status files written by `parseM3U` and the status flush after each segment.
- `Resume.SegmentLoop.DownloadMissing` does not model what a failure leaves on disk. A segment whose download fails midway, or whose status flush fails, stays not done and is fetched again on the next run. `downloadSegment` opens its file for appending, so the new bytes then follow the partial ones already there.
- `new URL(...)` validity and `.href` normalisation are not modelled. A URL the `URL` constructor rejects is folded into the outcome of the download it feeds.
- The error messages of requests, JSON parsing and assembly are not computed. They are inputs: in `Resume` and `ApRequest` the messages come from the outcome parameters, and in `ExtractQueue` from the `Env` parameters. The two `TypeError`s the drain loop's own code raises, on an absent `data` and on a missing first option, carry V8's message text.
- The `err.message || err` fallback is not modelled beyond its two cases: a string thrown for a missing episode, and an `Error` otherwise.
- `ExtractorQueue.Extractor.RunQueue` does not model the concurrency of `Promise.race`. The fills are modelled, but the model lets every episode settle before its failure count and `'end'`. In the code, `p.isPending` is not a Promise property, so the slots are emptied after every race. `Promise.race` waits only for the first job of a fill to settle, so the next fill starts while up to 6 jobs of the previous one still run. As a result:
  - more than 7 episodes can run at once (14 queued: up to 13);
  - after the last race, the failure count in `'error'` counts only the failures settled by then;
  - `'end'` can be sent while episodes are still downloading.
- `ExtractorQueue.Extractor.RunQueue` takes the outcome of `processEpisode` as an input (`fails`). That function's own steps are not modelled, and neither are its `'current'`, `'completed'` and `'error'` updates.
- `ExtractorQueue.Extractor.QueueEpisodes` takes the list `getEpisodeListFromIntervals` returns as its input. That method is not part of this model.
- The event-emitter wake-up of `Extract.runQueue` and the timeout race of `prepareView` are asynchronous signalling. Only the drain loop is modelled.
- `downloadSegment` and its progress fractions are not modelled. It is stream I/O plus floating point.
- The library-directory check and the `mkdir` of `Extract.create` are file-system I/O that only decide whether to go on.
- `ExtractQueue.ToNumber` models `+token` only for:
  - optional white space;
  - an optional sign;
  - decimal digits.
  Hexadecimal, exponents, decimals and `Infinity` give `NaN` in the model, where JavaScript gives a number.
- `ExtractQueue.ShowToNumber`, `ExtractQueue.CoercedShown` and `ExtractQueue.TokensRoundTrip` are stated over unbounded integers. JavaScript numbers are doubles, so they hold there only for magnitudes up to 2^53 (exact integers). From 10^21 up, `${num}` also prints in exponent form. Above 2^53 two digit tokens can coerce to one number (`9007199254740993` and `9007199254740992`), and `new Set` merges them where the model keeps both.
- Episode numbers are integers in the model. JavaScript object keys are strings, so the `Serie.siblings` ids `5` and `"5"` would collide; ids are modelled as `int`.
- `Folder` works on Dafny characters (Unicode scalar values), not UTF-16 code units, so a character outside the Basic Multilingual Plane becomes one `_` where JavaScript writes two.
- The `totalBytes` and `status: 'completed'` columns of `downloadFile`'s database updates are not tracked. Only `completedBytes` is recorded.
- The `error` event of `downloadFile`'s response is not modelled. It closes the file and rejects without saving.
- The poster and page requests and the `Database` module are not modelled: they are thin wrappers over I/O.
- `RangeDownload.ParseInt` models `parseInt` in base 10 only: leading white space, a sign, then the longest run of digits.
