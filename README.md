# Resource cache of the native-boosted web view

A Dafny model of the resource cache in front of the sample app's web view
(`NativeBoostedWebviewSample/ContentView.swift`). The app registers a
handler for the `custom-http` scheme. Every request of that scheme is
answered from an in-memory dictionary of prefetched bytes when it can be,
and from the network otherwise. The dictionary is filled at start-up by
walking a JSON manifest of URLs. Each URL is loaded from a file in the
cache directory if one exists, and is otherwise downloaded and written to
that file.

Modules, one per part of the cache:

- `Io`: bytes, URL responses, and the `Environment` of oracles that stands
  for everything the cache calls but cannot see. These are URL parsing,
  `URLSession` completions, file reads and writes, and JSON decoding of the
  manifest.
- `MimeTypes`: `getMimeType`, the content type chosen by file-name suffix.
- `Sanitizer`: the `replacingOccurrences(of: "custom-", with: "")` that turns
  a request URL back into the real URL.
- `FilePaths`: `getFilePath`, the cache file named after the URL's last path
  component.
- `Store`: the cache itself. `CacheState` pairs `preloadedData` (URL string
  to bytes) with the cache directory (file name to bytes).
  `downloadAndCacheFile` does its work in two steps: `Begin` is what it does
  before it returns, and `Complete` is the completion handler of the data
  task it may start. `preloadFiles` likewise has two phases. `CheckEntries`
  is its loop over the manifest, which calls `downloadAndCacheFile` for every
  entry with a string `url` that parses, before any data task completes. `CompleteAll` then runs the started
  tasks' completion handlers. `Preload` is the two phases together. The class
  `ResourceStore` holds the two maps, and the list of started data tasks, as
  fields that its methods update in place. Those methods are proved against
  the functions.
- `SchemeHandler`: `webView(_:start:)`. `Intercept` gives the calls the
  handler makes on the scheme task. `Start` makes them on a `SchemeTask` object,
  one call at a time.

Behaviour of the code that the model keeps:

- A failed disk write after a successful download leaves memory unchanged
  (lines 118-124).
- A cache miss that is served from the network does not put the fetched
  bytes in memory (lines 176-189).
- A failed network fetch on a miss fails the scheme task with the transport
  error itself (lines 177-179). Error 500 is used only when data or response
  is missing (lines 182-188). Error 400 is used only when the request has no
  URL (lines 159-161).
- A sanitised URL that does not parse crashes the handler (line 165). The
  model makes it a precondition (`SchemeHandler.Startable`).
- The marker is removed wherever it occurs in the URL, not only as a
  prefix (line 164).
- Two URLs with the same last path component share one cache file
  (lines 129-132). Within one manifest walk both are fetched, because every
  file check (line 104) runs before any download completes. Each URL then
  keeps its own bytes in memory while the file holds the bytes written last
  (`Store.CollidingEntriesBothFetched`). In a later process run both URLs
  find that file and load the same bytes
  (`Store.ResourceStore.constructor`, `Store.CollidingEntriesShareWrittenFile`,
  `Store.SharedFileSharedBytes`).

## Model

| member | source | states |
|---|---|---|
| `MimeTypes.GetMimeType` | NativeBoostedWebviewSample/ContentView.swift:195-209 | The result is one of six content types. `.js`, `.css`, `.html`, `.png` give JavaScript, CSS, HTML and PNG. `.jpg` and `.jpeg` give JPEG. The result is `application/octet-stream` exactly when none of these suffixes matches. |
| `MimeTypes.ExtensionsExclusive` | NativeBoostedWebviewSample/ContentView.swift:195-209 | A string ends with at most one of the recognised extensions (the two JPEG spellings aside), so the priority order of the chain never changes the answer. |
| `MimeTypes.QueryStringHidesExtension` | NativeBoostedWebviewSample/ContentView.swift:195-209 | `a/b.js` is JavaScript; `a.js?v=1` and `x.unknown` are `application/octet-stream`. |
| `Sanitizer.Sanitize` | NativeBoostedWebviewSample/ContentView.swift:164 | Removing the markers never lengthens the string, and it shortens it by a whole number of markers. |
| `Sanitizer.UnchangedIffNoMarker` | NativeBoostedWebviewSample/ContentView.swift:164 | Sanitising leaves a string unchanged if and only if it contains no `custom-`. |
| `Sanitizer.StripsSchemeMarker` | NativeBoostedWebviewSample/ContentView.swift:164 | `"custom-" + s` sanitises to `s` when `s` contains no `custom-`. |
| `Sanitizer.DeletesMarkerAfterClearPrefix` | NativeBoostedWebviewSample/ContentView.swift:164 | When no marker starts inside `x`, the marker after `x` is removed as well: `x + "custom-" + y` sanitises to `x` followed by sanitised `y`. |
| `Sanitizer.DeletesEveryOccurrence` | NativeBoostedWebviewSample/ContentView.swift:164 | `custom-http://h/custom-a.js` sanitises to `http://h/a.js`: every occurrence goes, not only the prefix. |
| `Sanitizer.MayLeaveMarker` | NativeBoostedWebviewSample/ContentView.swift:164 | One pass can create a marker: `custcustom-om-` sanitises to `custom-`. |
| `FilePaths.FilePath` | NativeBoostedWebviewSample/ContentView.swift:129-132 | The cache file name is a single segment: it contains no `/`, `?` or `#`, so every file lies directly in the one cache directory. Its two parts are characterised by `PathPartIsPlainPrefix` and `AfterLastSlashIsFinalSegment`. |
| `FilePaths.PathPartIsPlainPrefix` | NativeBoostedWebviewSample/ContentView.swift:131 | The path of a URL string is its longest prefix without `?` or `#`. |
| `FilePaths.AfterLastSlashIsFinalSegment` | NativeBoostedWebviewSample/ContentView.swift:131 | The last path component is a slash-free suffix of the path, preceded by a slash or by the start of the path. |
| `FilePaths.SameFinalSegmentSameFile` | NativeBoostedWebviewSample/ContentView.swift:129-132 | For any two strings `dir1`, `dir2` without `?` or `#`, and any segment `n`, `dir1 + "/" + n` is stored in the file `n`, and so is `dir2 + "/" + n`. URLs that share a final segment share a file. (For the empty segment, and for a `dir` that is only a scheme and host, see `FilePaths.FilePath` under Left out.) |
| `FilePaths.QueryIsNotPartOfName` | NativeBoostedWebviewSample/ContentView.swift:129-132 | A query string after the last segment does not change the file name. |
| `FilePaths.CollidingFileNames` | NativeBoostedWebviewSample/ContentView.swift:129-132 | `http://h1/x/r.png` and `http://h2/y/r.png` are both stored in the file `r.png`. |
| `Store.Begin` | NativeBoostedWebviewSample/ContentView.swift:101-110 | What `downloadAndCacheFile` does before it returns. The disk is not touched and only the URL's memory entry can change. When no file exists (a data task is started) nothing changes. Otherwise the entry, if it changes, holds exactly its file's bytes. |
| `Store.Complete` | NativeBoostedWebviewSample/ContentView.swift:112-125 | The completion handler of a data task. Only the URL's memory entry and its file can change, and nothing is removed. If anything changes, the URL's entry equals the bytes now in its file. What it writes, for every cache state including one where the file already exists, is given by `CompleteOutcomes`. |
| `Store.BeginOutcome` | NativeBoostedWebviewSample/ContentView.swift:104-110 | An existing file that can be read is loaded: the URL's entry becomes the file's bytes and the disk is unchanged. No file, or a failed read, changes nothing. |
| `Store.CompleteOutcomes` | NativeBoostedWebviewSample/ContentView.swift:112-125 | In any cache state, a delivered fetch whose write succeeds puts the fetched bytes in the URL's file, replacing what it held, and in the URL's memory entry. A failed fetch or a failed write changes nothing. |
| `Store.Download` | NativeBoostedWebviewSample/ContentView.swift:101-127 | One call whose data task, if any, completes at once. Only the memory entry for the URL and the file for the URL can change. Nothing is removed, and an existing file is never rewritten. If the memory changes, the URL's entry then equals the bytes of its file. |
| `Store.DownloadOutcomes` | NativeBoostedWebviewSample/ContentView.swift:104-124 | Existing file read successfully: memory gets the file's bytes and the disk is unchanged. Read fails: nothing changes. Fetch delivers and the write succeeds: file and memory both hold the fetched bytes. Fetch or write fails: nothing changes. |
| `Store.CachedFileIgnoresNetwork` | NativeBoostedWebviewSample/ContentView.swift:104-110 | When the cache file exists, the result does not depend on the network at all: no fetch is made. |
| `Store.DownloadKeepsCoherence` | NativeBoostedWebviewSample/ContentView.swift:101-127 | If every memory entry equals its URL's cache file before a download, the same holds after it. |
| `Store.CheckEntries` | NativeBoostedWebviewSample/ContentView.swift:88-110 | The loop over the manifest, run before any data task completes. The disk is unchanged, no memory entry outside the parsing manifest URLs is touched, and nothing is removed. Every started data task is for a parsing manifest URL whose file did not exist when the loop began. |
| `Store.CompleteAll` | NativeBoostedWebviewSample/ContentView.swift:112-125 | The completion handlers of the started tasks, in start order. Only those URLs' memory entries and those URLs' files can change, and nothing is removed. |
| `Store.Preload` | NativeBoostedWebviewSample/ContentView.swift:88-125 | The loop and then the completions. No memory entry outside the parsing manifest URLs and no file outside their file names is touched, so a skipped entry changes nothing. Nothing is removed. |
| `Store.ManifestItems` | NativeBoostedWebviewSample/ContentView.swift:78-97 | An unparsable manifest URL, a failed manifest fetch, or a document that is not an array of objects gives no entries to walk. |
| `Store.PreloadFromManifest` | NativeBoostedWebviewSample/ContentView.swift:77-99 | `preloadFiles` and the completions of its data tasks. Without a manifest (as above) the cache is unchanged. Otherwise no memory entry and no file is removed. |
| `Store.CheckEntriesKeepsCoherence` | NativeBoostedWebviewSample/ContentView.swift:88-110 | The loop keeps every memory entry equal to its URL's cache file: it only loads existing files. |
| `Store.CompleteKeepsCoherence` | NativeBoostedWebviewSample/ContentView.swift:112-125 | A completion keeps every memory entry equal to its URL's cache file when no other URL in memory shares its file. |
| `Store.CompleteKeepsUnshared` | NativeBoostedWebviewSample/ContentView.swift:112-125 | After the oldest started task completes, no memory URL shares a remaining task's file unless it is that task's URL. Remaining tasks that share a file are for the same URL. |
| `Store.CompleteAllKeepsCoherence` | NativeBoostedWebviewSample/ContentView.swift:112-125 | The completions keep every memory entry equal to its URL's cache file when no other entry shares their files. |
| `Store.PreloadKeepsCoherence` | NativeBoostedWebviewSample/ContentView.swift:88-125 | When no two parsing manifest URLs share a file name, the walk and its completions keep every memory entry equal to its URL's cache file. |
| `Store.PreloadFromManifestKeepsCoherence` | NativeBoostedWebviewSample/ContentView.swift:77-125 | The same for `preloadFiles` and its completions, when the decoded manifest's URLs have distinct file names. |
| `Store.SharedFileSharedBytes` | NativeBoostedWebviewSample/ContentView.swift:101-132 | In a coherent cache, two URLs with the same file name hold the same bytes in memory. |
| `Store.CheckedEntryLoadedOrStarted` | NativeBoostedWebviewSample/ContentView.swift:88-110 | A usable manifest entry whose file exists and can be read is loaded by the loop with exactly that file's bytes. A usable entry whose file does not exist gets a started data task. |
| `Store.CompletedTaskIsCached` | NativeBoostedWebviewSample/ContentView.swift:112-125 | A started task whose fetch and write succeed leaves its URL holding exactly the fetched bytes after all completions, whatever the other tasks are. |
| `Store.SucceedingEntryIsCached` | NativeBoostedWebviewSample/ContentView.swift:88-125 | After the walk and its completions, a usable manifest entry holds its file's bytes if the file existed and could be read. It holds the fetched bytes if the file did not exist and the fetch and the write succeeded. This holds whatever else the manifest holds. |
| `Store.TwoEntriesFromEmpty` | NativeBoostedWebviewSample/ContentView.swift:88-125 | From an empty cache with all I/O succeeding, a two-entry walk starts both data tasks and completes them in manifest order. |
| `Store.DistinctFilesBothCached` | NativeBoostedWebviewSample/ContentView.swift:88-127 | Take a two-entry manifest with distinct file names, an empty cache, and all I/O succeeding. Afterwards memory and disk hold exactly each entry's own bytes. |
| `Store.SameFileCompletions` | NativeBoostedWebviewSample/ContentView.swift:112-125 | Two completions for URLs sharing one file: memory holds each URL's own bytes, and the second write replaces the first on disk. |
| `Store.CollidingEntriesBothFetched` | NativeBoostedWebviewSample/ContentView.swift:88-132 | Take a two-entry manifest whose URLs share a file name, starting from an empty cache. Both are fetched. Memory holds each URL's own bytes, and the one file holds the bytes written last. When the two bodies differ, memory is no longer coherent with disk. |
| `Store.CollidingEntriesShareWrittenFile` | NativeBoostedWebviewSample/ContentView.swift:88-110 | Take the same two URLs when their shared file already exists and can be read. Neither is fetched, the disk is unchanged, and both are loaded with the file's bytes. |
| `Store.ResourceStore.constructor` | NativeBoostedWebviewSample/ContentView.swift:21 | At process start memory is empty, no data task is pending, and the disk holds what earlier runs left. Memory and disk are coherent. |
| `Store.ResourceStore.DownloadAndCacheFile` | NativeBoostedWebviewSample/ContentView.swift:101-127 | Updates memory in place to exactly what `Begin` gives. It reports a started data task, and appends it to the pending ones, exactly when no cache file existed. Without a task the new state is already what `Download` gives. With one, that task's completion (`Complete`) takes the new state to what `Download` gives. |
| `Store.ResourceStore.CompleteDownload` | NativeBoostedWebviewSample/ContentView.swift:112-125 | Runs the completion handler of any one pending task, in place, to exactly what `Complete` gives, and removes that task from the pending ones. |
| `Store.ResourceStore.PreloadFiles` | NativeBoostedWebviewSample/ContentView.swift:77-99 | Calls `DownloadAndCacheFile` once per usable manifest entry, in a loop. The new state, and the tasks appended to the pending ones, are exactly what `CheckEntries` gives for the entries `ManifestItems` gives. |
| `Store.ResourceStore.DeliverCompletions` | NativeBoostedWebviewSample/ContentView.swift:112-125 | Completes every pending task, oldest first. The new state is exactly what `CompleteAll` gives, and no task is left pending. |
| `Store.ResourceStore.PreloadAndComplete` | NativeBoostedWebviewSample/ContentView.swift:77-125 | `preloadFiles()` followed by the delivery of every completion, oldest first. It ends with no task pending. The new state is `CompleteAll` over the loop's state, with the tasks pending before followed by the loop's tasks. From a store with nothing pending this is exactly `PreloadFromManifest`, so the walk lemmas hold of the fields. |
| `SchemeHandler.Intercept` | NativeBoostedWebviewSample/ContentView.swift:158-191 | The scheme task always gets a complete answer: one failure, or a response, its data and a finish, in that order. A request without a URL, and only such a request, fails with 400. On a hit, the response is addressed to the unsanitised URL, its type is `GetMimeType` of the sanitised URL, its encoding is `utf-8`, its length is the cached byte count, and the data is the cached bytes. On a miss, a transport error fails the scheme task with that error. Data and response together are forwarded. Anything else fails with 500. |
| `SchemeHandler.HitIgnoresNetwork` | NativeBoostedWebviewSample/ContentView.swift:166-173 | A cache hit is answered the same whatever the network would do: no fetch is made. |
| `SchemeHandler.DownloadedResourceIsServed` | NativeBoostedWebviewSample/ContentView.swift:164-173 | After a download of `u` is fetched and written, a request for `custom-` + `u` is a hit. It serves exactly the fetched bytes, typed by `u`'s suffix. |
| `SchemeHandler.Start` | NativeBoostedWebviewSample/ContentView.swift:158-191 | Makes on the scheme task exactly the calls `Intercept` gives, one by one. It leaves the store's memory and disk unchanged, on a miss as well. |
| `SchemeHandler.SchemeTask.DidReceiveResponse` | NativeBoostedWebviewSample/ContentView.swift:170 | Records one `didReceive(response)` call after those made before. |
| `SchemeHandler.SchemeTask.DidReceiveData` | NativeBoostedWebviewSample/ContentView.swift:171 | Records one `didReceive(data)` call after those made before. |
| `SchemeHandler.SchemeTask.DidFinish` | NativeBoostedWebviewSample/ContentView.swift:172 | Records one `didFinish()` call after those made before. |
| `SchemeHandler.SchemeTask.DidFailWithError` | NativeBoostedWebviewSample/ContentView.swift:160 | Records one `didFailWithError` call after those made before. |

## Left out

- The SwiftUI view, the web-view configuration and the injected console script (lines 4-75). These are user-interface set-up.
- The `Coordinator` with its navigation policy, alert panel and console messages (lines 134-155). These are user-interface callbacks.
- The empty `stop` handler (line 193). It does nothing.
- The `print` diagnostics. They have no effect on the cache.
- Asynchrony. Every data task's completion handler is taken to run from start to end before anything else touches the cache. The loop in the manifest's handler (lines 88-92) is taken to end before any download's handler runs. `Store.CompleteAll` and `Store.ResourceStore.DeliverCompletions` complete the started tasks in start order. `Store.ResourceStore.CompleteDownload` allows any order, but the proved walk outcomes (`Store.Preload`, `Store.CollidingEntriesBothFetched`) assume manifest order. With two colliding URLs, the network decides which bytes the shared file ends with.
- The unsynchronised concurrent access to `preloadedData` from the scheme handler and the completion handlers. This is a concurrency concern outside a sequential model.
- URL parsing (`URL(string:)`). It is the oracle `parses`. A URL's `absoluteString` is taken to be the string it was parsed from.
- Network, file reads, file writes and JSON decoding. They are oracles in `Io.Environment`. Each gives the same answer every time it is asked about the same URL, file or bytes.
- A failed file write. It leaves the file as it was; a partially written file is not modelled.
- The cache directory lookup (line 130). The directory is fixed per process, so the model names a cache file by its file name only.
- `FilePaths.FilePath` approximates `lastPathComponent`: it is the text after the last `/` of the part before the first `?` or `#`. It does not drop a trailing slash (`http://h/a/` gives the empty name, Foundation gives `a`). It does not decode percent escapes. It does not separate the host from the path. So `http://h` gives `h` and `http://h/` gives the empty name, where Foundation gives the empty name and `/`. Appending either of those gives the cache directory itself. So in the app, the check at line 104 finds a "file", the read at line 106 fails, and such a URL is never fetched or cached. The model instead fetches and caches it under `h` or the empty name.
- `MimeTypes.HasSuffix` and `Sanitizer.Sanitize` compare characters one by one. Swift compares strings by grapheme clusters, which differs only for combining characters.
- The force-unwrap crash at line 165. It is a precondition of `SchemeHandler.Intercept` and `SchemeHandler.Start` (`SchemeHandler.Startable`), not a modelled outcome.
- The checks `WKURLSchemeTask` makes on its callers, such as an exception for calls after `didFinish`. These belong to the toolkit, not the cache.
