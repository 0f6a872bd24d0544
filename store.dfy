/**
 * The resource cache: the process-wide dictionary
 * `WebViewWrapper.preloadedData` (URL string to bytes) and the cache
 * directory on disk (file name to bytes), filled by `downloadAndCacheFile`
 * and by the manifest walk of `preloadFiles`.
 */
module Store {
  import opened Wrappers
  import opened Io
  import opened FilePaths

  /** `m1` and `m2` hold the same entries for every key outside `keys`. */
  ghost predicate AgreeOutside(m1: map<string, Bytes>, m2: map<string, Bytes>, keys: set<string>)
  {
    forall k :: k !in keys ==> (k in m1 <==> k in m2) && (k in m1 ==> m1[k] == m2[k])
  }

  /** Agreement outside two key sets chains to agreement outside any set holding both. */
  lemma AgreeOutsideChain(m1: map<string, Bytes>, m2: map<string, Bytes>, m3: map<string, Bytes>,
                          keys1: set<string>, keys2: set<string>, keys: set<string>)
    requires AgreeOutside(m1, m2, keys1) && AgreeOutside(m2, m3, keys2)
    requires keys1 <= keys && keys2 <= keys
    ensures AgreeOutside(m1, m3, keys)
  {
  }

  /** A snapshot of the cache: memory is keyed by URL, disk by file name. */
  datatype CacheState = CacheState(memory: map<string, Bytes>, disk: map<string, Bytes>)

  /**
   * Every URL held in memory holds what its cache file holds; it is what
   * makes two URLs that share a file name share their bytes as well. The
   * walk keeps it when no two manifest URLs share a file name
   * (`PreloadKeepsCoherence`). Colliding URLs break it
   * (`CollidingEntriesBothFetched`).
   */
  ghost predicate Coherent(st: CacheState)
  {
    forall u :: u in st.memory ==> FilePath(u) in st.disk && st.disk[FilePath(u)] == st.memory[u]
  }

  /** `downloadAndCacheFile` starts a data task for `url`: no cache file exists. */
  predicate IssuesFetch(st: CacheState, url: string)
  {
    FilePath(url) !in st.disk
  }

  /**
   * What `downloadAndCacheFile(from: url)` does before it returns. An
   * existing cache file is read into memory (a failed read changes
   * nothing); without a file a data task is started and nothing changes
   * yet. The disk is never touched, only the entry for `url` can change,
   * and whatever memory now holds for `url` is what its file holds.
   */
  function Begin(st: CacheState, url: string, env: Environment): (r: CacheState)
    ensures r.disk == st.disk
    ensures AgreeOutside(r.memory, st.memory, {url})
    ensures st.memory.Keys <= r.memory.Keys
    ensures IssuesFetch(st, url) ==> r == st
    ensures r.memory != st.memory ==>
      url in r.memory && FilePath(url) in r.disk && r.memory[url] == r.disk[FilePath(url)]
  {
    var path := FilePath(url);
    if path in st.disk && env.readSucceeds(path) then st.(memory := st.memory[url := st.disk[path]]) else st
  }

  /**
   * The completion handler of the data task for `url`: delivered bytes are
   * written to the cache file, replacing whatever it holds, and, only if the
   * write succeeds, put in memory. Only the entry and the file for `url` can
   * change, and nothing is removed.
   */
  function Complete(st: CacheState, url: string, env: Environment): (r: CacheState)
    ensures AgreeOutside(r.memory, st.memory, {url})
    ensures AgreeOutside(r.disk, st.disk, {FilePath(url)})
    ensures st.memory.Keys <= r.memory.Keys && st.disk.Keys <= r.disk.Keys
    ensures r != st ==>
      url in r.memory && FilePath(url) in r.disk && r.memory[url] == r.disk[FilePath(url)]
  {
    var f := env.fetch(url);
    var path := FilePath(url);
    if Delivered(f) && env.writeSucceeds(path) then
      CacheState(st.memory[url := f.data.value], st.disk[path := f.data.value])
    else st
  }

  /**
   * One `downloadAndCacheFile(from: url)` whose data task, if it starts one,
   * completes before anything else touches the cache.
   * Only the entry for `url` and the file for `url` can change, nothing is
   * ever removed, an existing file is never rewritten, and whatever memory
   * now holds for `url` is what its file holds.
   */
  function Download(st: CacheState, url: string, env: Environment): (r: CacheState)
    ensures AgreeOutside(r.memory, st.memory, {url})
    ensures AgreeOutside(r.disk, st.disk, {FilePath(url)})
    ensures st.memory.Keys <= r.memory.Keys && st.disk.Keys <= r.disk.Keys
    ensures FilePath(url) in st.disk ==> r.disk == st.disk
    ensures r.memory != st.memory ==>
      url in r.memory && FilePath(url) in r.disk && r.memory[url] == r.disk[FilePath(url)]
  {
    if IssuesFetch(st, url) then Complete(st, url, env) else Begin(st, url, env)
  }

  /** The URLs of a manifest that the walk hands to `downloadAndCacheFile`. */
  function ManifestUrls(items: seq<Option<string>>, env: Environment): set<string>
  {
    set i | 0 <= i < |items| && items[i].Some? && env.parses(items[i].value) :: items[i].value
  }

  /** The cache files those URLs are stored in. */
  function ManifestFiles(items: seq<Option<string>>, env: Environment): set<string>
  {
    set u | u in ManifestUrls(items, env) :: FilePath(u)
  }

  /** The cache files of a sequence of URLs. */
  function FileNames(urls: seq<string>): set<string>
  {
    set u | u in urls :: FilePath(u)
  }

  /** The cache after the walk over the manifest, and the data tasks it started, in start order. */
  datatype Pass = Pass(state: CacheState, started: seq<string>)

  /**
   * The loop of `preloadFiles` over the manifest entries: every entry with
   * a string `url` that parses as a URL goes to `downloadAndCacheFile`, in
   * manifest order; the others are skipped. The whole loop runs before any
   * data task completes, so every file check sees the disk as it was. The
   * disk is unchanged, no URL outside the manifest is touched, nothing is
   * removed, and every started data task is for a manifest URL whose file
   * did not exist.
   */
  function CheckEntries(st: CacheState, items: seq<Option<string>>, env: Environment): (p: Pass)
    ensures p.state.disk == st.disk
    ensures AgreeOutside(p.state.memory, st.memory, ManifestUrls(items, env))
    ensures st.memory.Keys <= p.state.memory.Keys
    ensures forall u :: u in p.started ==> u in ManifestUrls(items, env) && FilePath(u) !in st.disk
    decreases |items|
  {
    if items == [] then Pass(st, [])
    else
      var prev := CheckEntries(st, items[..|items| - 1], env);
      var item := items[|items| - 1];
      assert ManifestUrls(items[..|items| - 1], env) <= ManifestUrls(items, env);
      if item.Some? && env.parses(item.value) then
        assert item.value in ManifestUrls(items, env);
        var url := item.value;
        Pass(Begin(prev.state, url, env), prev.started + if IssuesFetch(prev.state, url) then [url] else [])
      else prev
  }

  /**
   * The completion handlers of the started data tasks, run one after
   * another in start order. Only the entries of those URLs and their files
   * can change, and nothing is removed.
   */
  function CompleteAll(st: CacheState, started: seq<string>, env: Environment): (r: CacheState)
    ensures AgreeOutside(r.memory, st.memory, set u | u in started)
    ensures AgreeOutside(r.disk, st.disk, FileNames(started))
    ensures st.memory.Keys <= r.memory.Keys && st.disk.Keys <= r.disk.Keys
    decreases |started|
  {
    if started == [] then st
    else
      var next := Complete(st, started[0], env);
      var r := CompleteAll(next, started[1..], env);
      var urls := set u | u in started;
      assert {started[0]} <= urls && (set u | u in started[1..]) <= urls;
      assert {FilePath(started[0])} <= FileNames(started) && FileNames(started[1..]) <= FileNames(started);
      AgreeOutsideChain(r.memory, next.memory, st.memory, set u | u in started[1..], {started[0]}, urls);
      AgreeOutsideChain(r.disk, next.disk, st.disk, FileNames(started[1..]), {FilePath(started[0])}, FileNames(started));
      r
  }

  /**
   * The manifest walk followed by the completions of the data tasks it
   * started. Only manifest URLs and their files are touched, and nothing
   * is removed.
   */
  function Preload(st: CacheState, items: seq<Option<string>>, env: Environment): (r: CacheState)
    ensures AgreeOutside(r.memory, st.memory, ManifestUrls(items, env))
    ensures AgreeOutside(r.disk, st.disk, ManifestFiles(items, env))
    ensures st.memory.Keys <= r.memory.Keys && st.disk.Keys <= r.disk.Keys
  {
    var p := CheckEntries(st, items, env);
    assert FileNames(p.started) <= ManifestFiles(items, env);
    CompleteAll(p.state, p.started, env)
  }

  /** The manifest URL parses, its fetch delivers, and the bytes decode as an array of objects. */
  predicate ManifestAvailable(cacheListURL: string, env: Environment)
  {
    && env.parses(cacheListURL)
    && Delivered(env.fetch(cacheListURL))
    && env.decodeManifest(env.fetch(cacheListURL).data.value).Some?
  }

  /**
   * The entries `preloadFiles()` walks: the decoded manifest at
   * `cacheListURL`, or none when the URL does not parse, the fetch fails
   * or the document is not an array of objects.
   */
  function ManifestItems(cacheListURL: string, env: Environment): (items: seq<Option<string>>)
    ensures !ManifestAvailable(cacheListURL, env) ==> items == []
  {
    if !env.parses(cacheListURL) then []
    else
      var f := env.fetch(cacheListURL);
      if !Delivered(f) then []
      else match env.decodeManifest(f.data.value)
        case None => []
        case Some(items) => items
  }

  /**
   * `preloadFiles()` and then the completions of every data task it
   * started. Without a manifest the cache is left as it was.
   */
  function PreloadFromManifest(st: CacheState, cacheListURL: string, env: Environment): (r: CacheState)
    ensures st.memory.Keys <= r.memory.Keys && st.disk.Keys <= r.disk.Keys
    ensures !ManifestAvailable(cacheListURL, env) ==> r == st
  {
    Preload(st, ManifestItems(cacheListURL, env), env)
  }

  /** The outcomes of `Download`, branch by branch. */
  lemma DownloadOutcomes(st: CacheState, url: string, env: Environment)
    ensures var r := Download(st, url, env); var path := FilePath(url);
      && (path in st.disk && env.readSucceeds(path) ==>
            r.memory == st.memory[url := st.disk[path]] && r.disk == st.disk)
      && (path in st.disk && !env.readSucceeds(path) ==> r == st)
      && (path !in st.disk && Delivered(env.fetch(url)) && env.writeSucceeds(path) ==>
            r.memory[url] == env.fetch(url).data.value && r.disk[path] == env.fetch(url).data.value)
      && (path !in st.disk && !(Delivered(env.fetch(url)) && env.writeSucceeds(path)) ==> r == st)
  {
  }

  /**
   * The synchronous part, branch by branch: an existing readable file is
   * loaded into the URL's entry; anything else (no file, or a failed read)
   * changes nothing.
   */
  lemma BeginOutcome(st: CacheState, url: string, env: Environment)
    ensures var r := Begin(st, url, env); var path := FilePath(url);
      && (path in st.disk && env.readSucceeds(path) ==>
            r.memory == st.memory[url := st.disk[path]] && r.disk == st.disk)
      && (!(path in st.disk && env.readSucceeds(path)) ==> r == st)
  {
  }

  /**
   * The completion handler, branch by branch, whatever the cache holds: a
   * delivered fetch whose write succeeds puts the bytes in the file,
   * replacing what it held, and in the URL's entry; a failed fetch or write
   * changes nothing.
   */
  lemma CompleteOutcomes(st: CacheState, url: string, env: Environment)
    ensures var r := Complete(st, url, env); var path := FilePath(url); var f := env.fetch(url);
      && (Delivered(f) && env.writeSucceeds(path) ==>
            r.memory == st.memory[url := f.data.value] && r.disk == st.disk[path := f.data.value])
      && (!(Delivered(f) && env.writeSucceeds(path)) ==> r == st)
  {
  }

  /** When the cache file exists the network is never consulted: its answers do not matter. */
  lemma CachedFileIgnoresNetwork(st: CacheState, url: string, env1: Environment, env2: Environment)
    requires FilePath(url) in st.disk
    requires env1.readSucceeds(FilePath(url)) == env2.readSucceeds(FilePath(url))
    ensures Download(st, url, env1) == Download(st, url, env2)
  {
  }

  /** A download keeps memory coherent with disk. */
  lemma DownloadKeepsCoherence(st: CacheState, url: string, env: Environment)
    requires Coherent(st)
    ensures Coherent(Download(st, url, env))
  {
  }

  /** The walk over the manifest keeps memory coherent with disk: it only loads existing files. */
  lemma {:induction false} CheckEntriesKeepsCoherence(st: CacheState, items: seq<Option<string>>, env: Environment)
    requires Coherent(st)
    ensures Coherent(CheckEntries(st, items, env).state)
    decreases |items|
  {
    if items != [] {
      CheckEntriesKeepsCoherence(st, items[..|items| - 1], env);
    }
  }

  /**
   * No memory entry shares the file of a started data task unless it is
   * that task's URL, and two started tasks that share a file are for the
   * same URL.
   */
  ghost predicate Unshared(st: CacheState, started: seq<string>)
  {
    && (forall u, k :: u in started && k in st.memory && FilePath(k) == FilePath(u) ==> k == u)
    && (forall i, j :: 0 <= i < j < |started| && FilePath(started[i]) == FilePath(started[j]) ==>
          started[i] == started[j])
  }

  /** One completion keeps memory coherent with disk when no other entry shares its file. */
  lemma CompleteKeepsCoherence(st: CacheState, u: string, env: Environment)
    requires Coherent(st)
    requires forall k :: k in st.memory && FilePath(k) == FilePath(u) ==> k == u
    ensures Coherent(Complete(st, u, env))
  {
    var next := Complete(st, u, env);
    forall k | k in next.memory
      ensures FilePath(k) in next.disk && next.disk[FilePath(k)] == next.memory[k]
    {
      if next != st && k != u {
        assert FilePath(k) != FilePath(u);
      }
    }
  }

  /** After the oldest started task completes, the remaining ones are still unshared. */
  lemma CompleteKeepsUnshared(st: CacheState, started: seq<string>, env: Environment)
    requires started != [] && Unshared(st, started)
    ensures Unshared(Complete(st, started[0], env), started[1..])
  {
    var u := started[0];
    var next := Complete(st, u, env);
    forall v, k | v in started[1..] && k in next.memory && FilePath(k) == FilePath(v)
      ensures k == v
    {
      var j :| 0 <= j < |started[1..]| && started[1..][j] == v;
      assert started[j + 1] == v;
      if k == u {
        assert FilePath(started[0]) == FilePath(started[j + 1]);
      }
    }
    forall i, j | 0 <= i < j < |started[1..]| && FilePath(started[1..][i]) == FilePath(started[1..][j])
      ensures started[1..][i] == started[1..][j]
    {
      assert started[1..][i] == started[i + 1] && started[1..][j] == started[j + 1];
    }
  }

  /** Completions keep memory coherent with disk as long as no other entry shares their files. */
  lemma {:induction false} CompleteAllKeepsCoherence(st: CacheState, started: seq<string>, env: Environment)
    requires Coherent(st) && Unshared(st, started)
    ensures Coherent(CompleteAll(st, started, env))
    decreases |started|
  {
    if started != [] {
      CompleteKeepsCoherence(st, started[0], env);
      CompleteKeepsUnshared(st, started, env);
      CompleteAllKeepsCoherence(Complete(st, started[0], env), started[1..], env);
    }
  }

  /** Distinct URLs of the set have distinct cache file names. */
  predicate DistinctFileNames(urls: set<string>)
  {
    forall u1, u2 :: u1 in urls && u2 in urls && FilePath(u1) == FilePath(u2) ==> u1 == u2
  }

  /**
   * The walk and its completions keep memory coherent with disk when no two
   * manifest URLs share a file name. (`CollidingEntriesBothFetched` shows
   * that they may not otherwise.)
   */
  lemma PreloadKeepsCoherence(st: CacheState, items: seq<Option<string>>, env: Environment)
    requires Coherent(st) && DistinctFileNames(ManifestUrls(items, env))
    ensures Coherent(Preload(st, items, env))
  {
    var p := CheckEntries(st, items, env);
    CheckEntriesKeepsCoherence(st, items, env);
    forall u, k | u in p.started && k in p.state.memory
      ensures FilePath(k) != FilePath(u)
    {
      assert FilePath(k) in st.disk;
    }
    CompleteAllKeepsCoherence(p.state, p.started, env);
  }

  /** So does `preloadFiles()` with its completions. */
  lemma PreloadFromManifestKeepsCoherence(st: CacheState, cacheListURL: string, env: Environment)
    requires Coherent(st) && DistinctFileNames(ManifestUrls(ManifestItems(cacheListURL, env), env))
    ensures Coherent(PreloadFromManifest(st, cacheListURL, env))
  {
    PreloadKeepsCoherence(st, ManifestItems(cacheListURL, env), env);
  }

  /**
   * In a coherent cache two URLs with the same final path segment hold the
   * same bytes in memory: one of them is served the other's resource.
   */
  lemma SharedFileSharedBytes(st: CacheState, u1: string, u2: string)
    requires Coherent(st)
    requires u1 in st.memory && u2 in st.memory && FilePath(u1) == FilePath(u2)
    ensures st.memory[u1] == st.memory[u2]
  {
  }

  /**
   * A usable manifest entry is loaded by the walk, with its file's bytes,
   * when its file exists and can be read, and has a data task started when
   * its file does not exist.
   */
  lemma {:induction false} CheckedEntryLoadedOrStarted(st: CacheState, items: seq<Option<string>>, env: Environment, i: nat)
    requires i < |items| && items[i].Some? && env.parses(items[i].value)
    ensures var p := CheckEntries(st, items, env); var u := items[i].value;
      && (FilePath(u) in st.disk && env.readSucceeds(FilePath(u)) ==>
            u in p.state.memory && p.state.memory[u] == st.disk[FilePath(u)])
      && (FilePath(u) !in st.disk ==> u in p.started)
    decreases |items|
  {
    var n := |items| - 1;
    if i < n {
      assert items[..n][i] == items[i];
      CheckedEntryLoadedOrStarted(st, items[..n], env, i);
    }
  }

  /**
   * A started data task whose fetch and write succeed leaves its URL holding
   * the fetched bytes once all completions have run, as does an entry that
   * already holds them: no other URL's completion touches it.
   */
  lemma {:induction false} CompletedTaskIsCached(st: CacheState, started: seq<string>, env: Environment, u: string)
    requires Delivered(env.fetch(u)) && env.writeSucceeds(FilePath(u))
    requires u in started || (u in st.memory && st.memory[u] == env.fetch(u).data.value)
    ensures var r := CompleteAll(st, started, env);
      u in r.memory && r.memory[u] == env.fetch(u).data.value
    decreases |started|
  {
    if started != [] {
      var next := Complete(st, started[0], env);
      if started[0] == u {
        assert next.memory[u] == env.fetch(u).data.value;
      } else if u in started {
        assert u in started[1..];
      }
      CompletedTaskIsCached(next, started[1..], env, u);
    }
  }

  /**
   * After the walk and its completions, a usable manifest entry holds its
   * file's bytes when the file existed and could be read, and the fetched
   * bytes when the file did not exist and the fetch and the write succeed,
   * whatever else the manifest holds.
   */
  lemma SucceedingEntryIsCached(st: CacheState, items: seq<Option<string>>, env: Environment, i: nat)
    requires i < |items| && items[i].Some? && env.parses(items[i].value)
    requires FilePath(items[i].value) in st.disk ==> env.readSucceeds(FilePath(items[i].value))
    requires FilePath(items[i].value) !in st.disk ==>
      Delivered(env.fetch(items[i].value)) && env.writeSucceeds(FilePath(items[i].value))
    ensures var r := Preload(st, items, env); var u := items[i].value;
      && u in r.memory
      && r.memory[u] == if FilePath(u) in st.disk then st.disk[FilePath(u)] else env.fetch(u).data.value
  {
    var p := CheckEntries(st, items, env);
    var u := items[i].value;
    CheckedEntryLoadedOrStarted(st, items, env, i);
    if FilePath(u) !in st.disk {
      CompletedTaskIsCached(p.state, p.started, env, u);
    } else {
      assert u !in p.started;
    }
  }

  /** An environment where every URL parses, every fetch delivers `body(url)` and every disk call succeeds. */
  function AllSucceed(body: string -> Bytes): Environment
  {
    Environment(
      _ => true,
      u => FetchResult(Some(body(u)), None, None),
      _ => true,
      _ => true,
      _ => None)
  }

  /**
   * From an empty cache with everything succeeding, a two-entry walk starts
   * both data tasks and completes them in manifest order.
   */
  lemma TwoEntriesFromEmpty(u1: string, u2: string, body: string -> Bytes)
    ensures var env := AllSucceed(body); var st0 := CacheState(map[], map[]);
      Preload(st0, [Some(u1), Some(u2)], env) == Complete(Complete(st0, u1, env), u2, env)
  {
    var env := AllSucceed(body);
    var st0 := CacheState(map[], map[]);
    TwoChecksFromEmpty(u1, u2, env);
    TwoCompletions(st0, u1, u2, env);
  }

  /** From an empty disk, the loop over two parsing entries starts both data tasks and loads nothing. */
  lemma TwoChecksFromEmpty(u1: string, u2: string, env: Environment)
    requires env.parses(u1) && env.parses(u2)
    ensures CheckEntries(CacheState(map[], map[]), [Some(u1), Some(u2)], env) == Pass(CacheState(map[], map[]), [u1, u2])
  {
    var items := [Some(u1), Some(u2)];
    var st0 := CacheState(map[], map[]);
    assert items[..1] == [Some(u1)] && items[..1][..0] == [];
    assert CheckEntries(st0, items[..1][..0], env) == Pass(st0, []);
    assert CheckEntries(st0, items[..1], env) == Pass(st0, [u1]);
  }

  /** Two started tasks complete one after the other. */
  lemma TwoCompletions(st: CacheState, u1: string, u2: string, env: Environment)
    ensures CompleteAll(st, [u1, u2], env) == Complete(Complete(st, u1, env), u2, env)
  {
    var st1 := Complete(st, u1, env);
    var st2 := Complete(st1, u2, env);
    assert [u1, u2][1..] == [u2] && [u2][1..] == [];
    assert CompleteAll(st2, [], env) == st2;
    assert CompleteAll(st1, [u2], env) == st2;
  }

  /**
   * A two-entry manifest walk started from an empty cache: entries whose
   * file names differ each end up in memory and on disk with their own bytes.
   */
  lemma DistinctFilesBothCached(u1: string, u2: string, body: string -> Bytes)
    requires FilePath(u1) != FilePath(u2)
    ensures var r := Preload(CacheState(map[], map[]), [Some(u1), Some(u2)], AllSucceed(body));
      && r.memory == map[u1 := body(u1), u2 := body(u2)]
      && r.disk == map[FilePath(u1) := body(u1), FilePath(u2) := body(u2)]
  {
    TwoEntriesFromEmpty(u1, u2, body);
  }

  /**
   * The same walk when the two URLs share a file name (as
   * `http://h1/x/r.png` and `http://h2/y/r.png` do): both file checks come
   * before either completion, so both URLs are fetched. Each is held in
   * memory with its own bytes, while the one file holds the bytes written
   * last; when the two bodies differ, memory is no longer coherent with disk.
   */
  lemma CollidingEntriesBothFetched(u1: string, u2: string, body: string -> Bytes)
    requires u1 != u2 && FilePath(u1) == FilePath(u2)
    ensures var r := Preload(CacheState(map[], map[]), [Some(u1), Some(u2)], AllSucceed(body));
      && r.memory == map[u1 := body(u1), u2 := body(u2)]
      && r.disk == map[FilePath(u1) := body(u2)]
      && (body(u1) != body(u2) ==> !Coherent(r))
  {
    TwoEntriesFromEmpty(u1, u2, body);
    SameFileCompletions(u1, u2, body);
    var r := CacheState(map[u1 := body(u1), u2 := body(u2)], map[FilePath(u1) := body(u2)]);
    if body(u1) != body(u2) {
      assert u1 in r.memory && r.disk[FilePath(u1)] != r.memory[u1];
    }
  }

  /** Two completions for URLs sharing one file: the second write replaces the first. */
  lemma SameFileCompletions(u1: string, u2: string, body: string -> Bytes)
    requires FilePath(u1) == FilePath(u2)
    ensures var env := AllSucceed(body);
      Complete(Complete(CacheState(map[], map[]), u1, env), u2, env)
      == CacheState(map[u1 := body(u1), u2 := body(u2)], map[FilePath(u1) := body(u2)])
  {
    var env := AllSucceed(body);
    var path := FilePath(u1);
    var st1 := CacheState(map[u1 := body(u1)], map[path := body(u1)]);
    assert Complete(CacheState(map[], map[]), u1, env) == st1;
    assert st1.disk[path := body(u2)] == map[path := body(u2)];
  }

  /**
   * In a later run, once the shared file exists: both URLs find it and load
   * it, so both are served the same bytes and neither is fetched.
   */
  lemma CollidingEntriesShareWrittenFile(st: CacheState, u1: string, u2: string, env: Environment)
    requires FilePath(u1) == FilePath(u2) && FilePath(u1) in st.disk
    requires env.parses(u1) && env.parses(u2) && env.readSucceeds(FilePath(u1))
    ensures var r := Preload(st, [Some(u1), Some(u2)], env);
      && r.disk == st.disk
      && r.memory == st.memory[u1 := st.disk[FilePath(u1)]][u2 := st.disk[FilePath(u1)]]
  {
    var items := [Some(u1), Some(u2)];
    assert items[..1] == [Some(u1)] && items[..1][..0] == [];
    assert CheckEntries(st, items[..1][..0], env) == Pass(st, []);
    var s1 := Begin(st, u1, env);
    assert CheckEntries(st, items[..1], env) == Pass(s1, []);
    assert CheckEntries(st, items, env) == Pass(Begin(s1, u2, env), []);
  }

  /**
   * The two fields the source updates in place, `preloadedData` and the
   * cache directory, and the data tasks `downloadAndCacheFile` has started
   * whose completion handlers have not run yet, in start order.
   */
  class ResourceStore {
    var memory: map<string, Bytes>
    var disk: map<string, Bytes>
    var started: seq<string>

    function State(): CacheState
      reads this
    {
      CacheState(memory, disk)
    }

    /** A process start: memory is empty, the cache directory holds what earlier runs left. */
    constructor(persisted: map<string, Bytes>)
      ensures memory == map[] && disk == persisted && started == []
      ensures Coherent(State())
    {
      memory := map[];
      disk := persisted;
      started := [];
    }

    /** Returns whether a data task was started: exactly when no cache file existed. */
    method DownloadAndCacheFile(url: string, env: Environment) returns (fetched: bool)
      modifies this
      ensures State() == Begin(old(State()), url, env)
      ensures fetched <==> IssuesFetch(old(State()), url)
      ensures started == old(started) + if fetched then [url] else []
      ensures !fetched ==> State() == Download(old(State()), url, env)
      ensures fetched ==> Complete(State(), url, env) == Download(old(State()), url, env)
    {
      var filePath := FilePath(url);
      fetched := filePath !in disk;
      if fetched {
        started := started + [url];
      } else if env.readSucceeds(filePath) {
        memory := memory[url := disk[filePath]];
      }
    }

    /** The completion handler of the `i`-th started data task; tasks may complete in any order. */
    method CompleteDownload(i: nat, env: Environment)
      requires i < |started|
      modifies this
      ensures State() == Complete(old(State()), old(started[i]), env)
      ensures started == old(started[..i] + started[i + 1..])
    {
      var url := started[i];
      started := started[..i] + started[i + 1..];
      var filePath := FilePath(url);
      var f := env.fetch(url);
      if Delivered(f) && env.writeSucceeds(filePath) {
        disk := disk[filePath := f.data.value];
        memory := memory[url := f.data.value];
      }
    }

    /**
     * `preloadFiles()`: fetches and decodes the manifest and calls
     * `DownloadAndCacheFile` once per usable entry, in a loop. The data
     * tasks those calls start are left to complete later.
     */
    method PreloadFiles(cacheListURL: string, env: Environment)
      modifies this
      ensures var p := CheckEntries(old(State()), ManifestItems(cacheListURL, env), env);
        State() == p.state && started == old(started) + p.started
    {
      if !env.parses(cacheListURL) {
        return;
      }
      var f := env.fetch(cacheListURL);
      if !Delivered(f) {
        return;
      }
      var decoded := env.decodeManifest(f.data.value);
      if decoded.None? {
        return;
      }
      var items := decoded.value;
      var i := 0;
      while i < |items|
        invariant 0 <= i <= |items|
        invariant var p := CheckEntries(old(State()), items[..i], env);
          State() == p.state && started == old(started) + p.started
      {
        var item := items[i];
        assert items[..i + 1][..i] == items[..i];
        if item.Some? && env.parses(item.value) {
          var _ := DownloadAndCacheFile(item.value, env);
        }
        i := i + 1;
      }
      assert items[..|items|] == items;
    }

    /** The session delivering the completions of every started data task, oldest first. */
    method DeliverCompletions(env: Environment)
      modifies this
      ensures State() == CompleteAll(old(State()), old(started), env) && started == []
    {
      while started != []
        invariant CompleteAll(State(), started, env) == CompleteAll(old(State()), old(started), env)
        decreases |started|
      {
        assert started[..0] + started[1..] == started[1..];
        CompleteDownload(0, env);
      }
    }

    /**
     * `preloadFiles()` as the app calls it at start-up, followed by the
     * session delivering every completion, oldest first. From a store with
     * no task pending this is `PreloadFromManifest`, so every lemma about
     * the walk holds of the fields.
     */
    method PreloadAndComplete(cacheListURL: string, env: Environment)
      modifies this
      ensures var p := CheckEntries(old(State()), ManifestItems(cacheListURL, env), env);
        State() == CompleteAll(p.state, old(started) + p.started, env) && started == []
      ensures old(started) == [] ==> State() == PreloadFromManifest(old(State()), cacheListURL, env)
    {
      ghost var st0 := State();
      ghost var pending := started;
      ghost var p := CheckEntries(st0, ManifestItems(cacheListURL, env), env);
      PreloadFiles(cacheListURL, env);
      assert State() == p.state && started == pending + p.started;
      DeliverCompletions(env);
      assert State() == CompleteAll(p.state, pending + p.started, env);
      if pending == [] {
        assert pending + p.started == p.started;
        assert Preload(st0, ManifestItems(cacheListURL, env), env) == CompleteAll(p.state, p.started, env);
      }
    }
  }
}
