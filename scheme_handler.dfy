/**
 * `CustomSchemeHandler.webView(_:start:)`: answers one request of the
 * custom scheme from the in-memory cache, or else from the network, by
 * calling the scheme task's `didReceive`, `didFinish` and `didFailWithError`.
 */
module SchemeHandler {
  import opened Wrappers
  import opened Io
  import opened MimeTypes
  import opened Sanitizer
  import Store
  import FilePaths

  /** The errors a task can fail with: the handler's own, or the network's. */
  datatype TaskError =
    | HandlerError(code: int, description: string)
    | Transport(error: TransportError)

  /** No URL on the request. */
  const InvalidUrl := HandlerError(400, "Invalid URL")
  /** A miss whose fetch delivered no data or no response. */
  const LoadFailed := HandlerError(500, "Failed to load data")

  /** One call the handler makes on a `WKURLSchemeTask`. */
  datatype TaskEvent =
    | ReceivedResponse(response: Response)
    | ReceivedData(data: Bytes)
    | Finished
    | Failed(error: TaskError)

  /**
   * The two shapes of a complete answer: one failure, or a response, its
   * data and the finish, in that order.
   */
  predicate IsAnswer(events: seq<TaskEvent>)
  {
    || (|events| == 1 && events[0].Failed?)
    || (|events| == 3 && events[0].ReceivedResponse? && events[1].ReceivedData? && events[2] == Finished)
  }

  /**
   * The handler dereferences the parsed form of the sanitised URL without
   * checking it; a request whose sanitised URL does not parse crashes it.
   */
  predicate Startable(request: Option<string>, env: Environment)
  {
    request.Some? ==> env.parses(Sanitize(request.value))
  }

  /**
   * The calls the handler makes for a request whose URL (as
   * `absoluteString`) is `request`, given the in-memory cache `memory`.
   * A hit answers from memory alone, as `GetMimeType` of the sanitised URL
   * and with the length of the cached bytes, addressed to the original
   * request URL. A miss answers with what the network delivers, fails with
   * its error, or fails with 500.
   */
  function Intercept(request: Option<string>, memory: map<string, Bytes>, env: Environment): (events: seq<TaskEvent>)
    requires Startable(request, env)
    ensures IsAnswer(events)
    ensures request.None? <==> events == [Failed(InvalidUrl)]
    ensures request.Some? && Sanitize(request.value) in memory ==>
      var key := Sanitize(request.value);
      && |events| == 3 && events[0].ReceivedResponse? && events[1].ReceivedData?
      && events[0].response.url == request.value
      && events[0].response.mimeType == GetMimeType(key)
      && events[0].response.expectedContentLength == |memory[key]|
      && events[0].response.textEncodingName == "utf-8"
      && events[1].data == memory[key]
    ensures request.Some? && Sanitize(request.value) !in memory ==>
      var f := env.fetch(Sanitize(request.value));
      && (f.error.Some? ==> events == [Failed(Transport(f.error.value))])
      && (f.error.None? && f.data.Some? && f.response.Some? ==>
            events == [ReceivedResponse(f.response.value), ReceivedData(f.data.value), Finished])
      && (f.error.None? && (f.data.None? || f.response.None?) ==> events == [Failed(LoadFailed)])
  {
    match request
    case None => [Failed(InvalidUrl)]
    case Some(url) =>
      var key := Sanitize(url);
      if key in memory then
        var data := memory[key];
        [ReceivedResponse(Response(url, GetMimeType(key), |data|, "utf-8")), ReceivedData(data), Finished]
      else
        var f := env.fetch(key);
        if f.error.Some? then [Failed(Transport(f.error.value))]
        else if f.data.Some? && f.response.Some? then
          [ReceivedResponse(f.response.value), ReceivedData(f.data.value), Finished]
        else [Failed(LoadFailed)]
  }

  /** A cache hit is answered without the network: its answers do not matter. */
  lemma HitIgnoresNetwork(url: string, memory: map<string, Bytes>, env1: Environment, env2: Environment)
    requires Sanitize(url) in memory
    requires env1.parses(Sanitize(url)) && env2.parses(Sanitize(url))
    ensures Intercept(Some(url), memory, env1) == Intercept(Some(url), memory, env2)
  {
  }

  /**
   * End to end: once a download of `url` has fetched and written it, a
   * request for the custom-scheme form of `url` is a hit that serves
   * exactly the fetched bytes.
   */
  lemma DownloadedResourceIsServed(st: Store.CacheState, url: string, env: Environment)
    requires !ContainsMarker(url) && env.parses(url)
    requires FilePaths.FilePath(url) !in st.disk
    requires Delivered(env.fetch(url)) && env.writeSucceeds(FilePaths.FilePath(url))
    ensures Sanitize(Marker + url) == url
    ensures var bytes := env.fetch(url).data.value;
      Intercept(Some(Marker + url), Store.Download(st, url, env).memory, env)
      == [ReceivedResponse(Response(Marker + url, GetMimeType(url), |bytes|, "utf-8")),
          ReceivedData(bytes), Finished]
  {
    StripsSchemeMarker(url);
    Store.DownloadOutcomes(st, url, env);
  }

  /** `WKURLSchemeTask`: the request it carries and the calls made on it so far. */
  class SchemeTask {
    const request: Option<string>
    var events: seq<TaskEvent>

    constructor(request: Option<string>)
      ensures this.request == request && events == []
    {
      this.request := request;
      events := [];
    }

    method DidReceiveResponse(response: Response)
      modifies this
      ensures events == old(events) + [ReceivedResponse(response)]
    {
      events := events + [ReceivedResponse(response)];
    }

    method DidReceiveData(data: Bytes)
      modifies this
      ensures events == old(events) + [ReceivedData(data)]
    {
      events := events + [ReceivedData(data)];
    }

    method DidFinish()
      modifies this
      ensures events == old(events) + [Finished]
    {
      events := events + [Finished];
    }

    method DidFailWithError(error: TaskError)
      modifies this
      ensures events == old(events) + [Failed(error)]
    {
      events := events + [Failed(error)];
    }
  }

  /**
   * `webView(_:start:)`: makes the calls `Intercept` describes on `task`.
   * The store is only read: a miss does not put what it fetched in memory.
   */
  method Start(task: SchemeTask, store: Store.ResourceStore, env: Environment)
    requires Startable(task.request, env)
    modifies task
    ensures task.events == old(task.events) + Intercept(task.request, store.memory, env)
    ensures store.memory == old(store.memory) && store.disk == old(store.disk)
  {
    if task.request.None? {
      task.DidFailWithError(InvalidUrl);
      return;
    }
    var url := task.request.value;
    var sanitizedURLString := Sanitize(url);
    if sanitizedURLString in store.memory {
      var data := store.memory[sanitizedURLString];
      var mimeType := GetMimeType(sanitizedURLString);
      var response := Response(url, mimeType, |data|, "utf-8");
      task.DidReceiveResponse(response);
      task.DidReceiveData(data);
      task.DidFinish();
      return;
    }
    var f := env.fetch(sanitizedURLString);
    if f.error.Some? {
      task.DidFailWithError(Transport(f.error.value));
      return;
    }
    if f.data.Some? && f.response.Some? {
      task.DidReceiveResponse(f.response.value);
      task.DidReceiveData(f.data.value);
      task.DidFinish();
    } else {
      task.DidFailWithError(LoadFailed);
    }
  }
}
