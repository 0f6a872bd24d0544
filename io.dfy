/**
 * The outside world the cache talks to: bytes, URL responses and the
 * results of network, file and parsing calls. Every such call is an oracle
 * held in an `Environment`, so that each branch of the cache can be
 * examined for every possible outcome.
 */
module Io {
  import opened Wrappers

  type Byte = bv8
  type Bytes = seq<Byte>

  /** A `URLResponse`: the URL it answers, its MIME type, its expected length. */
  datatype Response = Response(url: string, mimeType: string, expectedContentLength: int, textEncodingName: string)

  /** An error reported by the networking layer; its content is opaque to the cache. */
  datatype TransportError = TransportError(code: int)

  /**
   * The three arguments a `URLSession` data task hands to its completion
   * handler: each of data, response and error may independently be absent.
   */
  datatype FetchResult = FetchResult(data: Option<Bytes>, response: Option<Response>, error: Option<TransportError>)

  /**
   * Oracles for everything the cache cannot see:
   * - `parses(s)`: `URL(string: s)` is not nil;
   * - `fetch(u)`: the completion of a data task for URL `u`;
   * - `readSucceeds(f)`: `Data(contentsOf:)` on cache file `f` does not throw;
   * - `writeSucceeds(f)`: `data.write(to:)` on cache file `f` does not throw;
   * - `decodeManifest(b)`: the JSON array of objects in `b`, each object
   *   reduced to its `url` field when that field is a string, or None when
   *   `b` is not a JSON array of objects.
   */
  datatype Environment = Environment(
    parses: string -> bool,
    fetch: string -> FetchResult,
    readSucceeds: string -> bool,
    writeSucceeds: string -> bool,
    decodeManifest: Bytes -> Option<seq<Option<string>>>)

  /** The guard `let data = data, error == nil` of a completion handler. */
  predicate Delivered(f: FetchResult)
  {
    f.data.Some? && f.error.None?
  }
}
