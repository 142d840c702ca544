/**
 * serve.py: a development HTTP handler that adds CORS and no-cache headers to
 * every response and rewrites requests for pages that do not exist on disk to
 * the single-page entry `/index.html`. The socket server, the browser launch
 * and the file serving itself are outside the model; the file system enters as
 * an existence oracle over relative paths.
 */
module Serve {

  const IndexPath: string := "/index.html"
  const HtmlSuffix: string := ".html"

  datatype Header = Header(name: string, value: string)

  /** The headers `end_headers` adds before delegating, in order. */
  const CorsHeaders: seq<Header> := [
    Header("Access-Control-Allow-Origin", "*"),
    Header("Access-Control-Allow-Methods", "GET"),
    Header("Cache-Control", "no-store, no-cache, must-revalidate")
  ]

  /** Length of the prefix of `s` that contains none of the characters in `stops`. */
  function PrefixLen(s: string, stops: set<char>): (n: nat)
    ensures n <= |s|
    ensures forall k :: 0 <= k < n ==> s[k] !in stops
    ensures n < |s| ==> s[n] in stops
    decreases |s|
  {
    if |s| == 0 || s[0] in stops then 0 else 1 + PrefixLen(s[1..], stops)
  }

  /** The path component of a request target: everything before the query or fragment. */
  function UrlPath(target: string): (p: string)
    ensures p <= target
    ensures '?' !in p && '#' !in p
  {
    target[..PrefixLen(target, {'?', '#'})]
  }

  /** os.path.basename: the part after the last '/'. */
  function Basename(p: string): (b: string)
    ensures '/' !in b
    ensures |b| <= |p| && b == p[|p| - |b|..]
    decreases |p|
  {
    if |p| == 0 then ""
    else if p[|p| - 1] == '/' then ""
    else Basename(p[..|p| - 1]) + [p[|p| - 1]]
  }

  predicate EndsWith(s: string, suffix: string)
  {
    |suffix| <= |s| && s[|s| - |suffix|..] == suffix
  }

  /** Python's `path[1:]` (empty for the empty path). */
  function Relative(p: string): string
  {
    if |p| == 0 then "" else p[1..]
  }

  /** Requests for a file with an extension other than `.html` are served as asked. */
  predicate IsAssetPath(path: string)
  {
    '.' in Basename(path) && !EndsWith(path, HtmlSuffix)
  }

  /** do_GET replaces `self.path` exactly when this holds of the parsed path. */
  predicate Rewrites(target: string, fileExists: string -> bool)
  {
    var path := UrlPath(target);
    !IsAssetPath(path) && (path == "/" || !fileExists(Relative(path)))
  }

  /** The value `self.path` holds when `do_GET` delegates to the file server. */
  function Route(target: string, fileExists: string -> bool): (r: string)
    ensures r == target || r == IndexPath
  {
    var path := UrlPath(target);
    if IsAssetPath(path) then target
    else if path == "/" || !fileExists(Relative(path)) then IndexPath
    else target
  }

  /** The request handler: the field `do_GET` may rewrite and the headers it has queued. */
  class CorsRequestHandler {
    var path: string
    var headers: seq<Header>
    var headersEnded: bool

    constructor (target: string)
      ensures path == target && headers == [] && !headersEnded
    {
      path := target;
      headers := [];
      headersEnded := false;
    }

    /** do_GET: rewrite `self.path` when needed, then serve it; returns what is served. */
    method DoGet(fileExists: string -> bool) returns (served: string)
      modifies this
      ensures path == Route(old(path), fileExists)
      ensures served == path
      ensures headers == old(headers) && headersEnded == old(headersEnded)
    {
      var p := UrlPath(path);
      if '.' in Basename(p) && !EndsWith(p, HtmlSuffix) {
        served := path;
        return;
      }
      if p == "/" || !fileExists(Relative(p)) {
        path := IndexPath;
      }
      served := path;
    }

    /** end_headers: queue the three CORS/no-cache headers, then finish the header block. */
    method EndHeaders()
      modifies this
      ensures headers == old(headers) + CorsHeaders
      ensures headersEnded
      ensures path == old(path)
    {
      headers := headers + [Header("Access-Control-Allow-Origin", "*")];
      headers := headers + [Header("Access-Control-Allow-Methods", "GET")];
      headers := headers + [Header("Cache-Control", "no-store, no-cache, must-revalidate")];
      headersEnded := true;
    }
  }

  /** An asset request is never rewritten, whatever the file system holds. */
  lemma AssetUntouched(target: string, fileExists: string -> bool)
    requires IsAssetPath(UrlPath(target))
    ensures Route(target, fileExists) == target
  {
  }

  /** The root path is always rewritten to the entry page. */
  lemma RootRewritten(target: string, fileExists: string -> bool)
    requires UrlPath(target) == "/"
    ensures Route(target, fileExists) == IndexPath
  {
    assert Basename("/") == "";
  }

  /** A non-asset path whose relative file does not exist is rewritten to the entry page. */
  lemma MissingRewritten(target: string, fileExists: string -> bool)
    requires !IsAssetPath(UrlPath(target)) && !fileExists(Relative(UrlPath(target)))
    ensures Route(target, fileExists) == IndexPath
  {
  }

  /** An existing `.html` or extensionless page other than the root is served unchanged. */
  lemma ExistingPageServed(target: string, fileExists: string -> bool)
    requires var p := UrlPath(target);
             !IsAssetPath(p) && p != "/" && fileExists(Relative(p))
    ensures Route(target, fileExists) == target
  {
  }

  /** The decision is taken on the path alone: appending a query string never changes it. */
  lemma QueryIgnored(target: string, query: string, fileExists: string -> bool)
    requires '?' !in target && '#' !in target
    ensures UrlPath(target + "?" + query) == UrlPath(target) == target
    ensures Rewrites(target + "?" + query, fileExists) == Rewrites(target, fileExists)
    ensures Rewrites(target, fileExists) ==> Route(target + "?" + query, fileExists) == IndexPath
  {
    PrefixLenNoStops(target, {'?', '#'});
    var t := target + "?" + query;
    PrefixLenStops(t, |target|, {'?', '#'});
    assert t[..|target|] == target;
  }

  /** Route rewrites exactly when Rewrites holds, and then only to the entry page. */
  lemma RouteRewritesIff(target: string, fileExists: string -> bool)
    ensures Rewrites(target, fileExists) ==> Route(target, fileExists) == IndexPath
    ensures !Rewrites(target, fileExists) ==> Route(target, fileExists) == target
  {
  }

  lemma {:induction false} PrefixLenStops(s: string, n: nat, stops: set<char>)
    requires n < |s| && s[n] in stops
    requires forall k :: 0 <= k < n ==> s[k] !in stops
    ensures PrefixLen(s, stops) == n
    decreases n
  {
    if n > 0 {
      PrefixLenStops(s[1..], n - 1, stops);
    }
  }

  /** Routing is idempotent: serving the rewritten path again does not move it. */
  lemma RouteIdempotent(target: string, fileExists: string -> bool)
    ensures Route(Route(target, fileExists), fileExists) == Route(target, fileExists)
  {
    if Route(target, fileExists) == IndexPath {
      IndexPathIsPage();
    }
  }

  /** The entry page is its own path and is not an asset. */
  lemma IndexPathIsPage()
    ensures UrlPath(IndexPath) == IndexPath
    ensures !IsAssetPath(IndexPath) && IndexPath != "/"
  {
    IndexPathNoStops();
    PrefixLenNoStops(IndexPath, {'?', '#'});
    IndexPathIsHtml();
  }

  lemma IndexPathIsHtml()
    ensures EndsWith(IndexPath, HtmlSuffix)
  {
    assert IndexPath[|IndexPath| - |HtmlSuffix|..] == HtmlSuffix;
  }

  lemma IndexPathNoStops()
    ensures forall k :: 0 <= k < |IndexPath| ==> IndexPath[k] !in {'?', '#'}
  {
  }

  lemma {:induction false} PrefixLenNoStops(s: string, stops: set<char>)
    requires forall k :: 0 <= k < |s| ==> s[k] !in stops
    ensures PrefixLen(s, stops) == |s|
    decreases |s|
  {
    if |s| > 0 {
      PrefixLenNoStops(s[1..], stops);
    }
  }
}
