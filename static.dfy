/**
 * The static asset handler: which in-memory asset answers a request path.
 *
 * The handler is a value (its method has a value receiver and only reads its
 * fields), so it is a datatype here and serving is a function of the handler
 * and the path.  What is written to the wire beyond the X-Frame-Options header
 * and the chosen content is not modelled.
 */
module Static {
  import opened Wrappers

  /** The header value every served asset carries. */
  const SameOrigin: string := "SAMEORIGIN"

  /**
   * The handler's configuration: the assets by path, the asset answering the
   * empty path (ignored when empty) and the asset answering any other missing
   * path (ignored when empty).
   */
  datatype Handler = Handler(assets: map<string, string>, index: string, default: string)

  /** The handler's answer: not found, or the chosen content with its X-Frame-Options header. */
  datatype Response = NotFound | Served(frameOptions: string, content: string)

  /** Go's map read: a missing key reads as the empty string. */
  function Lookup(m: map<string, string>, key: string): (v: string)
    ensures key in m ==> v == m[key]
    ensures key !in m ==> v == ""
  {
    if key in m then m[key] else ""
  }

  /** The Index rule applies: the path is the empty path and an Index is configured. */
  predicate IndexApplies(h: Handler, path: string) {
    path == "" && h.index != ""
  }

  /**
   * ServeHTTP: the exact path if it is an asset, else the Index asset for the
   * empty path, else the Default asset, else not found.
   */
  function Serve(h: Handler, path: string): (r: Response)
    ensures r.NotFound? <==> path !in h.assets && !IndexApplies(h, path) && h.default == ""
    ensures r.Served? ==> r.frameOptions == SameOrigin
    ensures path in h.assets ==> r == Served(SameOrigin, h.assets[path])
  {
    if path in h.assets then Served(SameOrigin, h.assets[path])
    else if IndexApplies(h, path) then Served(SameOrigin, Lookup(h.assets, h.index))
    else if h.default != "" then Served(SameOrigin, Lookup(h.assets, h.default))
    else NotFound
  }

  /** A missing empty path with an Index configured serves the Index asset, or nothing when Index is not an asset. */
  lemma IndexServesEmptyPath(h: Handler)
    requires "" !in h.assets && h.index != ""
    ensures Serve(h, "") == Served(SameOrigin, Lookup(h.assets, h.index))
    ensures h.index !in h.assets ==> Serve(h, "").content == ""
  {
  }

  /** Every other missing path, the empty one included when no Index is set, serves the Default asset. */
  lemma DefaultServesMissingPath(h: Handler, path: string)
    requires path !in h.assets && !IndexApplies(h, path) && h.default != ""
    ensures Serve(h, path) == Served(SameOrigin, Lookup(h.assets, h.default))
  {
  }

  /** Served content is always one of the assets, or empty when the Index or Default names none. */
  lemma ServedIsAnAsset(h: Handler, path: string)
    requires Serve(h, path).Served?
    ensures Serve(h, path).content in h.assets.Values || Serve(h, path).content == ""
    ensures Serve(h, path).content != "" ==>
      exists key :: key in h.assets && h.assets[key] == Serve(h, path).content
  {
    var r := Serve(h, path);
    if path in h.assets {
      assert h.assets[path] == r.content;
    } else if IndexApplies(h, path) && h.index in h.assets {
      assert h.assets[h.index] == r.content;
    } else if !IndexApplies(h, path) && h.default in h.assets {
      assert h.assets[h.default] == r.content;
    }
  }

  /** With a Default configured no path is ever answered with not found. */
  lemma DefaultCatchesAll(h: Handler, path: string)
    requires h.default != ""
    ensures Serve(h, path).Served?
  {
  }

  /** Adding an asset under the requested path makes that asset the answer, whatever Index and Default say. */
  lemma ExactPathWins(h: Handler, path: string, content: string)
    ensures Serve(h.(assets := h.assets[path := content]), path) == Served(SameOrigin, content)
  {
  }
}
