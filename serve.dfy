/**
 * Serving: whether the source itself can be served, the HTTP caching
 * headers, and the conditional 304 Not Modified answer.
 */
module Serve {
  import opened Wrappers
  import opened PhpValues
  import opened OrderedMap
  import opened Context
  import opened ParamParser

  /**
   * `_cached_required`: a variant is needed unless the requested width and
   * height both equal the source's (PHP's loose `==`).
   */
  function CachedRequired(p: Params, src: SourceImage): (required: bool)
    requires DimsWellFormed(p) && src.width > 0 && src.height > 0
    ensures !required <==> DimValue(Get(p, "w")) == Some(src.width) && DimValue(Get(p, "h")) == Some(src.height)
  {
    LooseEqualsIntMeaning(Get(p, "w"), src.width);
    LooseEqualsIntMeaning(Get(p, "h"), src.height);
    !(LooseEqualsInt(Get(p, "w"), src.width) && LooseEqualsInt(Get(p, "h"), src.height))
  }

  /** One header the response sends. */
  datatype Header =
    | LastModified(date: string)   // Last-Modified: <date>
    | ContentType(mime: string)    // Content-Type: <mime>
    | ContentLength(length: nat)   // Content-Length: <length>
    | Expires(expiry: string)      // Expires: <expiry>
    | CacheControl(maxAge: nat)    // Cache-Control: max-age=<maxAge>, public
    | NotModifiedStatus            // HTTP/1.1 304 Not Modified
    | ConnectionClose              // Connection: close

  /** The header line PHP's header() is given. */
  function HeaderLine(h: Header): string {
    match h
    case LastModified(d) => "Last-Modified: " + d
    case ContentType(m) => "Content-Type: " + m
    case ContentLength(n) => "Content-Length: " + NatToString(n)
    case Expires(d) => "Expires: " + d
    case CacheControl(n) => "Cache-Control: max-age=" + NatToString(n) + ", public"
    case NotModifiedStatus => "HTTP/1.1 304 Not Modified"
    case ConnectionClose => "Connection: close"
  }

  /** An answer: headers only (304), or headers followed by the bytes of a file. */
  datatype Response =
    | NotModified(headers: seq<Header>)
    | Sent(headers: seq<Header>, file: string)

  /** A file's Last-Modified value: its modification time as an HTTP date. */
  function LastModifiedDate(fs: Filesystem, file: string, orc: Oracles): string {
    orc.httpDate(fs.mtime(file)) + " GMT"
  }

  /** The five caching headers for a file, in the order they are sent. */
  function CacheHeaders(cfg: Config, fs: Filesystem, orc: Oracles, now: int, file: string): seq<Header> {
    [ LastModified(LastModifiedDate(fs, file, orc)),
      ContentType(fs.mime(file)),
      ContentLength(fs.size(file)),
      Expires(orc.httpDate(now + cfg.cacheExpire) + " GMT"),
      CacheControl(cfg.cacheExpire) ]
  }

  /**
   * `_modified_headers`' test: the If-Modified-Since header is present, is
   * truthy after stripslashes, and equals the Last-Modified value.
   */
  predicate IsNotModified(ifModifiedSince: Option<string>, lastModified: string) {
    match ifModifiedSince
    case None => false
    case Some(h) =>
      var m := StripSlashes(h);
      Truthy(Str(m)) && m == lastModified
  }

  /**
   * `_output_file` with `_create_headers`: the caching headers, then either
   * the 304 status and exit, or the file itself; "Connection: close" last.
   */
  function Respond(cfg: Config, fs: Filesystem, orc: Oracles, ifModifiedSince: Option<string>, now: int, file: string): (r: Response)
    ensures r.NotModified? <==> IsNotModified(ifModifiedSince, LastModifiedDate(fs, file, orc))
    ensures r.Sent? ==> r.file == file
    ensures |r.headers| >= 6 && r.headers[|r.headers| - 1] == ConnectionClose
    ensures forall i :: 0 <= i < |r.headers| - 1 ==> r.headers[i] != ConnectionClose
  {
    var hs := CacheHeaders(cfg, fs, orc, now, file);
    if IsNotModified(ifModifiedSince, LastModifiedDate(fs, file, orc)) then
      NotModified(hs + [NotModifiedStatus, ConnectionClose])
    else
      Sent(hs + [ConnectionClose], file)
  }

  /**
   * The headers describe the file that is served: its modification date,
   * type and size, an expiry cache_expire seconds from now and a max-age of
   * cache_expire seconds; a 304 carries its status line just before the close.
   */
  lemma ResponseHeaders(cfg: Config, fs: Filesystem, orc: Oracles, ifModifiedSince: Option<string>, now: int, file: string)
    ensures var r := Respond(cfg, fs, orc, ifModifiedSince, now, file);
      && r.headers[0] == LastModified(orc.httpDate(fs.mtime(file)) + " GMT")
      && r.headers[1] == ContentType(fs.mime(file))
      && r.headers[2] == ContentLength(fs.size(file))
      && r.headers[3] == Expires(orc.httpDate(now + cfg.cacheExpire) + " GMT")
      && r.headers[4] == CacheControl(cfg.cacheExpire)
      && (r.NotModified? ==> |r.headers| == 7 && r.headers[5] == NotModifiedStatus)
      && (r.Sent? ==> |r.headers| == 6)
  {
  }

  /**
   * A Last-Modified value always ends in " GMT", so it is truthy and PHP's
   * loose `!=` against it is plain string inequality: the answer is 304
   * exactly when the header is present and equals it after stripslashes.
   */
  lemma NotModifiedRule(ifModifiedSince: Option<string>, fs: Filesystem, file: string, orc: Oracles)
    ensures IsNotModified(ifModifiedSince, LastModifiedDate(fs, file, orc))
      <==> ifModifiedSince.Some? && StripSlashes(ifModifiedSince.value) == LastModifiedDate(fs, file, orc)
  {
    var d := LastModifiedDate(fs, file, orc);
    assert d[|d| - 1] == 'T';
  }

  /**
   * A client that echoes the Last-Modified value it was given gets a 304,
   * provided the date contains no backslash (an HTTP date never does).
   */
  lemma EchoedDateIsNotModified(fs: Filesystem, file: string, orc: Oracles)
    requires '\\' !in orc.httpDate(fs.mtime(file))
    ensures IsNotModified(Some(LastModifiedDate(fs, file, orc)), LastModifiedDate(fs, file, orc))
  {
    var d := LastModifiedDate(fs, file, orc);
    assert '\\' !in d;
    StripSlashesIdentity(d);
    NotModifiedRule(Some(d), fs, file, orc);
  }
}
