/**
 * What the image cache receives from outside: its configuration, the
 * request, the decoded source image's size, and the functions it calls
 * into but whose workings are not modelled (the filesystem, md5,
 * http_build_query and HTTP date formatting).
 */
module Context {
  import opened Wrappers
  import opened PhpValues
  import opened OrderedMap

  /** The `imagefly` configuration array. */
  datatype Config = Config(
    cacheDir: string,         // cache_dir, expected to end in '/'
    mimicSourceDir: bool,     // mimic_source_dir
    scaleUp: bool,            // scale_up
    enforcePresets: bool,     // enforce_presets
    presets: seq<string>,     // presets
    absPath: string,          // abs_path, the directory images are served from
    quality: Option<Val>,     // quality, None when the key is absent
    ncColor: string,          // nc_color, the padding background
    cacheExpire: nat          // cache_expire, in seconds
  )

  /** The route's `params` and `imagepath` segments, the If-Modified-Since header and the clock. */
  datatype Request = Request(
    params: string,
    imagepath: string,
    ifModifiedSince: Option<string>,
    now: int
  )

  /** The natural size of the decoded source image. */
  datatype SourceImage = SourceImage(width: nat, height: nat)

  /**
   * The filesystem as seen by the request: whether the cached file exists is
   * read before it is built; modification time, size and MIME type are read
   * when a file is served, so they describe the file as written.
   */
  datatype Filesystem = Filesystem(
    fileExists: string -> bool,
    mtime: string -> nat,
    size: string -> nat,
    mime: string -> string
  )

  /** Library functions treated as opaque: md5, http_build_query and gmdate('D, d M Y H:i:s'). */
  datatype Oracles = Oracles(
    md5: string -> string,
    query: Params -> string,
    httpDate: int -> string
  )

  /**
   * Why a request stops before a file is served: NotFound is the source's
   * 404 exception; RuntimeError is a PHP notice or error that the
   * framework turns into an exception (an empty token, a division by zero).
   */
  datatype Abort = NotFound | RuntimeError
}
