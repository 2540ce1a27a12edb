/**
 * The image cache controller. Constructing it handles one request: create
 * the cache directory, parse the parameters, work out the cached file's
 * path, build the variant when it is missing and needed, and answer with
 * the source, the cached variant or a 304.
 */
module Imagefly {
  import opened Wrappers
  import opened PhpValues
  import opened OrderedMap
  import opened Paths
  import opened Context
  import opened ParamParser
  import opened Dimensions
  import opened Composer
  import opened CacheKey
  import opened Serve

  /** How far the request has got: not answered yet, stopped by an exception, or answered. */
  datatype Reply = Pending | Aborted(reason: Abort) | Replied(response: Response)

  /** The calls made on the image library and the reply. */
  datatype Outcome = Outcome(ops: seq<ImageOp>, reply: Reply)

  /** The cached file's path for a source, given its modification time on the filesystem. */
  function CachedFileFor(cfg: Config, fs: Filesystem, orc: Oracles, p: Params, sourceFile: string): string {
    CachedFile(cfg, sourceFile, p, fs.mtime(sourceFile), orc)
  }

  /** Whether the configured source would be served as is (`serve_default`). */
  predicate ServesSource(p: Params, src: SourceImage, cachedExists: bool)
    requires DimsWellFormed(p) && src.width > 0 && src.height > 0
  {
    !cachedExists && !Serve.CachedRequired(p, src)
  }

  /** The whole request, as a function of what it reads. */
  function Handle(cfg: Config, req: Request, src: SourceImage, fs: Filesystem, orc: Oracles): (o: Outcome)
    requires src.width > 0 && src.height > 0 && DimTokensNumeric(req.params)
    ensures o.reply != Pending
    ensures o.reply.Replied? ==> Parse(cfg, req.params, req.imagepath, src).Ok?
  {
    if PresetRejected(cfg, req.params) then Outcome([], Aborted(NotFound))
    else
      var make := [Make(SourcePath(cfg, req.imagepath))];
      match Parse(cfg, req.params, req.imagepath, src)
      case Err(e) => Outcome(make, Aborted(e))
      case Ok(parsed) =>
        var cachedFile := CachedFileFor(cfg, fs, orc, parsed.params, parsed.sourceFile);
        var rest := DeliverOutcome(cfg, req, src, fs, orc, parsed.params, parsed.sourceFile, cachedFile);
        Outcome(make + rest.ops, rest.reply)
  }

  /** Once the parameters parse, the request continues with the cached file's path. */
  lemma HandleWhenParsed(cfg: Config, req: Request, src: SourceImage, fs: Filesystem, orc: Oracles, p: Params, sourceFile: string)
    requires src.width > 0 && src.height > 0 && DimTokensNumeric(req.params)
    requires Parse(cfg, req.params, req.imagepath, src) == Ok(Parsed(p, sourceFile))
    ensures Plannable(p)
    ensures var rest := DeliverOutcome(cfg, req, src, fs, orc, p, sourceFile, CachedFileFor(cfg, fs, orc, p, sourceFile));
      Handle(cfg, req, src, fs, orc) == Outcome([Make(SourcePath(cfg, req.imagepath))] + rest.ops, rest.reply)
  {
  }

  /**
   * The part of a request after the cached file's path is known: build the
   * variant if it is missing and needed, then answer.
   */
  function DeliverOutcome(cfg: Config, req: Request, src: SourceImage, fs: Filesystem, orc: Oracles,
                          p: Params, sourceFile: string, cachedFile: string): (o: Outcome)
    requires Plannable(p) && src.width > 0 && src.height > 0
    ensures o.reply != Pending
  {
    var cachedExists := fs.fileExists(cachedFile);
    var serveDefault := ServesSource(p, src, cachedExists);
    var plan := if !cachedExists && !serveDefault then Composer.CreateCached(p, cfg, src, cachedFile) else Plan([], None);
    if plan.failure.Some? then Outcome(plan.ops, Aborted(plan.failure.value))
    else
      var file := if serveDefault then sourceFile else cachedFile;
      Outcome(plan.ops, Replied(Respond(cfg, fs, orc, req.ifModifiedSince, req.now, file)))
  }

  /** Whether any of the calls saves an image. */
  predicate SavesAny(ops: seq<ImageOp>) {
    exists i :: 0 <= i < |ops| && IsSave(ops[i])
  }

  /** Opening the source before the library calls adds no save and keeps the last call. */
  lemma SavesAnyAfterMake(m: ImageOp, ops: seq<ImageOp>)
    requires !IsSave(m)
    ensures SavesAny([m] + ops) <==> SavesAny(ops)
    ensures ops != [] ==> ([m] + ops)[|[m] + ops| - 1] == ops[|ops| - 1]
  {
    var all := [m] + ops;
    if SavesAny(all) {
      var i :| 0 <= i < |all| && IsSave(all[i]);
      assert IsSave(ops[i - 1]);
    }
    if SavesAny(ops) {
      var i :| 0 <= i < |ops| && IsSave(ops[i]);
      assert IsSave(all[i + 1]);
    }
  }

  /**
   * After the cached file's path is known: the library saves an image
   * exactly when the cached file is missing, a resize is required and the
   * resize succeeds; then the last call saves the cached file and that file
   * is served. The only stop is a runtime error of the resize, and it saves
   * nothing.
   */
  lemma DeliverSaves(cfg: Config, req: Request, src: SourceImage, fs: Filesystem, orc: Oracles,
                     p: Params, sourceFile: string, cachedFile: string)
    requires Plannable(p) && src.width > 0 && src.height > 0
    ensures var o := DeliverOutcome(cfg, req, src, fs, orc, p, sourceFile, cachedFile);
      && (SavesAny(o.ops) <==>
            !fs.fileExists(cachedFile) && Serve.CachedRequired(p, src)
            && Composer.CreateCached(p, cfg, src, cachedFile).failure.None?)
      && (SavesAny(o.ops) ==>
            && o.ops[|o.ops| - 1] == Save(cachedFile, SaveQuality(p, cfg))
            && o.reply == Replied(Respond(cfg, fs, orc, req.ifModifiedSince, req.now, cachedFile)))
      && (o.reply.Aborted? ==> o.reply.reason == RuntimeError && !SavesAny(o.ops))
  {
    var o := DeliverOutcome(cfg, req, src, fs, orc, p, sourceFile, cachedFile);
    if !fs.fileExists(cachedFile) && Serve.CachedRequired(p, src) {
      var plan := Composer.CreateCached(p, cfg, src, cachedFile);
      if plan.failure.None? {
        assert IsSave(o.ops[|o.ops| - 1]);
      }
    }
  }

  /**
   * A request whose parameters do not parse stops with the parser's reason;
   * the source has been opened unless the preset check refused the request.
   * Every other stop is a runtime error of the resize. A stopped request
   * saves nothing.
   */
  lemma AbortReasons(cfg: Config, req: Request, src: SourceImage, fs: Filesystem, orc: Oracles)
    requires src.width > 0 && src.height > 0 && DimTokensNumeric(req.params)
    ensures var o := Handle(cfg, req, src, fs, orc);
      var r := Parse(cfg, req.params, req.imagepath, src);
      && (r.Err? ==> o.reply == Aborted(r.error)
                     && o.ops == (if PresetRejected(cfg, req.params) then [] else [Make(SourcePath(cfg, req.imagepath))]))
      && (r.Ok? && o.reply.Aborted? ==> o.reply.reason == RuntimeError)
      && (o.reply.Aborted? ==> !SavesAny(o.ops))
  {
    var r := Parse(cfg, req.params, req.imagepath, src);
    if r.Ok? {
      var p, sf := r.value.params, r.value.sourceFile;
      var cf := CachedFileFor(cfg, fs, orc, p, sf);
      HandleWhenParsed(cfg, req, src, fs, orc, p, sf);
      DeliverSaves(cfg, req, src, fs, orc, p, sf, cf);
      SavesAnyAfterMake(Make(SourcePath(cfg, req.imagepath)), DeliverOutcome(cfg, req, src, fs, orc, p, sf, cf).ops);
    } else if !PresetRejected(cfg, req.params) {
      SavesAnyAfterMake(Make(SourcePath(cfg, req.imagepath)), []);
    }
  }

  /**
   * Once the parameters parse, the library saves an image exactly when the
   * cached file is missing, a resize is required and the resize succeeds;
   * then the last call saves the cached file, and that file is served.
   */
  lemma SavesOnlyMissingVariant(cfg: Config, req: Request, src: SourceImage, fs: Filesystem, orc: Oracles, p: Params, sourceFile: string)
    requires src.width > 0 && src.height > 0 && DimTokensNumeric(req.params)
    requires Parse(cfg, req.params, req.imagepath, src) == Ok(Parsed(p, sourceFile))
    ensures var cf := CachedFileFor(cfg, fs, orc, p, sourceFile);
      var o := Handle(cfg, req, src, fs, orc);
      && (SavesAny(o.ops) <==>
            !fs.fileExists(cf) && Serve.CachedRequired(p, src) && Composer.CreateCached(p, cfg, src, cf).failure.None?)
      && (SavesAny(o.ops) ==>
            && o.ops[|o.ops| - 1] == Save(cf, SaveQuality(p, cfg))
            && o.reply == Replied(Respond(cfg, fs, orc, req.ifModifiedSince, req.now, cf)))
  {
    var cf := CachedFileFor(cfg, fs, orc, p, sourceFile);
    HandleWhenParsed(cfg, req, src, fs, orc, p, sourceFile);
    DeliverSaves(cfg, req, src, fs, orc, p, sourceFile, cf);
    var rest := DeliverOutcome(cfg, req, src, fs, orc, p, sourceFile, cf);
    SavesAnyAfterMake(Make(SourcePath(cfg, req.imagepath)), rest.ops);
  }

  /**
   * Which file answers a parsed request: the source itself when the cached
   * file is missing and the size asked is the source's, otherwise the cached
   * file; the answer is a 304 exactly when If-Modified-Since matches that
   * file's date.
   */
  lemma ServedFile(cfg: Config, req: Request, src: SourceImage, fs: Filesystem, orc: Oracles, p: Params, sourceFile: string)
    requires src.width > 0 && src.height > 0 && DimTokensNumeric(req.params)
    requires Parse(cfg, req.params, req.imagepath, src) == Ok(Parsed(p, sourceFile))
    ensures var cf := CachedFileFor(cfg, fs, orc, p, sourceFile);
      var o := Handle(cfg, req, src, fs, orc);
      var file := if !fs.fileExists(cf) && !Serve.CachedRequired(p, src) then sourceFile else cf;
      o.reply.Replied? ==>
        && (o.reply.response.Sent? ==> o.reply.response.file == file)
        && (o.reply.response.NotModified? <==> IsNotModified(req.ifModifiedSince, LastModifiedDate(fs, file, orc)))
  {
    HandleWhenParsed(cfg, req, src, fs, orc, p, sourceFile);
  }

  /**
   * A repeated request finds its cached file: no image is built, only the
   * source is opened, and the cached file is served.
   */
  lemma RepeatServesCached(cfg: Config, req: Request, src: SourceImage, fs: Filesystem, orc: Oracles, p: Params, sourceFile: string)
    requires src.width > 0 && src.height > 0 && DimTokensNumeric(req.params)
    requires Parse(cfg, req.params, req.imagepath, src) == Ok(Parsed(p, sourceFile))
    requires fs.fileExists(CachedFileFor(cfg, fs, orc, p, sourceFile))
    ensures Handle(cfg, req, src, fs, orc) ==
      Outcome([Make(SourcePath(cfg, req.imagepath))],
              Replied(Respond(cfg, fs, orc, req.ifModifiedSince, req.now, CachedFileFor(cfg, fs, orc, p, sourceFile))))
  {
    HandleWhenParsed(cfg, req, src, fs, orc, p, sourceFile);
    assert [Make(SourcePath(cfg, req.imagepath))] + [] == [Make(SourcePath(cfg, req.imagepath))];
  }

  /**
   * A browser that echoes the Last-Modified date of the cached file it holds
   * gets a 304 and no image is built.
   */
  lemma EchoedDateGetsNotModified(cfg: Config, req: Request, src: SourceImage, fs: Filesystem, orc: Oracles, p: Params, sourceFile: string)
    requires src.width > 0 && src.height > 0 && DimTokensNumeric(req.params)
    requires Parse(cfg, req.params, req.imagepath, src) == Ok(Parsed(p, sourceFile))
    requires fs.fileExists(CachedFileFor(cfg, fs, orc, p, sourceFile))
    requires req.ifModifiedSince == Some(LastModifiedDate(fs, CachedFileFor(cfg, fs, orc, p, sourceFile), orc))
    requires '\\' !in orc.httpDate(fs.mtime(CachedFileFor(cfg, fs, orc, p, sourceFile)))
    ensures var o := Handle(cfg, req, src, fs, orc);
      o.ops == [Make(SourcePath(cfg, req.imagepath))] && o.reply.Replied? && o.reply.response.NotModified?
  {
    RepeatServesCached(cfg, req, src, fs, orc, p, sourceFile);
    EchoedDateIsNotModified(fs, CachedFileFor(cfg, fs, orc, p, sourceFile), orc);
  }

  /** The controller object and the state its steps update in place. */
  class Imagefly {
    const config: Config
    var cacheDir: string
    var serveDefault: bool
    var sourceFile: string
    var urlParams: Params
    var sourceModified: nat
    var cachedFile: string
    var ops: seq<ImageOp>
    var reply: Reply

    /** `__construct`: every step of the request in turn. */
    constructor(cfg: Config, req: Request, src: SourceImage, fs: Filesystem, orc: Oracles)
      requires src.width > 0 && src.height > 0 && DimTokensNumeric(req.params)
      ensures var r := Parse(cfg, req.params, req.imagepath, src);
        r.Err? ==> reply == Aborted(r.error) && ops == (if PresetRejected(cfg, req.params) then [] else [Make(SourcePath(cfg, req.imagepath))])
      ensures var r := Parse(cfg, req.params, req.imagepath, src);
        r.Ok? ==>
          && urlParams == r.value.params && sourceFile == r.value.sourceFile && Plannable(urlParams)
          && sourceModified == fs.mtime(sourceFile)
          && cacheDir == CacheDir(cfg, sourceFile)
          && cachedFile == CachedFileFor(cfg, fs, orc, urlParams, sourceFile)
          && serveDefault == ServesSource(urlParams, src, fs.fileExists(cachedFile))
          && ops == [Make(SourcePath(cfg, req.imagepath))] + DeliverOutcome(cfg, req, src, fs, orc, urlParams, sourceFile, cachedFile).ops
          && reply == DeliverOutcome(cfg, req, src, fs, orc, urlParams, sourceFile, cachedFile).reply
    {
      config := cfg;
      cacheDir := "";
      serveDefault := false;
      sourceFile := "";
      urlParams := InitialParams();
      sourceModified := 0;
      cachedFile := "";
      ops := [];
      reply := Pending;
      new;
      CreateCacheDir();
      var failure := SetParams(req, src);
      if failure.Some? {
        reply := Aborted(failure.value);
        return;
      }
      ghost var made := ops;
      assert made == [Make(SourcePath(cfg, req.imagepath))];
      Finish(req, src, fs, orc);
      assert ops == made + DeliverOutcome(config, req, src, fs, orc, urlParams, sourceFile, cachedFile).ops;
    }

    method Finish(req: Request, src: SourceImage, fs: Filesystem, orc: Oracles)
      requires Plannable(urlParams) && src.width > 0 && src.height > 0 && !serveDefault
      requires cacheDir == config.cacheDir
      modifies this`sourceModified, this`cacheDir, this`cachedFile, this`serveDefault, this`ops, this`reply
      ensures sourceModified == fs.mtime(sourceFile)
      ensures cacheDir == CacheDir(config, sourceFile)
      ensures cachedFile == CachedFileFor(config, fs, orc, urlParams, sourceFile)
      ensures serveDefault == ServesSource(urlParams, src, fs.fileExists(cachedFile))
      ensures ops == old(ops) + DeliverOutcome(config, req, src, fs, orc, urlParams, sourceFile, cachedFile).ops
      ensures reply == DeliverOutcome(config, req, src, fs, orc, urlParams, sourceFile, cachedFile).reply
    {
      LocateCachedFile(fs, orc);
      Deliver(req, src, fs, orc);
    }

    /**
     * Lines of `__construct` between parsing and building: the source's
     * modification time, the mimic directory and the cached file's path.
     */
    method LocateCachedFile(fs: Filesystem, orc: Oracles)
      requires cacheDir == config.cacheDir
      modifies this`sourceModified, this`cacheDir, this`cachedFile
      ensures sourceModified == fs.mtime(sourceFile)
      ensures cacheDir == CacheDir(config, sourceFile)
      ensures cachedFile == CachedFileFor(config, fs, orc, urlParams, sourceFile)
    {
      sourceModified := fs.mtime(sourceFile);
      CreateMimicCacheDir();
      cachedFile := cacheDir + EncodedFilename(sourceFile, urlParams, sourceModified, orc);
    }

    /**
     * The end of `__construct`: build the cached variant when it is missing
     * and required, then serve.
     */
    method Deliver(req: Request, src: SourceImage, fs: Filesystem, orc: Oracles)
      requires Plannable(urlParams) && src.width > 0 && src.height > 0 && !serveDefault
      modifies this`serveDefault, this`ops, this`reply
      ensures serveDefault == ServesSource(urlParams, src, fs.fileExists(cachedFile))
      ensures ops == old(ops) + DeliverOutcome(config, req, src, fs, orc, urlParams, sourceFile, cachedFile).ops
      ensures reply == DeliverOutcome(config, req, src, fs, orc, urlParams, sourceFile, cachedFile).reply
    {
      if !fs.fileExists(cachedFile) {
        var required := CachedRequired(src);
        if required {
          var failure := CreateCached(src);
          if failure.Some? {
            reply := Aborted(failure.value);
            return;
          }
        }
      }
      ServeFile(fs, orc, req.ifModifiedSince, req.now);
    }

    /** `_create_cache_dir`: the cache directory is the configured one. */
    method CreateCacheDir()
      modifies this`cacheDir
      ensures cacheDir == config.cacheDir
    {
      cacheDir := config.cacheDir;
    }

    /**
     * `_set_params`: the preset check, the source image is opened, then the
     * token loop, the clamp and the at-least-one-dimension check. The outcome
     * is the parser's; on success the parameters and source path are set.
     */
    method SetParams(req: Request, src: SourceImage) returns (failure: Option<Abort>)
      requires src.width > 0 && src.height > 0 && DimTokensNumeric(req.params)
      requires urlParams == InitialParams()
      modifies this`urlParams, this`sourceFile, this`ops
      ensures var r := Parse(config, req.params, req.imagepath, src);
        && (failure.Some? <==> r.Err?)
        && (r.Err? ==> failure == Some(r.error))
        && (r.Ok? ==> urlParams == r.value.params && sourceFile == r.value.sourceFile)
      ensures ops == old(ops) + (if PresetRejected(config, req.params) then [] else [Make(SourcePath(config, req.imagepath))])
      ensures failure.Some? ==> sourceFile == old(sourceFile)
      ensures failure.None? ==> ops == old(ops) + [Make(SourcePath(config, req.imagepath))]
    {
      if config.enforcePresets && req.params !in config.presets {
        assert Parse(config, req.params, req.imagepath, src) == Err(NotFound);
        return Some(NotFound);
      }
      var filepath := config.absPath + "/" + req.imagepath;
      ops := ops + [Make(filepath)];
      var tokens := Split(req.params, '-');
      failure := ReadTokens(tokens);
      if failure.Some? {
        return;
      }
      if !config.scaleUp {
        urlParams := Clamp(urlParams, src.width, src.height);
      }
      if Empty(Get(urlParams, "w")) && Empty(Get(urlParams, "h")) {
        return Some(NotFound);
      }
      sourceFile := filepath;
      return None;
    }

    /**
     * The token loop of `_set_params`: each token updates the parameter
     * array in turn; an empty token stops the request with a PHP notice.
     */
    method ReadTokens(tokens: seq<string>) returns (failure: Option<Abort>)
      requires DimsWellFormed(urlParams) && TokensNumeric(tokens)
      modifies this`urlParams
      ensures failure.Some? <==> ApplyTokens(old(urlParams), tokens).Err?
      ensures failure.Some? ==> failure == Some(RuntimeError)
      ensures failure.None? ==> ApplyTokens(old(urlParams), tokens) == Ok(urlParams)
    {
      var i := 0;
      while i < |tokens|
        invariant 0 <= i <= |tokens|
        invariant DimsWellFormed(urlParams)
        invariant ApplyTokens(urlParams, tokens[i..]) == ApplyTokens(old(urlParams), tokens)
      {
        if tokens[i] == [] {
          return Some(RuntimeError);
        }
        assert tokens[i..] == [tokens[i]] + tokens[i + 1..];
        urlParams := ApplyToken(urlParams, tokens[i]);
        i := i + 1;
      }
      assert tokens[i..] == [];
      return None;
    }

    /** `_create_mimic_cache_dir`: with mimic_source_dir, the source's directory under the cache directory. */
    method CreateMimicCacheDir()
      modifies this`cacheDir
      ensures cacheDir == if config.mimicSourceDir then config.cacheDir + Dirname(sourceFile) + "/" else old(cacheDir)
    {
      if config.mimicSourceDir {
        var mimicDir := config.cacheDir + Dirname(sourceFile);
        cacheDir := mimicDir + "/";
      }
    }

    /** `_cached_required`: false, and the source to be served, when the size asked is the source's. */
    method CachedRequired(src: SourceImage) returns (required: bool)
      requires DimsWellFormed(urlParams) && src.width > 0 && src.height > 0
      modifies this`serveDefault
      ensures required == Serve.CachedRequired(urlParams, src)
      ensures serveDefault == (old(serveDefault) || !required)
    {
      if LooseEqualsInt(Get(urlParams, "w"), src.width) && LooseEqualsInt(Get(urlParams, "h"), src.height) {
        serveDefault := true;
        return false;
      }
      return true;
    }

    /** `_create_cached`: the library calls of the composition plan, in order. */
    method CreateCached(src: SourceImage) returns (failure: Option<Abort>)
      requires Plannable(urlParams) && src.width > 0 && src.height > 0
      modifies this`ops
      ensures var plan := Composer.CreateCached(urlParams, config, src, cachedFile);
        ops == old(ops) + plan.ops && failure == plan.failure
    {
      var p, cfg, file := urlParams, config, cachedFile;
      var w := Get(p, "w");
      var h := Get(p, "h");
      var calls: seq<ImageOp> := [];
      failure := None;
      if Truthy(Get(p, "c")) {
        var r := Resize(src.width, src.height, DimValue(w), DimValue(h), Some(INVERSE));
        if r.Err? {
          failure := Some(r.error);
        } else {
          calls := calls + [ResizeTo(r.value.width, r.value.height)];
          calls := calls + [Crop(w, h, 0, 0)];
        }
      } else if Truthy(Get(p, "nc")) {
        calls := calls + [Canvas(w, h, cfg.ncColor)];
        var r := Resize(src.width, src.height, DimValue(w), DimValue(h), Some(AUTO));
        if r.Err? {
          failure := Some(r.error);
        } else {
          calls := calls + [ResizeTo(r.value.width, r.value.height)];
          calls := calls + [InsertCentered];
        }
      } else {
        var r := Resize(src.width, src.height, DimValue(w), DimValue(h), Some(INVERSE));
        if r.Err? {
          failure := Some(r.error);
        }  else {
          calls := calls + [ResizeTo(r.value.width, r.value.height)];
        }
      }
      if failure.None? {
        if Truthy(Get(p, "q")) {
          calls := calls + [Save(file, Get(p, "q"))];
        } else {
          calls := calls + [Save(file, cfg.quality.GetOr(Int(80)))];
        }
      }
      ops := ops + calls;
    }

    /** `_serve_file`: the source when serve_default is set, otherwise the cached file. */
    method ServeFile(fs: Filesystem, orc: Oracles, ifModifiedSince: Option<string>, now: int)
      modifies this`reply
      ensures reply == Replied(Respond(config, fs, orc, ifModifiedSince, now, if serveDefault then sourceFile else cachedFile))
    {
      var fileData := if serveDefault then sourceFile else cachedFile;
      reply := Replied(Respond(config, fs, orc, ifModifiedSince, now, fileData));
    }
  }
}
