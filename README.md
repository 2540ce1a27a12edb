# imagefly in Dafny

A model of the `Imagefly` controller of ivliev/imagefly, an on-demand image
resize cache for Laravel. A request names a source image and a parameter
string such as `w300-h200-c`. The controller:

1. parses the string into an ordered parameter array (`w`, `h`, `c`, `nc`,
   `r`, `q`, then any other tokens), honouring the preset whitelist and, with
   `scale_up` off, clamping the size to the source's;
2. derives the cached file's path from an md5 of the source path and the
   parameters, the source's modification time and its lower-cased
   extension, optionally under a directory that mirrors the source's;
3. when the cached file is missing and the size asked differs from the
   source's, plans the image-library calls that build it (crop, pad onto a
   canvas, or plain resize, with the master-dimension arithmetic of
   `resize`), and saves it;
4. serves the source, or the cached file, with caching headers, or answers
   304 Not Modified when If-Modified-Since matches.

The modules follow that structure:

| file | module | what it holds |
|---|---|---|
| `php_values.dfy` | `PhpValues` | PHP scalars, `empty()`, loose `>`/`==` against an int, strtolower, stripslashes, int-to-string |
| `ordered_map.dfy` | `OrderedMap` | PHP's ordered array: assignment overwrites in place or appends |
| `paths.dfy` | `Paths` | explode, dirname and the pathinfo extension |
| `context.dfy` | `Context` | the configuration, the request, the filesystem and library functions as parameters |
| `params.dfy` | `ParamParser` | `_set_params` as a function, with its per-token rules |
| `dimensions.dfy` | `Dimensions` | the master-dimension calculation of `resize` |
| `composer.dfy` | `Composer` | `_create_cached` as a plan of image-library calls |
| `cache_key.dfy` | `CacheKey` | `_encoded_filename` and the cache directory |
| `serve.dfy` | `Serve` | `_cached_required`, the headers and the 304 test |
| `imagefly.dfy` | `Imagefly` | the request as a function (`Handle`) and the controller class whose methods update its fields step by step, each proved against those functions |

The controller class `Imagefly.Imagefly` keeps the source's fields
(`cache_dir`, `serve_default`, `source_file`, `url_params`,
`source_modified`, `cached_file`). Its methods update them in place. Two
fields are added: `ops`, the log of image-library calls made, and `reply`,
how the request ended. The constructor runs the steps of `__construct` in
turn. It is proved to end in the state that `Handle` describes.

The host framework turns PHP notices and errors into exceptions. The model
therefore treats two cases as aborting the request with `RuntimeError`:

- an empty token (`$raw_param[0]` on `""`, from a string such as `w300--c`);
- a division by zero in `resize`. A width or height token of `00` is not
  `empty()`, but it is numerically 0, so the AUTO and INVERSE ratios divide
  by it (`Dimensions.ZeroDimensionDividesByZero`).

The 404 exceptions are `NotFound`.

PHP's `/` and `round` work in floating point. Here the ratios are exact
rationals, compared by cross-multiplying, and rounding is half up:
`(2p + q) div 2q`.

## Model

| member | source | states |
|---|---|---|
| `PhpValues.DimValue` | src/Ivliev/Imagefly/Imagefly.php:455-473 | a width or height counts as given exactly when PHP's `empty()` does not hold of it |
| `PhpValues.GreaterThanInt` | src/Ivliev/Imagefly/Imagefly.php:213-218 | PHP's loose `$v > $n` of a size slot and a positive int; its meaning is `GreaterThanIntMeaning` |
| `PhpValues.LooseEqualsInt` | src/Ivliev/Imagefly/Imagefly.php:251 | PHP's loose `$v == $n` of a size slot and a positive int; its meaning is `LooseEqualsIntMeaning` |
| `PhpValues.NatToString` | src/Ivliev/Imagefly/Imagefly.php:270 | the modification time is written as a non-empty decimal string without a leading zero |
| `PhpValues.DigitsValueOfNatToString` | src/Ivliev/Imagefly/Imagefly.php:270 | reading that decimal string back gives the number |
| `PhpValues.NatToStringInjective` | src/Ivliev/Imagefly/Imagefly.php:270 | distinct modification times give distinct strings |
| `PhpValues.GreaterThanIntMeaning` | src/Ivliev/Imagefly/Imagefly.php:213-218 | PHP's loose `$w > width()` holds exactly when the slot is set to a number above the width, for null, `""`, digit strings and ints |
| `PhpValues.LooseEqualsIntMeaning` | src/Ivliev/Imagefly/Imagefly.php:251 | PHP's loose `$w == $image_info[0]` holds exactly when the slot is set to that number |
| `PhpValues.Lower` | src/Ivliev/Imagefly/Imagefly.php:266 | strtolower on ASCII letters; its properties are `LowerChars` and `LowerKeeps` |
| `PhpValues.StripSlashes` | src/Ivliev/Imagefly/Imagefly.php:379 | stripslashes: a backslash is dropped and the next character kept, `\0` becomes NUL, a trailing backslash is dropped; see `StripSlashesIdentity` |
| `PhpValues.LowerChars` | src/Ivliev/Imagefly/Imagefly.php:266 | strtolower keeps the length and maps each character on its own |
| `PhpValues.LowerKeeps` | src/Ivliev/Imagefly/Imagefly.php:266 | strtolower introduces no character that is not a letter |
| `PhpValues.StripSlashesIdentity` | src/Ivliev/Imagefly/Imagefly.php:379 | stripslashes leaves a string without backslashes unchanged |
| `OrderedMap.Put` | src/Ivliev/Imagefly/Imagefly.php:192-207 | after `$a[$k] = $v` the key holds v; the key order is kept when k was present, otherwise k is appended |
| `OrderedMap.PutOthers` | src/Ivliev/Imagefly/Imagefly.php:192-207 | assigning one key leaves every other key's value unchanged |
| `OrderedMap.PutValid` | src/Ivliev/Imagefly/Imagefly.php:192-207 | assignment keeps the keys distinct and in step with the stored values |
| `Paths.Split` | src/Ivliev/Imagefly/Imagefly.php:184 | explode returns at least one piece |
| `Paths.SplitPiecesFree` | src/Ivliev/Imagefly/Imagefly.php:184 | no piece contains the separator |
| `Paths.JoinSplit` | src/Ivliev/Imagefly/Imagefly.php:184 | implode of the pieces gives back the string |
| `Paths.SplitJoin` | src/Ivliev/Imagefly/Imagefly.php:184 | explode undoes implode of separator-free pieces |
| `Paths.TrimTrailingSlashesPrefix` | src/Ivliev/Imagefly/Imagefly.php:146 | dirname's trailing-slash trim leaves a prefix that does not end in '/' |
| `Paths.TrimTrailingNamePrefix` | src/Ivliev/Imagefly/Imagefly.php:146 | removing the last component leaves a prefix that is empty or ends in '/' |
| `Paths.Dirname` | src/Ivliev/Imagefly/Imagefly.php:146 | dirname of a '/'-separated path: trailing slashes ignored, the last component and the slashes before it removed, "." without a slash and "/" at the root; see `DirnameOfChild` |
| `Paths.DirnameOfChild` | src/Ivliev/Imagefly/Imagefly.php:146 | the directory of `dir/name` is `dir` |
| `Paths.LastComponentNoSlash` | src/Ivliev/Imagefly/Imagefly.php:266 | the base name holds no '/' |
| `Paths.AfterLastDotChars` | src/Ivliev/Imagefly/Imagefly.php:266 | what follows the last dot holds no dot and only characters of the name |
| `Paths.Extension` | src/Ivliev/Imagefly/Imagefly.php:266 | the text after the last dot of the base name, "" when there is none; see `ExtensionChars` and `ExtensionOfSuffix` |
| `Paths.ExtensionChars` | src/Ivliev/Imagefly/Imagefly.php:266 | an extension holds neither '.' nor '/' |
| `Paths.ExtensionOfSuffix` | src/Ivliev/Imagefly/Imagefly.php:266 | a path ending in `.e`, with e free of '.' and '/', has extension e |
| `ParamParser.InitialParams` | src/Ivliev/Imagefly/Imagefly.php:63-70 | the declared array has width and height slots, both holding null |
| `ParamParser.InitialParamsValid` | src/Ivliev/Imagefly/Imagefly.php:63-70 | the declared array is well formed |
| `ParamParser.ApplyToken` | src/Ivliev/Imagefly/Imagefly.php:187-208 | every token leaves the width and height slots present and holding sizes |
| `ParamParser.ApplyTokens` | src/Ivliev/Imagefly/Imagefly.php:184-209 | the token loop fails exactly when some token is empty, and then with a runtime error |
| `ParamParser.Clamp` | src/Ivliev/Imagefly/Imagefly.php:211-219 | width and height stay sizes; what clamping does is `ClampRule` |
| `ParamParser.Parse` | src/Ivliev/Imagefly/Imagefly.php:165-230 | a successful parse leaves well-formed sizes, at least one non-empty dimension and the source path `abs_path/imagepath` |
| `ParamParser.ApplyTokenValid` | src/Ivliev/Imagefly/Imagefly.php:187-208 | one token keeps the array well formed |
| `ParamParser.ApplyTokensValid` | src/Ivliev/Imagefly/Imagefly.php:184-209 | the token loop keeps the array well formed |
| `ParamParser.ParseValid` | src/Ivliev/Imagefly/Imagefly.php:165-230 | a parsed array is well formed |
| `ParamParser.SlotTokenRule` | src/Ivliev/Imagefly/Imagefly.php:202-204 | a `w`, `h`, `q` or `r` token overwrites its slot with the rest of the token; nothing else changes |
| `ParamParser.CropTokenRule` | src/Ivliev/Imagefly/Imagefly.php:191-201 | a `c` token sets crop, fills an empty width from the height, then an empty height from the width; nothing else changes |
| `ParamParser.ExtraTokenRule` | src/Ivliev/Imagefly/Imagefly.php:205-208 | any other token is stored whole under itself, appended when new; nothing else changes |
| `ParamParser.CropAfterWidthFillsHeight` | src/Ivliev/Imagefly/Imagefly.php:191-201 | `w300-c` sets the height to 300 as well |
| `ParamParser.CropBeforeWidthLeavesHeight` | src/Ivliev/Imagefly/Imagefly.php:191-201 | `c-w300` leaves the height empty |
| `ParamParser.ClampRule` | src/Ivliev/Imagefly/Imagefly.php:211-219 | clamping bounds each set size by the source's, never raises a value, never empties or fills a slot and changes nothing else |
| `ParamParser.NoScaleUp` | src/Ivliev/Imagefly/Imagefly.php:211-219 | with scale_up off, a parsed width or height never exceeds the source's |
| `ParamParser.ParseOutcome` | src/Ivliev/Imagefly/Imagefly.php:165-230 | the parser fails with a runtime error exactly when the preset check passes and a token is empty. It fails with NotFound exactly when the preset check rejects the string, or when the tokens leave neither a width nor a height |
| `Dimensions.Resize` | src/Ivliev/Imagefly/Imagefly.php:436-515 | a resolved size is at least 1x1; its master is never AUTO or INVERSE, and is WIDTH or HEIGHT for every master asked other than NONE and PRECISE; the only failure is a runtime error |
| `Dimensions.RoundDivNearest` | src/Ivliev/Imagefly/Imagefly.php:508-509 | half-up rounding is within one half of the exact ratio |
| `Dimensions.RoundDivAtMost` | src/Ivliev/Imagefly/Imagefly.php:508-509 | rounding a ratio at most k gives at most k |
| `Dimensions.RoundDivAtLeast` | src/Ivliev/Imagefly/Imagefly.php:508-509 | rounding a ratio at least k gives at least k |
| `Dimensions.AtLeastOneRoundDiv` | src/Ivliev/Imagefly/Imagefly.php:508-509 | `max(round(p/q), 1)` is the nearest integer to p/q, or 1 below one half |
| `Dimensions.WidthHintIsAuto` | src/Ivliev/Imagefly/Imagefly.php:443-447 | WIDTH with a width is AUTO with the height cleared |
| `Dimensions.HeightHintIsAuto` | src/Ivliev/Imagefly/Imagefly.php:448-452 | HEIGHT with a height is AUTO with the width cleared |
| `Dimensions.NoWidthMeansHeightMaster` | src/Ivliev/Imagefly/Imagefly.php:455-463 | with no width the height is master and the width follows the source's proportions |
| `Dimensions.NoHeightMeansWidthMaster` | src/Ivliev/Imagefly/Imagefly.php:465-473 | with no height the width is master and the height follows the source's proportions |
| `Dimensions.MasterAxisKept` | src/Ivliev/Imagefly/Imagefly.php:486-494 | the master axis keeps its requested value and the other axis is the rounded proportion |
| `Dimensions.AutoFitsInside` | src/Ivliev/Imagefly/Imagefly.php:476-479 | AUTO picks WIDTH exactly when `sw*h > sh*w`, and the result fits inside w x h |
| `Dimensions.InverseCovers` | src/Ivliev/Imagefly/Imagefly.php:480-483 | INVERSE picks the other axis, and the result covers w x h |
| `Dimensions.AutoInverseOpposite` | src/Ivliev/Imagefly/Imagefly.php:475-484 | AUTO and INVERSE never settle on the same axis |
| `Dimensions.ZeroDimensionDividesByZero` | src/Ivliev/Imagefly/Imagefly.php:478 | a set but zero size makes AUTO and INVERSE fail with a runtime error |
| `Dimensions.WidthOnlyExample` | src/Ivliev/Imagefly/Imagefly.php:487-490 | 800x600 asked for width 400 gives 400x300 |
| `Dimensions.CoverExample` | src/Ivliev/Imagefly/Imagefly.php:480-483 | 800x600 covering 300x300 gives 400x300 |
| `Dimensions.FitExample` | src/Ivliev/Imagefly/Imagefly.php:476-479 | 800x600 fitting 300x600 gives 300x225 |
| `Dimensions.TinyExample` | src/Ivliev/Imagefly/Imagefly.php:508-509 | a derived size below one half is raised to 1 |
| `Composer.CreateCached` | src/Ivliev/Imagefly/Imagefly.php:278-321 | a plan that succeeds ends with the only save, which writes the cached file with the chosen quality; a failed plan saves nothing and fails with a runtime error |
| `Composer.CropBoxInsideResized` | src/Ivliev/Imagefly/Imagefly.php:280-286 | a crop resizes to cover w x h and then crops w x h at the origin, inside the resized image |
| `Composer.PadImageFitsCanvas` | src/Ivliev/Imagefly/Imagefly.php:287-294 | no-crop builds a w x h canvas, resizes to fit inside it and centres the image |
| `Composer.PolicyPrecedence` | src/Ivliev/Imagefly/Imagefly.php:280-298 | only a crop request crops. Only a no-crop request without crop builds a canvas. A plain request only resizes to the INVERSE size and saves |
| `Composer.QualityRule` | src/Ivliev/Imagefly/Imagefly.php:315-321 | the save uses `q` when truthy, else the configured quality, else 80 |
| `Composer.PolicyOf` | src/Ivliev/Imagefly/Imagefly.php:280-298 | crop when `c` is truthy, else pad when `nc` is truthy, else a plain resize; see `PolicyPrecedence` |
| `Composer.SaveQuality` | src/Ivliev/Imagefly/Imagefly.php:315-321 | `q` when truthy, else the configured quality, else 80; see `QualityRule` |
| `CacheKey.CachedFileExtension` | src/Ivliev/Imagefly/Imagefly.php:264-273 | the cached file has the source's extension, lower-cased |
| `CacheKey.EncodedFilenameDetermines` | src/Ivliev/Imagefly/Imagefly.php:264-273 | with equal-length digests, equal names mean equal digests, equal modification times and equal extensions |
| `CacheKey.CacheDirUnderRoot` | src/Ivliev/Imagefly/Imagefly.php:142-160 | every variant is filed under the configured cache directory, which is used as is without mimic_source_dir |
| `CacheKey.MimicDirMirrorsSource` | src/Ivliev/Imagefly/Imagefly.php:142-160 | with mimic_source_dir, `dir/name` is cached in the cache directory followed by `dir/` |
| `CacheKey.EncodedFilename` | src/Ivliev/Imagefly/Imagefly.php:264-273 | digest of the source path and the parameters' query string, '-', the modification time, '.', the lower-cased extension; the name determines these parts (`EncodedFilenameDetermines`) |
| `CacheKey.CacheDir` | src/Ivliev/Imagefly/Imagefly.php:142-160 | cache_dir, followed by the source's directory and '/' with mimic_source_dir; see `CacheDirUnderRoot` and `MimicDirMirrorsSource` |
| `CacheKey.CachedFile` | src/Ivliev/Imagefly/Imagefly.php:109 | the cache directory followed by the encoded name; see `CachedFileExtension` |
| `Serve.CachedRequired` | src/Ivliev/Imagefly/Imagefly.php:247-257 | no variant is needed exactly when both requested sizes equal the source's |
| `Serve.Respond` | src/Ivliev/Imagefly/Imagefly.php:330-369 | the answer is a 304 exactly when If-Modified-Since matches the file's date. Otherwise the file itself is sent. "Connection: close" is the last header and appears only there |
| `Serve.ResponseHeaders` | src/Ivliev/Imagefly/Imagefly.php:330-369 | the headers carry the file's date, type and size, the expiry and the max-age in that order; a 304 adds its status line before the close |
| `Serve.NotModifiedRule` | src/Ivliev/Imagefly/Imagefly.php:377-388 | the answer is 304 exactly when the header is present and equals the Last-Modified value after stripslashes |
| `Serve.EchoedDateIsNotModified` | src/Ivliev/Imagefly/Imagefly.php:377-388 | echoing the Last-Modified value back gives a 304 |
| `Serve.IsNotModified` | src/Ivliev/Imagefly/Imagefly.php:379-381 | the header is present, truthy after stripslashes, and equal to Last-Modified; see `NotModifiedRule` |
| `Serve.CacheHeaders` | src/Ivliev/Imagefly/Imagefly.php:333-356 | Last-Modified, Content-Type, Content-Length, Expires and Cache-Control for the file, in that order; see `ResponseHeaders` |
| `Imagefly.Handle` | src/Ivliev/Imagefly/Imagefly.php:88-118 | every request ends, either stopped or answered; an answered request parsed |
| `Imagefly.HandleWhenParsed` | src/Ivliev/Imagefly/Imagefly.php:99-117 | once the parameters parse, the source is opened and the request continues with the cached file's path |
| `Imagefly.DeliverOutcome` | src/Ivliev/Imagefly/Imagefly.php:111-117 | building and serving always end the request |
| `Imagefly.ServesSource` | src/Ivliev/Imagefly/Imagefly.php:111-114 | the source is served when the cached file is missing and `_cached_required` says no variant is needed; see `ServedFile` |
| `Imagefly.DeliverSaves` | src/Ivliev/Imagefly/Imagefly.php:111-117 | an image is saved exactly when the cached file is missing, a resize is needed and it succeeds; the saved file is the one served; a stop is a runtime error and saves nothing |
| `Imagefly.AbortReasons` | src/Ivliev/Imagefly/Imagefly.php:88-118 | a parse failure stops the request with its reason, after opening the source unless the presets refused; any other stop is a runtime error; a stopped request saves nothing |
| `Imagefly.SavesOnlyMissingVariant` | src/Ivliev/Imagefly/Imagefly.php:111-114 | for the whole request: a save happens exactly on a missing, needed and successful variant, and it writes the served file |
| `Imagefly.ServedFile` | src/Ivliev/Imagefly/Imagefly.php:393-404 | the source is served exactly when the cached file is missing and the size matches, otherwise the cached file; 304 exactly when the date matches that file's |
| `Imagefly.RepeatServesCached` | src/Ivliev/Imagefly/Imagefly.php:111-117 | when the cached file exists, nothing is built and the cached file is served |
| `Imagefly.EchoedDateGetsNotModified` | src/Ivliev/Imagefly/Imagefly.php:377-388 | a browser echoing the cached file's date gets a 304 and nothing is built |
| `Imagefly.Imagefly.constructor` | src/Ivliev/Imagefly/Imagefly.php:88-118 | on a parse failure, the reply and calls of the parser's failure. On success: the parsed parameters and source path; the source's modification time, the cache directory and the cached path; serve_default exactly when the source is served; the calls and reply of `DeliverOutcome`, i.e. of `Handle` |
| `Imagefly.Imagefly.Finish` | src/Ivliev/Imagefly/Imagefly.php:102-117 | from the parsed state: the modification time, cache directory and cached path, serve_default exactly when the source is served, then the calls and reply of `DeliverOutcome` |
| `Imagefly.Imagefly.LocateCachedFile` | src/Ivliev/Imagefly/Imagefly.php:102-109 | sets the source's modification time, the cache directory and the cached file's path |
| `Imagefly.Imagefly.Deliver` | src/Ivliev/Imagefly/Imagefly.php:111-117 | sets serve_default exactly when the source is served, appends the calls and sets the reply of `DeliverOutcome` |
| `Imagefly.Imagefly.CreateCacheDir` | src/Ivliev/Imagefly/Imagefly.php:124-136 | the cache directory becomes the configured one |
| `Imagefly.Imagefly.SetParams` | src/Ivliev/Imagefly/Imagefly.php:165-230 | fails exactly when `Parse` does and with its reason; on success the fields hold the parsed parameters and source path; the source is opened after the preset check |
| `Imagefly.Imagefly.ReadTokens` | src/Ivliev/Imagefly/Imagefly.php:184-209 | the loop leaves the array `ApplyTokens` computes, or stops with a runtime error exactly when it does |
| `Imagefly.Imagefly.CreateMimicCacheDir` | src/Ivliev/Imagefly/Imagefly.php:142-160 | with mimic_source_dir the cache directory becomes the configured one plus the source's directory and '/', otherwise it is unchanged |
| `Imagefly.Imagefly.CachedRequired` | src/Ivliev/Imagefly/Imagefly.php:247-257 | returns `Serve.CachedRequired` and sets serve_default when no variant is needed |
| `Imagefly.Imagefly.CreateCached` | src/Ivliev/Imagefly/Imagefly.php:278-321 | appends exactly the calls of `Composer.CreateCached` and reports its failure |
| `Imagefly.Imagefly.ServeFile` | src/Ivliev/Imagefly/Imagefly.php:393-404 | answers with the source when serve_default is set, otherwise with the cached file |

## Left out

- The filesystem and the clock are parameters of the request: file existence, modification time, size, MIME type and the current time. `mkdir` (lines 126-131 and 149-155) is not modelled. `file_get_contents`, the chunked output loop and `exit` (lines 412-434) are not modelled; the reply records which file is sent.
- Every image-library call (`make`, `resize`, `crop`, `canvas`, `insert`, `save`) is assumed to succeed, including a `crop` or `canvas` given a null width or height (`c-w300` crops to a null height, `nc-w300` builds a canvas with one). The only failures modelled are the empty token and the division by zero in `resize`; a transform or cache write that fails in the library is not.
- The image library (Intervention Image) is modelled as the log of calls made and their arguments. Pixels, decoding and `getimagesize` are not modelled; the source's size is an input. A source that `Image::make` cannot open is not modelled.
- md5, `http_build_query` and `gmdate` are uninterpreted functions. Nothing is assumed of them, not even that md5 is injective.
- PHP's `/` and `round` work on doubles. The model uses exact rationals, so a result can differ from PHP's by one pixel when a ratio falls within rounding error of one half.
- The commented-out watermark block (lines 300-312) and the unused flip constants are not behaviour.
- The Laravel service provider, controller and facade only register the route and are not part of this model. The 404 exception class `HTTP_Exception_404` is not imported into the source's namespace. The model treats both 404 points as a NotFound abort without modelling the resulting error.
- `in_array` for the presets compares loosely. The model uses exact membership, which differs only for numeric strings.
- ParamParser.Parse: requires every `w` or `h` token to carry decimal digits (possibly none), because PHP's loose comparison of other strings with an int differs between PHP versions; the same requirement is carried by `ApplyToken`, `ApplyTokens`, `Imagefly.Handle` and the controller.
- Dimensions.Resize: requires both sizes when the master is NONE, because that branch of `resize` reads properties the class never declares; the controller only passes INVERSE and AUTO.
- Imagefly.Imagefly.constructor: the PHP constructor reads the configuration, the route and the server variables itself; here they are its parameters.
