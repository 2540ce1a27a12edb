/**
 * The composition planner: which calls on the image library build the
 * cached variant. A crop request is resized to cover the box and cropped at
 * the origin; a no-crop request is resized to fit and centred on a canvas
 * of the box's size; anything else is only resized. The result is saved
 * with the requested quality or the configured one.
 */
module Composer {
  import opened Wrappers
  import opened PhpValues
  import opened OrderedMap
  import opened Context
  import opened Dimensions
  import opened ParamParser

  /** A call on the image library, with the arguments it is given. */
  datatype ImageOp =
    | Make(path: string)                            // Image::make($path)
    | ResizeTo(width: nat, height: nat)             // $image->resize($width, $height)
    | Crop(cropWidth: Val, cropHeight: Val, x: int, y: int) // $image->crop($w, $h, $x, $y)
    | Canvas(canvasWidth: Val, canvasHeight: Val, color: string) // Image::canvas($w, $h, $color)
    | InsertCentered                                // $canvas->insert($image, 'center')
    | Save(path: string, quality: Val)              // ->save($path, $quality)

  datatype Policy = CropPolicy | PadPolicy | PlainPolicy

  /** Crop takes precedence over no-crop, and no-crop over a plain resize. */
  function PolicyOf(p: Params): Policy {
    if Truthy(Get(p, "c")) then CropPolicy
    else if Truthy(Get(p, "nc")) then PadPolicy
    else PlainPolicy
  }

  /** The `q` parameter when it is truthy, else the configured quality, else 80. */
  function SaveQuality(p: Params, cfg: Config): Val {
    if Truthy(Get(p, "q")) then Get(p, "q") else cfg.quality.GetOr(Int(80))
  }

  /** The calls made, in order, and the error that stopped them, if any. */
  datatype Plan = Plan(ops: seq<ImageOp>, failure: Option<Abort>)

  predicate IsSave(op: ImageOp) {
    op.Save?
  }

  /** The parameters a parse that succeeded leaves: a width or a height is set. */
  predicate Plannable(p: Params) {
    DimsWellFormed(p) && (DimValue(Get(p, "w")).Some? || DimValue(Get(p, "h")).Some?)
  }

  /**
   * The calls that build the cached file. On success the last call, and the
   * only save, writes the cached file; on failure nothing is saved.
   */
  function CreateCached(p: Params, cfg: Config, src: SourceImage, cachedFile: string): (plan: Plan)
    requires Plannable(p) && src.width > 0 && src.height > 0
    ensures plan.failure.None? ==>
      && |plan.ops| >= 2
      && plan.ops[|plan.ops| - 1] == Save(cachedFile, SaveQuality(p, cfg))
      && (forall i :: 0 <= i < |plan.ops| - 1 ==> !IsSave(plan.ops[i]))
    ensures plan.failure.Some? ==>
      && plan.failure == Some(RuntimeError)
      && (forall i :: 0 <= i < |plan.ops| ==> !IsSave(plan.ops[i]))
  {
    var w := Get(p, "w");
    var h := Get(p, "h");
    var save := Save(cachedFile, SaveQuality(p, cfg));
    match PolicyOf(p)
    case CropPolicy =>
      (match Resize(src.width, src.height, DimValue(w), DimValue(h), Some(INVERSE))
       case Err(e) => Plan([], Some(e))
       case Ok(r) => Plan([ResizeTo(r.width, r.height), Crop(w, h, 0, 0), save], None))
    case PadPolicy =>
      var canvas := Canvas(w, h, cfg.ncColor);
      (match Resize(src.width, src.height, DimValue(w), DimValue(h), Some(AUTO))
       case Err(e) => Plan([canvas], Some(e))
       case Ok(r) => Plan([canvas, ResizeTo(r.width, r.height), InsertCentered, save], None))
    case PlainPolicy =>
      (match Resize(src.width, src.height, DimValue(w), DimValue(h), Some(INVERSE))
       case Err(e) => Plan([], Some(e))
       case Ok(r) => Plan([ResizeTo(r.width, r.height), save], None))
  }

  /**
   * Crop with a positive width a and height b: the image is resized to cover
   * a x b and the a x b crop at the origin lies inside it.
   */
  lemma CropBoxInsideResized(p: Params, cfg: Config, src: SourceImage, cachedFile: string, a: nat, b: nat)
    requires Plannable(p) && src.width > 0 && src.height > 0
    requires PolicyOf(p) == CropPolicy
    requires DimValue(Get(p, "w")) == Some(a) && DimValue(Get(p, "h")) == Some(b) && a > 0 && b > 0
    ensures var plan := CreateCached(p, cfg, src, cachedFile);
      && plan.failure.None? && |plan.ops| == 3
      && plan.ops[0].ResizeTo? && plan.ops[0].width >= a && plan.ops[0].height >= b
      && plan.ops[1] == Crop(Get(p, "w"), Get(p, "h"), 0, 0)
  {
    InverseCovers(src.width, src.height, a, b);
  }

  /**
   * No-crop with a positive width a and height b: an a x b canvas, and the
   * image resized to fit inside it before it is centred there.
   */
  lemma PadImageFitsCanvas(p: Params, cfg: Config, src: SourceImage, cachedFile: string, a: nat, b: nat)
    requires Plannable(p) && src.width > 0 && src.height > 0
    requires PolicyOf(p) == PadPolicy
    requires DimValue(Get(p, "w")) == Some(a) && DimValue(Get(p, "h")) == Some(b) && a > 0 && b > 0
    ensures var plan := CreateCached(p, cfg, src, cachedFile);
      && plan.failure.None? && |plan.ops| == 4
      && plan.ops[0] == Canvas(Get(p, "w"), Get(p, "h"), cfg.ncColor)
      && plan.ops[1].ResizeTo? && plan.ops[1].width <= a && plan.ops[1].height <= b
      && plan.ops[2] == InsertCentered
  {
    AutoFitsInside(src.width, src.height, a, b);
  }

  /**
   * The policies exclude each other: only a crop request crops, only a
   * no-crop request without crop builds a canvas, and a plain request only
   * resizes (to the INVERSE size) and saves.
   */
  lemma PolicyPrecedence(p: Params, cfg: Config, src: SourceImage, cachedFile: string)
    requires Plannable(p) && src.width > 0 && src.height > 0
    ensures var plan := CreateCached(p, cfg, src, cachedFile);
      && (forall i :: 0 <= i < |plan.ops| && plan.ops[i].Crop? ==> Truthy(Get(p, "c")))
      && (forall i :: 0 <= i < |plan.ops| && plan.ops[i].Canvas? ==>
            !Truthy(Get(p, "c")) && Truthy(Get(p, "nc")))
      && (PolicyOf(p) == PlainPolicy && plan.failure.None? ==>
            var r := Resize(src.width, src.height, DimValue(Get(p, "w")), DimValue(Get(p, "h")), Some(INVERSE));
            r.Ok? && plan.ops == [ResizeTo(r.value.width, r.value.height), Save(cachedFile, SaveQuality(p, cfg))])
  {
  }

  /** The save uses `q` when it is truthy, otherwise the configured quality, otherwise 80. */
  lemma QualityRule(p: Params, cfg: Config)
    ensures Truthy(Get(p, "q")) ==> SaveQuality(p, cfg) == Get(p, "q")
    ensures !Truthy(Get(p, "q")) && cfg.quality.Some? ==> SaveQuality(p, cfg) == cfg.quality.value
    ensures !Truthy(Get(p, "q")) && cfg.quality.None? ==> SaveQuality(p, cfg) == Int(80)
  {
  }
}
