/**
 * The URL parameter parser: a hyphen-separated token string such as
 * `w300-h200-c` becomes the ordered parameter array
 * w, h, c, nc, r, q (followed by any unrecognised tokens), which is then
 * clamped to the source size and checked for at least one dimension.
 */
module ParamParser {
  import opened Wrappers
  import opened PhpValues
  import opened OrderedMap
  import opened Paths
  import opened Context

  /** The parameter array before any token is read. */
  function InitialParams(): (p: Params)
    ensures DimsWellFormed(p)
    ensures Get(p, "w") == Null && Get(p, "h") == Null
  {
    Params(["w", "h", "c", "nc", "r", "q"],
           map["w" := Null, "h" := Null, "c" := Bool(false), "nc" := Bool(false), "r" := Bool(false), "q" := Null])
  }

  /** The declared array is well formed. */
  lemma InitialParamsValid()
    ensures Valid(InitialParams())
  {
    var p := InitialParams();
    forall k
      ensures k in p.values <==> k in p.keys
    {
      assert k in p.keys <==> k == "w" || k == "h" || k == "c" || k == "nc" || k == "r" || k == "q";
    }
  }

  /** A width or height token carries decimal digits (possibly none). */
  predicate TokenNumeric(t: string) {
    t != [] && (t[0] == 'w' || t[0] == 'h') ==> IsDigits(t[1..])
  }

  predicate TokensNumeric(ts: seq<string>) {
    forall i :: 0 <= i < |ts| ==> TokenNumeric(ts[i])
  }

  /** The assumption the model makes about the raw parameter string. */
  predicate DimTokensNumeric(raw: string) {
    TokensNumeric(Split(raw, '-'))
  }

  /** The width and height slots exist and hold dimension values. */
  predicate DimsWellFormed(p: Params) {
    HasKey(p, "w") && HasKey(p, "h") && IsDimVal(Get(p, "w")) && IsDimVal(Get(p, "h"))
  }

  /** The effect of one token of the parsing loop. */
  function ApplyToken(p: Params, t: string): (r: Params)
    requires t != [] && TokenNumeric(t)
    requires DimsWellFormed(p)
    ensures DimsWellFormed(r)
  {
    var name := t[..1];
    var value := t[1..];
    if name == "c" then
      // crop: fill an empty width from the height, then an empty height from the width
      var p1 := Put(p, "c", Bool(true));
      var p2 := if Empty(Get(p1, "w")) then Put(p1, "w", Get(p1, "h")) else p1;
      if Empty(Get(p2, "h")) then Put(p2, "h", Get(p2, "w")) else p2
    else if HasKey(p, name) then
      Put(p, name, Str(value))
    else
      assert t[..1] == [t[0]] && t != "w" && t != "h";
      // watermark names and unknown tokens are kept whole, as key and value
      Put(p, t, Str(t))
  }

  /** The parsing loop over all tokens; an empty token raises a PHP notice. */
  function ApplyTokens(p: Params, ts: seq<string>): (r: Result<Params, Abort>)
    requires DimsWellFormed(p) && TokensNumeric(ts)
    ensures r.Err? <==> [] in ts
    ensures r.Err? ==> r.error == RuntimeError
    ensures r.Ok? ==> DimsWellFormed(r.value)
    decreases |ts|
  {
    if ts == [] then Ok(p)
    else if ts[0] == [] then Err(RuntimeError)
    else
      assert ts == [ts[0]] + ts[1..];
      ApplyTokens(ApplyToken(p, ts[0]), ts[1..])
  }

  /** With scale_up off, a width or height above the source's is lowered to it. */
  function Clamp(p: Params, sw: nat, sh: nat): (r: Params)
    requires DimsWellFormed(p) && sw > 0 && sh > 0
    ensures DimsWellFormed(r)
  {
    var p1 := if GreaterThanInt(Get(p, "w"), sw) then Put(p, "w", Int(sw)) else p;
    if GreaterThanInt(Get(p1, "h"), sh) then Put(p1, "h", Int(sh)) else p1
  }

  /** The parameters and the absolute source path a request resolves to. */
  datatype Parsed = Parsed(params: Params, sourceFile: string)

  function SourcePath(cfg: Config, imagepath: string): string {
    cfg.absPath + "/" + imagepath
  }

  /** The preset check at the head of the parser. */
  predicate PresetRejected(cfg: Config, raw: string) {
    cfg.enforcePresets && raw !in cfg.presets
  }

  /** The parser as a whole. */
  function Parse(cfg: Config, raw: string, imagepath: string, src: SourceImage): (r: Result<Parsed, Abort>)
    requires src.width > 0 && src.height > 0
    requires DimTokensNumeric(raw)
    ensures r.Ok? ==> DimsWellFormed(r.value.params)
    ensures r.Ok? ==> r.value.sourceFile == SourcePath(cfg, imagepath)
    ensures r.Ok? ==> !Empty(Get(r.value.params, "w")) || !Empty(Get(r.value.params, "h"))
  {
    if PresetRejected(cfg, raw) then Err(NotFound)
    else
      var tokens := Split(raw, '-');
      match ApplyTokens(InitialParams(), tokens)
      case Err(e) => Err(e)
      case Ok(p) =>
        var clamped := if !cfg.scaleUp then Clamp(p, src.width, src.height) else p;
        if Empty(Get(clamped, "w")) && Empty(Get(clamped, "h")) then Err(NotFound)
        else Ok(Parsed(clamped, SourcePath(cfg, imagepath)))
  }

  // ---------------------------------------------------------------------
  // The parser keeps the parameter array well formed.

  lemma ApplyTokenValid(p: Params, t: string)
    requires t != [] && TokenNumeric(t) && DimsWellFormed(p) && Valid(p)
    ensures Valid(ApplyToken(p, t))
  {
    if t[..1] == "c" {
      var p1 := Put(p, "c", Bool(true));
      PutValid(p, "c", Bool(true));
      var p2 := if Empty(Get(p1, "w")) then Put(p1, "w", Get(p1, "h")) else p1;
      PutValid(p1, "w", Get(p1, "h"));
      PutValid(p2, "h", Get(p2, "w"));
    } else if HasKey(p, t[..1]) {
      PutValid(p, t[..1], Str(t[1..]));
    } else {
      PutValid(p, t, Str(t));
    }
  }

  lemma {:induction false} ApplyTokensValid(p: Params, ts: seq<string>)
    requires DimsWellFormed(p) && TokensNumeric(ts) && Valid(p)
    ensures var r := ApplyTokens(p, ts); r.Ok? ==> Valid(r.value)
    decreases |ts|
  {
    if ts != [] && ts[0] != [] {
      ApplyTokenValid(p, ts[0]);
      assert TokensNumeric(ts[1..]);
      ApplyTokensValid(ApplyToken(p, ts[0]), ts[1..]);
    }
  }

  /** Whatever the tokens, a parsed parameter array is well formed. */
  lemma ParseValid(cfg: Config, raw: string, imagepath: string, src: SourceImage)
    requires src.width > 0 && src.height > 0 && DimTokensNumeric(raw)
    ensures var r := Parse(cfg, raw, imagepath, src); r.Ok? ==> Valid(r.value.params)
  {
    if !PresetRejected(cfg, raw) {
      InitialParamsValid();
      var a := ApplyTokens(InitialParams(), Split(raw, '-'));
      ApplyTokensValid(InitialParams(), Split(raw, '-'));
      if a.Ok? {
        var p := a.value;
        var p1 := if GreaterThanInt(Get(p, "w"), src.width) then Put(p, "w", Int(src.width)) else p;
        PutValid(p, "w", Int(src.width));
        PutValid(p1, "h", Int(src.height));
      }
    }
  }

  // ---------------------------------------------------------------------
  // One rule per token kind; in each, nothing outside the named slots changes.

  /** A `w`, `h`, `q` or `r` token overwrites its slot with the rest of the token. */
  lemma SlotTokenRule(p: Params, t: string)
    requires t != [] && TokenNumeric(t) && DimsWellFormed(p)
    requires t[0] in {'w', 'h', 'q', 'r'} && HasKey(p, [t[0]])
    ensures var r := ApplyToken(p, t);
      && Lookup(r, [t[0]]) == Some(Str(t[1..]))
      && (forall k :: k != [t[0]] ==> Lookup(r, k) == Lookup(p, k))
      && r.keys == p.keys
  {
    assert t[..1] == [t[0]];
  }

  /**
   * A token starting with `c` sets crop; an empty width takes the current
   * height, then an empty height takes the (possibly just filled) width.
   */
  lemma CropTokenRule(p: Params, t: string)
    requires t != [] && TokenNumeric(t) && DimsWellFormed(p)
    requires t[0] == 'c' && HasKey(p, "c")
    ensures var r := ApplyToken(p, t);
      var w := if Empty(Get(p, "w")) then Get(p, "h") else Get(p, "w");
      && Get(r, "c") == Bool(true)
      && Get(r, "w") == w
      && Get(r, "h") == (if Empty(Get(p, "h")) then w else Get(p, "h"))
      && (forall k :: k !in {"c", "w", "h"} ==> Lookup(r, k) == Lookup(p, k))
      && r.keys == p.keys
  {
    assert t[..1] == "c";
  }

  /** Any other token is stored whole, under itself, appended if new. */
  lemma ExtraTokenRule(p: Params, t: string)
    requires t != [] && TokenNumeric(t) && DimsWellFormed(p)
    requires t[0] != 'c' && !HasKey(p, [t[0]])
    ensures var r := ApplyToken(p, t);
      && Lookup(r, t) == Some(Str(t))
      && (forall k :: k != t ==> Lookup(r, k) == Lookup(p, k))
      && r.keys == (if HasKey(p, t) then p.keys else p.keys + [t])
  {
    assert t[..1] == [t[0]];
  }

  // ---------------------------------------------------------------------
  // The order dependence of the crop back-fill.

  lemma SplitTwo(a: string, b: string)
    requires '-' !in a && '-' !in b
    ensures Split(a + "-" + b, '-') == [a, b]
  {
    assert Join([a, b], '-') == a + "-" + b by {
      assert [a, b][1..] == [b];
    }
    SplitJoin([a, b], '-');
  }

  lemma ApplyTwo(p: Params, a: string, b: string)
    requires DimsWellFormed(p) && a != [] && b != [] && TokenNumeric(a) && TokenNumeric(b)
    ensures ApplyTokens(p, [a, b]) == Ok(ApplyToken(ApplyToken(p, a), b))
  {
    var p1 := ApplyToken(p, a);
    assert [a, b][1..] == [b] && [a, b][0] == a;
    assert ApplyTokens(p, [a, b]) == ApplyTokens(p1, [b]);
    var p2 := ApplyToken(p1, b);
    assert [b][1..] == [];
    assert ApplyTokens(p1, [b]) == ApplyTokens(p2, []);
  }

  /** `w300-c`: the crop token finds the width and copies it into the height. */
  lemma CropAfterWidthFillsHeight(v: string)
    requires IsDigits(v) && v != "" && v != "0"
    ensures DimTokensNumeric("w" + v + "-c")
    ensures var r := ApplyTokens(InitialParams(), Split("w" + v + "-c", '-'));
      r.Ok? && Get(r.value, "w") == Str(v) && Get(r.value, "h") == Str(v)
  {
    var t := "w" + v;
    assert t[0] == 'w' && t[1..] == v && '-' !in t;
    assert "w" + v + "-c" == t + "-" + "c";
    SplitTwo(t, "c");
    var p0 := InitialParams();
    ApplyTwo(p0, t, "c");
    var p1 := ApplyToken(p0, t);
    SlotTokenRule(p0, t);
    assert Get(p1, "h") == Null;
    CropTokenRule(p1, "c");
  }

  /** `c-w300`: the crop token comes before any size, so the height stays empty. */
  lemma CropBeforeWidthLeavesHeight(v: string)
    requires IsDigits(v)
    ensures DimTokensNumeric("c-w" + v)
    ensures var r := ApplyTokens(InitialParams(), Split("c-w" + v, '-'));
      r.Ok? && Get(r.value, "w") == Str(v) && Get(r.value, "h") == Null
  {
    var t := "w" + v;
    assert t[0] == 'w' && t[1..] == v && '-' !in t;
    assert "c-w" + v == "c" + "-" + t;
    SplitTwo("c", t);
    var p0 := InitialParams();
    ApplyTwo(p0, "c", t);
    var p1 := ApplyToken(p0, "c");
    CropTokenRule(p0, "c");
    SlotTokenRule(p1, t);
  }

  // ---------------------------------------------------------------------
  // Clamping and the outcome of the parser.

  /**
   * Clamping bounds each set dimension by the source's, never raises a
   * value, never empties or fills a slot, and touches nothing else.
   */
  lemma ClampRule(p: Params, sw: nat, sh: nat)
    requires DimsWellFormed(p) && sw > 0 && sh > 0
    ensures var r := Clamp(p, sw, sh);
      && (DimValue(Get(r, "w")).Some? <==> DimValue(Get(p, "w")).Some?)
      && (DimValue(Get(r, "h")).Some? <==> DimValue(Get(p, "h")).Some?)
      && (Empty(Get(r, "w")) <==> Empty(Get(p, "w")))
      && (Empty(Get(r, "h")) <==> Empty(Get(p, "h")))
      && (DimValue(Get(r, "w")).Some? ==> DimValue(Get(r, "w")).value <= sw)
      && (DimValue(Get(r, "h")).Some? ==> DimValue(Get(r, "h")).value <= sh)
      && (DimValue(Get(r, "w")).Some? ==> DimValue(Get(r, "w")).value <= DimValue(Get(p, "w")).value)
      && (DimValue(Get(r, "h")).Some? ==> DimValue(Get(r, "h")).value <= DimValue(Get(p, "h")).value)
      && (forall k :: k != "w" && k != "h" ==> Lookup(r, k) == Lookup(p, k))
      && r.keys == p.keys
  {
    GreaterThanIntMeaning(Get(p, "w"), sw);
    var p1 := if GreaterThanInt(Get(p, "w"), sw) then Put(p, "w", Int(sw)) else p;
    GreaterThanIntMeaning(Get(p1, "h"), sh);
  }

  /** With scale_up off, a parsed width or height never exceeds the source's. */
  lemma NoScaleUp(cfg: Config, raw: string, imagepath: string, src: SourceImage)
    requires src.width > 0 && src.height > 0 && DimTokensNumeric(raw)
    requires !cfg.scaleUp
    ensures var r := Parse(cfg, raw, imagepath, src);
      r.Ok? ==>
        && (DimValue(Get(r.value.params, "w")).Some? ==> DimValue(Get(r.value.params, "w")).value <= src.width)
        && (DimValue(Get(r.value.params, "h")).Some? ==> DimValue(Get(r.value.params, "h")).value <= src.height)
  {
    if !PresetRejected(cfg, raw) {
      var a := ApplyTokens(InitialParams(), Split(raw, '-'));
      if a.Ok? {
        ClampRule(a.value, src.width, src.height);
      }
    }
  }

  /**
   * The parser fails with NotFound exactly when the preset check rejects the
   * string or when no token leaves a non-empty width or height; it fails
   * with a runtime error exactly when the presets pass and a token is empty;
   * otherwise it succeeds.
   */
  lemma ParseOutcome(cfg: Config, raw: string, imagepath: string, src: SourceImage)
    requires src.width > 0 && src.height > 0 && DimTokensNumeric(raw)
    ensures var r := Parse(cfg, raw, imagepath, src);
      var tokens := Split(raw, '-');
      && (r == Err(RuntimeError) <==> !PresetRejected(cfg, raw) && [] in tokens)
      && (r == Err(NotFound) <==>
            PresetRejected(cfg, raw)
            || ([] !in tokens
                && var p := ApplyTokens(InitialParams(), tokens).value;
                Empty(Get(p, "w")) && Empty(Get(p, "h"))))
  {
    var tokens := Split(raw, '-');
    if !PresetRejected(cfg, raw) {
      var a := ApplyTokens(InitialParams(), tokens);
      if a.Ok? {
        ClampRule(a.value, src.width, src.height);
      }
    }
  }
}
