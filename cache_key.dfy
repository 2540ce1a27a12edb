/**
 * Where a variant is cached: the cache directory (mirroring the source's
 * directory when mimic_source_dir is on) and a file name made of a digest of
 * the source path and parameters, the source's modification time and its
 * lower-cased extension.
 */
module CacheKey {
  import opened PhpValues
  import opened OrderedMap
  import opened Paths
  import opened Context

  /** The cache file name: digest, '-', modification time, '.', extension. */
  function EncodedFilename(sourceFile: string, params: Params, sourceModified: nat, orc: Oracles): string {
    orc.md5(sourceFile + orc.query(params)) + "-" + NatToString(sourceModified) + "." + Lower(Extension(sourceFile))
  }

  /** The directory variants are written to. */
  function CacheDir(cfg: Config, sourceFile: string): string {
    if cfg.mimicSourceDir then cfg.cacheDir + Dirname(sourceFile) + "/" else cfg.cacheDir
  }

  function CachedFile(cfg: Config, sourceFile: string, params: Params, sourceModified: nat, orc: Oracles): string {
    CacheDir(cfg, sourceFile) + EncodedFilename(sourceFile, params, sourceModified, orc)
  }

  /** The cached file keeps the source's extension, lower-cased. */
  lemma CachedFileExtension(cfg: Config, sourceFile: string, params: Params, sourceModified: nat, orc: Oracles)
    ensures Extension(CachedFile(cfg, sourceFile, params, sourceModified, orc)) == Lower(Extension(sourceFile))
  {
    var e := Extension(sourceFile);
    LowerKeeps(e, '.');
    LowerKeeps(e, '/');
    ExtensionChars(sourceFile);
    var x := CacheDir(cfg, sourceFile) + orc.md5(sourceFile + orc.query(params)) + "-" + NatToString(sourceModified);
    assert CachedFile(cfg, sourceFile, params, sourceModified, orc) == x + ['.'] + Lower(e);
    ExtensionOfSuffix(x, Lower(e));
  }

  /** Two digit strings each followed by '.' split a string the same way. */
  lemma DigitsBeforeDot(a: string, x: string, b: string, y: string)
    requires IsDigits(a) && IsDigits(b)
    requires a + "." + x == b + "." + y
    ensures a == b && x == y
  {
    var s := a + "." + x;
    assert s == b + "." + y;
    assert s[|a|] == '.' && s[|b|] == '.';
    assert forall i :: 0 <= i < |a| ==> s[i] == a[i] && IsDigit(s[i]);
    assert forall i :: 0 <= i < |b| ==> s[i] == b[i] && IsDigit(s[i]);
    assert a == s[..|a|] == b;
    assert x == s[|a| + 1..] == y;
  }

  /** Equal-length heads before a '-' split a string the same way. */
  lemma SameLengthHeads(h1: string, r1: string, h2: string, r2: string)
    requires |h1| == |h2| && h1 + "-" + r1 == h2 + "-" + r2
    ensures h1 == h2 && r1 == r2
  {
    var n := h1 + "-" + r1;
    assert h1 == n[..|h1|] == h2;
    assert r1 == n[|h1| + 1..] == r2;
  }

  /**
   * The file name determines its parts: with digests of one length (an md5
   * hex digest is always 32 characters), equal names mean equal digests,
   * equal modification times and equal extensions. In particular a source
   * modified at another time is cached under another name.
   */
  lemma EncodedFilenameDetermines(s1: string, p1: Params, m1: nat, s2: string, p2: Params, m2: nat, orc: Oracles)
    requires |orc.md5(s1 + orc.query(p1))| == |orc.md5(s2 + orc.query(p2))|
    requires EncodedFilename(s1, p1, m1, orc) == EncodedFilename(s2, p2, m2, orc)
    ensures orc.md5(s1 + orc.query(p1)) == orc.md5(s2 + orc.query(p2))
    ensures m1 == m2
    ensures Lower(Extension(s1)) == Lower(Extension(s2))
  {
    NameParts(orc.md5(s1 + orc.query(p1)), m1, Lower(Extension(s1)), orc.md5(s2 + orc.query(p2)), m2, Lower(Extension(s2)));
  }

  lemma NameParts(h1: string, m1: nat, e1: string, h2: string, m2: nat, e2: string)
    requires |h1| == |h2|
    requires h1 + "-" + NatToString(m1) + "." + e1 == h2 + "-" + NatToString(m2) + "." + e2
    ensures h1 == h2 && m1 == m2 && e1 == e2
  {
    var r1 := NatToString(m1) + "." + e1;
    var r2 := NatToString(m2) + "." + e2;
    assert h1 + "-" + NatToString(m1) + "." + e1 == h1 + "-" + r1;
    assert h2 + "-" + NatToString(m2) + "." + e2 == h2 + "-" + r2;
    SameLengthHeads(h1, r1, h2, r2);
    DigitsBeforeDot(NatToString(m1), e1, NatToString(m2), e2);
    NatToStringInjective(m1, m2);
  }

  /** Every variant is filed under the configured cache directory. */
  lemma CacheDirUnderRoot(cfg: Config, sourceFile: string)
    ensures var d := CacheDir(cfg, sourceFile);
      |cfg.cacheDir| <= |d| && d[..|cfg.cacheDir|] == cfg.cacheDir
    ensures !cfg.mimicSourceDir ==> CacheDir(cfg, sourceFile) == cfg.cacheDir
  {
    var d := CacheDir(cfg, sourceFile);
    if cfg.mimicSourceDir {
      assert d == cfg.cacheDir + (Dirname(sourceFile) + "/");
    }
  }

  /**
   * With mimic_source_dir on, a source file dir/name is cached in the cache
   * directory followed by dir and a slash, so that the cache mirrors the
   * layout of the image directory.
   */
  lemma MimicDirMirrorsSource(cfg: Config, dir: string, name: string)
    requires cfg.mimicSourceDir
    requires dir != [] && dir[|dir| - 1] != '/'
    requires name != [] && '/' !in name
    ensures CacheDir(cfg, dir + "/" + name) == cfg.cacheDir + dir + "/"
  {
    DirnameOfChild(dir, name);
  }
}
