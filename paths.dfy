/**
 * The string functions the image cache applies to its inputs: PHP's
 * explode on a one-character separator, and the directory and extension
 * parts that pathinfo() returns for a '/'-separated path.
 */
module Paths {
  import opened Wrappers

  /** PHP's explode(sep, s): the pieces between separators, at least one. */
  function Split(s: string, sep: char): (parts: seq<string>)
    ensures |parts| >= 1
    decreases |s|
  {
    if s == [] then [""]
    else
      var rest := Split(s[1..], sep);
      if s[0] == sep then [""] + rest else [[s[0]] + rest[0]] + rest[1..]
  }

  /** No piece of explode contains the separator. */
  lemma {:induction false} SplitPiecesFree(s: string, sep: char)
    ensures forall i :: 0 <= i < |Split(s, sep)| ==> sep !in Split(s, sep)[i]
    decreases |s|
  {
    if s != [] {
      SplitPiecesFree(s[1..], sep);
      var rest := Split(s[1..], sep);
      var parts := Split(s, sep);
      forall i | 0 <= i < |parts|
        ensures sep !in parts[i]
      {
        if s[0] == sep {
          if i > 0 {
            assert parts[i] == rest[i - 1];
          }
        } else if i == 0 {
          assert parts[0] == [s[0]] + rest[0];
        } else {
          assert parts[i] == rest[i];
        }
      }
    }
  }

  /** PHP's implode(sep, parts). */
  function Join(parts: seq<string>, sep: char): string
    requires |parts| >= 1
  {
    if |parts| == 1 then parts[0] else parts[0] + [sep] + Join(parts[1..], sep)
  }

  /** Joining the pieces of explode again gives back the original string. */
  lemma {:induction false} JoinSplit(s: string, sep: char)
    ensures Join(Split(s, sep), sep) == s
    decreases |s|
  {
    if s != [] {
      var rest := Split(s[1..], sep);
      JoinSplit(s[1..], sep);
      if s[0] != sep {
        var parts := [[s[0]] + rest[0]] + rest[1..];
        if |rest| > 1 {
          assert parts[1..] == rest[1..];
          assert Join(rest, sep) == rest[0] + [sep] + Join(rest[1..], sep);
        }
        assert s == [s[0]] + s[1..];
      } else {
        assert s == [sep] + s[1..];
      }
    }
  }

  /** explode undoes implode when no piece contains the separator. */
  lemma {:induction false} SplitJoin(parts: seq<string>, sep: char)
    requires |parts| >= 1
    requires forall i :: 0 <= i < |parts| ==> sep !in parts[i]
    ensures Split(Join(parts, sep), sep) == parts
    decreases |parts|, |parts[0]|
  {
    var p := parts[0];
    if |parts| == 1 {
      SplitPiece(p, [], sep);
      assert p + [] == p;
    } else {
      SplitJoin(parts[1..], sep);
      var tail := Join(parts[1..], sep);
      assert Join(parts, sep) == p + ([sep] + tail);
      SplitPiece(p, [sep] + tail, sep);
      assert Split([sep] + tail, sep) == [""] + Split(tail, sep) by {
        assert ([sep] + tail)[1..] == tail;
      }
      var r := Split([sep] + tail, sep);
      assert r[0] == "" && r[1..] == parts[1..];
      assert p + r[0] == p;
      assert parts == [p] + parts[1..];
    }
  }

  /** A separator-free prefix glues onto the first piece of what follows. */
  lemma {:induction false} SplitPiece(p: string, t: string, sep: char)
    requires sep !in p
    ensures var r := Split(t, sep); Split(p + t, sep) == [p + r[0]] + r[1..]
    decreases |p|
  {
    if p != [] {
      SplitPiece(p[1..], t, sep);
      assert (p + t)[1..] == p[1..] + t;
      assert (p + t)[0] == p[0];
      assert [p[0]] + (p[1..] + Split(t, sep)[0]) == p + Split(t, sep)[0];
    } else {
      var r := Split(t, sep);
      assert p + t == t && p + r[0] == r[0];
      assert r == [r[0]] + r[1..];
    }
  }

  /** The string without its trailing '/' characters. */
  function TrimTrailingSlashes(s: string): string {
    if s != [] && s[|s| - 1] == '/' then TrimTrailingSlashes(s[..|s| - 1]) else s
  }

  /** What is left is a prefix that does not end in '/'. */
  lemma {:induction false} TrimTrailingSlashesPrefix(s: string)
    ensures var r := TrimTrailingSlashes(s);
      (r == [] || r[|r| - 1] != '/') && |r| <= |s| && r == s[..|r|]
  {
    if s != [] && s[|s| - 1] == '/' {
      TrimTrailingSlashesPrefix(s[..|s| - 1]);
    }
  }

  /** The string without its last '/'-free run of characters. */
  function TrimTrailingName(s: string): string {
    if s != [] && s[|s| - 1] != '/' then TrimTrailingName(s[..|s| - 1]) else s
  }

  /** What is left is a prefix that is empty or ends in '/'. */
  lemma {:induction false} TrimTrailingNamePrefix(s: string)
    ensures var r := TrimTrailingName(s);
      (r == [] || r[|r| - 1] == '/') && |r| <= |s| && r == s[..|r|]
  {
    if s != [] && s[|s| - 1] != '/' {
      TrimTrailingNamePrefix(s[..|s| - 1]);
    }
  }

  /**
   * pathinfo(p, PATHINFO_DIRNAME), i.e. dirname(): trailing slashes are
   * ignored, the last component is removed together with the slashes before
   * it; "." when there is no slash, "/" when only the root is left.
   */
  function Dirname(p: string): string {
    if p == [] then []
    else
      var a := TrimTrailingSlashes(p);
      if a == [] then "/"
      else
        var b := TrimTrailingName(a);
        if b == [] then "."
        else
          var c := TrimTrailingSlashes(b);
          if c == [] then "/" else c
  }

  /** The '/'-free suffix of s. */
  function LastComponent(s: string): string {
    if s == [] || s[|s| - 1] == '/' then [] else LastComponent(s[..|s| - 1]) + [s[|s| - 1]]
  }

  lemma {:induction false} LastComponentNoSlash(s: string)
    ensures '/' !in LastComponent(s)
  {
    if !(s == [] || s[|s| - 1] == '/') {
      LastComponentNoSlash(s[..|s| - 1]);
    }
  }

  /** basename(): the last component, trailing slashes ignored. */
  function Basename(p: string): string {
    LastComponent(TrimTrailingSlashes(p))
  }

  /** The part of s after its last '.', if s has one. */
  function AfterLastDot(s: string): Option<string> {
    if s == [] then None
    else if s[|s| - 1] == '.' then Some([])
    else match AfterLastDot(s[..|s| - 1])
      case None => None
      case Some(e) => Some(e + [s[|s| - 1]])
  }

  /** What follows the last dot holds no dot and only characters of s. */
  lemma {:induction false} AfterLastDotChars(s: string)
    ensures var r := AfterLastDot(s);
      r.Some? ==> '.' !in r.value && forall c :: c in r.value ==> c in s
  {
    if s != [] && s[|s| - 1] != '.' {
      var t := s[..|s| - 1];
      AfterLastDotChars(t);
      forall c | c in t
        ensures c in s
      {
        var i :| 0 <= i < |t| && t[i] == c;
        assert s[i] == c;
      }
    }
  }

  /** pathinfo(p, PATHINFO_EXTENSION): "" when the base name has no dot. */
  function Extension(p: string): string {
    match AfterLastDot(Basename(p))
    case None => ""
    case Some(e) => e
  }

  /** An extension holds neither a dot nor a slash. */
  lemma ExtensionChars(p: string)
    ensures '.' !in Extension(p) && '/' !in Extension(p)
  {
    var b := Basename(p);
    LastComponentNoSlash(TrimTrailingSlashes(p));
    AfterLastDotChars(b);
  }

  lemma {:induction false} TrimTrailingNameAppend(s: string, t: string)
    requires '/' !in t
    ensures TrimTrailingName(s + t) == TrimTrailingName(s)
    decreases |t|
  {
    if t != [] {
      assert (s + t)[..|s + t| - 1] == s + t[..|t| - 1];
      TrimTrailingNameAppend(s, t[..|t| - 1]);
    } else {
      assert s + t == s;
    }
  }

  lemma {:induction false} LastComponentAppend(s: string, t: string)
    requires '/' !in t
    ensures LastComponent(s + t) == LastComponent(s) + t
    decreases |t|
  {
    if t != [] {
      assert (s + t)[..|s + t| - 1] == s + t[..|t| - 1];
      LastComponentAppend(s, t[..|t| - 1]);
      assert t == t[..|t| - 1] + [t[|t| - 1]];
    } else {
      assert s + t == s;
    }
  }

  lemma {:induction false} AfterLastDotAppend(s: string, t: string)
    requires '.' !in t
    ensures AfterLastDot(s + ['.'] + t) == Some(t)
    decreases |t|
  {
    if t == [] {
      assert s + ['.'] + t == s + ['.'];
    } else {
      var u := s + ['.'] + t;
      assert u[..|u| - 1] == s + ['.'] + t[..|t| - 1];
      AfterLastDotAppend(s, t[..|t| - 1]);
      assert t == t[..|t| - 1] + [t[|t| - 1]];
    }
  }

  /** A name ending in "." + e, with e free of '.' and '/', has extension e. */
  lemma ExtensionOfSuffix(x: string, e: string)
    requires '.' !in e && '/' !in e
    ensures Extension(x + ['.'] + e) == e
  {
    var p := x + ['.'] + e;
    assert TrimTrailingSlashes(p) == p;
    LastComponentAppend(x, ['.'] + e);
    assert p == x + (['.'] + e);
    var lc := LastComponent(x);
    assert Basename(p) == lc + ['.'] + e;
    AfterLastDotAppend(lc, e);
  }

  /**
   * The directory of dir + "/" + name is dir, for a non-empty name without
   * '/' and a non-empty dir that does not end in '/'.
   */
  lemma DirnameOfChild(dir: string, name: string)
    requires dir != [] && dir[|dir| - 1] != '/'
    requires name != [] && '/' !in name
    ensures Dirname(dir + "/" + name) == dir
  {
    var p := dir + "/" + name;
    assert p[|p| - 1] == name[|name| - 1];
    assert TrimTrailingSlashes(p) == p;
    assert p == (dir + "/") + name;
    TrimTrailingNameAppend(dir + "/", name);
    assert TrimTrailingName(dir + "/") == dir + "/";
    assert (dir + "/")[..|dir + "/"| - 1] == dir;
    assert TrimTrailingSlashes(dir + "/") == dir;
  }
}
