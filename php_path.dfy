/**
 * PHP's `pathinfo()` on '/'-separated paths, as the Zend engine computes it
 * (`zend_dirname` and `php_basename`), and the string interpolation that
 * turns a missing array key into the empty string.
 */
module PhpPath {
  import opened Wrappers

  /** `s` with every trailing `c` removed. */
  function TrimEnd(s: string, c: char): (t: string)
    ensures |t| <= |s| && t == s[..|t|]
    ensures t == [] || t[|t| - 1] != c
    decreases |s|
  {
    if s != [] && s[|s| - 1] == c then TrimEnd(s[..|s| - 1], c) else s
  }

  /** The longest suffix of `s` that does not contain `c`. */
  function AfterLast(s: string, c: char): (t: string)
    ensures |t| <= |s| && t == s[|s| - |t|..]
    ensures forall i :: 0 <= i < |t| ==> t[i] != c
    ensures |t| < |s| ==> s[|s| - |t| - 1] == c
    decreases |s|
  {
    if s == [] || s[|s| - 1] == c then [] else AfterLast(s[..|s| - 1], c) + [s[|s| - 1]]
  }

  /** `basename()`: the last component of the path, trailing slashes ignored. */
  function Basename(path: string): (b: string)
    ensures '/' !in b
  {
    AfterLast(TrimEnd(path, '/'), '/')
  }

  /**
   * `dirname()` as `zend_dirname` computes it: "/" for a path of slashes or a
   * file in the root, "." for a path without a slash, and otherwise the path
   * without its last component and the slashes before it. `pathinfo()` sets no
   * 'dirname' key for the empty path, which is `None` here.
   */
  function Dirname(path: string): (d: Option<string>)
    ensures d.None? <==> path == []
    ensures d.Some? ==> IsDirname(d.value)
  {
    if path == [] then None
    else
      var a := TrimEnd(path, '/');
      if a == [] then Some("/")
      else
        var b := a[..|a| - |AfterLast(a, '/')|];
        if b == [] then Some(".")
        else
          var c := TrimEnd(b, '/');
          if c == [] then Some("/") else Some(c)
  }

  /** The strings `dirname()` can return: the root, or a non-empty string that does not end in a slash. */
  predicate IsDirname(d: string) {
    d == "/" || (d != [] && d[|d| - 1] != '/')
  }

  /** The array `pathinfo()` returns; 'dirname' and 'extension' are keys that may be absent. */
  datatype PathInfo = PathInfo(dirname: Option<string>, basename: string, extension: Option<string>, filename: string)

  /** The 'extension' key of `pathinfo()`: what follows the last '.' of the basename, absent when it has no '.'. */
  function Extension(base: string): (ext: Option<string>)
    ensures ext.None? <==> '.' !in base
    ensures ext.Some? ==> '.' !in ext.value && |ext.value| < |base| && ext.value == base[|base| - |ext.value|..]
  {
    var tail := AfterLast(base, '.');
    if |tail| < |base| then
      assert base[|base| - |tail| - 1] == '.';
      Some(tail)
    else
      assert base[|base| - |tail|..] == base;
      None
  }

  /** The 'filename' key of `pathinfo()`: the basename up to its last '.', or all of it. */
  function Filename(base: string): (name: string)
    ensures Extension(base).None? ==> name == base
    ensures Extension(base).Some? ==> base == name + "." + Extension(base).value
    ensures |name| <= |base| && name == base[..|name|]
  {
    var tail := AfterLast(base, '.');
    if |tail| < |base| then
      SplitAtLast(base, '.');
      base[..|base| - |tail| - 1]
    else base
  }

  /** `pathinfo()`. */
  function Pathinfo(path: string): PathInfo {
    var base := Basename(path);
    PathInfo(Dirname(path), base, Extension(base), Filename(base))
  }

  /**
   * The parts `pathinfo()` returns fit together: the basename is the filename,
   * then a dot and the extension when there is one; the extension has neither
   * dot nor slash, and the filename has no slash.
   */
  lemma PathinfoParts(path: string)
    ensures var info := Pathinfo(path);
      info.dirname == Dirname(path) && info.basename == Basename(path) &&
      (info.extension.None? <==> '.' !in info.basename) &&
      (info.extension.None? ==> info.filename == info.basename) &&
      (info.extension.Some? ==> info.basename == info.filename + "." + info.extension.value) &&
      (info.extension.Some? ==> '.' !in info.extension.value && '/' !in info.extension.value) &&
      '/' !in info.filename
  {
  }

  /** How PHP interpolates a possibly missing array key into a string: a missing key reads as null, which prints as "". */
  function Interpolate(v: Option<string>): (s: string)
    ensures v.Some? ==> s == v.value
    ensures v.None? ==> s == []
  {
    v.GetOr("")
  }

  /** A string that contains `c` is its part up to the last `c`, that `c`, and the rest. */
  lemma SplitAtLast(s: string, c: char)
    requires |AfterLast(s, c)| < |s|
    ensures var t := AfterLast(s, c); s == s[..|s| - |t| - 1] + [c] + t
  {
  }

  /** `TrimEnd` of a string that already ends in another character is the string itself. */
  lemma TrimEndNoop(s: string, c: char)
    requires s != [] && s[|s| - 1] != c
    ensures TrimEnd(s, c) == s
  {
  }

  /** `AfterLast(a + [c] + b, c)` is `b` when `b` has no `c`. */
  lemma {:induction false} AfterLastOfJoin(a: string, c: char, b: string)
    requires c !in b
    ensures AfterLast(a + [c] + b, c) == b
    decreases |b|
  {
    var s := a + [c] + b;
    if b == [] {
      assert s[|s| - 1] == c;
    } else {
      var b' := b[..|b| - 1];
      assert s[..|s| - 1] == a + [c] + b';
      assert c !in b' by {
        forall i | 0 <= i < |b'| ensures b'[i] != c { assert b'[i] == b[i]; }
      }
      AfterLastOfJoin(a, c, b');
      assert b == b' + [b[|b| - 1]];
    }
  }

  /** The basename of `d/b` is `b` when `b` is non-empty and has no slash. */
  lemma BasenameOfJoin(d: string, b: string)
    requires b != [] && '/' !in b
    ensures Basename(d + "/" + b) == b
  {
    var path := d + "/" + b;
    assert path == d + ['/'] + b;
    TrimEndNoop(path, '/');
    AfterLastOfJoin(d, '/', b);
  }

  /** The dirname of `d/b` is `d` when `d` is a directory as `dirname()` returns it and `b` is non-empty and has no slash. */
  lemma DirnameOfJoin(d: string, b: string)
    requires IsDirname(d) && b != [] && '/' !in b
    ensures Dirname(d + "/" + b) == Some(d)
  {
    var path := d + "/" + b;
    assert path == d + ['/'] + b;
    TrimEndNoop(path, '/');
    AfterLastOfJoin(d, '/', b);
    var dir := path[..|path| - |b|];
    assert dir == d + "/";
    assert TrimEnd(dir, '/') == TrimEnd(d, '/');
    if d == "/" {
      assert TrimEnd(d, '/') == TrimEnd([], '/');
    } else {
      TrimEndNoop(d, '/');
    }
  }

  /** `f.x` has no slash when neither `f` nor `x` has one. */
  lemma NoSlashInJoin(f: string, x: string)
    requires '/' !in f && '/' !in x
    ensures '/' !in f + "." + x
  {
    var base := f + "." + x;
    forall i | 0 <= i < |base| ensures base[i] != '/' {
      if i < |f| { assert base[i] == f[i]; }
      else if i > |f| { assert base[i] == x[i - |f| - 1]; }
    }
  }

  /**
   * `pathinfo()` takes apart a path built as `d/f.x` (with `d` a directory as
   * `dirname()` returns it, no slash in `f`, neither slash nor dot in `x`)
   * into exactly those pieces.
   */
  lemma PathinfoOfJoin(d: string, f: string, x: string)
    requires IsDirname(d) && '/' !in f && '/' !in x && '.' !in x
    ensures var info := Pathinfo(d + "/" + f + "." + x);
      info.dirname == Some(d) && info.basename == f + "." + x &&
      info.filename == f && info.extension == Some(x)
  {
    var base := f + "." + x;
    var path := d + "/" + f + "." + x;
    assert path == d + "/" + base;
    NoSlashInJoin(f, x);
    BasenameOfJoin(d, base);
    DirnameOfJoin(d, base);
    assert base == f + ['.'] + x;
    AfterLastOfJoin(f, '.', x);
    assert Extension(base) == Some(x);
    assert Filename(base) == f;
  }
}
