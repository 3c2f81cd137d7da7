/**
 * The POSIX flavour of Node's `path.dirname`, `path.basename` and `path.extname`, which the
 * history rewrite uses to turn a changed file's relative path into a document key.
 *
 * All three ignore trailing slashes (except a lone root slash), look at the last path
 * component, and never collapse repeated slashes inside the path.
 */
module PosixPath {

  /** No character of `s` from index `from` on is `c`. */
  predicate Lacks(s: string, c: char, from: int) {
    forall k :: from <= k < |s| && 0 <= k ==> s[k] != c
  }

  /** Index of the last `c` in `s`, or -1 when `s` has none. */
  function LastIndexOf(s: string, c: char): (r: int)
    ensures -1 <= r < |s|
    decreases |s|
  {
    if s == [] then -1
    else if s[|s| - 1] == c then |s| - 1
    else LastIndexOf(s[..|s| - 1], c)
  }

  /** `LastIndexOf` finds a `c`, and there is none after it. */
  lemma {:induction false} LastIndexOfFinds(s: string, c: char)
    ensures LastIndexOf(s, c) >= 0 ==> s[LastIndexOf(s, c)] == c
    ensures Lacks(s, c, LastIndexOf(s, c) + 1)
    decreases |s|
  {
    if s != [] && s[|s| - 1] != c {
      var t := s[..|s| - 1];
      LastIndexOfFinds(t, c);
      forall k | LastIndexOf(t, c) + 1 <= k < |s| && 0 <= k ensures s[k] != c {
        if k < |t| {
          assert s[k] == t[k];
        }
      }
    }
  }

  /** An occurrence of `c` with none after it is the one `LastIndexOf` finds. */
  lemma {:induction false} LastIndexOfIs(s: string, c: char, i: nat)
    requires i < |s| && s[i] == c && Lacks(s, c, i + 1)
    ensures LastIndexOf(s, c) == i
    decreases |s|
  {
    if i < |s| - 1 {
      var t := s[..|s| - 1];
      assert t[i] == c;
      assert Lacks(t, c, i + 1) by {
        forall k | i + 1 <= k < |t| ensures t[k] != c {
          assert t[k] == s[k];
        }
      }
      LastIndexOfIs(t, c, i);
    }
  }

  /** The path without its trailing slashes; a path made only of slashes keeps its first one. */
  function TrimTrailingSlashes(p: string): (q: string)
    ensures |q| <= |p|
    decreases |p|
  {
    if |p| > 1 && p[|p| - 1] == '/' then TrimTrailingSlashes(p[..|p| - 1]) else p
  }

  /**
   * Trimming keeps a prefix of the path, non-empty when the path is, that ends in a
   * character other than '/' unless it is that single character; only slashes are dropped.
   */
  lemma {:induction false} TrimTrailingSlashesKeepsPrefix(p: string)
    ensures var q := TrimTrailingSlashes(p);
      && q == p[..|q|]
      && (p != "" ==> q != "")
      && (|q| > 1 ==> q[|q| - 1] != '/')
      && (forall k :: |q| <= k < |p| ==> p[k] == '/')
    decreases |p|
  {
    if |p| > 1 && p[|p| - 1] == '/' {
      var t := p[..|p| - 1];
      TrimTrailingSlashesKeepsPrefix(t);
      var q := TrimTrailingSlashes(t);
      assert q == t[..|q|] == p[..|q|];
      forall k | |q| <= k < |p| ensures p[k] == '/' {
        if k < |t| {
          assert p[k] == t[k];
        }
      }
    }
  }

  /**
   * `path.dirname(p)`: everything before the last separator of the trimmed path; "." when
   * there is none, "/" for a path whose only separator is the root, and "//" for "//name".
   */
  function DirName(p: string): (d: string) {
    if p == "" then "."
    else
      var q := TrimTrailingSlashes(p);
      var k := LastIndexOf(q, '/');
      if k <= 0 then (if p[0] == '/' then "/" else ".")
      else if p[0] == '/' && k == 1 then "//"
      else q[..k]
  }

  /** The dirname is never empty, and is "." or a prefix of the path. */
  lemma DirNameIsPrefix(p: string)
    ensures DirName(p) != ""
    ensures DirName(p) == "." || (|DirName(p)| <= |p| && DirName(p) == p[..|DirName(p)|])
  {
    if p != "" {
      TrimTrailingSlashesKeepsPrefix(p);
      var q := TrimTrailingSlashes(p);
      var k := LastIndexOf(q, '/');
      if k > 0 {
        LastIndexOfFinds(q, '/');
        assert p[0] == q[0];
        if !(p[0] == '/' && k == 1) {
          assert q[..k] == p[..k];
        } else {
          assert q[1] == '/';
        }
      }
    }
  }

  /** `path.basename(p)`: the last component of the trimmed path. */
  function BaseName(p: string): (b: string) {
    var q := TrimTrailingSlashes(p);
    var k := LastIndexOf(q, '/');
    q[k + 1..]
  }

  /** The basename is a separator-free suffix of the trimmed path. */
  lemma BaseNameIsLastComponent(p: string)
    ensures Lacks(BaseName(p), '/', 0)
    ensures var q, b := TrimTrailingSlashes(p), BaseName(p); |b| <= |q| && b == q[|q| - |b|..]
  {
    var q := TrimTrailingSlashes(p);
    var k := LastIndexOf(q, '/');
    LastIndexOfFinds(q, '/');
    var b := q[k + 1..];
    forall i | 0 <= i < |b| ensures b[i] != '/' {
      assert b[i] == q[k + 1 + i];
    }
  }

  /**
   * `path.extname(p)`: the last component from its last dot on; empty when the component
   * has no dot after its first character, and for "..".
   */
  function ExtName(p: string): (e: string) {
    var b := BaseName(p);
    var d := LastIndexOf(b, '.');
    if d <= 0 || b == ".." then ""
    else b[d..]
  }

  /**
   * The extension is a suffix of the basename; it is non-empty exactly when the basename
   * has a dot after its first character and is not ".."; then it is shorter than the
   * basename and starts at its last dot.
   */
  lemma ExtNameIsSuffix(p: string)
    ensures var b, e := BaseName(p), ExtName(p); |e| <= |b| && e == b[|b| - |e|..]
    ensures ExtName(p) != "" <==> (!Lacks(BaseName(p), '.', 1) && BaseName(p) != "..")
    ensures var b, e := BaseName(p), ExtName(p); e != "" ==> e[0] == '.' && Lacks(e, '.', 1) && |e| < |b|
  {
    var b := BaseName(p);
    var d := LastIndexOf(b, '.');
    LastIndexOfFinds(b, '.');
    if d > 0 && b != ".." {
      var e := b[d..];
      forall i | 1 <= i < |e| ensures e[i] != '.' {
        assert e[i] == b[d + i];
      }
    }
  }

  /**
   * `path.basename(p, path.extname(p))`: the last component with its extension removed when
   * the extension is a proper suffix of it.
   */
  function Stem(p: string): (s: string) {
    var b, e := BaseName(p), ExtName(p);
    if |e| < |b| && b[|b| - |e|..] == e then b[..|b| - |e|] else b
  }

  /** The stem followed by the extension is the basename, so the stem has no separator. */
  lemma StemAndExtension(p: string)
    ensures Stem(p) + ExtName(p) == BaseName(p)
    ensures Lacks(Stem(p), '/', 0)
  {
    var b, e := BaseName(p), ExtName(p);
    ExtNameIsSuffix(p);
    BaseNameIsLastComponent(p);
    var n := |b| - |e|;
    if e == "" {
      assert b[n..] == e;
      assert Stem(p) == b[..n] == b;
    } else {
      assert b[..n] + b[n..] == b;
      forall i | 0 <= i < n ensures b[..n][i] != '/' {
        assert b[..n][i] == b[i];
      }
    }
  }

  /** Without trailing slash, the basename is what follows the last separator. */
  lemma BaseNameAfterLastSeparator(p: string)
    requires p == "" || p[|p| - 1] != '/'
    ensures BaseName(p) == p[LastIndexOf(p, '/') + 1..]
  {
    assert TrimTrailingSlashes(p) == p;
  }

  /**
   * A relative path without trailing slash that contains a separator splits at its last
   * separator into `dirname` and `basename`.
   */
  lemma SplitAtLastSeparator(p: string)
    requires p != "" && p[0] != '/' && p[|p| - 1] != '/'
    requires !Lacks(p, '/', 0)
    ensures LastIndexOf(p, '/') > 0
    ensures DirName(p) == p[..LastIndexOf(p, '/')]
    ensures DirName(p) + "/" + BaseName(p) == p
  {
    var k := LastIndexOf(p, '/');
    LastIndexOfFinds(p, '/');
    assert TrimTrailingSlashes(p) == p;
    BaseNameAfterLastSeparator(p);
    JoinAt(p, k);
  }

  /** Cutting a string around one of its separators and joining the halves with "/" gives it back. */
  lemma JoinAt(p: string, k: nat)
    requires k < |p| && p[k] == '/'
    ensures p[..k] + "/" + p[k + 1..] == p
  {
    assert p[k..] == "/" + p[k + 1..];
    assert p == p[..k] + p[k..];
  }

  /** A path without any separator is its own basename, and its dirname is ".". */
  lemma NoSeparator(p: string)
    requires p != "" && Lacks(p, '/', 0)
    ensures DirName(p) == "." && BaseName(p) == p
  {
    assert TrimTrailingSlashes(p) == p;
    LastIndexOfFinds(p, '/');
  }

  /** Joining a relative directory and a file name with "/" is undone by `dirname` and `basename`. */
  lemma DirAndBaseOfJoinedPath(dir: string, base: string)
    requires dir != "" && dir[0] != '/' && dir[|dir| - 1] != '/'
    requires base != "" && Lacks(base, '/', 0)
    ensures DirName(dir + "/" + base) == dir && BaseName(dir + "/" + base) == base
  {
    var p := dir + "/" + base;
    assert p[0] == dir[0] && p[|p| - 1] == base[|base| - 1] && p[|dir|] == '/';
    assert Lacks(p, '/', |dir| + 1) by {
      forall i | |dir| + 1 <= i < |p| ensures p[i] != '/' {
        assert p[i] == base[i - |dir| - 1];
      }
    }
    LastIndexOfIs(p, '/', |dir|);
    SplitAtLastSeparator(p);
    assert p[..|dir|] == dir;
    BaseNameAfterLastSeparator(p);
    assert p[|dir| + 1..] == base;
  }

  /** A base name "name.ext" with a non-empty, dot-free extension has extension ".ext" and stem `name`. */
  lemma StemOfDottedName(p: string, name: string, ext: string)
    requires name != "" && ext != "" && Lacks(ext, '.', 0)
    requires BaseName(p) == name + "." + ext
    ensures ExtName(p) == "." + ext && Stem(p) == name
  {
    var base := name + "." + ext;
    assert Lacks(base, '.', |name| + 1) by {
      forall i | |name| + 1 <= i < |base| ensures base[i] != '.' {
        assert base[i] == ext[i - |name| - 1];
      }
    }
    assert base[|name|] == '.';
    LastIndexOfIs(base, '.', |name|);
    assert |base| > 2;
    assert base[|name|..] == "." + ext;
    assert base[..|name|] == name;
  }

  /**
   * Building "dir/name.ext" and taking it apart again gives back `dir` and `name`, when `dir`
   * is a relative directory without trailing slash and `ext` is a non-empty extension.
   */
  lemma DirAndStemOfJoinedPath(dir: string, name: string, ext: string)
    requires dir != "" && dir[0] != '/' && dir[|dir| - 1] != '/'
    requires name != "" && Lacks(name, '/', 0)
    requires ext != "" && Lacks(ext, '/', 0) && Lacks(ext, '.', 0)
    ensures DirName(dir + "/" + name + "." + ext) == dir
    ensures Stem(dir + "/" + name + "." + ext) == name
    ensures ExtName(dir + "/" + name + "." + ext) == "." + ext
  {
    var base := name + "." + ext;
    assert Lacks(base, '/', 0) by {
      forall i | 0 <= i < |base| ensures base[i] != '/' {
        if i < |name| { assert base[i] == name[i]; }
        else if i > |name| { assert base[i] == ext[i - |name| - 1]; }
      }
    }
    assert dir + "/" + name + "." + ext == dir + "/" + base;
    DirAndBaseOfJoinedPath(dir, base);
    StemOfDottedName(dir + "/" + base, name, ext);
  }
}
