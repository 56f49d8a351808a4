/**
 * `_next_available_report_path`: a report is never written over an existing
 * file. When the chosen path exists, the first free `<stem>_<n><suffix>`
 * beside it (n = 1, 2, ...) is used instead, with ".html" when the name has
 * no suffix.
 *
 * The file system is a parameter: the set of paths that exist. Paths are
 * taken in the normal form `pathlib` prints them in (no trailing or doubled
 * separators, no "." segments), so the parent of a path is the text up to
 * its last '/', and joining a name to it puts the name after that '/'.
 */
module ReportPath {
  import opened PyText

  const DefaultSuffix := ".html"

  /** `s.rfind(c)`: the index of the last occurrence of c, or -1. */
  function RFind(s: string, c: char): (i: int)
    ensures -1 <= i < |s|
    ensures i >= 0 ==> s[i] == c
    ensures forall k | i < k < |s| :: s[k] != c
  {
    if s == [] then -1
    else if s[|s| - 1] == c then |s| - 1
    else RFind(s[..|s| - 1], c)
  }

  /** The directory part, up to and including the last '/'; "" for a bare name. */
  function Dir(path: string): (d: string)
    ensures d <= path
    ensures d == "" || d[|d| - 1] == '/'
    ensures '/' !in path[|d|..]
  {
    var i := RFind(path, '/');
    var d := path[..i + 1];
    assert forall c | c in path[|d|..] :: c != '/' by {
      forall k | |d| <= k < |path| ensures path[k] != '/' {
      }
    }
    d
  }

  /** `p.name` */
  function Name(path: string): string {
    path[|Dir(path)|..]
  }

  /**
   * Where `p.stem` and `p.suffix` part: the last '.', when it is neither
   * first nor last (pathlib's rule up to Python 3.13).
   */
  function SuffixStart(name: string): (k: int)
    ensures k == -1 || 0 < k < |name| - 1
  {
    var i := RFind(name, '.');
    if 0 < i < |name| - 1 then i else -1
  }

  /** `p.suffix` */
  function Suffix(name: string): string {
    var k := SuffixStart(name);
    if k >= 0 then name[k..] else ""
  }

  /** `p.stem` */
  function Stem(name: string): string {
    var k := SuffixStart(name);
    if k >= 0 then name[..k] else name
  }

  /** The stem and the suffix put together give the name; a suffix is a dot and at least one more character. */
  lemma StemSuffix(name: string)
    ensures Stem(name) + Suffix(name) == name
    ensures Suffix(name) == "" || (|Suffix(name)| >= 2 && Suffix(name)[0] == '.' && '.' !in Suffix(name)[1..])
    ensures Stem(name) != "" || name == ""
  {
    var k := SuffixStart(name);
    if k >= 0 {
      assert name[..k] + name[k..] == name;
      forall j | 1 <= j < |name| - k ensures Suffix(name)[j] != '.' {
        assert Suffix(name)[j] == name[k + j];
      }
    }
  }

  /**
   * `p.suffix or ".html"`: the name's own suffix when it has one, else
   * ".html"; either way a dot followed by at least one character and no
   * further dot.
   */
  function Extension(path: string): (e: string)
    ensures Suffix(Name(path)) != "" ==> e == Suffix(Name(path))
    ensures Suffix(Name(path)) == "" ==> e == DefaultSuffix
    ensures |e| >= 2 && e[0] == '.' && '.' !in e[1..]
  {
    StemSuffix(Name(path));
    var s := Suffix(Name(path));
    if s != "" then s else DefaultSuffix
  }

  /** `f"{stem}_{n}{suffix}"` */
  function NumberedName(path: string, n: nat): string {
    Stem(Name(path)) + "_" + NatText(n) + Extension(path)
  }

  /** `str(parent / f"{stem}_{n}{suffix}")` */
  function Numbered(path: string, n: nat): string {
    Dir(path) + NumberedName(path, n)
  }

  /** Different numbers give different paths. */
  lemma NumberedDistinct(path: string, m: nat, n: nat)
    requires m != n
    ensures Numbered(path, m) != Numbered(path, n)
  {
    var lead := Stem(Name(path)) + "_";
    var ext := Extension(path);
    if Numbered(path, m) == Numbered(path, n) {
      var d := Dir(path);
      assert NumberedName(path, m) == Numbered(path, m)[|d|..];
      assert NumberedName(path, n) == Numbered(path, n)[|d|..];
      var x := NumberedName(path, m);
      assert |NatText(m)| == |NatText(n)|;
      assert x == lead + NatText(m) + ext && x == lead + NatText(n) + ext;
      assert NatText(m) == x[|lead|..|x| - |ext|];
      assert NatText(n) == x[|lead|..|x| - |ext|];
      assert IntText(m) == NatText(m) && IntText(n) == NatText(n);
      IntTextInjective(m, n);
    }
  }

  /** A directory part and a name without '/' split back into the same two parts. */
  lemma DirOfJoin(d: string, name: string)
    requires d == "" || d[|d| - 1] == '/'
    requires '/' !in name
    ensures Dir(d + name) == d && Name(d + name) == name
  {
    var p := d + name;
    if d != "" {
      assert p[|d| - 1] == '/';
    }
  }

  /** A name that ends with a text still ends with it behind a directory part. */
  lemma EndsWithBehind(d: string, name: string, ext: string)
    requires EndsWith(name, ext)
    ensures EndsWith(d + name, ext)
  {
    assert (d + name)[|d + name| - |ext|..] == name[|name| - |ext|..];
  }

  /** No part of a numbered name holds a '/'. */
  lemma NumberedNameFlat(path: string, n: nat)
    ensures '/' !in NumberedName(path, n)
  {
    var name := Name(path);
    var stem, suffix := Stem(name), Suffix(name);
    StemSuffix(name);
    forall k | 0 <= k < |stem| ensures stem[k] != '/' {
      assert stem[k] == name[k];
    }
    forall k | 0 <= k < |suffix| ensures suffix[k] != '/' {
      assert suffix[k] == name[|stem| + k];
    }
    forall k | 0 <= k < |NatText(n)| ensures NatText(n)[k] != '/' {
      assert IsDigit(NatText(n)[k]);
    }
  }

  /**
   * The numbered path stays in the directory of the original one, and its
   * name is the stem, '_', the number and the extension (".html" when the
   * original has none).
   */
  lemma NumberedShape(path: string, n: nat)
    ensures Dir(Numbered(path, n)) == Dir(path)
    ensures Name(Numbered(path, n)) == NumberedName(path, n)
    ensures EndsWith(Numbered(path, n), Extension(path))
  {
    var name, ext := NumberedName(path, n), Extension(path);
    NumberedNameFlat(path, n);
    assert name[|name| - |ext|..] == ext;
    EndsWithBehind(Dir(path), name, ext);
    DirOfJoin(Dir(path), name);
  }

  /** RFind finds an occurrence with none after it. */
  lemma RFindAt(s: string, c: char, k: nat)
    requires k < |s| && s[k] == c && forall j | k < j < |s| :: s[j] != c
    ensures RFind(s, c) == k
  {
  }

  /** "output/report.html" lies in "output/" and is named "report.html". */
  lemma ExampleDir()
    ensures Dir("output/report.html") == "output/" && Name("output/report.html") == "report.html"
    ensures Dir("output/report") == "output/" && Name("output/report") == "report"
  {
    RFindAt("output/report.html", '/', 6);
    RFindAt("output/report", '/', 6);
  }

  /** "report.html" has the stem "report" and the suffix ".html"; "report" has no suffix. */
  lemma ExampleStem()
    ensures Stem("report.html") == "report" && Suffix("report.html") == ".html"
    ensures Stem("report") == "report" && Suffix("report") == ""
  {
    RFindAt("report.html", '.', 6);
    assert RFind("report", '.') == -1;
  }

  /** "output/report.html" is followed by "output/report_1.html". */
  lemma NumberedExample()
    ensures Numbered("output/report.html", 1) == "output/report_1.html"
  {
    ExampleDir();
    ExampleStem();
    assert NatText(1) == "1";
  }

  /** A name without a suffix gets ".html": "output/report" is followed by "output/report_2.html". */
  lemma NumberedBareExample()
    ensures Numbered("output/report", 2) == "output/report_2.html"
  {
    ExampleDir();
    ExampleStem();
    assert NatText(2) == "2";
  }

  /**
   * `_next_available_report_path`: the path itself when it does not exist;
   * otherwise the numbered path with the smallest n >= 1 that does not exist.
   */
  method NextAvailableReportPath(path: string, existing: set<string>) returns (r: string)
    ensures r !in existing
    ensures path !in existing ==> r == path
    ensures path in existing ==>
      exists n: nat | n >= 1 :: r == Numbered(path, n) && forall m | 1 <= m < n :: Numbered(path, m) in existing
  {
    if path !in existing {
      return path;
    }
    var n: nat := 1;
    ghost var seen: set<string> := {};
    while Numbered(path, n) in existing
      invariant n >= 1
      invariant seen == set m | 1 <= m < n :: Numbered(path, m)
      invariant seen <= existing && |seen| == n - 1
      invariant forall m | 1 <= m < n :: Numbered(path, m) in existing
      decreases |existing| - |seen|
    {
      Tried(path, n, seen, existing);
      seen := seen + {Numbered(path, n)};
      n := n + 1;
    }
    r := Numbered(path, n);
  }

  /**
   * The numbered paths tried so far are distinct and all exist, so there
   * are no more of them than existing paths: the search ends.
   */
  lemma Tried(path: string, n: nat, seen: set<string>, existing: set<string>)
    requires n >= 1 && seen == set m | 1 <= m < n :: Numbered(path, m)
    requires seen <= existing && |seen| == n - 1 && Numbered(path, n) in existing
    ensures seen + {Numbered(path, n)} == set m | 1 <= m < n + 1 :: Numbered(path, m)
    ensures |seen + {Numbered(path, n)}| == n <= |existing|
  {
    forall m | 1 <= m < n ensures Numbered(path, m) != Numbered(path, n) {
      NumberedDistinct(path, m, n);
    }
    assert Numbered(path, n) !in seen;
    SubsetSize(seen + {Numbered(path, n)}, existing);
  }

  lemma {:induction false} SubsetSize<T>(a: set<T>, b: set<T>)
    requires a <= b
    ensures |a| <= |b|
  {
    assert |b| == |a| + |b - a| by {
      assert b == a + (b - a);
    }
  }
}
