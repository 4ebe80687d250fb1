/**
 * The parts of Rust's `std::path` that the tools rely on, with Unix
 * conventions: `/` is the only separator and there are no path prefixes.
 * `Path::components`, `Path::parent`, `Path::file_name`, `Path::extension`,
 * `PathBuf::join` for a relative component, and the component-wise `Ord`
 * that `PathBuf::cmp` uses.
 */
module RustPath {
  import opened Wrappers

  datatype Component = RootDir | CurDir | ParentDir | Normal(name: string)

  /** The index of the last occurrence of `c` in `s`. */
  function LastIndexOf(s: string, c: char): (r: Option<nat>)
    ensures r.Some? ==> r.value < |s| && s[r.value] == c
    ensures r.Some? ==> forall j :: r.value < j < |s| ==> s[j] != c
    ensures r.None? ==> forall j :: 0 <= j < |s| ==> s[j] != c
  {
    if s == [] then None
    else if s[|s| - 1] == c then Some(|s| - 1)
    else LastIndexOf(s[..|s| - 1], c)
  }

  /** The last `c` in `a + [c] + b` when `b` has none is the one after `a`. */
  lemma {:induction false} LastIndexOfSplit(a: string, c: char, b: string)
    requires c !in b
    ensures LastIndexOf(a + [c] + b, c) == Some(|a|)
    decreases |b|
  {
    if b != [] {
      var s := a + [c] + b;
      assert s[..|s| - 1] == a + [c] + b[..|b| - 1];
      assert s[|s| - 1] == b[|b| - 1];
      LastIndexOfSplit(a, c, b[..|b| - 1]);
    }
  }

  /** A string without `c` has no last `c`. */
  lemma {:induction false} LastIndexOfAbsent(s: string, c: char)
    requires c !in s
    ensures LastIndexOf(s, c) == None
    decreases |s|
  {
    if s != [] {
      assert s[|s| - 1] in s;
      assert forall x :: x in s[..|s| - 1] ==> x in s;
      LastIndexOfAbsent(s[..|s| - 1], c);
    }
  }

  predicate IsRooted(p: string) {
    |p| > 0 && p[0] == '/'
  }

  /** A relative path whose first component is `.`: `Path` keeps it as `CurDir`. */
  predicate HasLeadingCurDir(p: string) {
    !IsRooted(p) && |p| > 0 && p[0] == '.' && (|p| == 1 || p[1] == '/')
  }

  /** The length of the root `/` or the leading `.` that precedes the body. */
  function PrefixLen(p: string): (n: nat)
    ensures n <= |p|
  {
    if IsRooted(p) || HasLeadingCurDir(p) then 1 else 0
  }

  function Body(p: string): string {
    p[PrefixLen(p)..]
  }

  function PrefixComponents(p: string): seq<Component> {
    if IsRooted(p) then [RootDir] else if HasLeadingCurDir(p) then [CurDir] else []
  }

  /** Empty parts (repeated separators) and `.` parts of the body are not components. */
  predicate IsSkipped(part: string) {
    part == "" || part == "."
  }

  function PartComponent(part: string): seq<Component> {
    if IsSkipped(part) then [] else if part == ".." then [ParentDir] else [Normal(part)]
  }

  /** The components of a body, parsed from the back as `Components::next_back` does. */
  function BodyComponents(b: string): (cs: seq<Component>)
    ensures forall c :: c in cs ==> c.ParentDir? || c.Normal?
    decreases |b|
  {
    match LastIndexOf(b, '/')
    case None => PartComponent(b)
    case Some(i) => BodyComponents(b[..i]) + PartComponent(b[i + 1..])
  }

  /** `Path::components`. */
  function Components(p: string): seq<Component> {
    PrefixComponents(p) + BodyComponents(Body(p))
  }

  /** `Components::trim_right`: trailing separators and `.` parts removed from a body. */
  function TrimBody(b: string): (t: string)
    ensures |t| <= |b| && t == b[..|t|]
    ensures BodyComponents(t) == BodyComponents(b)
    ensures t == [] <==> BodyComponents(b) == []
    decreases |b|
  {
    match LastIndexOf(b, '/')
    case None => if IsSkipped(b) then [] else b
    case Some(i) =>
      if IsSkipped(b[i + 1..]) then
        var t := TrimBody(b[..i]);
        assert b[..i][..|t|] == b[..|t|];
        t
      else b
  }

  /**
   * `Path::parent`: the path without its last component, or None when the
   * last component is the root or there is no component at all.
   */
  function Parent(p: string): (r: Option<string>)
    ensures r.Some? ==> |r.value| < |p| && r.value == p[..|r.value|]
  {
    var pre := p[..PrefixLen(p)];
    var t := TrimBody(Body(p));
    if t != [] then
      match LastIndexOf(t, '/')
      case None => Some(pre)
      case Some(i) =>
        var u := TrimBody(t[..i]);
        PrefixThenSlice(p, PrefixLen(p), t, u);
        Some(pre + u)
    else if HasLeadingCurDir(p) then Some([])
    else None
  }

  /** A prefix of the path's body, put after the prefix it follows, is a prefix of the path. */
  lemma PrefixThenSlice(p: string, k: nat, t: string, u: string)
    requires k <= |p| && |t| <= |p| - k && t == p[k..][..|t|]
    requires |u| < |t| && u == t[..|u|]
    ensures |p[..k] + u| < |p| && p[..k] + u == p[..k + |u|]
  {
    assert u == p[k..k + |u|];
  }

  /** `parent()` is None exactly for the empty path and for a path that is only the root. */
  lemma ParentNoneIff(p: string)
    ensures Parent(p).None? <==> Components(p) == [] || Components(p) == [RootDir]
  {
    var pre := PrefixComponents(p);
    var cs := BodyComponents(Body(p));
    var t := TrimBody(Body(p));
    assert Components(p) == pre + cs;
    if cs == [] {
      assert t == [];
      assert Components(p) == pre;
    } else {
      assert t != [];
      assert Parent(p).Some?;
      var last := cs[|cs| - 1];
      assert last in cs;
      assert (pre + cs)[|pre + cs| - 1] == last;
    }
  }

  /** The parent of a bare file name such as "run.py" is the empty path, not None. */
  lemma ParentOfPlainName(n: string)
    requires n != [] && n != "." && '/' !in n
    ensures Parent(n) == Some([])
  {
    LastIndexOfAbsent(n, '/');
    assert !IsRooted(n) && !HasLeadingCurDir(n);
    assert Body(n) == n;
    assert TrimBody(n) == n;
  }

  /** The parent of "dir/name", for plain names, is "dir". */
  lemma ParentOfDirAndName(d: string, n: string)
    requires d != [] && d != "." && '/' !in d
    requires n != [] && n != "." && '/' !in n
    ensures Parent(d + "/" + n) == Some(d)
  {
    var p := d + "/" + n;
    assert p == d + ['/'] + n;
    LastIndexOfSplit(d, '/', n);
    LastIndexOfAbsent(d, '/');
    assert p[..|d|] == d && p[|d| + 1..] == n;
    assert p[0] == d[0];
    assert |d| > 1 ==> p[1] == d[1];
    assert !IsRooted(p) && !HasLeadingCurDir(p);
    assert PrefixLen(p) == 0;
    assert Body(p) == p;
    assert TrimBody(p) == p;
    assert TrimBody(d) == d;
    assert p[..0] + d == d;
  }

  /** The empty path and the root have no parent. */
  lemma ParentOfEmptyAndRoot()
    ensures Parent([]) == None && Parent("/") == None
  {
    assert Body("/") == [];
  }

  /** `Path::file_name`: the last component when it is a normal name. */
  function FileName(p: string): (r: Option<string>)
    ensures r.Some? ==> r.value != [] && r.value != "." && r.value != ".." && '/' !in r.value
  {
    var cs := BodyComponents(Body(p));
    if cs == [] then None
    else
      match cs[|cs| - 1]
      case Normal(n) => NormalNamesArePlain(Body(p), n); Some(n)
      case _ => None
  }

  /** Every normal component is a non-skipped part other than `..`. */
  lemma {:induction false} NormalNamesArePlain(b: string, n: string)
    requires Normal(n) in BodyComponents(b)
    ensures PartComponent(n) == [Normal(n)] && LastIndexOf(n, '/').None?
    decreases |b|
  {
    match LastIndexOf(b, '/')
    case None =>
      assert b == n;
    case Some(i) =>
      if Normal(n) in BodyComponents(b[..i]) {
        NormalNamesArePlain(b[..i], n);
      } else {
        assert n == b[i + 1..];
      }
  }

  /** The extension of a file name: the text after its last `.`, unless that `.` begins the name. */
  function NameExtension(n: string): Option<string> {
    match LastIndexOf(n, '.')
    case None => None
    case Some(i) => if i == 0 then None else Some(n[i + 1..])
  }

  /** `Path::extension`: the extension of the file name, when there is one. */
  function Extension(p: string): (r: Option<string>)
    ensures r.Some? ==> FileName(p).Some? && '.' !in r.value
    ensures r.Some? ==> var n := FileName(p).value;
      |n| > |r.value| + 1 && n[|n| - |r.value| - 1..] == "." + r.value
  {
    match FileName(p)
    case None => None
    case Some(n) => NameExtension(n)
  }

  /** `PathBuf::join` with a relative, non-empty component: a separator is added unless one ends the base. */
  function JoinRelative(base: string, comp: string): (r: string)
    requires comp != [] && comp[0] != '/'
    ensures r == base + comp || r == base + "/" + comp
  {
    if base == [] || base[|base| - 1] == '/' then base + comp else base + "/" + comp
  }

  // Ordering of paths, as `impl Ord for Path`: component by component,
  // components ordered by kind (RootDir < CurDir < ParentDir < Normal) and
  // normal names by their bytes; code-point order on the characters of a
  // string is the same as byte order on its UTF-8 encoding.

  /** Lexicographic order on strings; a proper prefix comes first. */
  predicate StrLess(a: string, b: string)
    decreases |a|
  {
    b != [] && (a == [] || a[0] < b[0] || (a[0] == b[0] && StrLess(a[1..], b[1..])))
  }

  lemma {:induction false} StrLessIrreflexive(a: string)
    ensures !StrLess(a, a)
    decreases |a|
  {
    if a != [] { StrLessIrreflexive(a[1..]); }
  }

  lemma {:induction false} StrLessTrichotomy(a: string, b: string)
    ensures a == b || StrLess(a, b) || StrLess(b, a)
    decreases |a|
  {
    if a != [] && b != [] && a[0] == b[0] {
      StrLessTrichotomy(a[1..], b[1..]);
      if a[1..] == b[1..] {
        assert a == [a[0]] + a[1..] && b == [b[0]] + b[1..];
      }
    }
  }

  lemma {:induction false} StrLessTransitive(a: string, b: string, c: string)
    requires StrLess(a, b) && StrLess(b, c)
    ensures StrLess(a, c)
    decreases |a|
  {
    if a != [] && a[0] == b[0] && b[0] == c[0] {
      StrLessTransitive(a[1..], b[1..], c[1..]);
    }
  }

  function Rank(c: Component): nat {
    match c
    case RootDir => 0
    case CurDir => 1
    case ParentDir => 2
    case Normal(_) => 3
  }

  predicate ComponentLess(x: Component, y: Component) {
    Rank(x) < Rank(y) || (x.Normal? && y.Normal? && StrLess(x.name, y.name))
  }

  /** Lexicographic order on component sequences. */
  predicate ComponentsLess(xs: seq<Component>, ys: seq<Component>)
    decreases |xs|
  {
    ys != [] && (xs == [] || ComponentLess(xs[0], ys[0]) || (xs[0] == ys[0] && ComponentsLess(xs[1..], ys[1..])))
  }

  /** `a.cmp(b) != Greater` for two paths. */
  predicate PathLe(a: string, b: string) {
    !ComponentsLess(Components(b), Components(a))
  }

  lemma ComponentLessTotal(x: Component, y: Component)
    ensures x == y || ComponentLess(x, y) || ComponentLess(y, x)
    ensures !(ComponentLess(x, y) && ComponentLess(y, x))
    ensures !ComponentLess(x, x)
  {
    if x.Normal? { StrLessIrreflexive(x.name); }
    if x.Normal? && y.Normal? {
      StrLessTrichotomy(x.name, y.name);
      if StrLess(x.name, y.name) && StrLess(y.name, x.name) {
        StrLessTransitive(x.name, y.name, x.name);
      }
    }
  }

  lemma ComponentLessTransitive(x: Component, y: Component, z: Component)
    requires ComponentLess(x, y) && ComponentLess(y, z)
    ensures ComponentLess(x, z)
  {
    if x.Normal? && y.Normal? && z.Normal? {
      StrLessTransitive(x.name, y.name, z.name);
    }
  }

  lemma {:induction false} ComponentsLessTrichotomy(xs: seq<Component>, ys: seq<Component>)
    ensures xs == ys || ComponentsLess(xs, ys) || ComponentsLess(ys, xs)
    ensures !(ComponentsLess(xs, ys) && ComponentsLess(ys, xs))
    decreases |xs|
  {
    if xs != [] && ys != [] {
      ComponentLessTotal(xs[0], ys[0]);
      ComponentsLessTrichotomy(xs[1..], ys[1..]);
      if xs[0] == ys[0] && xs[1..] == ys[1..] {
        assert xs == [xs[0]] + xs[1..] && ys == [ys[0]] + ys[1..];
      }
    }
  }

  lemma {:induction false} ComponentsLessTransitive(xs: seq<Component>, ys: seq<Component>, zs: seq<Component>)
    requires ComponentsLess(xs, ys) && ComponentsLess(ys, zs)
    ensures ComponentsLess(xs, zs)
    decreases |xs|
  {
    if xs != [] {
      if ComponentLess(xs[0], ys[0]) && ComponentLess(ys[0], zs[0]) {
        ComponentLessTransitive(xs[0], ys[0], zs[0]);
      } else if xs[0] == ys[0] && ys[0] == zs[0] {
        ComponentsLessTransitive(xs[1..], ys[1..], zs[1..]);
      }
    }
  }

  /** Any two paths are comparable. */
  lemma PathLeTotal(a: string, b: string)
    ensures PathLe(a, b) || PathLe(b, a)
  {
    ComponentsLessTrichotomy(Components(a), Components(b));
  }

  lemma PathLeTransitive(a: string, b: string, c: string)
    requires PathLe(a, b) && PathLe(b, c)
    ensures PathLe(a, c)
  {
    ComponentsLessTrichotomy(Components(a), Components(b));
    ComponentsLessTrichotomy(Components(b), Components(c));
    ComponentsLessTrichotomy(Components(a), Components(c));
    if ComponentsLess(Components(c), Components(a)) {
      if ComponentsLess(Components(a), Components(b)) {
        ComponentsLessTransitive(Components(c), Components(a), Components(b));
      }
    }
  }

  /** Two paths compare equal exactly when they have the same components. */
  lemma PathEquivIff(a: string, b: string)
    ensures PathLe(a, b) && PathLe(b, a) <==> Components(a) == Components(b)
  {
    ComponentsLessTrichotomy(Components(a), Components(b));
    ComponentsLessTrichotomy(Components(a), Components(a));
  }

  lemma ComponentsOfSlashed()
    ensures Components("a/b") == [Normal("a"), Normal("b")]
  {
    var b := "a/b";
    assert PrefixComponents(b) == [] && Body(b) == b;
    assert LastIndexOf(b, '/') == Some(1);
    assert b[..1] == "a" && b[2..] == "b";
    assert BodyComponents(b) == BodyComponents("a") + PartComponent("b");
    assert LastIndexOf("a", '/') == None;
  }

  lemma ComponentsOfDashed()
    ensures Components("a-b") == [Normal("a-b")]
  {
  }

  /** Component order is not string order: "a/b" sorts before "a-b" although '-' < '/'. */
  lemma ComponentOrderExample()
    ensures PathLe("a/b", "a-b") && !PathLe("a-b", "a/b")
  {
    ComponentsOfSlashed();
    ComponentsOfDashed();
    assert StrLess("a", "a-b") by {
      assert "a"[1..] == [];
      assert "a-b"[1..] == "-b";
    }
  }

  lemma BodyComponentsOfTrailing()
    ensures BodyComponents("a/") == [Normal("a")]
  {
    assert LastIndexOf("a/", '/') == Some(1);
    assert "a/"[..1] == "a" && "a/"[2..] == "";
  }

  lemma ComponentsOfDoubled()
    ensures Components("a//b") == [Normal("a"), Normal("b")]
  {
    var b := "a//b";
    assert PrefixComponents(b) == [] && Body(b) == b;
    assert LastIndexOf(b, '/') == Some(2);
    assert b[..2] == "a/" && b[3..] == "b";
    assert BodyComponents(b) == BodyComponents("a/") + PartComponent("b");
    BodyComponentsOfTrailing();
    assert PartComponent("b") == [Normal("b")];
  }

  lemma ComponentsOfTrailing()
    ensures Components("a/b/") == [Normal("a"), Normal("b")]
  {
    ComponentsOfSlashed();
    assert Body("a/b/") == "a/b/" && Body("a/b") == "a/b";
    assert LastIndexOf("a/b/", '/') == Some(3);
    assert "a/b/"[..3] == "a/b" && "a/b/"[4..] == "";
  }

  /** Repeated and trailing separators add no components: "a//b" and "a/b/" have the same ones. */
  lemma SeparatorsCollapseExample()
    ensures Components("a//b") == Components("a/b/")
  {
    ComponentsOfDoubled();
    ComponentsOfTrailing();
  }
}
