/**
 * The parts of Go's `path/filepath` that the Go executor uses, with Unix
 * conventions (`/` separator, no volume names): `Clean`, `Dir` and `Join`.
 */
module GoPath {

  /** `strings.Split(s, "/")`: the parts between separators, empty ones included. */
  function Split(s: string): (parts: seq<string>)
    ensures |parts| >= 1
    decreases |s|
  {
    if s == [] then [[]]
    else if s[0] == '/' then [[]] + Split(s[1..])
    else
      var rest := Split(s[1..]);
      [[s[0]] + rest[0]] + rest[1..]
  }

  /** No part of a split holds the separator. */
  lemma {:induction false} SplitHasNoSlash(s: string)
    ensures forall k :: 0 <= k < |Split(s)| ==> '/' !in Split(s)[k]
    decreases |s|
  {
    if s != [] {
      SplitHasNoSlash(s[1..]);
      if s[0] != '/' {
        var rest := Split(s[1..]);
        assert '/' !in rest[0];
        assert '/' !in [s[0]] + rest[0];
      }
    }
  }

  /** `strings.Join(parts, "/")`. */
  function JoinSlash(parts: seq<string>): string {
    if parts == [] then []
    else if |parts| == 1 then parts[0]
    else JoinSlash(parts[..|parts| - 1]) + "/" + parts[|parts| - 1]
  }

  /**
   * The element loop of `Clean`, one element at a time: empty and `.`
   * elements vanish, `..` removes the previous real element, and a `..`
   * that cannot backtrack is kept in a relative path and dropped at the root.
   */
  function CleanParts(parts: seq<string>, rooted: bool, acc: seq<string>): seq<string>
    decreases |parts|
  {
    if parts == [] then acc
    else
      var part := parts[0];
      var next :=
        if part == "" || part == "." then acc
        else if part == ".." then
          (if |acc| > 0 && acc[|acc| - 1] != ".." then acc[..|acc| - 1]
           else if rooted then acc
           else acc + [".."])
        else acc + [part];
      CleanParts(parts[1..], rooted, next)
  }

  /** `filepath.Clean`: the shortest lexically equivalent path; never empty. */
  function Clean(p: string): (r: string)
    ensures r != []
    ensures |p| > 0 && p[0] == '/' ==> r[0] == '/'
  {
    if p == [] then "."
    else
      var rooted := p[0] == '/';
      var out := JoinSlash(CleanParts(Split(p), rooted, []));
      if rooted then "/" + out else if out == [] then "." else out
  }

  /** The index of the last separator. */
  function LastSlash(s: string): (r: int)
    ensures -1 <= r < |s|
    ensures r >= 0 ==> s[r] == '/'
    ensures forall j :: r < j < |s| ==> s[j] != '/'
  {
    if s == [] then -1
    else if s[|s| - 1] == '/' then |s| - 1
    else LastSlash(s[..|s| - 1])
  }

  /** `filepath.Dir`: everything up to the last separator, cleaned; "." when there is none. */
  function Dir(p: string): (r: string)
    ensures r != [] && Clean(r) == r
  {
    CleanIdempotent(p[..LastSlash(p) + 1]);
    Clean(p[..LastSlash(p) + 1])
  }

  /** `filepath.Join`: empty elements are ignored and the joined result is cleaned. */
  function Join(elems: seq<string>): (r: string)
    ensures r == [] <==> forall k :: 0 <= k < |elems| ==> elems[k] == []
    ensures r != [] ==> Clean(r) == r
    decreases |elems|
  {
    if elems == [] then []
    else if elems[0] == [] then
      assert forall k :: 0 < k < |elems| ==> elems[k] == elems[1..][k - 1];
      Join(elems[1..])
    else
      CleanIdempotent(JoinSlash(elems));
      Clean(JoinSlash(elems))
  }

  /** A path without a separator, such as "run.py", has "." as its directory. */
  lemma DirOfPlainName(n: string)
    requires '/' !in n
    ensures Dir(n) == "."
  {
    assert forall j :: 0 <= j < |n| ==> n[j] != '/';
  }

  // Idempotence of Clean.

  /** The elements `Clean` produces: no empty or `.` element, and `..` only as a leading run of a relative path. */
  ghost predicate IsCleanSeq(xs: seq<string>, rooted: bool) {
    && (forall k :: 0 <= k < |xs| ==> xs[k] != [] && xs[k] != "." && '/' !in xs[k])
    && (forall k :: 0 <= k < |xs| && xs[k] == ".." ==> !rooted && forall j :: 0 <= j < k ==> xs[j] == "..")
  }

  lemma {:induction false} CleanPartsIsClean(parts: seq<string>, rooted: bool, acc: seq<string>)
    requires IsCleanSeq(acc, rooted)
    requires forall k :: 0 <= k < |parts| ==> '/' !in parts[k]
    ensures IsCleanSeq(CleanParts(parts, rooted, acc), rooted)
    decreases |parts|
  {
    if parts != [] {
      var part := parts[0];
      var next :=
        if part == "" || part == "." then acc
        else if part == ".." then
          (if |acc| > 0 && acc[|acc| - 1] != ".." then acc[..|acc| - 1]
           else if rooted then acc
           else acc + [".."])
        else acc + [part];
      if part == ".." && !(|acc| > 0 && acc[|acc| - 1] != "..") && !rooted {
        if |acc| > 0 {
          assert acc[|acc| - 1] == "..";
        }
      }
      assert IsCleanSeq(next, rooted);
      CleanPartsIsClean(parts[1..], rooted, next);
    }
  }

  lemma {:induction false} CleanPartsOfClean(xs: seq<string>, rooted: bool, k: nat)
    requires IsCleanSeq(xs, rooted) && k <= |xs|
    ensures CleanParts(xs[k..], rooted, xs[..k]) == xs
    decreases |xs| - k
  {
    if k < |xs| {
      var part := xs[k];
      if part == ".." {
        assert k == 0 || xs[..k][k - 1] == "..";
      }
      assert xs[..k] + [part] == xs[..k + 1];
      assert xs[k..][1..] == xs[k + 1..];
      CleanPartsOfClean(xs, rooted, k + 1);
    }
  }

  /** Splitting a string with a first character: a separator starts a new part, anything else extends the first. */
  lemma SplitCons(c: char, t: string)
    ensures Split([c] + t) == if c == '/' then [[]] + Split(t) else [[c] + Split(t)[0]] + Split(t)[1..]
  {
    assert ([c] + t)[1..] == t;
  }

  /** Prepending a character to the left operand of a joined split is prepending it to the split of that operand. */
  lemma SplitConsJoin(c: char, rest: seq<string>, tail: seq<string>)
    requires rest != []
    ensures (if c == '/' then [[]] + (rest + tail) else [[c] + (rest + tail)[0]] + (rest + tail)[1..])
      == (if c == '/' then [[]] + rest else [[c] + rest[0]] + rest[1..]) + tail
  {
    if c != '/' {
      assert (rest + tail)[1..] == rest[1..] + tail;
    }
  }

  lemma {:induction false} SplitSlashJoin(a: string, b: string)
    ensures Split(a + "/" + b) == Split(a) + Split(b)
    decreases |a|
  {
    if a == [] {
      assert a + "/" + b == ['/'] + b;
      SplitCons('/', b);
    } else {
      var t := a[1..] + "/" + b;
      SplitSlashJoin(a[1..], b);
      assert a + "/" + b == [a[0]] + t;
      assert a == [a[0]] + a[1..];
      SplitCons(a[0], t);
      SplitCons(a[0], a[1..]);
      SplitConsJoin(a[0], Split(a[1..]), Split(b));
    }
  }

  lemma {:induction false} SplitOfPlain(s: string)
    requires '/' !in s
    ensures Split(s) == [s]
    decreases |s|
  {
    if s != [] {
      assert forall c :: c in s[1..] ==> c in s;
      SplitOfPlain(s[1..]);
      assert [s[0]] + s[1..] == s;
    }
  }

  lemma {:induction false} SplitJoinSlash(xs: seq<string>)
    requires xs != []
    requires forall k :: 0 <= k < |xs| ==> '/' !in xs[k]
    ensures Split(JoinSlash(xs)) == xs
    decreases |xs|
  {
    if |xs| == 1 {
      SplitOfPlain(xs[0]);
    } else {
      var init := xs[..|xs| - 1];
      SplitJoinSlash(init);
      SplitSlashJoin(JoinSlash(init), xs[|xs| - 1]);
      SplitOfPlain(xs[|xs| - 1]);
      assert init + [xs[|xs| - 1]] == xs;
    }
  }

  /** A path is unchanged by a second cleaning. */
  lemma CleanIdempotent(p: string)
    ensures Clean(Clean(p)) == Clean(p)
  {
    if p == [] {
      SplitOfPlain(".");
    } else {
      var rooted := p[0] == '/';
      var xs := CleanParts(Split(p), rooted, []);
      SplitHasNoSlash(p);
      CleanPartsIsClean(Split(p), rooted, []);
      CleanPartsOfClean(xs, rooted, 0);
      assert xs[0..] == xs && xs[..0] == [];
      var out := JoinSlash(xs);
      var c := Clean(p);
      if rooted {
        assert c == "/" + out;
        assert c[0] == '/';
        if xs == [] {
          assert c == "/";
          assert c[1..] == [];
          assert Split(c) == [[], []];
          assert CleanParts(Split(c), true, []) == [];
          assert Clean(c) == "/" + [];
        } else {
          SplitJoinSlash(xs);
          assert c == [] + "/" + out;
          SplitSlashJoin([], out);
          assert Split(c) == [[]] + xs;
        }
      } else if out == [] {
        assert c == ".";
        SplitOfPlain(c);
      } else {
        assert xs != [];
        SplitJoinSlash(xs);
        assert c == out;
      }
    }
  }
}
