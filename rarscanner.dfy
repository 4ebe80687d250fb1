/**
 * The sequential parts of the `.rar` scanner: the extension test, the
 * decision taken for each entry the walker reports, the defaults of the
 * command line, the semaphore's capacity, and the collection of the found
 * files followed by their sort by path.
 */
module RarScanner {
  import opened Wrappers
  import opened Text
  import RustPath

  // ---------------------------------------------------------------------
  // The extension test
  // ---------------------------------------------------------------------

  /** The test on a file name alone. */
  predicate NameHasRarExtension(n: string) {
    match RustPath.NameExtension(n)
    case None => false
    case Some(ext) => EqIgnoreAsciiCase(ext, "rar")
  }

  /** Case-insensitive equality is kept by putting the same character in front. */
  lemma EqIgnoreCaseCons(c: char, a: string, b: string)
    ensures EqIgnoreAsciiCase([c] + a, [c] + b) <==> EqIgnoreAsciiCase(a, b)
  {
    var la, lb := AsciiLower([c] + a), AsciiLower([c] + b);
    assert la == [AsciiLowerChar(c)] + AsciiLower(a);
    assert lb == [AsciiLowerChar(c)] + AsciiLower(b);
    if EqIgnoreAsciiCase([c] + a, [c] + b) {
      assert AsciiLower(a) == la[1..] && AsciiLower(b) == lb[1..];
    }
  }

  /** A name with the extension ends with ".rar" in some ASCII case, after at least one character. */
  lemma RarNameEndsWithRar(n: string)
    requires NameHasRarExtension(n)
    ensures |n| > 4 && EqIgnoreAsciiCase(n[|n| - 4..], ".rar")
  {
    var i := RustPath.LastIndexOf(n, '.').value;
    var ext := n[i + 1..];
    assert |AsciiLower(ext)| == 3;
    assert n[|n| - 4..] == ['.'] + ext;
    EqIgnoreCaseCons('.', ext, "rar");
  }

  /** A name longer than ".rar" that ends with it in some ASCII case has the extension. */
  lemma EndsWithRarIsRarName(n: string)
    requires |n| > 4 && EqIgnoreAsciiCase(n[|n| - 4..], ".rar")
    ensures NameHasRarExtension(n)
  {
    var m := |n|;
    var tail := n[m - 4..];
    assert AsciiLower(tail)[0] == AsciiLowerChar(n[m - 4]) == '.';
    forall j | m - 4 < j < m
      ensures n[j] != '.'
    {
      assert AsciiLower(tail)[j - (m - 4)] == AsciiLowerChar(n[j]);
    }
    DotEndsName(n, m - 4);
    assert tail == ['.'] + n[m - 3..];
    EqIgnoreCaseCons('.', n[m - 3..], "rar");
  }

  /** The last `.` of a name is the one with no `.` after it. */
  lemma DotEndsName(n: string, i: nat)
    requires i < |n| && n[i] == '.' && forall j :: i < j < |n| ==> n[j] != '.'
    ensures RustPath.LastIndexOf(n, '.') == Some(i)
  {
  }

  /** A name has the extension exactly when it is longer than ".rar" and ends with ".rar" in any ASCII case. */
  lemma NameHasRarExtensionIff(n: string)
    ensures NameHasRarExtension(n) <==> |n| > 4 && EqIgnoreAsciiCase(n[|n| - 4..], ".rar")
  {
    if NameHasRarExtension(n) {
      RarNameEndsWithRar(n);
    }
    if |n| > 4 && EqIgnoreAsciiCase(n[|n| - 4..], ".rar") {
      EndsWithRarIsRarName(n);
    }
  }

  /**
   * `has_rar_extension`: the path's extension is "rar" in any ASCII case;
   * that is, its file name is longer than ".rar" and ends with ".rar" in
   * any ASCII case, so a file named just ".rar" has none.
   */
  predicate HasRarExtension(p: string)
    ensures HasRarExtension(p) <==>
      && RustPath.FileName(p).Some?
      && |RustPath.FileName(p).value| > 4
      && EqIgnoreAsciiCase(RustPath.FileName(p).value[|RustPath.FileName(p).value| - 4..], ".rar")
  {
    var name := RustPath.FileName(p);
    NameHasRarExtensionIff(name.GetOr(""));
    assert RustPath.Extension(p) == if name.Some? then RustPath.NameExtension(name.value) else None;
    match RustPath.Extension(p)
    case None => false
    case Some(ext) => EqIgnoreAsciiCase(ext, "rar")
  }

  lemma UpperCaseMatches()
    ensures NameHasRarExtension("ARCHIVE.RAR") && NameHasRarExtension("x.Rar")
  {
    NameHasRarExtensionIff("ARCHIVE.RAR");
    NameHasRarExtensionIff("x.Rar");
    assert "ARCHIVE.RAR"[7..] == ".RAR";
    assert "x.Rar"[1..] == ".Rar";
  }

  lemma OtherNamesDoNotMatch()
    ensures !NameHasRarExtension("x.rar.bak") && !NameHasRarExtension(".rar")
  {
    NameHasRarExtensionIff("x.rar.bak");
    NameHasRarExtensionIff(".rar");
    assert "x.rar.bak"[5..] == ".bak";
    assert AsciiLower(".bak")[1] == 'b';
  }

  // ---------------------------------------------------------------------
  // One entry of the walk
  // ---------------------------------------------------------------------

  /** What the walker knows of an entry's own type (symbolic links followed only when asked). */
  datatype FileType = RegularFile | Directory | Symlink | OtherType

  /** An entry the walker reports; `fileType` is None for an entry without one (standard input). */
  datatype DirEntry = DirEntry(path: string, fileType: Option<FileType>)

  /** `fs::metadata`: the length in bytes and the modification time, when the platform gives one. */
  datatype Metadata = Metadata(len: nat, modified: Option<int>)

  /** One record sent down the channel. */
  datatype FoundFile = FoundFile(path: string, size: nat, modified: Option<int>)

  /** What the visitor tells the walker to do next. */
  datatype WalkState = Continue | Skip | Quit

  /**
   * The visitor closure for one walker result (None: the walker reported
   * an error): a regular file with the extension whose metadata can be
   * read is sent with that metadata; anything else is passed over, and the
   * walk always goes on.
   */
  function Visit(entry: Option<DirEntry>, metadata: string -> Option<Metadata>): (r: (Option<FoundFile>, WalkState))
    ensures r.1 == Continue
    ensures r.0.Some? <==>
      && entry.Some? && entry.value.fileType == Some(RegularFile)
      && HasRarExtension(entry.value.path) && metadata(entry.value.path).Some?
    ensures r.0.Some? ==>
      && r.0.value.path == entry.value.path
      && r.0.value.size == metadata(entry.value.path).value.len
      && r.0.value.modified == metadata(entry.value.path).value.modified
  {
    match entry
    case None => (None, Continue)
    case Some(e) =>
      if e.fileType == Some(RegularFile) && HasRarExtension(e.path) then
        match metadata(e.path)
        case None => (None, Continue)
        case Some(md) => (Some(FoundFile(e.path, md.len, md.modified)), Continue)
      else (None, Continue)
  }

  // ---------------------------------------------------------------------
  // Command line and semaphore
  // ---------------------------------------------------------------------

  datatype Cli = Cli(roots: seq<string>, concurrency: nat, followSymlinks: bool)

  /**
   * The command line after its defaults: no root given means ".", no
   * `-c` means four tasks per CPU, and `--follow-symlinks` is off unless
   * given.
   */
  function CliOf(roots: seq<string>, concurrency: Option<nat>, followSymlinks: bool, cpus: nat): (c: Cli)
    ensures |c.roots| >= 1
    ensures roots != [] ==> c.roots == roots
    ensures roots == [] ==> c.roots == ["."]
    ensures c.concurrency == concurrency.GetOr(4 * cpus)
    ensures c.followSymlinks == followSymlinks
  {
    Cli(if roots == [] then ["."] else roots, concurrency.GetOr(cpus * 4), followSymlinks)
  }

  /** The semaphore's capacity: the requested concurrency, but at least 1. */
  function PermitCount(concurrency: nat): (n: nat)
    ensures n >= 1
    ensures n >= concurrency
    ensures n == concurrency || n == 1
  {
    if concurrency > 1 then concurrency else 1
  }

  // ---------------------------------------------------------------------
  // Collecting and sorting
  // ---------------------------------------------------------------------

  // The sort is written for any key a record is compared by, so that its
  // proofs do not look into how paths are split into components.

  type Key = seq<RustPath.Component>

  /** `a` comes strictly before `b`. */
  predicate Less(key: FoundFile -> Key, a: FoundFile, b: FoundFile) {
    RustPath.ComponentsLess(key(a), key(b))
  }

  predicate SortedBy(key: FoundFile -> Key, s: seq<FoundFile>) {
    forall i, j :: 0 <= i < j < |s| ==> !Less(key, s[j], s[i])
  }

  /** The records whose key is `k`, in their order in `s`. */
  function WithKey(key: FoundFile -> Key, s: seq<FoundFile>, k: Key): seq<FoundFile> {
    if s == [] then []
    else (if key(s[0]) == k then [s[0]] else []) + WithKey(key, s[1..], k)
  }

  lemma {:induction false} WithKeyAppend(key: FoundFile -> Key, a: seq<FoundFile>, b: seq<FoundFile>, k: Key)
    ensures WithKey(key, a + b, k) == WithKey(key, a, k) + WithKey(key, b, k)
  {
    if a == [] {
      assert a + b == b;
    } else {
      var h := if key(a[0]) == k then [a[0]] else [];
      assert (a + b)[0] == a[0] && (a + b)[1..] == a[1..] + b;
      assert WithKey(key, a + b, k) == h + WithKey(key, a[1..] + b, k);
      WithKeyAppend(key, a[1..], b, k);
      assert WithKey(key, a, k) == h + WithKey(key, a[1..], k);
    }
  }

  lemma {:induction false} NoneWithKey(key: FoundFile -> Key, s: seq<FoundFile>, k: Key)
    requires forall j :: 0 <= j < |s| ==> key(s[j]) != k
    ensures WithKey(key, s, k) == []
  {
    if s != [] {
      NoneWithKey(key, s[1..], k);
    }
  }

  /** `x` placed after every record that is not greater, before the first that is. */
  function InsertBy(key: FoundFile -> Key, sorted: seq<FoundFile>, x: FoundFile): seq<FoundFile> {
    if sorted == [] then [x]
    else if Less(key, x, sorted[0]) then [x] + sorted
    else [sorted[0]] + InsertBy(key, sorted[1..], x)
  }

  /** Insertion sort, each record inserted after the ones before it. */
  function SortBy(key: FoundFile -> Key, s: seq<FoundFile>): seq<FoundFile> {
    if s == [] then []
    else InsertBy(key, SortBy(key, s[..|s| - 1]), s[|s| - 1])
  }

  lemma {:induction false} InsertByCount(key: FoundFile -> Key, sorted: seq<FoundFile>, x: FoundFile)
    ensures multiset(InsertBy(key, sorted, x)) == multiset(sorted) + multiset{x}
  {
    if sorted != [] && !Less(key, x, sorted[0]) {
      InsertByCount(key, sorted[1..], x);
      assert sorted == [sorted[0]] + sorted[1..];
    }
  }

  /** In a sorted list, every record after one greater than `x` is greater than `x` as well. */
  lemma AboveFirstIsAbove(key: FoundFile -> Key, sorted: seq<FoundFile>, x: FoundFile, j: int)
    requires SortedBy(key, sorted) && sorted != [] && Less(key, x, sorted[0]) && 0 <= j < |sorted|
    ensures Less(key, x, sorted[j])
  {
    if j > 0 {
      assert !Less(key, sorted[j], sorted[0]);
      RustPath.ComponentsLessTrichotomy(key(sorted[0]), key(sorted[j]));
      if key(sorted[0]) != key(sorted[j]) {
        RustPath.ComponentsLessTransitive(key(x), key(sorted[0]), key(sorted[j]));
      }
    }
  }

  lemma {:induction false} InsertKeepsSorted(key: FoundFile -> Key, sorted: seq<FoundFile>, x: FoundFile)
    requires SortedBy(key, sorted)
    ensures SortedBy(key, InsertBy(key, sorted, x))
  {
    if sorted != [] {
      if Less(key, x, sorted[0]) {
        forall j | 0 <= j < |sorted|
          ensures !Less(key, sorted[j], x)
        {
          AboveFirstIsAbove(key, sorted, x, j);
          RustPath.ComponentsLessTrichotomy(key(x), key(sorted[j]));
        }
        var r := [x] + sorted;
        assert forall j :: 0 < j < |r| ==> r[j] == sorted[j - 1];
      } else {
        var rest := InsertBy(key, sorted[1..], x);
        InsertKeepsSorted(key, sorted[1..], x);
        InsertByCount(key, sorted[1..], x);
        forall j | 0 <= j < |rest|
          ensures !Less(key, rest[j], sorted[0])
        {
          assert rest[j] in multiset(rest);
          if rest[j] != x {
            assert rest[j] in multiset(sorted[1..]);
            var i :| 0 <= i < |sorted[1..]| && sorted[1..][i] == rest[j];
            assert sorted[i + 1] == rest[j];
          }
        }
        var r := [sorted[0]] + rest;
        assert forall j :: 0 < j < |r| ==> r[j] == rest[j - 1];
      }
    }
  }

  /** Inserting into a sorted list keeps the order among records with equal keys, the new one last. */
  lemma {:induction false} InsertKeepsOrderOfEquals(key: FoundFile -> Key, sorted: seq<FoundFile>, x: FoundFile, k: Key)
    requires SortedBy(key, sorted)
    ensures WithKey(key, InsertBy(key, sorted, x), k) == WithKey(key, sorted, k) + (if key(x) == k then [x] else [])
  {
    var mine := if key(x) == k then [x] else [];
    if sorted == [] {
      assert WithKey(key, [x], k) == mine + WithKey(key, [], k);
    } else if Less(key, x, sorted[0]) {
      WithKeyAppend(key, [x], sorted, k);
      assert WithKey(key, [x], k) == mine + WithKey(key, [], k);
      if key(x) == k {
        forall j | 0 <= j < |sorted|
          ensures key(sorted[j]) != k
        {
          AboveFirstIsAbove(key, sorted, x, j);
          RustPath.ComponentsLessTrichotomy(key(x), key(sorted[j]));
        }
        NoneWithKey(key, sorted, k);
      }
    } else {
      InsertKeepsOrderOfEquals(key, sorted[1..], x, k);
      var head := [sorted[0]];
      WithKeyAppend(key, head, InsertBy(key, sorted[1..], x), k);
      WithKeyAppend(key, head, sorted[1..], k);
      assert sorted == head + sorted[1..];
    }
  }

  lemma {:induction false} SortBySorted(key: FoundFile -> Key, s: seq<FoundFile>)
    ensures SortedBy(key, SortBy(key, s))
  {
    if s != [] {
      SortBySorted(key, s[..|s| - 1]);
      InsertKeepsSorted(key, SortBy(key, s[..|s| - 1]), s[|s| - 1]);
    }
  }

  lemma {:induction false} SortByCount(key: FoundFile -> Key, s: seq<FoundFile>)
    ensures multiset(SortBy(key, s)) == multiset(s)
  {
    if s != [] {
      var init, last := s[..|s| - 1], s[|s| - 1];
      SortByCount(key, init);
      InsertByCount(key, SortBy(key, init), last);
      assert s == init + [last];
    }
  }

  lemma {:induction false} SortByStable(key: FoundFile -> Key, s: seq<FoundFile>, k: Key)
    ensures WithKey(key, SortBy(key, s), k) == WithKey(key, s, k)
  {
    if s != [] {
      var init, last := s[..|s| - 1], s[|s| - 1];
      SortByStable(key, init, k);
      SortBySorted(key, init);
      InsertKeepsOrderOfEquals(key, SortBy(key, init), last, k);
      WithKeyAppend(key, init, [last], k);
      assert WithKey(key, [last], k) == (if key(last) == k then [last] else []) + WithKey(key, [], k);
      assert s == init + [last];
    }
  }

  /** The components a record's path is compared by, as `PathBuf::cmp` does. */
  function PathKey(f: FoundFile): Key {
    RustPath.Components(f.path)
  }

  /** `sort_by(|a, b| a.path.cmp(&b.path))`: a stable sort by path. */
  function SortByPath(s: seq<FoundFile>): seq<FoundFile> {
    SortBy(PathKey, s)
  }

  predicate SortedByPath(s: seq<FoundFile>) {
    forall i, j :: 0 <= i < j < |s| ==> RustPath.PathLe(s[i].path, s[j].path)
  }

  /**
   * The list sorted by path is ordered by path, holds exactly the records
   * given, and records whose paths compare equal keep their order.
   */
  lemma SortByPathSpec(s: seq<FoundFile>)
    ensures SortedByPath(SortByPath(s))
    ensures multiset(SortByPath(s)) == multiset(s)
    ensures forall k :: WithKey(PathKey, SortByPath(s), k) == WithKey(PathKey, s, k)
  {
    SortBySorted(PathKey, s);
    SortByCount(PathKey, s);
    forall k
      ensures WithKey(PathKey, SortByPath(s), k) == WithKey(PathKey, s, k)
    {
      SortByStable(PathKey, s, k);
    }
    var r := SortByPath(s);
    forall i, j | 0 <= i < j < |r|
      ensures RustPath.PathLe(r[i].path, r[j].path)
    {
      assert !Less(PathKey, r[j], r[i]);
    }
  }

  /** Two records whose paths compare equal (say "a//b" and "a/b/") stay in the order they arrived in. */
  lemma EqualPathsKeepArrivalOrder(x: FoundFile, y: FoundFile)
    requires RustPath.Components(x.path) == RustPath.Components(y.path)
    ensures SortByPath([x, y]) == [x, y]
  {
    RustPath.ComponentsLessTrichotomy(PathKey(x), PathKey(y));
    assert !Less(PathKey, y, x);
    assert [x, y][..1] == [x];
    assert SortBy(PathKey, [x]) == [x] by {
      assert [x][..0] == [];
    }
    assert SortBy(PathKey, [x, y]) == InsertBy(PathKey, [x], y);
    assert [x][1..] == [];
    assert InsertBy(PathKey, [x], y) == [x] + InsertBy(PathKey, [], y);
  }

  /**
   * The end of `main`: every record received on the channel is pushed in
   * arrival order, then the list is sorted by path.
   */
  method CollectFound(received: seq<FoundFile>) returns (found: seq<FoundFile>)
    ensures found == SortByPath(received)
    ensures SortedByPath(found) && multiset(found) == multiset(received)
  {
    found := [];
    var i := 0;
    while i < |received|
      invariant 0 <= i <= |received|
      invariant found == received[..i]
    {
      found := found + [received[i]];
      i := i + 1;
    }
    assert found == received;
    SortByPathSpec(found);
    found := SortByPath(found);
  }
}
