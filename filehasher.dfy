/**
 * The file hasher (`filehash`): the checks `main` makes on its arguments,
 * listing the files of a directory, keeping the files whose hash and size
 * can both be read, the unit `format_size` chooses, and the widths of the
 * table's columns. Hashing itself, the file system and the size lookup are
 * supplied by the caller as values.
 */
module FileHasher {
  import opened Wrappers
  import opened Text
  import Decimal
  import RustPath
  import opened Process

  // ---------------------------------------------------------------------
  // Arguments
  // ---------------------------------------------------------------------

  /** The hash types `main` accepts. */
  const HashTypes: seq<string> := ["md5", "sha1", "sha256"]
  /** The default of `--hash`. */
  const DefaultHashType: string := "sha256"

  /** The parsed command line: `-f`, `-d`, `--hash` and `--about`. */
  datatype Config = Config(file: Option<string>, dir: Option<string>, hashType: string, about: bool)

  /** Why `main` refuses its arguments. */
  datatype Refusal = UnknownHashType(name: string) | NoInput | BothInputs

  /** What `main` goes on to do once it has looked at its arguments. */
  datatype Mode = ShowAbout | Refuse(reason: Refusal) | HashFile(path: string) | HashDirectory(path: string)

  /** Arguments `main` accepts: a known hash type and exactly one of a file and a directory. */
  predicate Acceptable(c: Config) {
    c.hashType in HashTypes && (c.file.Some? != c.dir.Some?)
  }

  /**
   * The checks at the start of `main`, in their order: `--about` wins over
   * everything; then an unknown hash type, then neither `-f` nor `-d`,
   * then both.
   */
  function ModeOf(c: Config): (m: Mode)
    ensures c.about <==> m.ShowAbout?
    ensures m.Refuse? <==> !c.about && !Acceptable(c)
    ensures m.Refuse? && c.hashType !in HashTypes ==> m.reason == UnknownHashType(c.hashType)
    ensures m.Refuse? && c.hashType in HashTypes ==> m.reason == (if c.file.None? then NoInput else BothInputs)
    ensures m.HashFile? ==> c.file == Some(m.path) && c.dir.None?
    ensures m.HashDirectory? ==> c.dir == Some(m.path) && c.file.None?
  {
    if c.about then ShowAbout
    else if c.hashType !in HashTypes then Refuse(UnknownHashType(c.hashType))
    else if c.file.None? && c.dir.None? then Refuse(NoInput)
    else if c.file.Some? && c.dir.Some? then Refuse(BothInputs)
    else if c.file.Some? then HashFile(c.file.value)
    else HashDirectory(c.dir.value)
  }

  /** An unknown hash type is reported even when the file arguments are also wrong. */
  lemma HashTypeCheckedFirst(file: Option<string>, dir: Option<string>)
    ensures ModeOf(Config(file, dir, "crc32", false)) == Refuse(UnknownHashType("crc32"))
  {
    assert "crc32" != "md5" && "crc32" != "sha1" && "crc32" != "sha256";
  }

  /** With the default hash type, a single `-f` is accepted and that file is hashed. */
  lemma DefaultHashTypeAccepted(file: string)
    ensures ModeOf(Config(Some(file), None, DefaultHashType, false)) == HashFile(file)
  {
    assert DefaultHashType == HashTypes[2];
  }

  // ---------------------------------------------------------------------
  // The file system
  // ---------------------------------------------------------------------

  /**
   * What a path leads to, symbolic links followed: a regular file, a
   * directory with its entries' paths in the order `read_dir` yields them
   * (None when reading it fails), or anything else.
   */
  datatype Node = RegularFile | Directory(listing: Option<seq<string>>) | Special

  /** The paths that exist; a path missing from the map does not. */
  type FileSystem = map<string, Node>

  datatype IoErrorKind = NotFound | InvalidInput | Other

  predicate IsFile(fs: FileSystem, p: string) {
    p in fs && fs[p].RegularFile?
  }

  /** The entries that are files, in the order listed. */
  function FilesAmong(fs: FileSystem, entries: seq<string>): seq<string> {
    if entries == [] then []
    else
      var last := entries[|entries| - 1];
      FilesAmong(fs, entries[..|entries| - 1]) + (if IsFile(fs, last) then [last] else [])
  }

  /** Keeping the files of a listing can be done part by part, so the order of the listing is kept. */
  lemma {:induction false} FilesAmongAppend(fs: FileSystem, a: seq<string>, b: seq<string>)
    ensures FilesAmong(fs, a + b) == FilesAmong(fs, a) + FilesAmong(fs, b)
    decreases |b|
  {
    if b != [] {
      var b' := b[..|b| - 1];
      var last := b[|b| - 1];
      var tail := if IsFile(fs, last) then [last] else [];
      assert (a + b)[..|a + b| - 1] == a + b';
      assert (a + b)[|a + b| - 1] == last;
      assert FilesAmong(fs, a + b) == FilesAmong(fs, a + b') + tail;
      assert FilesAmong(fs, b) == FilesAmong(fs, b') + tail;
      FilesAmongAppend(fs, a, b');
    } else {
      assert a + b == a;
    }
  }

  /** Exactly the listed entries that are files are kept, and nothing is added. */
  lemma {:induction false} FilesAmongMembers(fs: FileSystem, entries: seq<string>)
    ensures |FilesAmong(fs, entries)| <= |entries|
    ensures forall p :: p in FilesAmong(fs, entries) <==> p in entries && IsFile(fs, p)
  {
    if entries != [] {
      var init := entries[..|entries| - 1];
      FilesAmongMembers(fs, init);
      assert entries == init + [entries[|entries| - 1]];
    }
  }

  /**
   * What `get_files_in_dir` returns: a directory's listing is its files
   * only; a missing path and a path that is not a directory are refused,
   * in that order.
   */
  function ListFiles(fs: FileSystem, dir: string): (r: Result<seq<string>, IoErrorKind>)
    ensures r == Err(NotFound) <==> dir !in fs
    ensures r == Err(InvalidInput) <==> dir in fs && !fs[dir].Directory?
    ensures r.Ok? <==> dir in fs && fs[dir].Directory? && fs[dir].listing.Some?
    ensures r.Ok? ==> forall p :: p in r.value <==> p in fs[dir].listing.value && IsFile(fs, p)
  {
    if dir !in fs then Err(NotFound)
    else if !fs[dir].Directory? then Err(InvalidInput)
    else match fs[dir].listing
      case None => Err(Other)
      case Some(entries) =>
        FilesAmongMembers(fs, entries);
        Ok(FilesAmong(fs, entries))
  }

  /** `get_files_in_dir`: the entries of the directory, not recursively, that are files. */
  method GetFilesInDir(fs: FileSystem, dir: string) returns (r: Result<seq<string>, IoErrorKind>)
    ensures r == ListFiles(fs, dir)
  {
    if dir !in fs {
      return Err(NotFound);
    }
    if !fs[dir].Directory? {
      return Err(InvalidInput);
    }
    if fs[dir].listing.None? {
      return Err(Other);
    }
    var entries := fs[dir].listing.value;
    var files := [];
    for i := 0 to |entries|
      invariant files == FilesAmong(fs, entries[..i])
    {
      assert entries[..i + 1][..i] == entries[..i];
      if IsFile(fs, entries[i]) {
        files := files + [entries[i]];
      }
    }
    assert entries[..|entries|] == entries;
    return Ok(files);
  }

  // ---------------------------------------------------------------------
  // Collecting the table
  // ---------------------------------------------------------------------

  /** One row of the table. */
  datatype FileInfo = FileInfo(name: string, size: nat, hash: string)

  /** The name shown for a path: its file name, or "?" when it has none. */
  function DisplayName(p: string): (n: string)
    ensures n != [] && n != "." && n != ".." && '/' !in n
    ensures RustPath.FileName(p).None? ==> n == "?"
  {
    RustPath.FileName(p).GetOr("?")
  }

  /** The row for a path whose hash and size were both read. */
  function InfoOf(p: string, hash: string -> Option<string>, size: string -> Option<nat>): FileInfo
    requires hash(p).Some? && size(p).Some?
  {
    FileInfo(DisplayName(p), size(p).value, hash(p).value)
  }

  /** Both the hash and the size of `p` can be read. */
  predicate Readable(p: string, hash: string -> Option<string>, size: string -> Option<nat>) {
    hash(p).Some? && size(p).Some?
  }

  /** The rows `print_hash_table` collects. */
  function Collected(files: seq<string>, hash: string -> Option<string>, size: string -> Option<nat>): (rows: seq<FileInfo>)
    ensures |rows| <= |files|
  {
    if files == [] then []
    else
      var p := files[|files| - 1];
      Collected(files[..|files| - 1], hash, size) + (if Readable(p, hash, size) then [InfoOf(p, hash, size)] else [])
  }

  /** The rows of a list of files are the rows of its parts, in order. */
  lemma {:induction false} CollectedAppend(a: seq<string>, b: seq<string>, hash: string -> Option<string>, size: string -> Option<nat>)
    ensures Collected(a + b, hash, size) == Collected(a, hash, size) + Collected(b, hash, size)
    decreases |b|
  {
    if b != [] {
      var b' := b[..|b| - 1];
      var last := b[|b| - 1];
      var tail := if Readable(last, hash, size) then [InfoOf(last, hash, size)] else [];
      assert (a + b)[..|a + b| - 1] == a + b';
      assert (a + b)[|a + b| - 1] == last;
      assert Collected(a + b, hash, size) == Collected(a + b', hash, size) + tail;
      assert Collected(b, hash, size) == Collected(b', hash, size) + tail;
      CollectedAppend(a, b', hash, size);
    } else {
      assert a + b == a;
    }
  }

  /** A file has a row exactly when its hash and size can both be read; every row comes from one such file. */
  lemma {:induction false} CollectedMembers(files: seq<string>, hash: string -> Option<string>, size: string -> Option<nat>)
    ensures forall p :: p in files && Readable(p, hash, size) ==> InfoOf(p, hash, size) in Collected(files, hash, size)
    ensures forall info :: info in Collected(files, hash, size) ==>
      exists p :: p in files && Readable(p, hash, size) && info == InfoOf(p, hash, size)
  {
    if files != [] {
      var init := files[..|files| - 1];
      var last := files[|files| - 1];
      CollectedMembers(init, hash, size);
      assert files == init + [last];
      forall info | info in Collected(files, hash, size)
        ensures exists p :: p in files && Readable(p, hash, size) && info == InfoOf(p, hash, size)
      {
        if info !in Collected(init, hash, size) {
          assert last in files;
        }
      }
    }
  }

  /** The collection loop of `print_hash_table`: a file that cannot be hashed or sized is skipped. */
  method CollectFileInfos(files: seq<string>, hash: string -> Option<string>, size: string -> Option<nat>)
    returns (infos: seq<FileInfo>)
    ensures infos == Collected(files, hash, size)
  {
    infos := [];
    for i := 0 to |files|
      invariant infos == Collected(files[..i], hash, size)
    {
      assert files[..i + 1][..i] == files[..i];
      var p := files[i];
      match hash(p) {
        case None =>
        case Some(h) =>
          match size(p) {
            case None =>
            case Some(n) =>
              infos := infos + [FileInfo(DisplayName(p), n, h)];
          }
      }
    }
    assert files[..|files|] == files;
  }

  // ---------------------------------------------------------------------
  // Sizes
  // ---------------------------------------------------------------------

  /** One more than the largest `u64`. */
  const U64_LIMIT: nat := 0x1_0000_0000_0000_0000

  /** The unit letters after "B", one per power of 1024. */
  const Units: seq<char> := ['K', 'M', 'G', 'T', 'P', 'E']

  function Pow(b: nat, e: nat): nat {
    if e == 0 then 1 else b * Pow(b, e - 1)
  }

  /**
   * What `format_size` prints: the exact byte count, or the size divided
   * by `div` with one decimal followed by `Units[exp]` and "B".
   */
  datatype SizeText = Exact(text: string) | Scaled(exp: nat, div: nat)

  /** The unit `exp` fits `size`: the largest one not above it, or "E" for every size past it. */
  predicate FitsUnit(size: nat, exp: nat) {
    && exp < |Units|
    && Pow(1024, exp + 1) <= size
    && (exp == |Units| - 1 || size < Pow(1024, exp + 2))
  }

  /** At most one unit fits a size. */
  lemma FitsUnitUnique(size: nat, e1: nat, e2: nat)
    requires FitsUnit(size, e1) && FitsUnit(size, e2)
    ensures e1 == e2
  {
    if e1 < e2 {
      PowMonotone(1024, e1 + 2, e2 + 1);
    } else if e2 < e1 {
      PowMonotone(1024, e2 + 2, e1 + 1);
    }
  }

  lemma {:induction false} PowMonotone(b: nat, i: nat, j: nat)
    requires b >= 1 && i <= j
    ensures Pow(b, i) <= Pow(b, j)
    decreases j
  {
    if i < j {
      PowMonotone(b, i, j - 1);
      assert Pow(b, j) == b * Pow(b, j - 1);
      assert b * Pow(b, j - 1) >= Pow(b, j - 1) by {
        assert (b - 1) * Pow(b, j - 1) >= 0;
      }
    }
  }

  lemma MulDistributes(x: int, y: int, z: int)
    ensures x * (y + z) == x * y + x * z
  {
  }

  lemma MulAssociates(x: int, y: int, z: int)
    ensures x * (y * z) == (x * y) * z
  {
  }

  lemma MulMonotone(d: nat, x: int, y: int)
    requires x <= y
    ensures d * x <= d * y
  {
    MulDistributes(d, x, y - x);
  }

  /** A non-zero multiple of `d` is at least `d` away from zero. */
  lemma MulAwayFromZero(d: int, k: int)
    requires d >= 0
    ensures k >= 1 ==> d * k >= d
    ensures k <= -1 ==> d * k <= -d
  {
    MulDistributes(d, 1, k - 1);
    MulDistributes(d, -1, k + 1);
    if k >= 1 {
      MulMonotone(d, 0, k - 1);
    } else if k <= -1 {
      MulMonotone(d, k + 1, 0);
    }
  }

  /** The quotient is the only `q` that leaves a remainder below the divisor. */
  lemma DivUnique(a: nat, d: nat, q: nat, r: nat)
    requires d > 0 && a == d * q + r && r < d
    ensures a / d == q
  {
    var q0, r0 := a / d, a % d;
    DivMod(a, d);
    MulDistributes(d, q0, q - q0);
    MulAwayFromZero(d, q - q0);
  }

  lemma ScaleQuotient(b: int, c: int, q: int, q2: int, r2: int)
    requires q == c * q2 + r2
    ensures b * q == (b * c) * q2 + b * r2
  {
    MulDistributes(b, c * q2, r2);
    MulAssociates(b, c, q2);
  }

  lemma CombinedRemainder(b: nat, c: nat, r: int, r2: int)
    requires 0 <= r < b && 0 <= r2 < c
    ensures b * r2 + r < b * c
  {
    MulMonotone(b, r2, c - 1);
    MulDistributes(b, c - 1, 1);
  }

  lemma DivMod(a: nat, d: nat)
    requires d > 0
    ensures a == d * (a / d) + a % d && 0 <= a % d < d
  {
  }

  /** Dividing twice is dividing by the product. */
  lemma DivDiv(a: nat, b: nat, c: nat)
    requires b > 0 && c > 0
    ensures a / b / c == a / (b * c)
  {
    var q, r := a / b, a % b;
    var q2, r2 := q / c, q % c;
    DivMod(a, b);
    DivMod(q, c);
    ScaleQuotient(b, c, q, q2, r2);
    CombinedRemainder(b, c, r, r2);
    DivUnique(a, b * c, q2, b * r2 + r);
  }

  /** A quotient is below `k` exactly when the dividend is below `k` times the divisor. */
  lemma DivBelow(a: nat, d: nat, k: nat)
    requires d > 0
    ensures a / d < k <==> a < k * d
  {
    var q, r := a / d, a % d;
    DivMod(a, d);
    MulDistributes(d, q, k - q);
    MulAwayFromZero(d, k - q);
    assert k * d == d * k;
  }

  /**
   * `format_size`, all but the floating-point text: below 1024 the exact
   * count in bytes; otherwise the unit loop divides by 1024 until the
   * quotient is below 1024 or the last unit, "E", is reached. The divisor
   * never leaves `u64`.
   */
  method FormatSize(size: nat) returns (r: SizeText)
    requires size < U64_LIMIT
    ensures r.Exact? <==> size < 1024
    ensures r.Exact? ==> r.text == Decimal.NatToString(size) + " B"
    ensures r.Scaled? ==> FitsUnit(size, r.exp) && r.div == Pow(1024, r.exp + 1) && r.div < U64_LIMIT
  {
    if size < 1024 {
      return Exact(Decimal.NatToString(size) + " B");
    }
    var div: nat := 1024;
    assert Pow(1024, 1) == 1024;
    var exp: nat := 0;
    var n := size / 1024;
    while n >= 1024 && exp < |Units| - 1
      invariant exp < |Units|
      invariant div == Pow(1024, exp + 1) && 0 < div <= size
      invariant n == size / div
      decreases |Units| - exp
    {
      PowMonotone(1024, exp + 2, 6);
      assert Pow(1024, 6) < U64_LIMIT;
      DivBelow(size, div, 1024);
      DivDiv(size, div, 1024);
      div := div * 1024;
      exp := exp + 1;
      n := n / 1024;
    }
    DivBelow(size, div, 1024);
    PowMonotone(1024, exp + 1, 6);
    return Scaled(exp, div);
  }

  // ---------------------------------------------------------------------
  // Column widths
  // ---------------------------------------------------------------------

  /** `Iterator::max`. */
  function MaxOf(xs: seq<nat>): (m: Option<nat>)
    ensures m.None? <==> xs == []
    ensures m.Some? ==> m.value in xs && forall i :: 0 <= i < |xs| ==> xs[i] <= m.value
  {
    if xs == [] then None
    else
      match MaxOf(xs[..|xs| - 1])
      case None => Some(xs[0])
      case Some(m) => Some(if xs[|xs| - 1] > m then xs[|xs| - 1] else m)
  }

  /** `.max().unwrap_or(7).max(7)`: the widest entry of a column, and never less than the heading's 7. */
  function ColumnWidth(lens: seq<nat>): (w: nat)
    ensures w >= 7 && forall i :: 0 <= i < |lens| ==> lens[i] <= w
    ensures w == 7 || w in lens
  {
    var m := MaxOf(lens).GetOr(7);
    if m > 7 then m else 7
  }

  /** The width of the name column: the longest name in UTF-8 bytes, at least 7. */
  function NameWidth(infos: seq<FileInfo>): nat {
    ColumnWidth(seq(|infos|, i requires 0 <= i < |infos| => Utf8Len(infos[i].name)))
  }

  lemma NameWidthSpec(infos: seq<FileInfo>)
    ensures NameWidth(infos) >= 7
    ensures forall i :: 0 <= i < |infos| ==> Utf8Len(infos[i].name) <= NameWidth(infos)
    ensures infos == [] ==> NameWidth(infos) == 7
  {
    var lens := seq(|infos|, i requires 0 <= i < |infos| => Utf8Len(infos[i].name));
    forall i | 0 <= i < |infos|
      ensures Utf8Len(infos[i].name) <= NameWidth(infos)
    {
      assert lens[i] == Utf8Len(infos[i].name);
    }
  }

  // ---------------------------------------------------------------------
  // main
  // ---------------------------------------------------------------------

  /**
   * `main`: after the argument checks, a single file must exist and a
   * directory must list at least one file; every failure exits with
   * status 1 before any hashing. The rows printed are the collected ones.
   */
  method FileHashMain(c: Config, fs: FileSystem, hash: string -> Option<string>, size: string -> Option<nat>)
    returns (status: ExitStatus, rows: seq<FileInfo>)
    ensures ModeOf(c).ShowAbout? ==> status == Success && rows == []
    ensures ModeOf(c).Refuse? ==> status == Failure && rows == []
    ensures ModeOf(c).HashFile? ==>
      var p := ModeOf(c).path;
      if p in fs then status == Success && rows == Collected([p], hash, size)
      else status == Failure && rows == []
    ensures ModeOf(c).HashDirectory? ==>
      match ListFiles(fs, ModeOf(c).path)
      case Err(_) => status == Failure && rows == []
      case Ok(files) =>
        if files == [] then status == Failure && rows == []
        else status == Success && rows == Collected(files, hash, size)
  {
    rows := [];
    var mode := ModeOf(c);
    match mode {
      case ShowAbout =>
        return Success, [];
      case Refuse(_) =>
        return Failure, [];
      case HashFile(p) =>
        if p !in fs {
          return Failure, [];
        }
        rows := CollectFileInfos([p], hash, size);
        return Success, rows;
      case HashDirectory(d) =>
        var listed := GetFilesInDir(fs, d);
        match listed {
          case Err(_) =>
            return Failure, [];
          case Ok(files) =>
            if files == [] {
              return Failure, [];
            }
            rows := CollectFileInfos(files, hash, size);
            return Success, rows;
        }
    }
  }
}
