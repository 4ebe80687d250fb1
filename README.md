# Sequential cores of five small system tools, in Dafny

This project models the deterministic decision and transformation logic of five command-line tools:

- **excelparser** turns an order spreadsheet into an Ansible inventory:
  - which cells of a server row become host variables;
  - which group a host belongs to (`determine_group`);
  - which rows of the sheet are hosts;
  - how hosts are grouped, with a later row of the same name replacing an earlier one;
  - the four general variables read from the header block.
- **rsfilehasher** (`filehash`):
  - the argument checks of `main`, in their order;
  - `get_files_in_dir` with its error order;
  - the loop that keeps only the files whose hash and size can both be read;
  - the unit-choosing integer loop of `format_size`;
  - the width of the table's name column.
- **The script executor**, in Rust (`tools/scripts-executor/executor.rs`) and Go (`scripts-executor/executor.go`):
  - configuration defaults;
  - script lookup by name (the first exact match);
  - working-directory choice;
  - case-insensitive dispatch on the script type;
  - interpreter choice (virtual environment or configured path);
  - argument assembly;
  - the run-all loop that stops at the first failure.
- **rarscanner**:
  - the case-insensitive `.rar` extension test, with `Path::extension` rules;
  - the decision the walker's visitor makes for one entry;
  - the command-line defaults and the semaphore's capacity floor;
  - collecting the records received and stably sorting them by path.

## How the model is built

The spreadsheet, the file system, the hash and size lookups, the existence checks and the running of child processes are all passed in as values or functions.

- Loops and mutating builders become methods with loop invariants. Each method is proved equal to a specification function, and the properties are proved about that function as lemmas.
- Pure decision code becomes functions.
- The library behaviour the tools rely on is modelled in its own modules:
  - Rust's `str::trim`, `contains`, `replace` and `eq_ignore_ascii_case`, and `parse::<i32>`;
  - `std::path` components, `parent`, `file_name`, `extension`, `join` and the component-wise `Ord`;
  - Go's `filepath.Clean`, `Dir` and `Join`.

Modules:

| module | file |
|---|---|
| Wrappers | `wrappers.dfy` |
| Text | `text.dfy` |
| Decimal | `decimal.dfy` |
| RustPath | `rustpath.dfy` |
| GoPath | `gopath.dfy` |
| Process | `process.dfy` |
| ExcelParser | `excelparser.dfy` |
| FileHasher | `filehasher.dfy` |
| RustExecutor | `executor_rs.dfy` |
| GoExecutor | `executor_go.dfy` |
| RarScanner | `rarscanner.dfy` |

## Model

| member | source | states |
|---|---|---|
| ExcelParser.RowVarsFollow | excelparser/src/main.rs:172-261 | Each mapped column contributes exactly its own value to a row's variables, and nothing else is there. Text columns (2, 3, 4, 6, 8, 9, 23, 25-28) are stored whenever the cell exists, even when empty. Columns 11-14 are stored only when the cell text parses as an `i32`, and then as that number. Columns 30, 32 and 33 are stored only when non-empty. |
| ExcelParser.VarsFromFollows | excelparser/src/main.rs:172-261 | For any column table with distinct keys, the successive insertions give each key its own column's value and add no other key. |
| ExcelParser.ColumnsDistinct | excelparser/src/main.rs:175-261 | The 18 keys `parse_server_row` inserts are pairwise distinct, so no insertion overwrites another. |
| ExcelParser.VarsFromAppend | excelparser/src/main.rs:175-261 | One more column in the table is one more insertion, after the earlier ones. |
| ExcelParser.InsertColumn | excelparser/src/main.rs:199-203 | One `if let Some(cell) = row.get(i)` step: Text stores the cell text, Integer stores the parsed `i32` only when the text parses, NonEmptyText stores the text only when it is non-empty. A missing cell changes nothing. |
| ExcelParser.ParseServerRow | excelparser/src/main.rs:168-278 | `parse_server_row` never fails. Its result is the row's host: the column variables, inserted in table order. |
| ExcelParser.RowHost | excelparser/src/main.rs:263-277 | `ansible_host` is column 25's text when that cell exists, else "localhost". The user is always "Administrator" and the connection "vmware_tools". Password, key file and port are always None. |
| ExcelParser.RowHostName | excelparser/src/main.rs:137-143 | For a row with a name cell, the host name is exactly column 3's text, so the "unknown" fallback is never taken. |
| ExcelParser.KeywordGroup | excelparser/src/main.rs:284-290 | Within one text, "prod" wins over "uac", which wins over "lab". Each group is chosen exactly when its keyword occurs and no earlier keyword does. None is returned exactly when no keyword occurs. |
| ExcelParser.DetermineGroup | excelparser/src/main.rs:280-307 | The group is always "production", "uac", "lab" or "default". A domain with a keyword decides. Otherwise a cluster with a keyword decides. The group is "default" exactly when neither string holds a keyword. |
| ExcelParser.LabProdIsProduction | excelparser/src/main.rs:282-290 | A domain "lab-prod" yields "production". |
| ExcelParser.DomainBeforeCluster | excelparser/src/main.rs:280-304 | A domain "lab01" with a cluster "prod-cluster" yields "lab": the domain is checked before the cluster. |
| ExcelParser.ReadLabelled | excelparser/src/main.rs:76-84 | A labelled cell is stored only when row r and its column-1 cell exist and contain the label. The value is the cell text with every occurrence of the label removed, then trimmed. Otherwise the variables are unchanged. |
| ExcelParser.ReadGeneralVars | excelparser/src/main.rs:73-114 | The general variables hold exactly the orderer's name, e-mail, phone and media contact from rows 1-4 of column 1, each when its own label is present, and no other key. |
| ExcelParser.LabelledValueOfLabelledCell | excelparser/src/main.rs:79-81 | A cell "label + rest", where rest holds no further label, gives `trim(rest)`. |
| ExcelParser.LabelledValueTrimmed | excelparser/src/main.rs:80 | Every general value is empty or begins and ends with a non-whitespace character. |
| ExcelParser.EntryOfMeans | excelparser/src/main.rs:124-144 | A row contributes a host exactly when column 3 exists, is non-blank after trimming and is not "Name". The host is then stored under the column-3 text in its group. |
| ExcelParser.RowEntries | excelparser/src/main.rs:117-124 | Rows 0-6 are skipped and row 7 (the header) is dropped: there is one entry per row from row 8 on. |
| ExcelParser.RowEntriesAt | excelparser/src/main.rs:117-124 | Entry k is that of row 8 + k. |
| ExcelParser.InsertHost | excelparser/src/main.rs:132-143 | The host is stored under its name in its group. A missing group is first created empty, with no variables. |
| ExcelParser.PlaceRow | excelparser/src/main.rs:125-145 | One loop iteration: a row that is a host is parsed, classified and inserted; any other row leaves the groups unchanged. |
| ExcelParser.GroupHosts | excelparser/src/main.rs:117-146 | The loop's result equals inserting, in row order, the entries of every data row. |
| ExcelParser.PlacesMeans | excelparser/src/main.rs:117-146 | Row i places a host named n in group g exactly when i ≥ 8, the row is a host, it classifies to g, and its column 3 is n. |
| ExcelParser.GroupedHosts | excelparser/src/main.rs:117-146 | A name is a host of group g exactly when some data row places it there. |
| ExcelParser.GroupedKeepsLast | excelparser/src/main.rs:142-143 | When several rows place the same name in the same group, the stored host is that of the last such row. |
| ExcelParser.GroupedVarsUnset | excelparser/src/main.rs:132-135 | Every group the rows create has no variables of its own. |
| ExcelParser.BuildInventory | excelparser/src/main.rs:73-153 | The inventory's children are the grouped hosts and its variables are exactly the general variables. |
| FileHasher.ModeOf | rsfilehasher/src/main.rs:39-86 | `--about` wins over everything. Otherwise the arguments are refused exactly when they are not acceptable, and the reason follows the check order: an unknown hash type first, then neither `-f` nor `-d`, then both. An accepted file or directory argument is the one hashed. |
| FileHasher.HashTypeCheckedFirst | rsfilehasher/src/main.rs:45-61 | The hash type "crc32" is reported as unknown whatever the file arguments are. |
| FileHasher.DefaultHashTypeAccepted | rsfilehasher/src/main.rs:114-119 | With the default `--hash` of "sha256", a lone `-f` is accepted and that file is hashed. |
| FileHasher.ListFiles | rsfilehasher/src/main.rs:152-183 | A missing path gives NotFound. An existing path that is not a directory gives InvalidInput, checked after NotFound. A readable directory gives a listing, which holds exactly the listed entries that are files. |
| FileHasher.FilesAmongMembers | rsfilehasher/src/main.rs:173-180 | The kept entries are exactly the listed entries that are files, and no more of them than were listed. |
| FileHasher.FilesAmongAppend | rsfilehasher/src/main.rs:173-180 | Filtering a listing part by part gives the same result, so the listing's order is kept. |
| FileHasher.GetFilesInDir | rsfilehasher/src/main.rs:152-183 | The loop's result equals the specified listing, including each error case. |
| FileHasher.Collected | rsfilehasher/src/main.rs:243-269 | There are never more rows than files. |
| FileHasher.CollectedMembers | rsfilehasher/src/main.rs:243-269 | A file has a row exactly when both its hash and its size can be read, and every row comes from such a file. |
| FileHasher.DisplayName | rsfilehasher/src/main.rs:252-255 | The name shown is never empty, ".", ".." or a path with a separator. It is "?" when the path has no file name. |
| FileHasher.CollectedAppend | rsfilehasher/src/main.rs:247-269 | The rows of a list of files are the rows of its parts, in input order. |
| FileHasher.CollectFileInfos | rsfilehasher/src/main.rs:243-269 | The collection loop's result equals the specified rows. A file whose hash or size fails is skipped. Each row carries the file name, or "?". |
| FileHasher.FormatSize | rsfilehasher/src/main.rs:222-241 | The exact "{size} B" form is chosen iff size < 1024. Otherwise the unit exponent fits the size, the divisor is 1024^(exp+1) and stays within `u64`. |
| FileHasher.FitsUnitUnique | rsfilehasher/src/main.rs:229-238 | At most one unit exponent fits a size. With FormatSize, this fixes the unit uniquely: the largest power of 1024 not above the size, capped at E. |
| FileHasher.DivDiv | rsfilehasher/src/main.rs:233-237 | Dividing by 1024 step by step equals dividing by the product, so `n == size / div` holds throughout the loop. |
| FileHasher.ColumnWidth | rsfilehasher/src/main.rs:272-277 | The width is at least 7 and at least every entry. It is 7 or one of the entries, including 7 for an empty column. |
| FileHasher.NameWidthSpec | rsfilehasher/src/main.rs:272-277 | The name column is at least 7 wide and at least the UTF-8 byte length of every name. It is exactly 7 when there are no rows. |
| FileHasher.MaxOf | rsfilehasher/src/main.rs:275 | `max()` is None exactly for an empty column. Otherwise it is an entry not below any other. |
| FileHasher.FileHashMain | rsfilehasher/src/main.rs:36-90 | `main`: refused arguments and a missing file exit with status 1. So do a directory listing error and an empty listing. Otherwise the rows are the collected rows of the file or of the directory's files. |
| RustExecutor.WithDefaults | tools/scripts-executor/executor.rs:22-38 | An absent `python_path` becomes "python3" and an absent `powershell_path` becomes "pwsh". A present value, even "", is kept. |
| RustExecutor.WorkingDir | tools/scripts-executor/executor.rs:80-87 | A configured `working_dir` is used as given. Without one, the directory is "." or a proper prefix of the script path. |
| RustExecutor.WorkingDirFallback | tools/scripts-executor/executor.rs:80-87 | With no `working_dir`, the fallback "." is taken exactly when `parent()` is None, that is, when the script path has no components or only the root. Otherwise the parent path is used, which may itself be "." (as for "./x") or empty. |
| RustExecutor.BareScriptNameGivesEmptyDir | tools/scripts-executor/executor.rs:80-87 | As written, a script given by a bare file name gets the empty path as its working directory. |
| RustExecutor.IntendedWorkingDir | tools/scripts-executor/executor.rs:80-87 | The corrected choice: `working_dir` when set, otherwise never empty, and equal to the written choice whenever that is non-empty. |
| RustExecutor.IntendedWorkingDirExamples | tools/scripts-executor/executor.rs:80-87 | "run.py" runs in "." and "jobs/run.py" runs in "jobs". |
| RustExecutor.KindOf | tools/scripts-executor/executor.rs:89-93 | Python is chosen iff the type equals "python" ignoring ASCII case, and PowerShell iff it equals "powershell". |
| RustExecutor.KindOfExamples | tools/scripts-executor/executor.rs:89-93 | "Python" and "POWERSHELL" are accepted, "bash" is not. |
| RustExecutor.PythonExe | tools/scripts-executor/executor.rs:114-132 | With `python_env`, the interpreter is `<env>/Scripts/python.exe` if it exists, else `<env>/bin/python` if it exists, else `python_path`. Without `python_env` it is `python_path`. |
| RustExecutor.BuildPythonCommand | tools/scripts-executor/executor.rs:108-146 | The program is the chosen interpreter. The argv is the script path, then the configured arguments, then the extra arguments. |
| RustExecutor.BuildPowershellCommand | tools/scripts-executor/executor.rs:148-167 | The program is `powershell_path`. The argv is "-File", the script path, the configured arguments, then the extra arguments. |
| RustExecutor.Planned | tools/scripts-executor/executor.rs:79-106 | An unknown type is an "Unknown script type" error, before any command is built. Otherwise the command runs in the working directory as written (`WorkingDir`), starts with the script path (after "-File" for PowerShell) and ends with the extra arguments. |
| RustExecutor.BareScriptPlannedInEmptyDir | tools/scripts-executor/executor.rs:80-95 | A script of a known type, named without a directory and without `working_dir`, is planned to start in the empty path. |
| RustExecutor.Execute | tools/scripts-executor/executor.rs:79-106 | A command is started exactly when the type is known, and it is the planned one. The script succeeds exactly when that command exits with a success status. A failed start is a spawn error, and an unsuccessful exit is an error carrying the script's name and the exit code. |
| RustExecutor.ExecuteScript | tools/scripts-executor/executor.rs:79-106 | The outcome equals the planned execution. A failed start or an unsuccessful exit status is an error. |
| RustExecutor.FirstNamed | tools/scripts-executor/executor.rs:71-75 | Gives the index of the first script with exactly the given name, or None when no script has it. |
| RustExecutor.RunScript | tools/scripts-executor/executor.rs:70-77 | The first script with an exactly equal name is executed. With none, nothing runs and the error is "not found". |
| RustExecutor.AllOkMeans | tools/scripts-executor/executor.rs:62-65 | The step-by-step "all of the first n succeeded" means that each of them succeeds. |
| RustExecutor.RunAll | tools/scripts-executor/executor.rs:61-67 | Scripts run in configuration order with no extra arguments. The run succeeds iff every script does. Otherwise it stops with the error of the first failing script, after starting exactly the commands up to that one. |
| RustExecutor.ParseInvocation | tools/scripts-executor/executor.rs:41-59 | Fewer than two arguments is a usage error. Three or more name a script, and the rest are its extra arguments. Exactly two run every script. |
| RustExecutor.RunExecutor | tools/scripts-executor/executor.rs:40-68 | A usage error or an unreadable configuration exits with status 1 and runs nothing. With a name, success means the first matching script succeeds. Without one, success means every script does. |
| GoExecutor.WithDefaults | scripts-executor/executor.go:80-86 | An empty PythonPath becomes "python3" and an empty PowerShellPath becomes "pwsh". Non-empty values and every other field are kept. |
| GoExecutor.WithDefaultsSettles | scripts-executor/executor.go:80-86 | After the defaults both interpreter paths are non-empty, and applying them again changes nothing. |
| GoExecutor.LoadConfig | scripts-executor/executor.go:68-89 | A read or decode failure is an error. Otherwise the result is the decoded configuration with the defaults applied. |
| GoExecutor.WorkingDir | scripts-executor/executor.go:102-105 | WorkingDir when it is non-empty, otherwise `filepath.Dir(ScriptPath)`. Never empty. |
| GoExecutor.WorkingDirOfBareName | scripts-executor/executor.go:102-105 | A bare script name runs in ".". |
| GoExecutor.KindOf | scripts-executor/executor.go:107-114 | Python is chosen iff the type equals "python" ignoring ASCII case, and PowerShell iff it equals "powershell". |
| GoExecutor.PythonExe | scripts-executor/executor.go:124-141 | The venv is consulted only when PythonEnv is non-empty and exists. There, Scripts/python.exe is preferred over bin/python. The fallback is PythonPath. |
| GoExecutor.VenvPathsNonEmpty | scripts-executor/executor.go:131-139 | The joined venv paths are never empty, so an empty `pythonExe` means no venv interpreter was found. |
| GoExecutor.BuildPythonCommand | scripts-executor/executor.go:124-152 | The program is the chosen interpreter. The argv is ScriptPath, Args..., then the extra arguments. |
| GoExecutor.BuildPowerShellCommand | scripts-executor/executor.go:154-164 | The program is PowerShellPath. The argv is "-File", ScriptPath, Args..., then the extra arguments. |
| GoExecutor.Planned | scripts-executor/executor.go:100-122 | An unknown type is an "unknown script type" error, before any command is built. Otherwise the command runs in a non-empty working directory, starts with the script path (after "-File" for PowerShell) and ends with the extra arguments. |
| GoExecutor.Execute | scripts-executor/executor.go:100-122 | A command is run exactly when the type is known, and it is the planned one. The script succeeds exactly when that command exits with a success status. A failed start or an unsuccessful exit is an error carrying the exit code when there is one. |
| GoExecutor.ExecuteScript | scripts-executor/executor.go:100-122 | The outcome equals the planned execution. A failed start or an unsuccessful exit is an error. |
| GoExecutor.FirstNamed | scripts-executor/executor.go:92-96 | Gives the index of the first script with exactly the given name, or None when no script has it. |
| GoExecutor.RunScript | scripts-executor/executor.go:91-98 | The first script with an exactly equal name is executed. With none, nothing runs and the error is "not found". |
| GoExecutor.AllOkMeans | scripts-executor/executor.go:58-65 | The step-by-step "all of the first n succeeded" means that each of them succeeds. |
| GoExecutor.RunAll | scripts-executor/executor.go:57-65 | Scripts run in order with no extra arguments. The run succeeds iff every script does. Otherwise it stops at the first error, after running exactly the commands up to that one. |
| GoExecutor.RunExecutor | scripts-executor/executor.go:31-66 | Fewer than two arguments or a failed load exits 1 with nothing run. With a name, success means the first matching script succeeds. Without one, success means every script does. |
| RarScanner.NameHasRarExtensionIff | rarscanner/src/main.rs:104-109 | A file name has the extension exactly when it is longer than ".rar" and ends with ".rar" in any ASCII case. |
| RarScanner.HasRarExtension | rarscanner/src/main.rs:104-109 | A path has the extension exactly when its file name exists, is longer than ".rar" and ends with ".rar" in any ASCII case. A path with no file name, or a file named just ".rar", has none. |
| RarScanner.RarNameEndsWithRar | rarscanner/src/main.rs:105-107 | A name with the extension ends with ".rar" in some ASCII case, after at least one character. |
| RarScanner.EndsWithRarIsRarName | rarscanner/src/main.rs:105-107 | A name longer than ".rar" that ends with it in some ASCII case has the extension. |
| RarScanner.UpperCaseMatches | rarscanner/src/main.rs:107 | "ARCHIVE.RAR" and "x.Rar" match. |
| RarScanner.OtherNamesDoNotMatch | rarscanner/src/main.rs:105-108 | "x.rar.bak" and ".rar" do not match. |
| RarScanner.Visit | rarscanner/src/main.rs:60-85 | The visitor always returns Continue. It emits a record exactly for a regular file with the extension whose metadata can be read. The record's path, size and modification time are those of the entry and its metadata. Walker errors are passed over. |
| RarScanner.CliOf | rarscanner/src/main.rs:14-26 | With no roots given the roots are ["."]. Concurrency defaults to four per CPU. `follow_symlinks` is off unless given. |
| RarScanner.PermitCount | rarscanner/src/main.rs:39 | The capacity is `max(concurrency, 1)`: at least 1, at least the concurrency, and equal to one of them. |
| RarScanner.SortByPathSpec | rarscanner/src/main.rs:96 | The sorted list is ordered by path. It is a permutation of the input. Records whose paths compare equal keep their input order. |
| RarScanner.SortBySorted | rarscanner/src/main.rs:96 | The insertion sort, for any key, gives a list ordered by that key. |
| RarScanner.SortByCount | rarscanner/src/main.rs:96 | The sort gives a permutation of its input. |
| RarScanner.SortByStable | rarscanner/src/main.rs:96 | For every key value, the records with that key appear in the same order after the sort as before: the sort is stable. |
| RarScanner.InsertKeepsSorted | rarscanner/src/main.rs:96 | Inserting into a sorted list keeps it sorted. |
| RarScanner.InsertKeepsOrderOfEquals | rarscanner/src/main.rs:96 | Inserting places the new record after every record with an equal key. |
| RarScanner.EqualPathsKeepArrivalOrder | rarscanner/src/main.rs:96 | Two records whose paths compare equal, such as "a//b" and "a/b/", keep their arrival order. |
| RarScanner.CollectFound | rarscanner/src/main.rs:91-96 | The collected list is the received records, in arrival order, sorted by path. So it is ordered by path and a permutation of everything received. |
| RustPath.Parent | tools/scripts-executor/executor.rs:83-85 | A parent, when there is one, is a proper prefix of the path's text. |
| RustPath.FileName | rsfilehasher/src/main.rs:252-253 | A file name, when there is one, is never empty, "." or "..", and holds no separator. |
| RustPath.Extension | rarscanner/src/main.rs:104-106 | An extension exists only when a file name does. It holds no ".", and the file name ends with "." and the extension, after at least one more character. |
| RustPath.JoinRelative | tools/scripts-executor/executor.rs:118-123 | Joining a relative component gives the base followed by the component, with at most one separator put between them. |
| RustPath.ParentNoneIff | tools/scripts-executor/executor.rs:83-85 | `Path::parent` is None exactly for the empty path and for the root alone. |
| RustPath.ParentOfPlainName | tools/scripts-executor/executor.rs:83-85 | The parent of a bare file name is the empty path, not None. |
| RustPath.ParentOfDirAndName | tools/scripts-executor/executor.rs:83-85 | The parent of "dir/name" is "dir". |
| RustPath.PathEquivIff | rarscanner/src/main.rs:96 | Two paths compare equal exactly when they have the same components. |
| RustPath.PathLeTotal | rarscanner/src/main.rs:96 | Any two paths are comparable. |
| RustPath.PathLeTransitive | rarscanner/src/main.rs:96 | Path comparison is transitive. |
| RustPath.ComponentOrderExample | rarscanner/src/main.rs:96 | Paths compare by components, not by string: "a/b" sorts before "a-b". |
| RustPath.SeparatorsCollapseExample | rarscanner/src/main.rs:96 | "a//b" and "a/b/" have the same components. |
| GoPath.Clean | scripts-executor/executor.go:104 | `filepath.Clean` never returns the empty path, and a rooted path stays rooted. |
| GoPath.Dir | scripts-executor/executor.go:104 | `filepath.Dir` never returns the empty path, and its result is already clean. |
| GoPath.Join | scripts-executor/executor.go:131-134 | `filepath.Join` is empty exactly when every element is empty; otherwise its result is clean. |
| GoPath.CleanIdempotent | scripts-executor/executor.go:104 | `filepath.Clean`, which `filepath.Dir` applies, is idempotent. |
| GoPath.DirOfPlainName | scripts-executor/executor.go:104 | `filepath.Dir` of a name without a separator is ".". |
| Text.TrimEmptyIffBlank | excelparser/src/main.rs:128 | `trim().is_empty()` holds exactly for strings made only of whitespace. |
| Text.TrimStartSpec | excelparser/src/main.rs:80 | `trim_start` keeps a suffix, removes only whitespace, and leaves no whitespace at the front. |
| Text.TrimEndSpec | excelparser/src/main.rs:80 | `trim_end` keeps a prefix, removes only whitespace, and leaves no whitespace at the back. |
| Text.ContainsIffOccurs | excelparser/src/main.rs:79 | `contains` holds exactly when the pattern occurs somewhere in the text. |
| Text.RemoveAllAbsent | excelparser/src/main.rs:80 | Removing a label that does not occur changes nothing. |
| Decimal.ParseI32 | excelparser/src/main.rs:200 | A parsed `i32` lies within the 32-bit range, and the text it came from is non-empty and starts with a digit or a sign. |
| Decimal.ParsePrintedI32 | excelparser/src/main.rs:200 | Every 32-bit integer's decimal text parses back to it as an `i32`. |
| Decimal.ParseRejectsNonDigit | excelparser/src/main.rs:200 | A cell such as "4.0" or " 4" is not an `i32`, so no vcpu, memory or disk key is stored for it. |

## Left out

- The concurrent walk of rarscanner (rarscanner/src/main.rs:40-89) is not modelled. That covers the tokio runtime, `spawn_blocking`, the unbounded channel, and `ignore::WalkBuilder`'s traversal, gitignore handling and symlink following. The records received are a parameter of `CollectFound`, in whatever order they arrived.
- The semaphore's `try_acquire_owned` result is discarded, so it throttles nothing. Only its capacity is modelled (`PermitCount`), and no bounded concurrency is claimed.
- Hashing (md5, sha1, sha256) is not modelled. `calculate_hash` and `get_file_size` are functions passed to `CollectFileInfos`.
- FileHasher.FormatSize does not model the `f64` division or the `{:.1}` text of a scaled size. It returns the exponent and divisor chosen, not the printed string.
- The size column's width is not modelled, because it depends on that floating-point text. Only the width rule, `ColumnWidth`, is proved.
- Printing is not modelled: the table rows, `humansize`, `chrono` timestamps, `comfy_table` output, `serde_yml` serialisation and HashMap iteration order.
- Workbook reading (calamine) is not modelled; cells are their display text. Also left out: JSON reading and decoding, and clap parsing.
- clap's `conflicts_with` means the "both -f and -d" refusal cannot be reached from a real command line. `ModeOf` still models the check as written.
- The file system, `exists`, `is_dir`, `read_dir`, `metadata`, and the running of child processes are oracles given as parameters. The filesystem is a snapshot: nothing changes it while a tool runs.
- A failure to read one `read_dir` entry is merged with a failure to read the directory, as one `Other` error.
- `to_str` on non-UTF-8 file names is not modelled, because strings here are sequences of Unicode scalar values. Consequently `file_name` never gives "?" for a name that exists.
- The timestamp-based default output name of excelparser (excelparser/src/main.rs:59-65) depends on the clock and is not modelled.
- ExcelParser.ParseServerRow: the 18 straight-line `insert`s of the source are modelled as a loop over a table of the 18 columns, in the same order with the same indices, keys and kinds.
- Text.AsciiLower stands in for Rust's `to_lowercase` and Go's `strings.ToLower`. The result is only compared with "python" and "powershell", and no non-ASCII character lower-cases to an ASCII letter of those words, so the comparison is unchanged.
- Paths follow Unix conventions only: `/` is the separator, and Windows prefixes and `\` separators are not modelled.
- Process exit codes are reduced to success or status 1.
- RustExecutor.Execute plans a bare script name, as written, to start in the empty directory. Whether starting there fails is decided by the `run` parameter, which stands for the operating system. `IntendedWorkingDir` is the corrected choice and is not used by the plan.
- RarScanner.PermitCount accepts any concurrency. tokio's `Semaphore::new` panics when the capacity exceeds its `MAX_PERMITS`, and that panic is not modelled.
- RarScanner.CliOf accepts any concurrency, and so does not model that panic either.
- RustExecutor.ParseInvocation and RustExecutor.RunExecutor give status 1 for an empty argument list. The source reads `args[0]` for its usage message and panics there instead.
- GoExecutor.RunExecutor gives status 1 for an empty argument list. The source reads `os.Args[0]` and panics there instead.

## Findings

| source | as written | input that shows it | evidently intended | confidence | as-written member | corrected member |
|---|---|---|---|---|---|---|
| tools/scripts-executor/executor.rs:80-87 | With no `working_dir`, the working directory is `Path::parent(script_path)`, falling back to "." only when `parent()` is None. For a bare file name `parent()` is `Some("")`, so the command is asked to start in the empty directory. | a script with `script_path` "run.py" and no `working_dir` | run in "." as the Go executor does (`filepath.Dir("run.py") == "."`) | not executed | RustExecutor.BareScriptNameGivesEmptyDir | RustExecutor.IntendedWorkingDir |
