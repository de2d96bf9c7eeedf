# go-providence-checker, modelled in Dafny

go-providence-checker gathers the licenses of every module a Go module depends on. It
lists the build list with `go list -m all`, and classifies each module's license with
a license detector. If the detector reports an error, it falls back to the license files
found by name. It writes each license once into `LICENSES.txt`. Sources under a
reciprocal license are copied into `thirdparty/`. Sources under an LGPL license are
copied too, and so, once, is the project's own module, into `firstparty/`. Any other
restricted license stops the run.

This project models the decision logic of that program and proves what it promises:

- `Checker` (`pkg/checker/license.go`): license names, categories, selection of the best
  detection match, and the deep fallback over candidate files.
- `LicensePattern`: the `possibleLicense` file-name pattern as a small regular-expression
  language, what it accepts in plain words, and the filesystem walk that collects candidate
  files.
- `LicenseClassify` (`pkg/license/classify.go`): the unfinished second classifier.
- `GoModule` (`pkg/module/list.go`): the `go list` argument, the parsing of `go list -m all`
  output, and the `initialised` guard, as a `Module` class.
- `MemFs`: an in-memory POSIX filesystem. Nodes carry owner, group and mode. The kernel's
  path walk follows symbolic links, with a limit of 40 hops (`ELOOP`) and a path length
  limit of 4096 (`ENAMETOOLONG`). A `FileSystem` class offers one method per system call.
- `DirUtil` (`pkg/dirutil/dirutil.go`): the recursive directory copy over that filesystem.
- `Cmd` (`cmd/cmd.go`): the `dependencies` command as a `Compliance` class. It keeps the `seen`
  keys, with the `"LGPL"` sentinel, and a log of report writes and copy actions.
- `GoStrings`, `Wrappers`, `GoList`: the Go string functions used, `Option`/`Result`, and
  `GoModuleInfo`.

Foreign code is passed in as fields of environment datatypes, either functions or fixed results:
`licensedb.Analyse`, `classifier.Match`, `licenseclassifier.LicenseType`, the visit sequence of
`filepath.Walk`, `ioutil.ReadFile`, the `go` subprocess and JSON decoding, `s.Init`,
`s.ListAll`, `s.GoModInfo`, creating `LICENSES.txt`, and the outcome of a directory copy
inside the command.

Where the code and its design notes disagree, the model follows the code:

- The pattern's optional suffix `(\\..+)?` in a raw string needs a literal backslash,
  followed by at least two more characters. So `LICENSE.txt` is not a candidate, but
  `copying\md` is (`LicensePattern.DotExtensionRejected`, `LicensePattern.BackslashSuffixAccepted`).
- A module without a license always lets the run continue. There is no permissive switch.
- A report entry is written before the restricted-license abort.
- `chmod` applies the entry's mode verbatim.
- `os.Stat` dispatch follows links, so links are copied as what they point to and the
  `CopySymLink` branch cannot be reached from `CopyDirectory`.
- Only a non-empty `ErrStr` triggers the deep path.

## Model

| member | source | states |
|---|---|---|
| Checker.LicenseName | pkg/checker/license.go:128-140 | identifiers starting `MPL-2.0` become `MPL-2.0`; those starting `LGPL-3.0` or `deprecated_LGPL-3.0` become `LGPL-3.0`; every other identifier is returned unchanged |
| Checker.LicenseNameIdempotent | pkg/checker/license.go:128-140 | normalising a license name twice gives the same result as once |
| Checker.LicenseType | pkg/checker/license.go:116-126 | the category is never empty; a normalised name starting `0BSD` is `notice`; otherwise it is the taxonomy's answer for the normalised name, or `restricted` when that answer is empty |
| Checker.LicenseTypeNormalised | pkg/checker/license.go:117 | categorising a name gives the same result as categorising its normalised form |
| Checker.ZeroBsdOverride | pkg/checker/license.go:118-120 | any name starting `0BSD` is `notice` whatever the taxonomy says |
| Checker.CreateLink | pkg/checker/license.go:142-144 | the link starts `https://<module>/tree/<version>/`, ends with the license path, and has nothing else in it |
| Checker.ScanPicksFirstBest | pkg/checker/license.go:44-56 | if no match is eligible, the selection keeps confidence 0 and empty license and file; otherwise it keeps the first eligible match of greatest confidence, where eligible means positive confidence and a file path that does not contain `docs` anywhere |
| Checker.SelectMatch | pkg/checker/license.go:43-56 | the selection loop ends with exactly the `max`, `license` and `licenseFile` of that first best eligible match |
| Checker.ResultEntry | pkg/checker/license.go:43-66 | one pass of the loop over the analysis results builds exactly the entry of that result's first best eligible match |
| Checker.FastEntrySelects | pkg/checker/license.go:45-66 | an analysis result with no eligible match still gives an entry, with empty name, category `licenseType("")` and license file `Join(arg, "")`; otherwise the entry's name, category and file are those of the first best match |
| Checker.ClassifySpec | pkg/checker/license.go:30-74 | a success has at least one entry, and `ErrNoLicenseFound` comes with none |
| Checker.ClassifyDeep | pkg/checker/license.go:37-41 | if any analysis result has an error text, the whole module goes to the deep path, and the entries of earlier results are discarded |
| Checker.ClassifyFast | pkg/checker/license.go:37-73 | without an error text there is one entry per analysis result, in order, and `ErrNoLicenseFound` exactly when there are no results |
| Checker.Classify | pkg/checker/license.go:30-74 | the method, with its loops, returns what the specification of `Classify` gives |
| Checker.ReadCandidates | pkg/checker/license.go:92-109 | reading the candidate files fails only with an I/O error |
| Checker.ReadCandidatesFromFiles | pkg/checker/license.go:92-109 | every entry names one of the candidate files and the module's path and directory; an error comes from a candidate file whose read failed |
| Checker.ReadCandidatesComplete | pkg/checker/license.go:92-109 | when no read fails, every candidate file was read, every classifier match of every file has its entry, and there are exactly as many entries as matches in all |
| Checker.ReadCandidatesThen | pkg/checker/license.go:92-109 | the files are read in order: reading `a + b` gives the entries of `a` followed by those of `b`, and a failure in `a` stops before `b` |
| Checker.ReadCandidatesCons | pkg/checker/license.go:92-109 | the first file read fails the whole pass, or contributes its matches, in order, ahead of the rest |
| Checker.DeepClassifySpec | pkg/checker/license.go:76-114 | a success has at least one entry, and `ErrNoLicenseFound` comes with none |
| Checker.DeepEntriesAreCandidates | pkg/checker/license.go:79-91 | every deep entry's file was visited by the walk before any walk error, is not a directory, and has a name the pattern accepts |
| Checker.DeepClassifyComplete | pkg/checker/license.go:79-109 | on success, every candidate the walk visited before any error was read, each of its classifier matches has an entry, and the number of entries is the total number of matches of the candidate files |
| Checker.AppendMatches | pkg/checker/license.go:98-108 | each classifier match of a file appends one entry, in match order, without selecting a best one |
| Checker.DeepClassify | pkg/checker/license.go:76-114 | the method, with its loops, returns what the specification of `deepClassify` gives |
| LicensePattern.PossibleLicenseIff | pkg/checker/license.go:16 | a name matches the pattern exactly when it is `LICENSE`, `LICENCE`, `COPYING`, `README` or `NOTICE` in any case, optionally followed by a backslash and at least two more characters, none of them a newline |
| LicensePattern.MatchesSuffix | pkg/checker/license.go:16 | the optional group accepts nothing, or a backslash followed by at least two characters that are not newlines |
| LicensePattern.MatchesLicence | pkg/checker/license.go:16 | `LICEN(S\|C)E` matches, ignoring case, exactly `LICENSE` and `LICENCE` |
| LicensePattern.DotExtensionRejected | pkg/checker/license.go:16 | `LICENSE.txt` does not match the pattern |
| LicensePattern.BackslashSuffixAccepted | pkg/checker/license.go:16 | `copying\md` matches the pattern |
| LicensePattern.CollectedExactly | pkg/license/classify.go:41-54 | the walk collects exactly the paths of non-directories whose name matches, visited before the first walk error, and returns that error |
| LicensePattern.WalkCandidates | pkg/checker/license.go:79-91 | the walk callback appends, in walk order, the non-directory paths whose name matches, and stops at the first error it is given |
| LicenseClassify.FindObviousLicenses | pkg/license/classify.go:38-55 | the paths returned are exactly the matching non-directory paths, in walk order; a walk error comes back with the paths collected so far |
| LicenseClassify.Classify | pkg/license/classify.go:22-36 | never succeeds and returns no entries; a walk error passes through unchanged, no candidate gives "fallback not implemented", and candidates give "not implemented" |
| GoModule.TargetSplits | pkg/module/list.go:16-20 | the `go list` argument is the name alone when the version is empty, and otherwise splits at its first `@` back into the name and the version |
| GoModule.QueryInfo | pkg/module/list.go:80-94 | a query succeeds exactly when the `go list -m -json` command and the decoding of its output both succeed |
| GoModule.ReadString | pkg/module/list.go:50-53 | `ReadString('\n')` splits the buffer into a line and the rest; a complete line ends with its only newline; end of file is reported exactly when no newline is left, with nothing left over |
| GoModule.ReadLine | pkg/module/list.go:46-47 | reading up to the first newline consumes exactly the first line |
| GoModule.NameVersionOfLine | pkg/module/list.go:57-60 | a line becomes the trimmed line with every space replaced by `@`, and it is skipped exactly when it is blank after trimming |
| GoModule.HeaderSkipped | pkg/module/list.go:45-47 | the first line of the `go list -m all` output is read and discarded; the arguments come from the lines after it |
| GoModule.TargetsOfLine | pkg/module/list.go:49-60 | a complete first line contributes its `name@version` argument, or nothing when it is blank, and the remaining lines follow |
| GoStrings.JoinSplitIsReplace | pkg/module/list.go:57 | splitting on a space and joining with `@` replaces every space with `@` |
| GoStrings.TrimSpaceOfTrimmed | pkg/module/list.go:58 | trimming an already trimmed string changes nothing |
| GoModule.TargetsOfLines | pkg/module/list.go:49-66 | the complete lines give, in order, one argument per non-blank line; an unterminated last line is dropped |
| GoModule.QueryAllInOrder | pkg/module/list.go:61-67 | the queries succeed exactly when every one does, and then give one result per argument in line order; otherwise the error is that of the first failing argument |
| GoModule.ListAllLines | pkg/module/list.go:33-68 | for output made of a header line, complete lines and an unterminated tail, `listAll` skips the header, drops the tail and queries the expected arguments in order |
| GoModule.Module.List | pkg/module/list.go:12-31 | an uninitialised module gives `ErrModuleNotInitialised`; otherwise the method builds the argument list in place and returns the query of `Name` or `Name@Version` |
| GoModule.Module.ListAll | pkg/module/list.go:33-68 | an uninitialised module gives `ErrModuleNotInitialised`; otherwise the read loop returns what the specification of `listAll` gives |
| MemFs.Res | pkg/dirutil/dirutil.go:21 | a path walk that ends at a missing name reports a location where no node exists |
| MemFs.Lookup | pkg/dirutil/dirutil.go:21 | only a path shorter than the path length limit can be resolved |
| MemFs.StatNeverSymlink | pkg/dirutil/dirutil.go:21-31 | in a well-formed tree, `stat` follows links and so never reports one |
| MemFs.ResGrows | pkg/dirutil/dirutil.go:17-59 | a path walk that reaches a node still reaches it after the tree has grown |
| MemFs.StatGrows | pkg/dirutil/dirutil.go:21 | what `stat` reports keeps its kind once the tree has grown |
| MemFs.ReadDirListing | pkg/dirutil/dirutil.go:13 | `ReadDir` lists the existing entries of the directory, exactly, sorted by name |
| MemFs.SortByName | pkg/dirutil/dirutil.go:13 | sorting the listing keeps exactly the same entries |
| MemFs.SortSorted | pkg/dirutil/dirutil.go:13 | the listing comes out sorted by name |
| MemFs.AfterCreate | pkg/dirutil/dirutil.go:64 | `os.Create` leaves an empty regular file at the location it reports |
| MemFs.FileSystem.Mkdir | pkg/dirutil/dirutil.go:98 | the method keeps the tree well formed and adds a directory as `mkdir(2)` does, failing with `EEXIST` when something is there |
| MemFs.FileSystem.MkdirAll | pkg/dirutil/dirutil.go:98 | the method keeps the tree well formed and changes it as `os.MkdirAll` does |
| MemFs.FileSystem.Create | pkg/dirutil/dirutil.go:64 | the method keeps the tree well formed and changes it as `os.Create` does |
| MemFs.FileSystem.Write | pkg/dirutil/dirutil.go:77 | the data is appended to the file and nothing else changes |
| MemFs.FileSystem.Lchown | pkg/dirutil/dirutil.go:49 | the owner and group of the node change, and a link in the last position is not followed |
| MemFs.FileSystem.Chmod | pkg/dirutil/dirutil.go:55 | the mode of the node changes, with links followed |
| MemFs.FileSystem.Symlink | pkg/dirutil/dirutil.go:110 | a new link is created unless something is already there |
| DirUtil.CopyEntriesThen | pkg/dirutil/dirutil.go:17-59 | entries are copied in listing order; a failure returns at once, later entries are not visited, and what was copied before stays |
| DirUtil.SymlinkBranchUnreachable | pkg/dirutil/dirutil.go:21-42 | dispatch is on `stat`, which follows links, so the symbolic-link branch is never taken |
| DirUtil.StatFailureStops | pkg/dirutil/dirutil.go:21-24 | an entry `stat` cannot resolve, such as a dangling link, stops the copy with the tree unchanged |
| DirUtil.DirectoryEntryRecurses | pkg/dirutil/dirutil.go:32-58 | a directory, or a link to one, copied without error into a missing or directory destination leaves a directory there, in a well-formed tree that has lost no node |
| DirUtil.CopyEntryFreshFile | pkg/dirutil/dirutil.go:43-58 | a file, or a link to one, copied to a missing destination gives the file's bytes, the owner and group `stat` reports, and the entry's mode, or mode 0666 for a link since links are not chmod-ed |
| DirUtil.OwnerAndModeFresh | pkg/dirutil/dirutil.go:49-58 | for a destination that was missing and now holds a regular file, both calls succeed, the owner and group come from `stat`, and the mode is the entry's mode verbatim, unless the entry is a link, which is not chmod-ed |
| DirUtil.CopyEntrySetsOwnerAndMode | pkg/dirutil/dirutil.go:21-58 | any entry copied without error has, at its destination seen without following a final link, the owner and group `stat` reported for the source, and unless it is a link, the entry's mode at what the destination designates |
| DirUtil.SetOwnerAndModeSets | pkg/dirutil/dirutil.go:49-58 | on any tree, when `Lchown` and `Chmod` succeed the owner and group are those given and, except for a link entry, the mode is the entry's; no node changes kind |
| DirUtil.SetOwnerAndModeKeeps | pkg/dirutil/dirutil.go:49-58 | whatever their outcome, `Lchown` and `Chmod` keep a well-formed tree and change no node's kind |
| DirUtil.CopyDirectoryKeeps | pkg/dirutil/dirutil.go:12-61 | whatever its outcome, the copy keeps a well-formed tree and removes no node, changes no kind and no link text |
| DirUtil.CopyEntriesKeeps | pkg/dirutil/dirutil.go:17-59 | the loop over the entries keeps a well-formed tree and removes no node |
| DirUtil.CopyEntryKeeps | pkg/dirutil/dirutil.go:18-58 | one entry's copy keeps a well-formed tree and removes no node |
| DirUtil.CopyKindKeeps | pkg/dirutil/dirutil.go:31-47 | the copy by kind keeps a well-formed tree and removes no node |
| DirUtil.MkdirAllKeeps | pkg/dirutil/dirutil.go:98 | `os.MkdirAll`, whatever its outcome, only adds nodes to a well-formed tree |
| DirUtil.CopyKeeps | pkg/dirutil/dirutil.go:63-83 | `Copy`, whatever its outcome, keeps a well-formed tree and removes no node |
| DirUtil.CopySymLinkKeeps | pkg/dirutil/dirutil.go:105-111 | `CopySymLink`, whatever its outcome, keeps a well-formed tree and removes no node |
| DirUtil.SelfLinkLoops | pkg/dirutil/dirutil.go:86 | resolving a link that points to itself fails with `ELOOP` |
| DirUtil.SelfLinkExists | pkg/dirutil/dirutil.go:85-91 | a stat error other than not-exist, here `ELOOP`, counts as existing |
| DirUtil.MkdirAllMakesDir | pkg/dirutil/dirutil.go:98 | a successful `os.MkdirAll` leaves a directory at the path |
| DirUtil.CreateIfNotExistsIdempotent | pkg/dirutil/dirutil.go:93-103 | once `CreateIfNotExists` has succeeded, calling it again changes nothing and succeeds |
| DirUtil.CreateResolves | pkg/dirutil/dirutil.go:64 | creating the destination only adds to the tree, and the file is where the destination path leads |
| DirUtil.CopyByteIdentical | pkg/dirutil/dirutil.go:63-83 | after a successful `Copy`, the destination holds the source's bytes; when source and destination are the same file, truncation leaves it empty |
| DirUtil.CopyIntoFresh | pkg/dirutil/dirutil.go:63-83 | copying a file to a missing destination creates a file owned by the process with mode 0666 and the source's bytes |
| DirUtil.CopySymLinkSameTarget | pkg/dirutil/dirutil.go:105-111 | the new link's target text equals the source link's |
| DirUtil.CreateIfNotExists | pkg/dirutil/dirutil.go:93-103 | the method keeps the tree well formed and does what the specification of `CreateIfNotExists` gives |
| DirUtil.Copy | pkg/dirutil/dirutil.go:63-83 | the method keeps the tree well formed and does what the specification of `Copy` gives |
| DirUtil.CopySymLink | pkg/dirutil/dirutil.go:105-111 | the method keeps the tree well formed and does what the specification of `CopySymLink` gives |
| DirUtil.CopyDirectory | pkg/dirutil/dirutil.go:12-61 | the method, with its loop, keeps the tree well formed and does what the specification of `CopyDirectory` gives |
| DirUtil.CopyEntry | pkg/dirutil/dirutil.go:17-59 | one loop iteration keeps the tree well formed and does what the specification of one entry's copy gives |
| DirUtil.ChownAndChmod | pkg/dirutil/dirutil.go:49-58 | the tail of one entry's copy keeps the tree well formed and sets owner and mode as the specification gives |
| Cmd.SentinelNotAKey | cmd/cmd.go:66-96 | a module key always contains `@`, so it is never the `"LGPL"` sentinel |
| Cmd.RunAtMostOnce | cmd/cmd.go:65-101 | however the run ends, each key in `seen` other than the sentinel has exactly one report header, no key has two, and the first-party copy happens at most once, exactly when the sentinel is set |
| Cmd.ProcessKeeps | cmd/cmd.go:65-106 | one entry keeps that invariant and only appends to the log and the `seen` set |
| Cmd.SeenSkipped | cmd/cmd.go:67-69 | an entry whose key was already seen writes nothing and copies nothing |
| Cmd.ReportEntry | cmd/cmd.go:72-78 | a new entry appends the header, the license bytes and the separator to the report; a read failure leaves only the header and stops the run |
| Cmd.CategoryDispatch | cmd/cmd.go:79-105 | `reciprocal` copies the sources to `thirdparty/<name>`, and a copy error stops the run; a non-LGPL `restricted` license stops the run, naming the module, after its report entry; any other category copies nothing |
| Cmd.LgplOnce | cmd/cmd.go:85-101 | an LGPL license copies to `thirdparty` and asks for the module information every time; when that query fails the run stops with the sentinel unset, otherwise the `firstparty` copy happens only while the sentinel is unset, and the sentinel is set afterwards |
| Cmd.NoLicenseContinues | cmd/cmd.go:57-60 | a module without a detected license is passed over and the run continues |
| Cmd.ClassifyErrorAborts | cmd/cmd.go:61-63 | any other classification error ends the run at once |
| Cmd.Compliance.Process | cmd/cmd.go:65-106 | one iteration of the inner loop updates `seen` and the log as the specification of one entry gives |
| Cmd.Compliance.Run | cmd/cmd.go:39-109 | the command's nested loops end with the state and error of the specification of the whole run |

## Left out

- Confidence scores are integers. The code only compares them with `>` and starts from 0, so the `float32` representation does not matter.
- Strings are sequences of characters. UTF-8 and the bytes of file contents (`[]byte`) outside the filesystem model are not distinguished from text.
- `filepath.Join` is modelled as joining with `/`, without the `Clean` step that removes `.`, `..` and doubled separators.
- `fmt.Errorf` messages and wrapping are modelled as structured error values, not as text.
- Symbolic-link targets are parsed component lists. Empty components and trailing slashes in link text are not modelled.
- Permissions, umask and `EPERM`/`EACCES` denials are not modelled. The `NAME_MAX` limit on one component is not modelled either.
- The `syscall.Stat_t` assertion (`pkg/dirutil/dirutil.go:26-29`) always succeeds on the modelled filesystem.
- Closing files (`defer out.Close()`, `defer in.Close()`) is not modelled. `io.Copy` is a whole-file read.
- `ReadString` on a `bytes.Buffer` returns no error other than `io.EOF`, so the error return at `pkg/module/list.go:54-56` cannot happen and is omitted.
- The `go` subprocess environment and working directory (`GOPATH`, `GOCACHE`, `PATH`) are not modelled. The subprocess is an oracle of its arguments.
- JSON decoding of `go list` output is an oracle.
- In the command, `s.Init`, `s.ListAll`, `s.GoModInfo` and the creation of `LICENSES.txt` are oracles. Their definitions are not part of this model.
- Cmd.Compliance.Run: directory copies in the command are logged actions, and their outcomes come from an oracle that sees everything done before. The model does not run `DirUtil.CopyDirectory` on a shared filesystem, and it does not model `os.MkdirAll` beyond logging it, because the code ignores its error.
- Console output (`fmt.Printf`, logging) and the deferred `s.Cleanup()` are left out.
- The analysis of candidate files in `pkg/license/classify.go:31-32` only logs its result, so it is not modelled.
- `pkg/checker/state.go`, `pkg/checker/util.go`, `pkg/module/module.go`, `init.go`, `cleanup.go`, `download.go`, `license.go`, `dependencies.go`, `util.go` and `pkg/dependencies/*` are not part of this model. They hold subprocess, temporary-directory and logging plumbing.
- The command-line wiring (`cmd/cmd.go:113-131`) and the other commands are not part of this model.
- Concurrency is not modelled: the program is sequential.
