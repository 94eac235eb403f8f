# Multi-threaded file search, modelled in Dafny

`MultiThreadedFileSearch` walks a folder and collects every regular file whose
name ends with `.txt`. It submits one `FileSearchTask` per file to a fixed
thread pool, then prints the absolute path of each file that has a line
containing the search string. This project models the three sequential pieces
that decide which paths are printed, and in what order:

- **Per-file scan** (`Scan`). `FileSearchTask.call` reads lines through a
  `LineReader`, a small class that stands for the `BufferedReader`. It stops
  at the first line that contains the search string (`String.contains`). It
  returns `[]` or `[path]`. An `IOException` is caught inside `call`, so an
  unreadable file answers `[]`; the `readError` result says when the source
  prints "Error reading file".
- **Enumeration** (`FileTree`). `getTxtFiles` walks a directory tree that is
  an ordinary value. A regular file has a name, an absolute path and a
  `Content`: the lines `readLine` delivers, then either end of stream or an
  `IOException`. A directory has a `Listing`, which is `Unlistable` when
  `listFiles` returns null. Anything else is `Other`. `GetTxtFiles` is proved
  equal to a separate reference: the pre-order list of all nodes, filtered to
  `.txt` regular files.
- **Collection** (`Collector`, `FileSearch`). The futures are the sequence of
  their outcomes in submission order: `Success(list)`, or `Failure(message)`
  for an exception `call` did not catch. `CollectResults` concatenates the
  successful lists and reports the failures. The collector awaits the futures
  in submission order, so the result depends only on that sequence and not on
  the order in which tasks finish. `SearchFolder` runs the whole pipeline:
  enumerate, run one task per file, collect.

`Text` holds `String.contains` and `String.endsWith`. `Wrappers` holds `Option`.

Two behaviours of the code are worth stating outright:

- An unreadable file does not fail its task. `call` catches the
  `IOException` (MultiThreadedFileSearch.java:36) and returns its list, so the
  answer is empty. A match found before a later read error is still reported
  (`Scan.Call`).
- An empty search string is accepted, and `"".contains` is true of every
  line, so it matches exactly the files with at least one line
  (`Scan.EmptyTermMatchesNonEmptyFiles`).

## Model

| member | source | states |
|---|---|---|
| `Text.ContainsIffOccurs` | MultiThreadedFileSearch.java:31 | `Contains(line, term)` holds exactly when `term` occurs in `line` at some position. |
| `Text.EmptyTermAlwaysContained` | MultiThreadedFileSearch.java:31 | The empty search string is contained in every line, the empty line included. |
| `Text.EndsWithIffSplit` | MultiThreadedFileSearch.java:48 | `EndsWith(name, suffix)` holds exactly when `name` is some prefix followed by `suffix`. |
| `FileTree.GetTxtFiles` | MultiThreadedFileSearch.java:43-56 | The loop's result equals the pre-order list of nodes below the folder, reached through listable directories, filtered to regular files whose name ends in `.txt`. It is `[]` for a non-directory or an unlistable directory. |
| `FileTree.TxtFilesIsFilteredPreorder` | MultiThreadedFileSearch.java:45-55 | getTxtFiles equals the filtered pre-order traversal. Siblings keep listing order and each subdirectory comes at its own position. |
| `FileTree.TxtFilesCountedPerOccurrence` | MultiThreadedFileSearch.java:47-52 | A file is returned if and only if it is a reachable regular file named `*.txt`. It is returned once per occurrence in the tree, and never if its name lacks the suffix. |
| `FileTree.UnlistableDirContributesNothing` | MultiThreadedFileSearch.java:45-55 | A directory whose listing is null contributes `[]`, and its siblings' contributions are unchanged. |
| `FileTree.SubdirectorySplicedInPlace` | MultiThreadedFileSearch.java:47-51 | A subdirectory's `.txt` files are spliced in at that directory's position among its siblings. |
| `Scan.LineReader.constructor` | MultiThreadedFileSearch.java:28 | A reader opened on a file starts before its first line. |
| `Scan.LineReader.ReadLine` | MultiThreadedFileSearch.java:30 | It returns the next line and advances. At the end it returns null or the IOException, again on every later call. |
| `Scan.FirstMatch` | MultiThreadedFileSearch.java:30-33 | The index of the first line containing the term (no earlier line contains it), or the number of lines when none does. |
| `Scan.SearchResult` | MultiThreadedFileSearch.java:27-39 | The task's list has at most one element. It is non-empty exactly when some line contains the term, and then it is `[path]`. |
| `Scan.Call` | MultiThreadedFileSearch.java:26-40 | The loop returns `SearchResult`. It consumes exactly first-match index + 1 lines, or all lines when none match. It reports a read error exactly when no line matched and the stream ended in an IOException. |
| `Scan.NoLinesNoMatch` | MultiThreadedFileSearch.java:30 | A file with no lines never matches, whatever the search string. |
| `Scan.EmptyTermMatchesNonEmptyFiles` | MultiThreadedFileSearch.java:30-32 | With the empty search string, a file matches exactly when it has at least one line. |
| `Scan.ReadErrorDoesNotChangeAnswer` | MultiThreadedFileSearch.java:28-39 | Whether the stream ends in an IOException or normally, the task returns the same list: only the lines read before the error decide it. |
| `Collector.FlattenMembership` | MultiThreadedFileSearch.java:88-94 | A path is in the result exactly when some successful future's list holds it. |
| `Collector.FlattenLength` | MultiThreadedFileSearch.java:87-94 | When every successful future holds at most one path, the result has at most one path per future. |
| `Collector.CollectResults` | MultiThreadedFileSearch.java:87-94 | The result is the successful lists concatenated in submission order. Failed futures add nothing, and their messages are reported in order. |
| `FileSearch.RunTasks` | MultiThreadedFileSearch.java:83-85 | One future per enumerated file, in enumeration order, each holding that file's task result. |
| `FileSearch.CollectedIsMatchingSurvivors` | MultiThreadedFileSearch.java:83-94 | For any outcomes consistent with the tasks, the result is exactly the matching paths of the files whose task did not fail, in enumeration order. |
| `FileSearch.CollectedIsMatchingFiles` | MultiThreadedFileSearch.java:83-94 | With no failed task, the result is exactly the paths of the files having a line that contains the term, in enumeration order. |
| `FileSearch.CollectedAtMostOnePerFile` | MultiThreadedFileSearch.java:87-94 | The result is never longer than the number of files. |
| `FileSearch.MatchingPathsMembership` | MultiThreadedFileSearch.java:31-32 | A path is among the matching paths exactly when some file with that path has a line containing the term. |
| `FileSearch.SearchFolder` | MultiThreadedFileSearch.java:67-94 | No result when the folder is not a directory. Otherwise the printed list is the matching paths of the enumerated `.txt` files, in enumeration order, at most one per file. |
| `FileSearch.ReportedIffMatchingTxtFile` | MultiThreadedFileSearch.java:75-94 | A path is reported exactly when it belongs to a reachable `.txt` regular file with a line containing the search string, among the lines read before any read error. There are no false positives and no false negatives in that sense. |
| `FileSearch.HelloScenario` | MultiThreadedFileSearch.java:75-94 | Take a.txt "hello world", b.txt "goodbye" and c/d.txt "say hello", and search for "hello". The result is a.txt, then c/d.txt. |

## Left out

- The thread pool: `newFixedThreadPool`, `submit`, blocking `Future.get`, `shutdown`, `awaitTermination` with its 60-second timeout, and `shutdownNow`. `RunTasks` runs the tasks one after the other. The tasks share no state, so each gets the value it would get on the pool. Only an exception thrown by `call()` becomes a `Failure` outcome (an `ExecutionException` at line 91). No modelled code produces one; the `Resolves` lemmas cover them. An interrupt of the collecting thread in `future.get()`, or a `CancellationException`, is not caught at line 91 and aborts `main` with no result printed; the model does not represent that.
- The order in which tasks complete is not represented. Only the submission-ordered sequence of outcomes exists, because that is all the collector reads.
- `Runtime.availableProcessors` and the printed thread count: environment queries.
- `System.currentTimeMillis` and the printed execution time: clock access.
- All console output. Diagnostics become values (`readError`, the `diagnostics` list), and the printed result is the returned list.
- The argument-count check and usage message (`args.length < 2`). The folder-is-a-directory check is modelled in `SearchFolder`.
- Real file-system calls: `listFiles`, `isFile`, `isDirectory`, `getAbsolutePath`, opening a `FileReader`. The tree is a value, and the absolute path is a string stored with each file. A file that cannot be opened is `Content([], true)`.
- `readLine`'s splitting of text at line terminators. A file is its sequence of lines.
- A failure of `close()` at the end of the try-with-resources. It is caught like any IOException and leaves the returned list unchanged.
- Java strings are UTF-16 code units; here a string is a sequence of Dafny characters. `contains` and `endsWith` compare the same way on both as long as no surrogate pair is split.
- Symbolic-link cycles: the tree is a finite value, so a cyclic file system cannot be represented. The source follows symbolic links in `isDirectory` and `listFiles` only up to the operating system's limit on links followed during one lookup, so on such a cycle its recursion is bounded by that limit and the files in the cycle are listed once per level; the model does not capture this.
