# Sequential notebook scheduler, modelled in Dafny

This project models the core of a sequential notebook batch runner. That core
is `scheduler.py`, which has three parts:

- **Notebook run controller** (`run_notebook`). It checks that the notebook
  exists, reads it, executes it, writes the (possibly partially executed)
  document back whenever it was read, and returns one pass/fail verdict.
- **Batch scheduler** (`main`). It runs the notebooks of the command line, or a
  fixed default list, in order. It stops with exit status 1 at the first
  notebook that fails and ends with status 0 otherwise.
- **Naming helpers**. These derive the session name from the notebook path,
  the log file path from the session name and a timestamp, and the
  working-directory hint for the engine. The audit hook
  (`LoggingExecutePreprocessor.preprocess_cell`) logs `Executing cell N...`
  before each cell and then hands the cell to the engine unchanged.

The file system, the notebook codec, the execution engine and the clock are
inputs. A `NotebookIO` value says, for one run, four things: whether the path
exists; what reading it yields (`Result`: a document or an exception message);
what the engine makes of the document given the working directory (the
document as left behind, plus `Completed`, `CellError` or `OtherError`); and
whether the write-back succeeds. The batch receives a function `world` from
the run's position to the timestamp and `NotebookIO` that this run meets.

Files:

- `wrappers.dfy`: `Option` and `Result`.
- `types.dfy`: cells, notebooks and log lines.
- `paths.dfy`: Python's POSIX `os.path.basename`, `dirname`, `splitext` and
  `join`, plus the session name and the log file path.
- `audit.dfy`: decimal rendering, the audit message and its parser, and the
  hook.
- `controller.dfy`: `run_notebook` as the method `RunNotebook`, with
  `setup_logger`'s returned path as `SetupLogger`, the part after the
  existence check as `ReadExecuteSave`, its `try` block as `ReadAndExecute`
  and its write-back as `WriteBack`. It is specified by the functions
  `Verdict` (the classification NotFound / ExecutionFault /
  PersistenceFault / UnclassifiedFault), `SaveTarget` and `RunLog`.
- `scheduler.dfy`: `main` as `Schedule`, with the loop as `RunBatch` and one
  iteration's call of the controller as `RunStep`. The positions run, in
  order, are a ghost trace. It is specified by `FirstFailure`, the first
  failing position of the queue.

`run_notebook` returns only a boolean. `Verdict` refines that boolean into
NotFound / ExecutionFault / PersistenceFault / UnclassifiedFault. The code
shows that classification only through the lines it logs, and
`FailureIsLogged` and `PersistenceFaultIsLoggedLast` tie the two together.

## Model

| member | source | states |
|---|---|---|
| `Paths.Basename` | scheduler.py:48 | the base name is the longest separator-free suffix of the path: no `/` in it, a suffix of the path, preceded by `/` or the whole path |
| `Paths.Dirname` | scheduler.py:73 | the working-directory hint is a prefix of the path, only separators lie between it and the base name, and it ends in no separator unless it is all separators, in which case it is everything up to the last separator (`/` for `/b`) |
| `Paths.SplitExt` | scheduler.py:48 | root + extension is the path; a non-empty extension starts with the only dot it holds and has no separator |
| `Paths.SplitExtCharacterized` | scheduler.py:48 | an extension is split off exactly when the last component has a non-dot character before its last dot; otherwise every dot of the component is preceded only by dots (a leading dot starts no extension) |
| `Paths.Join` | scheduler.py:37 | a second component starting with `/` replaces the first; otherwise the result is the first, then the second, with one separator inserted exactly when the first is non-empty and does not already end in `/` |
| `Paths.SessionName` | scheduler.py:48 | the session name holds no separator and is a prefix of the base name |
| `Paths.BasenameAfterSep` | scheduler.py:48 | the base name of `dir/name` is `name` |
| `Paths.SessionNameOfNotebookPath` | scheduler.py:48 | the session name of `dir/stem.ext` is `stem` |
| `Paths.HiddenFileKeepsName` | scheduler.py:48 | a base name of leading dots and dot-free text loses nothing: a leading dot does not start an extension |
| `Paths.DefaultSessionNames` | scheduler.py:48 | the default notebooks' sessions are `test_nb_1` and `test_nb_2` |
| `Paths.LogFilePathIsInLogDir` | scheduler.py:36-37 | for a name not starting with `/`, the log file is `logs/<name>_<timestamp>.log` |
| `Paths.SessionLogFilePath` | scheduler.py:36-37 | every session's log file is `logs/<session name>_<timestamp>.log` |
| `Paths.LogFilePathDeterminesSession` | scheduler.py:36-37 | with fixed-width timestamps, the log file path determines both the session name and the timestamp, so there is one file per (session name, start time); notebooks in different directories with one base name share it |
| `Paths.DirnameOfNotebookPath` | scheduler.py:73 | the engine's working directory for `dir/name` is `dir` |
| `Audit.Decimal` | scheduler.py:16 | the rendering of a number is a canonical numeral (digits, no leading zero), one character long exactly below ten |
| `Audit.DecimalValueOfDecimal` | scheduler.py:16 | reading back a rendered number gives the number |
| `Audit.DecimalOfDecimalValue` | scheduler.py:16 | rendering the value of a canonical numeral gives the numeral back |
| `Audit.ParseAuditMessageOfAuditMessage` | scheduler.py:16 | the audit line for the cell at 0-based position i parses back to i; the line counts cells from one |
| `Audit.AuditMessageOfParseAuditMessage` | scheduler.py:16 | every line that parses as an audit line is the audit line of the cell it names |
| `Audit.AuditMessageInjective` | scheduler.py:16 | distinct cells get distinct audit lines |
| `Audit.PreprocessCell` | scheduler.py:14-17 | the hook logs one informational line naming the cell, and its result is exactly what the engine's own per-cell step makes of the untouched cell and resources |
| `Controller.SetupLogger` | scheduler.py:35-42 | the returned log file is `logs/<name>_<timestamp>.log`, or `<name>_<timestamp>.log` when the name starts with `/` (os.path.join then drops the log directory) |
| `Controller.ReadAndExecute` | scheduler.py:59-84 | a document is held exactly when the read succeeded, and it is the document as the engine left it; the failure flag is set exactly when the read or the execution raised, by either except clause; the lines logged are the phase's lines |
| `Controller.WriteBack` | scheduler.py:86-94 | reached only with a document that was read: it reports success exactly when the write succeeded, logs one line, and that line is an error exactly when the write failed |
| `Controller.ReadExecuteSave` | scheduler.py:59-96 | once the file exists: the verdict is true exactly when `Verdict` is Succeeded, the document written back is `SaveTarget`, and the lines logged are the read-and-execute lines followed by the write-back lines |
| `Controller.RunNotebook` | scheduler.py:44-96 | the verdict is true exactly when `Verdict` is Succeeded; the file is read exactly when it exists; the document written back is `SaveTarget`; the log is `RunLog` for the session's log file |
| `Controller.SucceededIff` | scheduler.py:55-96 | a run succeeds exactly when the file exists, reads, executes with no exception and saves |
| `Controller.MissingNotebookTouchesNothing` | scheduler.py:54-57 | a missing notebook fails with NotFound, nothing is written, and the log ends with the not-found error |
| `Controller.SavedExactlyWhenRead` | scheduler.py:86-91 | the document is written back exactly when the file existed and was read, whatever the engine did, and what is written is the document as the engine left it |
| `Controller.FaultKindsAgree` | scheduler.py:77-84 | a cell error and any other exception are interchangeable: both runs fail and write back the same document |
| `Controller.SaveFailureOverrides` | scheduler.py:92-94 | a failed write-back fails the run with a persistence fault, even when every cell executed |
| `Controller.FailureIsLogged` | scheduler.py:51-96 | a run fails exactly when its log holds an error line |
| `Controller.PersistenceFaultIsLoggedLast` | scheduler.py:92-94 | a failed write-back is the last line logged, with its own message, and the only error when execution completed |
| `Scheduler.BatchQueue` | scheduler.py:105-113 | the batch is never empty: it is the arguments unchanged when there are any, otherwise exactly the two default notebooks in order |
| `Scheduler.FirstFailureFrom` | scheduler.py:118-122 | the first position from i on whose run fails, or the queue's length; every run before it passes |
| `Scheduler.FirstFailure` | scheduler.py:118-122 | the first failing position of the queue, or its length; every run before it passes and the run at it fails |
| `Scheduler.RunStep` | scheduler.py:118-119 | one step of the loop reports success exactly when the controller's run of that notebook passes |
| `Scheduler.RunBatch` | scheduler.py:118-128 | the status is 1 exactly when some run fails; the controller is run on positions 0..k in order, where k is the first failing position, and never after k; with no failure it runs on every position in order and the status is 0 |
| `Scheduler.Schedule` | scheduler.py:100-128 | the same for the batch built from the arguments or the default list |
| `Scheduler.FirstFailureIsUnique` | scheduler.py:118-122 | a position before which every run passes and at which the run fails (or the queue ends) is the first failing position |
| `Scheduler.DefaultBatchOutcomes` | scheduler.py:105-128 | with no arguments, two passing runs mean both default notebooks run; a failing first run stops the batch at position 0 |

## Left out

- Logger wiring is not modelled: the root logger's level, clearing its handlers, and the console and file handlers with their formats (scheduler.py:23-34, 38-41). This is process-wide logging configuration. The log is modelled as the list of lines a run hands to the logger.
- Creating `logs/` at import time (scheduler.py:10-12) is file-system I/O and is not modelled.
- Reading and writing with `open` and `nbformat` are inputs: `onDisk`, `read` and `save`. A write that fails part-way may leave a truncated file, and that is not modelled.
- The execution engine (`ExecutePreprocessor.preprocess`, kernel start-up, `timeout=-1`, the kernel name) is an input function. It returns the document as it left it and how it ended. The cell-by-cell order inside it, and the audit lines it logs through the hook during a run, belong to that library. `RunLog` therefore leaves those audit lines out.
- The engine changes the document in place. The model returns the changed document as a value instead, so aliasing is not modelled.
- `CellError` carries the failing cell's index. The source never reads it.
- `if nb:` tests the truthiness of the parsed document. The model takes it to mean "a document was read", because a parsed version-4 notebook always has keys.
- Exceptions raised outside the `try` are not modelled. These are a failure to create the log file in `setup_logger` and exceptions that are not `Exception`s, such as a keyboard interrupt. Each would escape `run_notebook` and end the process.
- `time.strftime` is replaced by a timestamp parameter.
- Command-line parsing is replaced by the argument list.
- The `print` lines and the "Kernel cleared and resources released." log line are not modelled (scheduler.py:115-116, 121, 125, 127-128).
- `sys.exit(1)` is modelled as the returned exit status 1. Normal completion is status 0.
- Only POSIX path semantics are modelled (`/` as the separator). The Windows `os.path` flavour is not.
