/**
 * The notebook run controller (`run_notebook`): check that the notebook is
 * there, read it, execute it, write it back whenever it was read, and turn
 * the whole attempt into one pass/fail verdict.
 *
 * The file system, the document codec and the execution engine are inputs:
 * a `NotebookIO` says what each of them does during this one run.
 */
module Controller {
  import opened Wrappers
  import opened Types
  import opened Paths

  /** How the engine's run over the document ended. */
  datatype ExecOutcome =
    | Completed
      /** A cell raised (`CellExecutionError`); the message is the exception's text. */
    | CellError(cellIndex: nat, message: string)
      /** Any other exception while setting up or running the engine. */
    | OtherError(message: string)

  /** The document as the engine left it (partially executed on a fault) and how it ended. */
  datatype Execution = Execution(after: Notebook, outcome: ExecOutcome)

  datatype SaveOutcome = Saved | SaveFailed(message: string)

  /**
   * What the outside world does during one run: whether the path exists,
   * what reading and parsing it yields, what the engine makes of the
   * document given the working directory, and whether writing it back works.
   */
  datatype NotebookIO = NotebookIO(
    onDisk: bool,
    read: Result<Notebook>,
    engine: (Notebook, string) -> Execution,
    save: SaveOutcome)

  /** Why a run failed. */
  datatype Fault =
    | NotFound
    | ExecutionFault(cellIndex: nat, message: string)
    | PersistenceFault(message: string)
    | UnclassifiedFault(message: string)

  datatype RunVerdict = Succeeded | Failed(reason: Fault)

  /**
   * What a run did besides returning its verdict: whether it read the file,
   * the document it handed to the writer (if any), and the lines it logged.
   */
  datatype RunRecord = RunRecord(logFile: string, readAttempted: bool, saveAttempt: Option<Notebook>, log: seq<LogLine>)

  /** The working directory the engine is given: the notebook's own directory. */
  function WorkingDir(path: string): string {
    Dirname(path)
  }

  /** What the engine does to the document read from `path`. */
  function ExecutionOf(path: string, io: NotebookIO): Execution
    requires io.read.Success?
  {
    io.engine(io.read.value, WorkingDir(path))
  }

  /**
   * The verdict of a run, classified: a missing file, a read that raised, a
   * write-back that failed (whatever execution did), a cell that raised, or
   * another exception during execution.
   */
  function Verdict(path: string, io: NotebookIO): RunVerdict {
    if !io.onDisk then Failed(NotFound)
    else if io.read.Failure? then Failed(UnclassifiedFault(io.read.message))
    else if io.save.SaveFailed? then Failed(PersistenceFault(io.save.message))
    else match ExecutionOf(path, io).outcome
      case Completed => Succeeded
      case CellError(i, m) => Failed(ExecutionFault(i, m))
      case OtherError(m) => Failed(UnclassifiedFault(m))
  }

  /** The document written back: the executed one, whenever the file was there and was read. */
  function SaveTarget(path: string, io: NotebookIO): Option<Notebook> {
    if io.onDisk && io.read.Success? then Some(ExecutionOf(path, io).after) else None
  }

  // The lines run_notebook logs, one function per message.

  function StartLine(path: string): LogLine {
    LogLine(Info, "Starting execution of " + path + "...")
  }

  function LogFileLine(logFile: string): LogLine {
    LogLine(Info, "Logs are being saved to " + logFile)
  }

  function NotFoundLine(path: string): LogLine {
    LogLine(Error, "Notebook not found at " + path)
  }

  function FinishedLine(path: string): LogLine {
    LogLine(Info, "Successfully finished " + path)
  }

  function CellErrorLines(path: string, message: string): seq<LogLine> {
    [LogLine(Error, "Error executing cell in " + path + ":"), LogLine(Error, message)]
  }

  function OtherErrorLines(path: string, message: string): seq<LogLine> {
    [LogLine(Error, "An error occurred while running " + path + ":"), LogLine(Error, message)]
  }

  function SavedLine(path: string): LogLine {
    LogLine(Info, "Notebook saved to " + path)
  }

  function SaveFailedLine(path: string, message: string): LogLine {
    LogLine(Error, "Failed to save notebook " + path + ": " + message)
  }

  /** The lines of the read-and-execute phase. */
  function AttemptLines(path: string, io: NotebookIO): seq<LogLine> {
    if io.read.Failure? then OtherErrorLines(path, io.read.message)
    else match ExecutionOf(path, io).outcome
      case Completed => [FinishedLine(path)]
      case CellError(_, m) => CellErrorLines(path, m)
      case OtherError(m) => OtherErrorLines(path, m)
  }

  /** The lines of the write-back phase, which only a document that was read has. */
  function SaveLines(path: string, io: NotebookIO): seq<LogLine> {
    if io.read.Failure? then []
    else if io.save.Saved? then [SavedLine(path)]
    else [SaveFailedLine(path, io.save.message)]
  }

  /** Everything a run logs, in order, when its session logs to `logFile`. */
  function RunLog(path: string, logFile: string, io: NotebookIO): seq<LogLine> {
    [StartLine(path), LogFileLine(logFile)] +
    if !io.onDisk then [NotFoundLine(path)] else AttemptLines(path, io) + SaveLines(path, io)
  }

  /**
   * setup_logger: opens the session's log file (wiring the handlers is not
   * modelled) and returns its path: `logs/<name>_<timestamp>.log`, unless the
   * name itself starts with a separator, in which case os.path.join drops the
   * log directory.
   */
  method SetupLogger(name: string, timestamp: string) returns (logFile: string)
    ensures (name == [] || name[0] != SEP) ==> logFile == LOG_DIR + "/" + name + "_" + timestamp + ".log"
    ensures name != [] && name[0] == SEP ==> logFile == name + "_" + timestamp + ".log"
    ensures logFile == LogFilePath(name, timestamp)
  {
    logFile := LogFilePath(name, timestamp);
    if name == [] || name[0] != SEP {
      LogFilePathIsInLogDir(name, timestamp);
    }
  }

  /**
   * The try block of run_notebook: read the document, run the engine over it,
   * and log how that ended. `nb` is the document once read (as the engine
   * left it); `executionFailed` is set by both except clauses alike.
   */
  method ReadAndExecute(path: string, io: NotebookIO) returns (nb: Option<Notebook>, executionFailed: bool, lines: seq<LogLine>)
    ensures nb.Some? <==> io.read.Success?
    ensures nb.Some? ==> nb.value == ExecutionOf(path, io).after
    ensures executionFailed <==> io.read.Failure? || ExecutionOf(path, io).outcome != Completed
    ensures lines == AttemptLines(path, io)
  {
    nb := None;
    executionFailed := false;
    match io.read {
      case Failure(e) =>
        lines := OtherErrorLines(path, e);
        executionFailed := true;
      case Success(doc) =>
        var execution := io.engine(doc, WorkingDir(path));
        nb := Some(execution.after);
        match execution.outcome {
          case Completed =>
            lines := [FinishedLine(path)];
          case CellError(_, e) =>
            lines := CellErrorLines(path, e);
            executionFailed := true;
          case OtherError(e) =>
            lines := OtherErrorLines(path, e);
            executionFailed := true;
        }
    }
  }

  /**
   * The write-back of run_notebook, reached only with a document that was
   * read: write it, and log whether that worked.
   */
  method WriteBack(path: string, io: NotebookIO) returns (saved: bool, lines: seq<LogLine>)
    requires io.read.Success?
    ensures saved <==> io.save.Saved?
    ensures lines == SaveLines(path, io)
    ensures |lines| == 1 && (lines[0].level == Error <==> !saved)
  {
    match io.save {
      case Saved =>
        saved, lines := true, [SavedLine(path)];
      case SaveFailed(e) =>
        saved, lines := false, [SaveFailedLine(path, e)];
    }
  }

  /**
   * What run_notebook does once the file is known to exist: read and
   * execute it, write back whatever document was read, and decide the
   * verdict (a failed write-back returns False at once).
   */
  method ReadExecuteSave(path: string, io: NotebookIO) returns (ok: bool, nb: Option<Notebook>, lines: seq<LogLine>)
    requires io.onDisk
    ensures ok <==> Verdict(path, io).Succeeded?
    ensures nb == SaveTarget(path, io)
    ensures lines == AttemptLines(path, io) + SaveLines(path, io)
  {
    var executionFailed;
    nb, executionFailed, lines := ReadAndExecute(path, io);
    if nb.Some? {
      var saved, saveLines := WriteBack(path, io);
      lines := lines + saveLines;
      if !saved {
        return false, nb, lines;
      }
    }
    ok := !executionFailed;
  }

  /**
   * Runs the notebook at `path`. The verdict is true exactly when the run
   * succeeded; the file is read exactly when it exists; the executed
   * document is written back exactly when it was read.
   */
  method RunNotebook(path: string, timestamp: string, io: NotebookIO) returns (ok: bool, rec: RunRecord)
    ensures ok <==> Verdict(path, io).Succeeded?
    ensures rec.readAttempted == io.onDisk
    ensures rec.saveAttempt == SaveTarget(path, io)
    ensures rec.logFile == LogFilePath(SessionName(path), timestamp)
    ensures rec.log == RunLog(path, rec.logFile, io)
  {
    var logFile := SetupLogger(SessionName(path), timestamp);
    var log := [StartLine(path), LogFileLine(logFile)];
    if !io.onDisk {
      log := log + [NotFoundLine(path)];
      return false, RunRecord(logFile, false, None, log);
    }
    var nb, lines;
    ok, nb, lines := ReadExecuteSave(path, io);
    rec := RunRecord(logFile, true, nb, log + lines);
  }

  /** A run succeeds exactly when the file exists, reads, executes without raising and saves. */
  lemma SucceededIff(path: string, io: NotebookIO)
    ensures Verdict(path, io).Succeeded? <==>
      io.onDisk && io.read.Success? && ExecutionOf(path, io).outcome == Completed && io.save == Saved
  {
  }

  /** A missing notebook fails with nothing read and nothing written. */
  lemma MissingNotebookTouchesNothing(path: string, logFile: string, io: NotebookIO)
    requires !io.onDisk
    ensures Verdict(path, io) == Failed(NotFound)
    ensures SaveTarget(path, io) == None
    ensures RunLog(path, logFile, io) == [StartLine(path), LogFileLine(logFile), NotFoundLine(path)]
  {
  }

  /**
   * The document is written back exactly when it was read, whatever the
   * engine did, and what is written is the document as the engine left it.
   */
  lemma SavedExactlyWhenRead(path: string, io: NotebookIO)
    ensures SaveTarget(path, io).Some? <==> io.onDisk && io.read.Success?
    ensures SaveTarget(path, io).Some? ==> SaveTarget(path, io).value == ExecutionOf(path, io).after
  {
  }

  /**
   * A cell error and any other exception are interchangeable: two runs that
   * differ only in which kind of fault the engine raised both fail and
   * write back the same document.
   */
  lemma FaultKindsAgree(path: string, io1: NotebookIO, io2: NotebookIO)
    requires io1.onDisk == io2.onDisk && io1.read == io2.read && io1.save == io2.save
    requires io1.read.Success? ==>
      ExecutionOf(path, io1).after == ExecutionOf(path, io2).after &&
      ExecutionOf(path, io1).outcome != Completed && ExecutionOf(path, io2).outcome != Completed
    ensures !Verdict(path, io1).Succeeded? && !Verdict(path, io2).Succeeded?
    ensures SaveTarget(path, io1) == SaveTarget(path, io2)
  {
  }

  /** A failed write-back fails the run even when every cell executed. */
  lemma SaveFailureOverrides(path: string, io: NotebookIO)
    requires io.onDisk && io.read.Success? && io.save.SaveFailed?
    ensures Verdict(path, io) == Failed(PersistenceFault(io.save.message))
  {
  }

  /** A run failed exactly when it logged at least one error. */
  lemma {:induction false} FailureIsLogged(path: string, logFile: string, io: NotebookIO)
    ensures Verdict(path, io).Succeeded? <==>
      forall k :: 0 <= k < |RunLog(path, logFile, io)| ==> RunLog(path, logFile, io)[k].level == Info
  {
    var log := RunLog(path, logFile, io);
    if !Verdict(path, io).Succeeded? {
      var k: nat;
      if !io.onDisk {
        k := 2;
      } else if io.read.Failure? {
        k := 2;
      } else if io.save.SaveFailed? {
        k := |log| - 1;
      } else {
        k := 2;
      }
      assert log[k].level == Error;
    }
  }

  /**
   * A failed write-back is the last thing logged, with its own message; when
   * execution completed it is the only error in the log.
   */
  lemma PersistenceFaultIsLoggedLast(path: string, logFile: string, io: NotebookIO, message: string)
    requires Verdict(path, io) == Failed(PersistenceFault(message))
    ensures var log := RunLog(path, logFile, io);
      log[|log| - 1] == SaveFailedLine(path, message)
    ensures var log := RunLog(path, logFile, io);
      ExecutionOf(path, io).outcome == Completed ==>
        forall k :: 0 <= k < |log| - 1 ==> log[k].level == Info
  {
  }
}
