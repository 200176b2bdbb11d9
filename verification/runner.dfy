/** The processor runner without the processing itself: the exit code of
    each way a run can end, the printing of stack traces and the dask
    scheduler settings. */
module Runner {
  import opened Wrappers
  import opened Values
  import ExitCodes

  /** The exceptions the runner tells apart; a subclass (`FileNotFoundError`,
      `RecursionError`, ...) is represented by the class its handler names. */
  datatype Exception =
    | ArgumentError
    | AssertionError
    | KeyboardInterrupt
    | MemoryError
    | OSError
    | RuntimeError
    | SystemError
    | SystemExit(code: Value)
    | OtherException       // any other subclass of `Exception`
    | OtherBaseException   // a `BaseException` that is not an `Exception`

  /** How `run` ends: it returns an exit code, or an exception escapes it. */
  datatype Outcome = Exit(code: int) | Escapes

  /** Python's `code > 0` of a `SystemExit` code; None for the `TypeError`
      raised on a code that is no number. */
  function Positive(code: Value): (r: Option<bool>)
    ensures r.Some? <==> IsNumber(code)
    ensures r.Some? ==> (r.value <==> NumberOf(code) > 0.0)
  {
    match code
    case Bool(b) => Some(b)
    case Int(i) => Some(i > 0)
    case Num(x) => Some(x > 0.0)
    case _ => None
  }

  /** The `except` clauses of `Runner.run`, in order; `None` is a run
      without exception. */
  function ExitCodeOf(e: Option<Exception>): (r: Outcome)
    ensures e.None? ==> r == Exit(ExitCodes.Success)
  {
    match e
    case None => Exit(ExitCodes.Success)
    case Some(ex) =>
      match ex
      case ArgumentError => Exit(ExitCodes.FailureArgumentError)
      case AssertionError => Exit(ExitCodes.FailureAssertion)
      case KeyboardInterrupt => Exit(ExitCodes.FailureKeyboardInterrupt)
      case MemoryError => Exit(ExitCodes.FailureKeyboardInterrupt)
      case OSError => Exit(ExitCodes.FailureOsError)
      case RuntimeError => Exit(ExitCodes.FailureRuntimeError)
      case SystemError => Exit(ExitCodes.FailureSystemError)
      case SystemExit(code) =>
        (match Positive(code)
         case None => Escapes
         case Some(p) => Exit(if p then ExitCodes.FailureSystemExit else ExitCodes.Success))
      case OtherException => Exit(ExitCodes.FailureUnspecific)
      case OtherBaseException => Escapes
  }

  /** The exit code of each way a run can end, as the numbers a shell sees. */
  lemma ExitCodeTable(code: Value)
    ensures ExitCodeOf(None) == Exit(0)
    ensures ExitCodeOf(Some(ArgumentError)) == Exit(128)
    ensures ExitCodeOf(Some(AssertionError)) == Exit(129)
    ensures ExitCodeOf(Some(KeyboardInterrupt)) == Exit(130)
    ensures ExitCodeOf(Some(MemoryError)) == Exit(130)
    ensures ExitCodeOf(Some(OSError)) == Exit(132)
    ensures ExitCodeOf(Some(RuntimeError)) == Exit(133)
    ensures ExitCodeOf(Some(SystemError)) == Exit(134)
    ensures IsNumber(code) && NumberOf(code) > 0.0 ==> ExitCodeOf(Some(SystemExit(code))) == Exit(135)
    ensures IsNumber(code) && NumberOf(code) <= 0.0 ==> ExitCodeOf(Some(SystemExit(code))) == Exit(0)
    ensures !IsNumber(code) ==> ExitCodeOf(Some(SystemExit(code))) == Escapes
    ensures ExitCodeOf(Some(OtherException)) == Exit(255)
    ensures ExitCodeOf(Some(OtherBaseException)) == Escapes
  {
  }

  /** A run succeeds exactly without exception or on a `SystemExit` whose
      code is not positive (as after `--help` and `--version`). */
  lemma SuccessExactly(e: Option<Exception>)
    ensures ExitCodeOf(e) == Exit(ExitCodes.Success) <==>
              e.None? || (e.value.SystemExit? && IsNumber(e.value.code) && NumberOf(e.value.code) <= 0.0)
  {
  }

  /** Every outcome is a declared code, and the memory error code is never
      returned: a memory error counts as a keyboard interrupt. */
  lemma CodesAreDeclared(e: Option<Exception>)
    ensures ExitCodeOf(e).Exit? ==>
              ExitCodeOf(e).code == ExitCodes.Success || ExitCodeOf(e).code in ExitCodes.Failures
    ensures ExitCodeOf(e) != Exit(ExitCodes.FailureMemoryError)
    ensures ExitCodeOf(Some(MemoryError)) == ExitCodeOf(Some(KeyboardInterrupt))
  {
  }

  /** An exception escapes exactly when it is no `Exception`, or a
      `SystemExit` whose code cannot be compared with 0 (such as `None`). */
  lemma EscapesExactly(e: Option<Exception>)
    ensures ExitCodeOf(e) == Escapes <==>
              e.Some? && (e.value.OtherBaseException? || (e.value.SystemExit? && !IsNumber(e.value.code)))
  {
  }

  /** What `args` is when a handler runs: the parsed namespace, or still
      the raw argument list when parsing did not complete. */
  datatype ArgsSeen = Unparsed | Parsed(stackTraces: Value)

  /** `Runner._report_stack_traces`: only a namespace whose `stack_traces`
      is the object `True` prints them. */
  predicate ReportsStackTraces(args: ArgsSeen) {
    args.Parsed? && args.stackTraces == Bool(true)
  }

  /** Whether a failed run prints the stack trace: every handler that sets
      a failure code reports, the others do not. */
  predicate PrintsStackTrace(e: Option<Exception>, args: ArgsSeen) {
    ExitCodeOf(e).Exit? && ExitCodeOf(e).code != ExitCodes.Success && ReportsStackTraces(args)
  }

  /** A truthy value other than `True` does not print stack traces, nor does
      a run that failed before its arguments were parsed. */
  lemma StackTracesNeedTrue(e: Option<Exception>)
    ensures !PrintsStackTrace(e, Parsed(Int(1))) && !PrintsStackTrace(e, Parsed(Str("true")))
    ensures !PrintsStackTrace(e, Unparsed)
    ensures PrintsStackTrace(Some(OSError), Parsed(Bool(true)))
  {
  }

  /** The dask settings `_init_dask` makes. */
  datatype DaskSettings = DaskSettings(scheduler: Option<string>, numWorkers: Option<int>, mode: Value)

  /** `Runner._init_dask` for the `prof`, `mode` and `workers` arguments. */
  function InitDask(prof: Value, mode: Value, workers: Value): (r: DaskSettings)
    ensures r.mode == if prof != Null then Str("synchronous") else mode
    ensures r.scheduler.Some? <==> r.mode in {Str("synchronous"), Str("multithreading")}
    ensures r.numWorkers.Some? <==> r.mode == Str("multithreading") && IsInt(workers)
  {
    var m := if prof != Null then Str("synchronous") else mode;
    if m == Str("synchronous") then DaskSettings(Some("synchronous"), None, m)
    else if m == Str("multithreading") then
      DaskSettings(Some("threads"), if IsInt(workers) then Some(IntOf(workers)) else None, m)
    else DaskSettings(None, None, m)
  }

  /** Profiling forces the synchronous scheduler and ignores the workers. */
  lemma ProfilingIsSynchronous(prof: Value, mode: Value, workers: Value)
    requires prof != Null
    ensures InitDask(prof, mode, workers) == DaskSettings(Some("synchronous"), None, Str("synchronous"))
  {
  }

  /** In multithreading mode, an integer worker count is applied, and any
      other value leaves dask's default. */
  lemma WorkersInMultithreading(mode: Value, workers: Value)
    requires mode == Str("multithreading")
    ensures InitDask(Null, mode, workers).scheduler == Some("threads")
    ensures InitDask(Null, mode, workers).numWorkers == if IsInt(workers) then Some(IntOf(workers)) else None
  {
  }
}
