/** The outcome logic of `inside_fork`: the child folds "returned" and
    "raised" into one value, ships it to the parent, and the parent raises it
    when it is an exception object and returns it otherwise. */
module Fork {
  import opened Values

  /** How the job ran in the child: it returned a value or raised. */
  datatype JobRun = Returned(value: Value) | Raised(error: Exception)

  /** What the caller of `inside_fork` sees. */
  datatype Outcome = Return(value: Value) | Raise(error: Exception)

  /** What calling the job in the caller's own process would give. */
  function Direct(run: JobRun): Outcome {
    match run
    case Returned(v) => Return(v)
    case Raised(e) => Raise(e)
  }

  /** The child's `rv`: the job's return value, or the exception it raised
      (every Exception is rescued). The two cases share one value, so a
      returned exception object looks like a raised one. */
  function ChildValue(run: JobRun): Value {
    match run
    case Returned(v) => v
    case Raised(e) => ExceptionObject(e)
  }

  /** The parent's decision on the decoded value. */
  function ParentOutcome(rv: Value): Outcome {
    if rv.ExceptionObject? then Raise(rv.error) else Return(rv)
  }

  /** The Marshal and Base64 transport through the pipe gives back what was
      sent. */
  ghost predicate RoundTrips(dump: Value -> string, load: string -> Value) {
    forall v :: load(dump(v)) == v
  }

  /** `inside_fork` without the process: the child's value goes through
      `dump` (Marshal.dump then pack('m')) and `load` (unpack('m') then
      Marshal.load), and the parent decides. Whatever the transport does, the
      caller is never handed an exception object as a return value. */
  function InsideFork(run: JobRun, dump: Value -> string, load: string -> Value): (r: Outcome)
    ensures r.Return? ==> !r.value.ExceptionObject?
    ensures r.Raise? <==> load(dump(ChildValue(run))).ExceptionObject?
  {
    ParentOutcome(load(dump(ChildValue(run))))
  }

  /** A job that returns something other than an exception object returns the
      same value to the caller. */
  lemma ReturnedValueDelivered(run: JobRun, dump: Value -> string, load: string -> Value)
    requires RoundTrips(dump, load)
    requires run.Returned? && !run.value.ExceptionObject?
    ensures InsideFork(run, dump, load) == Return(run.value)
  {
  }

  /** Any exception the job raises is raised again in the caller. */
  lemma RaisedReraised(run: JobRun, dump: Value -> string, load: string -> Value)
    requires RoundTrips(dump, load)
    requires run.Raised?
    ensures InsideFork(run, dump, load) == Raise(run.error)
  {
  }

  /** A job that returns an exception object has it raised in the caller. */
  lemma ReturnedExceptionRaised(e: Exception, dump: Value -> string, load: string -> Value)
    requires RoundTrips(dump, load)
    ensures InsideFork(Returned(ExceptionObject(e)), dump, load) == Raise(e)
  {
  }

  /** Running in the fork is indistinguishable from running in process
      exactly when the job does not return an exception object. */
  lemma ForkMatchesDirect(run: JobRun, dump: Value -> string, load: string -> Value)
    requires RoundTrips(dump, load)
    ensures InsideFork(run, dump, load) == Direct(run)
        <==> !(run.Returned? && run.value.ExceptionObject?)
  {
  }
}
