/**
 * The read loop of a stream: registering "data" starts it, each completed read fires "data"
 * and starts the next one, and the end of the stream or an error fires "end".  Listeners may
 * register "data" again at any point, and may destroy the stream while "end" is delivered.
 */
module ReadLoop {
  import opened Common

  datatype Event =
    LoopStarted | Result(bytes: Bytes, finished: bool) | Failed | Data(payload: Bytes) | Reported | End

  /** The listeners the handler is suspended in. */
  datatype Phase = Idle | InData(finished: bool) | InError | InEnd

  datatype Reader = Reader(reading: bool, pending: bool, phase: Phase, closed: bool, log: seq<Event>)

  /** `handle` says whether the native call that starts the next read yields a handle. */
  datatype Step =
    | On(handle: bool)
    | ReadReady(bytes: Bytes, finished: bool, handle: bool)
    | ReadFailed(quiet: bool)
    | Resume(handle: bool)
    | Destroy

  function Init(): Reader { Reader(false, false, Idle, false, []) }

  predicate Enabled(s: Reader, step: Step) {
    match step
    case On(_) => !s.closed
    case ReadReady(_, _, _) => !s.closed && s.pending && s.phase.Idle?
    case ReadFailed(_) => !s.closed && s.pending && s.phase.Idle?
    case Resume(_) => !s.phase.Idle?
    case Destroy => !s.closed && (s.phase.Idle? || s.phase.InEnd?)
  }

  function Log(s: Reader, e: Event): Reader { s.(log := s.log + [e]) }

  function FireEnd(s: Reader): Reader { Log(s.(reading := false, phase := InEnd), End) }

  /** Clear READING and fire "end", or read on. */
  function FinishOrContinue(s: Reader, finished: bool, handle: bool): Reader {
    if finished then FireEnd(s)
    else if handle then s.(phase := Idle, pending := true)
    else s.(phase := Idle, reading := false)
  }

  function Apply(s: Reader, step: Step): Reader
    requires Enabled(s, step)
  {
    match step
    case On(handle) =>
      if s.reading || !handle then s else Log(s.(reading := true, pending := true), LoopStarted)
    case ReadReady(bytes, finished, handle) =>
      var t := Log(s.(pending := false), Result(bytes, finished));
      if bytes != [] then Log(t.(phase := InData(finished)), Data(bytes))
      else FinishOrContinue(t, finished, handle)
    case ReadFailed(quiet) =>
      var t := Log(s.(pending := false), Failed);
      if quiet then FireEnd(t) else Log(t.(phase := InError), Reported)
    case Resume(handle) =>
      (match s.phase
       case InData(finished) => FinishOrContinue(s, finished, handle)
       case InError => FireEnd(s)
       case _ => s.(phase := Idle))
    case Destroy => s.(closed := true, pending := false)
  }

  predicate Valid(s: Reader, run: seq<Step>)
    decreases |run|
  {
    run == [] || (Enabled(s, run[0]) && Valid(Apply(s, run[0]), run[1..]))
  }

  function After(s: Reader, run: seq<Step>): Reader
    requires Valid(s, run)
    decreases |run|
  {
    if run == [] then s else After(Apply(s, run[0]), run[1..])
  }

  // ---------------------------------------------------------------- what the log says

  function Last(log: seq<Event>): Event
    requires log != []
  {
    log[|log| - 1]
  }

  /** The bytes handed to "data" listeners, in order. */
  function Delivered(log: seq<Event>): Bytes {
    if log == [] then []
    else Delivered(log[..|log| - 1]) + if Last(log).Data? then Last(log).payload else []
  }

  /** The bytes of the completed reads, in order. */
  function Received(log: seq<Event>): Bytes {
    if log == [] then []
    else Received(log[..|log| - 1]) + if Last(log).Result? then Last(log).bytes else []
  }

  /** A loop was started and has not fired "end" since. */
  predicate Live(log: seq<Event>) {
    log != [] && (Last(log).LoopStarted? || (!Last(log).End? && Live(log[..|log| - 1])))
  }

  /** Each "data" and each "end" belongs to a loop start that has not ended before it. */
  predicate Ordered(log: seq<Event>) {
    forall j :: 0 <= j < |log| && (log[j].Data? || log[j].End?) ==> Live(log[..j])
  }

  /** Reads that end the loop: the finished ones and the failed ones. */
  predicate Terminal(e: Event) { e.Failed? || (e.Result? && e.finished) }

  function Terminals(log: seq<Event>): nat { Count(log, e => Terminal(e)) }
  function Ends(log: seq<Event>): nat { Count(log, (e: Event) => e.End?) }

  predicate Inv(s: Reader) {
    && Delivered(s.log) == Received(s.log)
    && Ordered(s.log)
    && (s.pending || s.phase.InData? || s.phase.InError? ==> s.reading && Live(s.log))
    && (s.reading && !s.closed ==> s.pending || s.phase.InData? || s.phase.InError?)
    && (s.phase.InData? || s.phase.InError? ==> !s.pending && !s.closed)
    && Terminals(s.log) == Ends(s.log) + (if s.phase == InData(true) || s.phase.InError? then 1 else 0)
  }

  /** How each of the log's summaries grows with one more event. */
  lemma Snoc(log: seq<Event>, e: Event)
    ensures Delivered(log + [e]) == Delivered(log) + if e.Data? then e.payload else []
    ensures Received(log + [e]) == Received(log) + if e.Result? then e.bytes else []
    ensures Live(log + [e]) <==> e.LoopStarted? || (!e.End? && Live(log))
    ensures Ordered(log) && (e.Data? || e.End? ==> Live(log)) ==> Ordered(log + [e])
    ensures Terminals(log + [e]) == Terminals(log) + if Terminal(e) then 1 else 0
    ensures Ends(log + [e]) == Ends(log) + if e.End? then 1 else 0
  {
    assert (log + [e])[..|log|] == log;
    CountAppend(log, [e], x => Terminal(x));
    CountAppend(log, [e], (x: Event) => x.End?);
    if Ordered(log) && (e.Data? || e.End? ==> Live(log)) {
      forall j | 0 <= j < |log + [e]| && ((log + [e])[j].Data? || (log + [e])[j].End?) ensures Live((log + [e])[..j]) {
        assert (log + [e])[..j] == log[..j];
        assert j == |log| ==> log[..j] == log;
      }
    }
  }

  lemma FinishOrContinueKeeps(s: Reader, finished: bool, handle: bool)
    requires Delivered(s.log) == Received(s.log) && Ordered(s.log) && Live(s.log)
    requires s.reading && !s.pending && !s.closed
    requires Terminals(s.log) == Ends(s.log) + if finished then 1 else 0
    ensures Inv(FinishOrContinue(s, finished, handle))
  {
    Snoc(s.log, End);
  }

  lemma DataKeeps(s: Reader, bytes: Bytes, finished: bool)
    requires Delivered(s.log) + bytes == Received(s.log) && Ordered(s.log) && Live(s.log)
    requires s.reading && !s.pending && !s.closed
    requires Terminals(s.log) == Ends(s.log) + if finished then 1 else 0
    ensures Inv(Log(s.(phase := InData(finished)), Data(bytes)))
  {
    Snoc(s.log, Data(bytes));
  }

  lemma ReadReadyKeeps(s: Reader, bytes: Bytes, finished: bool, handle: bool)
    requires Inv(s) && Enabled(s, ReadReady(bytes, finished, handle))
    ensures Inv(Apply(s, ReadReady(bytes, finished, handle)))
  {
    var t := Log(s.(pending := false), Result(bytes, finished));
    Snoc(s.log, Result(bytes, finished));
    if bytes == [] {
      FinishOrContinueKeeps(t, finished, handle);
    } else {
      DataKeeps(t, bytes, finished);
    }
  }

  lemma ReadFailedKeeps(s: Reader, quiet: bool)
    requires Inv(s) && Enabled(s, ReadFailed(quiet))
    ensures Inv(Apply(s, ReadFailed(quiet)))
  {
    Snoc(s.log, Failed);
    Snoc(s.log + [Failed], if quiet then End else Reported);
  }

  lemma StepKeepsInv(s: Reader, step: Step)
    requires Inv(s) && Enabled(s, step)
    ensures Inv(Apply(s, step))
  {
    match step
    case On(_) => Snoc(s.log, LoopStarted);
    case ReadReady(bytes, finished, handle) => ReadReadyKeeps(s, bytes, finished, handle);
    case ReadFailed(quiet) => ReadFailedKeeps(s, quiet);
    case Resume(handle) =>
      if s.phase.InData? { FinishOrContinueKeeps(s, s.phase.finished, handle); } else { Snoc(s.log, End); }
    case Destroy =>
  }

  lemma {:induction false} RunKeepsInv(s: Reader, run: seq<Step>)
    requires Inv(s) && Valid(s, run)
    ensures Inv(After(s, run))
    decreases |run|
  {
    if run != [] {
      StepKeepsInv(s, run[0]);
      RunKeepsInv(Apply(s, run[0]), run[1..]);
    }
  }

  // ---------------------------------------------------------------- against the run

  /** The bytes of the reads that completed in `run`, in order. */
  function BytesOf(run: seq<Step>): Bytes {
    if run == [] then [] else (if run[0].ReadReady? then run[0].bytes else []) + BytesOf(run[1..])
  }

  /** The read ends the loop: it failed, or it was the last. */
  predicate EndsLoop(step: Step) { step.ReadFailed? || (step.ReadReady? && step.finished) }

  function Reports(log: seq<Event>): nat { Count(log, (e: Event) => e.Reported?) }

  /** From `log` to `log'`: so many bytes delivered, so many reads that end the loop, so many reports. */
  predicate Adds(log: seq<Event>, log': seq<Event>, bytes: Bytes, terminals: nat, reports: nat) {
    && Delivered(log') == Delivered(log) + bytes
    && Terminals(log') == Terminals(log) + terminals
    && Reports(log') == Reports(log) + reports
  }

  lemma AddsOne(log: seq<Event>, e: Event)
    ensures Adds(log, log + [e], if e.Data? then e.payload else [], if Terminal(e) then 1 else 0,
                 if e.Reported? then 1 else 0)
  {
    assert (log + [e])[..|log|] == log;
    CountAppend(log, [e], x => Terminal(x));
    CountAppend(log, [e], (x: Event) => x.Reported?);
  }

  lemma AddsTwo(log: seq<Event>, a: Event, b: Event)
    requires !a.Data? && !a.Reported? && !Terminal(b)
    ensures Adds(log, log + [a] + [b], if b.Data? then b.payload else [], if Terminal(a) then 1 else 0,
                 if b.Reported? then 1 else 0)
  {
    AddsOne(log, a);
    AddsOne(log + [a], b);
  }

  lemma ReadReadyLogs(s: Reader, bytes: Bytes, finished: bool, handle: bool)
    requires Enabled(s, ReadReady(bytes, finished, handle))
    ensures Adds(s.log, Apply(s, ReadReady(bytes, finished, handle)).log, bytes, if finished then 1 else 0, 0)
  {
    var result := Result(bytes, finished);
    if bytes != [] {
      AddsTwo(s.log, result, Data(bytes));
    } else if finished {
      AddsTwo(s.log, result, End);
    } else {
      AddsOne(s.log, result);
    }
  }

  lemma QuietLogs(s: Reader, step: Step)
    requires Enabled(s, step) && !step.ReadReady? && !step.ReadFailed?
    ensures Adds(s.log, Apply(s, step).log, [], 0, 0)
  {
    AddsOne(s.log, LoopStarted);
    AddsOne(s.log, End);
  }

  lemma StepLogs(s: Reader, step: Step)
    requires Enabled(s, step)
    ensures Adds(s.log, Apply(s, step).log, if step.ReadReady? then step.bytes else [],
                 if EndsLoop(step) then 1 else 0, if step == ReadFailed(false) then 1 else 0)
  {
    match step
    case On(_) => QuietLogs(s, step);
    case ReadReady(bytes, finished, handle) => ReadReadyLogs(s, bytes, finished, handle);
    case ReadFailed(quiet) => AddsTwo(s.log, Failed, if quiet then End else Reported);
    case Resume(_) => QuietLogs(s, step);
    case Destroy => QuietLogs(s, step);
  }

  lemma {:induction false} RunLogs(s: Reader, run: seq<Step>)
    requires Valid(s, run)
    ensures var t := After(s, run);
            && Delivered(t.log) == Delivered(s.log) + BytesOf(run)
            && Terminals(t.log) == Terminals(s.log) + Count(run, step => EndsLoop(step))
            && Reports(t.log) == Reports(s.log) + Count(run, step => step == ReadFailed(false))
    decreases |run|
  {
    if run != [] {
      StepLogs(s, run[0]);
      RunLogs(Apply(s, run[0]), run[1..]);
    }
  }

  /**
   * Across every run the "data" payloads laid end to end are the bytes of the run's completed
   * reads in order; every "data" and every "end" belongs to a started loop that has not ended
   * yet, so "end" fires at most once per start with no "data" after it; "error" was fired for
   * exactly the failed reads that are to be reported; and once listeners have returned, "end"
   * has fired exactly as often as a read of the run failed or was the last.
   */
  lemma ReadLoopDelivers(run: seq<Step>)
    requires Valid(Init(), run)
    ensures var s := After(Init(), run);
            && Delivered(s.log) == BytesOf(run)
            && Ordered(s.log)
            && Reports(s.log) == Count(run, step => step == ReadFailed(false))
            && (s.phase.Idle? || s.phase.InEnd? ==> Ends(s.log) == Count(run, step => EndsLoop(step)))
  {
    RunKeepsInv(Init(), run);
    RunLogs(Init(), run);
  }

  /** No loop is under way: nothing pending and no handler before its "end". */
  predicate AtRest(s: Reader) { !s.pending && !s.phase.InData? && !s.phase.InError? }

  /**
   * When a read is pending, step by step over every run: registering "data" starts one exactly
   * if no loop is under way and the native call succeeds; a completed read is followed by the
   * next, at once or when its "data" listeners return, exactly if it was not the last and the
   * native call succeeds; a failed one by none.
   */
  lemma ReadGoesOnIff(run: seq<Step>, step: Step)
    requires Valid(Init(), run) && Enabled(After(Init(), run), step)
    ensures var s := After(Init(), run);
            Apply(s, step).pending <==>
            match step
            case On(handle) => s.pending || (AtRest(s) && handle)
            case ReadReady(bytes, finished, handle) => bytes == [] && !finished && handle
            case ReadFailed(_) => false
            case Resume(handle) => if s.phase.InEnd? then s.pending else s.phase == InData(false) && handle
            case Destroy => false
  {
    RunKeepsInv(Init(), run);
  }

  /** A read with data that was not the last: its listeners return and the next read is pending. */
  lemma {:induction false} DataThenNextRead(run: seq<Step>, bytes: Bytes, ons: seq<Step>)
    requires Valid(Init(), run) && bytes != [] && Enabled(After(Init(), run), ReadReady(bytes, false, true))
    requires forall on <- ons :: on.On?
    ensures var t := Apply(After(Init(), run), ReadReady(bytes, false, true));
            && Valid(t, ons) && After(t, ons) == t && Enabled(t, Resume(true)) && Apply(t, Resume(true)).pending
    decreases |ons|
  {
    RunKeepsInv(Init(), run);
    if ons != [] {
      assert ons[0] in ons;
      DataThenNextRead(run, bytes, ons[1..]);
    }
  }

  // ---------------------------------------------------------------- the handler

  lemma {:induction false} AfterSnoc(s: Reader, run: seq<Step>, last: Step)
    requires Valid(s, run) && Enabled(After(s, run), last)
    ensures Valid(s, run + [last]) && After(s, run + [last]) == Apply(After(s, run), last)
    decreases |run|
  {
    if run == [] {
      assert run + [last] == [last] && [last][1..] == [];
      assert Valid(Apply(s, last), []);
    } else {
      assert (run + [last])[1..] == run[1..] + [last];
      AfterSnoc(Apply(s, run[0]), run[1..], last);
    }
  }

  class RecvStream {
    var reading: bool           // RPIROH_FLAG_READING
    var pending: bool
    ghost var log: seq<Event>

    ghost function View(phase: Phase): Reader
      reads this
    {
      Reader(reading, pending, phase, false, log)
    }

    /** on("data") and once("data"). */
    method RegisterData(handle: bool, ghost phase: Phase)
      modifies this
      ensures View(phase) == Apply(old(View(phase)), On(handle))
    {
      if reading { return; }
      reading := true;
      if handle {
        pending := true;
        log := log + [LoopStarted];
      } else {
        reading := false;
      }
    }

    /** Listeners that register "data" again, once per entry of `handles`. */
    method Listeners(handles: seq<bool>, ghost phase: Phase, ghost s: Reader, ghost run: seq<Step>)
      returns (ghost run': seq<Step>)
      requires Valid(s, run) && View(phase) == After(s, run)
      modifies this
      ensures Valid(s, run') && View(phase) == After(s, run') && run <= run'
    {
      run' := run;
      for i := 0 to |handles|
        invariant Valid(s, run') && View(phase) == After(s, run') && run <= run'
      {
        RegisterData(handles[i], phase);
        AfterSnoc(s, run', On(handles[i]));
        run' := run' + [On(handles[i])];
      }
    }

    /** iroh_on_stream_data for a failed read; a lost or closed connection is not reported. */
    method OnStreamFailed(quiet: bool, inError: seq<bool>, inEnd: seq<bool>) returns (ghost run: seq<Step>)
      requires pending
      modifies this
      ensures run != [] && run[0] == ReadFailed(quiet)
      ensures Valid(old(View(Idle)), run) && View(Idle) == After(old(View(Idle)), run)
    {
      ghost var s := View(Idle);
      run := [ReadFailed(quiet)];
      assert run == [] + run && Valid(s, []);
      AfterSnoc(s, [], run[0]);
      pending := false;
      log := log + [Failed];
      if !quiet {
        log := log + [Reported];
        run := Listeners(inError, InError, s, run);
        AfterSnoc(s, run, Resume(false));
        run := run + [Resume(false)];
      }
      reading := false;
      log := log + [End];
      run := Listeners(inEnd, InEnd, s, run);
      AfterSnoc(s, run, Resume(false));
      run := run + [Resume(false)];
    }

    /** iroh_on_stream_data for a completed read, with what its listeners do. */
    method OnStreamData(bytes: Bytes, finished: bool, handle: bool, inData: seq<bool>, inEnd: seq<bool>)
      returns (ghost run: seq<Step>)
      requires pending
      modifies this
      ensures run != [] && run[0] == ReadReady(bytes, finished, handle)
      ensures Valid(old(View(Idle)), run) && View(Idle) == After(old(View(Idle)), run)
    {
      ghost var s := View(Idle);
      run := [ReadReady(bytes, finished, handle)];
      assert run == [] + run && Valid(s, []);
      AfterSnoc(s, [], run[0]);
      pending := false;
      log := log + [Result(bytes, finished)];
      if bytes != [] {
        log := log + [Data(bytes)];
        run := Listeners(inData, InData(finished), s, run);
        AfterSnoc(s, run, Resume(handle));
        run := run + [Resume(handle)];
      }
      if finished {
        reading := false;
        log := log + [End];
        run := Listeners(inEnd, InEnd, s, run);
        AfterSnoc(s, run, Resume(handle));
        run := run + [Resume(handle)];
      } else if handle {
        pending := true;
      } else {
        reading := false;
      }
    }
  }
}
