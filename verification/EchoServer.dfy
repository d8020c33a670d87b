/**
 * The echo server's stream context on top of the libevent bridge: accept a stream, then read,
 * write back what was read, and read again only when that write has completed.
 */
module EchoServer {
  import opened Common

  datatype Op = AcceptOp | ReadOp | WriteOp(data: Bytes)

  datatype Outcome = Failed | Done | Chunk(bytes: Bytes, finished: bool)

  datatype Event = Received(bytes: Bytes) | Submitted(bytes: Bytes) | Echoed(bytes: Bytes) | SendFinished

  /** `lost`: registering an operation with the event base failed. */
  datatype Context = Context(live: bool, outstanding: seq<Op>, lost: bool, log: seq<Event>)

  /** Operation number `i` completes; `armed` says whether the next one could be registered. */
  datatype Step = Complete(i: nat, outcome: Outcome, armed: bool)

  function Init(): Context { Context(true, [AcceptOp], false, []) }

  /** iroh_recv_stream_read reports the end of the stream with no bytes. */
  predicate Enabled(c: Context, step: Step) {
    && step.i < |c.outstanding|
    && match c.outstanding[step.i]
       case AcceptOp => !step.outcome.Chunk?
       case ReadOp => !step.outcome.Done? && (step.outcome.Chunk? && step.outcome.finished ==> step.outcome.bytes == [])
       case WriteOp(_) => !step.outcome.Chunk?
  }

  function Free(c: Context): Context { c.(live := false) }

  /** IROH_EVENT_ADD. */
  function Arm(c: Context, op: Op, armed: bool): Context {
    if armed then c.(outstanding := c.outstanding + [op]) else c.(lost := true)
  }

  function Log(c: Context, e: Event): Context { c.(log := c.log + [e]) }

  function OnRead(c: Context, outcome: Outcome, armed: bool): Context {
    if !outcome.Chunk? then Free(c)
    else if outcome.finished then Free(Log(c, SendFinished))
    else if outcome.bytes == [] then Arm(c, ReadOp, armed)
    else
      var t := Log(c, Received(outcome.bytes));
      Arm(if armed then Log(t, Submitted(outcome.bytes)) else t, WriteOp(outcome.bytes), armed)
  }

  function OnWritten(c: Context, data: Bytes, outcome: Outcome, armed: bool): Context {
    if outcome.Failed? then Free(c) else Arm(Log(c, Echoed(data)), ReadOp, armed)
  }

  function Apply(c: Context, step: Step): Context
    requires Enabled(c, step)
  {
    var t := c.(outstanding := c.outstanding[..step.i] + c.outstanding[step.i + 1..]);
    match c.outstanding[step.i]
    case AcceptOp => if step.outcome.Failed? then Free(t) else Arm(t, ReadOp, step.armed)
    case ReadOp => OnRead(t, step.outcome, step.armed)
    case WriteOp(data) => OnWritten(t, data, step.outcome, step.armed)
  }

  predicate Valid(c: Context, run: seq<Step>)
    decreases |run|
  {
    run == [] || (Enabled(c, run[0]) && Valid(Apply(c, run[0]), run[1..]))
  }

  function After(c: Context, run: seq<Step>): Context
    requires Valid(c, run)
    decreases |run|
  {
    if run == [] then c else After(Apply(c, run[0]), run[1..])
  }

  // ---------------------------------------------------------------- what the log says

  /** The bytes of one kind of event, in order. */
  function Read(log: seq<Event>): Bytes {
    if log == [] then [] else Read(log[..|log| - 1]) + if Last(log).Received? then Last(log).bytes else []
  }

  function Sent(log: seq<Event>): Bytes {
    if log == [] then [] else Sent(log[..|log| - 1]) + if Last(log).Submitted? then Last(log).bytes else []
  }

  function Acknowledged(log: seq<Event>): Bytes {
    if log == [] then [] else Acknowledged(log[..|log| - 1]) + if Last(log).Echoed? then Last(log).bytes else []
  }

  function Last(log: seq<Event>): Event
    requires log != []
  {
    log[|log| - 1]
  }

  /** Whenever the send side is finished, everything read so far was written back successfully. */
  predicate FinishesClean(log: seq<Event>) {
    forall i :: 0 <= i < |log| && log[i].SendFinished? ==>
      i == |log| - 1 && Acknowledged(log[..i]) == Sent(log[..i]) == Read(log[..i])
  }

  predicate Inv(c: Context) {
    && (c.live && !c.lost ==> |c.outstanding| == 1)
    && (!c.live || c.lost ==> c.outstanding == [])
    && FinishesClean(c.log) && (c.live ==> SendFinished !in c.log)
    && (!c.lost ==> Sent(c.log) == Read(c.log))
    && (c.live && !c.lost ==>
          Read(c.log) == Acknowledged(c.log) + if c.outstanding[0].WriteOp? then c.outstanding[0].data else [])
  }

  lemma Snoc(log: seq<Event>, e: Event)
    ensures Read(log + [e]) == Read(log) + if e.Received? then e.bytes else []
    ensures Sent(log + [e]) == Sent(log) + if e.Submitted? then e.bytes else []
    ensures Acknowledged(log + [e]) == Acknowledged(log) + if e.Echoed? then e.bytes else []
    ensures SendFinished !in log && (e.SendFinished? ==> Acknowledged(log) == Sent(log) == Read(log)) ==>
              FinishesClean(log + [e])
  {
    assert (log + [e])[..|log|] == log;
  }

  lemma UnfinishedIsClean(log: seq<Event>)
    requires SendFinished !in log
    ensures FinishesClean(log)
  {
  }

  /** What a read with data adds to the log, with or without the echo being registered. */
  lemma DataLogs(log: seq<Event>, bytes: Bytes)
    requires SendFinished !in log
    ensures var a, b := log + [Received(bytes)], log + [Received(bytes)] + [Submitted(bytes)];
            && Read(a) == Read(b) == Read(log) + bytes && Sent(b) == Sent(log) + bytes
            && Acknowledged(b) == Acknowledged(log)
            && SendFinished !in a && SendFinished !in b
  {
    Snoc(log, Received(bytes));
    Snoc(log + [Received(bytes)], Submitted(bytes));
  }

  lemma DataKeepsInv(c: Context, bytes: Bytes, armed: bool)
    requires Inv(c) && c.outstanding == [ReadOp] && bytes != []
    ensures Inv(OnRead(c.(outstanding := []), Chunk(bytes, false), armed))
  {
    DataLogs(c.log, bytes);
    UnfinishedIsClean(c.log + [Received(bytes)]);
    UnfinishedIsClean(c.log + [Received(bytes)] + [Submitted(bytes)]);
  }

  lemma ReadKeepsInv(c: Context, outcome: Outcome, armed: bool)
    requires Inv(c) && c.outstanding == [ReadOp] && !outcome.Done?
    ensures Inv(OnRead(c.(outstanding := []), outcome, armed))
  {
    if outcome.Chunk? {
      if outcome.finished {
        Snoc(c.log, SendFinished);
      } else if outcome.bytes != [] {
        DataKeepsInv(c, outcome.bytes, armed);
      }
    }
  }

  lemma StepKeepsInv(c: Context, step: Step)
    requires Inv(c) && Enabled(c, step)
    ensures Inv(Apply(c, step))
  {
    match c.outstanding[0]
    case AcceptOp =>
    case ReadOp => ReadKeepsInv(c, step.outcome, step.armed);
    case WriteOp(data) => Snoc(c.log, Echoed(data));
  }

  lemma {:induction false} RunKeepsInv(c: Context, run: seq<Step>)
    requires Inv(c) && Valid(c, run)
    ensures Inv(After(c, run))
    decreases |run|
  {
    if run != [] {
      StepKeepsInv(c, run[0]);
      RunKeepsInv(Apply(c, run[0]), run[1..]);
    }
  }

  /**
   * Lockstep.  In every run a live context whose registrations all succeeded has exactly one
   * outstanding operation; the bytes submitted to writes are the bytes read so far, in order;
   * and the send side is finished only once every byte read was echoed successfully, as the
   * last thing that happens.
   */
  lemma EchoInLockstep(run: seq<Step>)
    requires Valid(Init(), run)
    ensures var c := After(Init(), run);
            && (c.live && !c.lost ==> |c.outstanding| == 1)
            && (!c.live ==> c.outstanding == [])
            && (!c.lost ==> Sent(c.log) == Read(c.log))
            && FinishesClean(c.log)
  {
    RunKeepsInv(Init(), run);
  }

  // ---------------------------------------------------------------- against the run

  /** The bytes of the reads that completed in `run`, in order. */
  function BytesOf(run: seq<Step>): Bytes {
    if run == [] then [] else (if run[0].outcome.Chunk? then run[0].outcome.bytes else []) + BytesOf(run[1..])
  }

  predicate Finishes(step: Step) { step.outcome.Chunk? && step.outcome.finished }

  /** The stream is over with this step. */
  predicate Ends(step: Step) { step.outcome.Failed? || Finishes(step) }

  lemma ReadSnoc(log: seq<Event>, e: Event)
    ensures Read(log + [e]) == Read(log) + if e.Received? then e.bytes else []
  {
    assert (log + [e])[..|log|] == log;
  }

  lemma OnReadReads(c: Context, outcome: Outcome, armed: bool)
    requires outcome.Chunk? && (outcome.finished ==> outcome.bytes == [])
    ensures var t := OnRead(c, outcome, armed);
            && Read(t.log) == Read(c.log) + outcome.bytes
            && (SendFinished in t.log <==> SendFinished in c.log || outcome.finished)
  {
    if outcome.finished {
      ReadSnoc(c.log, SendFinished);
    } else if outcome.bytes != [] {
      ReadSnoc(c.log, Received(outcome.bytes));
      ReadSnoc(c.log + [Received(outcome.bytes)], Submitted(outcome.bytes));
    }
  }

  lemma OnWrittenReads(c: Context, data: Bytes, outcome: Outcome, armed: bool)
    ensures var t := OnWritten(c, data, outcome, armed);
            Read(t.log) == Read(c.log) && (SendFinished in t.log <==> SendFinished in c.log)
  {
    ReadSnoc(c.log, Echoed(data));
  }

  lemma StepReads(c: Context, step: Step)
    requires Enabled(c, step)
    ensures var t := Apply(c, step);
            && Read(t.log) == Read(c.log) + (if step.outcome.Chunk? then step.outcome.bytes else [])
            && (SendFinished in t.log <==> SendFinished in c.log || Finishes(step))
  {
    var t := c.(outstanding := c.outstanding[..step.i] + c.outstanding[step.i + 1..]);
    match c.outstanding[step.i]
    case AcceptOp =>
    case ReadOp => if step.outcome.Chunk? { OnReadReads(t, step.outcome, step.armed); }
    case WriteOp(data) => OnWrittenReads(t, data, step.outcome, step.armed);
  }

  lemma StepLives(c: Context, step: Step)
    requires Enabled(c, step)
    ensures var t := Apply(c, step);
            (t.live <==> c.live && !Ends(step)) && (t.lost <==> c.lost || (!Ends(step) && !step.armed))
  {
  }

  lemma {:induction false} RunReads(c: Context, run: seq<Step>)
    requires Valid(c, run)
    ensures Read(After(c, run).log) == Read(c.log) + BytesOf(run)
    decreases |run|
  {
    if run != [] {
      var t := Apply(c, run[0]);
      StepReads(c, run[0]);
      RunReads(t, run[1..]);
      var first := if run[0].outcome.Chunk? then run[0].outcome.bytes else [];
      assert Read(t.log) == Read(c.log) + first && BytesOf(run) == first + BytesOf(run[1..]);
    }
  }

  /** Some step of `run` reports the end of the stream. */
  predicate SomeFinish(run: seq<Step>) { exists i :: 0 <= i < |run| && Finishes(run[i]) }

  lemma SomeFinishUnfolds(run: seq<Step>)
    requires run != []
    ensures SomeFinish(run) <==> Finishes(run[0]) || SomeFinish(run[1..])
  {
    if Finishes(run[0]) { assert SomeFinish(run); }
    if i :| 0 <= i < |run[1..]| && Finishes(run[1..][i]) { assert Finishes(run[i + 1]); }
    if i :| 0 <= i < |run| && Finishes(run[i]) && i != 0 { assert Finishes(run[1..][i - 1]); }
  }

  lemma {:induction false} RunFinishes(c: Context, run: seq<Step>)
    requires Valid(c, run)
    ensures SendFinished in After(c, run).log <==> SendFinished in c.log || SomeFinish(run)
    decreases |run|
  {
    if run != [] {
      StepReads(c, run[0]);
      RunFinishes(Apply(c, run[0]), run[1..]);
      SomeFinishUnfolds(run);
    }
  }

  lemma {:induction false} RunLives(c: Context, run: seq<Step>)
    requires Valid(c, run)
    ensures var t := After(c, run);
            && (t.live <==> c.live && forall step <- run :: !Ends(step))
            && (t.lost <==> c.lost || exists step :: step in run && !Ends(step) && !step.armed)
    decreases |run|
  {
    if run != [] {
      StepLives(c, run[0]);
      RunLives(Apply(c, run[0]), run[1..]);
      assert forall step :: step in run <==> step == run[0] || step in run[1..];
    }
  }

  /**
   * The echo, from the run alone.  As long as every operation could be registered, the bytes
   * submitted to writes are the bytes of the run's completed reads, in order; the send side is
   * finished if and only if a read reported the end; and the context lives until a step ends it.
   */
  lemma EchoFollowsRun(run: seq<Step>)
    requires Valid(Init(), run)
    ensures var c := After(Init(), run);
            && ((forall step <- run :: Ends(step) || step.armed) ==> Sent(c.log) == BytesOf(run))
            && (SendFinished in c.log <==> exists i :: 0 <= i < |run| && Finishes(run[i]))
            && (c.live <==> forall step <- run :: !Ends(step))
  {
    RunReads(Init(), run);
    RunFinishes(Init(), run);
    RunLives(Init(), run);
    RunKeepsInv(Init(), run);
  }

  /** What is outstanding next: the echo of what was read, and otherwise a read. */
  lemma NextOperation(run: seq<Step>, step: Step)
    requires Valid(Init(), run) && Enabled(After(Init(), run), step)
    ensures Apply(After(Init(), run), step).outstanding ==
            if Ends(step) || !step.armed then []
            else if step.outcome.Chunk? && step.outcome.bytes != [] then [WriteOp(step.outcome.bytes)]
            else [ReadOp]
  {
    RunKeepsInv(Init(), run);
  }

  // ---------------------------------------------------------------- the callbacks

  class StreamContext {
    var live: bool
    var outstanding: seq<Op>
    var lost: bool
    ghost var log: seq<Event>

    ghost function View(): Context
      reads this
    {
      Context(live, outstanding, lost, log)
    }

    method AddEvent(op: Op, armed: bool)
      modifies this
      ensures View() == Arm(old(View()), op, armed)
    {
      if armed { outstanding := outstanding + [op]; } else { lost := true; }
    }

    /** on_data_read, after the bridge has retired the completed event. */
    method OnDataRead(outcome: Outcome, armed: bool)
      modifies this
      ensures View() == OnRead(old(View()), outcome, armed)
    {
      if !outcome.Chunk? {
        live := false;
        return;
      }
      if outcome.finished {
        log := log + [SendFinished];
        live := false;
        return;
      }
      if |outcome.bytes| == 0 {
        AddEvent(ReadOp, armed);
        return;
      }
      log := log + [Received(outcome.bytes)];
      if armed { log := log + [Submitted(outcome.bytes)]; }
      AddEvent(WriteOp(outcome.bytes), armed);
    }

    /** on_data_written. */
    method OnDataWritten(data: Bytes, outcome: Outcome, armed: bool)
      modifies this
      ensures View() == OnWritten(old(View()), data, outcome, armed)
    {
      if outcome.Failed? {
        live := false;
        return;
      }
      log := log + [Echoed(data)];
      AddEvent(ReadOp, armed);
    }
  }
}
