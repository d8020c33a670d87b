/**
 * The completion protocol of one asynchronous operation: a worker task that stores a
 * result, publishes a state and writes one byte to a pipe, against the event loop that
 * drains the pipe, reads the state and re-arms or dispatches.  Every lock acquisition and
 * every system call is one step, so a run is any interleaving of the two threads.
 */
module Completion {
  import opened Common

  datatype AsyncState = Pending | Ready | Error | Cancelled

  /** Stands for the boxed result value, which the protocol only moves. */
  type Payload = int

  datatype Outcome = Value(v: Payload) | Failure(msg: string)

  /** Where the worker task is. */
  datatype TaskPc = Running | Stored(outcome: Outcome) | Notifying | Notified | Gone

  /** Where the event loop is with respect to this operation. */
  datatype LoopPc =
    | Waiting                                  // event armed
    | Draining                                 // inside iroh_async_poll, reading the pipe
    | Drained                                  // the pipe was found empty
    | Decided(seen: AsyncState)                // the state lock was taken and released
    | Handling(seen: AsyncState)               // the handler owns the operation
    | Cancelling(keep: bool, written: bool)    // inside iroh_async_cancel
    | Released                                 // iroh_async_free was called

  datatype Handle = Handle(
    state: AsyncState, result: Option<Payload>, error: Option<string>,
    unread: nat,          // bytes in the pipe
    refs: int,            // strong Arc references
    closes: nat,          // how often the descriptors were closed
    lostWrites: nat,      // writes to a closed descriptor
    task: TaskPc, loop: LoopPc)

  datatype Step =
    | Store(outcome: Outcome) | Publish | Notify | DropTask
    | Wake | Read | Check | Rearm | Dispatch | Take | Free
    | CancelPublish(keep: bool) | CancelNotify | CancelEnd

  const READ_CHUNK: nat := 64

  function Init(): Handle {
    Handle(Pending, None, None, 0, 2, 0, 0, Running, Waiting)
  }

  function WriteByte(h: Handle): Handle {
    if h.closes == 0 then h.(unread := h.unread + 1) else h.(lostWrites := h.lostWrites + 1)
  }

  function DropRef(h: Handle): Handle {
    h.(refs := h.refs - 1, closes := if h.refs == 1 then h.closes + 1 else h.closes)
  }

  predicate Enabled(h: Handle, step: Step) {
    match step
    case Store(_) => h.task.Running?
    case Publish => h.task.Stored?
    case Notify => h.task.Notifying?
    case DropTask => h.task.Notified?
    case Wake => h.loop.Waiting? && h.unread > 0
    case Read => h.loop.Draining?
    case Check => h.loop.Drained?
    case Rearm => h.loop == Decided(Pending)
    case Dispatch => h.loop.Decided? && h.loop.seen != Pending
    case Take => h.loop.Handling?
    case Free => h.loop.Handling?
    case CancelPublish(_) => h.loop.Waiting?
    case CancelNotify => h.loop.Cancelling? && !h.loop.written
    case CancelEnd => h.loop.Cancelling? && h.loop.written
  }

  function Apply(h: Handle, step: Step): Handle
    requires Enabled(h, step)
  {
    match step
    case Store(o) =>
      (match o
       case Value(v) => h.(result := Some(v), task := Stored(o))
       case Failure(m) => h.(error := Some(m), task := Stored(o)))
    case Publish => h.(state := if h.task.outcome.Value? then Ready else Error, task := Notifying)
    case Notify => WriteByte(h).(task := Notified)
    case DropTask => DropRef(h).(task := Gone)
    case Wake => h.(loop := Draining)
    case Read =>
      if h.unread == 0 then h.(loop := Drained)
      else h.(unread := if h.unread <= READ_CHUNK then 0 else h.unread - READ_CHUNK)
    case Check => h.(loop := Decided(h.state))
    case Rearm => h.(loop := Waiting)
    case Dispatch => h.(loop := Handling(h.loop.seen))
    case Take => h.(result := None)
    case Free => DropRef(h).(loop := Released)
    case CancelPublish(keep) => h.(state := Cancelled, loop := Cancelling(keep, false))
    case CancelNotify => WriteByte(h).(loop := Cancelling(h.loop.keep, true))
    case CancelEnd => if h.loop.keep then h.(loop := Waiting) else DropRef(h).(loop := Released)
  }

  /** `steps` is a possible schedule from `h`. */
  predicate Valid(h: Handle, steps: seq<Step>)
    decreases |steps|
  {
    steps == [] || (Enabled(h, steps[0]) && Valid(Apply(h, steps[0]), steps[1..]))
  }

  function After(h: Handle, steps: seq<Step>): Handle
    requires Valid(h, steps)
    decreases |steps|
  {
    if steps == [] then h else After(Apply(h, steps[0]), steps[1..])
  }

  // ---------------------------------------------------------------- the invariant

  predicate Unpublished(t: TaskPc) { t.Running? || t.Stored? }
  predicate CompletionToCome(t: TaskPc) { t.Running? || t.Stored? || t.Notifying? }
  predicate Asleep(l: LoopPc) { l.Waiting? || l == Decided(Pending) }

  predicate RefsInv(h: Handle) {
    && h.refs == (if h.task.Gone? then 0 else 1) + (if h.loop.Released? then 0 else 1)
    && h.closes == (if h.refs == 0 then 1 else 0)
    && h.lostWrites == 0
  }

  /** No re-armed or about-to-be-re-armed operation sits on an empty pipe once notified. */
  predicate WakeInv(h: Handle) {
    && (Unpublished(h.task) ==> h.state.Pending? || h.state.Cancelled?)
    && (h.state.Pending? ==> Unpublished(h.task))
    && (Asleep(h.loop) && h.unread == 0 ==> CompletionToCome(h.task))
    && (h.loop.Cancelling? && h.loop.written ==> h.unread > 0)
  }

  /** What a published state promises about the result and error fields. */
  predicate SlotInv(h: Handle) {
    && (h.task.Stored? && !h.loop.Handling? && !h.loop.Released? ==>
          (h.task.outcome.Value? ==> h.result == Some(h.task.outcome.v)))
    && (h.task.Stored? && h.task.outcome.Failure? ==> h.error == Some(h.task.outcome.msg))
    && (h.state.Ready? && !h.loop.Handling? && !h.loop.Released? ==> h.result.Some?)
    && (h.state.Error? ==> h.error.Some?)
    && (h.loop.Decided? ==> SeenInv(h, h.loop.seen))
    && (h.loop == Handling(Error) ==> h.error.Some?)
  }

  predicate SeenInv(h: Handle, seen: AsyncState) {
    && (seen.Ready? ==> h.state.Ready? && h.result.Some?)
    && (seen.Error? ==> h.error.Some?)
  }

  predicate Inv(h: Handle) { RefsInv(h) && WakeInv(h) && SlotInv(h) }

  lemma StepKeepsInv(h: Handle, step: Step)
    requires Inv(h) && Enabled(h, step)
    ensures Inv(Apply(h, step))
  {
  }

  lemma {:induction false} RunKeepsInv(h: Handle, steps: seq<Step>)
    requires Inv(h) && Valid(h, steps)
    ensures Inv(After(h, steps))
    decreases |steps|
  {
    if steps != [] {
      StepKeepsInv(h, steps[0]);
      RunKeepsInv(Apply(h, steps[0]), steps[1..]);
    }
  }

  // ---------------------------------------------------------------- against the run

  /** The outcome the worker is about to publish. */
  function Prepared(t: TaskPc): Option<Outcome> { if t.Stored? then Some(t.outcome) else None }

  /** The state a run leaves: the last of what was published and cancelled counts. */
  function StateOf(state: AsyncState, outcome: Option<Outcome>, run: seq<Step>): AsyncState
    decreases |run|
  {
    if run == [] then state
    else
      match run[0]
      case Store(o) => StateOf(state, Some(o), run[1..])
      case Publish => StateOf(if outcome.Some? && outcome.value.Value? then Ready else Error, None, run[1..])
      case CancelPublish(_) => StateOf(Cancelled, outcome, run[1..])
      case _ => StateOf(state, outcome, run[1..])
  }

  lemma {:induction false} StateFrom(h: Handle, run: seq<Step>)
    requires Valid(h, run)
    ensures After(h, run).state == StateOf(h.state, Prepared(h.task), run)
    decreases |run|
  {
    if run != [] { StateFrom(Apply(h, run[0]), run[1..]); }
  }

  /** In every run the state is what was last published, by the worker or by a cancel. */
  lemma StateFollowsRun(run: seq<Step>)
    requires Valid(Init(), run)
    ensures After(Init(), run).state == StateOf(Pending, None, run)
  {
    StateFrom(Init(), run);
  }

  /** A cancel that keeps the handle leaves it waiting, cancelled, with its event ready to fire. */
  lemma KeptCancelIsSeen(run: seq<Step>)
    requires Valid(Init(), run) && After(Init(), run).loop.Waiting?
    ensures var h := After(Init(), run);
            && Valid(h, [CancelPublish(true), CancelNotify, CancelEnd])
            && var t := After(h, [CancelPublish(true), CancelNotify, CancelEnd]);
               t.loop.Waiting? && t.state.Cancelled? && Enabled(t, Wake) && t.refs == h.refs
  {
    RunKeepsInv(Init(), run);
    var h := After(Init(), run);
    var t := Apply(Apply(h, CancelPublish(true)), CancelNotify);
    assert [CancelPublish(true), CancelNotify, CancelEnd][1..] == [CancelNotify, CancelEnd];
    TwoSteps(Apply(h, CancelPublish(true)), CancelNotify, CancelEnd);
  }

  /** How often the handler's taking of the result yields one. */
  function Yields(h: Handle, run: seq<Step>): nat
    requires Valid(h, run)
    decreases |run|
  {
    if run == [] then 0
    else (if run[0].Take? && h.result.Some? then 1 else 0) + Yields(Apply(h, run[0]), run[1..])
  }

  lemma {:induction false} YieldsFrom(h: Handle, run: seq<Step>)
    requires Valid(h, run) && (h.task.Running? ==> h.result.None?)
    ensures Yields(h, run) <= if h.result.Some? || h.task.Running? then 1 else 0
    decreases |run|
  {
    if run != [] { YieldsFrom(Apply(h, run[0]), run[1..]); }
  }

  /** The result is handed out at most once. */
  lemma ResultTakenOnce(run: seq<Step>)
    requires Valid(Init(), run)
    ensures Yields(Init(), run) <= 1
  {
    YieldsFrom(Init(), run);
  }

  // ---------------------------------------------------------------- theorems over all runs

  /**
   * No lost wake-up.  Once the worker has written its byte, an operation that is armed, or is
   * about to be re-armed after reading Pending, has an unread byte in its pipe.
   */
  lemma NoLostWakeup(run: seq<Step>)
    requires Valid(Init(), run)
    ensures var h := After(Init(), run);
            Asleep(h.loop) && !CompletionToCome(h.task) ==> h.unread > 0
  {
    RunKeepsInv(Init(), run);
  }

  /** The steps left to an operation whose task has notified and that nobody cancels. */
  predicate Settling(step: Step) {
    step in {DropTask, Wake, Read, Check, Rearm, Dispatch}
  }

  function LoopDistance(h: Handle): nat {
    match h.loop
    case Decided(Pending) => 5 + h.unread
    case Waiting => 4 + h.unread
    case Draining => 3 + h.unread
    case Drained => 2
    case Decided(_) => 1
    case _ => 0
  }

  function Distance(h: Handle): nat {
    LoopDistance(h) + if h.task.Notified? then 1 else 0
  }

  lemma SettlingStepAdvances(h: Handle, step: Step)
    requires Inv(h) && !CompletionToCome(h.task) && Settling(step) && Enabled(h, step)
    ensures Distance(Apply(h, step)) < Distance(h)
  {
  }

  /**
   * A notified operation is dispatched: every schedule of its remaining steps is shorter
   * than a bound, and a schedule that cannot be extended ends with the handler running
   * (or with an operation that had been given up before).
   */
  lemma {:induction false} NotifiedIsDispatched(h: Handle, rest: seq<Step>)
    requires Inv(h) && !CompletionToCome(h.task)
    requires Valid(h, rest) && forall s <- rest :: Settling(s)
    ensures |rest| <= Distance(h)
    ensures (forall s :: Settling(s) ==> !Enabled(After(h, rest), s)) ==>
              var l := After(h, rest).loop; l.Handling? || l.Cancelling? || l.Released?
    decreases |rest|
  {
    if rest == [] {
      assert Settling(Wake) && Settling(Read) && Settling(Check) && Settling(Rearm) && Settling(Dispatch);
    } else {
      StepKeepsInv(h, rest[0]);
      SettlingStepAdvances(h, rest[0]);
      NotifiedIsDispatched(Apply(h, rest[0]), rest[1..]);
    }
  }

  /**
   * Descriptors.  No byte is ever written to a closed pipe, and the pair is closed exactly
   * when the worker and the loop have both dropped their reference, exactly once.
   */
  lemma DescriptorsClosedOnce(run: seq<Step>)
    requires Valid(Init(), run)
    ensures var h := After(Init(), run);
            && h.lostWrites == 0
            && h.closes == (if h.task.Gone? && h.loop.Released? then 1 else 0)
            && h.refs >= 0
  {
    RunKeepsInv(Init(), run);
  }

  /** Steps that hand the operation to its owner for good: dispatch, or cancel-and-free. */
  function Verdicts(run: seq<Step>): nat {
    Count(run, (s: Step) => s == Dispatch || s == CancelPublish(false))
  }

  function Budget(h: Handle): nat {
    if h.loop.Handling? || h.loop.Released? || (h.loop.Cancelling? && !h.loop.keep) then 0 else 1
  }

  lemma {:induction false} VerdictsWithinBudget(h: Handle, run: seq<Step>)
    requires Valid(h, run)
    ensures Verdicts(run) <= Budget(h)
    decreases |run|
  {
    if run != [] {
      VerdictsWithinBudget(Apply(h, run[0]), run[1..]);
    }
  }

  /**
   * Single dispatch.  In every run the handler is entered at most once; once the module has
   * cancelled in order to free, it is never entered, whatever the worker publishes later.
   */
  lemma SingleDispatch(run: seq<Step>)
    requires Valid(Init(), run)
    ensures Count(run, (s: Step) => s == Dispatch) + Count(run, (s: Step) => s == CancelPublish(false)) <= 1
  {
    VerdictsWithinBudget(Init(), run);
    CountSplit(run);
  }

  lemma {:induction false} CountSplit(run: seq<Step>)
    ensures Verdicts(run) == Count(run, (s: Step) => s == Dispatch) + Count(run, (s: Step) => s == CancelPublish(false))
  {
    if run != [] { CountSplit(run[1..]); }
  }

  /** The outcome some task step of `run` stored, if any. */
  predicate StoredIn(run: seq<Step>, o: Outcome) { Store(o) in run }

  /** What the fields of a run's last state hold came from that run's task. */
  predicate Provenance(h: Handle, run: seq<Step>) {
    && (h.result.Some? ==> StoredIn(run, Value(h.result.value)))
    && (h.error.Some? ==> StoredIn(run, Failure(h.error.value)))
  }

  lemma {:induction false} RunKeepsProvenance(h: Handle, past: seq<Step>, run: seq<Step>)
    requires Valid(h, run) && Provenance(h, past)
    ensures Provenance(After(h, run), past + run)
    decreases |run|
  {
    if run == [] {
      assert past + run == past;
    } else {
      var past' := past + [run[0]];
      assert forall s :: s in past ==> s in past';
      assert run[0] in past';
      RunKeepsProvenance(Apply(h, run[0]), past', run[1..]);
      assert past' + run[1..] == past + run;
    }
  }

  /**
   * Delivery.  A handler about to run with Ready finds in the slot a value the worker stored;
   * about to run with Error it finds a message the worker stored; it never runs with Pending.
   */
  lemma HandlerFindsItsOutcome(run: seq<Step>)
    requires Valid(Init(), run) && Enabled(After(Init(), run), Dispatch)
    ensures var h := After(Init(), run);
            && (h.loop.seen.Ready? ==> h.result.Some? && StoredIn(run, Value(h.result.value)))
            && (h.loop.seen.Error? ==> h.error.Some? && StoredIn(run, Failure(h.error.value)))
            && !h.loop.seen.Pending?
  {
    RunKeepsInv(Init(), run);
    RunKeepsProvenance(Init(), [], run);
    assert [] + run == run;
  }

  // ---------------------------------------------------------------- the handle object

  /** The byte count of the pipe, drained READ_CHUNK at a time: one Read per chunk plus the empty one. */
  function PollSchedule(unread: nat): seq<Step> {
    if unread == 0 then [Read, Check]
    else [Read] + PollSchedule(if unread <= READ_CHUNK then 0 else unread - READ_CHUNK)
  }

  /** IrohAsyncHandle with the pipe reduced to the number of bytes in it. */
  class AsyncHandle {
    var state: AsyncState
    var result: Option<Payload>
    var error: Option<string>
    var unread: nat
    var refs: int
    var closes: nat
    var lostWrites: nat

    ghost function View(task: TaskPc, loop: LoopPc): Handle
      reads this
    {
      Handle(state, result, error, unread, refs, closes, lostWrites, task, loop)
    }

    /** `new` plus the clone moved into the worker: two references. */
    constructor ()
      ensures View(Running, Waiting) == Init()
    {
      state, result, error, unread, refs, closes, lostWrites := Pending, None, None, 0, 2, 0, 0;
    }

    method WriteOne()
      modifies this
      ensures forall t, l :: View(t, l) == WriteByte(old(View(t, l)))
    {
      if closes == 0 { unread := unread + 1; } else { lostWrites := lostWrites + 1; }
    }

    method CompleteWithResult(v: Payload, ghost loop: LoopPc)
      modifies this
      ensures Valid(old(View(Running, loop)), [Store(Value(v)), Publish, Notify])
      ensures View(Notified, loop) == After(old(View(Running, loop)), [Store(Value(v)), Publish, Notify])
    {
      ghost var h := View(Running, loop);
      result := Some(v);
      state := Ready;
      WriteOne();
      CompletionRun(h, Value(v));
    }

    method CompleteWithError(msg: string, ghost loop: LoopPc)
      modifies this
      ensures Valid(old(View(Running, loop)), [Store(Failure(msg)), Publish, Notify])
      ensures View(Notified, loop) == After(old(View(Running, loop)), [Store(Failure(msg)), Publish, Notify])
    {
      ghost var h := View(Running, loop);
      error := Some(msg);
      state := Error;
      WriteOne();
      CompletionRun(h, Failure(msg));
    }

    /** iroh_async_poll: empties the pipe, then reports the state. */
    method Poll(ghost task: TaskPc) returns (s: AsyncState)
      modifies this
      ensures Valid(old(View(task, Draining)), PollSchedule(old(unread)))
      ensures View(task, Decided(s)) == After(old(View(task, Draining)), PollSchedule(old(unread)))
      ensures unread == 0 && s == state == old(state)
    {
      PollRun(View(task, Draining));
      while unread > 0
        invariant View(task, Draining) == old(View(task, Draining)).(unread := unread)
      {
        unread := if unread <= READ_CHUNK then 0 else unread - READ_CHUNK;
      }
      s := state;
    }

    method Cancel(keep: bool, ghost task: TaskPc)
      modifies this
      ensures Valid(old(View(task, Waiting)), [CancelPublish(keep), CancelNotify])
      ensures View(task, Cancelling(keep, true)) == After(old(View(task, Waiting)), [CancelPublish(keep), CancelNotify])
    {
      TwoSteps(View(task, Waiting), CancelPublish(keep), CancelNotify);
      state := Cancelled;
      WriteOne();
    }

    method Drop()
      modifies this
      ensures forall t, l :: View(t, l) == DropRef(old(View(t, l)))
    {
      refs := refs - 1;
      if refs == 0 { closes := closes + 1; }
    }
  }

  lemma TwoSteps(h: Handle, a: Step, b: Step)
    requires Enabled(h, a) && Enabled(Apply(h, a), b)
    ensures Valid(h, [a, b]) && After(h, [a, b]) == Apply(Apply(h, a), b)
  {
    assert [a, b][1..] == [b] && [b][1..] == [];
    assert Valid(Apply(h, a), [b]) && After(Apply(h, a), [b]) == Apply(Apply(h, a), b);
  }

  lemma CompletionRun(h: Handle, o: Outcome)
    requires h.task.Running?
    ensures Valid(h, [Store(o), Publish, Notify])
    ensures After(h, [Store(o), Publish, Notify]) == Apply(Apply(Apply(h, Store(o)), Publish), Notify)
  {
    var run := [Store(o), Publish, Notify];
    assert run[1..] == [Publish, Notify];
    TwoSteps(Apply(h, Store(o)), Publish, Notify);
  }

  lemma {:induction false} PollRun(h: Handle)
    requires h.loop.Draining?
    ensures Valid(h, PollSchedule(h.unread))
    ensures After(h, PollSchedule(h.unread)) == h.(unread := 0, loop := Decided(h.state))
    decreases h.unread
  {
    var p := PollSchedule(h.unread);
    if h.unread == 0 {
      TwoSteps(h, Read, Check);
    } else {
      PollRun(Apply(h, Read));
      assert p[1..] == PollSchedule(Apply(h, Read).unread);
    }
  }
}
