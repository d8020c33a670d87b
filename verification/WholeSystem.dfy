/**
 * The two layers together: the runtime of module Runtime with one completion handle per
 * operation record, every worker task stepping on its own, and the event loop polling one
 * operation at a time.  Records are released by the runtime; what that does to the handle
 * (dispatch, or cancel and free) follows as separate steps that any task step may interleave.
 */
module WholeSystem {
  import opened Common
  import R = Runtime
  import C = Completion

  type OpId = R.OpId

  /** `clean` falls if a cancel ever meets a handle that is not waiting in the event base. */
  datatype World = World(sys: R.Sys, handles: map<OpId, C.Handle>, polling: Option<OpId>, clean: bool)

  datatype Step =
    | Task(op: OpId, step: C.Step)      // a worker task
    | Poll(op: OpId, step: C.Step)      // the event loop inside iroh_async_cb
    | Tidy(op: OpId, step: C.Step)      // taking the result, dropping the reference
    | Main(act: R.Step)                 // deliveries, user calls, returns of user code

  predicate IsTask(s: C.Step) { s.Store? || s.Publish? || s.Notify? || s.DropTask? }
  predicate IsPoll(s: C.Step) { s.Wake? || s.Read? || s.Check? || s.Rearm? }
  predicate IsTidy(s: C.Step) { s.Take? || s.Free? || s.CancelNotify? || s.CancelEnd? }

  predicate Delivers(step: R.Step) { step.LoopFailed? || step.LoopReady? || step.OneShotDone? || step.CloseDone? }

  predicate On(w: World, op: OpId, step: C.Step) { op in w.handles && C.Enabled(w.handles[op], step) }

  /**
   * The branch a handler takes fits the state it was entered with: only with Ready does it go
   * on with a loop, take a handle or fire "ready" or "drain"; with Ready a loop stops only where
   * an accepted stream lacks a half.
   */
  predicate Fits(w: World, step: R.Step)
    requires Delivers(step) && step.op in w.handles && w.handles[step.op].loop.Decided?
  {
    var ready := w.handles[step.op].loop.seen.Ready?;
    match step
    case LoopReady(_, _, _, _) => ready
    case LoopFailed(op, _) => !ready || (op in w.sys.ops && w.sys.ops[op].kind == R.LoopOp(R.AcceptBi))
    case OneShotDone(_, gains, _, _, cont) => ready || (!gains && cont.Leave?)
    case _ => true
  }

  predicate Enabled(w: World, step: Step) {
    match step
    case Task(op, s) => IsTask(s) && On(w, op, s)
    case Poll(op, s) =>
      IsPoll(s) && On(w, op, s) && w.sys.frames == [] && w.polling == if s.Wake? then None else Some(op)
    case Tidy(op, s) => IsTidy(s) && On(w, op, s)
    case Main(s) =>
      && R.Enabled(w.sys, s)
      && if Delivers(s) then w.polling == Some(s.op) && On(w, s.op, C.Dispatch) && Fits(w, s) else w.polling.None?
  }

  function Released(s: R.Sys, id: OpId): bool { id in s.ops && s.ops[id].releases > 0 }

  /** What a runtime step does to the handle of `id`. */
  function NewHandle(w: World, step: R.Step, t: R.Sys, id: OpId): C.Handle {
    if id !in w.handles then C.Init()
    else
      var h := w.handles[id];
      if Delivers(step) && step.op == id && C.Enabled(h, C.Dispatch) then C.Apply(h, C.Dispatch)
      else if Released(t, id) && !Released(w.sys, id) && C.Enabled(h, C.CancelPublish(false)) then
        C.Apply(h, C.CancelPublish(false))
      else h
  }

  /** The operations the step cancels without their handle waiting for it. */
  predicate Disturbed(w: World, step: R.Step, t: R.Sys, id: OpId) {
    && id in w.handles && Released(t, id) && !Released(w.sys, id)
    && !(Delivers(step) && step.op == id) && !C.Enabled(w.handles[id], C.CancelPublish(false))
  }

  function MainStep(w: World, step: R.Step): World
    requires R.Enabled(w.sys, step)
  {
    var t := R.Apply(w.sys, step);
    World(t, map id | id in t.ops :: NewHandle(w, step, t, id), None,
          w.clean && forall id <- t.ops :: !Disturbed(w, step, t, id))
  }

  function Apply(w: World, step: Step): World
    requires Enabled(w, step)
  {
    match step
    case Task(op, s) => w.(handles := w.handles[op := C.Apply(w.handles[op], s)])
    case Poll(op, s) =>
      w.(handles := w.handles[op := C.Apply(w.handles[op], s)], polling := if s.Rearm? then None else Some(op))
    case Tidy(op, s) => w.(handles := w.handles[op := C.Apply(w.handles[op], s)])
    case Main(s) => MainStep(w, s)
  }

  function Start(): World { World(R.Empty(), map[], None, true) }

  predicate Valid(w: World, run: seq<Step>)
    decreases |run|
  {
    run == [] || (Enabled(w, run[0]) && Valid(Apply(w, run[0]), run[1..]))
  }

  function After(w: World, run: seq<Step>): World
    requires Valid(w, run)
    decreases |run|
  {
    if run == [] then w else After(Apply(w, run[0]), run[1..])
  }

  // ---------------------------------------------------------------- invariant

  /** The event loop still owns the operation. */
  predicate Active(l: C.LoopPc) { l.Waiting? || l.Draining? || l.Drained? || l.Decided? }

  /** The handle of an operation agrees with its record. */
  predicate Agrees(w: World, id: OpId) {
    && id in w.sys.ops && id in w.handles && C.Inv(w.handles[id])
    && (Active(w.handles[id].loop) <==> !Released(w.sys, id))
    && (w.handles[id].loop.Cancelling? ==> !w.handles[id].loop.keep)
    && (Active(w.handles[id].loop) && !w.handles[id].loop.Waiting? ==> w.polling == Some(id))
    && (Active(w.handles[id].loop) ==> !w.handles[id].state.Cancelled? && w.handles[id].loop != C.Decided(C.Cancelled))
  }

  predicate HandlesInv(w: World) {
    && w.clean
    && w.handles.Keys == w.sys.ops.Keys
    && (forall id <- w.handles :: Agrees(w, id))
    && (w.polling.Some? ==> w.sys.frames == [] && w.polling.value in w.handles)
  }

  predicate Inv(w: World) { R.Inv(w.sys) && HandlesInv(w) }

  lemma HandleStepAgrees(w: World, step: Step, id: OpId)
    requires !step.Main? && Enabled(w, step) && Agrees(w, id) && Agrees(w, step.op)
    ensures Agrees(Apply(w, step), id)
  {
    C.StepKeepsInv(w.handles[step.op], step.step);
  }

  lemma HandleStepKeepsInv(w: World, step: Step)
    requires HandlesInv(w) && !step.Main? && Enabled(w, step)
    ensures HandlesInv(Apply(w, step)) && Apply(w, step).sys == w.sys
  {
    var t := Apply(w, step);
    assert t.handles.Keys == w.handles.Keys;
    forall id <- t.handles ensures Agrees(t, id) { HandleStepAgrees(w, step, id); }
  }

  /** A handle the step does not deliver to: it is left alone, or cancelled while it waits. */
  lemma BystanderAgrees(w: World, step: R.Step, t: R.Sys, id: OpId)
    requires Agrees(w, id) && id in t.ops && !(Delivers(step) && step.op == id)
    requires w.polling == if Delivers(step) then Some(step.op) else None
    requires Released(w.sys, id) ==> Released(t, id)
    ensures Agrees(World(t, map[id := NewHandle(w, step, t, id)], None, true), id) && !Disturbed(w, step, t, id)
  {
    var h := w.handles[id];
    if Released(t, id) && !Released(w.sys, id) {
      assert h.loop.Waiting?;
      C.StepKeepsInv(h, C.CancelPublish(false));
    }
  }

  lemma DeliveredAgrees(w: World, step: R.Step, t: R.Sys)
    requires Delivers(step) && On(w, step.op, C.Dispatch) && Agrees(w, step.op) && Released(t, step.op)
    ensures Agrees(World(t, map[step.op := NewHandle(w, step, t, step.op)], None, true), step.op)
  {
    C.StepKeepsInv(w.handles[step.op], C.Dispatch);
  }

  /** What the runtime guarantees about record `id` across one of its steps from `s` to `t`. */
  predicate RecordEvolves(s: R.Sys, step: R.Step, t: R.Sys, id: OpId) {
    && (id in s.ops ==> id in t.ops)
    && (id !in s.ops ==> !Released(t, id))
    && (Released(s, id) ==> Released(t, id))
    && (Delivers(step) && step.op == id ==> Released(t, id))
  }

  lemma RuntimeStepEvolves(s: R.Sys, step: R.Step, id: OpId)
    requires R.Inv(s) && R.Enabled(s, step)
    ensures RecordEvolves(s, step, R.Apply(s, step), id)
  {
    R.StepCarries(s, step, id, 0);
    if id !in s.ops && id in R.Apply(s, step).ops { R.NewRecordsAreOpen(s, step, id); }
    if Delivers(step) && step.op == id { R.DeliveryEnds(s, step, id); }
  }

  lemma NewHandleAgrees(w: World, step: R.Step, t: R.Sys, id: OpId)
    requires id in t.ops && RecordEvolves(w.sys, step, t, id)
    requires id in w.handles ==> Agrees(w, id)
    requires id !in w.handles ==> id !in w.sys.ops
    requires Delivers(step) ==> On(w, step.op, C.Dispatch)
    requires w.polling == if Delivers(step) then Some(step.op) else None
    ensures Agrees(World(t, map[id := NewHandle(w, step, t, id)], None, true), id) && !Disturbed(w, step, t, id)
  {
    if id in w.handles {
      if Delivers(step) && step.op == id { DeliveredAgrees(w, step, t); } else { BystanderAgrees(w, step, t, id); }
    }
  }

  lemma MainStepKeepsInv(w: World, step: R.Step)
    requires Inv(w) && Enabled(w, Main(step))
    ensures Inv(MainStep(w, step))
  {
    var t := MainStep(w, step);
    R.StepKeepsInv(w.sys, step);
    forall id <- t.sys.ops ensures Agrees(t, id) && !Disturbed(w, step, t.sys, id) {
      RuntimeStepEvolves(w.sys, step, id);
      NewHandleAgrees(w, step, t.sys, id);
      assert Agrees(World(t.sys, map[id := t.handles[id]], None, true), id);
    }
  }

  lemma {:induction false} RunKeepsInv(w: World, run: seq<Step>)
    requires Inv(w) && Valid(w, run)
    ensures Inv(After(w, run))
    decreases |run|
  {
    if run != [] {
      if run[0].Main? { MainStepKeepsInv(w, run[0].act); } else { HandleStepKeepsInv(w, run[0]); }
      RunKeepsInv(Apply(w, run[0]), run[1..]);
    }
  }

  // ---------------------------------------------------------------- theorems

  /**
   * In every run of the whole system, for every operation: its record is unreleased exactly as
   * long as the event loop owns its handle, the loop's reference and both descriptors are then
   * alive, no task ever writes to a closed pipe, the descriptors are closed at most once, and
   * cleanup only ever cancels handles that are waiting in the event base.
   */
  lemma RecordsAndHandlesAgree(run: seq<Step>, id: OpId)
    requires Valid(Start(), run) && id in After(Start(), run).sys.ops
    ensures var w := After(Start(), run);
            && w.clean && id in w.handles
            && var h := w.handles[id];
               && (w.sys.ops[id].releases == 0 <==> Active(h.loop))
               && (w.sys.ops[id].releases == 0 ==> h.refs >= 1 && h.closes == 0)
               && h.lostWrites == 0 && h.closes <= 1
               && (h.closes == 1 <==> h.task.Gone? && h.loop.Released?)
  {
    RunKeepsInv(Start(), run);
    var w := After(Start(), run);
    assert Agrees(w, id);
  }

  /**
   * The loop never sleeps on finished work: whenever it is idle and some unreleased operation's
   * task has notified, the event of that operation is ready to fire.
   */
  lemma IdleLoopIsWoken(run: seq<Step>, id: OpId)
    requires Valid(Start(), run)
    requires var w := After(Start(), run);
             && w.sys.frames == [] && w.polling.None?
             && id in w.sys.ops && w.sys.ops[id].releases == 0
             && id in w.handles && !C.CompletionToCome(w.handles[id].task)
    ensures Enabled(After(Start(), run), Poll(id, C.Wake))
  {
    RunKeepsInv(Start(), run);
    assert Agrees(After(Start(), run), id);
  }

  /**
   * A delivery always concerns a live record of an object that was not freed.  A handler that
   * goes on with its loop or takes a handle was entered with Ready and finds a result; one that
   * ends its loop finds a message, unless it was handed half a stream; none is ever entered
   * with Pending or Cancelled.
   */
  lemma DeliveriesAreSound(run: seq<Step>, step: R.Step)
    requires Valid(Start(), run) && Enabled(After(Start(), run), Main(step)) && Delivers(step)
    ensures var w := After(Start(), run);
            && R.Linked(w.sys, step.op) && !w.sys.objs[w.sys.ops[step.op].owner].freed
            && var h := w.handles[step.op];
               && (h.loop.seen.Ready? || h.loop.seen.Error?)
               && (h.loop.seen.Ready? ==> h.result.Some?)
               && (h.loop.seen.Error? ==> h.error.Some?)
               && (step.LoopReady? || (step.OneShotDone? && step.gains) ==> h.loop.seen.Ready?)
               && (step.LoopFailed? && w.sys.ops[step.op].kind != R.LoopOp(R.AcceptBi) ==> h.loop.seen.Error?)
  {
    RunKeepsInv(Start(), run);
    DeliveryIsLinked(After(Start(), run), step);
    OwnerIsAlive(After(Start(), run).sys, step.op);
    HandlerFinds(After(Start(), run), step.op);
  }

  lemma DeliveryIsLinked(w: World, step: R.Step)
    requires Enabled(w, Main(step)) && Delivers(step)
    ensures R.Linked(w.sys, step.op) && On(w, step.op, C.Dispatch)
  {
  }

  lemma HandlerFinds(w: World, id: OpId)
    requires id in w.handles && Agrees(w, id) && On(w, id, C.Dispatch)
    ensures var h := w.handles[id];
            && (h.loop.seen.Ready? || h.loop.seen.Error?)
            && (h.loop.seen.Ready? ==> h.result.Some?)
            && (h.loop.seen.Error? ==> h.error.Some?)
  {
  }

  lemma OwnerIsAlive(s: R.Sys, op: OpId)
    requires R.Inv(s) && R.Linked(s, op)
    ensures !s.objs[s.ops[op].owner].freed
  {
    assert R.ObjOk(s.ops, s.ops[op].owner, s.objs[s.ops[op].owner]);
  }

  // ---------------------------------------------------------------- progress

  function Lift(id: OpId, steps: seq<C.Step>): seq<Step> {
    seq(|steps|, i requires 0 <= i < |steps| => Poll(id, steps[i]))
  }

  /** A poll of one handle, run by the idle event loop. */
  lemma {:induction false} PollLifts(w: World, id: OpId, steps: seq<C.Step>)
    requires w.sys.frames == [] && w.polling == Some(id) && id in w.handles
    requires C.Valid(w.handles[id], steps) && forall i :: 0 <= i < |steps| ==> steps[i].Read? || steps[i].Check?
    ensures Valid(w, Lift(id, steps))
    ensures After(w, Lift(id, steps)) == w.(handles := w.handles[id := C.After(w.handles[id], steps)])
    decreases |steps|
  {
    if steps == [] {
      assert w.handles == w.handles[id := w.handles[id]];
    } else {
      var v := Apply(w, Poll(id, steps[0]));
      assert Lift(id, steps)[1..] == Lift(id, steps[1..]);
      PollLifts(v, id, steps[1..]);
      assert v.handles[id := C.After(v.handles[id], steps[1..])] == w.handles[id := C.After(w.handles[id], steps)];
    }
  }

  lemma {:induction false} PollScheduleReads(unread: nat)
    ensures forall i :: 0 <= i < |C.PollSchedule(unread)| ==>
              C.PollSchedule(unread)[i].Read? || C.PollSchedule(unread)[i].Check?
  {
    if unread != 0 { PollScheduleReads(if unread <= C.READ_CHUNK then 0 else unread - C.READ_CHUNK); }
  }

  /** Some delivery of `id` can happen now. */
  ghost predicate Deliverable(w: World, id: OpId) {
    exists step :: Delivers(step) && step.op == id && Enabled(w, Main(step))
  }

  lemma DecidedIsDeliverable(w: World, id: OpId)
    requires Inv(w) && w.sys.frames == [] && w.polling == Some(id) && On(w, id, C.Dispatch)
    ensures Deliverable(w, id)
  {
    assert Agrees(w, id) && R.OpOk(w.sys, id);
    var step := match w.sys.ops[id].kind
      case LoopOp(_) =>
        if w.handles[id].loop.seen.Ready? then R.LoopReady(id, true, false, R.NoHandle) else R.LoopFailed(id, true)
      case OneShot => R.OneShotDone(id, false, R.NoHandle, false, R.Leave)
      case CloseOp => R.CloseDone(id);
    assert Delivers(step) && step.op == id && Enabled(w, Main(step));
  }

  /** One firing of the event: the loop wakes, drains the pipe and reads the state. */
  lemma PollOnce(w: World, id: OpId) returns (polls: seq<Step>)
    requires Enabled(w, Poll(id, C.Wake))
    ensures Valid(w, polls) && forall s <- polls :: s.Poll? && s.op == id
    ensures var h := w.handles[id];
            After(w, polls) ==
            w.(handles := w.handles[id := h.(unread := 0, loop := C.Decided(h.state))], polling := Some(id))
  {
    var u := Apply(w, Poll(id, C.Wake));
    var sched := C.PollSchedule(u.handles[id].unread);
    C.PollRun(u.handles[id]);
    PollScheduleReads(u.handles[id].unread);
    PollLifts(u, id, sched);
    polls := [Poll(id, C.Wake)] + Lift(id, sched);
    assert polls[1..] == Lift(id, sched);
    assert u.handles[id := C.After(u.handles[id], sched)] == w.handles[id := C.After(u.handles[id], sched)];
  }

  lemma PublishedIsNotPending(w: World, id: OpId)
    requires Agrees(w, id) && !C.CompletionToCome(w.handles[id].task)
    ensures !w.handles[id].state.Pending?
  {
  }

  lemma PollDelivers(w: World, id: OpId) returns (polls: seq<Step>)
    requires Inv(w) && Enabled(w, Poll(id, C.Wake)) && !C.CompletionToCome(w.handles[id].task)
    ensures Valid(w, polls) && forall s <- polls :: s.Poll? && s.op == id
    ensures After(w, polls).sys == w.sys && Deliverable(After(w, polls), id)
  {
    PublishedIsNotPending(w, id);
    polls := PollOnce(w, id);
    RunKeepsInv(w, polls);
    DecidedIsDeliverable(After(w, polls), id);
  }

  /**
   * Finished work is delivered: from any reachable state with an idle loop and an unreleased
   * operation whose task has notified, the loop alone, polling that one operation, reaches a
   * state in which its handler can be entered, with every table and flag as it was.
   */
  lemma NotifiedIsDelivered(run: seq<Step>, id: OpId) returns (polls: seq<Step>)
    requires Valid(Start(), run)
    requires var w := After(Start(), run);
             && w.sys.frames == [] && w.polling.None?
             && id in w.sys.ops && w.sys.ops[id].releases == 0
             && id in w.handles && !C.CompletionToCome(w.handles[id].task)
    ensures Valid(After(Start(), run), polls) && forall s <- polls :: s.Poll? && s.op == id
    ensures var v := After(After(Start(), run), polls);
            v.sys == After(Start(), run).sys && Deliverable(v, id)
  {
    RunKeepsInv(Start(), run);
    IdleLoopIsWoken(run, id);
    polls := PollDelivers(After(Start(), run), id);
  }
}
