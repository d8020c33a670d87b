/**
 * What each step does to the whole system, said of one operation or one object and without
 * the functions that do it: which operations come into being, which are given up, what happens
 * to an object's handle and life, and which handlers are left suspended.
 */
module Effects {
  import opened Common
  import Closing
  import PendingTable
  import opened Runtime

  /** The loops go on with a native handle and until CLOSED. */
  predicate Open(obj: Obj) { obj.native && CLOSED !in obj.flags }

  predicate MayBegin(obj: Obj, k: LoopKind) { Open(obj) && FlagOf(k) !in obj.flags }

  // ---------------------------------------------------------------- operations that begin

  /** The returning handler registers the operation `x` of this kind on `o`. */
  predicate ResumeBegins(
    s: Sys, f: Frame, start: Start, start2: Start, listening: bool, x: OpId, o: ObjId, kind: OpKind)
  {
    && o == f.obj && o in s.objs
    && match f.cont
       case Restart(k) => kind == LoopOp(k) && start == Started(x) && Open(s.objs[o])
       case AfterReady => kind == OneShot && start == Started(x)
       case AfterOnline =>
         || (kind == OneShot && start == Started(x))
         || (&& kind == LoopOp(Accept) && start2 == Started(x)
             && listening && s.objs[o].kind.Endpoint? && MayBegin(s.objs[o], Accept))
       case _ => false
  }

  /** The step, having obtained the operation `x`, registers it on `o` as one of this kind. */
  predicate Begins(s: Sys, step: Step, x: OpId, o: ObjId, kind: OpKind)
    requires Enabled(s, step)
  {
    match step
    case Create(p, _, _, start) => o == p && kind == OneShot && start == Started(x)
    case CallMethod(p, start) => o == p && kind == OneShot && start == Started(x)
    case CallOn(p, k, start) => o == p && kind == LoopOp(k) && start == Started(x) && MayBegin(s.objs[p], k)
    case CallEpClose(p, start) => o == p && kind == CloseOp && start == Started(x) && Open(s.objs[p])
    case LoopReady(op, fires, finished, start) =>
      && o == s.ops[op].owner && kind == s.ops[op].kind && start == Started(x)
      && !fires && !(kind.loop.ReadData? && finished) && Open(s.objs[o])
    case OneShotDone(op, gains, start, _, _) =>
      && o == s.ops[op].owner && kind == LoopOp(GossipRecv) && start == Started(x)
      && gains && s.objs[o].kind.Topic? && MayBegin(s.objs[o].(native := true), GossipRecv)
    case Return(start, start2, listening) =>
      ResumeBegins(s, s.frames[|s.frames| - 1], start, start2, listening, x, o, kind)
    case _ => false
  }

  /** `x` came into being between `s` and `t`. */
  predicate IsNew(s: Sys, t: Sys, x: OpId, o: ObjId, kind: OpKind) {
    x !in s.ops && x in t.ops && t.ops[x] == Op(o, kind, 0, 0)
  }

  lemma StartNew(s: Sys, p: ObjId, kind': OpKind, start: Start, x: OpId, o: ObjId, kind: OpKind)
    requires p in s.objs && Fresh(s, start)
    ensures IsNew(s, StartAsync(s, p, kind', start), x, o, kind) <==> start == Started(x) && o == p && kind == kind'
  {
  }

  lemma BeginNew(s: Sys, p: ObjId, k: LoopKind, start: Start, x: OpId, o: ObjId, kind: OpKind)
    requires p in s.objs && Fresh(s, start)
    ensures IsNew(s, BeginLoop(s, p, k, start), x, o, kind) <==>
            start == Started(x) && o == p && kind == LoopOp(k) && MayBegin(s.objs[p], k)
  {
  }

  lemma RestartNew(s: Sys, p: ObjId, k: LoopKind, start: Start, x: OpId, o: ObjId, kind: OpKind)
    requires p in s.objs && Fresh(s, start)
    ensures IsNew(s, RestartLoop(s, p, k, start), x, o, kind) <==>
            start == Started(x) && o == p && kind == LoopOp(k) && Open(s.objs[p])
  {
  }

  lemma OnlineNew(s: Sys, p: ObjId, start: Start, start2: Start, listening: bool, x: OpId, o: ObjId, kind: OpKind)
    requires p in s.objs && Fresh(s, start) && Fresh(s, start2) && (start.Started? ==> start != start2)
    ensures IsNew(s, GoOnline(s, p, start, start2, listening), x, o, kind) <==>
            && o == p
            && ((kind == OneShot && start == Started(x))
                || (kind == LoopOp(Accept) && start2 == Started(x)
                    && listening && s.objs[p].kind.Endpoint? && MayBegin(s.objs[p], Accept)))
  {
    var t := StartAsync(s, p, OneShot, start);
    StartNew(s, p, OneShot, start, x, o, kind);
    BeginNew(t, p, Accept, start2, x, o, kind);
  }

  lemma EpCloseNew(s: Sys, p: ObjId, start: Start, x: OpId, o: ObjId, kind: OpKind)
    requires p in s.objs && Fresh(s, start)
    ensures IsNew(s, EpClose(s, p, start), x, o, kind) <==>
            start == Started(x) && o == p && kind == CloseOp && Open(s.objs[p])
  {
  }

  lemma GainNew(s: Sys, p: ObjId, start: Start, x: OpId, o: ObjId, kind: OpKind)
    requires p in s.objs && Fresh(s, start)
    ensures IsNew(s, Gain(s, p, start), x, o, kind) <==>
            && start == Started(x) && o == p && kind == LoopOp(GossipRecv)
            && s.objs[p].kind.Topic? && MayBegin(s.objs[p].(native := true), GossipRecv)
  {
    BeginNew(PutObj(s, p, s.objs[p].(native := true)), p, GossipRecv, start, x, o, kind);
  }

  /** The tail of the handler whose frame was `f`. */
  lemma TailNew(s: Sys, f: Frame, start: Start, start2: Start, listening: bool, x: OpId, o: ObjId, kind: OpKind)
    requires f.obj in s.objs && Fresh(s, start) && Fresh(s, start2) && (start.Started? ==> start != start2)
    ensures IsNew(s, Resume(s, f, start, start2, listening), x, o, kind) <==>
            ResumeBegins(s, f, start, start2, listening, x, o, kind)
  {
    match f.cont
    case Restart(k) => RestartNew(s, f.obj, k, start, x, o, kind);
    case AfterReady => StartNew(s, f.obj, OneShot, start, x, o, kind);
    case AfterOnline => OnlineNew(s, f.obj, start, start2, listening, x, o, kind);
    case _ =>
  }

  lemma ReturnNew(s: Sys, start: Start, start2: Start, listening: bool, x: OpId, o: ObjId, kind: OpKind)
    requires Inv(s) && Enabled(s, Return(start, start2, listening))
    ensures IsNew(s, ReturnStep(s, start, start2, listening), x, o, kind) <==>
            ResumeBegins(s, s.frames[|s.frames| - 1], start, start2, listening, x, o, kind)
  {
    var f := s.frames[|s.frames| - 1];
    assert FrameOk(s, |s.frames| - 1);
    var t := s.(frames := s.frames[..|s.frames| - 1]);
    TailNew(t, f, start, start2, listening, x, o, kind);
  }

  lemma LoopReadyNew(s: Sys, op: OpId, fires: bool, finished: bool, start: Start, x: OpId, o: ObjId, kind: OpKind)
    requires Linked(s, op) && s.ops[op].kind.LoopOp? && Fresh(s, start)
    ensures IsNew(s, LoopReadyStep(s, op, fires, finished, start), x, o, kind) <==>
            && o == s.ops[op].owner && kind == s.ops[op].kind && start == Started(x)
            && !fires && !(kind.loop.ReadData? && finished) && Open(s.objs[o])
  {
    RestartNew(Consume(s, op), s.ops[op].owner, s.ops[op].kind.loop, start, x, o, kind);
  }

  lemma OneShotNew(
    s: Sys, op: OpId, gains: bool, start: Start, fires: bool, cont: Cont, x: OpId, o: ObjId, kind: OpKind)
    requires Linked(s, op) && Fresh(s, start)
    ensures IsNew(s, OneShotStep(s, op, gains, start, fires, cont), x, o, kind) <==>
            && o == s.ops[op].owner && kind == LoopOp(GossipRecv) && start == Started(x)
            && gains && s.objs[o].kind.Topic? && MayBegin(s.objs[o].(native := true), GossipRecv)
  {
    GainNew(Consume(s, op), s.ops[op].owner, start, x, o, kind);
  }

  lemma StepNew(s: Sys, step: Step, x: OpId, o: ObjId, kind: OpKind)
    requires Inv(s) && Enabled(s, step)
    ensures IsNew(s, Apply(s, step), x, o, kind) <==> Begins(s, step, x, o, kind)
  {
    match step
    case Create(p, k, native, start) =>
      StartNew(PutObj(s, p, Obj(k, {}, native, [], true, false)), p, OneShot, start, x, o, kind);
    case CallMethod(p, start) => StartNew(s, p, OneShot, start, x, o, kind);
    case CallOn(p, k, start) => BeginNew(s, p, k, start, x, o, kind);
    case CallDestroy(_) =>
    case CallEpClose(p, start) => EpCloseNew(s, p, start, x, o, kind);
    case Return(start, start2, listening) => ReturnNew(s, start, start2, listening, x, o, kind);
    case LoopReady(op, fires, finished, start) => LoopReadyNew(s, op, fires, finished, start, x, o, kind);
    case OneShotDone(op, gains, start, fires, cont) => OneShotNew(s, op, gains, start, fires, cont, x, o, kind);
    case _ =>
  }

  /** `x` is new, pending on `o`, and if it belongs to a loop, that loop's flag is up. */
  predicate IsBegun(s: Sys, t: Sys, x: OpId, o: ObjId, kind: OpKind) {
    && x !in s.ops && x in t.ops && t.ops[x].owner == o && t.ops[x].kind == kind && Linked(t, x)
    && (kind.LoopOp? ==> FlagOf(kind.loop) in t.objs[o].flags)
  }

  /**
   * Which operations come into being, over every run: an operation that a step obtained is
   * pending afterwards on that object, as that kind and with its loop's flag up, if and only
   * if the guard of that step holds.  In particular every receive loop goes on: the handler
   * that returns, or that had nothing to deliver, has its next operation pending exactly if
   * the object is open.
   */
  lemma BegunIff(run: seq<Step>, step: Step, x: OpId, o: ObjId, kind: OpKind)
    requires Valid(Empty(), run) && Enabled(After(Empty(), run), step)
    ensures var s := After(Empty(), run); IsBegun(s, Apply(s, step), x, o, kind) <==> Begins(s, step, x, o, kind)
  {
    RunKeepsInv(Empty(), run);
    var s := After(Empty(), run);
    var t := Apply(s, step);
    StepKeepsInv(s, step);
    StepNew(s, step, x, o, kind);
    if x !in s.ops && x in t.ops {
      NewRecordsAreOpen(s, step, x);
      assert OpOk(t, x);
    }
    if IsNew(s, t, x, o, kind) { OpenIsPending(t, x); }
  }

  lemma OpenIsPending(t: Sys, x: OpId)
    requires Inv(t) && x in t.ops && t.ops[x].releases == 0
    ensures var r := t.ops[x];
            Linked(t, x) && (r.kind.LoopOp? ==> FlagOf(r.kind.loop) in t.objs[r.owner].flags)
  {
    var r := t.ops[x];
    assert OpOk(t, x) && ObjOk(t.ops, r.owner, t.objs[r.owner]);
    assert EntryOk(t.ops, r.owner, t.objs[r.owner], x);
  }

  // ---------------------------------------------------------------- operations that are given up

  /** The step cancels and frees everything `p` has pending. */
  predicate GivesUp(s: Sys, step: Step, p: ObjId)
    requires Enabled(s, step)
  {
    match step
    case CallDestroy(o) => o == p && CLOSED !in s.objs[o].flags
    case CallEpClose(o, _) => o == p && CLOSED !in s.objs[o].flags
    case CloseDone(op) => s.ops[op].owner == p && CLOSED !in s.objs[p].flags
    case _ => false
  }

  /** The record of `id` is the same in both. */
  predicate Untouched(s: Sys, t: Sys, id: OpId) { id in s.ops && id in t.ops && t.ops[id] == s.ops[id] }

  lemma BeginUntouched(s: Sys, p: ObjId, k: LoopKind, start: Start, id: OpId)
    requires p in s.objs && Fresh(s, start) && id in s.ops
    ensures Untouched(s, BeginLoop(s, p, k, start), id) && Untouched(s, RestartLoop(s, p, k, start), id)
    ensures Untouched(s, StopLoop(s, p, k), id)
  {
  }

  lemma TailUntouched(s: Sys, f: Frame, start: Start, start2: Start, listening: bool, id: OpId)
    requires f.obj in s.objs && Fresh(s, start) && Fresh(s, start2) && (start.Started? ==> start != start2)
    requires id in s.ops
    ensures Untouched(s, Resume(s, f, start, start2, listening), id)
  {
    match f.cont
    case Restart(k) => BeginUntouched(s, f.obj, k, start, id);
    case Stop(k) => BeginUntouched(s, f.obj, k, start, id);
    case AfterOnline => BeginUntouched(StartAsync(s, f.obj, OneShot, start), f.obj, Accept, start2, id);
    case _ =>
  }

  lemma GainUntouched(s: Sys, p: ObjId, start: Start, id: OpId)
    requires p in s.objs && Fresh(s, start) && id in s.ops
    ensures Untouched(s, Gain(s, p, start), id)
  {
    BeginUntouched(PutObj(s, p, s.objs[p].(native := true)), p, GossipRecv, start, id);
  }

  /** How often `id` is among what `p` has pending. */
  function Entries(s: Sys, p: ObjId, id: OpId): nat
    requires p in s.objs
  {
    multiset(s.objs[p].pending)[id]
  }

  lemma CleanupReleases(s: Sys, p: ObjId, id: OpId)
    requires p in s.objs && id in s.ops
    ensures id in Cleanup(s, p).ops
    ensures Cleanup(s, p).ops[id].releases ==
            s.ops[id].releases + if CLOSED in s.objs[p].flags then 0 else Entries(s, p, id)
  {
  }

  lemma EpCloseReleases(s: Sys, p: ObjId, start: Start, id: OpId)
    requires p in s.objs && Fresh(s, start) && id in s.ops
    ensures id in EpClose(s, p, start).ops
    ensures EpClose(s, p, start).ops[id].releases ==
            s.ops[id].releases + if CLOSED in s.objs[p].flags then 0 else Entries(s, p, id)
  {
  }

  /** A pending operation is among what its owner has pending, once, and no other object's. */
  lemma LinkedEntries(s: Sys, id: OpId, p: ObjId)
    requires Inv(s) && Linked(s, id) && p in s.objs
    ensures s.ops[id].releases == 0 && Entries(s, p, id) == if s.ops[id].owner == p then 1 else 0
  {
    var r := s.ops[id];
    assert ObjOk(s.ops, r.owner, s.objs[r.owner]) && EntryOk(s.ops, r.owner, s.objs[r.owner], id);
    assert ObjOk(s.ops, p, s.objs[p]);
    assert id in s.objs[p].pending ==> EntryOk(s.ops, p, s.objs[p], id);
    AtMostOnce(s.objs[p].pending, id);
  }

  lemma CloseReleases(s: Sys, op: OpId, id: OpId)
    requires Inv(s) && Linked(s, op) && Linked(s, id)
    ensures id in CloseStep(s, op).ops
    ensures CloseStep(s, op).ops[id].releases > 0 <==>
            id == op || (s.ops[op].owner == s.ops[id].owner && CLOSED !in s.objs[s.ops[op].owner].flags)
  {
    var p, t := s.ops[op].owner, Consume(s, op);
    ConsumeKeeps(s, op);
    LinkedEntries(s, id, p);
    CleanupReleases(PutObj(t, p, t.objs[p].(native := false)), p, id);
    assert ObjOk(s.ops, p, s.objs[p]);
    PendingTable.RemoveOneNoDuplicates(s.objs[p].pending, op);
    if id != op && s.ops[id].owner == p { LinkedEntries(t, id, p); }
    if id != op && s.ops[id].owner != p { assert id !in s.objs[p].pending; }
  }

  lemma DeliveryReleases(s: Sys, step: Step, id: OpId)
    requires Inv(s) && Enabled(s, step) && Linked(s, id) && (step.LoopFailed? || step.LoopReady? || step.OneShotDone?)
    ensures id in Apply(s, step).ops && (Apply(s, step).ops[id].releases > 0 <==> id == step.op)
  {
    var p, t := s.ops[step.op].owner, Consume(s, step.op);
    LinkedEntries(s, id, p);
    assert t.ops[id].releases > 0 <==> id == step.op;
    match step
    case LoopFailed(op, _) => BeginUntouched(t, p, s.ops[op].kind.loop, NoHandle, id);
    case LoopReady(op, _, _, start) => BeginUntouched(t, p, s.ops[op].kind.loop, start, id);
    case OneShotDone(_, _, start, _, _) => GainUntouched(t, p, start, id);
  }

  lemma ReturnReleases(s: Sys, start: Start, start2: Start, listening: bool, id: OpId)
    requires Inv(s) && Enabled(s, Return(start, start2, listening)) && id in s.ops
    ensures Untouched(s, ReturnStep(s, start, start2, listening), id)
  {
    var f := s.frames[|s.frames| - 1];
    assert FrameOk(s, |s.frames| - 1);
    var t := s.(frames := s.frames[..|s.frames| - 1]);
    TailUntouched(t, f, start, start2, listening, id);
  }

  lemma StepReleases(s: Sys, step: Step, id: OpId)
    requires Inv(s) && Enabled(s, step) && Linked(s, id)
    ensures id in Apply(s, step).ops
    ensures Apply(s, step).ops[id].releases > 0 <==> Delivers(step, id) || GivesUp(s, step, s.ops[id].owner)
  {
    LinkedEntries(s, id, s.ops[id].owner);
    match step
    case Create(_, _, _, _) =>
    case CallMethod(_, _) =>
    case CallOn(p, k, start) => BeginUntouched(s, p, k, start, id);
    case CallDestroy(p) =>
      LinkedEntries(s, id, p);
      CleanupReleases(s, p, id);
    case CallEpClose(p, start) =>
      LinkedEntries(s, id, p);
      EpCloseReleases(s, p, start, id);
    case CloseDone(op) => CloseReleases(s, op, id);
    case Return(start, start2, listening) => ReturnReleases(s, start, start2, listening, id);
    case _ => DeliveryReleases(s, step, id);
  }

  /**
   * Which pending operations end, over every run: an operation leaves its owner's table if and
   * only if the step delivers it, or tears its owner down, or closes its owner as an endpoint.
   */
  lemma EndedIff(run: seq<Step>, step: Step, id: OpId)
    requires Valid(Empty(), run) && Enabled(After(Empty(), run), step) && Linked(After(Empty(), run), id)
    ensures var s := After(Empty(), run);
            !Linked(Apply(s, step), id) <==> Delivers(step, id) || GivesUp(s, step, s.ops[id].owner)
  {
    RunKeepsInv(Empty(), run);
    var s := After(Empty(), run);
    var t := Apply(s, step);
    StepKeepsInv(s, step);
    StepReleases(s, step, id);
    if Linked(t, id) { LinkedEntries(t, id, t.ops[id].owner); } else { assert OpOk(t, id); }
  }

  lemma LoopHandles(s: Sys, step: Step, id: OpId)
    requires Enabled(s, step) && id in s.ops && (step.LoopFailed? || step.LoopReady?)
    ensures id in Apply(s, step).ops
    ensures Apply(s, step).ops[id].handled == s.ops[id].handled + if Delivers(step, id) then 1 else 0
  {
    var t, r := Consume(s, step.op), s.ops[step.op];
    BeginUntouched(t, r.owner, r.kind.loop, if step.LoopReady? then step.start else NoHandle, id);
  }

  lemma OtherHandles(s: Sys, step: Step, id: OpId)
    requires Enabled(s, step) && id in s.ops && (step.OneShotDone? || step.CloseDone?)
    ensures id in Apply(s, step).ops
    ensures Apply(s, step).ops[id].handled == s.ops[id].handled + if Delivers(step, id) then 1 else 0
  {
    if step.OneShotDone? { GainUntouched(Consume(s, step.op), s.ops[step.op].owner, step.start, id); }
  }

  lemma StepHandles(s: Sys, step: Step, id: OpId)
    requires Inv(s) && Enabled(s, step) && id in s.ops
    ensures id in Apply(s, step).ops
    ensures Apply(s, step).ops[id].handled == s.ops[id].handled + if Delivers(step, id) then 1 else 0
  {
    match step
    case CallOn(p, k, start) => BeginUntouched(s, p, k, start, id);
    case Return(start, start2, listening) => ReturnReleases(s, start, start2, listening, id);
    case LoopFailed(_, _) => LoopHandles(s, step, id);
    case LoopReady(_, _, _, _) => LoopHandles(s, step, id);
    case OneShotDone(_, _, _, _, _) => OtherHandles(s, step, id);
    case CloseDone(_) => OtherHandles(s, step, id);
    case _ =>
  }

  /** How often the handler of `id` ran, if there is such an operation. */
  function Handled(s: Sys, id: OpId): nat { if id in s.ops then s.ops[id].handled else 0 }

  lemma NewIsUnhandled(s: Sys, step: Step, id: OpId)
    requires Inv(s) && Enabled(s, step) && id !in s.ops
    ensures Handled(Apply(s, step), id) == 0 && !Delivers(step, id)
  {
    var t := Apply(s, step);
    if id in t.ops {
      StepKeepsInv(s, step);
      NewRecordsAreOpen(s, step, id);
      assert OpOk(t, id);
    }
  }

  lemma {:induction false} HandledFrom(s: Sys, run: seq<Step>, id: OpId)
    requires Inv(s) && Valid(s, run)
    ensures Handled(After(s, run), id) == Handled(s, id) + Count(run, step => Delivers(step, id))
    decreases |run|
  {
    if run != [] {
      if id in s.ops { StepHandles(s, run[0], id); } else { NewIsUnhandled(s, run[0], id); }
      StepKeepsInv(s, run[0]);
      HandledFrom(Apply(s, run[0]), run[1..], id);
    }
  }

  /** A record's handler has run exactly as often as the run delivered it. */
  lemma HandledCounts(run: seq<Step>, id: OpId)
    requires Valid(Empty(), run)
    ensures Handled(After(Empty(), run), id) == Count(run, step => Delivers(step, id))
  {
    HandledFrom(Empty(), run, id);
  }

  // ---------------------------------------------------------------- the objects

  /** The step removes the object from JavaScript. */
  predicate TearsDown(s: Sys, step: Step, o: ObjId)
    requires Enabled(s, step)
  {
    GivesUp(s, step, o) && !step.CallEpClose?
  }

  /** The step brings the native handle of `o`. */
  predicate Gains(s: Sys, step: Step, o: ObjId)
    requires Enabled(s, step)
  {
    step.OneShotDone? && step.gains && s.ops[step.op].owner == o
  }

  /** endpoint.close finds nothing to close. */
  predicate ClosesForGood(s: Sys, step: Step, o: ObjId)
    requires Enabled(s, step)
  {
    step.CallEpClose? && step.o == o && (!s.objs[o].native || step.start.NoHandle?)
  }

  /** What becomes of an object that was there. */
  predicate ObjectFollows(s: Sys, step: Step, t: Sys, o: ObjId)
    requires Enabled(s, step) && o in s.objs
  {
    && o in t.objs && t.objs[o].kind == s.objs[o].kind
    && (t.objs[o].visible <==> s.objs[o].visible && !TearsDown(s, step, o))
    && (t.objs[o].visible ==> (t.objs[o].native <==> s.objs[o].native || Gains(s, step, o)))
    && (CLOSED in t.objs[o].flags <==>
          CLOSED in s.objs[o].flags || TearsDown(s, step, o) || ClosesForGood(s, step, o))
  }

  /** Everything but the loops' flags and the table is as it was. */
  predicate SameObject(s: Sys, t: Sys, o: ObjId) {
    && o in s.objs && o in t.objs
    && t.objs[o].kind == s.objs[o].kind && t.objs[o].native == s.objs[o].native
    && t.objs[o].visible == s.objs[o].visible
    && (CLOSED in t.objs[o].flags <==> CLOSED in s.objs[o].flags)
  }

  lemma BeginSame(s: Sys, p: ObjId, k: LoopKind, start: Start, o: ObjId)
    requires p in s.objs && o in s.objs
    ensures SameObject(s, BeginLoop(s, p, k, start), o) && SameObject(s, RestartLoop(s, p, k, start), o)
    ensures SameObject(s, StopLoop(s, p, k), o)
  {
    FlagSame(s, p, FlagOf(k), o);
    StartSame(s, p, LoopOp(k), start, o);
    StartSame(SetFlag(s, p, FlagOf(k)), p, LoopOp(k), start, o);
    FlagSame(SetFlag(s, p, FlagOf(k)), p, FlagOf(k), o);
  }

  lemma FlagSame(s: Sys, p: ObjId, f: Flag, o: ObjId)
    requires p in s.objs && o in s.objs && f != CLOSED
    ensures SameObject(s, SetFlag(s, p, f), o) && SameObject(s, ClearFlag(s, p, f), o)
  {
  }

  lemma StartSame(s: Sys, p: ObjId, kind: OpKind, start: Start, o: ObjId)
    requires p in s.objs && o in s.objs
    ensures SameObject(s, StartAsync(s, p, kind, start), o)
  {
  }

  lemma TailSame(s: Sys, f: Frame, start: Start, start2: Start, listening: bool, o: ObjId)
    requires f.obj in s.objs && o in s.objs
    ensures SameObject(s, Resume(s, f, start, start2, listening), o)
  {
    match f.cont
    case Restart(k) => BeginSame(s, f.obj, k, start, o);
    case Stop(k) => BeginSame(s, f.obj, k, start, o);
    case AfterOnline => BeginSame(StartAsync(s, f.obj, OneShot, start), f.obj, Accept, start2, o);
    case _ =>
  }

  lemma DeliveryFollows(s: Sys, step: Step, o: ObjId)
    requires Enabled(s, step) && o in s.objs && (step.LoopFailed? || step.LoopReady?)
    ensures ObjectFollows(s, step, Apply(s, step), o)
  {
    var p, t := s.ops[step.op].owner, Consume(s, step.op);
    assert SameObject(s, t, o);
    BeginSame(t, p, s.ops[step.op].kind.loop, if step.LoopReady? then step.start else NoHandle, o);
  }

  lemma OneShotFollows(s: Sys, op: OpId, gains: bool, start: Start, fires: bool, cont: Cont, o: ObjId)
    requires Enabled(s, OneShotDone(op, gains, start, fires, cont)) && o in s.objs
    ensures var t := OneShotStep(s, op, gains, start, fires, cont);
            ObjectFollows(s, OneShotDone(op, gains, start, fires, cont), t, o)
  {
    var p, t := s.ops[op].owner, Consume(s, op);
    BeginSame(PutObj(t, p, t.objs[p].(native := true)), p, GossipRecv, start, o);
  }

  lemma CleanupFollows(s: Sys, p: ObjId, o: ObjId)
    requires p in s.objs && o in s.objs
    ensures var t := Cleanup(s, p);
            if o == p && CLOSED !in s.objs[p].flags
            then o in t.objs && t.objs[o].kind == s.objs[o].kind && !t.objs[o].visible && CLOSED in t.objs[o].flags
            else SameObject(s, t, o)
  {
  }

  lemma CloseFollows(s: Sys, op: OpId, o: ObjId)
    requires Inv(s) && Enabled(s, CloseDone(op)) && CLOSED !in s.objs[s.ops[op].owner].flags && o in s.objs
    ensures ObjectFollows(s, CloseDone(op), CloseStep(s, op), o)
  {
    var p, t := s.ops[op].owner, Consume(s, op);
    assert SameObject(s, t, o);
    CleanupFollows(PutObj(t, p, t.objs[p].(native := false)), p, o);
  }

  lemma EpCloseFollows(s: Sys, p: ObjId, start: Start, o: ObjId)
    requires Enabled(s, CallEpClose(p, start)) && o in s.objs
    ensures ObjectFollows(s, CallEpClose(p, start), EpClose(s, p, start), o)
  {
  }

  lemma ReturnSame(s: Sys, start: Start, start2: Start, listening: bool, o: ObjId)
    requires Inv(s) && s.frames != [] && o in s.objs
    ensures SameObject(s, ReturnStep(s, start, start2, listening), o)
  {
    assert FrameOk(s, |s.frames| - 1);
    TailSame(s.(frames := s.frames[..|s.frames| - 1]), s.frames[|s.frames| - 1], start, start2, listening, o);
  }

  lemma StepFollows(s: Sys, step: Step, o: ObjId)
    requires Inv(s) && Enabled(s, step) && o in s.objs
    requires step.CloseDone? ==> CLOSED !in s.objs[s.ops[step.op].owner].flags
    ensures ObjectFollows(s, step, Apply(s, step), o)
  {
    match step
    case Create(_, _, _, _) =>
    case CallMethod(_, _) =>
    case CallOn(p, k, start) => BeginSame(s, p, k, start, o);
    case CallDestroy(p) => CleanupFollows(s, p, o);
    case CallEpClose(p, start) => EpCloseFollows(s, p, start, o);
    case CloseDone(op) => CloseFollows(s, op, o);
    case OneShotDone(op, gains, start, fires, cont) => OneShotFollows(s, op, gains, start, fires, cont, o);
    case Return(start, start2, listening) => ReturnSame(s, start, start2, listening, o);
    case _ => DeliveryFollows(s, step, o);
  }

  /**
   * What becomes of an object, over every run: it goes from JavaScript exactly when it is torn
   * down, while there it has its native handle from when the operation that brings it succeeds,
   * and it is marked closed exactly by being torn down or by an endpoint.close that finds
   * nothing to close.  A new object is there, open, with or without handle as it was made.
   */
  lemma ObjectFollowsRun(run: seq<Step>, step: Step, o: ObjId)
    requires Valid(Empty(), run) && Enabled(After(Empty(), run), step)
    ensures var s := After(Empty(), run);
            var t := Apply(s, step);
            && (o in s.objs ==> ObjectFollows(s, step, t, o))
            && (o !in s.objs ==> (o in t.objs <==> step.Create? && step.o == o))
            && (step.Create? && step.o == o ==>
                  o in t.objs && t.objs[o].visible && t.objs[o].native == step.native && CLOSED !in t.objs[o].flags)
  {
    RunKeepsInv(Empty(), run);
    var s := After(Empty(), run);
    if step.CloseDone? {
      Closing.RunCarries(Empty(), run, step.op, 0);
      LinkedEntries(s, step.op, s.ops[step.op].owner);
    }
    if o in s.objs { StepFollows(s, step, o); } else { StepKeepsObjects(s, step, o); }
  }

  lemma ResumeKeepsObjects(s: Sys, f: Frame, start: Start, start2: Start, listening: bool)
    ensures Resume(s, f, start, start2, listening).objs.Keys == s.objs.Keys
  {
  }

  lemma DeliveryKeepsObjects(s: Sys, step: Step)
    requires Enabled(s, step) && (step.LoopFailed? || step.LoopReady? || step.OneShotDone? || step.CloseDone?)
    ensures Apply(s, step).objs.Keys == s.objs.Keys
  {
    assert Consume(s, step.op).objs.Keys == s.objs.Keys;
  }

  lemma StepKeepsObjects(s: Sys, step: Step, o: ObjId)
    requires Enabled(s, step) && o !in s.objs
    ensures o in Apply(s, step).objs <==> step.Create? && step.o == o
  {
    match step
    case Return(start, start2, listening) =>
      var t := s.(frames := s.frames[..|s.frames| - 1]);
      ResumeKeepsObjects(t, s.frames[|s.frames| - 1], start, start2, listening);
    case LoopFailed(_, _) => DeliveryKeepsObjects(s, step);
    case LoopReady(_, _, _, _) => DeliveryKeepsObjects(s, step);
    case OneShotDone(_, _, _, _, _) => DeliveryKeepsObjects(s, step);
    case CloseDone(_) => DeliveryKeepsObjects(s, step);
    case _ =>
  }

  // ---------------------------------------------------------------- the suspended handlers

  /** The handlers a step leaves suspended in user code, on top of those that were. */
  function Suspends(s: Sys, step: Step): seq<Frame>
    requires Enabled(s, step)
  {
    match step
    case CallDestroy(o) => if CLOSED !in s.objs[o].flags then [Frame(o, FreeObject)] else []
    case LoopFailed(op, fires) =>
      var o, k := s.ops[op].owner, s.ops[op].kind.loop;
      if fires then [Frame(o, Stop(k))] else if k.ReadData? then [Frame(o, Leave)] else []
    case LoopReady(op, fires, finished, _) =>
      var o, k := s.ops[op].owner, s.ops[op].kind.loop;
      var last := k.ReadData? && finished;
      if fires then [Frame(o, if last then Stop(k) else Restart(k))] else if last then [Frame(o, Leave)] else []
    case OneShotDone(op, _, _, fires, cont) => if fires then [Frame(s.ops[op].owner, cont)] else []
    case CloseDone(op) => [Frame(s.ops[op].owner, FreeObject)]
    case Return(_, _, _) =>
      var f := s.frames[|s.frames| - 1];
      if f.cont == Stop(ReadData) then [Frame(f.obj, Leave)] else []
    case _ => []
  }

  lemma ResumeSuspends(s: Sys, f: Frame, start: Start, start2: Start, listening: bool)
    requires f.obj in s.objs
    ensures Resume(s, f, start, start2, listening).frames ==
            s.frames + if f.cont == Stop(ReadData) then [Frame(f.obj, Leave)] else []
  {
    assert s.frames + [] == s.frames;
  }

  lemma LoopSuspends(s: Sys, step: Step)
    requires Enabled(s, step) && (step.LoopFailed? || step.LoopReady?)
    ensures Apply(s, step).frames == s.frames + Suspends(s, step)
  {
    assert s.frames + [] == s.frames;
  }

  lemma OtherSuspends(s: Sys, step: Step)
    requires Enabled(s, step) && !step.LoopFailed? && !step.LoopReady? && !step.CloseDone? && !step.Return?
    ensures Apply(s, step).frames == s.frames + Suspends(s, step)
  {
    assert s.frames + [] == s.frames;
  }

  /**
   * Which handlers are suspended, over every run: a failed or last read goes on to stop its
   * loop and then fires "end"; any other delivery of a loop goes on to start the next; a torn
   * down object is freed after its "close" listeners.
   */
  lemma SuspendedFollows(run: seq<Step>, step: Step)
    requires Valid(Empty(), run) && Enabled(After(Empty(), run), step)
    ensures var s := After(Empty(), run);
            Apply(s, step).frames ==
            (if step.Return? then s.frames[..|s.frames| - 1] else s.frames) + Suspends(s, step)
  {
    RunKeepsInv(Empty(), run);
    var s := After(Empty(), run);
    if step.CloseDone? {
      Closing.PendingCloseFires(run, step.op);
      assert s.frames == [];
    } else if step.Return? {
      assert FrameOk(s, |s.frames| - 1);
      var f, t := s.frames[|s.frames| - 1], s.(frames := s.frames[..|s.frames| - 1]);
      ResumeSuspends(t, f, step.start, step.start2, step.listening);
    } else if step.LoopFailed? || step.LoopReady? {
      LoopSuspends(s, step);
    } else {
      OtherSuspends(s, step);
    }
  }
}
