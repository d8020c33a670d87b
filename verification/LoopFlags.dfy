/**
 * A receive loop's flag against the loop itself: raised exactly while an operation of the loop
 * is pending or its handler is suspended, and which steps leave it raised over a dead loop.
 */
module LoopFlags {
  import PendingTable
  import opened Runtime
  import Closing

  predicate Pends(s: Sys, o: ObjId, k: LoopKind, id: OpId) {
    o in s.objs && id in s.objs[o].pending && id in s.ops && s.ops[id].kind == LoopOp(k)
  }

  predicate Holding(s: Sys, o: ObjId, k: LoopKind) {
    Frame(o, Restart(k)) in s.frames || Frame(o, Stop(k)) in s.frames
  }

  /** The loop has an operation pending or a handler suspended. */
  ghost predicate Busy(s: Sys, o: ObjId, k: LoopKind) {
    (exists id :: Pends(s, o, k, id)) || Holding(s, o, k)
  }

  /** JavaScript holds `o`, which has a loop of kind `k`. */
  predicate Has(s: Sys, o: ObjId, k: LoopKind) { o in s.objs && s.objs[o].visible && s.objs[o].kind == Home(k) }

  /** A raised flag of a live object has its loop running. */
  ghost predicate Tight(s: Sys, o: ObjId, k: LoopKind) {
    Has(s, o, k) && FlagOf(k) in s.objs[o].flags ==> Busy(s, o, k)
  }

  // ---------------------------------------------------------------- the steps that break it

  /** iroh_start_*_loop passes its guard and raises the flag, and the operation is not registered. */
  predicate BeginFails(obj: Obj, k: LoopKind, start: Start) {
    start.NoEvent? && obj.native && CLOSED !in obj.flags && FlagOf(k) !in obj.flags
  }

  /** The handler goes on with its loop and the next operation is not registered. */
  predicate RestartFails(obj: Obj, start: Start) { start.NoEvent? && obj.native && CLOSED !in obj.flags }

  /** endpoint.close drops the pending accept operation and leaves the flag. */
  predicate CloseDrops(s: Sys, o: ObjId, k: LoopKind) {
    Has(s, o, k) && CLOSED !in s.objs[o].flags && FlagOf(k) in s.objs[o].flags && !Holding(s, o, k)
  }

  /** Going online starts the accept loop and its operation is not registered. */
  predicate OnlineBreaks(obj: Obj, listening: bool, start2: Start, k: LoopKind) {
    listening && obj.kind.Endpoint? && k.Accept? && BeginFails(obj, k, start2)
  }

  predicate ReturnBreaks(s: Sys, start: Start, start2: Start, listening: bool, o: ObjId, k: LoopKind)
    requires s.frames != []
  {
    ResumeBreaks(s, s.frames[|s.frames| - 1], start, start2, listening, o, k)
  }

  predicate ResumeBreaks(s: Sys, f: Frame, start: Start, start2: Start, listening: bool, o: ObjId, k: LoopKind) {
    && f.obj == o && o in s.objs
    && ((f.cont == Restart(k) && RestartFails(s.objs[o], start))
        || (f.cont.AfterOnline? && OnlineBreaks(s.objs[o], listening, start2, k)))
  }

  /** The step leaves the flag of loop `k` of `o` raised over a loop that is not running. */
  predicate Breaks(s: Sys, step: Step, o: ObjId, k: LoopKind)
    requires Enabled(s, step)
  {
    match step
    case CallOn(x, j, start) => x == o && j == k && BeginFails(s.objs[o], k, start)
    case CallEpClose(x, _) => x == o && CloseDrops(s, o, k)
    case LoopReady(op, fires, finished, start) =>
      && s.ops[op].owner == o && s.ops[op].kind == LoopOp(k) && !fires && !(k.ReadData? && finished)
      && RestartFails(s.objs[o], start)
    case OneShotDone(op, gains, start, _, _) =>
      && s.ops[op].owner == o && gains && s.objs[o].kind.Topic? && k.GossipRecv?
      && BeginFails(s.objs[o].(native := true), k, start)
    case Return(start, start2, listening) => ReturnBreaks(s, start, start2, listening, o, k)
    case _ => false
  }

  // ---------------------------------------------------------------- all other steps keep it

  lemma StartTight(s: Sys, x: ObjId, kind: OpKind, start: Start, o: ObjId, k: LoopKind)
    requires x in s.objs && Fresh(s, start) && Tight(s, o, k)
    ensures Tight(StartAsync(s, x, kind, start), o, k)
  {
    var t := StartAsync(s, x, kind, start);
    forall id | Pends(s, o, k, id) ensures Pends(t, o, k, id) {}
  }

  /** Clearing the loop's own flag makes it tight whatever it was; other loops stay as they are. */
  lemma ClearTight(s: Sys, x: ObjId, j: LoopKind, o: ObjId, k: LoopKind)
    requires x in s.objs && s.objs[x].kind == Home(j) && ((x == o && j == k) || Tight(s, o, k))
    ensures Tight(ClearFlag(s, x, FlagOf(j)), o, k)
  {
    var t := ClearFlag(s, x, FlagOf(j));
    forall id | Pends(s, o, k, id) ensures Pends(t, o, k, id) {}
  }

  /** Linking an operation of the loop makes it tight whatever it was. */
  lemma LoopStartTight(s: Sys, x: ObjId, j: LoopKind, start: Start, o: ObjId, k: LoopKind)
    requires x in s.objs && start.Started? && start.op !in s.ops && ((x == o && j == k) || Tight(s, o, k))
    ensures Tight(StartAsync(s, x, LoopOp(j), start), o, k)
  {
    if x == o && j == k {
      assert Pends(StartAsync(s, x, LoopOp(j), start), o, k, start.op);
    } else {
      StartTight(s, x, LoopOp(j), start, o, k);
    }
  }

  lemma BeginTight(s: Sys, x: ObjId, j: LoopKind, start: Start, o: ObjId, k: LoopKind)
    requires x in s.objs && s.objs[x].kind == Home(j) && Fresh(s, start) && Tight(s, o, k)
    requires !(x == o && j == k && BeginFails(s.objs[x], j, start))
    ensures Tight(BeginLoop(s, x, j, start), o, k)
  {
    var t := SetFlag(s, x, FlagOf(j));
    forall id | Pends(s, o, k, id) ensures Pends(t, o, k, id) {}
    if start.NoHandle? { ClearTight(t, x, j, o, k); }
    if start.Started? { LoopStartTight(t, x, j, start, o, k); }
  }

  lemma RestartTight(s: Sys, x: ObjId, j: LoopKind, start: Start, o: ObjId, k: LoopKind)
    requires x in s.objs && s.objs[x].kind == Home(j) && Fresh(s, start)
    requires if x == o && j == k then !RestartFails(s.objs[x], start) else Tight(s, o, k)
    ensures Tight(RestartLoop(s, x, j, start), o, k)
  {
    ClearTight(s, x, j, o, k);
    if start.Started? { LoopStartTight(s, x, j, start, o, k); }
  }

  lemma PushTight(s: Sys, f: Frame, o: ObjId, k: LoopKind)
    requires Tight(s, o, k) || f == Frame(o, Restart(k)) || f == Frame(o, Stop(k))
    ensures Tight(Push(s, f), o, k)
  {
    var t := Push(s, f);
    forall id | Pends(s, o, k, id) ensures Pends(t, o, k, id) {}
    assert f in t.frames;
  }

  lemma StopTight(s: Sys, x: ObjId, j: LoopKind, o: ObjId, k: LoopKind)
    requires x in s.objs && s.objs[x].kind == Home(j) && ((x == o && j == k) || Tight(s, o, k))
    ensures Tight(StopLoop(s, x, j), o, k)
  {
    ClearTight(s, x, j, o, k);
    PushTight(ClearFlag(s, x, FlagOf(j)), Frame(x, Leave), o, k);
  }

  lemma ConsumeTight(s: Sys, op: OpId, o: ObjId, k: LoopKind)
    requires Inv(s) && Linked(s, op) && Tight(s, o, k)
    ensures Tight(Consume(s, op), o, k) || (s.ops[op].owner == o && s.ops[op].kind == LoopOp(k))
  {
    var x := s.ops[op].owner;
    assert ObjOk(s.ops, x, s.objs[x]);
    PendingTable.RemoveOneNoDuplicates(s.objs[x].pending, op);
    var t := Consume(s, op);
    if !(x == o && s.ops[op].kind == LoopOp(k)) {
      forall id | Pends(s, o, k, id) ensures Pends(t, o, k, id) {}
    }
  }

  /** Releasing everything `x` has pending disturbs no other object. */
  lemma ReleaseTight(s: Sys, x: ObjId, o: ObjId, k: LoopKind)
    requires x in s.objs && x != o && Tight(s, o, k)
    ensures Tight(ReleaseAll(SetFlag(s, x, CLOSED), x), o, k)
  {
    var t := ReleaseAll(SetFlag(s, x, CLOSED), x);
    forall id | Pends(s, o, k, id) ensures Pends(t, o, k, id) {}
  }

  lemma CleanupTight(s: Sys, x: ObjId, o: ObjId, k: LoopKind)
    requires x in s.objs && (x != o ==> Tight(s, o, k)) && (CLOSED in s.objs[x].flags ==> Tight(s, o, k))
    ensures Tight(Cleanup(s, x), o, k)
  {
    if CLOSED !in s.objs[x].flags {
      if x != o { ReleaseTight(s, x, o, k); }
      var t := ReleaseAll(SetFlag(s, x, CLOSED), x);
      var u := PutObj(t, x, t.objs[x].(visible := false, native := false));
      forall id | Pends(t, o, k, id) && x != o ensures Pends(u, o, k, id) {}
      PushTight(u, Frame(x, FreeObject), o, k);
    }
  }

  lemma EpCloseTight(s: Sys, x: ObjId, start: Start, o: ObjId, k: LoopKind)
    requires x in s.objs && Fresh(s, start) && Tight(s, o, k) && !(x == o && CloseDrops(s, o, k))
    ensures Tight(EpClose(s, x, start), o, k)
  {
    if CLOSED !in s.objs[x].flags && x != o {
      ReleaseTight(s, x, o, k);
      var t := ReleaseAll(SetFlag(s, x, CLOSED), x);
      var u := ClearFlag(t, x, CLOSED);
      forall id | Pends(t, o, k, id) ensures Pends(u, o, k, id) {}
      StartTight(u, x, CloseOp, start, o, k);
    }
  }

  lemma NativeTight(s: Sys, x: ObjId, native: bool, o: ObjId, k: LoopKind)
    requires x in s.objs && Tight(s, o, k)
    ensures Tight(PutObj(s, x, s.objs[x].(native := native)), o, k)
  {
    var t := PutObj(s, x, s.objs[x].(native := native));
    forall id | Pends(s, o, k, id) ensures Pends(t, o, k, id) {}
  }

  lemma GainTight(s: Sys, x: ObjId, start: Start, o: ObjId, k: LoopKind)
    requires x in s.objs && Fresh(s, start) && Tight(s, o, k)
    requires !(x == o && k.GossipRecv? && s.objs[x].kind.Topic? && BeginFails(s.objs[x].(native := true), k, start))
    ensures Tight(Gain(s, x, start), o, k)
  {
    NativeTight(s, x, true, o, k);
    var t := PutObj(s, x, s.objs[x].(native := true));
    if t.objs[x].kind.Topic? { BeginTight(t, x, GossipRecv, start, o, k); }
  }

  lemma LoopDeliveryTight(s: Sys, step: Step, o: ObjId, k: LoopKind)
    requires Inv(s) && Enabled(s, step) && (step.LoopFailed? || step.LoopReady?)
    requires Tight(s, o, k) && !Breaks(s, step, o, k)
    ensures Tight(Apply(s, step), o, k)
  {
    var x, j := s.ops[step.op].owner, s.ops[step.op].kind.loop;
    assert ObjOk(s.ops, x, s.objs[x]) && EntryOk(s.ops, x, s.objs[x], step.op);
    ConsumeTight(s, step.op, o, k);
    var t := Consume(s, step.op);
    if step.fires {
      PushTight(t, Frame(x, Stop(j)), o, k);
      PushTight(t, Frame(x, Restart(j)), o, k);
    } else if step.LoopReady? && !(j.ReadData? && step.finished) {
      RestartTight(t, x, j, step.start, o, k);
    } else {
      StopTight(t, x, j, o, k);
    }
  }

  lemma OneShotTight(s: Sys, op: OpId, gains: bool, start: Start, fires: bool, cont: Cont, o: ObjId, k: LoopKind)
    requires Inv(s) && Linked(s, op) && s.ops[op].kind.OneShot? && Fresh(s, start) && Tight(s, o, k)
    requires !(s.ops[op].owner == o && gains && s.objs[o].kind.Topic? && k.GossipRecv?
               && BeginFails(s.objs[o].(native := true), k, start))
    ensures Tight(OneShotStep(s, op, gains, start, fires, cont), o, k)
  {
    ConsumeTight(s, op, o, k);
    var x, t := s.ops[op].owner, Consume(s, op);
    if gains { GainTight(t, x, start, o, k); }
    PushTight(if gains then Gain(t, x, start) else t, Frame(x, cont), o, k);
  }

  lemma CloseTight(s: Sys, op: OpId, o: ObjId, k: LoopKind)
    requires Inv(s) && Linked(s, op) && s.ops[op].kind.CloseOp? && Tight(s, o, k)
    ensures Tight(CloseStep(s, op), o, k)
  {
    ConsumeTight(s, op, o, k);
    var x, t := s.ops[op].owner, Consume(s, op);
    NativeTight(t, x, false, o, k);
    CleanupTight(PutObj(t, x, t.objs[x].(native := false)), x, o, k);
  }

  lemma PopTight(s: Sys, o: ObjId, k: LoopKind)
    requires s.frames != [] && Tight(s, o, k)
    ensures var t := s.(frames := s.frames[..|s.frames| - 1]);
            var f := s.frames[|s.frames| - 1];
            Tight(t, o, k) || f == Frame(o, Restart(k)) || f == Frame(o, Stop(k))
  {
    var t := s.(frames := s.frames[..|s.frames| - 1]);
    var f := s.frames[|s.frames| - 1];
    assert s.frames == t.frames + [f];
    forall id | Pends(s, o, k, id) ensures Pends(t, o, k, id) {}
  }

  lemma OnlineTight(s: Sys, x: ObjId, start: Start, start2: Start, listening: bool, o: ObjId, k: LoopKind)
    requires x in s.objs && Fresh(s, start) && Fresh(s, start2) && (start.Started? ==> start != start2)
    requires Tight(s, o, k)
    requires !(x == o && OnlineBreaks(s.objs[x], listening, start2, k))
    ensures Tight(GoOnline(s, x, start, start2, listening), o, k)
  {
    StartTight(s, x, OneShot, start, o, k);
    var t := StartAsync(s, x, OneShot, start);
    if listening && t.objs[x].kind.Endpoint? { BeginTight(t, x, Accept, start2, o, k); }
  }

  lemma FreeTight(s: Sys, x: ObjId, o: ObjId, k: LoopKind)
    requires x in s.objs && Tight(s, o, k)
    ensures Tight(PutObj(s, x, s.objs[x].(freed := true)), o, k)
  {
    var t := PutObj(s, x, s.objs[x].(freed := true));
    forall id | Pends(s, o, k, id) ensures Pends(t, o, k, id) {}
  }

  /** The tail of the handler whose frame was `f`. */
  lemma TailTight(s: Sys, f: Frame, start: Start, start2: Start, listening: bool, o: ObjId, k: LoopKind)
    requires f.obj in s.objs && Fresh(s, start) && Fresh(s, start2) && (start.Started? ==> start != start2)
    requires f.cont.Restart? || f.cont.Stop? ==> s.objs[f.obj].kind == Home(f.cont.loop)
    requires !ResumeBreaks(s, f, start, start2, listening, o, k)
    requires Tight(s, o, k) || f == Frame(o, Restart(k)) || f == Frame(o, Stop(k))
    ensures Tight(Resume(s, f, start, start2, listening), o, k)
  {
    match f.cont
    case Restart(j) => RestartTight(s, f.obj, j, start, o, k);
    case Stop(j) => StopTight(s, f.obj, j, o, k);
    case AfterReady => StartTight(s, f.obj, OneShot, start, o, k);
    case AfterOnline => OnlineTight(s, f.obj, start, start2, listening, o, k);
    case FreeObject => FreeTight(s, f.obj, o, k);
    case _ =>
  }

  lemma ReturnTight(s: Sys, start: Start, start2: Start, listening: bool, o: ObjId, k: LoopKind)
    requires Inv(s) && Enabled(s, Return(start, start2, listening)) && Tight(s, o, k)
    requires !ReturnBreaks(s, start, start2, listening, o, k)
    ensures Tight(ReturnStep(s, start, start2, listening), o, k)
  {
    PopTight(s, o, k);
    var f := s.frames[|s.frames| - 1];
    assert FrameOk(s, |s.frames| - 1);
    var t := s.(frames := s.frames[..|s.frames| - 1]);
    TailTight(t, f, start, start2, listening, o, k);
  }

  lemma StepTight(s: Sys, step: Step, o: ObjId, k: LoopKind)
    requires Inv(s) && Enabled(s, step) && Tight(s, o, k) && !Breaks(s, step, o, k)
    ensures Tight(Apply(s, step), o, k)
  {
    match step
    case Create(x, kind, native, start) =>
      var t := PutObj(s, x, Obj(kind, {}, native, [], true, false));
      forall id | Pends(s, o, k, id) ensures Pends(t, o, k, id) {}
      StartTight(t, x, OneShot, start, o, k);
    case CallMethod(x, start) => StartTight(s, x, OneShot, start, o, k);
    case CallOn(x, j, start) => BeginTight(s, x, j, start, o, k);
    case CallDestroy(x) => CleanupTight(s, x, o, k);
    case CallEpClose(x, start) => EpCloseTight(s, x, start, o, k);
    case Return(start, start2, listening) => ReturnTight(s, start, start2, listening, o, k);
    case OneShotDone(op, gains, start, fires, cont) => OneShotTight(s, op, gains, start, fires, cont, o, k);
    case CloseDone(op) => CloseTight(s, op, o, k);
    case _ => LoopDeliveryTight(s, step, o, k);
  }

  // ---------------------------------------------------------------- those steps do break it

  /** A raised flag over an idle loop. */
  lemma RaisedOverIdle(s: Sys, o: ObjId, k: LoopKind)
    requires Has(s, o, k) && FlagOf(k) in s.objs[o].flags && LoopIdle(s, o, k)
    ensures !Tight(s, o, k)
  {
    forall id ensures !Pends(s, o, k, id) {}
  }

  lemma BeginBreaks(s: Sys, o: ObjId, k: LoopKind, start: Start)
    requires Inv(s) && Has(s, o, k) && BeginFails(s.objs[o], k, start)
    ensures !Tight(BeginLoop(s, o, k, start), o, k)
  {
    UnsetFlagIsIdle(s, o, k);
    RaisedOverIdle(SetFlag(s, o, FlagOf(k)), o, k);
  }

  lemma CloseBreaks(s: Sys, o: ObjId, k: LoopKind, start: Start)
    requires Fresh(s, start) && CloseDrops(s, o, k)
    ensures !Tight(EpClose(s, o, start), o, k)
  {
    var t := EpClose(s, o, start);
    forall id ensures !Pends(t, o, k, id) {}
  }

  lemma LoopReadyBreaks(s: Sys, op: OpId, finished: bool, start: Start, o: ObjId, k: LoopKind)
    requires Inv(s) && s.frames == [] && Linked(s, op) && s.ops[op].owner == o && s.ops[op].kind == LoopOp(k)
    requires !(k.ReadData? && finished) && RestartFails(s.objs[o], start)
    ensures !Tight(LoopReadyStep(s, op, false, finished, start), o, k)
  {
    assert ObjOk(s.ops, o, s.objs[o]);
    ConsumeKeeps(s, op);
    RaisedOverIdle(Consume(s, op), o, k);
  }

  lemma GainBreaks(s: Sys, op: OpId, start: Start, fires: bool, cont: Cont, o: ObjId)
    requires Inv(s) && Linked(s, op) && s.ops[op].owner == o && s.objs[o].kind.Topic?
    requires BeginFails(s.objs[o].(native := true), GossipRecv, start)
    requires cont.AfterReady? || cont.AfterOnline? || cont.AfterDrain? || cont.Leave?
    ensures !Tight(OneShotStep(s, op, true, start, fires, cont), o, GossipRecv)
  {
    assert ObjOk(s.ops, o, s.objs[o]);
    ConsumeKeeps(s, op);
    var t := Consume(s, op);
    NativeKeeps(t, o, true);
    var u := PutObj(t, o, t.objs[o].(native := true));
    UnsetFlagIsIdle(u, o, GossipRecv);
    RaisedOverIdle(SetFlag(u, o, READING), o, GossipRecv);
    RaisedOverIdle(Push(SetFlag(u, o, READING), Frame(o, cont)), o, GossipRecv);
  }

  lemma ReturnDoesBreak(s: Sys, start: Start, start2: Start, listening: bool, o: ObjId, k: LoopKind)
    requires Inv(s) && Enabled(s, Return(start, start2, listening)) && ReturnBreaks(s, start, start2, listening, o, k)
    ensures !Tight(ReturnStep(s, start, start2, listening), o, k)
  {
    PopKeeps(s);
    var f := s.frames[|s.frames| - 1];
    var t := s.(frames := s.frames[..|s.frames| - 1]);
    if f.cont.Restart? {
      RaisedOverIdle(t, o, k);
    } else {
      StartKeeps(t, o, OneShot, start);
      BeginBreaks(StartAsync(t, o, OneShot, start), o, k, start2);
    }
  }

  lemma StepBreaks(s: Sys, step: Step, o: ObjId, k: LoopKind)
    requires Inv(s) && Enabled(s, step) && Breaks(s, step, o, k)
    ensures !Tight(Apply(s, step), o, k)
  {
    match step
    case CallOn(_, _, start) => BeginBreaks(s, o, k, start);
    case CallEpClose(_, start) => CloseBreaks(s, o, k, start);
    case LoopReady(op, _, finished, start) => LoopReadyBreaks(s, op, finished, start, o, k);
    case OneShotDone(op, _, start, fires, cont) => GainBreaks(s, op, start, fires, cont, o);
    case Return(start, start2, listening) => ReturnDoesBreak(s, start, start2, listening, o, k);
    case _ =>
  }

  // ---------------------------------------------------------------- over runs

  /** The flag of a live object is raised exactly while its loop is running. */
  ghost predicate Exact(s: Sys, o: ObjId, k: LoopKind) {
    Has(s, o, k) ==> (FlagOf(k) in s.objs[o].flags <==> Busy(s, o, k))
  }

  lemma TightIsExact(s: Sys, o: ObjId, k: LoopKind)
    requires Inv(s)
    ensures Exact(s, o, k) <==> Tight(s, o, k)
  {
    if Has(s, o, k) && FlagOf(k) !in s.objs[o].flags { UnsetFlagIsIdle(s, o, k); }
  }

  ghost predicate AlwaysExact(s: Sys, run: seq<Step>, o: ObjId, k: LoopKind)
    requires Valid(s, run)
    decreases |run|
  {
    Exact(s, o, k) && (run == [] || AlwaysExact(Apply(s, run[0]), run[1..], o, k))
  }

  /** No step of the run is one that breaks the loop. */
  predicate Orderly(s: Sys, run: seq<Step>, o: ObjId, k: LoopKind)
    requires Valid(s, run)
    decreases |run|
  {
    run == [] || (!Breaks(s, run[0], o, k) && Orderly(Apply(s, run[0]), run[1..], o, k))
  }

  lemma {:induction false} ExactFrom(s: Sys, run: seq<Step>, o: ObjId, k: LoopKind)
    requires Inv(s) && Valid(s, run) && Tight(s, o, k)
    ensures AlwaysExact(s, run, o, k) <==> Orderly(s, run, o, k)
    decreases |run|
  {
    TightIsExact(s, o, k);
    if run != [] {
      StepKeepsInv(s, run[0]);
      TightIsExact(Apply(s, run[0]), o, k);
      if Breaks(s, run[0], o, k) {
        StepBreaks(s, run[0], o, k);
      } else {
        StepTight(s, run[0], o, k);
        ExactFrom(Apply(s, run[0]), run[1..], o, k);
      }
    }
  }

  /**
   * The flag and the loop, over every run: a live object's flag is raised exactly while the
   * loop has an operation pending or its handler suspended, in every state of the run, if and
   * only if no step of the run starts this very loop without getting the operation registered,
   * and none closes the open endpoint while the accept loop waits.
   */
  lemma FlagMeansRunningIff(run: seq<Step>, o: ObjId, k: LoopKind)
    requires Valid(Empty(), run)
    ensures AlwaysExact(Empty(), run, o, k) <==> Orderly(Empty(), run, o, k)
  {
    ExactFrom(Empty(), run, o, k);
  }

  /** One step: from a state in which the flag means the loop, exactly those steps end that. */
  lemma StepBreaksIff(run: seq<Step>, step: Step, o: ObjId, k: LoopKind)
    requires Valid(Empty(), run)
    requires var s := After(Empty(), run); Enabled(s, step) && Exact(s, o, k)
    ensures var s := After(Empty(), run); !Exact(Apply(s, step), o, k) <==> Breaks(s, step, o, k)
  {
    RunKeepsInv(Empty(), run);
    var s := After(Empty(), run);
    StepKeepsInv(s, step);
    TightIsExact(s, o, k);
    TightIsExact(Apply(s, step), o, k);
    if Breaks(s, step, o, k) { StepBreaks(s, step, o, k); } else { StepTight(s, step, o, k); }
  }

  // ---------------------------------------------------------------- two failing runs

  /** The accept operation cannot be registered: the flag is up, and registering again does nothing. */
  lemma UnregisteredLoopIsStuck(start: Start)
    requires Fresh(Empty(), start)
    ensures var run := [Create(0, Endpoint, true, NoHandle), CallOn(0, Accept, NoEvent)];
            && Valid(Empty(), run)
            && var s := After(Empty(), run);
               && !Exact(s, 0, Accept) && s.objs[0].pending == [] && s.frames == []
               && Enabled(s, CallOn(0, Accept, start)) && Apply(s, CallOn(0, Accept, start)) == s
  {
    var a, b := Create(0, Endpoint, true, NoHandle), CallOn(0, Accept, NoEvent);
    Closing.TwoSteps(Empty(), a, b);
    RaisedOverIdle(Apply(Apply(Empty(), a), b), 0, Accept);
  }

  /** Closing an endpoint that waits for connections: the flag stays up over the cancelled accept. */
  lemma ClosedLoopIsStuck()
    ensures var run := [Create(0, Endpoint, true, NoHandle), CallOn(0, Accept, Started(0)), CallEpClose(0, Started(1))];
            && Valid(Empty(), run)
            && var s := After(Empty(), run);
               !Exact(s, 0, Accept) && s.objs[0].pending == [1] && s.ops[1].kind == CloseOp && s.frames == []
  {
    var a, b, c := Create(0, Endpoint, true, NoHandle), CallOn(0, Accept, Started(0)), CallEpClose(0, Started(1));
    Closing.ThreeSteps(Empty(), a, b, c);
    RaisedOverIdle(Apply(Apply(Apply(Empty(), a), b), c), 0, Accept);
  }
}
