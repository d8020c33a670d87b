/**
 * The module's runtime: JavaScript objects with flag bits and pending tables, operation
 * records, and handlers that call user code which may call back into the module.  A handler
 * suspended in user code is a frame that remembers what it does next; steps are the
 * completions the event loop delivers, the calls user code makes, and the returns of user code.
 */
module Runtime {
  import opened Common
  import PendingTable

  type ObjId = nat
  type OpId = PendingTable.OpId

  datatype ObjKind = Endpoint | Connection | Stream | Topic | Service

  /** The self-restarting receive loops. */
  datatype LoopKind = Accept | AcceptBi | ReadData | Datagram | GossipRecv

  datatype Flag = CLOSED | ACCEPTING | READING | STREAM_ACCEPT | DATAGRAM_RECV

  datatype OpKind = LoopOp(loop: LoopKind) | CloseOp | OneShot

  function Home(k: LoopKind): ObjKind {
    match k
    case Accept => Endpoint
    case AcceptBi => Connection
    case ReadData => Stream
    case Datagram => Connection
    case GossipRecv => Topic
  }

  function FlagOf(k: LoopKind): Flag {
    match k
    case Accept => ACCEPTING
    case AcceptBi => STREAM_ACCEPT
    case ReadData => READING
    case Datagram => DATAGRAM_RECV
    case GossipRecv => READING
  }

  /**
   * `native` is the handle the loops use (endpoint, connection, receive stream or topic);
   * `visible` says the JavaScript object still holds the pointer; `freed` that it was freed.
   */
  datatype Obj = Obj(kind: ObjKind, flags: set<Flag>, native: bool, pending: seq<OpId>, visible: bool, freed: bool)

  /** How often the record was released and how often its handler ran. */
  datatype Op = Op(owner: ObjId, kind: OpKind, releases: nat, handled: nat)

  /** What a handler does when the user code it called returns. */
  datatype Cont =
    | Restart(loop: LoopKind)     // test CLOSED and the native handle, then start the next operation
    | Stop(loop: LoopKind)        // clear the loop's flag; a read loop then fires "end"
    | AfterReady                  // start wait_online
    | AfterOnline                 // auto-connect, then the accept loop
    | AfterDrain                  // look at FINISH_PENDING
    | Leave                       // touch nothing
    | FreeObject                  // free(ictx) at the end of iroh_cleanup

  datatype Frame = Frame(obj: ObjId, cont: Cont)

  datatype Sys = Sys(objs: map<ObjId, Obj>, ops: map<OpId, Op>, frames: seq<Frame>)

  /** Outcome of asking for a native operation and registering it. */
  datatype Start = NoHandle | NoEvent | Started(op: OpId)

  datatype Step =
    | Create(o: ObjId, kind: ObjKind, native: bool, start: Start)
    | CallMethod(o: ObjId, start: Start)
    | CallOn(o: ObjId, loop: LoopKind, start: Start)
    | CallDestroy(o: ObjId)
    | CallEpClose(o: ObjId, start: Start)
    | LoopFailed(op: OpId, fires: bool)
    | LoopReady(op: OpId, fires: bool, finished: bool, start: Start)
    | OneShotDone(op: OpId, gains: bool, start: Start, fires: bool, cont: Cont)
    | CloseDone(op: OpId)
    | Return(start: Start, start2: Start, listening: bool)

  // ---------------------------------------------------------------- primitive updates

  function PutObj(s: Sys, o: ObjId, obj: Obj): Sys { s.(objs := s.objs[o := obj]) }

  function SetFlag(s: Sys, o: ObjId, f: Flag): Sys
    requires o in s.objs
  {
    PutObj(s, o, s.objs[o].(flags := s.objs[o].flags + {f}))
  }

  function ClearFlag(s: Sys, o: ObjId, f: Flag): Sys
    requires o in s.objs
  {
    PutObj(s, o, s.objs[o].(flags := s.objs[o].flags - {f}))
  }

  /** iroh_start_async with a usable handle: a new record at the end of the owner's table. */
  function Link(s: Sys, o: ObjId, kind: OpKind, op: OpId): Sys
    requires o in s.objs
  {
    s.(objs := s.objs[o := s.objs[o].(pending := s.objs[o].pending + [op])],
       ops := s.ops[op := Op(o, kind, 0, 0)])
  }

  function StartAsync(s: Sys, o: ObjId, kind: OpKind, start: Start): Sys
    requires o in s.objs
  {
    if start.Started? then Link(s, o, kind, start.op) else s
  }

  /** The dispatch of `op`: its handler runs and iroh_free_async_op unlinks and frees the record. */
  function Consume(s: Sys, op: OpId): Sys
    requires op in s.ops && s.ops[op].owner in s.objs
  {
    var r := s.ops[op];
    var obj := s.objs[r.owner];
    s.(objs := s.objs[r.owner := obj.(pending := PendingTable.RemoveOne(obj.pending, op))],
       ops := s.ops[op := r.(releases := r.releases + 1, handled := r.handled + 1)])
  }

  /** The cancel-and-free loop of iroh_cleanup and endpoint.close: one release per table entry. */
  function ReleaseAll(s: Sys, o: ObjId): Sys
    requires o in s.objs
  {
    var entries := multiset(s.objs[o].pending);
    s.(objs := s.objs[o := s.objs[o].(pending := [])],
       ops := map id | id in s.ops :: s.ops[id].(releases := s.ops[id].releases + entries[id]))
  }

  function Push(s: Sys, f: Frame): Sys { s.(frames := s.frames + [f]) }

  /** iroh_cleanup up to and including the "close" event. */
  function Cleanup(s: Sys, o: ObjId): Sys
    requires o in s.objs
  {
    if CLOSED in s.objs[o].flags then s
    else
      var t := ReleaseAll(SetFlag(s, o, CLOSED), o);
      Push(PutObj(t, o, t.objs[o].(visible := false, native := false)), Frame(o, FreeObject))
  }

  /** iroh_start_accept_loop and its four siblings. */
  function BeginLoop(s: Sys, o: ObjId, k: LoopKind, start: Start): Sys
    requires o in s.objs
  {
    var obj := s.objs[o];
    if !obj.native || CLOSED in obj.flags || FlagOf(k) in obj.flags then s
    else if start.NoHandle? then ClearFlag(SetFlag(s, o, FlagOf(k)), o, FlagOf(k))
    else StartAsync(SetFlag(s, o, FlagOf(k)), o, LoopOp(k), start)
  }

  /** The tail of the iroh_on_* loop handlers. */
  function RestartLoop(s: Sys, o: ObjId, k: LoopKind, start: Start): Sys
    requires o in s.objs
  {
    var obj := s.objs[o];
    if CLOSED in obj.flags || !obj.native || start.NoHandle? then ClearFlag(s, o, FlagOf(k))
    else StartAsync(s, o, LoopOp(k), start)
  }

  /** Clears the flag; a read loop then fires "end", which is user code with nothing after it. */
  function StopLoop(s: Sys, o: ObjId, k: LoopKind): Sys
    requires o in s.objs
  {
    var t := ClearFlag(s, o, FlagOf(k));
    if k.ReadData? then Push(t, Frame(o, Leave)) else t
  }

  // ---------------------------------------------------------------- steps

  /** The suspended handler reads or writes its object again. */
  predicate Touches(c: Cont) { !c.Leave? && !c.FreeObject? }

  predicate Fresh(s: Sys, start: Start) { start.Started? ==> start.op !in s.ops }

  predicate Linked(s: Sys, op: OpId) {
    op in s.ops && s.ops[op].owner in s.objs && op in s.objs[s.ops[op].owner].pending
  }

  /** What may happen at all. */
  predicate Possible(s: Sys, step: Step) {
    match step
    case Create(o, _, _, start) => o !in s.objs && Fresh(s, start)
    case CallMethod(o, start) => o in s.objs && s.objs[o].visible && Fresh(s, start)
    case CallOn(o, k, start) =>
      o in s.objs && s.objs[o].visible && s.objs[o].kind == Home(k) && !k.GossipRecv? && Fresh(s, start)
    case CallDestroy(o) => o in s.objs && s.objs[o].visible && s.objs[o].kind != Endpoint
    case CallEpClose(o, start) => o in s.objs && s.objs[o].visible && s.objs[o].kind == Endpoint && Fresh(s, start)
    case LoopFailed(op, _) => s.frames == [] && Linked(s, op) && s.ops[op].kind.LoopOp?
    case LoopReady(op, _, _, start) => s.frames == [] && Linked(s, op) && s.ops[op].kind.LoopOp? && Fresh(s, start)
    case OneShotDone(op, _, start, _, cont) =>
      && s.frames == [] && Linked(s, op) && s.ops[op].kind.OneShot? && Fresh(s, start)
      && (cont.AfterReady? || cont.AfterOnline? || cont.AfterDrain? || cont.Leave?)
    case CloseDone(op) => s.frames == [] && Linked(s, op) && s.ops[op].kind.CloseOp?
    case Return(start, start2, _) =>
      s.frames != [] && Fresh(s, start) && Fresh(s, start2) && (start.Started? ==> start != start2)
  }

  /** Tearing down `o` now leaves no suspended handler that looks at it again. */
  predicate MayDestroy(s: Sys, o: ObjId)
    requires o in s.objs
  {
    CLOSED in s.objs[o].flags || forall f <- s.frames :: f.obj == o ==> !Touches(f.cont)
  }

  /** Possible, and not a destroy under a handler that looks at the object again. */
  predicate Enabled(s: Sys, step: Step) {
    Possible(s, step) && (step.CallDestroy? ==> MayDestroy(s, step.o))
  }

  /** endpoint.close: cancel everything, then a graceful close if there is an endpoint to close. */
  function EpClose(s: Sys, o: ObjId, start: Start): Sys
    requires o in s.objs
  {
    if CLOSED in s.objs[o].flags then s
    else
      var t := ReleaseAll(SetFlag(s, o, CLOSED), o);
      if t.objs[o].native && !start.NoHandle? then StartAsync(ClearFlag(t, o, CLOSED), o, CloseOp, start)
      else Cleanup(t, o)
  }

  function LoopReadyStep(s: Sys, op: OpId, fires: bool, finished: bool, start: Start): Sys
    requires Linked(s, op) && s.ops[op].kind.LoopOp?
  {
    var o, k := s.ops[op].owner, s.ops[op].kind.loop;
    var t := Consume(s, op);
    if k.ReadData? && finished then
      if fires then Push(t, Frame(o, Stop(k))) else StopLoop(t, o, k)
    else
      if fires then Push(t, Frame(o, Restart(k))) else RestartLoop(t, o, k, start)
  }

  /** Storing the native handle; a topic then starts its receive loop. */
  function Gain(s: Sys, o: ObjId, start: Start): Sys
    requires o in s.objs
  {
    var t := PutObj(s, o, s.objs[o].(native := true));
    if t.objs[o].kind.Topic? then BeginLoop(t, o, GossipRecv, start) else t
  }

  /** A completion outside the loops: it may yield the native handle, and fires an event. */
  function OneShotStep(s: Sys, op: OpId, gains: bool, start: Start, fires: bool, cont: Cont): Sys
    requires Linked(s, op)
  {
    var o := s.ops[op].owner;
    var t := Consume(s, op);
    var u := if gains then Gain(t, o, start) else t;
    if fires then Push(u, Frame(o, cont)) else u
  }

  function CloseStep(s: Sys, op: OpId): Sys
    requires Linked(s, op)
  {
    var o := s.ops[op].owner;
    var t := Consume(s, op);
    Cleanup(PutObj(t, o, t.objs[o].(native := false)), o)
  }

  /** The tail of iroh_on_endpoint_online: auto-connect, then the accept loop if somebody listens. */
  function GoOnline(s: Sys, o: ObjId, start: Start, start2: Start, listening: bool): Sys
    requires o in s.objs
  {
    var t := StartAsync(s, o, OneShot, start);
    if listening && t.objs[o].kind.Endpoint? then BeginLoop(t, o, Accept, start2) else t
  }

  /** What the handler suspended as `f` does when the user code it called returns. */
  function Resume(s: Sys, f: Frame, start: Start, start2: Start, listening: bool): Sys {
    if f.obj !in s.objs then s
    else
      match f.cont
      case Restart(k) => RestartLoop(s, f.obj, k, start)
      case Stop(k) => StopLoop(s, f.obj, k)
      case AfterReady => StartAsync(s, f.obj, OneShot, start)
      case AfterOnline => GoOnline(s, f.obj, start, start2, listening)
      case AfterDrain => s
      case Leave => s
      case FreeObject => PutObj(s, f.obj, s.objs[f.obj].(freed := true))
  }

  function ReturnStep(s: Sys, start: Start, start2: Start, listening: bool): Sys
    requires s.frames != []
  {
    Resume(s.(frames := s.frames[..|s.frames| - 1]), s.frames[|s.frames| - 1], start, start2, listening)
  }

  function Apply(s: Sys, step: Step): Sys
    requires Possible(s, step)
  {
    match step
    case Create(o, kind, native, start) =>
      StartAsync(PutObj(s, o, Obj(kind, {}, native, [], true, false)), o, OneShot, start)
    case CallMethod(o, start) => StartAsync(s, o, OneShot, start)
    case CallOn(o, k, start) => BeginLoop(s, o, k, start)
    case CallDestroy(o) => Cleanup(s, o)
    case CallEpClose(o, start) => EpClose(s, o, start)
    case LoopFailed(op, fires) =>
      var o, k := s.ops[op].owner, s.ops[op].kind.loop;
      if fires then Push(Consume(s, op), Frame(o, Stop(k))) else StopLoop(Consume(s, op), o, k)
    case LoopReady(op, fires, finished, start) => LoopReadyStep(s, op, fires, finished, start)
    case OneShotDone(op, gains, start, fires, cont) => OneShotStep(s, op, gains, start, fires, cont)
    case CloseDone(op) => CloseStep(s, op)
    case Return(start, start2, listening) => ReturnStep(s, start, start2, listening)
  }

  predicate Valid(s: Sys, run: seq<Step>)
    decreases |run|
  {
    run == [] || (Enabled(s, run[0]) && Valid(Apply(s, run[0]), run[1..]))
  }

  function After(s: Sys, run: seq<Step>): Sys
    requires Valid(s, run)
    decreases |run|
  {
    if run == [] then s else After(Apply(s, run[0]), run[1..])
  }

  function Empty(): Sys { Sys(map[], map[], []) }

  // ---------------------------------------------------------------- invariant

  /** A live table entry is this object's, unreleased; loop entries are flagged and one per kind. */
  predicate EntryOk(ops: map<OpId, Op>, o: ObjId, obj: Obj, id: OpId) {
    && id in ops && ops[id].owner == o && ops[id].releases == 0
    && (ops[id].kind.LoopOp? ==> obj.kind == Home(ops[id].kind.loop) && FlagOf(ops[id].kind.loop) in obj.flags)
  }

  predicate ObjOk(ops: map<OpId, Op>, o: ObjId, obj: Obj) {
    && NoDuplicates(obj.pending)
    && (forall id <- obj.pending :: EntryOk(ops, o, obj, id))
    && (forall a <- obj.pending, b <- obj.pending :: a != b && ops[a].kind.LoopOp? ==> ops[a].kind != ops[b].kind)
    && (!obj.visible ==> obj.pending == [] && CLOSED in obj.flags)
    && (obj.freed ==> !obj.visible)
  }

  predicate OpOk(s: Sys, id: OpId)
    requires id in s.ops
  {
    var r := s.ops[id];
    && r.owner in s.objs && r.handled <= r.releases <= 1
    && (r.releases == 0 ==> id in s.objs[r.owner].pending)
  }

  /** A handler of loop `k` on `o` is suspended: the flag is up and nothing of that kind is pending. */
  predicate LoopHeld(s: Sys, o: ObjId, k: LoopKind) {
    && o in s.objs && s.objs[o].kind == Home(k) && FlagOf(k) in s.objs[o].flags
    && forall id <- s.objs[o].pending :: id in s.ops ==> s.ops[id].kind != LoopOp(k)
  }

  predicate FrameOk(s: Sys, i: nat)
    requires i < |s.frames|
  {
    var f := s.frames[i];
    && f.obj in s.objs
    && (Touches(f.cont) ==> s.objs[f.obj].visible)
    && (f.cont.Restart? || f.cont.Stop? ==> LoopHeld(s, f.obj, f.cont.loop))
    && (f.cont.FreeObject? ==> !s.objs[f.obj].visible && !s.objs[f.obj].freed)
    && (i != 0 ==> f.cont.FreeObject?)
  }

  predicate FramesOk(s: Sys) {
    && (forall i :: 0 <= i < |s.frames| ==> FrameOk(s, i))
    && (forall i, j :: 0 <= i < j < |s.frames| && s.frames[i].cont.FreeObject? ==> s.frames[i].obj != s.frames[j].obj)
  }

  predicate Inv(s: Sys) {
    && (forall o <- s.objs :: ObjOk(s.ops, o, s.objs[o]))
    && (forall id <- s.ops :: OpOk(s, id))
    && FramesOk(s)
  }

  // ---------------------------------------------------------------- primitive updates keep it

  /** Nothing of loop `k` is pending on `o` and no handler of it is suspended. */
  predicate LoopIdle(s: Sys, o: ObjId, k: LoopKind) {
    && o in s.objs
    && (forall id <- s.objs[o].pending :: id in s.ops ==> s.ops[id].kind != LoopOp(k))
    && (forall f <- s.frames :: f.obj == o && (f.cont.Restart? || f.cont.Stop?) ==> f.cont.loop != k)
  }

  predicate MayLink(s: Sys, o: ObjId, kind: OpKind, op: OpId) {
    && o in s.objs && s.objs[o].visible && op !in s.ops
    && (kind.LoopOp? ==>
          s.objs[o].kind == Home(kind.loop) && FlagOf(kind.loop) in s.objs[o].flags && LoopIdle(s, o, kind.loop))
  }

  lemma LinkObjOk(s: Sys, o: ObjId, kind: OpKind, op: OpId, p: ObjId)
    requires Inv(s) && MayLink(s, o, kind, op) && p in s.objs
    ensures ObjOk(Link(s, o, kind, op).ops, p, Link(s, o, kind, op).objs[p])
  {
    var t := Link(s, o, kind, op);
    var was := s.objs[p].pending;
    assert ObjOk(s.ops, p, s.objs[p]);
    assert op in was ==> EntryOk(s.ops, p, s.objs[p], op);
    forall id <- t.objs[p].pending ensures EntryOk(t.ops, p, t.objs[p], id) {
      if id != op { assert EntryOk(s.ops, p, s.objs[p], id); }
    }
    forall a <- t.objs[p].pending, b <- t.objs[p].pending | a != b && t.ops[a].kind.LoopOp?
      ensures t.ops[a].kind != t.ops[b].kind
    {
      if a in was { assert EntryOk(s.ops, p, s.objs[p], a); }
      if b in was { assert EntryOk(s.ops, p, s.objs[p], b); }
    }
  }

  lemma LinkKeeps(s: Sys, o: ObjId, kind: OpKind, op: OpId)
    requires Inv(s) && MayLink(s, o, kind, op)
    ensures Inv(Link(s, o, kind, op))
  {
    var t := Link(s, o, kind, op);
    forall p <- t.objs ensures ObjOk(t.ops, p, t.objs[p]) { LinkObjOk(s, o, kind, op, p); }
    forall id <- t.ops ensures OpOk(t, id) {
      if id != op { assert OpOk(s, id); }
    }
    forall i | 0 <= i < |t.frames| ensures FrameOk(t, i) { assert FrameOk(s, i); assert s.frames[i] in s.frames; }
  }

  lemma ConsumeKeeps(s: Sys, op: OpId)
    requires Inv(s) && Linked(s, op)
    ensures Inv(Consume(s, op))
    ensures s.ops[op].kind.LoopOp? && s.frames == [] ==> LoopIdle(Consume(s, op), s.ops[op].owner, s.ops[op].kind.loop)
    ensures s.ops[op].kind.LoopOp? ==> LoopHeld(Consume(s, op), s.ops[op].owner, s.ops[op].kind.loop)
  {
    var o := s.ops[op].owner;
    var t := Consume(s, op);
    assert ObjOk(s.ops, o, s.objs[o]);
    assert EntryOk(s.ops, o, s.objs[o], op);
    PendingTable.RemoveOneNoDuplicates(s.objs[o].pending, op);
    forall p <- t.objs ensures ObjOk(t.ops, p, t.objs[p]) {
      assert ObjOk(s.ops, p, s.objs[p]);
      forall id <- t.objs[p].pending ensures EntryOk(t.ops, p, t.objs[p], id) {
        assert EntryOk(s.ops, p, s.objs[p], id);
      }
    }
    forall id <- t.ops ensures OpOk(t, id) { assert OpOk(s, id); }
    forall i | 0 <= i < |t.frames| ensures FrameOk(t, i) { assert FrameOk(s, i); }
  }

  lemma ReleaseAllKeeps(s: Sys, o: ObjId)
    requires Inv(s) && o in s.objs
    ensures Inv(ReleaseAll(s, o))
  {
    var t := ReleaseAll(s, o);
    forall p <- t.objs ensures ObjOk(t.ops, p, t.objs[p]) {
      assert ObjOk(s.ops, p, s.objs[p]);
      forall id <- t.objs[p].pending ensures EntryOk(t.ops, p, t.objs[p], id) {
        assert EntryOk(s.ops, p, s.objs[p], id);
        assert id in s.objs[o].pending ==> EntryOk(s.ops, o, s.objs[o], id);
      }
    }
    forall id <- t.ops ensures OpOk(t, id) {
      assert OpOk(s, id);
      AtMostOnce(s.objs[o].pending, id);
      if id in s.objs[o].pending { assert EntryOk(s.ops, o, s.objs[o], id); }
    }
    forall i | 0 <= i < |t.frames| ensures FrameOk(t, i) { assert FrameOk(s, i); }
  }

  lemma {:induction false} AtMostOnce(q: seq<OpId>, id: OpId)
    requires NoDuplicates(q)
    ensures multiset(q)[id] == if id in q then 1 else 0
  {
    if q != [] {
      assert q == [q[0]] + q[1..];
      AtMostOnce(q[1..], id);
    }
  }

  /** Replacing an object without touching its table. */
  lemma PutObjKeeps(s: Sys, o: ObjId, obj: Obj)
    requires Inv(s) && o in s.objs && obj.pending == s.objs[o].pending && ObjOk(s.ops, o, obj)
    requires forall i :: 0 <= i < |s.frames| ==> FrameOk(PutObj(s, o, obj), i)
    ensures Inv(PutObj(s, o, obj))
  {
    var t := PutObj(s, o, obj);
    forall id <- t.ops ensures OpOk(t, id) { assert OpOk(s, id); }
  }

  lemma SetFlagKeeps(s: Sys, o: ObjId, f: Flag)
    requires Inv(s) && o in s.objs
    ensures Inv(SetFlag(s, o, f))
  {
    var t := SetFlag(s, o, f);
    forall id <- t.objs[o].pending ensures EntryOk(t.ops, o, t.objs[o], id) { assert EntryOk(s.ops, o, s.objs[o], id); }
    forall i | 0 <= i < |t.frames| ensures FrameOk(t, i) { assert FrameOk(s, i); }
    PutObjKeeps(s, o, t.objs[o]);
  }

  lemma ClearFlagKeeps(s: Sys, o: ObjId, f: Flag)
    requires Inv(s) && o in s.objs && (f.CLOSED? ==> s.objs[o].visible)
    requires forall k: LoopKind :: Home(k) == s.objs[o].kind && FlagOf(k) == f ==> LoopIdle(s, o, k)
    ensures Inv(ClearFlag(s, o, f))
  {
    var t := ClearFlag(s, o, f);
    forall id <- t.objs[o].pending ensures EntryOk(t.ops, o, t.objs[o], id) { assert EntryOk(s.ops, o, s.objs[o], id); }
    forall i | 0 <= i < |t.frames| ensures FrameOk(t, i) { assert FrameOk(s, i); assert s.frames[i] in s.frames; }
    PutObjKeeps(s, o, t.objs[o]);
  }

  lemma NativeKeeps(s: Sys, o: ObjId, native: bool)
    requires Inv(s) && o in s.objs
    ensures Inv(PutObj(s, o, s.objs[o].(native := native)))
  {
    var obj := s.objs[o].(native := native);
    forall id <- obj.pending ensures EntryOk(s.ops, o, obj, id) { assert EntryOk(s.ops, o, s.objs[o], id); }
    forall i | 0 <= i < |s.frames| ensures FrameOk(PutObj(s, o, obj), i) { assert FrameOk(s, i); }
    PutObjKeeps(s, o, obj);
  }

  /** Hiding the pointer of an object whose table is empty and that no suspended handler touches. */
  lemma HideKeeps(s: Sys, o: ObjId)
    requires Inv(s) && o in s.objs && s.objs[o].pending == [] && CLOSED in s.objs[o].flags
    requires forall f <- s.frames :: f.obj == o ==> !Touches(f.cont)
    ensures Inv(PutObj(s, o, s.objs[o].(visible := false, native := false)))
  {
    var obj := s.objs[o].(visible := false, native := false);
    forall i | 0 <= i < |s.frames| ensures FrameOk(PutObj(s, o, obj), i) {
      assert FrameOk(s, i);
      assert s.frames[i] in s.frames;
    }
    PutObjKeeps(s, o, obj);
  }

  lemma FreeKeeps(s: Sys, o: ObjId)
    requires Inv(s) && o in s.objs && !s.objs[o].visible
    requires forall g <- s.frames :: g.obj == o ==> g.cont.Leave?
    ensures Inv(PutObj(s, o, s.objs[o].(freed := true)))
  {
    var obj := s.objs[o].(freed := true);
    assert ObjOk(s.ops, o, s.objs[o]);
    forall i | 0 <= i < |s.frames| ensures FrameOk(PutObj(s, o, obj), i) {
      assert FrameOk(s, i);
      assert s.frames[i] in s.frames;
    }
    PutObjKeeps(s, o, obj);
  }

  lemma PushKeeps(s: Sys, f: Frame)
    requires Inv(s) && FrameOk(Push(s, f), |s.frames|)
    requires f.cont.FreeObject? ==> forall g <- s.frames :: g.cont.FreeObject? ==> g.obj != f.obj
    ensures Inv(Push(s, f))
  {
    var t := Push(s, f);
    forall id <- t.ops ensures OpOk(t, id) { assert OpOk(s, id); }
    forall i | 0 <= i < |t.frames| ensures FrameOk(t, i) { if i < |s.frames| { assert FrameOk(s, i); } }
    forall i, j | 0 <= i < j < |t.frames| && t.frames[i].cont.FreeObject? ensures t.frames[i].obj != t.frames[j].obj {
      assert s.frames[i] in s.frames;
    }
  }

  lemma PopKeeps(s: Sys)
    requires Inv(s) && s.frames != []
    ensures var t := s.(frames := s.frames[..|s.frames| - 1]);
            var f := s.frames[|s.frames| - 1];
            && Inv(t)
            && FrameOk(s, |s.frames| - 1)
            && (f.cont.Restart? || f.cont.Stop? ==> t.frames == [] && LoopIdle(t, f.obj, f.cont.loop))
            && (!f.cont.FreeObject? ==> t.frames == [])
            && (f.cont.FreeObject? ==> forall g <- t.frames :: g.obj == f.obj ==> g.cont.Leave?)
  {
    var t := s.(frames := s.frames[..|s.frames| - 1]);
    assert FrameOk(s, |s.frames| - 1);
    forall id <- t.ops ensures OpOk(t, id) { assert OpOk(s, id); }
    forall i | 0 <= i < |t.frames| ensures FrameOk(t, i) { assert FrameOk(s, i); }
    var f := s.frames[|s.frames| - 1];
    if f.cont.FreeObject? {
      forall g <- t.frames | g.obj == f.obj ensures g.cont.Leave? {
        var i :| 0 <= i < |t.frames| && t.frames[i] == g;
        assert FrameOk(s, i);
      }
    }
  }

  // ---------------------------------------------------------------- steps keep it

  lemma StartKeeps(s: Sys, o: ObjId, kind: OpKind, start: Start)
    requires Inv(s) && o in s.objs && s.objs[o].visible && Fresh(s, start)
    requires kind.LoopOp? ==>
               s.objs[o].kind == Home(kind.loop) && FlagOf(kind.loop) in s.objs[o].flags && LoopIdle(s, o, kind.loop)
    ensures Inv(StartAsync(s, o, kind, start))
  {
    if start.Started? { LinkKeeps(s, o, kind, start.op); }
  }

  /** An unset flag means its loop is idle. */
  lemma UnsetFlagIsIdle(s: Sys, o: ObjId, k: LoopKind)
    requires Inv(s) && o in s.objs && FlagOf(k) !in s.objs[o].flags
    ensures LoopIdle(s, o, k)
  {
    assert ObjOk(s.ops, o, s.objs[o]);
    forall id <- s.objs[o].pending ensures id in s.ops ==> s.ops[id].kind != LoopOp(k) {
      assert EntryOk(s.ops, o, s.objs[o], id);
    }
    forall f <- s.frames | f.obj == o && (f.cont.Restart? || f.cont.Stop?) ensures f.cont.loop != k {
      var i :| 0 <= i < |s.frames| && s.frames[i] == f;
      assert FrameOk(s, i);
    }
  }

  lemma BeginKeeps(s: Sys, o: ObjId, k: LoopKind, start: Start)
    requires Inv(s) && o in s.objs && s.objs[o].visible && s.objs[o].kind == Home(k) && Fresh(s, start)
    ensures Inv(BeginLoop(s, o, k, start))
  {
    var obj := s.objs[o];
    if obj.native && CLOSED !in obj.flags && FlagOf(k) !in obj.flags {
      UnsetFlagIsIdle(s, o, k);
      SetFlagKeeps(s, o, FlagOf(k));
      var t := SetFlag(s, o, FlagOf(k));
      assert LoopIdle(t, o, k);
      if start.NoHandle? { ClearFlagKeeps(t, o, FlagOf(k)); } else { StartKeeps(t, o, LoopOp(k), start); }
    }
  }

  lemma RestartKeeps(s: Sys, o: ObjId, k: LoopKind, start: Start)
    requires Inv(s) && LoopHeld(s, o, k) && LoopIdle(s, o, k) && s.objs[o].visible && Fresh(s, start)
    ensures Inv(RestartLoop(s, o, k, start))
  {
    var obj := s.objs[o];
    if CLOSED in obj.flags || !obj.native || start.NoHandle? { ClearFlagKeeps(s, o, FlagOf(k)); }
    else { StartKeeps(s, o, LoopOp(k), start); }
  }

  lemma StopKeeps(s: Sys, o: ObjId, k: LoopKind)
    requires Inv(s) && LoopHeld(s, o, k) && LoopIdle(s, o, k) && s.frames == []
    ensures Inv(StopLoop(s, o, k))
  {
    ClearFlagKeeps(s, o, FlagOf(k));
    var t := ClearFlag(s, o, FlagOf(k));
    if k.ReadData? { PushKeeps(t, Frame(o, Leave)); }
  }

  lemma CleanupKeeps(s: Sys, o: ObjId)
    requires Inv(s) && o in s.objs && MayDestroy(s, o)
    ensures Inv(Cleanup(s, o))
  {
    if CLOSED !in s.objs[o].flags {
      SetFlagKeeps(s, o, CLOSED);
      var s1 := SetFlag(s, o, CLOSED);
      ReleaseAllKeeps(s1, o);
      var t := ReleaseAll(s1, o);
      HideKeeps(t, o);
      var u := PutObj(t, o, t.objs[o].(visible := false, native := false));
      assert ObjOk(s.ops, o, s.objs[o]);
      forall g <- s.frames | g.cont.FreeObject? ensures g.obj != o {
        var i :| 0 <= i < |s.frames| && s.frames[i] == g;
        assert FrameOk(s, i);
      }
      PushKeeps(u, Frame(o, FreeObject));
    }
  }

  lemma EpCloseKeeps(s: Sys, o: ObjId, start: Start)
    requires Inv(s) && o in s.objs && s.objs[o].visible && Fresh(s, start)
    ensures Inv(EpClose(s, o, start))
  {
    if CLOSED !in s.objs[o].flags {
      SetFlagKeeps(s, o, CLOSED);
      var s1 := SetFlag(s, o, CLOSED);
      ReleaseAllKeeps(s1, o);
      var t := ReleaseAll(s1, o);
      if t.objs[o].native && !start.NoHandle? {
        ClearFlagKeeps(t, o, CLOSED);
        StartKeeps(ClearFlag(t, o, CLOSED), o, CloseOp, start);
      }
    }
  }

  lemma LoopReadyKeeps(s: Sys, op: OpId, fires: bool, finished: bool, start: Start)
    requires Inv(s) && s.frames == [] && Linked(s, op) && s.ops[op].kind.LoopOp? && Fresh(s, start)
    ensures Inv(LoopReadyStep(s, op, fires, finished, start))
  {
    var o, k := s.ops[op].owner, s.ops[op].kind.loop;
    ConsumeKeeps(s, op);
    var t := Consume(s, op);
    assert ObjOk(s.ops, o, s.objs[o]);
    if k.ReadData? && finished {
      if fires { PushKeeps(t, Frame(o, Stop(k))); } else { StopKeeps(t, o, k); }
    } else {
      if fires { PushKeeps(t, Frame(o, Restart(k))); } else { RestartKeeps(t, o, k, start); }
    }
  }

  lemma LoopFailedKeeps(s: Sys, op: OpId, fires: bool)
    requires Inv(s) && Enabled(s, LoopFailed(op, fires))
    ensures Inv(Apply(s, LoopFailed(op, fires)))
  {
    var o, k := s.ops[op].owner, s.ops[op].kind.loop;
    ConsumeKeeps(s, op);
    assert ObjOk(s.ops, o, s.objs[o]);
    if fires { PushKeeps(Consume(s, op), Frame(o, Stop(k))); } else { StopKeeps(Consume(s, op), o, k); }
  }

  lemma GainKeeps(s: Sys, o: ObjId, start: Start)
    requires Inv(s) && o in s.objs && s.objs[o].visible && Fresh(s, start)
    ensures Inv(Gain(s, o, start))
    ensures var t := Gain(s, o, start); t.frames == s.frames && o in t.objs && t.objs[o].visible
  {
    NativeKeeps(s, o, true);
    var t := PutObj(s, o, s.objs[o].(native := true));
    if t.objs[o].kind.Topic? { BeginKeeps(t, o, GossipRecv, start); }
  }

  lemma OneShotKeeps(s: Sys, op: OpId, gains: bool, start: Start, fires: bool, cont: Cont)
    requires Inv(s) && Enabled(s, OneShotDone(op, gains, start, fires, cont))
    ensures Inv(OneShotStep(s, op, gains, start, fires, cont))
  {
    var o := s.ops[op].owner;
    ConsumeKeeps(s, op);
    assert ObjOk(s.ops, o, s.objs[o]);
    var t := Consume(s, op);
    if gains { GainKeeps(t, o, start); }
    var u := if gains then Gain(t, o, start) else t;
    if fires { PushKeeps(u, Frame(o, cont)); }
  }

  lemma CloseKeeps(s: Sys, op: OpId)
    requires Inv(s) && Enabled(s, CloseDone(op))
    ensures Inv(CloseStep(s, op))
  {
    var o := s.ops[op].owner;
    ConsumeKeeps(s, op);
    NativeKeeps(Consume(s, op), o, false);
    var t := Consume(s, op);
    CleanupKeeps(PutObj(t, o, t.objs[o].(native := false)), o);
  }

  lemma ReturnKeeps(s: Sys, start: Start, start2: Start, listening: bool)
    requires Inv(s) && Enabled(s, Return(start, start2, listening))
    ensures Inv(ReturnStep(s, start, start2, listening))
  {
    PopKeeps(s);
    var f := s.frames[|s.frames| - 1];
    var t := s.(frames := s.frames[..|s.frames| - 1]);
    match f.cont
    case Restart(k) => RestartKeeps(t, f.obj, k, start);
    case Stop(k) => StopKeeps(t, f.obj, k);
    case AfterReady => StartKeeps(t, f.obj, OneShot, start);
    case AfterOnline =>
      StartKeeps(t, f.obj, OneShot, start);
      var u := StartAsync(t, f.obj, OneShot, start);
      if listening && u.objs[f.obj].kind.Endpoint? { BeginKeeps(u, f.obj, Accept, start2); }
    case AfterDrain =>
    case Leave =>
    case FreeObject => FreeKeeps(t, f.obj);
  }

  lemma CreateKeeps(s: Sys, o: ObjId, kind: ObjKind, native: bool, start: Start)
    requires Inv(s) && o !in s.objs && Fresh(s, start)
    ensures Inv(Apply(s, Create(o, kind, native, start)))
  {
    var t := PutObj(s, o, Obj(kind, {}, native, [], true, false));
    forall id <- t.ops ensures OpOk(t, id) { assert OpOk(s, id); }
    forall i | 0 <= i < |t.frames| ensures FrameOk(t, i) { assert FrameOk(s, i); }
    StartKeeps(t, o, OneShot, start);
  }

  lemma StepKeepsInv(s: Sys, step: Step)
    requires Inv(s) && Enabled(s, step)
    ensures Inv(Apply(s, step))
  {
    match step
    case Create(o, kind, native, start) => CreateKeeps(s, o, kind, native, start);
    case CallMethod(o, start) => StartKeeps(s, o, OneShot, start);
    case CallOn(o, k, start) => BeginKeeps(s, o, k, start);
    case CallDestroy(o) => CleanupKeeps(s, o);
    case CallEpClose(o, start) => EpCloseKeeps(s, o, start);
    case LoopFailed(op, fires) => LoopFailedKeeps(s, op, fires);
    case LoopReady(op, fires, finished, start) => LoopReadyKeeps(s, op, fires, finished, start);
    case OneShotDone(op, gains, start, fires, cont) => OneShotKeeps(s, op, gains, start, fires, cont);
    case CloseDone(op) => CloseKeeps(s, op);
    case Return(start, start2, listening) => ReturnKeeps(s, start, start2, listening);
  }

  lemma {:induction false} RunKeepsInv(s: Sys, run: seq<Step>)
    requires Inv(s) && Valid(s, run)
    ensures Inv(After(s, run))
    decreases |run|
  {
    if run != [] {
      StepKeepsInv(s, run[0]);
      RunKeepsInv(Apply(s, run[0]), run[1..]);
    }
  }

  // ---------------------------------------------------------------- theorems over all runs

  /**
   * Every operation record ever created is either in its owner's table exactly once and in no
   * other table, never released and never handled, or it is in no table and was released
   * exactly once; its handler ran at most once.
   */
  lemma RecordsReleasedOnce(run: seq<Step>, op: OpId, o: ObjId)
    requires Valid(Empty(), run)
    requires op in After(Empty(), run).ops && o in After(Empty(), run).objs
    ensures var s := After(Empty(), run);
            var r := s.ops[op];
            var here := multiset(s.objs[o].pending)[op];
            && r.handled <= r.releases <= 1
            && (r.releases == 0 ==> here == if r.owner == o then 1 else 0)
            && (r.releases == 1 ==> here == 0)
  {
    RunKeepsInv(Empty(), run);
    var s := After(Empty(), run);
    assert OpOk(s, op) && ObjOk(s.ops, o, s.objs[o]);
    AtMostOnce(s.objs[o].pending, op);
    assert op in s.objs[o].pending ==> EntryOk(s.ops, o, s.objs[o], op);
  }

  /** The step is the event loop delivering `op` to its handler. */
  predicate Delivers(step: Step, op: OpId) {
    match step
    case LoopFailed(x, _) => x == op
    case LoopReady(x, _, _, _) => x == op
    case OneShotDone(x, _, _, _, _) => x == op
    case CloseDone(x) => x == op
    case _ => false
  }

  predicate Over(s: Sys, op: OpId) { op in s.ops && s.ops[op].releases > 0 }

  /** An open close operation belongs to an object that is not marked closed. */
  predicate CloseOk(s: Sys, id: OpId) {
    id in s.ops && s.ops[id].kind.CloseOp? && s.ops[id].releases == 0 ==>
      s.ops[id].owner in s.objs && CLOSED !in s.objs[s.ops[id].owner].flags
  }

  /** What never goes backwards from `s` to `t`, said of one record and one object. */
  predicate Carries(s: Sys, t: Sys, id: OpId, p: ObjId) {
    && (id in s.ops ==> id in t.ops && t.ops[id].releases >= s.ops[id].releases)
    && (p in s.objs ==>
          && p in t.objs && t.objs[p].kind == s.objs[p].kind
          && (CLOSED in s.objs[p].flags ==> CLOSED in t.objs[p].flags && t.objs[p].visible == s.objs[p].visible))
    && (CloseOk(s, id) ==> CloseOk(t, id))
  }

  lemma BeginCarries(s: Sys, o: ObjId, k: LoopKind, start: Start, id: OpId, p: ObjId)
    requires o in s.objs && Fresh(s, start)
    ensures Carries(s, BeginLoop(s, o, k, start), id, p)
  {
  }

  lemma RestartCarries(s: Sys, o: ObjId, k: LoopKind, start: Start, id: OpId, p: ObjId)
    requires o in s.objs && Fresh(s, start)
    ensures Carries(s, RestartLoop(s, o, k, start), id, p)
  {
  }

  lemma StartCarries(s: Sys, o: ObjId, start: Start, id: OpId, p: ObjId)
    requires o in s.objs && Fresh(s, start)
    ensures Carries(s, StartAsync(s, o, OneShot, start), id, p)
  {
  }

  lemma StopCarries(s: Sys, o: ObjId, k: LoopKind, id: OpId, p: ObjId)
    requires o in s.objs
    ensures Carries(s, StopLoop(s, o, k), id, p)
  {
  }

  lemma ConsumeCarries(s: Sys, op: OpId, id: OpId, p: ObjId)
    requires Linked(s, op)
    ensures Carries(s, Consume(s, op), id, p)
  {
  }

  lemma CleanupCarries(s: Sys, o: ObjId, id: OpId, p: ObjId)
    requires o in s.objs && (id in s.ops ==> OpOk(s, id))
    ensures Carries(s, Cleanup(s, o), id, p)
  {
  }

  lemma EpCloseCarries(s: Sys, o: ObjId, start: Start, id: OpId, p: ObjId)
    requires o in s.objs && Fresh(s, start) && (id in s.ops ==> OpOk(s, id))
    ensures Carries(s, EpClose(s, o, start), id, p)
  {
  }

  lemma OnlineCarries(s: Sys, o: ObjId, start: Start, start2: Start, listening: bool, id: OpId, p: ObjId)
    requires o in s.objs && Fresh(s, start) && Fresh(s, start2) && (start.Started? ==> start != start2)
    ensures Carries(s, GoOnline(s, o, start, start2, listening), id, p)
  {
    StartCarries(s, o, start, id, p);
    BeginCarries(StartAsync(s, o, OneShot, start), o, Accept, start2, id, p);
  }

  /** The tail of the handler whose frame was `f`. */
  lemma TailCarries(s: Sys, f: Frame, start: Start, start2: Start, listening: bool, id: OpId, p: ObjId)
    requires f.obj in s.objs && Fresh(s, start) && Fresh(s, start2) && (start.Started? ==> start != start2)
    ensures Carries(s, Resume(s, f, start, start2, listening), id, p)
  {
    match f.cont
    case Restart(k) => RestartCarries(s, f.obj, k, start, id, p);
    case Stop(k) => StopCarries(s, f.obj, k, id, p);
    case AfterReady => StartCarries(s, f.obj, start, id, p);
    case AfterOnline => OnlineCarries(s, f.obj, start, start2, listening, id, p);
    case _ =>
  }

  lemma ReturnCarries(s: Sys, start: Start, start2: Start, listening: bool, id: OpId, p: ObjId)
    requires Inv(s) && Enabled(s, Return(start, start2, listening))
    ensures Carries(s, ReturnStep(s, start, start2, listening), id, p)
  {
    var f := s.frames[|s.frames| - 1];
    assert FrameOk(s, |s.frames| - 1);
    var t := s.(frames := s.frames[..|s.frames| - 1]);
    TailCarries(t, f, start, start2, listening, id, p);
  }

  lemma GainCarries(s: Sys, o: ObjId, start: Start, id: OpId, p: ObjId)
    requires o in s.objs && Fresh(s, start)
    ensures Carries(s, Gain(s, o, start), id, p)
  {
    var t := PutObj(s, o, s.objs[o].(native := true));
    assert Carries(s, t, id, p);
    BeginCarries(t, o, GossipRecv, start, id, p);
  }

  lemma OneShotCarries(s: Sys, op: OpId, gains: bool, start: Start, fires: bool, cont: Cont, id: OpId, p: ObjId)
    requires Inv(s) && Enabled(s, OneShotDone(op, gains, start, fires, cont))
    ensures Carries(Consume(s, op), OneShotStep(s, op, gains, start, fires, cont), id, p)
  {
    var o := s.ops[op].owner;
    GainCarries(Consume(s, op), o, start, id, p);
  }

  lemma LoopReadyCarries(s: Sys, op: OpId, fires: bool, finished: bool, start: Start, id: OpId, p: ObjId)
    requires Inv(s) && Enabled(s, LoopReady(op, fires, finished, start))
    ensures Carries(Consume(s, op), LoopReadyStep(s, op, fires, finished, start), id, p)
  {
    var t := Consume(s, op);
    StopCarries(t, s.ops[op].owner, s.ops[op].kind.loop, id, p);
    RestartCarries(t, s.ops[op].owner, s.ops[op].kind.loop, start, id, p);
  }

  /** What a handler does after it has freed its record. */
  lemma CloseCarries(s: Sys, op: OpId, id: OpId, p: ObjId)
    requires Inv(s) && Linked(s, op)
    ensures Carries(Consume(s, op), CloseStep(s, op), id, p)
  {
    ConsumeKeeps(s, op);
    var o, t := s.ops[op].owner, Consume(s, op);
    NativeKeeps(t, o, false);
    CleanupCarries(PutObj(t, o, t.objs[o].(native := false)), o, id, p);
  }

  lemma DeliveryCarries(s: Sys, step: Step, id: OpId, p: ObjId)
    requires Inv(s) && Enabled(s, step) && (step.LoopFailed? || step.LoopReady? || step.OneShotDone? || step.CloseDone?)
    ensures Carries(Consume(s, step.op), Apply(s, step), id, p)
  {
    var o := s.ops[step.op].owner;
    var t := Consume(s, step.op);
    match step
    case LoopFailed(op, _) => StopCarries(t, o, s.ops[op].kind.loop, id, p);
    case LoopReady(op, fires, finished, start) => LoopReadyCarries(s, op, fires, finished, start, id, p);
    case OneShotDone(op, gains, start, fires, cont) => OneShotCarries(s, op, gains, start, fires, cont, id, p);
    case CloseDone(op) => CloseCarries(s, op, id, p);
  }

  lemma StepCarries(s: Sys, step: Step, id: OpId, p: ObjId)
    requires Inv(s) && Enabled(s, step)
    ensures Carries(s, Apply(s, step), id, p)
  {
    match step
    case Create(o, kind, native, start) =>
      StartCarries(PutObj(s, o, Obj(kind, {}, native, [], true, false)), o, start, id, p);
    case CallMethod(o, start) => StartCarries(s, o, start, id, p);
    case CallOn(o, k, start) => BeginCarries(s, o, k, start, id, p);
    case CallDestroy(o) => CleanupCarries(s, o, id, p);
    case CallEpClose(o, start) => EpCloseCarries(s, o, start, id, p);
    case Return(start, start2, listening) => ReturnCarries(s, start, start2, listening, id, p);
    case _ =>
      ConsumeCarries(s, step.op, id, p);
      DeliveryCarries(s, step, id, p);
  }

  /** No step releases a record it creates. */
  lemma NewRecordsAreOpen(s: Sys, step: Step, id: OpId)
    requires Enabled(s, step) && id !in s.ops && id in Apply(s, step).ops
    ensures Apply(s, step).ops[id].releases == 0
  {
  }

  lemma DeliveryEnds(s: Sys, step: Step, op: OpId)
    requires Inv(s) && Enabled(s, step) && Delivers(step, op)
    ensures !Over(s, op) && Over(Apply(s, step), op)
  {
    var o := s.ops[op].owner;
    assert ObjOk(s.ops, o, s.objs[o]);
    assert EntryOk(s.ops, o, s.objs[o], op);
    DeliveryCarries(s, step, op, o);
  }

  lemma {:induction false} DeliveriesFrom(s: Sys, run: seq<Step>, op: OpId)
    requires Inv(s) && Valid(s, run)
    ensures Count(run, step => Delivers(step, op)) <= if Over(s, op) then 0 else 1
    decreases |run|
  {
    if run != [] {
      StepKeepsInv(s, run[0]);
      StepCarries(s, run[0], op, 0);
      if Delivers(run[0], op) { DeliveryEnds(s, run[0], op); }
      DeliveriesFrom(Apply(s, run[0]), run[1..], op);
    }
  }

  /** A handler runs at most once per operation, and never after cleanup or close released it. */
  lemma DeliveredAtMostOnce(run: seq<Step>, more: seq<Step>, op: OpId)
    requires Valid(Empty(), run) && Valid(After(Empty(), run), more)
    ensures Count(run, step => Delivers(step, op)) <= 1
    ensures Over(After(Empty(), run), op) ==> Count(more, step => Delivers(step, op)) == 0
  {
    DeliveriesFrom(Empty(), run, op);
    RunKeepsInv(Empty(), run);
    DeliveriesFrom(After(Empty(), run), more, op);
  }

  /**
   * Single flight.  In every reachable state each receive loop of each object has at most one
   * pending operation; a pending one has its flag set; and while a handler of the loop is
   * suspended in user code, none is pending and the flag is still set.
   */
  lemma SingleFlight(run: seq<Step>, o: ObjId, k: LoopKind)
    requires Valid(Empty(), run) && o in After(Empty(), run).objs
    ensures var s := After(Empty(), run);
            var obj := s.objs[o];
            && (forall a <- obj.pending, b <- obj.pending ::
                  a in s.ops && b in s.ops && s.ops[a].kind == s.ops[b].kind == LoopOp(k) ==> a == b)
            && (forall a :: a in obj.pending ==> a in s.ops && (s.ops[a].kind == LoopOp(k) ==> FlagOf(k) in obj.flags))
            && (forall f :: f in s.frames && f.obj == o && (f.cont == Restart(k) || f.cont == Stop(k)) ==>
                  FlagOf(k) in obj.flags && forall a <- obj.pending :: a in s.ops && s.ops[a].kind != LoopOp(k))
  {
    RunKeepsInv(Empty(), run);
    var s := After(Empty(), run);
    assert ObjOk(s.ops, o, s.objs[o]);
    forall a <- s.objs[o].pending ensures EntryOk(s.ops, o, s.objs[o], a) {}
    forall f | f in s.frames && f.obj == o && (f.cont == Restart(k) || f.cont == Stop(k)) ensures LoopHeld(s, o, k) {
      var i :| 0 <= i < |s.frames| && s.frames[i] == f;
      assert FrameOk(s, i);
    }
  }

  /** No handler resumes on, and no completion is delivered to, an object that was freed. */
  lemma NoUseAfterFree(run: seq<Step>)
    requires Valid(Empty(), run)
    ensures var s := After(Empty(), run);
            && (forall f <- s.frames ::
                  Touches(f.cont) || f.cont.FreeObject? ==> f.obj in s.objs && !s.objs[f.obj].freed)
            && (forall op :: Linked(s, op) ==> !s.objs[s.ops[op].owner].freed)
  {
    RunKeepsInv(Empty(), run);
    var s := After(Empty(), run);
    forall f <- s.frames | Touches(f.cont) || f.cont.FreeObject? ensures f.obj in s.objs && !s.objs[f.obj].freed {
      var i :| 0 <= i < |s.frames| && s.frames[i] == f;
      assert FrameOk(s, i);
      assert ObjOk(s.ops, f.obj, s.objs[f.obj]);
    }
    forall op | Linked(s, op) ensures !s.objs[s.ops[op].owner].freed {
      assert ObjOk(s.ops, s.ops[op].owner, s.objs[s.ops[op].owner]);
    }
  }
}
