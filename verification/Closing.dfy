/**
 * Tearing objects down: destroy inside handlers, over runs that may do it anywhere, and
 * endpoint.close with its "close" event.
 */
module Closing {
  import opened Runtime

  // ---------------------------------------------------------------- destroy

  /** Runs in which user code may destroy any object anywhere. */
  predicate Loose(s: Sys, run: seq<Step>)
    decreases |run|
  {
    run == [] || (Possible(s, run[0]) && Loose(Apply(s, run[0]), run[1..]))
  }

  /** No suspended handler is going to look at an object that was torn down. */
  predicate Intact(s: Sys) {
    forall f <- s.frames :: Touches(f.cont) ==> f.obj in s.objs && s.objs[f.obj].visible
  }

  predicate AlwaysIntact(s: Sys, run: seq<Step>)
    requires Loose(s, run)
    decreases |run|
  {
    Intact(s) && (run == [] || AlwaysIntact(Apply(s, run[0]), run[1..]))
  }

  lemma InvIsIntact(s: Sys)
    requires Inv(s)
    ensures Intact(s)
  {
    forall f <- s.frames | Touches(f.cont) ensures f.obj in s.objs && s.objs[f.obj].visible {
      var i :| 0 <= i < |s.frames| && s.frames[i] == f;
      assert FrameOk(s, i);
    }
  }

  lemma UnsafeDestroy(s: Sys, o: ObjId)
    requires o in s.objs && !MayDestroy(s, o)
    ensures !Intact(Cleanup(s, o))
  {
    var f :| f in s.frames && f.obj == o && Touches(f.cont);
    assert f in Cleanup(s, o).frames;
  }

  lemma {:induction false} IntactFrom(s: Sys, run: seq<Step>)
    requires Inv(s) && Loose(s, run)
    ensures AlwaysIntact(s, run) <==> Valid(s, run)
    decreases |run|
  {
    InvIsIntact(s);
    if run != [] {
      if Enabled(s, run[0]) {
        StepKeepsInv(s, run[0]);
        IntactFrom(Apply(s, run[0]), run[1..]);
      } else {
        UnsafeDestroy(s, run[0].o);
      }
    }
  }

  /**
   * Over every run whatever: no handler is ever left suspended over an object that is torn
   * down if and only if no destroy happens under a suspended handler that looks at it again.
   */
  lemma HandlersStayIntactIff(run: seq<Step>)
    requires Loose(Empty(), run)
    ensures AlwaysIntact(Empty(), run) <==> Valid(Empty(), run)
  {
    IntactFrom(Empty(), run);
  }

  /** A read handler whose "data" listener destroys the stream: it resumes on freed memory. */
  lemma DestroyInsideHandlerFails()
    ensures var run := [Create(0, Stream, true, NoHandle), CallOn(0, ReadData, Started(0)),
                        LoopReady(0, true, false, NoHandle)];
            && Valid(Empty(), run)
            && var s := After(Empty(), run);
               var t := ReturnStep(Cleanup(s, 0), NoHandle, NoHandle, false);
               Possible(s, CallDestroy(0)) && t.frames == [Frame(0, Restart(ReadData))] && t.objs[0].freed
  {
    var a, b := Create(0, Stream, true, NoHandle), CallOn(0, ReadData, Started(0));
    var c := LoopReady(0, true, false, NoHandle);
    var s3 := Apply(Apply(Apply(Empty(), a), b), c);
    assert s3.frames == [Frame(0, Restart(ReadData))];
    ThreeSteps(Empty(), a, b, c);
    DestroyFrees(s3, 0);
  }

  lemma TwoSteps(s: Sys, a: Step, b: Step)
    requires Enabled(s, a) && Enabled(Apply(s, a), b)
    ensures Valid(s, [a, b]) && After(s, [a, b]) == Apply(Apply(s, a), b)
  {
    var t := Apply(s, a);
    assert [a, b][1..] == [b] && [b][1..] == [];
    assert Valid(Apply(t, b), []) && Valid(t, [b]) && After(t, [b]) == Apply(t, b);
  }

  lemma ThreeSteps(s: Sys, a: Step, b: Step, c: Step)
    requires Enabled(s, a) && Enabled(Apply(s, a), b) && Enabled(Apply(Apply(s, a), b), c)
    ensures Valid(s, [a, b, c]) && After(s, [a, b, c]) == Apply(Apply(Apply(s, a), b), c)
  {
    TwoSteps(Apply(s, a), b, c);
    assert [a, b, c][1..] == [b, c];
  }

  lemma DestroyFrees(s: Sys, o: ObjId)
    requires o in s.objs && CLOSED !in s.objs[o].flags
    ensures var t := ReturnStep(Cleanup(s, o), NoHandle, NoHandle, false);
            && t.frames == s.frames && t.objs.Keys == s.objs.Keys
            && forall p <- s.objs :: t.objs[p].freed <==> p == o || s.objs[p].freed
  {
  }

  /**
   * The guard on destroy is exact.  In every reachable state, destroying an open object and
   * returning from its "close" listener leaves some suspended handler about to touch freed
   * memory if and only if a suspended handler touches that very object again.
   */
  lemma DestroyIsSafeIff(run: seq<Step>, o: ObjId)
    requires Valid(Empty(), run)
    requires var s := After(Empty(), run); o in s.objs && s.objs[o].visible && CLOSED !in s.objs[o].flags
    ensures var s := After(Empty(), run);
            var t := ReturnStep(Cleanup(s, o), NoHandle, NoHandle, false);
            && t.frames == s.frames
            && ((forall f <- s.frames :: f.obj == o ==> !Touches(f.cont)) <==>
                (forall f <- t.frames :: Touches(f.cont) ==> f.obj in t.objs && !t.objs[f.obj].freed))
  {
    NoUseAfterFree(run);
    DestroyFrees(After(Empty(), run), o);
  }

  // ---------------------------------------------------------------- endpoint.close

  lemma {:induction false} RunCarries(s: Sys, run: seq<Step>, id: OpId, p: ObjId)
    requires Inv(s) && Valid(s, run)
    ensures Carries(s, After(s, run), id, p)
    decreases |run|
  {
    if run != [] {
      StepKeepsInv(s, run[0]);
      StepCarries(s, run[0], id, p);
      RunCarries(Apply(s, run[0]), run[1..], id, p);
    }
  }

  /** In every reachable state the completion of a pending close operation fires "close". */
  lemma PendingCloseFires(run: seq<Step>, op: OpId)
    requires Valid(Empty(), run) && Enabled(After(Empty(), run), CloseDone(op))
    ensures var s := After(Empty(), run);
            Apply(s, CloseDone(op)).frames == [Frame(s.ops[op].owner, FreeObject)]
  {
    RunKeepsInv(Empty(), run);
    RunCarries(Empty(), run, op, 0);
    var s := After(Empty(), run);
    var o := s.ops[op].owner;
    assert ObjOk(s.ops, o, s.objs[o]);
    assert EntryOk(s.ops, o, s.objs[o], op);
  }

  /** A close operation of `o` is pending. */
  ghost predicate Closing(s: Sys, o: ObjId) {
    exists op :: Linked(s, op) && s.ops[op].kind.CloseOp? && s.ops[op].owner == o
  }

  lemma EpCloseOutcome(s: Sys, o: ObjId, start: Start)
    requires o in s.objs && CLOSED !in s.objs[o].flags
    ensures var t := EpClose(s, o, start);
            && o in t.objs
            && (Closing(t, o) <==> s.objs[o].native && start.Started?)
            && (CLOSED in t.objs[o].flags <==> !s.objs[o].native || start.NoHandle?)
            && t.objs[o].visible == s.objs[o].visible
  {
    var t := EpClose(s, o, start);
    if s.objs[o].native && start.Started? {
      assert Linked(t, start.op) && t.ops[start.op].kind.CloseOp? && t.ops[start.op].owner == o;
    }
  }

  /** An object that is marked closed while JavaScript still holds it is never freed, whatever follows. */
  lemma ClosedButVisibleStays(s: Sys, o: ObjId, run: seq<Step>)
    requires Inv(s) && o in s.objs && CLOSED in s.objs[o].flags && s.objs[o].visible && Valid(s, run)
    ensures var u := After(s, run);
            o in u.objs && !u.objs[o].freed && forall f <- u.frames :: f.obj == o ==> !f.cont.FreeObject?
  {
    RunCarries(s, run, 0, o);
    RunKeepsInv(s, run);
    var u := After(s, run);
    assert ObjOk(u.ops, o, u.objs[o]);
    forall f <- u.frames | f.obj == o ensures !f.cont.FreeObject? {
      var i :| 0 <= i < |u.frames| && u.frames[i] == f;
      assert FrameOk(u, i);
    }
  }

  /**
   * endpoint.close and the "close" event.  Called on an open endpoint it leaves a close
   * operation pending, whose completion fires "close", if and only if the native endpoint
   * exists and the operation was obtained and registered.  Without endpoint or operation,
   * iroh_cleanup returns at its CLOSED test and, whatever happens afterwards, the event is
   * never fired and the object never freed; if only the registration failed, the endpoint is
   * open again.
   */
  lemma EpCloseFiresIff(before: seq<Step>, o: ObjId, start: Start, after: seq<Step>)
    requires Valid(Empty(), before)
    requires var s := After(Empty(), before);
             && Enabled(s, CallEpClose(o, start)) && CLOSED !in s.objs[o].flags
             && Valid(Apply(s, CallEpClose(o, start)), after)
    ensures var s := After(Empty(), before);
            var t := Apply(s, CallEpClose(o, start));
            var u := After(t, after);
            && o in t.objs
            && (Closing(t, o) <==> s.objs[o].native && start.Started?)
            && (CLOSED in t.objs[o].flags <==> !s.objs[o].native || start.NoHandle?)
            && (CLOSED in t.objs[o].flags ==>
                  o in u.objs && !u.objs[o].freed && forall f <- u.frames :: f.obj == o ==> !f.cont.FreeObject?)
  {
    RunKeepsInv(Empty(), before);
    var s := After(Empty(), before);
    StepKeepsInv(s, CallEpClose(o, start));
    EpCloseOutcome(s, o, start);
    var t := Apply(s, CallEpClose(o, start));
    if CLOSED in t.objs[o].flags { ClosedButVisibleStays(t, o, after); }
  }

  /** Closed before the endpoint was created: marked closed, nothing pending to fire the event. */
  lemma EarlyCloseNeverFires(after: seq<Step>)
    requires var run := [Create(0, Endpoint, false, Started(0)), CallEpClose(0, NoHandle)];
             Valid(Empty(), run) ==> Valid(After(Empty(), run), after)
    ensures var run := [Create(0, Endpoint, false, Started(0)), CallEpClose(0, NoHandle)];
            && Valid(Empty(), run)
            && var u := After(After(Empty(), run), after);
               0 in u.objs && !u.objs[0].freed && forall f <- u.frames :: f.obj == 0 ==> !f.cont.FreeObject?
  {
    var a, b := Create(0, Endpoint, false, Started(0)), CallEpClose(0, NoHandle);
    TwoSteps(Empty(), a, b);
    var s := Apply(Empty(), a);
    EpCloseOutcome(s, 0, NoHandle);
    RunKeepsInv(Empty(), [a, b]);
    ClosedButVisibleStays(Apply(s, b), 0, after);
  }
}
