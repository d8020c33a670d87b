/**
 * The sending side of a stream: write, the deferred finish, and the completion handler whose
 * "drain" listeners may write and finish again.  WRITING and FINISH_PENDING are single bits.
 */
module StreamWrite {

  datatype Event = WriteStarted | WriteDone(ok: bool) | FinishCalled | NativeFinish

  datatype Sender = Sender(
    inflight: nat,          // write operations in the pending table
    writing: bool, finishPending: bool, finished: bool,
    draining: bool,         // the completion handler is suspended in "drain" listeners
    closed: bool,
    log: seq<Event>)

  /** Refused: it throws.  Unregistered: WRITING goes up, but iroh_start_async fails, which is ignored. */
  datatype Begin = Refused | Unregistered | Started

  datatype Step = Write(begin: Begin) | Finish | Complete(ok: bool) | DrainReturns | Destroy

  function Init(): Sender { Sender(0, false, false, false, false, false, []) }

  predicate Enabled(s: Sender, step: Step) {
    match step
    case Write(_) => !s.closed
    case Finish => !s.closed
    case Complete(_) => !s.closed && !s.draining && s.inflight > 0
    case DrainReturns => s.draining
    case Destroy => !s.closed && !s.draining
  }

  /** iroh_do_finish. */
  function DoFinish(s: Sender): Sender {
    if s.finished then s else s.(finished := true, log := s.log + [NativeFinish])
  }

  function Apply(s: Sender, step: Step): Sender
    requires Enabled(s, step)
  {
    match step
    case Write(begin) =>
      if s.finished || begin.Refused? then s
      else if begin.Unregistered? then s.(writing := true)
      else s.(inflight := s.inflight + 1, writing := true, log := s.log + [WriteStarted])
    case Finish =>
      var t := s.(log := s.log + [FinishCalled]);
      if s.writing then t.(finishPending := true) else DoFinish(t)
    case Complete(ok) =>
      s.(inflight := s.inflight - 1, writing := false, draining := ok, log := s.log + [WriteDone(ok)])
    case DrainReturns =>
      var t := s.(draining := false);
      if s.finishPending then DoFinish(t.(finishPending := false)) else t
    case Destroy => s.(closed := true, inflight := 0)
  }

  predicate Valid(s: Sender, run: seq<Step>)
    decreases |run|
  {
    run == [] || (Enabled(s, run[0]) && Valid(Apply(s, run[0]), run[1..]))
  }

  function After(s: Sender, run: seq<Step>): Sender
    requires Valid(s, run)
    decreases |run|
  {
    if run == [] then s else After(Apply(s, run[0]), run[1..])
  }

  lemma {:induction false} AfterSnoc(s: Sender, run: seq<Step>, last: Step)
    requires Valid(s, run) && Enabled(After(s, run), last)
    ensures Valid(s, run + [last]) && After(s, run + [last]) == Apply(After(s, run), last)
    decreases |run|
  {
    if run == [] {
      assert run + [last] == [last] && [last][1..] == [];
      assert Valid(Apply(s, last), []);
    } else {
      assert (run + [last])[1..] == run[1..] + [last];
      AfterSnoc(Apply(s, run[0]), run[1..], last);
    }
  }

  // ---------------------------------------------------------------- what the log says

  /** Writes started and not yet completed at the end of `log`. */
  function Outstanding(log: seq<Event>): int {
    if log == [] then 0 else Outstanding(log[..|log| - 1]) + Delta(log[|log| - 1])
  }

  function Delta(e: Event): int { if e.WriteStarted? then 1 else if e.WriteDone? then -1 else 0 }

  /** Every native finish happened with no write in flight. */
  predicate Clean(log: seq<Event>) {
    forall i :: 0 <= i < |log| && log[i].NativeFinish? ==> Outstanding(log[..i]) == 0
  }

  /** At most one native finish, and neither it nor a write start comes after it. */
  predicate FinishedOnce(log: seq<Event>) {
    forall i, j :: 0 <= i < j < |log| && log[i].NativeFinish? ==> !log[j].NativeFinish? && !log[j].WriteStarted?
  }

  predicate Inv(s: Sender) {
    && FinishedOnce(s.log)
    && (s.finished <==> NativeFinish in s.log)
    && (s.closed ==> !s.draining)
    && (!s.closed ==> Outstanding(s.log) == s.inflight)
    && (s.finishPending ==> FinishCalled in s.log)
  }

  lemma OutstandingSnoc(log: seq<Event>, e: Event)
    ensures Outstanding(log + [e]) == Outstanding(log) + Delta(e)
  {
    assert (log + [e])[..|log|] == log;
  }

  lemma FinishedOnceSnoc(log: seq<Event>, e: Event)
    requires FinishedOnce(log) && (e.NativeFinish? || e.WriteStarted? ==> NativeFinish !in log)
    ensures FinishedOnce(log + [e])
  {
  }

  /** One more event, with the counters it calls for. */
  lemma LogKeeps(s: Sender, t: Sender, e: Event)
    requires Inv(s) && !s.closed && !t.closed && t.log == s.log + [e] && t.finished == (s.finished || e.NativeFinish?)
    requires e.NativeFinish? || e.WriteStarted? ==> !s.finished
    requires t.inflight == s.inflight + Delta(e)
    requires t.finishPending ==> s.finishPending || e.FinishCalled?
    ensures Inv(t)
  {
    OutstandingSnoc(s.log, e);
    FinishedOnceSnoc(s.log, e);
  }

  lemma DoFinishKeeps(s: Sender)
    requires Inv(s) && !s.closed
    ensures Inv(DoFinish(s))
  {
    if !s.finished { LogKeeps(s, DoFinish(s), NativeFinish); }
  }

  lemma StepKeepsInv(s: Sender, step: Step)
    requires Inv(s) && Enabled(s, step)
    ensures Inv(Apply(s, step))
  {
    match step
    case Write(begin) => if !s.finished && begin.Started? { LogKeeps(s, Apply(s, step), WriteStarted); }
    case Finish =>
      var t := s.(log := s.log + [FinishCalled]);
      LogKeeps(s, t, FinishCalled);
      DoFinishKeeps(t);
    case Complete(ok) => LogKeeps(s, Apply(s, step), WriteDone(ok));
    case DrainReturns => DoFinishKeeps(s.(draining := false, finishPending := false));
    case Destroy =>
  }

  lemma {:induction false} RunKeepsInv(s: Sender, run: seq<Step>)
    requires Inv(s) && Valid(s, run)
    ensures Inv(After(s, run))
    decreases |run|
  {
    if run != [] {
      StepKeepsInv(s, run[0]);
      RunKeepsInv(Apply(s, run[0]), run[1..]);
    }
  }

  /** In every run the native finish is called at most once and no write starts after it. */
  lemma FinishOnceAndLast(run: seq<Step>)
    requires Valid(Init(), run)
    ensures FinishedOnce(After(Init(), run).log)
  {
    RunKeepsInv(Init(), run);
  }

  // ---------------------------------------------------------------- finish against writes in flight

  /**
   * Nothing is in flight, or exactly one write whose start set WRITING and whose completion
   * handler has not begun.
   */
  predicate SafeToFinish(s: Sender) {
    s.inflight == 0 || (s.inflight == 1 && s.writing && !s.draining)
  }

  /** finish is called only where it is safe, and nothing is written after it was called. */
  predicate Careful(s: Sender, run: seq<Step>)
    requires Valid(s, run)
    decreases |run|
  {
    run == [] ||
    (&& (run[0].Finish? ==> SafeToFinish(s))
     && (run[0] == Write(Started) ==> FinishCalled !in s.log)
     && Careful(Apply(s, run[0]), run[1..]))
  }

  predicate CleanInv(s: Sender) {
    && Inv(s) && Clean(s.log)
    && (s.finishPending && !s.finished ==> SafeToFinish(s) && FinishCalled in s.log)
  }

  lemma CleanSnoc(log: seq<Event>, e: Event)
    requires Clean(log) && (e.NativeFinish? ==> Outstanding(log) == 0)
    ensures Clean(log + [e])
  {
    forall i | 0 <= i < |log + [e]| && (log + [e])[i].NativeFinish? ensures Outstanding((log + [e])[..i]) == 0 {
      assert (log + [e])[..i] == log[..i];
      assert i == |log| ==> log[..i] == log;
    }
  }

  lemma StepKeepsClean(s: Sender, step: Step)
    requires CleanInv(s) && Enabled(s, step)
    requires step.Finish? ==> SafeToFinish(s)
    requires step == Write(Started) ==> FinishCalled !in s.log
    ensures CleanInv(Apply(s, step))
  {
    StepKeepsInv(s, step);
    match step
    case Write(_) => CleanSnoc(s.log, WriteStarted);
    case Finish =>
      CleanSnoc(s.log, FinishCalled);
      OutstandingSnoc(s.log, FinishCalled);
      if !s.writing { CleanSnoc(s.log + [FinishCalled], NativeFinish); }
    case Complete(ok) => CleanSnoc(s.log, WriteDone(ok));
    case DrainReturns =>
      if s.finishPending && !s.finished { CleanSnoc(s.log, NativeFinish); }
    case Destroy =>
  }

  lemma {:induction false} CarefulFrom(s: Sender, run: seq<Step>)
    requires CleanInv(s) && Valid(s, run) && Careful(s, run)
    ensures CleanInv(After(s, run))
    decreases |run|
  {
    if run != [] {
      StepKeepsClean(s, run[0]);
      CarefulFrom(Apply(s, run[0]), run[1..]);
    }
  }

  /** With careful callers the native finish happens only when no write is in flight. */
  lemma CarefulRunsFinishClean(run: seq<Step>)
    requires Valid(Init(), run) && Careful(Init(), run)
    ensures Clean(After(Init(), run).log)
  {
    CarefulFrom(Init(), run);
  }

  /**
   * The usual discipline: one write at a time, none once finish was called, and finish is not
   * called inside a "drain" listener that has just written.
   */
  predicate OneAtATime(s: Sender, run: seq<Step>)
    requires Valid(s, run)
    decreases |run|
  {
    run == [] ||
    (&& (run[0] == Write(Started) ==> s.inflight == 0 && FinishCalled !in s.log)
     && (run[0].Finish? ==> !(s.draining && s.inflight > 0))
     && OneAtATime(Apply(s, run[0]), run[1..]))
  }

  lemma {:induction false} OneAtATimeIsCareful(s: Sender, run: seq<Step>)
    requires Valid(s, run) && OneAtATime(s, run)
    requires s.inflight <= 1 && (s.inflight == 1 ==> s.writing)
    ensures Careful(s, run)
    decreases |run|
  {
    if run != [] { OneAtATimeIsCareful(Apply(s, run[0]), run[1..]); }
  }

  /** `rest` can follow a call to finish and starts no write. */
  predicate Follows(s: Sender, rest: seq<Step>) {
    Valid(s, [Finish] + rest) && forall step <- rest :: !step.Write?
  }

  ghost predicate AlwaysClean(s: Sender) {
    forall rest :: Follows(s, rest) ==> Clean(After(s, [Finish] + rest).log)
  }

  lemma {:induction false} QuietRunsAreCareful(s: Sender, run: seq<Step>)
    requires Valid(s, run) && SafeToFinish(s) && forall step <- run :: !step.Write?
    ensures Careful(s, run)
    decreases |run|
  {
    if run != [] { QuietRunsAreCareful(Apply(s, run[0]), run[1..]); }
  }

  lemma UnsafeWitness(s: Sender) returns (rest: seq<Step>)
    requires Inv(s) && !s.closed && !s.finished && !SafeToFinish(s)
    ensures Follows(s, rest) && !Clean(After(s, [Finish] + rest).log)
  {
    var t := Apply(s, Finish);
    var log1 := s.log + [FinishCalled];
    OutstandingSnoc(s.log, FinishCalled);
    if !s.writing {
      rest := [];
      assert [Finish] + rest == [Finish] && [Finish][1..] == [];
      assert Valid(t, []) && After(t, []) == t;
      assert t.log[..|log1|] == log1 && t.log[|log1|].NativeFinish?;
    } else if s.draining {
      rest := [DrainReturns];
      TwoSteps(s, Finish, DrainReturns);
      assert [Finish] + rest == [Finish, DrainReturns];
      var u := Apply(t, DrainReturns);
      assert u.log[..|log1|] == log1 && u.log[|log1|].NativeFinish?;
    } else {
      rest := [Complete(true), DrainReturns];
      var v := Apply(t, Complete(true));
      TwoSteps(t, Complete(true), DrainReturns);
      var run := [Finish] + rest;
      assert run[1..] == rest && run[0] == Finish;
      var log2 := log1 + [WriteDone(true)];
      OutstandingSnoc(log1, WriteDone(true));
      var u := Apply(v, DrainReturns);
      assert After(s, run) == u;
      assert u.log[..|log2|] == log2 && u.log[|log2|].NativeFinish?;
    }
  }

  lemma TwoSteps(s: Sender, a: Step, b: Step)
    requires Enabled(s, a) && Enabled(Apply(s, a), b)
    ensures Valid(s, [a, b]) && After(s, [a, b]) == Apply(Apply(s, a), b)
  {
    assert [a, b][1..] == [b] && [b][1..] == [];
    assert Valid(Apply(s, a), [b]) && After(Apply(s, a), [b]) == Apply(Apply(s, a), b);
  }

  /**
   * The exact condition.  In any reachable open stream that has not finished, calling finish
   * and writing nothing afterwards finishes clean in every continuation if and only if the
   * call is made where SafeToFinish holds.
   */
  lemma FinishCleanIff(run: seq<Step>)
    requires Valid(Init(), run)
    requires var s := After(Init(), run); !s.closed && !s.finished
    ensures AlwaysClean(After(Init(), run)) <==> SafeToFinish(After(Init(), run))
  {
    RunKeepsInv(Init(), run);
    var s := After(Init(), run);
    if SafeToFinish(s) {
      forall rest | Follows(s, rest) ensures Clean(After(s, [Finish] + rest).log) {
        QuietRunsAreCareful(s, [Finish] + rest);
        CarefulFrom(s, [Finish] + rest);
      }
    } else {
      var rest := UnsafeWitness(s);
    }
  }

  /** `rest` can follow a call to finish, writes included. */
  predicate MayFollow(s: Sender, rest: seq<Step>) { Valid(s, [Finish] + rest) }

  ghost predicate CleanWhatever(s: Sender) {
    forall rest :: MayFollow(s, rest) ==> Clean(After(s, [Finish] + rest).log)
  }

  lemma {:induction false} FinishedStaysClean(s: Sender, rest: seq<Step>)
    requires s.finished && Clean(s.log) && Valid(s, rest)
    ensures Clean(After(s, rest).log)
    decreases |rest|
  {
    if rest != [] {
      var t := Apply(s, rest[0]);
      if t.log != s.log { CleanSnoc(s.log, t.log[|s.log|]); }
      FinishedStaysClean(t, rest[1..]);
    }
  }

  lemma IdleFinishIsClean(s: Sender, rest: seq<Step>)
    requires Inv(s) && !s.closed && !s.finished && s.inflight == 0 && !s.writing && MayFollow(s, rest)
    ensures Clean(After(s, [Finish] + rest).log)
  {
    assert ([Finish] + rest)[1..] == rest;
    NoFinishIsClean(s.log);
    CleanSnoc(s.log, FinishCalled);
    OutstandingSnoc(s.log, FinishCalled);
    CleanSnoc(s.log + [FinishCalled], NativeFinish);
    FinishedStaysClean(Apply(s, Finish), rest);
  }

  /** The "drain" delivery of a deferred finish returns with a write in flight. */
  lemma DrainUnderWrite(s: Sender)
    requires Inv(s) && !s.closed && !s.finished && s.draining && s.finishPending && s.inflight > 0
    ensures !Clean(Apply(s, DrainReturns).log)
  {
    var t := Apply(s, DrainReturns);
    assert t.log[..|s.log|] == s.log && t.log[|s.log|].NativeFinish?;
  }

  lemma DrainWitness(s: Sender) returns (rest: seq<Step>)
    requires Inv(s) && !s.closed && !s.finished && s.writing && s.draining
    ensures MayFollow(s, rest) && !Clean(After(s, [Finish] + rest).log)
  {
    rest := [Write(Started), DrainReturns];
    var t := Apply(s, Finish);
    var u := Apply(t, Write(Started));
    StepKeepsInv(s, Finish);
    StepKeepsInv(t, Write(Started));
    DrainUnderWrite(u);
    TwoSteps(t, Write(Started), DrainReturns);
    assert ([Finish] + rest)[1..] == rest;
  }

  /** Two more writes under a deferred finish, and the first completion. */
  lemma DeferredUnderWrites(s: Sender) returns (t: Sender)
    requires Inv(s) && !s.closed && !s.finished && !s.draining && s.finishPending
    ensures Valid(s, [Write(Started), Write(Started)])
    ensures t == After(s, [Write(Started), Write(Started)]) && Inv(t) && t.inflight == s.inflight + 2
    ensures !t.closed && !t.finished && !t.draining && t.finishPending
  {
    var u := Apply(s, Write(Started));
    StepKeepsInv(s, Write(Started));
    StepKeepsInv(u, Write(Started));
    TwoSteps(s, Write(Started), Write(Started));
    t := Apply(u, Write(Started));
  }

  lemma CompletedUnderWrite(t: Sender)
    requires Inv(t) && !t.closed && !t.finished && !t.draining && t.finishPending && t.inflight >= 2
    ensures Valid(t, [Complete(true), DrainReturns]) && !Clean(After(t, [Complete(true), DrainReturns]).log)
  {
    StepKeepsInv(t, Complete(true));
    DrainUnderWrite(Apply(t, Complete(true)));
    TwoSteps(t, Complete(true), DrainReturns);
  }

  lemma {:induction false} AfterAppend(s: Sender, a: seq<Step>, b: seq<Step>)
    requires Valid(s, a) && Valid(After(s, a), b)
    ensures Valid(s, a + b) && After(s, a + b) == After(After(s, a), b)
    decreases |a|
  {
    if a == [] {
      assert a + b == b;
    } else {
      assert (a + b)[1..] == a[1..] + b;
      AfterAppend(Apply(s, a[0]), a[1..], b);
    }
  }

  lemma WriteWitness(s: Sender) returns (rest: seq<Step>)
    requires Inv(s) && !s.closed && !s.finished && s.writing && !s.draining
    ensures MayFollow(s, rest) && !Clean(After(s, [Finish] + rest).log)
  {
    var u := Apply(s, Finish);
    StepKeepsInv(s, Finish);
    var t := DeferredUnderWrites(u);
    CompletedUnderWrite(t);
    AfterAppend(u, [Write(Started), Write(Started)], [Complete(true), DrainReturns]);
    rest := [Write(Started), Write(Started)] + [Complete(true), DrainReturns];
    assert ([Finish] + rest)[1..] == rest;
  }

  /**
   * With writes allowed after finish as well, which the code accepts until the native finish:
   * calling finish is clean in every continuation if and only if nothing is in flight and
   * WRITING is down, so that it happens at once.
   */
  lemma FinishCleanWhateverIff(run: seq<Step>)
    requires Valid(Init(), run)
    requires var s := After(Init(), run); !s.closed && !s.finished
    ensures var s := After(Init(), run); CleanWhatever(s) <==> s.inflight == 0 && !s.writing
  {
    RunKeepsInv(Init(), run);
    var s := After(Init(), run);
    if s.inflight == 0 && !s.writing {
      forall rest | MayFollow(s, rest) ensures Clean(After(s, [Finish] + rest).log) { IdleFinishIsClean(s, rest); }
    } else if !s.writing {
      var rest := UnsafeWitness(s);
      assert MayFollow(s, rest);
    } else if s.draining {
      var rest := DrainWitness(s);
    } else {
      var rest := WriteWitness(s);
    }
  }

  lemma NoFinishIsClean(log: seq<Event>)
    requires NativeFinish !in log
    ensures Clean(log)
  {
  }

  /** One write and finish, then another write before the first completes: the code takes it. */
  lemma WriteAfterFinishIsCutOff()
    ensures var run := [Write(Started), Finish, Write(Started), Complete(true), DrainReturns];
            && Valid(Init(), run) && !Clean(After(Init(), run).log)
            && SafeToFinish(After(Init(), run[..1]))
  {
    var run := [Write(Started), Finish, Write(Started), Complete(true), DrainReturns];
    Chain5(Init(), Write(Started), Finish, Write(Started), Complete(true), DrainReturns);
    var s3 := Apply(Apply(Apply(Init(), Write(Started)), Finish), Write(Started));
    var end := Apply(Apply(s3, Complete(true)), DrainReturns);
    assert end.log == [WriteStarted, FinishCalled, WriteStarted, WriteDone(true), NativeFinish];
    Outstanding4(WriteStarted, FinishCalled, WriteStarted, WriteDone(true));
    assert end.log[..4] == [WriteStarted, FinishCalled, WriteStarted, WriteDone(true)];
    Prefix(Init(), run, 0);
    assert run[..1] == [Write(Started)] && run[..0] == [];
  }

  /** Two writes and a finish in one tick: the first completion finishes under the second write. */
  lemma TwoWritesFinishEarly()
    ensures var run := [Write(Started), Write(Started), Finish, Complete(true), DrainReturns];
            Valid(Init(), run) && !Clean(After(Init(), run).log)
  {
    var s1 := Apply(Init(), Write(Started));
    var s2 := Apply(s1, Write(Started));
    var s3 := Apply(s2, Finish);
    Chain5(Init(), Write(Started), Write(Started), Finish, Complete(true), DrainReturns);
    var end := Apply(Apply(s3, Complete(true)), DrainReturns);
    assert end.log == [WriteStarted, WriteStarted, FinishCalled, WriteDone(true), NativeFinish];
    Outstanding4(WriteStarted, WriteStarted, FinishCalled, WriteDone(true));
    assert end.log[..4] == [WriteStarted, WriteStarted, FinishCalled, WriteDone(true)];
  }

  /** One write at a time is not enough: write and finish inside a "drain" listener. */
  lemma WriteInDrainFinishesEarly()
    ensures var run := [Write(Started), Complete(true), Write(Started), Finish, DrainReturns];
            Valid(Init(), run) && !Clean(After(Init(), run).log)
  {
    Chain5(Init(), Write(Started), Complete(true), Write(Started), Finish, DrainReturns);
    var s3 := Apply(Apply(Apply(Init(), Write(Started)), Complete(true)), Write(Started));
    var end := Apply(Apply(s3, Finish), DrainReturns);
    assert end.log == [WriteStarted, WriteDone(true), WriteStarted, FinishCalled, NativeFinish];
    Outstanding4(WriteStarted, WriteDone(true), WriteStarted, FinishCalled);
    assert end.log[..4] == [WriteStarted, WriteDone(true), WriteStarted, FinishCalled];
  }

  lemma Outstanding4(a: Event, b: Event, c: Event, d: Event)
    ensures Outstanding([a, b, c, d]) == Delta(a) + Delta(b) + Delta(c) + Delta(d)
  {
    var l1 := [] + [a];
    var l2 := l1 + [b];
    var l3 := l2 + [c];
    OutstandingSnoc([], a);
    OutstandingSnoc(l1, b);
    OutstandingSnoc(l2, c);
    OutstandingSnoc(l3, d);
    assert l3 + [d] == [a, b, c, d];
  }

  lemma Chain5(s: Sender, a: Step, b: Step, c: Step, d: Step, e: Step)
    requires Enabled(s, a) && Enabled(Apply(s, a), b) && Enabled(Apply(Apply(s, a), b), c)
    requires var t := Apply(Apply(Apply(s, a), b), c); Enabled(t, d) && Enabled(Apply(t, d), e)
    ensures Valid(s, [a, b, c, d, e])
    ensures After(s, [a, b, c, d, e]) == Apply(Apply(Apply(Apply(Apply(s, a), b), c), d), e)
  {
    TwoSteps(s, a, b);
    assert [a, b] + [c] == [a, b, c] && [a, b, c] + [d] == [a, b, c, d] && [a, b, c, d] + [e] == [a, b, c, d, e];
    AfterSnoc(s, [a, b], c);
    AfterSnoc(s, [a, b, c], d);
    AfterSnoc(s, [a, b, c, d], e);
  }

  // ---------------------------------------------------------------- a requested finish happens

  /** No write fails, and none stays unregistered. */
  predicate NoFailure(run: seq<Step>) {
    forall i :: 0 <= i < |run| ==> run[i] != Complete(false) && run[i] != Write(Unregistered)
  }

  predicate Promised(s: Sender) {
    && Inv(s) && (s.writing ==> s.inflight > 0 || s.closed)
    && (FinishCalled in s.log && !s.finished && !s.closed ==> s.finishPending && (s.writing || s.draining))
  }

  lemma {:induction false} PromiseKept(s: Sender, run: seq<Step>)
    requires Promised(s) && Valid(s, run) && NoFailure(run)
    ensures Promised(After(s, run))
    decreases |run|
  {
    if run != [] {
      StepKeepsInv(s, run[0]);
      PromiseKept(Apply(s, run[0]), run[1..]);
    }
  }

  /**
   * If every write succeeds, a requested finish has happened by the time the open stream is
   * idle, however many writes were in flight and whatever "drain" listeners did.
   */
  lemma RequestedFinishHappens(run: seq<Step>)
    requires Valid(Init(), run) && NoFailure(run)
    ensures var s := After(Init(), run);
            FinishCalled in s.log && !s.closed && !s.draining && s.inflight == 0 ==> s.finished && NativeFinish in s.log
  {
    PromiseKept(Init(), run);
  }

  lemma {:induction false} Prefix(s: Sender, run: seq<Step>, n: nat)
    requires Valid(s, run) && n < |run|
    ensures Valid(s, run[..n]) && Enabled(After(s, run[..n]), run[n])
    ensures Valid(s, run[..n + 1]) && After(s, run[..n + 1]) == Apply(After(s, run[..n]), run[n])
    decreases n
  {
    if n != 0 {
      Prefix(Apply(s, run[0]), run[1..], n - 1);
      assert run[1..][..n - 1] == run[..n][1..] && run[1..][..n] == run[..n + 1][1..];
    } else {
      assert run[..1][1..] == [] && Valid(Apply(s, run[0]), []);
    }
  }

  /** The event loop alone: completions and returns from "drain" listeners that call nothing. */
  predicate Quiet(rest: seq<Step>) { forall step <- rest :: step.Complete? || step.DrainReturns? }

  predicate Settled(s: Sender) { s.inflight == 0 && !s.draining }

  lemma {:induction false} FinishedStays(s: Sender, rest: seq<Step>)
    requires s.finished && Valid(s, rest)
    ensures After(s, rest).finished
    decreases |rest|
  {
    if rest != [] { FinishedStays(Apply(s, rest[0]), rest[1..]); }
  }

  lemma {:induction false} PendingFinishIff(s: Sender, rest: seq<Step>)
    requires s.finishPending && !s.finished && Valid(s, rest) && Quiet(rest) && Settled(After(s, rest))
    ensures After(s, rest).finished <==> s.draining || Complete(true) in rest
    decreases |rest|
  {
    if rest != [] {
      assert rest[0] in rest && forall step <- rest[1..] :: step in rest;
      var t := Apply(s, rest[0]);
      assert Complete(true) in rest <==> rest[0] == Complete(true) || Complete(true) in rest[1..];
      if rest[0].DrainReturns? { FinishedStays(t, rest[1..]); } else { PendingFinishIff(t, rest[1..]); }
    }
  }

  /**
   * Which requested finish happens.  On any reachable open stream that has not finished, once
   * everything in flight has completed, the finish has happened if and only if nothing was
   * being written, or a "drain" was being delivered, or some write in flight succeeds.
   */
  lemma RequestedFinishIff(run: seq<Step>, rest: seq<Step>)
    requires Valid(Init(), run)
    requires var s := After(Init(), run);
             && !s.closed && !s.finished && Valid(s, [Finish] + rest) && Quiet(rest)
             && Settled(After(s, [Finish] + rest))
    ensures var s := After(Init(), run);
            After(s, [Finish] + rest).finished <==> !s.writing || s.draining || Complete(true) in rest
  {
    var s := After(Init(), run);
    assert ([Finish] + rest)[1..] == rest;
    var t := Apply(s, Finish);
    if s.writing { PendingFinishIff(t, rest); } else { FinishedStays(t, rest); }
  }

  /** Whatever completes how, the finish called in `s` will have happened once all is quiet. */
  ghost predicate WillFinish(s: Sender) {
    forall rest :: Valid(s, [Finish] + rest) && Quiet(rest) && Settled(After(s, [Finish] + rest)) ==>
      After(s, [Finish] + rest).finished
  }

  /** Every write in flight fails. */
  function AllFail(n: nat): seq<Step> { seq(n, _ => Complete(false)) }

  lemma {:induction false} AllFailSettles(s: Sender)
    requires !s.closed && !s.draining
    ensures Valid(s, AllFail(s.inflight)) && Settled(After(s, AllFail(s.inflight)))
    decreases s.inflight
  {
    if s.inflight != 0 {
      assert AllFail(s.inflight)[1..] == AllFail(s.inflight - 1);
      AllFailSettles(Apply(s, Complete(false)));
    }
  }

  /** Checkable when finish is called: it is certain to happen if and only if no write can drop it. */
  lemma WillFinishIff(run: seq<Step>)
    requires Valid(Init(), run)
    requires var s := After(Init(), run); !s.closed && !s.finished
    ensures var s := After(Init(), run); WillFinish(s) <==> !s.writing || s.draining
  {
    var s := After(Init(), run);
    if !s.writing || s.draining {
      forall rest | Valid(s, [Finish] + rest) && Quiet(rest) && Settled(After(s, [Finish] + rest))
        ensures After(s, [Finish] + rest).finished
      {
        RequestedFinishIff(run, rest);
      }
    } else {
      var t := Apply(s, Finish);
      var rest := AllFail(t.inflight);
      AllFailSettles(t);
      assert ([Finish] + rest)[1..] == rest && Valid(s, [Finish] + rest);
      RequestedFinishIff(run, rest);
    }
  }

  /** The only write fails: the stream is idle and was never finished. */
  lemma FailedWriteDropsFinish()
    ensures var run := [Write(Started), Finish, Complete(false)];
            && Valid(Init(), run)
            && var s := After(Init(), run); s.inflight == 0 && !s.draining && !s.finished && FinishCalled in s.log
  {
    TwoSteps(Init(), Write(Started), Finish);
    AfterSnoc(Init(), [Write(Started), Finish], Complete(false));
    assert [Write(Started), Finish] + [Complete(false)] == [Write(Started), Finish, Complete(false)];
  }

  /** A write that was not registered: WRITING stays up over nothing, and finish is deferred for good. */
  lemma UnregisteredWriteDropsFinish()
    ensures var run := [Write(Unregistered), Finish];
            && Valid(Init(), run)
            && var s := After(Init(), run); Settled(s) && s.writing && !s.finished && FinishCalled in s.log
  {
    TwoSteps(Init(), Write(Unregistered), Finish);
  }

  // ---------------------------------------------------------------- the stream object

  /** What a "drain" listener may do to the stream. */
  datatype Call = CallWrite(begin: Begin) | CallFinish

  function Scripted(calls: seq<Call>): seq<Step> {
    seq(|calls|, i requires 0 <= i < |calls| => if calls[i].CallWrite? then Write(calls[i].begin) else Finish)
  }

  class SendStream {
    var inflight: nat
    var writing: bool           // RPIROH_FLAG_WRITING
    var finishPending: bool     // RPIROH_FLAG_FINISH_PENDING
    var finished: bool          // RPIROH_FLAG_FINISHED
    ghost var log: seq<Event>

    ghost function View(draining: bool): Sender
      reads this
    {
      Sender(inflight, writing, finishPending, finished, draining, false, log)
    }

    constructor ()
      ensures View(false) == Init()
    {
      inflight, writing, finishPending, finished, log := 0, false, false, false, [];
    }

    /** stream.write; it throws on a finished stream and when no write operation is obtained. */
    method WriteData(begin: Begin, ghost draining: bool) returns (threw: bool)
      modifies this
      ensures View(draining) == Apply(old(View(draining)), Write(begin))
      ensures threw <==> old(finished) || begin.Refused?
    {
      threw := finished || begin.Refused?;
      if threw { return; }
      writing := true;
      if begin.Unregistered? { return; }
      inflight := inflight + 1;
      log := log + [WriteStarted];
    }

    method NativeFinishOnce()
      modifies this
      ensures forall d :: View(d) == DoFinish(old(View(d)))
    {
      if !finished {
        log := log + [NativeFinish];
        finished := true;
      }
    }

    /** stream.finish. */
    method FinishWriting(ghost draining: bool)
      modifies this
      ensures View(draining) == Apply(old(View(draining)), Finish)
    {
      log := log + [FinishCalled];
      if writing {
        finishPending := true;
      } else {
        NativeFinishOnce();
      }
    }

    /** iroh_on_stream_written with the calls its "drain" listeners make. */
    method OnWritten(ok: bool, calls: seq<Call>)
      requires inflight > 0
      modifies this
      ensures !ok ==> View(false) == Apply(old(View(false)), Complete(false))
      ensures ok ==> var run := [Complete(true)] + Scripted(calls) + [DrainReturns];
                     Valid(old(View(false)), run) && View(false) == After(old(View(false)), run)
    {
      ghost var start := View(false);
      writing := false;
      inflight := inflight - 1;
      log := log + [WriteDone(ok)];
      if !ok { return; }
      ghost var run := [Complete(true)];
      assert [Complete(true)] + Scripted([]) == run && run[1..] == [];
      assert Valid(Apply(start, Complete(true)), []);
      var i := 0;
      while i < |calls|
        invariant 0 <= i <= |calls|
        invariant run == [Complete(true)] + Scripted(calls)[..i]
        invariant Valid(start, run) && View(true) == After(start, run)
      {
        if calls[i].CallWrite? {
          var threw := WriteData(calls[i].begin, true);
        } else {
          FinishWriting(true);
        }
        AfterSnoc(start, run, Scripted(calls)[i]);
        run := run + [Scripted(calls)[i]];
        i := i + 1;
      }
      AfterSnoc(start, run, DrainReturns);
      assert run == [Complete(true)] + Scripted(calls);
      if finishPending {
        finishPending := false;
        NativeFinishOnce();
      }
    }
  }
}
