/**
 * The sending side in terms of what happened to it: every flag and the whole log of a stream
 * as a function of the steps of its run, without looking at any state in between.
 */
module StreamHistory {
  import opened StreamWrite

  /** No write completed between step `i` and step `n`. */
  predicate Uncompleted(run: seq<Step>, i: nat, n: nat)
    requires n <= |run|
  {
    forall j :: i < j < n ==> !run[j].Complete?
  }

  /** Whether something is being written, and whether the stream is finished. */
  datatype Brief = Brief(writing: bool, finished: bool)

  function BriefOf(run: seq<Step>, n: nat): Brief
    requires n <= |run|
  {
    if n == 0 then Brief(false, false)
    else
      var b, step := BriefOf(run, n - 1), run[n - 1];
      Brief(
        (step.Write? && !step.begin.Refused? && !b.finished) || (b.writing && !step.Complete?),
        b.finished || (step.Finish? && !b.writing) || (step.DrainReturns? && Finish in run[..n - 1]))
  }

  predicate WritingAt(run: seq<Step>, n: nat)
    requires n <= |run|
  {
    BriefOf(run, n).writing
  }

  predicate FinishedBy(run: seq<Step>, n: nat)
    requires n <= |run|
  {
    BriefOf(run, n).finished
  }

  /** Step `i` is a write that got past its tests: nothing had finished the stream before. */
  predicate Accepted(run: seq<Step>, i: nat)
    requires i < |run|
  {
    run[i].Write? && !run[i].begin.Refused? && !FinishedBy(run, i)
  }

  /** Step `i` calls finish with nothing being written, or ends a "drain" after a call to finish. */
  predicate FinishesAt(run: seq<Step>, i: nat)
    requires i < |run|
  {
    (run[i].Finish? && !WritingAt(run, i)) || (run[i].DrainReturns? && Finish in run[..i])
  }

  /** Something is being written if some accepted write has seen no completion since. */
  lemma {:induction false} WritingMeans(run: seq<Step>, n: nat)
    requires n <= |run|
    ensures WritingAt(run, n) <==> exists i :: 0 <= i < n && Accepted(run, i) && Uncompleted(run, i, n)
  {
    if n != 0 {
      WritingMeans(run, n - 1);
      if Accepted(run, n - 1) {
        assert Uncompleted(run, n - 1, n);
      } else {
        forall i | 0 <= i < n - 1
          ensures Uncompleted(run, i, n) <==> Uncompleted(run, i, n - 1) && !run[n - 1].Complete?
        {
        }
      }
    }
  }

  lemma {:induction false} FinishedMeans(run: seq<Step>, n: nat)
    requires n <= |run|
    ensures FinishedBy(run, n) <==> exists i :: 0 <= i < n && FinishesAt(run, i)
  {
    if n != 0 {
      FinishedMeans(run, n - 1);
      if FinishesAt(run, n - 1) { assert FinishedBy(run, n); }
    }
  }

  /** A successful completion whose "drain" delivery has not returned. */
  predicate DrainingAt(run: seq<Step>, n: nat)
    requires n <= |run|
  {
    exists i :: 0 <= i < n && run[i] == Complete(true) && forall j :: i < j < n ==> !run[j].DrainReturns?
  }

  /** What step `i` does to the native stream. */
  function EventsAt(run: seq<Step>, i: nat): seq<Event>
    requires i < |run|
  {
    var last := if FinishesAt(run, i) && !FinishedBy(run, i) then [NativeFinish] else [];
    match run[i]
    case Write(begin) => if Accepted(run, i) && begin.Started? then [WriteStarted] else []
    case Finish => [FinishCalled] + last
    case Complete(ok) => [WriteDone(ok)]
    case DrainReturns => last
    case Destroy => []
  }

  function EventsOf(run: seq<Step>, n: nat): seq<Event>
    requires n <= |run|
  {
    if n == 0 then [] else EventsOf(run, n - 1) + EventsAt(run, n - 1)
  }

  // ---------------------------------------------------------------- one step further

  lemma DrainingStep(run: seq<Step>, n: nat)
    requires n < |run|
    ensures DrainingAt(run, n + 1) <==> run[n] == Complete(true) || (DrainingAt(run, n) && !run[n].DrainReturns?)
  {
  }

  /** The flags of `s` are what the first `n` steps say. */
  predicate FlagsTold(s: Sender, run: seq<Step>, n: nat)
    requires n <= |run|
  {
    && (s.writing <==> WritingAt(run, n))
    && (s.finished <==> FinishedBy(run, n))
    && (Finish in run[..n] <==> s.finished || s.finishPending)
  }

  predicate Told(s: Sender, run: seq<Step>, n: nat)
    requires n <= |run|
  {
    && FlagsTold(s, run, n)
    && (s.draining <==> DrainingAt(run, n))
    && (s.closed <==> Destroy in run[..n])
    && s.log == EventsOf(run, n)
  }

  lemma StepTellsFlags(s: Sender, run: seq<Step>, n: nat)
    requires n < |run| && FlagsTold(s, run, n) && Enabled(s, run[n])
    ensures FlagsTold(Apply(s, run[n]), run, n + 1)
  {
    assert run[..n + 1] == run[..n] + [run[n]];
  }

  lemma StepTellsLog(s: Sender, run: seq<Step>, n: nat)
    requires n < |run| && FlagsTold(s, run, n) && Enabled(s, run[n])
    ensures Apply(s, run[n]).log == s.log + EventsAt(run, n)
  {
    if run[n].Finish? { assert s.log + [FinishCalled] + [NativeFinish] == s.log + ([FinishCalled] + [NativeFinish]); }
  }

  lemma StepTold(s: Sender, run: seq<Step>, n: nat)
    requires n < |run| && Told(s, run, n) && Enabled(s, run[n])
    ensures Told(Apply(s, run[n]), run, n + 1)
  {
    DrainingStep(run, n);
    StepTellsFlags(s, run, n);
    StepTellsLog(s, run, n);
    assert run[..n + 1] == run[..n] + [run[n]];
  }

  lemma {:induction false} PrefixTold(run: seq<Step>, n: nat)
    requires Valid(Init(), run) && n <= |run|
    ensures Valid(Init(), run[..n]) && Told(After(Init(), run[..n]), run, n)
  {
    if n != 0 {
      PrefixTold(run, n - 1);
      Prefix(Init(), run, n - 1);
      StepTold(After(Init(), run[..n - 1]), run, n - 1);
    }
  }

  /**
   * The stream after any run, from the run's steps alone: WRITING is up if and only if some
   * accepted write has seen no completion since; a "drain" is being delivered if and only if
   * one began and has not returned; the log is what the steps call for, and what is in flight
   * is what it leaves outstanding.
   */
  lemma HistoryTells(run: seq<Step>)
    requires Valid(Init(), run)
    ensures var s := After(Init(), run);
            && (s.writing <==> exists i :: 0 <= i < |run| && Accepted(run, i) && Uncompleted(run, i, |run|))
            && (s.draining <==> DrainingAt(run, |run|))
            && s.log == EventsOf(run, |run|)
            && (Destroy !in run ==> s.inflight == Outstanding(EventsOf(run, |run|)))
  {
    PrefixTold(run, |run|);
    WritingMeans(run, |run|);
    assert run[..|run|] == run;
    RunKeepsInv(Init(), run);
  }

  /**
   * Exactly when the stream gets finished, over every run: some call to finish came with no
   * accepted write uncompleted, or some "drain" delivery returned after finish had been called.
   */
  lemma FinishedIff(run: seq<Step>)
    requires Valid(Init(), run)
    ensures After(Init(), run).finished <==> exists i :: 0 <= i < |run| && FinishesAt(run, i)
  {
    PrefixTold(run, |run|);
    FinishedMeans(run, |run|);
    assert run[..|run|] == run;
  }

  /** After a failed write nothing is being written, so finish happens at once. */
  lemma FinishAfterFailure()
    ensures var run := [Write(Started), Complete(false), Finish];
            Valid(Init(), run) && After(Init(), run).finished && After(Init(), run).inflight == 0
  {
    TwoSteps(Init(), Write(Started), Complete(false));
    AfterSnoc(Init(), [Write(Started), Complete(false)], Finish);
    assert [Write(Started), Complete(false)] + [Finish] == [Write(Started), Complete(false), Finish];
  }
}
