/**
 * The hidden mark of `once`.  It sits on the function, not on the registration: set by any
 * `once`, cleared by any call, left alone by `off`.  Here is what that does to listeners.
 */
module OnceMark {
  import opened Emitter

  lemma MarkStep(s: Emitter, step: Step, f: Fn)
    requires Enabled(s, step)
    ensures var t := Apply(s, step);
            && Calls(s.log, f) <= Calls(t.log, f)
            && (step.Once? && step.f == f ==> f in t.once && Calls(t.log, f) == Calls(s.log, f))
            && (!(step.Once? && step.f == f) ==> (f in t.once <==> f in s.once && Calls(t.log, f) == Calls(s.log, f)))
  {
    match step
    case Off(key, g) => if g in s.ids { CallsSnoc(s.log, Removed(key, s.ids[g]), f); }
    case Advance => TurnMarks(s, f);
    case _ =>
  }

  lemma TurnMarks(s: Emitter, f: Fn)
    requires Enabled(s, Advance)
    ensures var t := Turn(s);
            Calls(s.log, f) <= Calls(t.log, f) && (f in t.once <==> f in s.once && Calls(t.log, f) == Calls(s.log, f))
  {
    var n, fire := Top(s), s.fires[Top(s)];
    if fire.pos < |fire.snapshot| {
      var id := fire.snapshot[fire.pos];
      CallsSnoc(s.log, Skipped(n, id), f);
      if id in Table(s, fire.key) {
        var g := Table(s, fire.key)[id];
        CallsSnoc(s.log, Called(n, id, g), f);
        CallsSnoc(s.log, Removed(fire.key, id), f);
        CallsSnoc(s.log + [Removed(fire.key, id)], Called(n, id, g), f);
      }
    }
  }

  /** Calls of `f` in the first `n` steps. */
  function CallsBy(run: seq<Step>, n: nat, f: Fn): nat
    requires n <= |run| && Valid(Init(), run[..n])
  {
    Calls(After(Init(), run[..n]).log, f)
  }

  /** Step `i` is a `once` of `f`, on any event, and `f` is not called between it and step `n`. */
  predicate OnceUncalled(run: seq<Step>, i: nat, n: nat, f: Fn) {
    && i < n <= |run| && Valid(Init(), run[..i + 1]) && Valid(Init(), run[..n])
    && run[i].Once? && run[i].f == f && CallsBy(run, i + 1, f) == CallsBy(run, n, f)
  }

  ghost predicate Marked(run: seq<Step>, n: nat, f: Fn) { exists i :: OnceUncalled(run, i, n, f) }

  /** One step on, an earlier `once` is still uncalled exactly if the step did not call `f`. */
  lemma MarkCarried(run: seq<Step>, m: nat, n: nat, f: Fn)
    requires n == m + 1 <= |run| && Valid(Init(), run[..m]) && Valid(Init(), run[..n])
    requires forall i :: 0 <= i <= m ==> Valid(Init(), run[..i]) && CallsBy(run, i, f) <= CallsBy(run, m, f)
    requires CallsBy(run, m, f) <= CallsBy(run, n, f)
    requires run[m].Once? && run[m].f == f ==> CallsBy(run, m, f) == CallsBy(run, n, f)
    ensures Marked(run, n, f) <==>
            (run[m].Once? && run[m].f == f) || (Marked(run, m, f) && CallsBy(run, m, f) == CallsBy(run, n, f))
  {
    if run[m].Once? && run[m].f == f {
      assert OnceUncalled(run, m, n, f);
    } else {
      if i :| OnceUncalled(run, i, n, f) { assert OnceUncalled(run, i, m, f); }
      if CallsBy(run, m, f) == CallsBy(run, n, f) {
        if i :| OnceUncalled(run, i, m, f) { assert OnceUncalled(run, i, n, f); }
      }
    }
  }

  lemma {:induction false} MarkTracked(run: seq<Step>, n: nat, f: Fn)
    requires Valid(Init(), run) && n <= |run|
    ensures Valid(Init(), run[..n]) && (f in After(Init(), run[..n]).once <==> Marked(run, n, f))
    ensures forall i :: 0 <= i <= n ==> Valid(Init(), run[..i]) && CallsBy(run, i, f) <= CallsBy(run, n, f)
  {
    if n != 0 {
      MarkTracked(run, n - 1, f);
      Prefix(Init(), run, n - 1);
      MarkStep(After(Init(), run[..n - 1]), run[n - 1], f);
      MarkCarried(run, n - 1, n, f);
    }
  }

  /**
   * The mark in terms of what a script did: it is up if and only if some `once` of the
   * function, on whatever event, was not followed by a call of the function.
   */
  lemma MarkedIff(run: seq<Step>, f: Fn)
    requires Valid(Init(), run)
    ensures f in After(Init(), run).once <==> Marked(run, |run|, f)
  {
    MarkTracked(run, |run|, f);
    assert run[..|run|] == run;
  }

  /** The innermost trigger is of event `key` and its next turn is that of `f`. */
  predicate NextUp(s: Emitter, key: Key, f: Fn) {
    && s.stack != [] && Top(s) < |s.fires|
    && var fire := s.fires[Top(s)];
       fire.key == key && fire.pos < |fire.snapshot| && Holds(s, key, fire.snapshot[fire.pos], f)
  }

  lemma TurnDelivers(s: Emitter, key: Key, f: Fn)
    requires IdInv(s) && NextUp(s, key, f)
    ensures var t := Turn(s);
            && Calls(t.log, f) == Calls(s.log, f) + 1
            && (Registered(t, key, f) <==> f !in s.once)
            && forall k :: k != key ==> Registered(t, k, f) == Registered(s, k, f)
  {
    var n, id := Top(s), s.fires[Top(s)].snapshot[s.fires[Top(s)].pos];
    assert s.tables[key][id] in s.ids;
    CallsSnoc(s.log, Called(n, id, f), f);
    CallsSnoc(s.log, Removed(key, id), f);
    CallsSnoc(s.log + [Removed(key, id)], Called(n, id, f), f);
  }

  /**
   * Exactly when a delivery removes the listener, over every run and however it was registered:
   * if some `once` of that function, on whatever event, was not followed by a call of it.  The
   * function's other events keep it either way.  So a listener meant to go at its first call
   * goes if and only if the function was not called since it was last passed to `once`, and a
   * listener meant to stay stays if and only if there is no such `once`.
   */
  lemma DeliveryRemovesIff(run: seq<Step>, key: Key, f: Fn)
    requires Valid(Init(), run) && Distinct(After(Init(), run)) && NextUp(After(Init(), run), key, f)
    ensures var s := After(Init(), run);
            var t := Apply(s, Advance);
            && Calls(t.log, f) == Calls(s.log, f) + 1
            && (!Registered(t, key, f) <==> Marked(run, |run|, f))
            && forall k :: k != key ==> Registered(t, k, f) == Registered(s, k, f)
  {
    MarkedIff(run, f);
    RunKeepsIds(Init(), run);
    TurnDelivers(After(Init(), run), key, f);
  }

  // ---------------------------------------------------------------- two failing scripts

  const A: Key := (0, "a")
  const B: Key := (0, "b")

  /** An idle emitter with one function, marked, under id 0. */
  function One(counter: nat, f: Fn, tables: map<Key, map<int, Fn>>, log: seq<Event>): Emitter {
    Emitter(counter, map[f := 0], {f}, tables, [], [], log)
  }

  lemma OffThenOn(f: Fn)
    ensures var run := [Once(A, f), Off(A, f), On(A, f)];
            && Valid(Init(), run)
            && After(Init(), run) == One(2, f, map[A := map[0 := f]], [Removed(A, 0)])
  {
    var s := Apply(Init(), Once(A, f));
    assert s == One(1, f, map[A := map[0 := f]], []);
    var t := Apply(s, Off(A, f));
    assert t == One(1, f, map[A := map[]], [Removed(A, 0)]);
    assert Apply(t, On(A, f)) == One(2, f, map[A := map[0 := f]], [Removed(A, 0)]);
    AfterSnoc(Init(), [], Once(A, f));
    AfterSnoc(Init(), [] + [Once(A, f)], Off(A, f));
    AfterSnoc(Init(), [] + [Once(A, f)] + [Off(A, f)], On(A, f));
    assert [] + [Once(A, f)] + [Off(A, f)] + [On(A, f)] == [Once(A, f), Off(A, f), On(A, f)];
  }

  /** `off` leaves the mark of `once` behind, so a later `on` lasts for one call only. */
  lemma OnAfterOnceIsRemoved(f: Fn)
    ensures var set' := [Once(A, f), Off(A, f), On(A, f), Trigger(A, [0])];
            && Valid(Init(), set') && Registered(After(Init(), set'), A, f)
            && Valid(Init(), set' + [Advance]) && !Registered(After(Init(), set' + [Advance]), A, f)
  {
    var run := [Once(A, f), Off(A, f), On(A, f)];
    OffThenOn(f);
    AfterSnoc(Init(), run, Trigger(A, [0]));
    AfterSnoc(Init(), run + [Trigger(A, [0])], Advance);
    assert run + [Trigger(A, [0])] == [Once(A, f), Off(A, f), On(A, f), Trigger(A, [0])];
  }

  lemma TwoOnces(f: Fn)
    ensures var run := [Once(A, f), Once(B, f)];
            && Valid(Init(), run)
            && After(Init(), run) == One(2, f, map[A := map[0 := f], B := map[0 := f]], [])
  {
    var s := Apply(Init(), Once(A, f));
    assert s == One(1, f, map[A := map[0 := f]], []);
    assert Apply(s, Once(B, f)) == One(2, f, map[A := map[0 := f], B := map[0 := f]], []);
    AfterSnoc(Init(), [], Once(A, f));
    AfterSnoc(Init(), [] + [Once(A, f)], Once(B, f));
    assert [] + [Once(A, f)] + [Once(B, f)] == [Once(A, f), Once(B, f)];
  }

  /** One trigger of an event and the first turn of it. */
  lemma FireOnce(run: seq<Step>, key: Key)
    requires Valid(Init(), run) && Enabled(After(Init(), run), Trigger(key, [0]))
    requires var s := After(Init(), run); 0 in Table(s, key)
    ensures var s := After(Init(), run);
            var t := s.(fires := s.fires + [Fire(key, [0], 1, |s.log|)], stack := s.stack + [|s.fires|]);
            && Valid(Init(), run + [Trigger(key, [0]), Advance])
            && After(Init(), run + [Trigger(key, [0]), Advance]) == Deliver(t, |s.fires|, key, 0)
  {
    var s := After(Init(), run);
    AfterSnoc(Init(), run, Trigger(key, [0]));
    var u := Apply(s, Trigger(key, [0]));
    AfterSnoc(Init(), run + [Trigger(key, [0])], Advance);
    assert run + [Trigger(key, [0])] + [Advance] == run + [Trigger(key, [0]), Advance];
    assert u.fires[|s.fires| := Fire(key, [0], 1, |s.log|)] == s.fires + [Fire(key, [0], 1, |s.log|)];
  }

  /** After the call for `A`, the mark is gone and `B` still holds the function. */
  lemma FirstCall(f: Fn)
    ensures var run := [Once(A, f), Once(B, f)] + [Trigger(A, [0]), Advance];
            && Valid(Init(), run)
            && var s := After(Init(), run);
               && s.ids == map[f := 0] && s.once == {} && s.tables == map[A := map[], B := map[0 := f]]
               && s.log == [Removed(A, 0)] + [Called(0, 0, f)] && |s.fires| == 1
  {
    TwoOnces(f);
    FireOnce([Once(A, f), Once(B, f)], A);
  }

  /** `once` on two events: after a call for the first, the second keeps calling it. */
  lemma OnceOnTwoEventsStays(f: Fn)
    ensures var run := [Once(A, f), Once(B, f)] + [Trigger(A, [0]), Advance] + [Trigger(B, [0]), Advance]
                       + [Trigger(B, [0]), Advance];
            && Valid(Init(), run)
            && var t := After(Init(), run); Registered(t, B, f) && Calls(t.log, f) == 3
  {
    FirstCall(f);
    var r4 := [Once(A, f), Once(B, f)] + [Trigger(A, [0]), Advance];
    var s4 := After(Init(), r4);
    FireOnce(r4, B);
    var r6 := r4 + [Trigger(B, [0]), Advance];
    var s6 := After(Init(), r6);
    assert s6.tables == s4.tables && s6.once == {} && s6.ids == s4.ids && s6.log == s4.log + [Called(1, 0, f)];
    FireOnce(r6, B);
    CallsSnoc([], Removed(A, 0), f);
    CallsSnoc([Removed(A, 0)], Called(0, 0, f), f);
    CallsSnoc(s4.log, Called(1, 0, f), f);
    CallsSnoc(s6.log, Called(2, 0, f), f);
    assert [] + [Removed(A, 0)] == [Removed(A, 0)];
  }
}
