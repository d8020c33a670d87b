/**
 * Listener ids.  A function gets its id at its first registration, from a counter that every
 * registration advances and that is cut to 32 bits.  Here is when two functions get the same
 * id, what follows while none do, and what happens when they do.
 */
module ListenerIds {
  import opened Emitter

  predicate IsRegistration(step: Step) { step.On? || step.Once? }

  predicate RegistersFn(step: Step, f: Fn) { IsRegistration(step) && step.f == f }

  predicate Registers(run: seq<Step>, f: Fn) { exists i :: 0 <= i < |run| && RegistersFn(run[i], f) }

  /** The number of registrations in `run`. */
  function Registrations(run: seq<Step>): nat {
    if run == [] then 0 else (if IsRegistration(run[0]) then 1 else 0) + Registrations(run[1..])
  }

  /** The number of registrations, of whatever function, before the first one of `f`. */
  function FirstAt(run: seq<Step>, f: Fn): nat {
    if run == [] || RegistersFn(run[0], f) then 0
    else (if IsRegistration(run[0]) then 1 else 0) + FirstAt(run[1..], f)
  }

  lemma RegistersUnfolds(run: seq<Step>, f: Fn)
    requires run != []
    ensures Registers(run, f) <==> RegistersFn(run[0], f) || Registers(run[1..], f)
  {
    if RegistersFn(run[0], f) { assert Registers(run, f); }
    if i :| 0 <= i < |run[1..]| && RegistersFn(run[1..][i], f) { assert RegistersFn(run[i + 1], f); }
    if i :| 0 <= i < |run| && RegistersFn(run[i], f) && i != 0 { assert RegistersFn(run[1..][i - 1], f); }
  }

  /** What one step does to the counter and to the id of `f`. */
  lemma StepIds(s: Emitter, step: Step, f: Fn)
    requires Enabled(s, step)
    ensures var t := Apply(s, step);
            && t.counter == s.counter + (if IsRegistration(step) then 1 else 0)
            && (f in t.ids <==> f in s.ids || RegistersFn(step, f))
            && (f in t.ids ==> t.ids[f] == if f in s.ids then s.ids[f] else IdAt(s.counter))
  {
  }

  lemma {:induction false} RunIds(s: Emitter, run: seq<Step>, f: Fn)
    requires Valid(s, run)
    ensures var t := After(s, run);
            && t.counter == s.counter + Registrations(run)
            && (f in t.ids <==> f in s.ids || Registers(run, f))
            && (f in t.ids ==> t.ids[f] == if f in s.ids then s.ids[f] else IdAt(s.counter + FirstAt(run, f)))
    decreases |run|
  {
    if run != [] {
      StepIds(s, run[0], f);
      RegistersUnfolds(run, f);
      RunIds(Apply(s, run[0]), run[1..], f);
    }
  }

  /** No two functions first registered a multiple of 2^32 registrations apart. */
  ghost predicate NoClash(run: seq<Step>) {
    forall f, g :: Registers(run, f) && Registers(run, g) && FirstAt(run, f) % U32 == FirstAt(run, g) % U32 ==> f == g
  }

  /**
   * Distinct functions have distinct ids, over every run, if and only if no two of them were
   * first registered a multiple of 2^32 registrations apart.
   */
  lemma DistinctIff(run: seq<Step>)
    requires Valid(Init(), run)
    ensures Distinct(After(Init(), run)) <==> NoClash(run)
  {
    var s := After(Init(), run);
    forall f ensures f in s.ids <==> Registers(run, f) { RunIds(Init(), run, f); }
    forall f | f in s.ids ensures s.ids[f] == IdAt(FirstAt(run, f)) { RunIds(Init(), run, f); }
  }

  lemma {:induction false} FirstsDiffer(run: seq<Step>, f: Fn, g: Fn)
    requires Registers(run, f) && Registers(run, g) && f != g
    ensures FirstAt(run, f) != FirstAt(run, g) && FirstAt(run, f) < Registrations(run)
    decreases |run|
  {
    RegistersUnfolds(run, f);
    RegistersUnfolds(run, g);
    if RegistersFn(run[0], f) || RegistersFn(run[0], g) {
      if !RegistersFn(run[0], f) { FirstBelow(run[1..], f); }
    } else {
      FirstsDiffer(run[1..], f, g);
    }
  }

  lemma {:induction false} FirstBelow(run: seq<Step>, f: Fn)
    requires Registers(run, f)
    ensures FirstAt(run, f) < Registrations(run)
    decreases |run|
  {
    RegistersUnfolds(run, f);
    if !RegistersFn(run[0], f) { FirstBelow(run[1..], f); }
  }

  /** In particular up to 2^32 registrations. */
  lemma FewNeverClash(run: seq<Step>)
    requires Registrations(run) <= U32
    ensures NoClash(run)
  {
    forall f, g | Registers(run, f) && Registers(run, g) && f != g
      ensures FirstAt(run, f) % U32 != FirstAt(run, g) % U32
    {
      FirstsDiffer(run, f, g);
      FirstsDiffer(run, g, f);
    }
  }

  /**
   * Identity, while no ids clash.  The entry under an id is the function carrying that id, so a
   * function appears at most once per event; off removes that function from that event and
   * touches nothing else; and on, if it causes no clash, adds it and touches nothing else.
   */
  lemma ListenerIdentity(run: seq<Step>, key: Key, f: Fn)
    requires Valid(Init(), run) && NoClash(run)
    ensures var s := After(Init(), run);
            var t := Apply(s, Off(key, f));
            && (forall g, h :: g in s.ids && h in s.ids && s.ids[g] == s.ids[h] ==> g == h)
            && (forall k, id, g :: Holds(s, k, id, g) ==> g in s.ids && s.ids[g] == id)
            && (forall k, id, g :: Holds(t, k, id, g) <==> Holds(s, k, id, g) && !(k == key && g == f))
            && t.ids == s.ids && t.once == s.once && t.counter == s.counter
    ensures var s := After(Init(), run);
            var u := Apply(s, On(key, f));
            NoClash(run + [On(key, f)]) ==>
              && f in u.ids
              && forall k, id, g :: Holds(u, k, id, g) <==> Holds(s, k, id, g) || (k == key && g == f && id == u.ids[f])
    ensures var s := After(Init(), run);
            var u := Apply(s, Once(key, f));
            NoClash(run + [Once(key, f)]) ==>
              && f in u.ids && u.once == s.once + {f}
              && forall k, id, g :: Holds(u, k, id, g) <==> Holds(s, k, id, g) || (k == key && g == f && id == u.ids[f])
  {
    DistinctIff(run);
    RunKeepsIds(Init(), run);
    OffExact(After(Init(), run), key, f);
    if NoClash(run + [Once(key, f)]) {
      AfterSnoc(Init(), run, Once(key, f));
      DistinctIff(run + [Once(key, f)]);
      OnceExact(After(Init(), run), key, f);
    }
    if NoClash(run + [On(key, f)]) {
      AfterSnoc(Init(), run, On(key, f));
      DistinctIff(run + [On(key, f)]);
      OnExact(After(Init(), run), key, f);
    }
  }

  /** Every entry of `s` is still in `t`. */
  ghost predicate Keeps(s: Emitter, t: Emitter) { forall k, id, h :: Holds(s, k, id, h) ==> Holds(t, k, id, h) }

  lemma RegisterKeepsIff(s: Emitter, key: Key, g: Fn)
    requires IdInv(s)
    ensures Keeps(s, Register(s, key, g)) <==> g in s.ids || IdAt(s.counter) !in Table(s, key)
  {
    var t, id := Register(s, key, g), IdAt(s.counter);
    if g !in s.ids && id in Table(s, key) {
      var f := Table(s, key)[id];
      assert s.tables[key][id] in s.ids;
      assert Holds(s, key, id, f) && !Holds(t, key, id, f);
    }
  }

  /**
   * Exactly when a registration evicts another listener: the function is new, and the id the
   * counter gives it, the number of registrations so far cut to 32 bits, is in use on that event.
   */
  lemma OnEvictsIff(run: seq<Step>, key: Key, g: Fn)
    requires Valid(Init(), run) && NoClash(run)
    ensures var s := After(Init(), run);
            !Keeps(s, Apply(s, On(key, g))) <==> !Registers(run, g) && IdAt(Registrations(run)) in Table(s, key)
  {
    DistinctIff(run);
    RunKeepsIds(Init(), run);
    RunIds(Init(), run, g);
    RegisterKeepsIff(After(Init(), run), key, g);
  }

  // ---------------------------------------------------------------- a run that gets there

  /** `n` different functions put on one event. */
  function Fill(key: Key, n: nat): seq<Step> { seq(n, i requires 0 <= i < n => On(key, i)) }

  /** The functions below `n` carry their ranks as ids, and `key` holds the first. */
  predicate Filled(s: Emitter, key: Key, n: nat) {
    && s.counter == n && (forall f <- s.ids :: f < n) && (n > 0 ==> Holds(s, key, IdAt(0), 0))
  }

  lemma FillStep(s: Emitter, key: Key, n: nat)
    requires n < U32 && Filled(s, key, n)
    ensures Filled(Register(s, key, n), key, n + 1)
  {
    assert n > 0 ==> IdAt(n) != IdAt(0);
  }

  lemma {:induction false} FillRegisters(key: Key, n: nat)
    requires n <= U32
    ensures Valid(Init(), Fill(key, n)) && Filled(After(Init(), Fill(key, n)), key, n)
  {
    if n == 0 {
      assert Fill(key, 0) == [];
    } else {
      FillRegisters(key, n - 1);
      assert Fill(key, n) == Fill(key, n - 1) + [On(key, n - 1)];
      AfterSnoc(Init(), Fill(key, n - 1), On(key, n - 1));
      FillStep(After(Init(), Fill(key, n - 1)), key, n - 1);
    }
  }

  /** After 2^32 functions on one event, one more replaces the first. */
  lemma WrapIsReached(key: Key)
    ensures Valid(Init(), Fill(key, U32)) && Valid(Init(), Fill(key, U32) + [On(key, U32)])
    ensures Holds(After(Init(), Fill(key, U32)), key, 0, 0)
    ensures var t := After(Init(), Fill(key, U32) + [On(key, U32)]); Holds(t, key, 0, U32) && !Holds(t, key, 0, 0)
  {
    FillRegisters(key, U32);
    assert IdAt(U32) == IdAt(0) == 0;
    AfterSnoc(Init(), Fill(key, U32), On(key, U32));
  }

  /** The counter alone does no harm: one function registered any number of times. */
  lemma ReregisteringNeverClashes(run: seq<Step>, f: Fn)
    requires forall step <- run :: IsRegistration(step) ==> step.f == f
    ensures NoClash(run)
  {
    forall g | Registers(run, g) ensures g == f {
      var i :| 0 <= i < |run| && RegistersFn(run[i], g);
      assert run[i] in run;
    }
  }
}
