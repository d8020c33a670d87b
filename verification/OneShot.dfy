/**
 * One-shot callbacks: iroh_store_cb puts a function under a fresh id in the object's hidden
 * table, the id travels in the operation's `aux` field, and iroh_prep_cb takes it out again.
 */
module OneShot {
  import opened Common

  type Fn = nat
  type OpId = nat

  const U32: nat := 0x1_0000_0000

  datatype Ran = Ran(op: OpId, f: Fn)

  /** `given` remembers, for the statement only, what each operation was started with. */
  datatype Cbs = Cbs(
    stores: nat,                      // next_cb_id before reduction to 32 bits
    table: map<nat, Fn>,
    pending: map<OpId, nat>,          // aux of each operation under way; 0 is "no callback"
    parked: set<OpId>,                // of these, the ones iroh.connect starts once online
    given: map<OpId, Option<Fn>>,
    log: seq<Ran>)

  /** `guarded`: the connect handler tests the id before looking it up, the others do not. */
  datatype Step =
    | Start(op: OpId, cb: Option<Fn>, ok: bool)
    | Park(op: OpId, f: Fn)           // iroh.connect: the callback is stored, the operation comes later
    | Launch(op: OpId, ok: bool)      // the endpoint is online: that operation is started
    | Done(op: OpId, guarded: bool)
    | Gone(op: OpId)                  // failed, or cancelled by cleanup

  function Init(): Cbs { Cbs(0, map[], map[], {}, map[], []) }

  predicate Enabled(s: Cbs, step: Step) {
    match step
    case Start(op, _, _) => op !in s.given
    case Park(op, _) => op !in s.given
    case Launch(op, _) => op in s.parked
    case _ => step.op in s.pending && step.op !in s.parked
  }

  function Store(s: Cbs, f: Fn): Cbs {
    s.(stores := s.stores + 1, table := s.table[(s.stores + 1) % U32 := f])
  }

  function Admit(s: Cbs, op: OpId, aux: nat, cb: Option<Fn>): Cbs {
    s.(pending := s.pending[op := aux], given := s.given[op := cb])
  }

  function Apply(s: Cbs, step: Step): Cbs
    requires Enabled(s, step)
  {
    match step
    case Start(op, cb, ok) =>
      var t := if cb.Some? then Store(s, cb.value) else s;
      if ok then Admit(t, op, if cb.Some? then t.stores % U32 else 0, cb) else t
    case Park(op, f) =>
      var t := Store(s, f);
      Admit(t, op, t.stores % U32, Some(f)).(parked := s.parked + {op})
    case Launch(op, ok) =>
      s.(parked := s.parked - {op}, pending := if ok then s.pending else s.pending - {op})
    case Done(op, guarded) =>
      var id := s.pending[op];
      var t := s.(pending := s.pending - {op});
      if (guarded && id == 0) || id !in s.table then t
      else t.(table := s.table - {id}, log := s.log + [Ran(op, s.table[id])])
    case Gone(op) => s.(pending := s.pending - {op})
  }

  predicate Valid(s: Cbs, run: seq<Step>)
    decreases |run|
  {
    run == [] || (Enabled(s, run[0]) && Valid(Apply(s, run[0]), run[1..]))
  }

  function After(s: Cbs, run: seq<Step>): Cbs
    requires Valid(s, run)
    decreases |run|
  {
    if run == [] then s else After(Apply(s, run[0]), run[1..])
  }

  // ---------------------------------------------------------------- callbacks and operations matched

  /** The operation's id leads to the callback it was given, and to none if it was given none. */
  predicate PendingOk(s: Cbs, op: OpId)
    requires op in s.pending
  {
    && op in s.given
    && if s.given[op].None? then s.pending[op] == 0
       else s.pending[op] != 0 && s.pending[op] in s.table && s.table[s.pending[op]] == s.given[op].value
  }

  predicate Matched(s: Cbs) {
    && 0 !in s.table
    && (forall op <- s.pending :: PendingOk(s, op))
    && (forall a, b :: a in s.pending && b in s.pending && s.pending[a] == s.pending[b] != 0 ==> a == b)
  }

  /** Every call so far went to the operation it was given to, and no operation made two. */
  predicate LogOk(s: Cbs) {
    && (forall r <- s.log :: r.op in s.given && r.op !in s.pending && s.given[r.op] == Some(r.f))
    && (forall i, j :: 0 <= i < j < |s.log| ==> s.log[i].op != s.log[j].op)
  }

  /** The operation, completing now, calls exactly what it was started with. */
  predicate DeliversOwn(s: Cbs, op: OpId, guarded: bool)
    requires Enabled(s, Done(op, guarded)) && op in s.given
  {
    Apply(s, Done(op, guarded)).log == s.log + if s.given[op].Some? then [Ran(op, s.given[op].value)] else []
  }

  /** Operation `o` is under way with `id`, and storing `f` there does it harm. */
  predicate Harms(s: Cbs, o: OpId, id: nat, f: Fn, ok: bool) {
    o in s.pending && s.pending[o] == id && (ok || o !in s.given || s.given[o] != Some(f))
  }

  /** The id for the next callback means "none", or another operation under way has it. */
  ghost predicate Taken(s: Cbs, f: Fn, ok: bool) {
    var id := (s.stores + 1) % U32;
    id == 0 || exists o :: Harms(s, o, id, f, ok)
  }

  ghost predicate Clash(s: Cbs, step: Step) {
    match step
    case Start(_, cb, ok) => cb.Some? && Taken(s, cb.value, ok)
    case Park(_, f) => Taken(s, f, true)
    case _ => false
  }

  /** Storing `f` keeps the match exactly if its id is not 0 and nobody else relies on it. */
  lemma StoreMatches(s: Cbs, f: Fn)
    requires Matched(s)
    ensures Matched(Store(s, f)) <==> !Taken(s, f, false)
  {
    var t, id := Store(s, f), (s.stores + 1) % U32;
    if Taken(s, f, false) {
      if id != 0 {
        var o :| Harms(s, o, id, f, false);
        assert PendingOk(s, o) && !PendingOk(t, o);
      }
    } else {
      forall op <- t.pending ensures PendingOk(t, op) {
        assert PendingOk(s, op) && !Harms(s, op, id, f, false);
      }
    }
  }

  /** A new operation with the id just stored. */
  lemma AdmitMatches(s: Cbs, op: OpId, f: Fn)
    requires Matched(s) && op !in s.given && op !in s.pending
    ensures Matched(Admit(Store(s, f), op, (s.stores + 1) % U32, Some(f))) <==> !Taken(s, f, true)
  {
    var id := (s.stores + 1) % U32;
    var t := Admit(Store(s, f), op, id, Some(f));
    if Taken(s, f, true) {
      if id != 0 {
        var o :| Harms(s, o, id, f, true);
        assert t.pending[o] == t.pending[op] == id && o != op;
      }
    } else {
      forall o <- t.pending ensures PendingOk(t, o) {
        if o != op { assert PendingOk(s, o) && !Harms(s, o, id, f, true); }
      }
      forall a, b | a in t.pending && b in t.pending && t.pending[a] == t.pending[b] != 0 ensures a == b {
        assert a != op ==> !Harms(s, a, id, f, true);
        assert b != op ==> !Harms(s, b, id, f, true);
      }
    }
  }

  lemma PlainMatches(s: Cbs, op: OpId)
    requires Matched(s) && op !in s.given
    ensures Matched(Admit(s, op, 0, None))
  {
    var t := Admit(s, op, 0, None);
    forall o <- t.pending ensures PendingOk(t, o) {
      if o != op { assert PendingOk(s, o); }
    }
  }

  lemma DropMatches(s: Cbs, op: OpId, parked: set<OpId>)
    requires Matched(s)
    ensures Matched(s.(pending := s.pending - {op}, parked := parked)) && Matched(s.(parked := parked))
  {
    var t, u := s.(pending := s.pending - {op}, parked := parked), s.(parked := parked);
    forall o <- t.pending ensures PendingOk(t, o) { assert PendingOk(s, o); }
    forall o <- u.pending ensures PendingOk(u, o) { assert PendingOk(s, o); }
  }

  lemma DoneMatches(s: Cbs, op: OpId, guarded: bool)
    requires Matched(s) && Enabled(s, Done(op, guarded))
    ensures Matched(Apply(s, Done(op, guarded))) && op in s.given && DeliversOwn(s, op, guarded)
  {
    var t := Apply(s, Done(op, guarded));
    assert PendingOk(s, op);
    forall o <- t.pending ensures PendingOk(t, o) { assert PendingOk(s, o); }
  }

  /** Which steps end the match, said of one step. */
  lemma StepMatches(s: Cbs, step: Step)
    requires Matched(s) && Enabled(s, step)
    ensures Matched(Apply(s, step)) <==> !Clash(s, step)
  {
    match step
    case Start(op, cb, ok) =>
      assert op in s.pending ==> PendingOk(s, op);
      if cb.None? {
        PlainMatches(s, op);
      } else if ok {
        AdmitMatches(s, op, cb.value);
      } else {
        StoreMatches(s, cb.value);
      }
    case Park(op, f) =>
      assert op in s.pending ==> PendingOk(s, op);
      AdmitMatches(s, op, f);
      var t := Admit(Store(s, f), op, (s.stores + 1) % U32, Some(f));
      ParkedIsIrrelevant(t, s.parked + {op});
    case Launch(op, _) => DropMatches(s, op, s.parked - {op});
    case Done(op, guarded) => DoneMatches(s, op, guarded);
    case Gone(op) => DropMatches(s, op, s.parked);
  }

  lemma ParkedIsIrrelevant(s: Cbs, parked: set<OpId>)
    ensures Matched(s) <==> Matched(s.(parked := parked))
  {
    var t := s.(parked := parked);
    forall op <- s.pending ensures PendingOk(s, op) <==> PendingOk(t, op) {}
  }

  lemma StepKeepsLog(s: Cbs, step: Step)
    requires Matched(s) && LogOk(s) && Enabled(s, step)
    ensures LogOk(Apply(s, step))
  {
    if step.Done? {
      assert PendingOk(s, step.op);
      DoneMatches(s, step.op, step.guarded);
    }
  }

  // ---------------------------------------------------------------- over runs

  ghost predicate NoClash(s: Cbs, run: seq<Step>)
    requires Valid(s, run)
    decreases |run|
  {
    run == [] || (!Clash(s, run[0]) && NoClash(Apply(s, run[0]), run[1..]))
  }

  predicate AlwaysMatched(s: Cbs, run: seq<Step>)
    requires Valid(s, run)
    decreases |run|
  {
    Matched(s) && (run == [] || AlwaysMatched(Apply(s, run[0]), run[1..]))
  }

  lemma {:induction false} MatchedFrom(s: Cbs, run: seq<Step>)
    requires Matched(s) && Valid(s, run)
    ensures AlwaysMatched(s, run) <==> NoClash(s, run)
    decreases |run|
  {
    if run != [] {
      StepMatches(s, run[0]);
      if !Clash(s, run[0]) { MatchedFrom(Apply(s, run[0]), run[1..]); }
    }
  }

  /**
   * Over every run: callbacks and operations stay matched throughout if and only if no callback
   * is stored under id 0 or under the id of another operation still under way.
   */
  lemma MatchedIff(run: seq<Step>)
    requires Valid(Init(), run)
    ensures AlwaysMatched(Init(), run) <==> NoClash(Init(), run)
  {
    MatchedFrom(Init(), run);
  }

  lemma {:induction false} RunKeeps(s: Cbs, run: seq<Step>)
    requires Matched(s) && LogOk(s) && Valid(s, run) && NoClash(s, run)
    ensures Matched(After(s, run)) && LogOk(After(s, run))
    decreases |run|
  {
    if run != [] {
      StepMatches(s, run[0]);
      StepKeepsLog(s, run[0]);
      RunKeeps(Apply(s, run[0]), run[1..]);
    }
  }

  /**
   * While no ids clash, in any order of completion: a successful operation runs exactly the
   * callback it was started with, and none if it was started without; nothing else ever runs
   * a callback, and no operation runs one twice.
   */
  lemma CallbackMatchesOperation(run: seq<Step>, op: OpId, guarded: bool)
    requires Valid(Init(), run) && NoClash(Init(), run)
    ensures var s := After(Init(), run);
            && (Enabled(s, Done(op, guarded)) ==> op in s.given && DeliversOwn(s, op, guarded))
            && (forall r <- s.log :: r.op in s.given && s.given[r.op] == Some(r.f))
            && (forall i, j :: 0 <= i < j < |s.log| ==> s.log[i].op != s.log[j].op)
  {
    RunKeeps(Init(), run);
    var s := After(Init(), run);
    if Enabled(s, Done(op, guarded)) { DoneMatches(s, op, guarded); }
  }

  lemma {:induction false} StoresGrow(s: Cbs, run: seq<Step>)
    requires Valid(s, run)
    ensures s.stores <= After(s, run).stores
    decreases |run|
  {
    if run != [] { StoresGrow(Apply(s, run[0]), run[1..]); }
  }

  /** Ids handed out so far. */
  predicate Low(s: Cbs) { forall o <- s.pending :: s.pending[o] <= s.stores }

  lemma LowStep(s: Cbs, step: Step)
    requires Low(s) && Enabled(s, step) && Apply(s, step).stores < U32
    ensures Low(Apply(s, step)) && !Clash(s, step)
  {
    var t := Apply(s, step);
    if t.stores == s.stores + 1 { assert (s.stores + 1) % U32 == s.stores + 1; }
  }

  lemma {:induction false} FewFrom(s: Cbs, run: seq<Step>)
    requires Low(s) && Valid(s, run) && After(s, run).stores < U32
    ensures NoClash(s, run)
    decreases |run|
  {
    if run != [] {
      StoresGrow(Apply(s, run[0]), run[1..]);
      LowStep(s, run[0]);
      FewFrom(Apply(s, run[0]), run[1..]);
    }
  }

  /** In particular below 2^32 stores. */
  lemma FewStoresNeverClash(run: seq<Step>)
    requires Valid(Init(), run) && After(Init(), run).stores < U32
    ensures NoClash(Init(), run)
  {
    FewFrom(Init(), run);
  }

  // ---------------------------------------------------------------- against the run

  /** The step starts `op`, or parks it, with this callback or none. */
  predicate Gives(step: Step, op: OpId, cb: Option<Fn>) {
    step == Start(op, cb, true) || (step.Park? && step.op == op && cb == Some(step.f))
  }

  /** `op` is over with this step. */
  predicate IsOver(step: Step, op: OpId) {
    step == Launch(op, false) || ((step.Done? || step.Gone?) && step.op == op)
  }

  lemma {:induction false} GivenFrom(s: Cbs, run: seq<Step>, op: OpId, cb: Option<Fn>)
    requires Valid(s, run)
    ensures var t := After(s, run);
            (op in t.given && t.given[op] == cb) <==>
            (op in s.given && s.given[op] == cb) || exists step :: step in run && Gives(step, op, cb)
    decreases |run|
  {
    if run != [] {
      var t := Apply(s, run[0]);
      GivenFrom(t, run[1..], op, cb);
      assert (op in t.given && t.given[op] == cb) <==> (op in s.given && s.given[op] == cb) || Gives(run[0], op, cb);
      assert forall step :: step in run <==> step == run[0] || step in run[1..];
      if Gives(run[0], op, cb) { assert run[0] in run; }
    }
  }

  lemma {:induction false} GivenStays(s: Cbs, run: seq<Step>, op: OpId)
    requires Valid(s, run) && op in s.given
    ensures op in After(s, run).given && After(s, run).given[op] == s.given[op]
    ensures forall step <- run, cb :: !Gives(step, op, cb)
    decreases |run|
  {
    if run != [] { GivenStays(Apply(s, run[0]), run[1..], op); }
  }

  /** `op` was started or parked in `run`. */
  ghost predicate Begun(run: seq<Step>, op: OpId) { exists step, cb :: step in run && Gives(step, op, cb) }

  lemma PendingStep(s: Cbs, step: Step, op: OpId)
    requires Tidy(s) && Enabled(s, step)
    ensures op in Apply(s, step).pending <==> (op in s.pending || exists cb :: Gives(step, op, cb)) && !IsOver(step, op)
  {
    if step.Start? && step.op == op && step.ok { assert Gives(step, op, step.cb); }
    if step.Park? && step.op == op { assert Gives(step, op, Some(step.f)); }
  }

  lemma {:induction false} PendingFrom(s: Cbs, run: seq<Step>, op: OpId)
    requires Tidy(s) && Valid(s, run)
    ensures op in After(s, run).pending <==>
            (op in s.pending || Begun(run, op)) && forall step <- run :: !IsOver(step, op)
    decreases |run|
  {
    if run != [] {
      var t := Apply(s, run[0]);
      PendingStep(s, run[0], op);
      RunKeepsTidy(s, [run[0]]);
      OneMore(s, run[0]);
      PendingFrom(t, run[1..], op);
      assert forall step :: step in run <==> step == run[0] || step in run[1..];
      if op in t.given { GivenStays(t, run[1..], op); }
      if IsOver(run[0], op) { assert op in t.given; }
    }
  }

  lemma {:induction false} LogFrom(s: Cbs, run: seq<Step>, op: OpId, f: Fn)
    requires Matched(s) && Tidy(s) && Valid(s, run) && NoClash(s, run)
    ensures var t := After(s, run);
            Ran(op, f) in t.log <==>
            || Ran(op, f) in s.log
            || (op in t.given && t.given[op] == Some(f) && exists step :: step in run && step.Done? && step.op == op)
    decreases |run|
  {
    if run != [] {
      var t := Apply(s, run[0]);
      StepMatches(s, run[0]);
      RunKeepsTidy(s, [run[0]]);
      OneMore(s, run[0]);
      LogFrom(t, run[1..], op, f);
      assert forall step :: step in run <==> step == run[0] || step in run[1..];
      if run[0].Done? {
        DoneMatches(s, run[0].op, run[0].guarded);
        if run[0].op == op { GivenStays(s, run, op); }
      }
    }
  }

  /**
   * The callbacks, from the run alone, while no ids clash: an operation is under way if and only
   * if it was started or parked and is not over, and the callback `f` was called for it if and
   * only if it was started or parked with `f` and has succeeded.
   */
  lemma CallbacksFollowRun(run: seq<Step>, op: OpId, f: Fn)
    requires Valid(Init(), run) && NoClash(Init(), run)
    ensures op in After(Init(), run).pending <==> Begun(run, op) && forall step <- run :: !IsOver(step, op)
    ensures Ran(op, f) in After(Init(), run).log <==>
            && (exists step :: step in run && Gives(step, op, Some(f)))
            && (exists step :: step in run && step.Done? && step.op == op)
  {
    PendingFrom(Init(), run, op);
    LogFrom(Init(), run, op, f);
    GivenFrom(Init(), run, op, Some(f));
  }

  /** Every callback passed counts, whether its operation could be started or not. */
  lemma {:induction false} StoresCounted(s: Cbs, run: seq<Step>)
    requires Valid(s, run)
    ensures After(s, run).stores ==
            s.stores + Count(run, (step: Step) => step.Park? || (step.Start? && step.cb.Some?))
    decreases |run|
  {
    if run != [] { StoresCounted(Apply(s, run[0]), run[1..]); }
  }

  /** Below 2^32 stores every callback passed was called or is still in the table. */
  predicate Kept(s: Cbs) { |s.table| + |s.log| == s.stores && forall id <- s.table :: id <= s.stores }

  lemma KeptStep(s: Cbs, step: Step)
    requires Kept(s) && Enabled(s, step) && Apply(s, step).stores < U32
    ensures Kept(Apply(s, step))
  {
    match step
    case Start(op, cb, _) => if cb.Some? { StoreKept(s, cb.value); }
    case Park(_, f) => StoreKept(s, f);
    case Done(op, _) => if s.pending[op] in s.table { OneLess(s.table, s.pending[op]); }
    case _ =>
  }

  lemma OneLess(m: map<nat, Fn>, k: nat)
    requires k in m
    ensures |m - {k}| == |m| - 1
  {
    assert m == (m - {k})[k := m[k]];
  }

  lemma StoreKept(s: Cbs, f: Fn)
    requires Kept(s) && s.stores + 1 < U32
    ensures Kept(Store(s, f))
  {
    assert (s.stores + 1) % U32 == s.stores + 1 && s.stores + 1 !in s.table;
  }

  lemma {:induction false} KeptFrom(s: Cbs, run: seq<Step>)
    requires Kept(s) && Valid(s, run) && After(s, run).stores < U32
    ensures Kept(After(s, run))
    decreases |run|
  {
    if run != [] {
      StoresGrow(Apply(s, run[0]), run[1..]);
      KeptStep(s, run[0]);
      KeptFrom(Apply(s, run[0]), run[1..]);
    }
  }

  /**
   * Callbacks are conserved: below 2^32 of them, every callback passed was called or is still
   * in the table, where those of failed and refused operations stay for good.
   */
  lemma CallbacksConserved(run: seq<Step>)
    requires Valid(Init(), run) && After(Init(), run).stores < U32
    ensures var s := After(Init(), run);
            |s.table| + |s.log| == Count(run, (step: Step) => step.Park? || (step.Start? && step.cb.Some?))
  {
    KeptFrom(Init(), run);
    StoresCounted(Init(), run);
  }

  // ---------------------------------------------------------------- what a clash does

  lemma {:induction false} AfterSnoc(s: Cbs, run: seq<Step>, last: Step)
    requires Valid(s, run) && Enabled(After(s, run), last)
    ensures Valid(s, run + [last]) && After(s, run + [last]) == Apply(After(s, run), last)
    decreases |run|
  {
    if run == [] {
      assert run + [last] == [last] && [last][1..] == [];
      assert Valid(Apply(s, last), []);
    } else {
      assert (run + [last])[1..] == run[1..] + [last];
      AfterSnoc(Apply(s, run[0]), run[1..], last);
    }
  }

  lemma {:induction false} AfterAppend(s: Cbs, a: seq<Step>, b: seq<Step>)
    requires Valid(s, a) && Valid(After(s, a), b)
    ensures Valid(s, a + b) && After(s, a + b) == After(After(s, a), b)
    decreases |a|
  {
    if a == [] {
      assert a + b == b;
    } else {
      assert (a + b)[1..] == a[1..] + b;
      AfterAppend(Apply(s, a[0]), a[1..], b);
    }
  }

  lemma OneMore(s: Cbs, step: Step)
    requires Enabled(s, step)
    ensures Valid(s, [step]) && After(s, [step]) == Apply(s, step)
  {
    assert [step][1..] == [] && Valid(Apply(s, step), []);
  }

  /** Parked operations are under way, and whatever is under way was given out. */
  predicate Tidy(s: Cbs) { (forall op <- s.parked :: op in s.pending) && forall op <- s.pending :: op in s.given }

  lemma {:induction false} RunKeepsTidy(s: Cbs, run: seq<Step>)
    requires Tidy(s) && Valid(s, run)
    ensures Tidy(After(s, run))
    decreases |run|
  {
    if run != [] { RunKeepsTidy(Apply(s, run[0]), run[1..]); }
  }

  /** After `rest`, the completion of `bad` calls what it was not given, or nothing though it was. */
  predicate Misdelivers(t: Cbs, rest: seq<Step>, bad: OpId, guarded: bool) {
    && Valid(t, rest) && Enabled(After(t, rest), Done(bad, guarded)) && bad in After(t, rest).given
    && !DeliversOwn(After(t, rest), bad, guarded)
  }

  /** Lets the operation start, if it waits for that. */
  lemma Unpark(t: Cbs, o: OpId) returns (rest: seq<Step>)
    ensures Valid(t, rest) && After(t, rest) == t.(parked := t.parked - {o})
  {
    if o in t.parked {
      rest := [Launch(o, true)];
      OneMore(t, Launch(o, true));
    } else {
      rest := [];
      assert t.parked - {o} == t.parked;
    }
  }

  /** A wrong entry in the place of the right one, or of none. */
  lemma WrongEntry(log: seq<Ran>, r: Ran, q: Ran)
    ensures log != log + [r] && (r != q ==> log + [r] != log + [q])
  {
    assert (log + [r])[|log|] == r && (log + [q])[|log|] == q;
  }

  /** Two operations with one id: the callback goes to whoever completes first. */
  lemma SharedIdMisdelivers(t: Cbs, o: OpId, op: OpId, f: Fn) returns (rest: seq<Step>, bad: OpId)
    requires Enabled(t, Done(o, false)) && Enabled(t, Done(op, false)) && o != op && t.pending[o] == t.pending[op]
    requires o in t.given && t.given[o].Some? && op in t.given && t.given[op] == Some(f)
    requires t.pending[o] in t.table && t.table[t.pending[o]] == f
    ensures Misdelivers(t, rest, bad, false)
  {
    WrongEntry(t.log, Ran(o, f), Ran(o, t.given[o].value));
    if t.given[o] != Some(f) {
      rest, bad := [], o;
    } else {
      rest, bad := [Done(o, false)], op;
      OneMore(t, Done(o, false));
      WrongEntry(After(t, rest).log, Ran(op, f), Ran(op, f));
    }
  }

  lemma ZeroMisdelivers(t: Cbs, op: OpId, f: Fn) returns (rest: seq<Step>)
    requires op in t.pending && t.pending[op] == 0 && op in t.given && t.given[op] == Some(f)
    ensures Misdelivers(t, rest, op, true)
  {
    rest := Unpark(t, op);
    WrongEntry(t.log, Ran(op, f), Ran(op, f));
  }

  lemma StrayMisdelivers(t: Cbs, other: OpId, f: Fn) returns (rest: seq<Step>)
    requires 0 in t.table && t.table[0] == f && other !in t.given && other !in t.parked
    ensures Misdelivers(t, rest, other, false)
  {
    rest := [Start(other, None, true)];
    OneMore(t, Start(other, None, true));
    WrongEntry(t.log, Ran(other, f), Ran(other, f));
  }

  lemma OverwrittenMisdelivers(t: Cbs, o: OpId, f: Fn) returns (rest: seq<Step>)
    requires o in t.pending && t.pending[o] in t.table && t.table[t.pending[o]] == f
    requires o in t.given && t.given[o].Some? && t.given[o] != Some(f)
    ensures Misdelivers(t, rest, o, false)
  {
    rest := Unpark(t, o);
    WrongEntry(t.log, Ran(o, f), Ran(o, t.given[o].value));
  }

  lemma TwiceMisdelivers(t: Cbs, o: OpId, op: OpId, f: Fn) returns (rest: seq<Step>, bad: OpId)
    requires o in t.pending && op in t.pending && o != op && t.pending[o] == t.pending[op]
    requires o in t.given && t.given[o].Some? && op in t.given && t.given[op] == Some(f)
    requires t.pending[o] in t.table && t.table[t.pending[o]] == f
    ensures Misdelivers(t, rest, bad, false)
  {
    var first := Unpark(t, o);
    var u := After(t, first);
    var second := Unpark(u, op);
    var v := After(u, second);
    AfterAppend(t, first, second);
    var last;
    last, bad := SharedIdMisdelivers(v, o, op, f);
    AfterAppend(t, first + second, last);
    rest := first + second + last;
  }

  /**
   * Every clash does harm: from any run that ends in one there is a continuation in which an
   * operation calls what it was not started with, or fails to call what it was.
   */
  lemma ClashMisdelivers(run: seq<Step>, step: Step, other: OpId) returns (rest: seq<Step>, bad: OpId, guarded: bool)
    requires Valid(Init(), run) && NoClash(Init(), run)
    requires var s := After(Init(), run);
             Enabled(s, step) && Clash(s, step) && other !in s.given && other != step.op
    ensures Misdelivers(Apply(After(Init(), run), step), rest, bad, guarded)
  {
    RunKeeps(Init(), run);
    RunKeepsTidy(Init(), run);
    var s := After(Init(), run);
    var t, id := Apply(s, step), (s.stores + 1) % U32;
    var f, ok := if step.Park? then step.f else step.cb.value, step.Park? || step.ok;
    guarded := false;
    if id == 0 && ok {
      bad, guarded := step.op, true;
      rest := ZeroMisdelivers(t, step.op, f);
    } else if id == 0 {
      bad := other;
      rest := StrayMisdelivers(t, other, f);
    } else {
      var o :| Harms(s, o, id, f, ok);
      assert PendingOk(s, o);
      if ok {
        rest, bad := TwiceMisdelivers(t, o, step.op, f);
      } else {
        bad := o;
        rest := OverwrittenMisdelivers(t, o, f);
      }
    }
  }

  /** The 2^32nd stored callback gets id 0: an operation without one runs it. */
  lemma WrappedIdLeaks(s: Cbs, op1: OpId, op2: OpId, f: Fn)
    requires s.stores == U32 - 1 && op1 !in s.given && op2 !in s.given && op1 != op2 && op2 !in s.parked
    ensures var t := Apply(Apply(s, Start(op1, Some(f), true)), Start(op2, None, true));
            t.given[op2] == None && Apply(t, Done(op2, false)).log == s.log + [Ran(op2, f)]
  {
  }

  /** `n` operations started with a callback. */
  function Fill(n: nat, f: Fn): seq<Step> { seq(n, i requires 0 <= i < n => Start(i, Some(f), true)) }

  lemma {:induction false} FillStores(n: nat, f: Fn)
    ensures Valid(Init(), Fill(n, f))
    ensures var s := After(Init(), Fill(n, f));
            s.stores == n && (forall op <- s.given :: op < n) && s.log == [] && s.parked == {}
  {
    if n == 0 {
      assert Fill(0, f) == [];
    } else {
      FillStores(n - 1, f);
      assert Fill(n, f) == Fill(n - 1, f) + [Start(n - 1, Some(f), true)];
      AfterSnoc(Init(), Fill(n - 1, f), Start(n - 1, Some(f), true));
    }
  }

  /** A run that gets there: 2^32 callbacks stored, then an operation without one calls the last. */
  lemma WrapIsReached(f: Fn, g: Fn)
    ensures var run := Fill(U32 - 1, f) + [Start(U32, Some(g), true)] + [Start(U32 + 1, None, true)]
                       + [Done(U32 + 1, false)];
            && Valid(Init(), run)
            && var t := After(Init(), run); U32 + 1 in t.given && t.given[U32 + 1] == None && Ran(U32 + 1, g) in t.log
  {
    FillStores(U32 - 1, f);
    var run, s := Fill(U32 - 1, f), After(Init(), Fill(U32 - 1, f));
    WrappedIdLeaks(s, U32, U32 + 1, g);
    AfterSnoc(Init(), run, Start(U32, Some(g), true));
    AfterSnoc(Init(), run + [Start(U32, Some(g), true)], Start(U32 + 1, None, true));
    AfterSnoc(Init(), run + [Start(U32, Some(g), true)] + [Start(U32 + 1, None, true)], Done(U32 + 1, false));
  }

  /** The same store made by endpoint.connect: its handler takes id 0 for "none" and calls nothing. */
  lemma WrapIsSilent(f: Fn, g: Fn)
    ensures var run := Fill(U32 - 1, f) + [Start(U32, Some(g), true)] + [Done(U32, true)];
            && Valid(Init(), run)
            && var t := After(Init(), run);
               U32 in t.given && t.given[U32] == Some(g) && U32 !in t.pending && t.log == []
  {
    FillStores(U32 - 1, f);
    var run := Fill(U32 - 1, f);
    AfterSnoc(Init(), run, Start(U32, Some(g), true));
    AfterSnoc(Init(), run + [Start(U32, Some(g), true)], Done(U32, true));
  }

  // ---------------------------------------------------------------- the object and its records

  /** The hidden table of an object, its counter, and the `aux` fields of its pending records. */
  class CallbackTable {
    var nextId: nat                   // next_cb_id, 32 bits
    var table: map<nat, Fn>
    var pending: map<OpId, nat>
    var parked: set<OpId>             // those whose address, ALPN and id wait on the endpoint
    ghost var stores: nat
    ghost var given: map<OpId, Option<Fn>>
    ghost var log: seq<Ran>

    ghost predicate Valid()
      reads this
    {
      nextId == stores % U32
    }

    ghost function View(): Cbs
      reads this
    {
      Cbs(stores, table, pending, parked, given, log)
    }

    constructor ()
      ensures Valid() && View() == Init()
    {
      nextId, table, pending, parked, stores, given, log := 0, map[], map[], {}, 0, map[], [];
    }

    /** iroh_store_cb. */
    method StoreCallback(f: Fn) returns (id: nat)
      requires Valid()
      modifies this`nextId, this`table, this`stores
      ensures Valid() && View() == Store(old(View()), f) && id == View().stores % U32
    {
      stores := stores + 1;
      nextId := (nextId + 1) % U32;
      table := table[nextId := f];
      id := nextId;
    }

    /** iroh_prep_cb: looks the function up and deletes it before it is called. */
    method TakeCallback(id: nat) returns (f: Option<Fn>)
      modifies this`table
      ensures f == if id in old(table) then Some(old(table)[id]) else None
      ensures table == old(table) - {id}
    {
      if id !in table { return None; }
      f := Some(table[id]);
      table := table - {id};
    }

    /** A call that starts an operation; `ok` says the operation was obtained and registered. */
    method StartOperation(op: OpId, cb: Option<Fn>, ok: bool)
      requires Valid() && op !in given
      modifies this
      ensures Valid() && View() == Apply(old(View()), Start(op, cb, ok))
    {
      var aux := 0;
      if cb.Some? { aux := StoreCallback(cb.value); }
      if ok {
        pending := pending[op := aux];
        given := given[op := cb];
      }
    }

    /** iroh.connect: the callback is stored at once, the connect operation is left for later. */
    method ParkOperation(op: OpId, f: Fn)
      requires Valid() && op !in given
      modifies this
      ensures Valid() && View() == Apply(old(View()), Park(op, f))
    {
      var aux := StoreCallback(f);
      pending := pending[op := aux];
      parked := parked + {op};
      given := given[op := Some(f)];
    }

    /** The auto-connect of iroh_on_endpoint_online; the waiting data is deleted either way. */
    method LaunchOperation(op: OpId, ok: bool)
      requires Valid() && op in parked
      modifies this
      ensures Valid() && View() == Apply(old(View()), Launch(op, ok))
    {
      if !ok { pending := pending - {op}; }
      parked := parked - {op};
    }

    /** The handler of a successful operation, up to the call of the callback it returns. */
    method FinishOperation(op: OpId, guarded: bool) returns (ran: Option<Fn>)
      requires Valid() && op in pending && op !in parked
      modifies this
      ensures Valid() && View() == Apply(old(View()), Done(op, guarded))
      ensures log == old(log) + if ran.Some? then [Ran(op, ran.value)] else []
    {
      var id := pending[op];
      pending := pending - {op};
      ran := None;
      if !guarded || id != 0 {
        ran := TakeCallback(id);
        if ran.Some? { log := log + [Ran(op, ran.value)]; }
      }
    }
  }
}
