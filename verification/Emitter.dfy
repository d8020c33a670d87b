/**
 * The event emitter: on, once, off, trigger.  Functions carry a hidden id and a hidden "once"
 * mark; an event's table maps ids to functions.  A trigger enumerates a snapshot of the ids and
 * skips those deleted before their turn; listeners may register, remove and trigger recursively.
 */
module Emitter {
  import opened Common

  type Fn = nat                        // identity of a function object
  type Key = (nat, string)             // object and event name

  const U32: nat := 0x1_0000_0000

  /** `(int)(iroh_evcb_id++)` for the c-th registration. */
  function IdAt(c: nat): int {
    var u := c % U32;
    if u < U32 / 2 then u else u - U32
  }

  datatype Event = Called(fire: nat, id: int, f: Fn) | Skipped(fire: nat, id: int) | Removed(key: Key, id: int)

  /** One trigger: what it enumerates, how far it got, and the log length when it began. */
  datatype Fire = Fire(key: Key, snapshot: seq<int>, pos: nat, since: nat)

  datatype Emitter = Emitter(
    counter: nat, ids: map<Fn, int>, once: set<Fn>, tables: map<Key, map<int, Fn>>,
    fires: seq<Fire>, stack: seq<nat>, log: seq<Event>)

  datatype Step = On(key: Key, f: Fn) | Once(key: Key, f: Fn) | Off(key: Key, f: Fn)
                | Trigger(key: Key, order: seq<int>) | Advance

  function Init(): Emitter { Emitter(0, map[], {}, map[], [], [], []) }

  function Table(s: Emitter, key: Key): map<int, Fn> {
    if key in s.tables then s.tables[key] else map[]
  }

  predicate Registered(s: Emitter, key: Key, f: Fn) {
    f in s.ids && s.ids[f] in Table(s, key)
  }

  /** iroh_ev_on. */
  function Register(s: Emitter, key: Key, f: Fn): Emitter {
    var id := if f in s.ids then s.ids[f] else IdAt(s.counter);
    var t := s.(counter := s.counter + 1, tables := s.tables[key := Table(s, key)]);
    if f in s.ids && id in Table(s, key) then t
    else t.(ids := t.ids[f := id], tables := t.tables[key := Table(s, key)[id := f]])
  }

  function Delete(s: Emitter, key: Key, id: int): Emitter {
    if id in Table(s, key) then
      s.(tables := s.tables[key := Table(s, key) - {id}], log := s.log + [Removed(key, id)])
    else s
  }

  /** `order` lists the keys of the table, each once. */
  predicate Enumerates(order: seq<int>, table: map<int, Fn>) {
    NoDuplicates(order) && (forall id <- order :: id in table) && (forall id <- table :: id in order)
  }

  predicate Enabled(s: Emitter, step: Step) {
    match step
    case Trigger(key, order) => Enumerates(order, Table(s, key))
    case Advance => s.stack != [] && Top(s) < |s.fires|
    case _ => true
  }

  function Top(s: Emitter): nat
    requires s.stack != []
  {
    s.stack[|s.stack| - 1]
  }

  /** Delivers to one listener: a `once` mark is cleared and the entry deleted before the call. */
  function Deliver(s: Emitter, n: nat, key: Key, id: int): Emitter
    requires id in Table(s, key)
  {
    var f := Table(s, key)[id];
    var t := if f in s.once then Delete(s.(once := s.once - {f}), key, id) else s;
    t.(log := t.log + [Called(n, id, f)])
  }

  /** One turn of the enumeration loop of iroh_do_callback for the innermost trigger. */
  function Turn(s: Emitter): Emitter
    requires Enabled(s, Advance)
  {
    var n := Top(s);
    var fire := s.fires[n];
    if fire.pos >= |fire.snapshot| then s.(stack := s.stack[..|s.stack| - 1])
    else
      var id := fire.snapshot[fire.pos];
      var t := s.(fires := s.fires[n := fire.(pos := fire.pos + 1)]);
      if id in Table(s, fire.key) then Deliver(t, n, fire.key, id)
      else t.(log := t.log + [Skipped(n, id)])
  }

  function Apply(s: Emitter, step: Step): Emitter
    requires Enabled(s, step)
  {
    match step
    case On(key, f) => Register(s, key, f)
    case Once(key, f) => Register(s.(once := s.once + {f}), key, f)
    case Off(key, f) => if f in s.ids then Delete(s, key, s.ids[f]) else s
    case Trigger(key, order) =>
      s.(fires := s.fires + [Fire(key, order, 0, |s.log|)], stack := s.stack + [|s.fires|])
    case Advance => Turn(s)
  }

  predicate Valid(s: Emitter, run: seq<Step>)
    decreases |run|
  {
    run == [] || (Enabled(s, run[0]) && Valid(Apply(s, run[0]), run[1..]))
  }

  function After(s: Emitter, run: seq<Step>): Emitter
    requires Valid(s, run)
    decreases |run|
  {
    if run == [] then s else After(Apply(s, run[0]), run[1..])
  }

  lemma {:induction false} Prefix(s: Emitter, run: seq<Step>, n: nat)
    requires Valid(s, run) && n < |run|
    ensures Valid(s, run[..n]) && Enabled(After(s, run[..n]), run[n])
    ensures Valid(s, run[..n + 1]) && After(s, run[..n + 1]) == Apply(After(s, run[..n]), run[n])
    decreases n
  {
    if n != 0 {
      Prefix(Apply(s, run[0]), run[1..], n - 1);
      assert run[1..][..n - 1] == run[..n][1..] && run[1..][..n] == run[..n + 1][1..];
    } else {
      assert run[..1][1..] == [] && Valid(Apply(s, run[0]), []);
    }
  }

  lemma {:induction false} AfterSnoc(s: Emitter, run: seq<Step>, last: Step)
    requires Valid(s, run) && Enabled(After(s, run), last)
    ensures Valid(s, run + [last]) && After(s, run + [last]) == Apply(After(s, run), last)
    decreases |run|
  {
    if run == [] {
      assert run + [last] == [last] && [last][1..] == [];
      assert Valid(Apply(s, last), []);
    } else {
      assert (run + [last])[1..] == run[1..] + [last];
      AfterSnoc(Apply(s, run[0]), run[1..], last);
    }
  }

  // ---------------------------------------------------------------- what stays

  /** What was begun or given out stays: ids, and what a trigger enumerates. */
  predicate Extends(s: Emitter, t: Emitter) {
    && (forall f <- s.ids :: f in t.ids && t.ids[f] == s.ids[f])
    && |s.fires| <= |t.fires|
    && forall n :: 0 <= n < |s.fires| ==> t.fires[n].(pos := 0) == s.fires[n].(pos := 0)
  }

  lemma ExtendsOn(s: Emitter, t: Emitter, u: Emitter)
    requires Extends(s, t) && Extends(t, u)
    ensures Extends(s, u)
  {
  }

  lemma StepExtends(s: Emitter, step: Step)
    requires Enabled(s, step)
    ensures Extends(s, Apply(s, step))
  {
  }

  lemma {:induction false} RunExtends(s: Emitter, run: seq<Step>)
    requires Valid(s, run)
    ensures Extends(s, After(s, run))
    decreases |run|
  {
    if run != [] {
      var t := Apply(s, run[0]);
      StepExtends(s, run[0]);
      RunExtends(t, run[1..]);
      ExtendsOn(s, t, After(t, run[1..]));
    }
  }

  // ---------------------------------------------------------------- listener identity

  /** No two functions share an id; module ListenerIds says when that is so. */
  predicate Distinct(s: Emitter) {
    forall f, g :: f in s.ids && g in s.ids && s.ids[f] == s.ids[g] ==> f == g
  }

  lemma DistinctBefore(s: Emitter, run: seq<Step>)
    requires Valid(s, run) && Distinct(After(s, run))
    ensures Distinct(s)
  {
    RunExtends(s, run);
  }

  predicate IdInv(s: Emitter) {
    && Distinct(s)
    && (forall key, id :: key in s.tables && id in s.tables[key] ==>
          s.tables[key][id] in s.ids && s.ids[s.tables[key][id]] == id)
  }

  lemma RegisterKeepsIds(s: Emitter, key: Key, f: Fn)
    requires IdInv(s) && Distinct(Register(s, key, f))
    ensures IdInv(Register(s, key, f))
  {
    var t := Register(s, key, f);
    forall k, i | k in t.tables && i in t.tables[k] ensures t.tables[k][i] in t.ids && t.ids[t.tables[k][i]] == i {
      if k == key {
        if i in Table(s, key) { assert s.tables[key][i] in s.ids; }
      } else {
        assert s.tables[k][i] in s.ids;
      }
    }
  }

  lemma DeleteKeepsIds(s: Emitter, key: Key, id: int)
    requires IdInv(s)
    ensures IdInv(Delete(s, key, id))
  {
  }

  lemma StepKeepsIds(s: Emitter, step: Step)
    requires IdInv(s) && Enabled(s, step) && Distinct(Apply(s, step))
    ensures IdInv(Apply(s, step))
  {
    match step
    case On(key, f) => RegisterKeepsIds(s, key, f);
    case Once(key, f) => RegisterKeepsIds(s.(once := s.once + {f}), key, f);
    case Off(key, f) => if f in s.ids { DeleteKeepsIds(s, key, s.ids[f]); }
    case Trigger(_, _) =>
    case Advance =>
      var fire := s.fires[Top(s)];
      if fire.pos < |fire.snapshot| && fire.snapshot[fire.pos] in Table(s, fire.key) {
        var id := fire.snapshot[fire.pos];
        var t := s.(fires := s.fires[Top(s) := fire.(pos := fire.pos + 1)]);
        DeleteKeepsIds(t.(once := t.once - {Table(t, fire.key)[id]}), fire.key, id);
      }
  }

  lemma {:induction false} RunKeepsIds(s: Emitter, run: seq<Step>)
    requires IdInv(s) && Valid(s, run) && Distinct(After(s, run))
    ensures IdInv(After(s, run))
    decreases |run|
  {
    if run != [] {
      DistinctBefore(Apply(s, run[0]), run[1..]);
      StepKeepsIds(s, run[0]);
      RunKeepsIds(Apply(s, run[0]), run[1..]);
    }
  }

  /** Event `key` holds function `g` under `id`. */
  predicate Holds(s: Emitter, key: Key, id: int, g: Fn) {
    id in Table(s, key) && Table(s, key)[id] == g
  }

  lemma OffExact(s: Emitter, key: Key, f: Fn)
    requires IdInv(s)
    ensures var t := Apply(s, Off(key, f));
            forall k, id, g :: Holds(t, k, id, g) <==> Holds(s, k, id, g) && !(k == key && g == f)
  {
    var t := Apply(s, Off(key, f));
    forall k, id, g ensures Holds(t, k, id, g) <==> Holds(s, k, id, g) && !(k == key && g == f) {
      if id in Table(s, k) { assert s.tables[k][id] in s.ids; }
    }
  }

  lemma OnExact(s: Emitter, key: Key, f: Fn)
    requires IdInv(s) && Distinct(Register(s, key, f))
    ensures var t := Register(s, key, f);
            && f in t.ids && t.once == s.once
            && forall k, id, g :: Holds(t, k, id, g) <==> Holds(s, k, id, g) || (k == key && g == f && id == t.ids[f])
  {
    var t := Register(s, key, f);
    forall k, id, g
      ensures Holds(t, k, id, g) <==> Holds(s, k, id, g) || (k == key && g == f && id == t.ids[f])
    {
      if id in Table(s, k) { assert s.tables[k][id] in s.ids && t.ids[s.tables[k][id]] == id; }
    }
  }

  /** once adds the same entry as on would, and only it, and marks that function. */
  lemma OnceExact(s: Emitter, key: Key, f: Fn)
    requires IdInv(s) && Distinct(Apply(s, Once(key, f)))
    ensures var t := Apply(s, Once(key, f));
            && f in t.ids && t.once == s.once + {f}
            && forall k, id, g :: Holds(t, k, id, g) <==> Holds(s, k, id, g) || (k == key && g == f && id == t.ids[f])
  {
    var s' := s.(once := s.once + {f});
    OnExact(s', key, f);
    assert forall k, id, g :: Holds(s', k, id, g) == Holds(s, k, id, g);
  }

  // ---------------------------------------------------------------- firing

  /** The ids fire `n` has dealt with, in order. */
  function Visits(log: seq<Event>, n: nat): seq<int> {
    if log == [] then []
    else
      var e := log[|log| - 1];
      Visits(log[..|log| - 1], n) + if !e.Removed? && e.fire == n then [e.id] else []
  }

  lemma VisitsSnoc(log: seq<Event>, e: Event, n: nat)
    ensures Visits(log + [e], n) == Visits(log, n) + if !e.Removed? && e.fire == n then [e.id] else []
  {
    assert (log + [e])[..|log|] == log;
  }

  /** What the fire has still to deal with is there, or was removed since it began. */
  predicate RestOk(s: Emitter, fire: Fire)
    requires fire.since <= |s.log|
  {
    forall i :: fire.pos <= i < |fire.snapshot| ==>
      fire.snapshot[i] in Table(s, fire.key) || Removed(fire.key, fire.snapshot[i]) in s.log[fire.since..]
  }

  predicate FireOk(s: Emitter, n: nat)
    requires n < |s.fires|
  {
    var fire := s.fires[n];
    && fire.pos <= |fire.snapshot| && fire.since <= |s.log| && NoDuplicates(fire.snapshot)
    && Visits(s.log, n) == fire.snapshot[..fire.pos]
    && (n !in s.stack ==> fire.pos == |fire.snapshot|)
    && RestOk(s, fire)
  }

  /** The log entry names a fire; a skipped id was removed after that fire began. */
  predicate EntryOk(s: Emitter, j: nat)
    requires j < |s.log|
  {
    var e := s.log[j];
    !e.Removed? ==>
      && e.fire < |s.fires|
      && (e.Skipped? ==>
            && s.fires[e.fire].since <= j
            && Removed(s.fires[e.fire].key, e.id) in s.log[s.fires[e.fire].since..j])
  }

  predicate StackOk(s: Emitter) {
    && (forall i :: 0 <= i < |s.stack| ==> s.stack[i] < |s.fires|)
    && (forall i, j :: 0 <= i < j < |s.stack| ==> s.stack[i] < s.stack[j])
  }

  predicate FireInv(s: Emitter) {
    && StackOk(s)
    && (forall n :: 0 <= n < |s.fires| ==> FireOk(s, n))
    && (forall j :: 0 <= j < |s.log| ==> EntryOk(s, j))
  }

  /** Adding listeners changes nothing a fire depends on. */
  lemma RegisterKeepsFires(s: Emitter, key: Key, f: Fn)
    requires FireInv(s)
    ensures FireInv(Register(s, key, f))
  {
    var t := Register(s, key, f);
    forall n | 0 <= n < |t.fires| ensures FireOk(t, n) { assert FireOk(s, n); }
    forall j | 0 <= j < |t.log| ensures EntryOk(t, j) { assert EntryOk(s, j); }
  }

  /** One more log entry that is not a visit, nothing else changed. */
  lemma DeleteKeepsFires(s: Emitter, key: Key, id: int)
    requires FireInv(s)
    ensures FireInv(Delete(s, key, id))
  {
    var t := Delete(s, key, id);
    if id in Table(s, key) {
      forall n | 0 <= n < |t.fires| ensures FireOk(t, n) {
        assert FireOk(s, n);
        VisitsSnoc(s.log, Removed(key, id), n);
        assert t.log[s.fires[n].since..] == s.log[s.fires[n].since..] + [Removed(key, id)];
      }
      forall j | 0 <= j < |t.log| ensures EntryOk(t, j) {
        if j < |s.log| {
          assert EntryOk(s, j);
          if s.log[j].Skipped? {
            var since := s.fires[s.log[j].fire].since;
            assert t.log[since..j] == s.log[since..j];
          }
        }
      }
    }
  }

  /** Fire `n` deals with its next id and logs `e`. */
  function Visit(s: Emitter, n: nat, e: Event): Emitter
    requires n < |s.fires|
  {
    s.(fires := s.fires[n := s.fires[n].(pos := s.fires[n].pos + 1)], log := s.log + [e])
  }

  /** Fire `n` is running and `e` deals with the id whose turn it is. */
  predicate IsNextVisit(s: Emitter, n: nat, e: Event) {
    && n < |s.fires| && n in s.stack && s.fires[n].pos < |s.fires[n].snapshot|
    && !e.Removed? && e.fire == n && e.id == s.fires[n].snapshot[s.fires[n].pos]
    && (e.Skipped? ==> e.id !in Table(s, s.fires[n].key))
  }

  lemma VisitKeepsFireOk(s: Emitter, n: nat, e: Event, m: nat)
    requires IsNextVisit(s, n, e) && m < |s.fires| && FireOk(s, m)
    ensures FireOk(Visit(s, n, e), m)
  {
    VisitsSnoc(s.log, e, m);
    VisitKeepsRest(s, n, e, m);
  }

  lemma VisitKeepsRest(s: Emitter, n: nat, e: Event, m: nat)
    requires n < |s.fires| && m < |s.fires| && s.fires[m].since <= |s.log| && RestOk(s, s.fires[m])
    ensures RestOk(Visit(s, n, e), Visit(s, n, e).fires[m])
  {
    var t := Visit(s, n, e);
    assert t.log[s.fires[m].since..] == s.log[s.fires[m].since..] + [e];
  }

  lemma VisitKeepsEntryOk(s: Emitter, n: nat, e: Event, j: nat)
    requires IsNextVisit(s, n, e) && FireOk(s, n) && j < |s.log| + 1 && (j < |s.log| ==> EntryOk(s, j))
    ensures EntryOk(Visit(s, n, e), j)
  {
    var t := Visit(s, n, e);
    if j < |s.log| {
      if s.log[j].Skipped? {
        var since := s.fires[s.log[j].fire].since;
        assert t.log[since..j] == s.log[since..j];
      }
    } else {
      assert t.log[s.fires[n].since..j] == s.log[s.fires[n].since..];
    }
  }

  lemma VisitKeepsFires(s: Emitter, n: nat, e: Event)
    requires FireInv(s) && IsNextVisit(s, n, e)
    ensures FireInv(Visit(s, n, e))
  {
    var t := Visit(s, n, e);
    forall m | 0 <= m < |t.fires| ensures FireOk(t, m) { VisitKeepsFireOk(s, n, e, m); }
    forall j | 0 <= j < |t.log| ensures EntryOk(t, j) { VisitKeepsEntryOk(s, n, e, j); }
  }

  lemma PopKeepsFires(s: Emitter)
    requires FireInv(s) && s.stack != [] && s.fires[Top(s)].pos >= |s.fires[Top(s)].snapshot|
    ensures FireInv(s.(stack := s.stack[..|s.stack| - 1]))
  {
    var t := s.(stack := s.stack[..|s.stack| - 1]);
    forall n | 0 <= n < |t.fires| ensures FireOk(t, n) {
      assert FireOk(s, n);
      assert n in s.stack ==> n in t.stack || n == Top(s);
    }
    forall j | 0 <= j < |t.log| ensures EntryOk(t, j) { assert EntryOk(s, j); }
  }

  lemma TurnKeepsFires(s: Emitter)
    requires FireInv(s) && Enabled(s, Advance)
    ensures FireInv(Turn(s))
  {
    var n := Top(s);
    var fire := s.fires[n];
    if fire.pos >= |fire.snapshot| {
      PopKeepsFires(s);
    } else {
      var id := fire.snapshot[fire.pos];
      if id in Table(s, fire.key) {
        var f := Table(s, fire.key)[id];
        var u := s.(once := s.once - {f});
        if f in s.once {
          MarkKeepsFires(s, s.once - {f});
          DeleteKeepsFires(u, fire.key, id);
          VisitKeepsFires(Delete(u, fire.key, id), n, Called(n, id, f));
          assert Turn(s) == Visit(Delete(u, fire.key, id), n, Called(n, id, f));
        } else {
          VisitKeepsFires(s, n, Called(n, id, f));
        }
      } else {
        VisitKeepsFires(s, n, Skipped(n, id));
      }
    }
  }

  lemma MarkKeepsFires(s: Emitter, once: set<Fn>)
    requires FireInv(s)
    ensures FireInv(s.(once := once))
  {
    var t := s.(once := once);
    forall n | 0 <= n < |t.fires| ensures FireOk(t, n) { assert FireOk(s, n); }
    forall j | 0 <= j < |t.log| ensures EntryOk(t, j) { assert EntryOk(s, j); }
  }

  lemma TriggerKeepsFires(s: Emitter, key: Key, order: seq<int>)
    requires FireInv(s) && Enabled(s, Trigger(key, order))
    ensures FireInv(Apply(s, Trigger(key, order)))
  {
    var t := Apply(s, Trigger(key, order));
    NoVisitsYet(s, |s.log|);
    assert s.log[..|s.log|] == s.log;
    forall n | 0 <= n < |t.fires| ensures FireOk(t, n) {
      if n < |s.fires| {
        assert FireOk(s, n);
        assert n in s.stack ==> n in t.stack;
      } else {
        assert t.stack[|s.stack|] == n;
      }
    }
    forall j | 0 <= j < |t.log| ensures EntryOk(t, j) { assert EntryOk(s, j); }
  }

  lemma {:induction false} NoVisitsYet(s: Emitter, k: nat)
    requires FireInv(s) && k <= |s.log|
    ensures Visits(s.log[..k], |s.fires|) == []
  {
    if k != 0 {
      assert EntryOk(s, k - 1);
      NoVisitsYet(s, k - 1);
      assert s.log[..k][..k - 1] == s.log[..k - 1];
    }
  }

  lemma {:induction false} RunKeepsFires(s: Emitter, run: seq<Step>)
    requires FireInv(s) && Valid(s, run)
    ensures FireInv(After(s, run))
    decreases |run|
  {
    if run != [] {
      match run[0] {
        case On(key, f) => RegisterKeepsFires(s, key, f);
        case Once(key, f) =>
          MarkKeepsFires(s, s.once + {f});
          RegisterKeepsFires(s.(once := s.once + {f}), key, f);
        case Off(key, f) => if f in s.ids { DeleteKeepsFires(s, key, s.ids[f]); }
        case Trigger(key, order) => TriggerKeepsFires(s, key, order);
        case Advance => TurnKeepsFires(s);
      }
      RunKeepsFires(Apply(s, run[0]), run[1..]);
    }
  }

  /** A call in the log went to the function that carries the id. */
  predicate CallsOk(s: Emitter) {
    forall e <- s.log :: e.Called? ==> e.f in s.ids && s.ids[e.f] == e.id
  }

  lemma {:induction false} RunKeepsCalls(s: Emitter, run: seq<Step>)
    requires IdInv(s) && CallsOk(s) && Valid(s, run) && Distinct(After(s, run))
    ensures CallsOk(After(s, run))
    decreases |run|
  {
    if run != [] {
      var t := Apply(s, run[0]);
      DistinctBefore(t, run[1..]);
      StepKeepsIds(s, run[0]);
      StepKeepsCalls(s, run[0]);
      RunKeepsCalls(t, run[1..]);
    }
  }

  lemma StepKeepsCalls(s: Emitter, step: Step)
    requires IdInv(s) && CallsOk(s) && Enabled(s, step)
    ensures CallsOk(Apply(s, step))
  {
    if step.Advance? {
      var fire := s.fires[Top(s)];
      if fire.pos < |fire.snapshot| && fire.snapshot[fire.pos] in Table(s, fire.key) {
        assert s.tables[fire.key][fire.snapshot[fire.pos]] in s.ids;
      }
    }
  }

  /** How often `x` is in `q`. */
  function Times<T(==)>(q: seq<T>, x: T): nat { multiset(q)[x] }

  lemma TimesSnoc<T>(q: seq<T>, e: T, x: T)
    ensures Times(q + [e], x) == Times(q, x) + if e == x then 1 else 0
  {
  }

  lemma VisitCounted(log: seq<Event>, e: Event, n: nat, id: int, f: Fn)
    requires e.Called? && e.fire == n && e.id == id ==> e.f == f
    requires Times(log, Called(n, id, f)) + Times(log, Skipped(n, id)) == Times(Visits(log, n), id)
    ensures Times(log + [e], Called(n, id, f)) + Times(log + [e], Skipped(n, id)) == Times(Visits(log + [e], n), id)
  {
    VisitsSnoc(log, e, n);
    TimesSnoc(log, e, Called(n, id, f));
    TimesSnoc(log, e, Skipped(n, id));
    if !e.Removed? && e.fire == n { TimesSnoc(Visits(log, n), e.id, id); }
  }

  /** If fire `n` calls only `f` under `id`, it called `f` or skipped `id` as often as it dealt with `id`. */
  lemma {:induction false} VisitsAreCalls(log: seq<Event>, n: nat, id: int, f: Fn)
    requires forall e <- log :: e.Called? && e.fire == n && e.id == id ==> e.f == f
    ensures Times(log, Called(n, id, f)) + Times(log, Skipped(n, id)) == Times(Visits(log, n), id)
  {
    if log != [] {
      var front, e := log[..|log| - 1], log[|log| - 1];
      assert log == front + [e] && e in log;
      VisitsAreCalls(front, n, id, f);
      VisitCounted(front, e, n, id, f);
    }
  }

  lemma {:induction false} OnceInSeq(q: seq<int>, x: int)
    requires NoDuplicates(q)
    ensures Times(q, x) == if x in q then 1 else 0
  {
    if q != [] {
      assert q == [q[0]] + q[1..];
      OnceInSeq(q[1..], x);
      assert x in q[1..] ==> x != q[0];
    }
  }

  /** A fire skips only what was removed since it began. */
  lemma SkippedMeansRemoved(t: Emitter, n: nat, j: nat)
    requires FireInv(t) && n < |t.fires| && j < |t.log|
    ensures var fire := t.fires[n];
            t.log[j].Skipped? && t.log[j].fire == n ==>
              fire.since <= j && Removed(fire.key, t.log[j].id) in t.log[fire.since..j]
  {
    assert EntryOk(t, j);
  }

  /** A fire that dealt once with the id of `f` called `f` once or skipped its id once. */
  lemma OneCallOrSkip(t: Emitter, n: nat, f: Fn)
    requires Distinct(t) && CallsOk(t) && f in t.ids && NoDuplicates(Visits(t.log, n)) && t.ids[f] in Visits(t.log, n)
    ensures Times(t.log, Called(n, t.ids[f], f)) + Times(t.log, Skipped(n, t.ids[f])) == 1
  {
    VisitsAreCalls(t.log, n, t.ids[f], f);
    OnceInSeq(Visits(t.log, n), t.ids[f]);
  }

  /** Everything the theorem needs of the end of the run: what the trigger enumerated is still there. */
  lemma TriggerReached(before: seq<Step>, key: Key, order: seq<int>, after: seq<Step>)
    requires Valid(Init(), before) && Enabled(After(Init(), before), Trigger(key, order))
    requires Valid(Apply(After(Init(), before), Trigger(key, order)), after)
    requires Distinct(After(Apply(After(Init(), before), Trigger(key, order)), after))
    ensures var s := After(Init(), before);
            var t := After(Apply(s, Trigger(key, order)), after);
            && CallsOk(t) && FireInv(t) && |s.fires| < |t.fires|
            && t.fires[|s.fires|].(pos := 0) == Fire(key, order, 0, |s.log|)
            && forall f <- s.ids :: f in t.ids && t.ids[f] == s.ids[f]
  {
    var s := After(Init(), before);
    var u := Apply(s, Trigger(key, order));
    DistinctBefore(u, after);
    RunKeepsIds(Init(), before);
    RunKeepsCalls(Init(), before);
    RunKeepsFires(Init(), before);
    TriggerKeepsFires(s, key, order);
    RunKeepsCalls(u, after);
    RunKeepsFires(u, after);
    RunExtends(u, after);
  }

  /**
   * Firing, with listeners that register, remove and trigger recursively.  A trigger that has
   * returned dealt exactly once with every function its event held when it began, and with
   * nothing else: it called that function, or skipped it after it had been removed meanwhile.
   */
  lemma FireVisitsEveryListenerOnce(before: seq<Step>, key: Key, order: seq<int>, after: seq<Step>, f: Fn)
    requires Valid(Init(), before) && Enabled(After(Init(), before), Trigger(key, order))
    requires var s := After(Init(), before);
             && Valid(Apply(s, Trigger(key, order)), after)
             && var t := After(Apply(s, Trigger(key, order)), after); Distinct(t) && |s.fires| !in t.stack
    ensures var s := After(Init(), before);
            var t := After(Apply(s, Trigger(key, order)), after);
            var n := |s.fires|;
            && Visits(t.log, n) == order
            && (Registered(s, key, f) ==>
                  && Times(t.log, Called(n, s.ids[f], f)) + Times(t.log, Skipped(n, s.ids[f])) == 1
                  && forall j :: 0 <= j < |t.log| && t.log[j] == Skipped(n, s.ids[f]) ==>
                       |s.log| <= j && Removed(key, s.ids[f]) in t.log[|s.log|..j])
  {
    var s := After(Init(), before);
    var t, n := After(Apply(s, Trigger(key, order)), after), |s.fires|;
    TriggerReached(before, key, order, after);
    assert FireOk(t, n);
    if Registered(s, key, f) {
      assert s.ids[f] in order;
      OneCallOrSkip(t, n, f);
      forall j | 0 <= j < |t.log| && t.log[j] == Skipped(n, s.ids[f])
        ensures |s.log| <= j && Removed(key, s.ids[f]) in t.log[|s.log|..j]
      {
        SkippedMeansRemoved(t, n, j);
      }
    }
  }

  // ---------------------------------------------------------------- once

  function Calls(log: seq<Event>, f: Fn): nat { Count(log, (e: Event) => e.Called? && e.f == f) }

  /** Every registration of `f` in the run is a `once` on event `key`. */
  predicate OnlyOnceOn(run: seq<Step>, key: Key, f: Fn) {
    forall i :: 0 <= i < |run| && (run[i].On? || run[i].Once?) && run[i].f == f ==> run[i] == Once(key, f)
  }

  function Registrations(run: seq<Step>, key: Key, f: Fn): nat { Count(run, (e: Step) => e == Once(key, f)) }

  ghost predicate OnceInv(s: Emitter, key: Key, f: Fn, budget: nat) {
    && IdInv(s)
    && (forall k :: k != key ==> !Registered(s, k, f))
    && (Registered(s, key, f) ==> f in s.once)
    && Calls(s.log, f) + (if Registered(s, key, f) then 1 else 0) <= budget
  }

  lemma CallsSnoc(log: seq<Event>, e: Event, f: Fn)
    ensures Calls(log + [e], f) == Calls(log, f) + if e.Called? && e.f == f then 1 else 0
  {
    CountAppend(log, [e], (x: Event) => x.Called? && x.f == f);
  }

  lemma RegisterOnce(s: Emitter, key: Key, f: Fn, k: Key, g: Fn, budget: nat)
    requires OnceInv(s, key, f, budget) && Distinct(Register(s, k, g))
    requires g == f ==> k == key && f in s.once
    ensures OnceInv(Register(s, k, g), key, f, budget + if g == f then 1 else 0)
  {
    RegisterKeepsIds(s, k, g);
    var t := Register(s, k, g);
    forall q | g != f || q != key ensures Registered(t, q, f) == Registered(s, q, f) {}
  }

  lemma DeleteOnce(s: Emitter, key: Key, f: Fn, k: Key, id: int, budget: nat)
    requires OnceInv(s, key, f, budget)
    ensures OnceInv(Delete(s, k, id), key, f, budget)
  {
    DeleteKeepsIds(s, k, id);
    CallsSnoc(s.log, Removed(k, id), f);
    forall q ensures Registered(Delete(s, k, id), q, f) ==> Registered(s, q, f) {}
  }

  lemma TurnOnce(s: Emitter, key: Key, f: Fn, budget: nat)
    requires OnceInv(s, key, f, budget) && Enabled(s, Advance)
    ensures OnceInv(Turn(s), key, f, budget)
  {
    StepKeepsIds(s, Advance);
    forall q ensures Registered(Turn(s), q, f) ==> Registered(s, q, f) {}
    var fire := s.fires[Top(s)];
    if fire.pos < |fire.snapshot| {
      var id := fire.snapshot[fire.pos];
      CallsSnoc(s.log, Skipped(Top(s), id), f);
      if id in Table(s, fire.key) {
        var g := Table(s, fire.key)[id];
        assert s.tables[fire.key][id] in s.ids && s.ids[g] == id;
        CallsSnoc(s.log, Called(Top(s), id, g), f);
        CallsSnoc(s.log, Removed(fire.key, id), f);
        CallsSnoc(s.log + [Removed(fire.key, id)], Called(Top(s), id, g), f);
        assert g == f ==> fire.key == key by { assert Registered(s, fire.key, g); }
      }
    }
  }

  lemma OnceStep(s: Emitter, step: Step, key: Key, f: Fn, budget: nat)
    requires OnceInv(s, key, f, budget) && Enabled(s, step) && Distinct(Apply(s, step))
    requires (step.On? || step.Once?) && step.f == f ==> step == Once(key, f)
    ensures OnceInv(Apply(s, step), key, f, budget + if step == Once(key, f) then 1 else 0)
  {
    match step
    case On(k, g) => RegisterOnce(s, key, f, k, g, budget);
    case Once(k, g) =>
      var t := s.(once := s.once + {g});
      assert forall q :: Registered(t, q, f) == Registered(s, q, f);
      RegisterOnce(t, key, f, k, g, budget);
    case Off(k, g) => if g in s.ids { DeleteOnce(s, key, f, k, s.ids[g], budget); }
    case Trigger(_, _) => assert forall q :: Registered(Apply(s, step), q, f) == Registered(s, q, f);
    case Advance => TurnOnce(s, key, f, budget);
  }

  lemma {:induction false} OnceFrom(s: Emitter, run: seq<Step>, key: Key, f: Fn, budget: nat)
    requires OnceInv(s, key, f, budget) && Valid(s, run) && OnlyOnceOn(run, key, f) && Distinct(After(s, run))
    ensures Calls(After(s, run).log, f) <= budget + Registrations(run, key, f)
    decreases |run|
  {
    if run != [] {
      DistinctBefore(Apply(s, run[0]), run[1..]);
      OnceStep(s, run[0], key, f, budget);
      OnceFrom(Apply(s, run[0]), run[1..], key, f, budget + if run[0] == Once(key, f) then 1 else 0);
    }
  }

  /**
   * once.  A function that is only ever registered through `once`, on one event, is called in
   * the whole run at most as often as it was registered, recursive triggers included.
   */
  lemma OnceCalledAtMostOnce(run: seq<Step>, key: Key, f: Fn)
    requires Valid(Init(), run) && Distinct(After(Init(), run)) && OnlyOnceOn(run, key, f)
    ensures Calls(After(Init(), run).log, f) <= Registrations(run, key, f)
  {
    OnceFrom(Init(), run, key, f, 0);
  }

  // ---------------------------------------------------------------- the emitter object

  class EventEmitter {
    var counter: nat
    var ids: map<Fn, int>
    var once: set<Fn>
    var tables: map<Key, map<int, Fn>>
    ghost var log: seq<Event>

    ghost function View(fires: seq<Fire>, stack: seq<nat>): Emitter
      reads this
    {
      Emitter(counter, ids, once, tables, fires, stack, log)
    }

    /** iroh_ev_on as on() calls it. */
    method AddListener(key: Key, f: Fn)
      modifies this
      ensures forall fires, stack :: View(fires, stack) == Apply(old(View(fires, stack)), On(key, f))
    {
      var id := IdAt(counter);
      counter := counter + 1;
      if key !in tables { tables := tables[key := map[]]; }
      var table := tables[key];
      assert tables == old(tables)[key := table];
      if f in ids {
        id := ids[f];
        if id in table { return; }
      }
      ids := ids[f := id];
      tables := tables[key := table[id := f]];
    }

    method AddOnceListener(key: Key, f: Fn)
      modifies this
      ensures forall fires, stack :: View(fires, stack) == Apply(old(View(fires, stack)), Once(key, f))
    {
      once := once + {f};
      AddListener(key, f);
    }

    method RemoveListener(key: Key, f: Fn)
      modifies this
      ensures forall fires, stack :: View(fires, stack) == Apply(old(View(fires, stack)), Off(key, f))
    {
      if key in tables && f in ids && ids[f] in tables[key] {
        tables := tables[key := tables[key] - {ids[f]}];
        log := log + [Removed(key, ids[f])];
      }
    }

    /** The body of the enumeration loop for an id that is still present; returns the function to call. */
    method TakeListener(key: Key, id: int, ghost n: nat) returns (f: Fn)
      requires key in tables && id in tables[key]
      modifies this
      ensures f == old(tables[key][id])
      ensures forall fires, stack :: View(fires, stack) == Deliver(old(View(fires, stack)), n, key, id)
    {
      f := tables[key][id];
      if f in once {
        once := once - {f};
        tables := tables[key := tables[key] - {id}];
        log := log + [Removed(key, id)];
      }
      log := log + [Called(n, id, f)];
    }
  }
}
