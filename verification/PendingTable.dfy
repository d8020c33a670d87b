/**
 * The pending-operation array of an object: `pending_ops`, `npending`, `pending_alloc`.
 * Count and capacity are 16-bit; the array doubles when full, and removal closes the gap in place.
 */
module PendingTable {
  import opened Common

  type OpId = nat

  const U16: nat := 0x1_0000
  const FIRST_CAPACITY: nat := 8
  const MAX_PENDING: nat := 32768

  /** `pending_alloc ? pending_alloc * 2 : 8`, stored back into a uint16_t. */
  function NextCapacity(alloc: nat): nat {
    if alloc != 0 then alloc * 2 % U16 else FIRST_CAPACITY
  }

  /** The sequence without the first occurrence of `x`. */
  function RemoveOne(s: seq<OpId>, x: OpId): seq<OpId> {
    if s == [] then []
    else if s[0] == x then s[1..]
    else [s[0]] + RemoveOne(s[1..], x)
  }

  /** Exactly one `x` goes, and everything else stays as often as it was there. */
  lemma {:induction false} RemoveOneCounts(s: seq<OpId>, x: OpId)
    ensures multiset(RemoveOne(s, x)) == multiset(s) - multiset{x}
  {
    if s != [] {
      assert s == [s[0]] + s[1..];
      if s[0] != x { RemoveOneCounts(s[1..], x); }
    }
  }

  lemma {:induction false} RemoveOneLength(s: seq<OpId>, x: OpId)
    ensures |RemoveOne(s, x)| == |s| - if x in s then 1 else 0
    ensures x !in s ==> RemoveOne(s, x) == s
  {
    if s != [] && s[0] != x { RemoveOneLength(s[1..], x); }
  }

  lemma {:induction false} RemoveOneNoDuplicates(s: seq<OpId>, x: OpId)
    requires NoDuplicates(s)
    ensures NoDuplicates(RemoveOne(s, x))
    ensures forall y :: y in RemoveOne(s, x) <==> y in s && y != x
  {
    if s != [] {
      assert forall y :: y in s <==> y == s[0] || y in s[1..];
      if s[0] != x {
        RemoveOneNoDuplicates(s[1..], x);
        var t := RemoveOne(s[1..], x);
        assert s[0] !in s[1..];
        assert s[0] !in t;
      }
    }
  }

  lemma {:induction false} RemoveOneAt(s: seq<OpId>, x: OpId, i: nat)
    requires i < |s| && s[i] == x && x !in s[..i]
    ensures RemoveOne(s, x) == s[..i] + s[i + 1..]
  {
    if i != 0 {
      assert s[0] in s[..i];
      assert s[1..][..i - 1] == s[..i][1..];
      RemoveOneAt(s[1..], x, i - 1);
    }
  }

  // ---------------------------------------------------------------- runs of table operations

  datatype Action = Add(op: OpId) | Remove(op: OpId) | Clear

  /** The table as an unbounded sequence. */
  function IdealStep(s: seq<OpId>, a: Action): seq<OpId> {
    match a
    case Add(x) => s + [x]
    case Remove(x) => RemoveOne(s, x)
    case Clear => []
  }

  function IdealRun(s: seq<OpId>, run: seq<Action>): seq<OpId>
    decreases |run|
  {
    if run == [] then s else IdealRun(IdealStep(s, run[0]), run[1..])
  }

  function Max(a: nat, b: nat): nat { if a < b then b else a }

  /** The largest number of operations ever pending in the run. */
  function Peak(s: seq<OpId>, run: seq<Action>): nat
    decreases |run|
  {
    if run == [] then |s| else Max(|s|, Peak(IdealStep(s, run[0]), run[1..]))
  }

  /** The table as the code keeps it; `Lost` is a store outside the array. */
  datatype Table = Table(items: seq<OpId>, alloc: nat) | Lost

  function Append(items: seq<OpId>, alloc: nat, x: OpId): Table {
    var c := if |items| >= alloc then NextCapacity(alloc) else alloc;
    if |items| < c then Table(items + [x], c) else Lost
  }

  function Step(t: Table, a: Action): Table {
    match t
    case Lost => Lost
    case Table(items, alloc) =>
      match a
      case Add(x) => Append(items, alloc, x)
      case Remove(x) => Table(RemoveOne(items, x), alloc)
      case Clear => Table([], alloc)
  }

  function Run(t: Table, run: seq<Action>): Table
    decreases |run|
  {
    if run == [] then t else Run(Step(t, run[0]), run[1..])
  }

  /** The first of c, 2c, 4c, ... that holds `n` operations. */
  function Doubled(c: nat, n: nat): nat
    requires c > 0
    decreases n - c
  {
    if n <= c then c else Doubled(2 * c, n)
  }

  /** Nothing, or the least power of two from 8 up that holds the peak. */
  function CapacityFor(peak: nat): nat {
    if peak == 0 then 0 else Doubled(FIRST_CAPACITY, peak)
  }

  lemma {:induction false} DoubledHolds(c: nat, n: nat)
    requires c > 0
    ensures Doubled(c, n) >= n && Doubled(c, n) >= c
    decreases n - c
  {
    if n > c { DoubledHolds(2 * c, n); }
  }

  lemma {:induction false} DoubledNext(c: nat, n: nat)
    requires c > 0
    ensures n < Doubled(c, n) ==> Doubled(c, n + 1) == Doubled(c, n)
    ensures n == Doubled(c, n) ==> Doubled(c, n + 1) == 2 * n
    decreases n - c
  {
    if n > c { DoubledNext(2 * c, n); }
  }

  predicate IsPowerInRange(c: nat) {
    c in {8, 16, 32, 64, 128, 256, 512, 1024, 2048, 4096, 8192, 16384, 32768}
  }

  lemma {:induction false} DoubledInRange(c: nat, n: nat)
    requires IsPowerInRange(c) && n <= MAX_PENDING
    ensures IsPowerInRange(Doubled(c, n))
    decreases n - c
  {
    if n > c { DoubledInRange(2 * c, n); }
  }

  lemma CapacityStep(items: seq<OpId>, peak: nat, x: OpId)
    requires |items| <= peak <= MAX_PENDING
    ensures var peak' := Max(peak, |items| + 1);
            Append(items, CapacityFor(peak), x) ==
            if peak' <= MAX_PENDING then Table(items + [x], CapacityFor(peak')) else Lost
  {
    if peak != 0 {
      DoubledHolds(8, peak);
      DoubledNext(8, peak);
      DoubledInRange(8, peak);
    }
  }

  lemma {:induction false} RunFrom(items: seq<OpId>, peak: nat, run: seq<Action>)
    requires |items| <= peak <= MAX_PENDING
    ensures var all := Max(peak, Peak(items, run));
            Run(Table(items, CapacityFor(peak)), run) ==
            if all <= MAX_PENDING then Table(IdealRun(items, run), CapacityFor(all)) else Lost
    decreases |run|
  {
    if run != [] {
      var next := IdealStep(items, run[0]);
      match run[0]
      case Add(x) =>
        CapacityStep(items, peak, x);
        if Max(peak, |next|) <= MAX_PENDING {
          RunFrom(next, Max(peak, |next|), run[1..]);
        } else {
          LostForGood(run[1..]);
          PeakAtLeast(next, run[1..]);
        }
      case Remove(x) =>
        RemoveOneLength(items, x);
        RunFrom(next, peak, run[1..]);
      case Clear => RunFrom(next, peak, run[1..]);
    }
  }

  lemma {:induction false} LostForGood(run: seq<Action>)
    ensures Run(Lost, run) == Lost
  {
    if run != [] { LostForGood(run[1..]); }
  }

  lemma PeakAtLeast(s: seq<OpId>, run: seq<Action>)
    ensures Peak(s, run) >= |s|
  {
  }

  /**
   * The array refines the unbounded sequence exactly while at most 32768 operations are ever
   * pending at once: then its contents are the sequence's and its capacity is the least power
   * of two from 8 that holds the peak; one more pending operation wraps the capacity to 0.
   */
  lemma TableRefinesSequence(run: seq<Action>)
    ensures var peak := Peak([], run);
            Run(Table([], 0), run) ==
            if peak <= MAX_PENDING then Table(IdealRun([], run), CapacityFor(peak)) else Lost
    ensures Peak([], run) <= MAX_PENDING ==>
              var c := Run(Table([], 0), run).alloc; c == 0 || IsPowerInRange(c)
  {
    RunFrom([], 0, run);
    if 0 < Peak([], run) <= MAX_PENDING { DoubledInRange(8, Peak([], run)); }
  }

  lemma {:induction false} AddsPile(s: seq<OpId>, run: seq<Action>)
    requires forall a <- run :: a.Add?
    ensures Peak(s, run) >= |s| + |run|
    decreases |run|
  {
    if run != [] {
      assert run[0] in run;
      AddsPile(IdealStep(s, run[0]), run[1..]);
    }
  }

  /** The failing runs: 32769 pushes with nothing unlinked store outside the array. */
  lemma PushesOverflow(run: seq<Action>)
    requires |run| > MAX_PENDING && forall a <- run :: a.Add?
    ensures Run(Table([], 0), run) == Lost
  {
    AddsPile([], run);
    TableRefinesSequence(run);
  }

  // ---------------------------------------------------------------- the array object

  class PendingArray {
    var ops: array<OpId>     // length 0 stands for the null pointer
    var npending: nat
    var alloc: nat

    ghost predicate Valid()
      reads this
    {
      ops.Length == alloc && npending <= alloc
    }

    ghost function Items(): seq<OpId>
      reads this, ops
      requires Valid()
    {
      ops[..npending]
    }

    ghost function View(): Table
      reads this, ops
      requires Valid()
    {
      Table(Items(), alloc)
    }

    constructor ()
      ensures Valid() && View() == Table([], 0) && fresh(ops)
    {
      ops := new OpId[0];
      npending, alloc := 0, 0;
    }

    /** realloc to `size` cells, keeping the common prefix. */
    method Reallocate(size: nat)
      requires Valid()
      modifies this
      ensures fresh(ops) && ops.Length == alloc == size && npending == old(npending)
      ensures forall i :: 0 <= i < size && i < old(alloc) ==> ops[i] == old(ops[i])
    {
      var bigger := new OpId[size];
      var n := if size < alloc then size else alloc;
      forall i | 0 <= i < n { bigger[i] := ops[i]; }
      ops, alloc := bigger, size;
    }

    /** The tail of iroh_start_async.  `stored` is false where the C code would store out of bounds. */
    method Push(op: OpId) returns (stored: bool)
      requires Valid()
      modifies this, ops
      ensures stored <==> Append(old(Items()), old(alloc), op).Table?
      ensures stored ==> Valid() && View() == Step(old(View()), Add(op))
      ensures fresh(ops) || ops == old(ops)
    {
      if npending >= alloc {
        Reallocate(NextCapacity(alloc));
      }
      stored := npending < ops.Length;
      if stored {
        ops[npending] := op;
        npending := npending + 1;
      }
    }

    /** The memmove over entry `i`, and npending--. */
    method CloseGap(i: nat)
      requires Valid() && i < npending
      modifies this`npending, ops
      ensures Valid() && Items() == old(Items())[..i] + old(Items())[i + 1..]
    {
      var k := i;
      while k + 1 < npending
        invariant i <= k < npending == old(npending)
        invariant ops[..k] == old(Items())[..i] + old(Items())[i + 1..k + 1]
        invariant forall j :: k < j < npending ==> ops[j] == old(ops[j])
      {
        ops[k] := ops[k + 1];
        k := k + 1;
      }
      assert old(Items())[i + 1..k + 1] == old(Items())[i + 1..];
      npending := npending - 1;
    }

    /** iroh_remove_pending: find, shift the tail down by one, shrink. */
    method Unlink(op: OpId)
      requires Valid()
      modifies this, ops
      ensures Valid() && ops == old(ops)
      ensures View() == Step(old(View()), Remove(op))
    {
      var i := 0;
      while i < npending
        invariant Valid() && ops == old(ops) && View() == old(View())
        invariant i <= npending && op !in ops[..i]
      {
        if ops[i] == op {
          assert Items()[..i] == ops[..i];
          RemoveOneAt(Items(), op, i);
          CloseGap(i);
          return;
        }
        i := i + 1;
      }
      assert Items() == ops[..i];
      RemoveOneLength(Items(), op);
    }

    /** The loop of iroh_cleanup: every record is released in table order, then the array is freed. */
    method ReleaseAll() returns (released: seq<OpId>)
      requires Valid()
      modifies this
      ensures released == old(Items())
      ensures Valid() && View() == Table([], 0) && fresh(ops)
    {
      released := [];
      var i := 0;
      while i < npending
        invariant i <= npending == old(npending)
        invariant ops == old(ops) && unchanged(ops) && Valid()
        invariant released == ops[..i]
      {
        released := released + [ops[i]];
        i := i + 1;
      }
      ops := new OpId[0];
      npending, alloc := 0, 0;
    }

    /** The loop of endpoint.close: from the last record down; the array itself is kept. */
    method ReleaseAllBackwards() returns (released: seq<OpId>)
      requires Valid()
      modifies this`npending
      ensures |released| == |old(Items())|
      ensures forall i :: 0 <= i < |released| ==> released[i] == old(Items())[|released| - 1 - i]
      ensures Valid() && View() == Step(old(View()), Clear)
    {
      released := [];
      var i: int := npending - 1;
      while i >= 0
        invariant -1 <= i < npending && |released| == npending - 1 - i
        invariant forall j :: 0 <= j < |released| ==> released[j] == ops[npending - 1 - j]
      {
        released := released + [ops[i]];
        i := i - 1;
      }
      npending := 0;
    }
  }
}
