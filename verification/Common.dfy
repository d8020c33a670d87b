/**
 * Small definitions shared by the other modules.
 *
 * The state machines all have one shape, with their own state and steps: Enabled and Apply for
 * one step, Valid and After for a run, taken from the front.  Where a proof follows a run from
 * its end, AfterSnoc adds a last step and Prefix splits one off; TwoSteps and its like unfold
 * short concrete runs.  An invariant comes with StepKeeps... for a step and RunKeeps... for runs.
 */
module Common {

  datatype Option<+T> = None | Some(value: T)

  newtype byte = x: int | 0 <= x < 256

  type Bytes = seq<byte>

  /** Number of positions of `s` that satisfy `p`. */
  function Count<T>(s: seq<T>, p: T -> bool): nat {
    if s == [] then 0 else (if p(s[0]) then 1 else 0) + Count(s[1..], p)
  }

  lemma {:induction false} CountAppend<T>(a: seq<T>, b: seq<T>, p: T -> bool)
    ensures Count(a + b, p) == Count(a, p) + Count(b, p)
  {
    if a == [] {
      assert a + b == b;
    } else {
      assert (a + b)[1..] == a[1..] + b;
      CountAppend(a[1..], b, p);
    }
  }

  predicate NoDuplicates<T(==)>(s: seq<T>) {
    forall i, j :: 0 <= i < j < |s| ==> s[i] != s[j]
  }
}
