/**
 * Joining a document: import it, then watch its live events until the sync and the content
 * download have both completed, the stream ends, or a timer fires.
 */
module DocsJoin {
  import opened Common

  datatype LiveEvent = SyncFinished | PendingContentReady | ContentReady | InsertRemote | OtherEvent | EventError

  const U64: nat := 0x1_0000_0000_0000_0000

  /** What the timed wait returned: the loop's value and the events it consumed, or the timeout. */
  datatype Wait = Finished(synced: bool, consumed: nat) | TimedOut

  // ---------------------------------------------------------------- declarative specification

  function Inserts(events: seq<LiveEvent>): nat { Count(events, (e: LiveEvent) => e.InsertRemote?) }

  /** The wait may stop at event `i`: sync done with nothing to download or all of it downloaded. */
  predicate StopsAt(events: seq<LiveEvent>, i: nat)
    requires i < |events|
  {
    || (events[i].SyncFinished? && (Inserts(events[..i]) % U64 == 0 || PendingContentReady in events[..i]))
    || (events[i].PendingContentReady? && SyncFinished in events[..i])
  }

  predicate StopsWithin(events: seq<LiveEvent>, n: nat)
    requires n <= |events|
  {
    exists i :: 0 <= i < n && StopsAt(events, i)
  }

  /** `i` is the first event at which it may stop. */
  predicate FirstStop(events: seq<LiveEvent>, i: nat) {
    i < |events| && StopsAt(events, i) && !StopsWithin(events, i)
  }

  /** With fewer than 2^64 events the 64-bit counter is zero exactly when nothing was inserted. */
  lemma {:induction false} InsertsZeroIff(events: seq<LiveEvent>)
    requires |events| < U64
    ensures Inserts(events) <= |events|
    ensures Inserts(events) % U64 == 0 <==> InsertRemote !in events
  {
    if events != [] {
      InsertsZeroIff(events[1..]);
      assert InsertRemote in events <==> events[0] == InsertRemote || InsertRemote in events[1..];
    }
  }

  // ---------------------------------------------------------------- the loop

  lemma InsertsSnoc(events: seq<LiveEvent>, i: nat)
    requires i < |events|
    ensures Inserts(events[..i + 1]) == Inserts(events[..i]) + if events[i].InsertRemote? then 1 else 0
  {
    assert events[..i + 1] == events[..i] + [events[i]];
    CountAppend(events[..i], [events[i]], (e: LiveEvent) => e.InsertRemote?);
  }

  /**
   * The event loop under its timer.  `events` is what the stream delivers before it ends and
   * `timer` how many events are consumed when the timer fires, if it fires first.
   */
  method WaitForSync(events: seq<LiveEvent>, timer: Option<nat>) returns (w: Wait)
    ensures var n := if timer.Some? && timer.value <= |events| then timer.value else |events|;
            && (StopsWithin(events, n) <==>
                  w.Finished? && w.consumed > 0 && FirstStop(events, w.consumed - 1) && w.consumed <= n)
            && (StopsWithin(events, n) ==> w.synced)
            && (!StopsWithin(events, n) ==>
                  if timer.Some? && timer.value <= |events| then w.TimedOut?
                  else w == Finished(SyncFinished in events, |events|))
  {
    var syncFinished, contentReady := false, false;
    var entriesReceived := 0;
    var i := 0;
    while true
      invariant 0 <= i <= |events| && (timer.Some? ==> i <= timer.value)
      invariant syncFinished <==> SyncFinished in events[..i]
      invariant contentReady <==> PendingContentReady in events[..i]
      invariant entriesReceived == Inserts(events[..i]) % U64
      invariant !StopsWithin(events, i)
      decreases |events| - i
    {
      if timer == Some(i) { return TimedOut; }
      if i == |events| {
        assert events[..i] == events;
        return Finished(syncFinished, i);
      }
      InsertsSnoc(events, i);
      assert events[..i + 1] == events[..i] + [events[i]];
      match events[i] {
        case SyncFinished =>
          syncFinished := true;
          if entriesReceived == 0 || contentReady { return Finished(true, i + 1); }
        case PendingContentReady =>
          contentReady := true;
          if syncFinished { return Finished(true, i + 1); }
        case InsertRemote =>
          entriesReceived := (entriesReceived + 1) % U64;
        case _ =>
      }
      assert !StopsAt(events, i);
      i := i + 1;
    }
  }

  type Namespace = nat
  datatype Import = Imported(ns: Namespace) | ImportFailed(msg: string)
  datatype Completion = Joined(ns: Namespace) | JoinFailed(msg: string)

  /** The whole worker: every way out completes the handle exactly once. */
  method Join(imported: Import, events: seq<LiveEvent>, timer: Option<nat>) returns (completions: seq<Completion>)
    ensures completions == [if imported.Imported? then Joined(imported.ns) else JoinFailed(imported.msg)]
  {
    completions := [];
    match imported {
      case Imported(ns) =>
        var w := WaitForSync(events, timer);
        match w {
          case Finished(true, _) => completions := completions + [Joined(ns)];
          case Finished(false, _) => completions := completions + [Joined(ns)];
          case TimedOut => completions := completions + [Joined(ns)];
        }
      case ImportFailed(msg) => completions := completions + [JoinFailed(msg)];
    }
  }
}
