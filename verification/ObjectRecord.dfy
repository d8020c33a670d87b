/**
 * The RPIROH record as the C code updates it: a flag word, the native handle and the
 * pending array.  Each method is proved to do to its record what the whole-run model of
 * module Runtime says the corresponding step does to that object.
 */
module ObjectRecord {
  import opened Runtime
  import PendingTable

  /** The records of `pending`, each once, last first. */
  predicate Backwards(released: seq<OpId>, pending: seq<OpId>) {
    && |released| == |pending|
    && forall i :: 0 <= i < |released| ==> released[i] == pending[|pending| - 1 - i]
  }

  class Record {
    const kind: ObjKind
    var flags: set<Flag>        // the bits of the flag word that are up; the masks are disjoint
    var native: bool
    var table: PendingTable.PendingArray
    var visible: bool

    ghost predicate Valid()
      reads this, table
    {
      table.Valid() && (table.alloc == 0 || PendingTable.IsPowerInRange(table.alloc))
    }

    ghost function View(): Obj
      reads this, table, table.ops
      requires Valid()
    {
      Obj(kind, flags, native, table.Items(), visible, false)
    }

    /** A world that holds this record only. */
    ghost function World(): Sys
      reads this, table, table.ops
      requires Valid()
    {
      Sys(map[0 := View()], map[], [])
    }

    constructor (kind: ObjKind, native: bool)
      ensures Valid() && View() == Obj(kind, {}, native, [], true, false)
      ensures fresh(table) && fresh(table.ops)
    {
      this.kind, this.flags, this.native, this.visible := kind, {}, native, true;
      table := new PendingTable.PendingArray();
      new;
    }

    method Register(op: OpId)
      requires Valid() && table.npending < PendingTable.MAX_PENDING
      modifies table, table.ops
      ensures Valid() && (fresh(table.ops) || table.ops == old(table.ops))
      ensures View() == old(View()).(pending := old(View()).pending + [op])
    {
      var stored := table.Push(op);
    }

    /** iroh_start_accept_loop and its siblings. */
    method StartLoop(k: LoopKind, start: Start)
      requires Valid() && table.npending < PendingTable.MAX_PENDING
      modifies this`flags, table, table.ops
      ensures Valid() && View() == BeginLoop(old(World()), 0, k, start).objs[0]
    {
      if !native || CLOSED in flags || FlagOf(k) in flags { return; }
      flags := flags + {FlagOf(k)};
      if start.NoHandle? {
        flags := flags - {FlagOf(k)};
      } else if start.Started? {
        Register(start.op);
      }
    }

    /** The tail of a loop handler, after its event was fired. */
    method ContinueLoop(k: LoopKind, start: Start)
      requires Valid() && table.npending < PendingTable.MAX_PENDING
      modifies this`flags, table, table.ops
      ensures Valid() && View() == RestartLoop(old(World()), 0, k, start).objs[0]
    {
      if CLOSED !in flags && native {
        if start.NoHandle? {
          flags := flags - {FlagOf(k)};
        } else if start.Started? {
          Register(start.op);
        }
      } else {
        flags := flags - {FlagOf(k)};
      }
    }

    /** iroh_free_async_op as far as the record is concerned. */
    method Forget(op: OpId)
      requires Valid()
      modifies table, table.ops
      ensures Valid()
      ensures View() == old(View()).(pending := PendingTable.RemoveOne(old(View()).pending, op))
    {
      table.Unlink(op);
    }

    /** iroh_cleanup; `released` lists the records it cancels and frees, `fires` says "close" is fired. */
    method TearDown() returns (released: seq<OpId>, fires: bool)
      requires Valid()
      modifies this, table
      ensures Valid() && View() == Cleanup(old(World()), 0).objs[0]
      ensures fires <==> Cleanup(old(World()), 0).frames == [Frame(0, FreeObject)]
      ensures released == if fires then old(View()).pending else []
    {
      if CLOSED in flags { return [], false; }
      flags := flags + {CLOSED};
      visible := false;
      released := table.ReleaseAll();
      native := false;
      fires := true;
    }

    /** CLOSED up and every pending record cancelled and freed, last first; the array stays. */
    method CancelAll() returns (released: seq<OpId>)
      requires Valid()
      modifies this`flags, table`npending
      ensures Valid() && View() == old(View()).(flags := old(View()).flags + {CLOSED}, pending := [])
      ensures Backwards(released, old(View()).pending)
    {
      flags := flags + {CLOSED};
      released := table.ReleaseAllBackwards();
    }

    /** endpoint.close, up to what it leaves to the close operation. */
    method CloseEndpoint(start: Start) returns (released: seq<OpId>, fires: bool)
      requires Valid()
      modifies this, table, table.ops
      ensures Valid() && View() == EpClose(old(World()), 0, start).objs[0]
      ensures !fires && EpClose(old(World()), 0, start).frames == []
      ensures if CLOSED in old(flags) then released == [] else Backwards(released, old(View()).pending)
    {
      fires, released := false, [];
      if CLOSED in flags { return; }
      released := CancelAll();
      if native && !start.NoHandle? {
        flags := flags - {CLOSED};
        if start.Started? { Register(start.op); }
        return;
      }
      var more;
      more, fires := TearDown();
    }
  }
}
