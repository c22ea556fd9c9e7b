// The reconciler's stored state: orphan
// records and counters. Each method is
// one step of the record life cycle, or
// a reading of it.
module StateStore {
  import opened Basics
  import opened Orphans

  lemma DropOne(m: map<string, OrphanRecord>, gone: set<string>, key: string)
    ensures m - gone - {key} == m - (gone + {key})
  {
  }

  class StateManager {
    var orphans: map<string, OrphanRecord>
    var totalReconciliations: nat
    var orphansDetected: nat
    var orphansReaped: nat
    var lastReconciliation: int
    const clock: Clock

    // Records cleared and pruned so far
    ghost var cleared: nat
    ghost var pruned: nat

    constructor (clock: Clock)
      ensures Contents() == FRESH && this.clock == clock
    {
      orphans := map[];
      totalReconciliations, orphansDetected, orphansReaped, lastReconciliation := 0, 0, 0, 0;
      cleared, pruned := 0, 0;
      this.clock := clock;
    }

    ghost function Contents(): State
      reads this
    {
      State(orphans, orphansDetected, orphansReaped, cleared, pruned)
    }

    // If the object is already tracked, its record stays as it is.
    method RecordOrphan(id: Id, reason: string) returns (ghost at: int)
      modifies this, clock
      ensures Contents() == Recorded(old(Contents()), id, reason, at)
      ensures old(clock.now) <= at <= clock.now
    {
      at := clock.now;
      if OrphanKey(id) !in orphans {
        var now := clock.Read();
        at := now;
        orphans := orphans[OrphanKey(id) := OrphanRecord(id, now, None, reason)];
        orphansDetected := orphansDetected + 1;
      }
    }

    method MarkReaped(id: Id) returns (ghost at: int)
      modifies this, clock
      ensures Contents() == Marked(old(Contents()), id, at)
      ensures old(clock.now) <= at <= clock.now
    {
      at := clock.now;
      if OrphanKey(id) in orphans {
        var now := clock.Read();
        at := now;
        orphans := orphans[OrphanKey(id) := orphans[OrphanKey(id)].(reapedAt := Some(now))];
        orphansReaped := orphansReaped + 1;
      }
    }

    // Reaped records stay.
    method ClearResolved(id: Id)
      modifies this
      ensures Contents() == Resolved(old(Contents()), id)
    {
      if OrphanKey(id) in orphans && orphans[OrphanKey(id)].reapedAt.None? {
        orphans := orphans - {OrphanKey(id)};
        cleared := cleared + 1;
      }
    }

    method GetOrphan(id: Id) returns (r: Option<OrphanRecord>)
      ensures r == if Active(Lookup(Contents(), id)) then Lookup(Contents(), id) else None
    {
      if OrphanKey(id) in orphans && orphans[OrphanKey(id)].reapedAt.None? {
        return Some(orphans[OrphanKey(id)]);
      }
      return None;
    }

    method UpdateReconciliationTime()
      modifies this, clock
      ensures Contents() == old(Contents()) && clock.now >= old(clock.now)
      ensures totalReconciliations == old(totalReconciliations) + 1
      ensures old(clock.now) <= lastReconciliation <= clock.now
    {
      lastReconciliation := clock.Read();
      totalReconciliations := totalReconciliations + 1;
    }

    method PruneReapedOlderThan(age: int) returns (count: nat, ghost at: int)
      modifies this, clock
      ensures Contents() == PrunedBefore(old(Contents()), at - age)
      ensures count == |Stale(old(Contents()), at - age)|
      ensures old(clock.now) <= at <= clock.now
    {
      var now := clock.Read();
      at := now;
      ghost var stale := Stale(Contents(), at - age);
      count := DeleteStale(now - age, stale);
      pruned := pruned + count;
    }

    method DeleteStale(cutoff: int, ghost stale: set<string>) returns (count: nat)
      requires forall key :: key in stale <==> key in orphans && Prunable(orphans[key], cutoff)
      modifies this`orphans
      ensures orphans == old(orphans) - stale && count == |stale|
    {
      ghost var gone: set<string> := {};
      var left := orphans.Keys;
      count := 0;
      while left != {}
        invariant gone <= stale && gone !! left && stale <= gone + left && left <= orphans.Keys
        invariant orphans == old(orphans) - gone
        invariant count == |gone|
        decreases left
      {
        var key := AnyOf(left);
        left := left - {key};
        if orphans[key].reapedAt.Some? && orphans[key].reapedAt.value < cutoff {
          DropOne(old(orphans), gone, key);
          gone := gone + {key};
          orphans := orphans - {key};
          count := count + 1;
        }
      }
      assert gone == stale;
    }
  }
}
