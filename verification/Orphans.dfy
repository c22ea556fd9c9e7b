// Orphan records, and how each observation changes them.
module Orphans {
  import opened Basics
  import opened Text

  datatype Id = Id(kind: string, namespace: string, name: string)

  // "kind/namespace/name"
  function OrphanKey(id: Id): string {
    id.kind + "/" + id.namespace + "/" + id.name
  }

  predicate Plain(id: Id) {
    '/' !in id.kind && '/' !in id.namespace
  }

  lemma OrphanKeyInjective(a: Id, b: Id)
    requires Plain(a) && Plain(b) && OrphanKey(a) == OrphanKey(b)
    ensures a == b
  {
    KeyParts(a);
    KeyParts(b);
  }

  lemma KeyParts(a: Id)
    requires Plain(a)
    ensures Cut(OrphanKey(a), '/') == Some((a.kind, a.namespace + "/" + a.name))
    ensures Cut(a.namespace + "/" + a.name, '/') == Some((a.namespace, a.name))
  {
    var tail := a.namespace + ['/'] + a.name;
    assert OrphanKey(a) == a.kind + ['/'] + tail;
    CutAtFirst(a.kind, '/', tail);
    CutAtFirst(a.namespace, '/', a.name);
  }

  datatype OrphanRecord = OrphanRecord(id: Id, detectedAt: int, reapedAt: Option<int>, reason: string)

  // The stored state with its statistics, and two counts the program does not
  // keep: records cleared and records pruned
  datatype State = State(
    orphans: map<string, OrphanRecord>, detected: nat, reaped: nat, cleared: nat, pruned: nat)

  const FRESH := State(map[], 0, 0, 0, 0)

  datatype Config = Config(autoReap: bool, gracePeriod: int, pruneAfter: int)

  function Lookup(s: State, id: Id): Option<OrphanRecord> {
    if OrphanKey(id) in s.orphans then Some(s.orphans[OrphanKey(id)]) else None
  }

  // A record that has not been reaped
  predicate Active(r: Option<OrphanRecord>) {
    r.Some? && r.value.reapedAt.None?
  }

  function Recorded(s: State, id: Id, reason: string, t: int): State {
    if OrphanKey(id) in s.orphans then s
    else s.(orphans := s.orphans[OrphanKey(id) := OrphanRecord(id, t, None, reason)], detected := s.detected + 1)
  }

  function Marked(s: State, id: Id, t: int): State {
    var key := OrphanKey(id);
    if key in s.orphans then
      s.(orphans := s.orphans[key := s.orphans[key].(reapedAt := Some(t))], reaped := s.reaped + 1)
    else s
  }

  function Resolved(s: State, id: Id): State {
    if Active(Lookup(s, id)) then s.(orphans := s.orphans - {OrphanKey(id)}, cleared := s.cleared + 1) else s
  }

  predicate Prunable(r: OrphanRecord, cutoff: int) {
    r.reapedAt.Some? && r.reapedAt.value < cutoff
  }

  function Stale(s: State, cutoff: int): set<string> {
    set key | key in s.orphans && Prunable(s.orphans[key], cutoff)
  }

  function PrunedBefore(s: State, cutoff: int): State {
    s.(orphans := s.orphans - Stale(s, cutoff), pruned := s.pruned + |Stale(s, cutoff)|)
  }

  // One observation. An orphan is recorded at recordedAt and, when it is due at
  // checkedAt, deleted; gone tells whether the deletion succeeded or found
  // nothing, and markedAt when that was noted.
  datatype Step =
    | InUse(id: Id)
    | Orphaned(id: Id, reason: string, recordedAt: int, checkedAt: int, gone: bool, markedAt: int)
    | Prune(at: int)

  // Reaping is on and the object's record is past the grace period.
  predicate Due(s: State, id: Id, checkedAt: int, cfg: Config) {
    && cfg.autoReap && Active(Lookup(s, id))
    && checkedAt - Lookup(s, id).value.detectedAt >= cfg.gracePeriod
  }

  // A deletion is asked for: the record, made now or earlier, is due.
  predicate Deletes(s: State, step: Step, cfg: Config) {
    step.Orphaned? && Due(Recorded(s, step.id, step.reason, step.recordedAt), step.id, step.checkedAt, cfg)
  }

  function ReapedWhenDue(s: State, id: Id, checkedAt: int, gone: bool, markedAt: int, cfg: Config): State {
    if Due(s, id, checkedAt, cfg) && gone then Marked(s, id, markedAt) else s
  }

  function Next(s: State, step: Step, cfg: Config): State {
    match step
    case InUse(id) => Resolved(s, id)
    case Orphaned(id, reason, recordedAt, checkedAt, gone, markedAt) =>
      ReapedWhenDue(Recorded(s, id, reason, recordedAt), id, checkedAt, gone, markedAt, cfg)
    case Prune(at) => PrunedBefore(s, at - cfg.pruneAfter)
  }

  function RunFrom(s: State, steps: seq<Step>, cfg: Config): State {
    if steps == [] then s
    else Next(RunFrom(s, steps[..|steps| - 1], cfg), steps[|steps| - 1], cfg)
  }

  lemma RunSnoc(s: State, steps: seq<Step>, step: Step, cfg: Config)
    ensures RunFrom(s, steps + [step], cfg) == Next(RunFrom(s, steps, cfg), step, cfg)
  {
    assert (steps + [step])[..|steps|] == steps;
  }

  lemma {:induction false} RunConcat(s: State, a: seq<Step>, b: seq<Step>, cfg: Config)
    ensures RunFrom(s, a + b, cfg) == RunFrom(RunFrom(s, a, cfg), b, cfg)
    decreases |b|
  {
    if b == [] {
      assert a + b == a;
    } else {
      var n := |b| - 1;
      RunConcat(s, a, b[..n], cfg);
      assert a + b == (a + b[..n]) + [b[n]];
      RunSnoc(s, a + b[..n], b[n], cfg);
    }
  }

  // ---- accounting -----------------------------------------------------------

  function ReapedKeys(s: State): set<string> {
    set key | key in s.orphans && s.orphans[key].reapedAt.Some?
  }

  ghost predicate Balanced(s: State) {
    && s.detected == |s.orphans| + s.cleared + s.pruned
    && s.reaped == |ReapedKeys(s)| + s.pruned
  }

  lemma {:induction false} Accounting(steps: seq<Step>, cfg: Config)
    ensures var s := RunFrom(FRESH, steps, cfg);
      && s.detected == |s.orphans| + s.cleared + s.pruned
      && s.reaped == |ReapedKeys(s)| + s.pruned
      && s.reaped <= s.detected
  {
    var s := RunFrom(FRESH, steps, cfg);
    if steps != [] {
      var before := steps[..|steps| - 1];
      Accounting(before, cfg);
      BalancedStep(RunFrom(FRESH, before, cfg), steps[|steps| - 1], cfg);
    }
    SubsetCount(ReapedKeys(s), s.orphans.Keys);
  }

  lemma SubsetCount(part: set<string>, all: set<string>)
    requires part <= all
    ensures |part| <= |all|
  {
    assert all == part + (all - part);
  }

  lemma BalancedStep(s: State, step: Step, cfg: Config)
    requires Balanced(s)
    ensures Balanced(Next(s, step, cfg))
  {
    match step
    case InUse(id) => BalancedResolved(s, id);
    case Orphaned(id, reason, recordedAt, _, _, markedAt) =>
      BalancedRecorded(s, id, reason, recordedAt);
      var r := Recorded(s, id, reason, recordedAt);
      if Active(Lookup(r, id)) {
        BalancedMarked(r, id, markedAt);
      }
    case Prune(at) => BalancedPruned(s, at - cfg.pruneAfter);
  }

  lemma BalancedRecorded(s: State, id: Id, reason: string, t: int)
    requires Balanced(s)
    ensures Balanced(Recorded(s, id, reason, t))
  {
    var n := Recorded(s, id, reason, t);
    assert ReapedKeys(n) == ReapedKeys(s);
    assert n.orphans.Keys == s.orphans.Keys + {OrphanKey(id)};
    assert |n.orphans| == |n.orphans.Keys| && |s.orphans| == |s.orphans.Keys|;
  }

  // A record is marked once at most: only an active one is.
  lemma BalancedMarked(s: State, id: Id, t: int)
    requires Balanced(s) && Active(Lookup(s, id))
    ensures Balanced(Marked(s, id, t))
  {
    var n := Marked(s, id, t);
    assert ReapedKeys(n) == ReapedKeys(s) + {OrphanKey(id)};
    assert n.orphans.Keys == s.orphans.Keys;
    assert |n.orphans| == |n.orphans.Keys| && |s.orphans| == |s.orphans.Keys|;
  }

  lemma BalancedResolved(s: State, id: Id)
    requires Balanced(s)
    ensures Balanced(Resolved(s, id))
  {
    var n := Resolved(s, id);
    if Active(Lookup(s, id)) {
      assert ReapedKeys(n) == ReapedKeys(s);
      assert n.orphans.Keys == s.orphans.Keys - {OrphanKey(id)};
      assert |n.orphans| == |n.orphans.Keys| && |s.orphans| == |s.orphans.Keys|;
    }
  }

  lemma BalancedPruned(s: State, cutoff: int)
    requires Balanced(s)
    ensures Balanced(PrunedBefore(s, cutoff))
  {
    var n := PrunedBefore(s, cutoff);
    KeysAfterPrune(s, cutoff);
    Without(ReapedKeys(s), Stale(s, cutoff));
    Without(s.orphans.Keys, Stale(s, cutoff));
    assert |n.orphans| == |n.orphans.Keys|;
  }

  lemma KeysAfterPrune(s: State, cutoff: int)
    ensures Stale(s, cutoff) <= ReapedKeys(s) <= s.orphans.Keys
    ensures ReapedKeys(PrunedBefore(s, cutoff)) == ReapedKeys(s) - Stale(s, cutoff)
    ensures PrunedBefore(s, cutoff).orphans.Keys == s.orphans.Keys - Stale(s, cutoff)
  {
  }

  lemma Without(all: set<string>, part: set<string>)
    requires part <= all
    ensures |all - part| == |all| - |part|
  {
    assert all == (all - part) + part;
  }

  // ---- one object's record --------------------------------------------------

  // Steps about other objects leave a record alone.
  lemma OthersKeep(s: State, step: Step, cfg: Config, id: Id)
    requires !step.Prune? && Plain(id) && Plain(step.id) && step.id != id
    ensures Lookup(Next(s, step, cfg), id) == Lookup(s, id)
  {
    if OrphanKey(step.id) == OrphanKey(id) {
      OrphanKeyInjective(step.id, id);
    }
  }

  ghost predicate AllPlain(steps: seq<Step>) {
    forall i :: 0 <= i < |steps| && !steps[i].Prune? ==> Plain(steps[i].id)
  }

  // The step at which an active record was made, with no use seen since
  ghost predicate DetectedBy(steps: seq<Step>, m: nat, id: Id, detectedAt: int) {
    && m < |steps|
    && steps[m].Orphaned? && steps[m].id == id && steps[m].recordedAt == detectedAt
    && forall k :: m < k < |steps| ==> steps[k] != InUse(id)
  }

  lemma {:induction false} ActiveWasDetected(steps: seq<Step>, cfg: Config, id: Id)
    requires AllPlain(steps) && Plain(id) && Active(Lookup(RunFrom(FRESH, steps, cfg), id))
    ensures exists m :: DetectedBy(steps, m, id, Lookup(RunFrom(FRESH, steps, cfg), id).value.detectedAt)
  {
    var n := |steps| - 1;
    var before := RunFrom(FRESH, steps[..n], cfg);
    var step := steps[n];
    if !step.Prune? && step.id != id {
      OthersKeep(before, step, cfg, id);
    }
    if Active(Lookup(before, id)) {
      assert Lookup(RunFrom(FRESH, steps, cfg), id) == Lookup(before, id);
      ActiveWasDetected(steps[..n], cfg, id);
      var m :| DetectedBy(steps[..n], m, id, Lookup(before, id).value.detectedAt);
      assert DetectedBy(steps, m, id, Lookup(before, id).value.detectedAt);
    } else {
      assert DetectedBy(steps, n, id, Lookup(RunFrom(FRESH, steps, cfg), id).value.detectedAt);
    }
  }

  // Whatever is deleted was detected at least a grace period earlier and has
  // not been seen in use since.
  lemma {:induction false} DeletionsWait(steps: seq<Step>, step: Step, cfg: Config)
    requires AllPlain(steps + [step]) && Deletes(RunFrom(FRESH, steps, cfg), step, cfg)
    ensures exists m, d ::
      && DetectedBy(steps + [step], m, step.id, d)
      && step.checkedAt - d >= cfg.gracePeriod
  {
    var s := RunFrom(FRESH, steps, cfg);
    assert (steps + [step])[|steps|] == step;
    assert Plain(step.id);
    if Active(Lookup(s, step.id)) {
      assert AllPlain(steps) by {
        assert forall i :: 0 <= i < |steps| ==> (steps + [step])[i] == steps[i];
      }
      ActiveWasDetected(steps, cfg, step.id);
      var d := Lookup(s, step.id).value.detectedAt;
      var m :| DetectedBy(steps, m, step.id, d);
      assert DetectedBy(steps + [step], m, step.id, d);
    } else {
      assert DetectedBy(steps + [step], |steps|, step.id, step.recordedAt);
    }
  }
}
