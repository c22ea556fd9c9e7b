// How soon an unused object is deleted: the bounded response of the reconciler.
module Response {
  import opened Basics
  import opened Orphans
  import opened Passes
  import opened Pods

  // The record of one object before and after a pass that finds it orphaned:
  // reaped records keep it from being detected until they are pruned.
  ghost predicate Effect(before: Option<OrphanRecord>, after: Option<OrphanRecord>, deleted: bool, p: Pass,
                         cfg: Config) {
    match before
    case None => deleted || (Active(after) && p.start <= after.value.detectedAt <= p.end)
    case Some(r) =>
      if r.reapedAt.None? then
        deleted || (after == before && (cfg.autoReap ==> p.start - r.detectedAt < cfg.gracePeriod))
      else
        after == None || (after == before && p.start - cfg.pruneAfter <= r.reapedAt.value)
  }

  lemma {:induction false} OthersKeepAll(s: State, steps: seq<Step>, cfg: Config, x: Id)
    requires Plain(x)
    requires forall i :: 0 <= i < |steps| ==> !steps[i].Prune? && Plain(steps[i].id) && steps[i].id != x
    ensures Lookup(RunFrom(s, steps, cfg), x) == Lookup(s, x)
  {
    if steps != [] {
      var n := |steps| - 1;
      OthersKeepAll(s, steps[..n], cfg, x);
      OthersKeep(RunFrom(s, steps[..n], cfg), steps[n], cfg, x);
    }
  }

  // A pass over objects with the names Kubernetes allows
  ghost predicate Regular(p: Pass) {
    IsPass(p) && PlainNames(p.seen) && UniqueNames(p.seen)
  }

  // The pass lists the object and finds nobody using it.
  ghost predicate FoundUnused(p: Pass, x: Id) {
    exists k :: 0 <= k < |Verdicts(p.seen)| && Verdicts(p.seen)[k].Orphan? && Verdicts(p.seen)[k].id == x
  }

  lemma UnreferencedIsFound(p: Pass, t: Template)
    requires Lists(p.seen, t) && '/' !in t.namespace
    ensures FoundUnused(p, TemplateId(t)) <==>
      p.seen.podsIn(t.namespace).Some? ==> NoneRefers(p.seen.podsIn(t.namespace).value, t.name)
    ensures Plain(TemplateId(t))
  {
    ReferencedMeans(p.seen, t);
    var k := ListedVerdict(p.seen, t);
    if FoundUnused(p, TemplateId(t)) {
      var l :| 0 <= l < |Verdicts(p.seen)| && Verdicts(p.seen)[l].Orphan? && Verdicts(p.seen)[l].id == TemplateId(t);
      OrphanVerdict(p.seen, l, t);
    }
  }

  // The same answers, with the pods of one namespace listed
  function Listing(c: Cluster, namespace: string, pods: seq<Pod>): Cluster {
    c.(podsIn := n => if n == namespace then Some(pods) else c.podsIn(n))
  }

  // A template is found unused, and so may be deleted, when the pods of its
  // namespace cannot be listed, though some of them refer to it.
  lemma FailedListHidesReference(p: Pass, t: Template, pods: seq<Pod>)
    requires Lists(p.seen, t) && '/' !in t.namespace && p.seen.podsIn(t.namespace).None?
    requires !NoneRefers(pods, t.name)
    ensures FoundUnused(p, TemplateId(t))
    ensures !FoundUnused(p.(seen := Listing(p.seen, t.namespace, pods)), TemplateId(t))
  {
    UnreferencedIsFound(p, t);
    UnreferencedIsFound(p.(seen := Listing(p.seen, t.namespace, pods)), t);
  }

  // The only step of the pass about the object, and where the others are
  lemma OnlyStep(p: Pass, x: Id) returns (i: nat)
    requires Regular(p) && FoundUnused(p, x)
    ensures i < |p.steps| - 1 && p.steps[i].Orphaned? && p.steps[i].id == x
    ensures p.start <= p.steps[i].recordedAt <= p.steps[i].checkedAt <= p.steps[i].markedAt <= p.end
    ensures forall j :: 0 <= j < |p.steps| - 1 && j != i ==>
      !p.steps[j].Prune? && Plain(p.steps[j].id) && p.steps[j].id != x
  {
    var n, vs := |p.steps| - 1, Verdicts(p.seen);
    var k: nat :| k < |vs| && vs[k].Orphan? && vs[k].id == x;
    i := VerdictIsCarried(p.steps[..n], vs, p.seen, p.start, p.end, k);
    assert p.steps[..n][i] == p.steps[i];
    forall j | 0 <= j < n && j != i
      ensures !p.steps[j].Prune? && Plain(p.steps[j].id) && p.steps[j].id != x
    {
      assert p.steps[..n][j] == p.steps[j];
      OtherIsAbout(p, k, p.steps[j]);
    }
  }

  // A step for another verdict is about another object.
  lemma OtherIsAbout(p: Pass, k: nat, step: Step)
    requires Regular(p) && k < |Verdicts(p.seen)| && Verdicts(p.seen)[k] != Ignored
    requires HasOther(step, Verdicts(p.seen), k, p.seen, p.start, p.end)
    ensures !step.Prune? && Plain(step.id) && step.id != Verdicts(p.seen)[k].id
  {
    var vs := Verdicts(p.seen);
    var m :| 0 <= m < |vs| && m != k && vs[m] != Ignored && Carries(step, vs[m], p.seen, p.start, p.end);
  }

  ghost predicate Attempts(s: State, p: Pass, x: Id, cfg: Config) {
    exists i :: 0 <= i < |p.steps| && p.steps[i].Orphaned? && p.steps[i].id == x
      && Deletes(RunFrom(s, p.steps[..i], cfg), p.steps[i], cfg)
  }

  lemma PassEffect(s: State, p: Pass, x: Id, cfg: Config)
    requires Regular(p) && FoundUnused(p, x) && Plain(x)
    ensures Effect(Lookup(s, x), Lookup(RunFrom(s, p.steps, cfg), x), Attempts(s, p, x, cfg), p, cfg)
  {
    var i := OnlyStep(p, x);
    EffectOfStep(s, p, i, x, cfg);
  }

  lemma EffectOfStep(s: State, p: Pass, i: nat, x: Id, cfg: Config)
    requires Plain(x) && i < |p.steps| - 1 && p.steps[i].Orphaned? && p.steps[i].id == x
    requires p.start <= p.steps[i].recordedAt <= p.steps[i].checkedAt <= p.steps[i].markedAt <= p.end
    requires p.steps[|p.steps| - 1].Prune? && p.start <= p.steps[|p.steps| - 1].at <= p.end
    requires forall j :: 0 <= j < |p.steps| - 1 && j != i ==>
      !p.steps[j].Prune? && Plain(p.steps[j].id) && p.steps[j].id != x
    ensures Effect(Lookup(s, x), Lookup(RunFrom(s, p.steps, cfg), x), Attempts(s, p, x, cfg), p, cfg)
  {
    AroundStep(s, p.steps, i, x, cfg);
    assert Deletes(RunFrom(s, p.steps[..i], cfg), p.steps[i], cfg) ==> Attempts(s, p, x, cfg);
  }

  lemma AroundStep(s: State, steps: seq<Step>, i: nat, x: Id, cfg: Config)
    requires Plain(x) && i < |steps| - 1
    requires forall j :: 0 <= j < |steps| - 1 && j != i ==>
      !steps[j].Prune? && Plain(steps[j].id) && steps[j].id != x
    ensures Lookup(RunFrom(s, steps[..i], cfg), x) == Lookup(s, x)
    ensures Lookup(RunFrom(s, steps[..|steps| - 1], cfg), x) ==
      Lookup(Next(RunFrom(s, steps[..i], cfg), steps[i], cfg), x)
  {
    var n := |steps| - 1;
    OthersKeepAll(s, steps[..i], cfg, x);
    RunSnoc(s, steps[..i], steps[i], cfg);
    assert steps[..i + 1] == steps[..i] + [steps[i]];
    var rest := steps[i + 1..n];
    assert forall j :: 0 <= j < |rest| ==> rest[j] == steps[i + 1 + j];
    OthersKeepAll(RunFrom(s, steps[..i + 1], cfg), rest, cfg, x);
    RunConcat(s, steps[..i + 1], rest, cfg);
    assert steps[..n] == steps[..i + 1] + rest;
  }

  // ---- runs -----------------------------------------------------------------

  // Any two consecutive passes, and any single one, take no longer than width.
  ghost predicate Paced(passes: seq<Pass>, width: int) {
    && (forall p {:trigger Regular(passes[p])} :: 0 <= p < |passes| ==> Regular(passes[p]))
    && (forall p :: 0 <= p < |passes| ==> passes[p].start <= passes[p].end <= passes[p].start + width)
    && forall p :: 0 < p < |passes| ==> passes[p].end <= passes[p - 1].start + width
  }

  ghost predicate AttemptAt(s0: State, passes: seq<Pass>, p: nat, x: Id, cfg: Config)
    requires p < |passes|
  {
    Attempts(StateAt(s0, passes, p, cfg), passes[p], x, cfg)
  }

  // From pass f on the object is found unused, until its deletion is asked for.
  ghost predicate UnusedFrom(s0: State, passes: seq<Pass>, f: nat, x: Id, cfg: Config) {
    forall p :: f <= p < |passes| ==>
      FoundUnused(passes[p], x) || exists e :: f <= e < p && AttemptAt(s0, passes, e, x, cfg)
  }

  ghost function RecordAt(s0: State, passes: seq<Pass>, p: nat, x: Id, cfg: Config): Option<OrphanRecord>
    requires p <= |passes|
  {
    Lookup(StateAt(s0, passes, p, cfg), x)
  }

  lemma NextPass(s0: State, passes: seq<Pass>, p: nat, x: Id, cfg: Config, width: int)
    requires Paced(passes, width) && Plain(x) && p < |passes| && UnusedFrom(s0, passes, p, x, cfg)
    ensures Effect(RecordAt(s0, passes, p, x, cfg), RecordAt(s0, passes, p + 1, x, cfg),
                   AttemptAt(s0, passes, p, x, cfg), passes[p], cfg)
    ensures !AttemptAt(s0, passes, p, x, cfg) ==> UnusedFrom(s0, passes, p + 1, x, cfg)
  {
    assert Regular(passes[p]);
    PassEffect(StateAt(s0, passes, p, cfg), passes[p], x, cfg);
  }

  // An active record leads to a deletion once the grace period is over.
  lemma {:induction false} ActiveIsDeleted(s0: State, passes: seq<Pass>, p: nat, x: Id, cfg: Config, width: int,
                                           bound: int)
    returns (q: nat)
    requires cfg.autoReap && Paced(passes, width) && Plain(x) && p < |passes| && UnusedFrom(s0, passes, p, x, cfg)
    requires Active(RecordAt(s0, passes, p, x, cfg))
    requires RecordAt(s0, passes, p, x, cfg).value.detectedAt + cfg.gracePeriod + width <= bound
    requires passes[p].end <= bound <= passes[|passes| - 1].start && width >= 0
    ensures p <= q < |passes| && AttemptAt(s0, passes, q, x, cfg) && passes[q].end <= bound
    decreases |passes| - p
  {
    NextPass(s0, passes, p, x, cfg, width);
    if AttemptAt(s0, passes, p, x, cfg) {
      q := p;
    } else {
      q := ActiveIsDeleted(s0, passes, p + 1, x, cfg, width, bound);
    }
  }

  // A reaped record is pruned once it is old enough.
  lemma {:induction false} ReapedIsPruned(s0: State, passes: seq<Pass>, p: nat, x: Id, cfg: Config, width: int,
                                          bound: int)
    returns (q: nat)
    requires Paced(passes, width) && Plain(x) && p < |passes| && UnusedFrom(s0, passes, p, x, cfg)
    requires RecordAt(s0, passes, p, x, cfg).Some? && RecordAt(s0, passes, p, x, cfg).value.reapedAt.Some?
    requires RecordAt(s0, passes, p, x, cfg).value.reapedAt.value + cfg.pruneAfter + width <= bound
    requires passes[p].end <= bound < passes[|passes| - 1].start && width >= 0
    ensures p <= q < |passes| - 1 && passes[q].end <= bound
    ensures RecordAt(s0, passes, q + 1, x, cfg) == None || AttemptAt(s0, passes, q, x, cfg)
    ensures AttemptAt(s0, passes, q, x, cfg) || UnusedFrom(s0, passes, q + 1, x, cfg)
    decreases |passes| - p
  {
    NextPass(s0, passes, p, x, cfg, width);
    if AttemptAt(s0, passes, p, x, cfg) || RecordAt(s0, passes, p + 1, x, cfg) == None {
      q := p;
    } else {
      q := ReapedIsPruned(s0, passes, p + 1, x, cfg, width, bound);
    }
  }

  // An object without a record is recorded by the next pass.
  lemma {:induction false} AbsentIsDeleted(s0: State, passes: seq<Pass>, p: nat, x: Id, cfg: Config, width: int,
                                           bound: int)
    returns (q: nat)
    requires cfg.autoReap && Paced(passes, width) && Plain(x) && p < |passes| - 1 && UnusedFrom(s0, passes, p, x, cfg)
    requires RecordAt(s0, passes, p, x, cfg) == None
    requires passes[p].end + cfg.gracePeriod + width <= bound <= passes[|passes| - 1].start
    requires width >= 0 && cfg.gracePeriod >= 0
    ensures p <= q < |passes| && AttemptAt(s0, passes, q, x, cfg) && passes[q].end <= bound
  {
    NextPass(s0, passes, p, x, cfg, width);
    if AttemptAt(s0, passes, p, x, cfg) {
      q := p;
    } else {
      q := ActiveIsDeleted(s0, passes, p + 1, x, cfg, width, bound);
    }
  }

  // A reaped record is pruned first, then the object is detected anew.
  lemma {:induction false} ReapedIsDeleted(s0: State, passes: seq<Pass>, x: Id, cfg: Config, width: int, bound: int)
    returns (q: nat)
    requires cfg.autoReap && cfg.gracePeriod >= 0 && cfg.pruneAfter >= 0 && width > 0 && Plain(x)
    requires passes != [] && Paced(passes, width) && UnusedFrom(s0, passes, 0, x, cfg)
    requires RecordAt(s0, passes, 0, x, cfg).Some?
    requires var reapedAt := RecordAt(s0, passes, 0, x, cfg).value.reapedAt;
      reapedAt.Some? && reapedAt.value <= passes[0].start
    requires passes[|passes| - 1].start >= bound == passes[0].start + cfg.pruneAfter + cfg.gracePeriod + 3 * width
    ensures q < |passes| && AttemptAt(s0, passes, q, x, cfg) && passes[q].end <= bound
  {
    q := ReapedIsPruned(s0, passes, 0, x, cfg, width, passes[0].start + cfg.pruneAfter + width);
    if !AttemptAt(s0, passes, q, x, cfg) {
      q := AbsentIsDeleted(s0, passes, q + 1, x, cfg, width, bound);
    }
  }

  // Whatever record there is at first, the deletion of an object that every
  // pass finds unused is asked for within PruneAfter + GracePeriod + 3 widths.
  lemma {:induction false} DeletedInTime(s0: State, passes: seq<Pass>, x: Id, cfg: Config, width: int) returns (q: nat)
    requires cfg.autoReap && cfg.gracePeriod >= 0 && cfg.pruneAfter >= 0 && width > 0 && Plain(x)
    requires passes != [] && Paced(passes, width) && UnusedFrom(s0, passes, 0, x, cfg)
    requires Lookup(s0, x).Some? ==> Lookup(s0, x).value.detectedAt <= passes[0].start
    requires Lookup(s0, x).Some? && Lookup(s0, x).value.reapedAt.Some? ==>
      Lookup(s0, x).value.reapedAt.value <= passes[0].start
    requires passes[|passes| - 1].start >= passes[0].start + cfg.pruneAfter + cfg.gracePeriod + 3 * width
    ensures q < |passes| && AttemptAt(s0, passes, q, x, cfg)
    ensures passes[q].end <= passes[0].start + cfg.pruneAfter + cfg.gracePeriod + 3 * width
  {
    var bound := passes[0].start + cfg.pruneAfter + cfg.gracePeriod + 3 * width;
    assert RecordAt(s0, passes, 0, x, cfg) == Lookup(s0, x);
    if Lookup(s0, x) == None {
      q := AbsentIsDeleted(s0, passes, 0, x, cfg, width, bound);
    } else if Active(Lookup(s0, x)) {
      q := ActiveIsDeleted(s0, passes, 0, x, cfg, width, bound);
    } else {
      q := ReapedIsDeleted(s0, passes, x, cfg, width, bound);
    }
  }
}
