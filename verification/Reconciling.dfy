// The reconciler: one pass over templates
// and claims, with the deletions it asks
// for. Its methods carry out the verdicts
// of the passes and leave the state that
// the runs of steps describe.
module Reconciling {
  import opened Basics
  import opened Orphans
  import opened Passes
  import opened Pods
  import opened StateStore

  // The orphans among some verdicts
  function OrphanCount(vs: seq<Verdict>): nat {
    if vs == [] then 0 else OrphanCount(vs[..|vs| - 1]) + if vs[|vs| - 1].Orphan? then 1 else 0
  }

  // One verdict has been carried out.
  ghost predicate Settled(before: seq<Step>, after: seq<Step>, v: Verdict, c: Cluster, start: int, end: int) {
    if v == Ignored then after == before
    else |after| == |before| + 1 && after[..|before|] == before && Carries(after[|before|], v, c, start, end)
  }

  lemma {:induction false} CarryOutWidens(steps: seq<Step>, vs: seq<Verdict>, c: Cluster, start: int, end: int,
                                          s: int, e: int)
    requires CarryOut(steps, vs, c, start, end) && s <= start && end <= e
    ensures CarryOut(steps, vs, c, s, e)
    decreases |vs|
  {
    if vs != [] {
      var n := |vs| - 1;
      CarryOutWidens(if vs[n] == Ignored then steps else steps[..|steps| - 1], vs[..n], c, start, end, s, e);
    }
  }

  lemma {:induction false} CarryOutConcat(a: seq<Step>, b: seq<Step>, us: seq<Verdict>, vs: seq<Verdict>,
                                          c: Cluster, start: int, end: int)
    requires CarryOut(a, us, c, start, end) && CarryOut(b, vs, c, start, end)
    ensures CarryOut(a + b, us + vs, c, start, end)
    decreases |vs|
  {
    if vs == [] {
      assert a + b == a && us + vs == us;
    } else {
      var n := |vs| - 1;
      assert (us + vs)[..|us + vs| - 1] == us + vs[..n];
      if vs[n] == Ignored {
        CarryOutConcat(a, b, us, vs[..n], c, start, end);
      } else {
        CarryOutConcat(a, b[..|b| - 1], us, vs[..n], c, start, end);
        assert (a + b)[..|a + b| - 1] == a + b[..|b| - 1];
      }
    }
  }

  lemma CarryOutNext(base: seq<Step>, before: seq<Step>, after: seq<Step>, vs: seq<Verdict>, i: nat, c: Cluster,
                     start: int, mid: int, end: int)
    requires i < |vs| && base <= before && start <= mid <= end
    requires CarryOut(before[|base|..], vs[..i], c, start, mid)
    requires Settled(before, after, vs[i], c, mid, end)
    ensures base <= after && CarryOut(after[|base|..], vs[..i + 1], c, start, end)
  {
    CarryOutWidens(before[|base|..], vs[..i], c, start, mid, start, end);
    assert vs[..i + 1][..i] == vs[..i];
    if vs[i] != Ignored {
      assert after[|base|..][..|after| - |base| - 1] == before[|base|..];
    }
  }

  lemma OrphanCountNext(vs: seq<Verdict>, i: nat)
    requires i < |vs|
    ensures OrphanCount(vs[..i + 1]) == OrphanCount(vs[..i]) + if vs[i].Orphan? then 1 else 0
  {
    assert vs[..i + 1][..i] == vs[..i];
  }

  // The template names some pod refers to, by namespace; a namespace whose pods
  // could not be listed is missing.
  ghost predicate IsReferenceSet(c: Cluster, namespaces: set<string>, refs: map<string, set<string>>) {
    && (forall ns :: ns in refs <==> ns in namespaces && c.podsIn(ns).Some?)
    && forall ns, name :: ns in refs ==> (name in refs[ns] <==> Referenced(c, Template(ns, name)))
  }

  // The names a list of pods refers to
  method NamesIn(pods: seq<Pod>) returns (names: set<string>)
    ensures forall name :: name in names <==> exists i :: 0 <= i < |pods| && Mentions(pods[i], name)
  {
    names := {};
    for i := 0 to |pods|
      invariant forall name :: name in names <==> exists j :: 0 <= j < i && Mentions(pods[j], name)
    {
      var more := NamesOf(pods[i]);
      names := names + more;
    }
  }

  method NamesOf(pod: Pod) returns (names: set<string>)
    ensures forall name :: name in names <==> Mentions(pod, name)
  {
    names := {};
    if pod.spec.resourceClaims.Some? {
      var claims := pod.spec.resourceClaims.value;
      for i := 0 to |claims|
        invariant forall name :: name in names <==> exists j :: 0 <= j < i && claims[j].template == Some(name)
      {
        if claims[i].template.Some? {
          names := names + {claims[i].template.value};
        }
      }
    }
  }

  method ReferenceSet(c: Cluster, templates: seq<Template>) returns (refs: map<string, set<string>>)
    ensures IsReferenceSet(c, set i | 0 <= i < |templates| :: templates[i].namespace, refs)
  {
    refs := map[];
    ghost var all := set i | 0 <= i < |templates| :: templates[i].namespace;
    var left := set i | 0 <= i < |templates| :: templates[i].namespace;
    while left != {}
      invariant left <= all
      invariant IsReferenceSet(c, all - left, refs)
      decreases left
    {
      var ns := AnyOf(left);
      ghost var done := all - left;
      left := left - {ns};
      assert all - left == done + {ns};
      if c.podsIn(ns).Some? {
        var names := NamesIn(c.podsIn(ns).value);
        refs := refs[ns := names];
      }
    }
    assert all - left == all;
  }

  // The steps are those of the passes, one pass after the other.
  ghost predicate MadeOf(steps: seq<Step>, passes: seq<Pass>) {
    && steps == AllSteps(passes, |passes|)
    && forall p :: 0 <= p < |passes| ==> IsPass(passes[p])
  }

  class Reconciler {
    const state: StateManager
    const config: Config

    // The passes made since the state was fresh, and the steps they took
    ghost var passes: seq<Pass>
    ghost var history: seq<Step>

    constructor (state: StateManager, config: Config)
      requires state.Contents() == FRESH
      ensures Resting() && passes == [] && this.state == state && this.config == config
    {
      this.state := state;
      this.config := config;
      passes, history := [], [];
    }

    ghost predicate Valid()
      reads this, state
    {
      state.Contents() == RunFrom(FRESH, history, config)
    }

    // handleOrphanedTemplate and handleOrphanedClaim: record, then reap when due
    method HandleOrphaned(id: Id, reason: string, c: Cluster)
      requires Valid()
      modifies this`history, state, state.clock
      ensures Valid() && old(state.clock.now) <= state.clock.now
      ensures Settled(old(history), history, Orphan(id, reason), c, old(state.clock.now), state.clock.now)
    {
      ghost var recordedAt := state.RecordOrphan(id, reason);
      ghost var checkedAt, markedAt := ReapWhenDue(id, c);
      ghost var step := Orphaned(id, reason, recordedAt, checkedAt, c.deletable(id), markedAt);
      RunSnoc(FRESH, history, step, config);
      history := history + [step];
    }

    method ReapWhenDue(id: Id, c: Cluster) returns (ghost checkedAt: int, ghost markedAt: int)
      modifies state, state.clock
      ensures state.Contents() == ReapedWhenDue(old(state.Contents()), id, checkedAt, c.deletable(id), markedAt, config)
      ensures old(state.clock.now) <= checkedAt <= markedAt <= state.clock.now
    {
      checkedAt, markedAt := state.clock.now, state.clock.now;
      if config.autoReap {
        var record := state.GetOrphan(id);
        if record.Some? {
          var now := state.clock.Read();
          checkedAt, markedAt := now, state.clock.now;
          if now - record.value.detectedAt >= config.gracePeriod {
            markedAt := Reap(id, c);
          }
        }
      }
    }

    // reapTemplate and reapClaim
    method Reap(id: Id, c: Cluster) returns (ghost at: int)
      modifies state, state.clock
      ensures state.Contents() ==
              if c.deletable(id) then Marked(old(state.Contents()), id, at) else old(state.Contents())
      ensures old(state.clock.now) <= at <= state.clock.now
    {
      if !c.deletable(id) {
        return state.clock.now;
      }
      at := state.MarkReaped(id);
    }

    method NoteUse(id: Id, ghost c: Cluster)
      requires Valid()
      modifies this`history, state
      ensures Valid() && Settled(old(history), history, Used(id), c, state.clock.now, state.clock.now)
    {
      RunSnoc(FRESH, history, InUse(id), config);
      state.ClearResolved(id);
      history := history + [InUse(id)];
    }

    // reconcileTemplates: which templates are referenced, then one verdict each
    method ReconcileTemplates(c: Cluster) returns (orphanCount: nat, ok: bool)
      requires Valid()
      modifies this`history, state, state.clock
      ensures Valid() && old(history) <= history && old(state.clock.now) <= state.clock.now
      ensures CarryOut(history[|old(history)|..], TemplateVerdicts(c), c, old(state.clock.now), state.clock.now)
      ensures orphanCount == OrphanCount(TemplateVerdicts(c)) && ok == c.templates.Some?
    {
      orphanCount := 0;
      if c.templates.None? {
        return 0, false;
      }
      var templates := c.templates.value;
      var refs := ReferenceSet(c, templates);
      ghost var vs := TemplateVerdicts(c);
      for i := 0 to |templates|
        invariant Valid() && old(history) <= history && old(state.clock.now) <= state.clock.now
        invariant CarryOut(history[|old(history)|..], vs[..i], c, old(state.clock.now), state.clock.now)
        invariant orphanCount == OrphanCount(vs[..i])
      {
        ghost var before, mid := history, state.clock.now;
        var t := templates[i];
        assert vs[i] == TemplateVerdict(c, Template(t.namespace, t.name));
        if t.namespace in refs && t.name in refs[t.namespace] {
          NoteUse(TemplateId(t), c);
        } else {
          orphanCount := orphanCount + 1;
          HandleOrphaned(TemplateId(t), UNREFERENCED, c);
        }
        CarryOutNext(old(history), before, history, vs, i, c, old(state.clock.now), mid, state.clock.now);
        OrphanCountNext(vs, i);
      }
      assert vs[..|templates|] == vs;
      ok := true;
    }

    // reconcileClaims: a claim made from a template lives as long as its pod.
    method ReconcileClaims(c: Cluster) returns (orphanCount: nat, ok: bool)
      requires Valid()
      modifies this`history, state, state.clock
      ensures Valid() && old(history) <= history && old(state.clock.now) <= state.clock.now
      ensures CarryOut(history[|old(history)|..], ClaimVerdicts(c), c, old(state.clock.now), state.clock.now)
      ensures orphanCount == OrphanCount(ClaimVerdicts(c)) && ok == c.claims.Some?
    {
      orphanCount := 0;
      if c.claims.None? {
        return 0, false;
      }
      var claims := c.claims.value;
      ghost var vs := ClaimVerdicts(c);
      for i := 0 to |claims|
        invariant Valid() && old(history) <= history && old(state.clock.now) <= state.clock.now
        invariant CarryOut(history[|old(history)|..], vs[..i], c, old(state.clock.now), state.clock.now)
        invariant orphanCount == OrphanCount(vs[..i])
      {
        ghost var before, mid := history, state.clock.now;
        var orphan := ReconcileClaim(claims[i], c);
        if orphan {
          orphanCount := orphanCount + 1;
        }
        CarryOutNext(old(history), before, history, vs, i, c, old(state.clock.now), mid, state.clock.now);
        OrphanCountNext(vs, i);
      }
      assert vs[..|claims|] == vs;
      ok := true;
    }

    method ReconcileClaim(claim: Claim, c: Cluster) returns (orphan: bool)
      requires Valid()
      modifies this`history, state, state.clock
      ensures Valid() && old(state.clock.now) <= state.clock.now
      ensures Settled(old(history), history, ClaimVerdict(c, claim), c, old(state.clock.now), state.clock.now)
      ensures orphan == ClaimVerdict(c, claim).Orphan?
    {
      orphan := false;
      if CLAIM_NAME_ANNOTATION !in claim.annotations {
        return;
      }
      var owner := OwnerPod(claim.owners);
      if owner == "" {
        HandleOrphaned(ClaimId(claim), "no pod owner reference", c);
        return true;
      }
      match c.getPod(claim.namespace, owner)
      case Found => NoteUse(ClaimId(claim), c);
      case NotFound =>
        HandleOrphaned(ClaimId(claim), "owner pod \"" + owner + "\" not found", c);
        orphan := true;
      case Failed =>
    }

    // Between passes: the history is that of the passes made.
    ghost predicate Resting()
      reads this, state
    {
      Valid() && MadeOf(history, passes)
    }

    // reconcileOnce: one pass
    method ReconcileOnce(c: Cluster) returns (ghost pass: Pass)
      requires Resting()
      modifies this, state, state.clock
      ensures Resting()
      ensures passes == old(passes) + [pass] && pass.seen == c
      ensures old(state.clock.now) == pass.start <= pass.end <= state.clock.now
    {
      pass := Sweep(c);
      MadeOfSnoc(passes, old(history), pass);
      passes := passes + [pass];
      state.UpdateReconciliationTime();
    }

    method Sweep(c: Cluster) returns (ghost pass: Pass)
      requires Valid()
      modifies this`history, state, state.clock
      ensures Valid() && history == old(history) + pass.steps && IsPass(pass) && pass.seen == c
      ensures old(state.clock.now) == pass.start <= pass.end <= state.clock.now
    {
      ghost var start, before := state.clock.now, history;
      var orphanedTemplates, templatesOk := ReconcileTemplates(c);
      ghost var mid, midTime := history, state.clock.now;
      var orphanedClaims, claimsOk := ReconcileClaims(c);
      PassCarriedOut(before, mid, history, c, start, midTime, state.clock.now);
      ghost var settled, endTime := history[|before|..], state.clock.now;
      ghost var at := PruneOld();
      PassCloses(settled, c, start, endTime, at);
      pass := Pass(c, settled + [Prune(at)], start, at);
    }

    method PruneOld() returns (ghost at: int)
      requires Valid()
      modifies this`history, state, state.clock
      ensures Valid() && history == old(history) + [Prune(at)]
      ensures old(state.clock.now) <= at <= state.clock.now
    {
      var count;
      count, at := state.PruneReapedOlderThan(config.pruneAfter);
      RunSnoc(FRESH, history, Prune(at), config);
      history := history + [Prune(at)];
    }
  }

  lemma PassCloses(settled: seq<Step>, c: Cluster, start: int, endTime: int, at: int)
    requires CarryOut(settled, Verdicts(c), c, start, endTime) && start <= endTime <= at
    ensures IsPass(Pass(c, settled + [Prune(at)], start, at))
  {
    CarryOutWidens(settled, Verdicts(c), c, start, endTime, start, at);
    assert (settled + [Prune(at)])[..|settled|] == settled;
  }

  lemma MadeOfSnoc(passes: seq<Pass>, steps: seq<Step>, p: Pass)
    requires MadeOf(steps, passes) && IsPass(p)
    ensures MadeOf(steps + p.steps, passes + [p])
  {
    AllStepsSnoc(passes, p);
    assert forall i :: 0 <= i < |passes| ==> (passes + [p])[i] == passes[i];
  }

  lemma {:induction false} AllStepsPrefix(passes: seq<Pass>, more: seq<Pass>, n: nat)
    requires n <= |passes|
    ensures AllSteps(passes + more, n) == AllSteps(passes, n)
  {
    if n > 0 {
      AllStepsPrefix(passes, more, n - 1);
    }
  }

  lemma AllStepsSnoc(passes: seq<Pass>, p: Pass)
    ensures AllSteps(passes + [p], |passes| + 1) == AllSteps(passes, |passes|) + p.steps
  {
    AllStepsPrefix(passes, [p], |passes|);
  }

  lemma PassCarriedOut(before: seq<Step>, mid: seq<Step>, after: seq<Step>, c: Cluster, start: int, half: int, end: int)
    requires before <= mid <= after && start <= half <= end
    requires CarryOut(mid[|before|..], TemplateVerdicts(c), c, start, half)
    requires CarryOut(after[|mid|..], ClaimVerdicts(c), c, half, end)
    ensures CarryOut(after[|before|..], Verdicts(c), c, start, end)
  {
    CarryOutWidens(mid[|before|..], TemplateVerdicts(c), c, start, half, start, end);
    CarryOutWidens(after[|mid|..], ClaimVerdicts(c), c, half, end, start, end);
    CarryOutConcat(mid[|before|..], after[|mid|..], TemplateVerdicts(c), ClaimVerdicts(c), c, start, end);
    assert after[|before|..] == mid[|before|..] + after[|mid|..];
  }
}
