// The allocator: nodes and devices for pods, reserved for a time.
module Allocator {
  import opened Basics
  import opened Sorting
  import opened Pods
  import opened Constraints
  import opened Ledger
  import opened Scan
  import opened Selection

  // Each call takes the allocator's lock for its whole length, and everything it
  // reads from the API server is a parameter.

  // pendingTTL: two minutes, in nanoseconds
  const PENDING_TTL: nat := 120_000_000_000

  datatype Allocation = Allocation(node: string, rails: seq<nat>)

  // SelectedPair
  datatype ChosenPair = ChosenPair(devices: map<string, string>, rail: int, nicIndex: nat)

  datatype ExplicitAllocation = ExplicitAllocation(node: string, pairs: seq<ChosenPair>)

  // ---- what is free once reservations are taken away ------------------------

  function FreeSlots(slots: seq<Slot>, blocked: set<int>): seq<Slot> {
    if slots == [] then []
    else
      var before := FreeSlots(slots[..|slots| - 1], blocked);
      if slots[|slots| - 1].rail in blocked then before else before + [slots[|slots| - 1]]
  }

  lemma {:induction false} FreeSlotsMembers(slots: seq<Slot>, blocked: set<int>, s: Slot)
    ensures s in FreeSlots(slots, blocked) <==> s in slots && s.rail !in blocked
  {
    if slots != [] {
      var n := |slots| - 1;
      FreeSlotsMembers(slots[..n], blocked, s);
      assert slots == slots[..n] + [slots[n]];
    }
  }

  lemma {:induction false} FreeSlotsTwice(slots: seq<Slot>, a: set<int>, b: set<int>)
    ensures FreeSlots(FreeSlots(slots, a), b) == FreeSlots(slots, a + b)
  {
    if slots != [] {
      var n := |slots| - 1;
      FreeSlotsTwice(slots[..n], a, b);
      var before := FreeSlots(slots[..n], a);
      assert (before + [slots[n]])[..|before|] == before;
    }
  }

  lemma {:induction false} NothingBlocked(slots: seq<Slot>)
    ensures FreeSlots(slots, {}) == slots
  {
    if slots != [] {
      NothingBlocked(slots[..|slots| - 1]);
    }
  }

  function NodesRead(keys: set<string>): set<string> {
    set k | k in keys && ReadPair(k).Some? :: ReadPair(k).value.0
  }

  // Each node keeps the slots whose rail no live reservation names.
  ghost predicate IsFree(slots: Slots, live: Pending, free: Slots) {
    && free.Keys == slots.Keys + NodesRead(live.Keys)
    && forall n :: SlotsOn(free, n) == FreeSlots(SlotsOn(slots, n), Blocked(live, n))
  }

  function Items(slots: seq<Slot>): seq<Item> {
    seq(|slots|, i requires 0 <= i < |slots| => Item(slots[i].zone, slots[i].rail))
  }

  ghost predicate Feasible(pod: Pod, namespace: string, cluster: Cluster, free: Slots, count: nat, oneZone: bool,
                           n: string) {
    n in free && Admits(pod, namespace, cluster, n) && CanSupply(Items(free[n]), count, oneZone)
  }

  ghost predicate Fewest(pod: Pod, namespace: string, cluster: Cluster, free: Slots, count: nat, oneZone: bool,
                         n: string) {
    && Feasible(pod, namespace, cluster, free, count, oneZone, n)
    && forall m :: Feasible(pod, namespace, cluster, free, count, oneZone, m) ==> |free[n]| <= |free[m]|
  }

  // ---- extended resources ---------------------------------------------------

  function LessHeld(available: int, held: nat): int {
    if available <= 0 then available else if available <= held then 0 else available - held
  }

  ghost predicate IsLessHeld(counts: map<string, int>, live: Pending, cls: string, free: map<string, int>) {
    IsLessRead(counts, live.Keys, cls, free)
  }

  // A node with devices loses one for every key that holds the class there.
  ghost predicate IsLessRead(counts: map<string, int>, keys: set<string>, cls: string, free: map<string, int>) {
    && free.Keys == counts.Keys
    && forall n :: n in counts ==> free[n] == LessHeld(counts[n], |ExtRead(keys, cls, n)|)
  }

  lemma OneHeldMore(counts: map<string, int>, done: set<string>, key: string, cls: string, free: map<string, int>)
    requires key !in done && IsLessRead(counts, done, cls, free)
    ensures var read := ReadExt(key);
      IsLessRead(counts, done + {key}, cls,
                 if read.Some? && read.value.0 == cls && read.value.1 in free && free[read.value.1] > 0
                 then free[read.value.1 := free[read.value.1] - 1] else free)
  {
    forall n | n in counts
      ensures |ExtRead(done + {key}, cls, n)| ==
        |ExtRead(done, cls, n)| + (if ReadExt(key) == Some((cls, n)) then 1 else 0)
    {
      OneKeyMore(done, key, cls, n);
    }
  }

  ghost predicate HasDevices(pod: Pod, namespace: string, cluster: Cluster, free: map<string, int>, count: nat,
                             n: string) {
    n in free && free[n] >= count && Admits(pod, namespace, cluster, n)
  }

  // ---- explicit pairs -------------------------------------------------------

  ghost predicate PairFree(cfg: Config, pairing: Pairing, slices: seq<Slice>, live: Pending, node: string,
                           pool: NodePool, i: nat) {
    i < |pool.pairs| && PairUsable(cfg, pairing, slices, node, pool.pairs[i]) && ExplicitKey(node, i) !in live
  }

  ghost predicate FreePairs(cfg: Config, pairing: Pairing, slices: seq<Slice>, live: Pending, node: string,
                            pool: NodePool, free: seq<nat>) {
    && Increasing(free)
    && forall i: nat :: i in free <==> PairFree(cfg, pairing, slices, live, node, pool, i)
  }

  function PairItems(pool: NodePool, indices: seq<nat>): seq<Item> {
    seq(|indices|, k requires 0 <= k < |indices| =>
      Item(if indices[k] < |pool.pairs| then pool.pairs[indices[k]].numa else 0, indices[k]))
  }

  // A node that can give count pairs; free lists its free pairs.
  ghost predicate FeasiblePairs(cfg: Config, pairing: Pairing, slices: seq<Slice>, live: Pending, pod: Pod,
                                namespace: string, cluster: Cluster, count: nat, oneZone: bool, node: Node,
                                free: seq<nat>) {
    && MatchesNodeSelector(pod, node) && MatchesNodeAffinity(pod, node) && Admits(pod, namespace, cluster, node.name)
    && PoolOf(pairing, node.labels).Some?
    && FreePairs(cfg, pairing, slices, live, node.name, PoolOf(pairing, node.labels).value, free)
    && |free| >= count
    && CanSupply(PairItems(PoolOf(pairing, node.labels).value, free), count, oneZone)
  }

  // The pairs handed out, in order, for the indices chosen from a pool
  ghost predicate Describes(pool: NodePool, indices: seq<nat>, pairs: seq<ChosenPair>) {
    && |pairs| == |indices|
    && (forall i :: 0 <= i < |pairs| ==> indices[i] < |pool.pairs|)
    && forall i :: 0 <= i < |pairs| ==>
         pairs[i] == ChosenPair(pool.pairs[indices[i]].devices, pool.pairs[indices[i]].rail, i)
  }

  lemma DescribesOneMore(pool: NodePool, indices: seq<nat>, i: nat, pairs: seq<ChosenPair>)
    requires i < |indices| && indices[i] < |pool.pairs| && Describes(pool, indices[..i], pairs)
    ensures Describes(pool, indices[..i + 1],
                      pairs + [ChosenPair(pool.pairs[indices[i]].devices, pool.pairs[indices[i]].rail, i)])
  {
  }

  datatype Candidate = Candidate(node: Node, pool: NodePool, available: seq<nat>)

  // A listed node can give the pairs; free lists its free ones.
  ghost predicate CanGive(cfg: Config, pairing: Pairing, inv: Inventory, live: Pending, pod: Pod, namespace: string,
                          cluster: Cluster, count: nat, oneZone: bool, n: Node, free: seq<nat>) {
    && cluster.nodes.Some? && inv.slices.Some? && n in cluster.nodes.value
    && FeasiblePairs(cfg, pairing, inv.slices.value, live, pod, namespace, cluster, count, oneZone, n, free)
  }

  ghost predicate LeastPairs(cfg: Config, pairing: Pairing, inv: Inventory, live: Pending, pod: Pod,
                             namespace: string, cluster: Cluster, count: nat, oneZone: bool, n: Node,
                             free: seq<nat>) {
    && CanGive(cfg, pairing, inv, live, pod, namespace, cluster, count, oneZone, n, free)
    && forall m, f :: CanGive(cfg, pairing, inv, live, pod, namespace, cluster, count, oneZone, m, f) ==>
         |free| <= |f|
  }

  // ---- what each kind of call decides ---------------------------------------
  // The event of a call as a function of what it read: the entries alive at its
  // start and what the API server answered.

  // For one outcome of scan and subtraction: refused exactly when no node is
  // feasible, and otherwise a best-fitting one gives a selection of its slots
  ghost predicate RailsChosen(cfg: Config, pod: Pod, namespace: string, cluster: Cluster, free: Slots, count: nat,
                              oneZone: bool, e: Event) {
    if exists n :: Feasible(pod, namespace, cluster, free, count, oneZone, n) then
      && e.Pairs? && |e.rails| == count
      && Fewest(pod, namespace, cluster, free, count, oneZone, e.node)
      && Selected(Items(free[e.node]), count, oneZone, cfg.maxPairsPerNUMA, e.rails)
    else e.Refused?
  }

  ghost predicate RailsDecided(cfg: Config, inv: Inventory, live: Pending, pod: Pod, namespace: string,
                               cluster: Cluster, count: nat, oneZone: bool, e: Event) {
    if inv.slices.Some? && CanFilter(pod, cluster) then
      exists slots, free ::
        && IsScan(cfg, inv, inv.slices.value, slots) && IsFree(slots, live, free)
        && RailsChosen(cfg, pod, namespace, cluster, free, count, oneZone, e)
    else e.Refused?
  }

  ghost predicate ExplicitDecided(cfg: Config, inv: Inventory, live: Pending, pod: Pod, namespace: string,
                                  cluster: Cluster, count: nat, oneZone: bool, e: Event) {
    if cfg.pairing.Some? && CanFilter(pod, cluster) && inv.slices.Some? &&
       exists n, f :: CanGive(cfg, cfg.pairing.value, inv, live, pod, namespace, cluster, count, oneZone, n, f)
    then
      && e.Explicit? && |e.indices| == count
      && exists c: Candidate ::
           && c.node.name == e.node && PoolOf(cfg.pairing.value, c.node.labels) == Some(c.pool)
           && LeastPairs(cfg, cfg.pairing.value, inv, live, pod, namespace, cluster, count, oneZone, c.node,
                         c.available)
           && Selected(PairItems(c.pool, c.available), count, oneZone, cfg.maxPairsPerNUMA, e.indices)
    else e.Refused?
  }

  ghost predicate DevicesChosen(pod: Pod, namespace: string, cluster: Cluster, free: map<string, int>, count: nat,
                                cls: string, constrainTo: string, e: Event) {
    if constrainTo != "" then
      if CountOn(free, constrainTo) >= count then
        e.Extended? && e.cls == cls && e.count == count && e.node == constrainTo
      else e.Refused?
    else if CanFilter(pod, cluster) && exists n :: HasDevices(pod, namespace, cluster, free, count, n) then
      && e.Extended? && e.cls == cls && e.count == count
      && HasDevices(pod, namespace, cluster, free, count, e.node)
      && forall m :: HasDevices(pod, namespace, cluster, free, count, m) ==> free[e.node] <= free[m]
    else e.Refused?
  }

  ghost predicate DevicesDecided(inv: Inventory, live: Pending, pod: Pod, namespace: string, cluster: Cluster,
                                 count: nat, cls: string, constrainTo: string, e: Event) {
    if inv.slices.Some? then
      exists counts, free ::
        && IsCount(inv, cls, counts) && IsLessHeld(counts, live, cls, free)
        && DevicesChosen(pod, namespace, cluster, free, count, cls, constrainTo, e)
        && (e.Extended? ==> e.scanned == CountOn(counts, e.node))
    else e.Refused?
  }

  // Each rail is offered by one device of the node at most.
  ghost predicate RailsListedOnce(cfg: Config, inv: Inventory, node: string)
    requires inv.slices.Some?
  {
    OfferedOnce(cfg, inv, node, DevicesOn(inv.slices.value, node))
  }

  ghost predicate OfferedOnce(cfg: Config, inv: Inventory, node: string, devices: seq<Device>) {
    forall i, j, s, t :: 0 <= i < j < |devices| ==>
      Offers(cfg, inv, node, devices[i], s) && Offers(cfg, inv, node, devices[j], t) ==> s.rail != t.rail
  }

  lemma {:induction false} ListedOnce(cfg: Config, inv: Inventory, node: string, devices: seq<Device>,
                                      slots: seq<Slot>)
    requires Lists(cfg, inv, node, devices, slots)
    requires OfferedOnce(cfg, inv, node, devices)
    ensures UniqueIds(Items(slots))
  {
    if devices != [] {
      var n := |devices| - 1;
      if CanOffer(cfg, inv, node, devices[n]) {
        var m := |slots| - 1;
        ListedOnce(cfg, inv, node, devices[..n], slots[..m]);
        LastListedOnce(cfg, inv, node, devices, slots);
        UniqueIdsSnoc(slots);
      } else {
        ListedOnce(cfg, inv, node, devices[..n], slots);
      }
    }
  }

  lemma LastListedOnce(cfg: Config, inv: Inventory, node: string, devices: seq<Device>, slots: seq<Slot>)
    requires devices != [] && slots != []
    requires Offers(cfg, inv, node, devices[|devices| - 1], slots[|slots| - 1])
    requires Lists(cfg, inv, node, devices[..|devices| - 1], slots[..|slots| - 1])
    requires OfferedOnce(cfg, inv, node, devices)
    ensures forall k :: 0 <= k < |slots| - 1 ==> slots[k].rail != slots[|slots| - 1].rail
  {
    var n, m := |devices| - 1, |slots| - 1;
    forall k | 0 <= k < m
      ensures slots[k].rail != slots[m].rail
    {
      ListedIsOffered(cfg, inv, node, devices[..n], slots[..m], slots[..m][k]);
      var d :| d in devices[..n] && Offers(cfg, inv, node, d, slots[k]);
      var i :| 0 <= i < n && devices[..n][i] == d;
      assert devices[i] == d;
    }
  }

  lemma UniqueIdsSnoc(slots: seq<Slot>)
    requires slots != [] && UniqueIds(Items(slots[..|slots| - 1]))
    requires forall k :: 0 <= k < |slots| - 1 ==> slots[k].rail != slots[|slots| - 1].rail
    ensures UniqueIds(Items(slots))
  {
    var m := |slots| - 1;
    forall i, j | 0 <= i < j < |slots|
      ensures Items(slots)[i].id != Items(slots)[j].id
    {
      assert j < m ==> Items(slots[..m])[i].id != Items(slots[..m])[j].id;
    }
  }

  // What a grant of rails is: on a named, admissible node, of configured rails,
  // none reserved and none twice when each is offered by one device only
  lemma RailsGranted(cfg: Config, inv: Inventory, live: Pending, pod: Pod, namespace: string, cluster: Cluster,
                     count: nat, oneZone: bool, e: Event)
    requires RailsDecided(cfg, inv, live, pod, namespace, cluster, count, oneZone, e) && e.Pairs? && count > 0
    ensures inv.slices.Some? && e.node != "" && Admits(pod, namespace, cluster, e.node) && |e.rails| == count
    ensures forall r :: r in e.rails ==> r < RailCount(cfg) && r !in Blocked(live, e.node)
    ensures RailsListedOnce(cfg, inv, e.node) ==> NoRepeats(e.rails)
  {
    var slots, free :| IsScan(cfg, inv, inv.slices.value, slots) && IsFree(slots, live, free) &&
      RailsChosen(cfg, pod, namespace, cluster, free, count, oneZone, e);
    GrantedRails(cfg, inv, slots, live, free, e.node, count, oneZone, e.rails);
    assert e.rails[0] in e.rails;
    if RailsListedOnce(cfg, inv, e.node) {
      ListedOnce(cfg, inv, e.node, DevicesOn(inv.slices.value, e.node), SlotsOn(slots, e.node));
    }
  }

  class Allocator {
    const cfg: Config
    const clock: Clock
    const ttl: nat
    var pending: Pending
    // The calls since the pending map was last empty
    ghost var history: seq<Event>

    ghost predicate Valid()
      reads this, clock
    {
      && IsRun(history, ttl)
      && Until(history, clock.now)
      && pending == Replay(history, ttl)
    }

    constructor (cfg: Config, clock: Clock)
      ensures Valid() && this.cfg == cfg && this.clock == clock
      ensures ttl == PENDING_TTL && pending == map[] && history == []
    {
      this.cfg := cfg;
      this.clock := clock;
      ttl := PENDING_TTL;
      pending := map[];
      history := [];
    }

    method ClearPending()
      modifies this
      ensures Valid() && pending == map[] && history == []
    {
      pending := map[];
      history := [];
    }

    // expirePending
    method ExpirePending() returns (at: int)
      modifies this`pending, clock
      ensures old(clock.now) <= at == clock.now
      ensures pending == Live(old(pending), at, ttl)
    {
      at := clock.Read();
      var cutoff := at - ttl;
      var before := pending;
      var left := before.Keys;
      while left != {}
        invariant left <= before.Keys
        invariant clock.now == at
        invariant pending == map k | k in before && (k in left || !(before[k] < cutoff)) :: before[k]
        decreases left
      {
        var key := AnyOf(left);
        left := left - {key};
        if before[key] < cutoff {
          pending := pending - {key};
        }
      }
    }

    // Writes the reservation of a call into the history.
    ghost method Record(before: Pending, e: Event)
      requires IsRun(history, ttl) && Until(history, e.start) && e.start <= e.stamp <= clock.now
      requires before == Replay(history, ttl) && pending == After(before, e, ttl) && Admitted(before, e, ttl)
      modifies this`history
      ensures Valid() && history == old(history) + [e]
    {
      RunExtend(history, e, ttl);
      history := history + [e];
    }

    ghost method RecordRefusal(before: Pending, start: int) returns (e: Event)
      requires IsRun(history, ttl) && Until(history, start) && start <= clock.now
      requires before == Replay(history, ttl) && pending == Live(before, start, ttl)
      modifies this`history
      ensures Valid() && e == Refused(start, start) && history == old(history) + [e]
    {
      e := Refused(start, start);
      StampNothing(pending, start);
      Record(before, e);
    }

    // ---- Allocate -----------------------------------------------------------

    // Drops from every node the slots whose rail a pending key names.
    method RemovePending(slots: Slots) returns (free: Slots)
      ensures IsFree(slots, pending, free)
    {
      free := slots;
      var left := pending.Keys;
      ghost var done: set<string> := {};
      forall n
        ensures SlotsOn(free, n) == FreeSlots(SlotsOn(slots, n), RailsRead(done, n))
      {
        NothingBlocked(SlotsOn(slots, n));
        assert RailsRead({}, n) == {};
      }
      while left != {}
        invariant left <= pending.Keys && done == pending.Keys - left
        invariant free.Keys == slots.Keys + NodesRead(done)
        invariant forall n :: SlotsOn(free, n) == FreeSlots(SlotsOn(slots, n), RailsRead(done, n))
        decreases left
      {
        var key := AnyOf(left);
        ghost var before, seen := free, done;
        left := left - {key};
        done := done + {key};
        var read := ReadPair(key);
        if read.Some? {
          var node, rail := read.value.0, read.value.1;
          var kept := DropRail(SlotsOn(free, node), rail);
          free := free[node := kept];
          forall n
            ensures SlotsOn(free, n) == FreeSlots(SlotsOn(slots, n), RailsRead(done, n))
          {
            if n == node {
              FreeSlotsTwice(SlotsOn(slots, n), RailsRead(seen, n), {rail});
              assert RailsRead(done, n) == RailsRead(seen, n) + {rail};
            } else {
              assert RailsRead(done, n) == RailsRead(seen, n);
            }
          }
        } else {
          forall n
            ensures RailsRead(done, n) == RailsRead(seen, n)
          {
          }
        }
      }
      assert done == pending.Keys;
    }

    static method DropRail(slots: seq<Slot>, rail: int) returns (kept: seq<Slot>)
      ensures kept == FreeSlots(slots, {rail})
    {
      kept := [];
      for i := 0 to |slots|
        invariant kept == FreeSlots(slots[..i], {rail})
      {
        assert slots[..i + 1][..i] == slots[..i];
        if slots[i].rail != rail {
          kept := kept + [slots[i]];
        }
      }
      assert slots[..|slots|] == slots;
    }

    // selectSlots
    method SelectRails(slots: seq<Slot>, count: nat, oneZone: bool) returns (rails: seq<nat>)
      ensures |rails| >= count <==> CanSupply(Items(slots), count, oneZone)
      ensures |rails| >= count ==> |rails| == count &&
                                   Selected(Items(slots), count, oneZone, cfg.maxPairsPerNUMA, rails)
    {
      rails := Select(Items(slots), count, oneZone, cfg.maxPairsPerNUMA);
    }

    // Steps 3 to 5 of Allocate: filter the nodes, rank them by free slots and
    // take the first one that can supply the request.
    method ChooseRails(pod: Pod, namespace: string, count: nat, oneZone: bool, free: Slots, cluster: Cluster)
      returns (r: Result<Allocation>)
      ensures r.Ok? <==>
        CanFilter(pod, cluster) && exists n :: Feasible(pod, namespace, cluster, free, count, oneZone, n)
      ensures r.Ok? ==> Fewest(pod, namespace, cluster, free, count, oneZone, r.value.node)
      ensures r.Ok? ==> |r.value.rails| == count
      ensures r.Ok? ==> Selected(Items(free[r.value.node]), count, oneZone, cfg.maxPairsPerNUMA, r.value.rails)
    {
      var candidates := FilterNodesByConstraints(pod, namespace, free.Keys, cluster);
      if candidates.Err? || candidates.value == [] {
        return Err("no candidate nodes satisfy pod scheduling constraints");
      }
      var ranked := SortByKey(candidates.value, (n: string) => |SlotsOn(free, n)|);
      PermutationFacts(ranked, candidates.value);
      for i := 0 to |ranked|
        invariant forall k :: 0 <= k < i ==> !Feasible(pod, namespace, cluster, free, count, oneZone, ranked[k])
      {
        var node := ranked[i];
        assert node in candidates.value;
        var rails := SelectRails(free[node], count, oneZone);
        if |rails| >= count {
          assert Feasible(pod, namespace, cluster, free, count, oneZone, node);
          return Ok(Allocation(node, rails));
        }
      }
      forall n
        ensures !Feasible(pod, namespace, cluster, free, count, oneZone, n)
      {
        assert n in ranked <==> n in candidates.value;
      }
      r := Err("no node has enough available GPU-NIC pairs with given constraints");
    }

    // Fails exactly when no node can supply the request; otherwise grants the
    // fullest feasible node the selection of its free slots, and reserves it.
    // free is what the scan found less the live reservations.
    method Allocate(pod: Pod, namespace: string, count: nat, numaConstrained: bool, inv: Inventory, cluster: Cluster)
      returns (r: Result<Allocation>, ghost e: Event, ghost free: Slots)
      requires Valid()
      modifies this, clock
      ensures Valid() && history == old(history) + [e] && old(clock.now) <= e.start
      ensures inv.slices.Some? ==> exists slots :: IsScan(cfg, inv, inv.slices.value, slots) &&
                                                   IsFree(slots, Live(old(pending), e.start, ttl), free)
      ensures var oneZone := numaConstrained && !cfg.disableNUMAPacking;
        && (r.Ok? <==> inv.slices.Some? && CanFilter(pod, cluster) &&
                       exists n :: Feasible(pod, namespace, cluster, free, count, oneZone, n))
        && (r.Ok? ==> Fewest(pod, namespace, cluster, free, count, oneZone, r.value.node) &&
                      Selected(Items(free[r.value.node]), count, oneZone, cfg.maxPairsPerNUMA, r.value.rails) &&
                      |r.value.rails| == count)
      ensures if r.Ok? then e == Pairs(e.start, e.stamp, r.value.node, r.value.rails) else e.Refused?
    {
      ghost var before := pending;
      var start := ExpirePending();
      free := map[];
      var scan := ScanAvailableSlots(cfg, inv);
      if scan.Err? {
        e := RecordRefusal(before, start);
        return Err("failed to scan cluster"), e, free;
      }
      var nodeSlots := RemovePending(scan.value);
      free := nodeSlots;
      var oneZone := numaConstrained && !cfg.disableNUMAPacking;
      r := ChooseRails(pod, namespace, count, oneZone, nodeSlots, cluster);
      if r.Err? {
        e := RecordRefusal(before, start);
      } else {
        AvoidsBlocked(SlotsOn(scan.value, r.value.node), Blocked(pending, r.value.node), count, oneZone,
                      cfg.maxPairsPerNUMA, r.value.rails);
        e := ReserveRails(before, start, r.value.node, r.value.rails);
      }
    }

    // Stamps the chosen rails.
    method ReserveRails(ghost before: Pending, ghost start: int, node: string, rails: seq<nat>)
      returns (ghost e: Event)
      requires IsRun(history, ttl) && Until(history, start) && start <= clock.now
      requires before == Replay(history, ttl) && pending == Live(before, start, ttl)
      requires forall rail :: rail in rails ==> rail !in Blocked(pending, node)
      modifies this, clock
      ensures Valid() && history == old(history) + [e] && e == Pairs(start, e.stamp, node, rails)
    {
      ghost var live := pending;
      var now := clock.Read();
      ghost var keys: set<string> := {};
      StampNothing(live, now);
      for i := 0 to |rails|
        invariant history == old(history) && clock.now == now
        invariant keys == set rail | rail in rails[..i] :: PairKey(node, rail)
        invariant pending == Stamped(live, keys, now)
      {
        assert rails[..i + 1] == rails[..i] + [rails[i]];
        StampOneMore(live, keys, PairKey(node, rails[i]), now);
        keys := keys + {PairKey(node, rails[i])};
        pending := pending[PairKey(node, rails[i]) := now];
      }
      assert rails[..|rails|] == rails;
      e := Pairs(start, now, node, rails);
      Record(before, e);
    }

    // ---- AllocateExplicit ---------------------------------------------------

    ghost predicate IsCandidate(pairing: Pairing, pod: Pod, count: nat, inv: Inventory, nodes: seq<Node>, c: Candidate)
      requires inv.slices.Some?
      reads this`pending
    {
      && c.node in nodes && PoolOf(pairing, c.node.labels) == Some(c.pool) && |c.available| >= count
      && MatchesNodeSelector(pod, c.node) && MatchesNodeAffinity(pod, c.node)
      && FreePairs(cfg, pairing, inv.slices.value, pending, c.node.name, c.pool, c.available)
    }

    // The nodes with enough free pairs; the first loop of AllocateExplicit
    method ListCandidates(pairing: Pairing, pod: Pod, count: nat, inv: Inventory, nodes: seq<Node>)
      returns (candidates: seq<Candidate>)
      ensures inv.slices.None? ==> candidates == []
      ensures inv.slices.Some? ==>
        forall c :: c in candidates <==> IsCandidate(pairing, pod, count, inv, nodes, c)
    {
      candidates := [];
      for i := 0 to |nodes|
        invariant inv.slices.None? ==> candidates == []
        invariant inv.slices.Some? ==>
          forall c :: c in candidates <==> IsCandidate(pairing, pod, count, inv, nodes[..i], c)
      {
        var node := nodes[i];
        assert nodes[..i + 1] == nodes[..i] + [node];
        var pool := PoolOf(pairing, node.labels);
        if pool.None? || !MatchesNodeSelector(pod, node) || !MatchesNodeAffinity(pod, node) {
          continue;
        }
        var usable := ScanExplicitAvailability(cfg, pairing, inv, pool.value, node.name);
        if usable.Err? {
          continue;
        }
        var filtered := NotPending(node.name, usable.value);
        assert FreePairs(cfg, pairing, inv.slices.value, pending, node.name, pool.value, filtered);
        forall free | FreePairs(cfg, pairing, inv.slices.value, pending, node.name, pool.value, free)
          ensures free == filtered
        {
          SameIncreasing(free, filtered);
        }
        if |filtered| >= count {
          candidates := candidates + [Candidate(node, pool.value, filtered)];
        }
      }
      assert nodes[..|nodes|] == nodes;
    }

    method NotPending(node: string, usable: seq<nat>) returns (filtered: seq<nat>)
      requires Increasing(usable)
      ensures Increasing(filtered)
      ensures forall i: nat :: i in filtered <==> i in usable && ExplicitKey(node, i) !in pending
    {
      filtered := [];
      for k := 0 to |usable|
        invariant Increasing(filtered)
        invariant forall i: nat :: i in filtered <==> i in usable[..k] && ExplicitKey(node, i) !in pending
      {
        assert usable[..k + 1] == usable[..k] + [usable[k]];
        if ExplicitKey(node, usable[k]) !in pending {
          assert forall j :: 0 <= j < |filtered| ==> filtered[j] in usable[..k];
          filtered := filtered + [usable[k]];
        }
      }
      assert usable[..|usable|] == usable;
    }

    // Constraint filtering, ranking and selection of AllocateExplicit
    method ChoosePairs(pairing: Pairing, pod: Pod, namespace: string, count: nat, oneZone: bool, inv: Inventory,
                       cluster: Cluster, nodes: seq<Node>)
      returns (choice: Option<Candidate>, indices: seq<nat>)
      requires cluster.nodes == Some(nodes)
      ensures choice.Some? <==>
        && CanFilter(pod, cluster) && inv.slices.Some?
        && exists n, f :: CanGive(cfg, pairing, inv, pending, pod, namespace, cluster, count, oneZone, n, f)
      ensures choice.Some? ==>
        && PoolOf(pairing, choice.value.node.labels) == Some(choice.value.pool)
        && LeastPairs(cfg, pairing, inv, pending, pod, namespace, cluster, count, oneZone, choice.value.node,
                      choice.value.available)
        && |indices| == count
        && Selected(PairItems(choice.value.pool, choice.value.available), count, oneZone, cfg.maxPairsPerNUMA, indices)
    {
      indices := [];
      var candidates := ListCandidates(pairing, pod, count, inv, nodes);
      forall n, f | CanGive(cfg, pairing, inv, pending, pod, namespace, cluster, count, oneZone, n, f)
        ensures Candidate(n, PoolOf(pairing, n.labels).value, f) in candidates
      {
      }
      if candidates == [] {
        return None, indices;
      }
      var names := set c | c in candidates :: c.node.name;
      var filtered := FilterNodesByConstraints(pod, namespace, names, cluster);
      if filtered.Err? {
        return None, indices;
      }
      var ranked := SortByKey(candidates, (c: Candidate) => |c.available|);
      PermutationFacts(ranked, candidates);
      assert Ascending(ranked, (c: Candidate) => |c.available|);
      choice, indices := FirstAble(pairing, pod, namespace, count, oneZone, inv, cluster, ranked, filtered.value);
    }

    // The first ranked candidate that passed the filter and can give the pairs
    method FirstAble(pairing: Pairing, pod: Pod, namespace: string, count: nat, oneZone: bool, inv: Inventory,
                     cluster: Cluster, ranked: seq<Candidate>, filtered: seq<string>)
      returns (choice: Option<Candidate>, indices: seq<nat>)
      requires cluster.nodes.Some? && inv.slices.Some?
      requires forall i, j :: 0 <= i < j < |ranked| ==> |ranked[i].available| <= |ranked[j].available|
      requires forall c :: c in ranked ==> IsCandidate(pairing, pod, count, inv, cluster.nodes.value, c)
      requires forall n, f :: CanGive(cfg, pairing, inv, pending, pod, namespace, cluster, count, oneZone, n, f) ==>
        Candidate(n, PoolOf(pairing, n.labels).value, f) in ranked
      requires forall c :: c in ranked ==> (c.node.name in filtered <==> Admits(pod, namespace, cluster, c.node.name))
      ensures choice.Some? <==>
        exists n, f :: CanGive(cfg, pairing, inv, pending, pod, namespace, cluster, count, oneZone, n, f)
      ensures choice.Some? ==>
        && PoolOf(pairing, choice.value.node.labels) == Some(choice.value.pool)
        && LeastPairs(cfg, pairing, inv, pending, pod, namespace, cluster, count, oneZone, choice.value.node,
                      choice.value.available)
        && |indices| == count
        && Selected(PairItems(choice.value.pool, choice.value.available), count, oneZone, cfg.maxPairsPerNUMA, indices)
    {
      indices := [];
      for i := 0 to |ranked|
        invariant forall k :: 0 <= k < i ==>
          !CanGive(cfg, pairing, inv, pending, pod, namespace, cluster, count, oneZone, ranked[k].node,
                   ranked[k].available)
      {
        var c := ranked[i];
        assert c in ranked;
        if c.node.name !in filtered {
          continue;
        }
        indices := Select(PairItems(c.pool, c.available), count, oneZone, cfg.maxPairsPerNUMA);
        if |indices| < count {
          continue;
        }
        forall n, f | CanGive(cfg, pairing, inv, pending, pod, namespace, cluster, count, oneZone, n, f)
          ensures |c.available| <= |f|
        {
          var other := Candidate(n, PoolOf(pairing, n.labels).value, f);
          var k :| 0 <= k < |ranked| && ranked[k] == other;
        }
        assert CanGive(cfg, pairing, inv, pending, pod, namespace, cluster, count, oneZone, c.node, c.available);
        return Some(c), indices;
      }
      forall n, f
        ensures !CanGive(cfg, pairing, inv, pending, pod, namespace, cluster, count, oneZone, n, f)
      {
      }
      choice := None;
    }

    // Fails exactly when no node can give the pairs; otherwise grants the node
    // with the fewest free pairs among those that can, and reserves the pairs.
    method AllocateExplicit(pod: Pod, namespace: string, count: nat, numaConstrained: bool, inv: Inventory,
                            cluster: Cluster)
      returns (r: Result<ExplicitAllocation>, ghost e: Event, ghost choice: Option<Candidate>)
      requires Valid()
      modifies this, clock
      ensures Valid() && history == old(history) + [e] && old(clock.now) <= e.start
      ensures r.Ok? <==>
        && cfg.pairing.Some? && CanFilter(pod, cluster) && inv.slices.Some?
        && exists n, f :: CanGive(cfg, cfg.pairing.value, inv, Live(old(pending), e.start, ttl), pod, namespace,
                                  cluster, count, numaConstrained, n, f)
      ensures r.Ok? ==> choice.Some? && r.value.node == choice.value.node.name
      ensures r.Ok? ==>
        && PoolOf(cfg.pairing.value, choice.value.node.labels) == Some(choice.value.pool)
        && LeastPairs(cfg, cfg.pairing.value, inv, Live(old(pending), e.start, ttl), pod, namespace, cluster, count,
                      numaConstrained, choice.value.node, choice.value.available)
      ensures r.Ok? ==>
        && e.Explicit? && e.node == r.value.node && |e.indices| == count
        && Selected(PairItems(choice.value.pool, choice.value.available), count, numaConstrained, cfg.maxPairsPerNUMA,
                    e.indices)
        && Describes(choice.value.pool, e.indices, r.value.pairs)
      ensures r.Err? ==> e.Refused?
    {
      ghost var before := pending;
      var start := ExpirePending();
      choice := None;
      if cfg.pairing.None? || cluster.nodes.None? {
        e := RecordRefusal(before, start);
        return Err("explicit pairing config not set, or failed to list nodes"), e, choice;
      }
      var chosen, indices := ChoosePairs(cfg.pairing.value, pod, namespace, count, numaConstrained, inv, cluster,
                                         cluster.nodes.value);
      choice := chosen;
      if chosen.None? {
        e := RecordRefusal(before, start);
        return Err("no node satisfies scheduling constraints with enough available explicit pairs"), e, choice;
      }
      var c := chosen.value;
      PairsAreFree(cfg, cfg.pairing.value, inv, pending, pod, namespace, cluster, count, numaConstrained, c, indices);
      var pairs: seq<ChosenPair>;
      pairs, e := ReservePairs(before, start, c.node.name, c.pool, indices);
      r := Ok(ExplicitAllocation(c.node.name, pairs));
    }

    // Stamps the chosen pairs and describes them.
    method ReservePairs(ghost before: Pending, ghost start: int, node: string, pool: NodePool, indices: seq<nat>)
      returns (pairs: seq<ChosenPair>, ghost e: Event)
      requires IsRun(history, ttl) && Until(history, start) && start <= clock.now
      requires before == Replay(history, ttl) && pending == Live(before, start, ttl)
      requires forall k :: 0 <= k < |indices| ==> indices[k] < |pool.pairs| && ExplicitKey(node, indices[k]) !in pending
      requires NoRepeats(indices)
      modifies this, clock
      ensures Valid() && history == old(history) + [e] && e == Explicit(start, e.stamp, node, indices)
      ensures Describes(pool, indices, pairs)
    {
      ghost var live := pending;
      var now := clock.Read();
      pairs := [];
      ghost var keys: set<string> := {};
      StampNothing(live, now);
      for i := 0 to |indices|
        invariant history == old(history) && clock.now == now
        invariant keys == set k | k in indices[..i] :: ExplicitKey(node, k)
        invariant pending == Stamped(live, keys, now)
        invariant Describes(pool, indices[..i], pairs)
      {
        assert indices[..i + 1] == indices[..i] + [indices[i]];
        var key := ExplicitKey(node, indices[i]);
        var pair := pool.pairs[indices[i]];
        DescribesOneMore(pool, indices, i, pairs);
        pairs := pairs + [ChosenPair(pair.devices, pair.rail, i)];
        StampOneMore(live, keys, key, now);
        keys := keys + {key};
        pending := pending[key := now];
      }
      assert indices[..|indices|] == indices;
      e := Explicit(start, now, node, indices);
      assert Keys(e) == keys;
      Record(before, e);
    }

    // ---- AllocateExtendedResource -------------------------------------------

    // Takes one device off a node for each pending key of the class there.
    method SubtractHeld(counts: map<string, int>, cls: string) returns (free: map<string, int>)
      ensures IsLessHeld(counts, pending, cls, free)
    {
      free := counts;
      var left := pending.Keys;
      ghost var done: set<string> := {};
      while left != {}
        invariant left <= pending.Keys && done == pending.Keys - left
        invariant IsLessRead(counts, done, cls, free)
        decreases left
      {
        var key := AnyOf(left);
        left := left - {key};
        OneHeldMore(counts, done, key, cls, free);
        done := done + {key};
        var read := ReadExt(key);
        if read.Some? && read.value.0 == cls {
          var node := read.value.1;
          if node in free && free[node] > 0 {
            free := free[node := free[node] - 1];
          }
        }
      }
      assert done == pending.Keys;
    }

    // Constraint filtering and ranking of AllocateExtendedResource
    method ChooseNode(pod: Pod, namespace: string, count: nat, free: map<string, int>, cluster: Cluster)
      returns (r: Result<string>)
      ensures r.Ok? <==> CanFilter(pod, cluster) && exists n :: HasDevices(pod, namespace, cluster, free, count, n)
      ensures r.Ok? ==> HasDevices(pod, namespace, cluster, free, count, r.value)
      ensures r.Ok? ==> forall m :: HasDevices(pod, namespace, cluster, free, count, m) ==> free[r.value] <= free[m]
    {
      var names := set n | n in free && free[n] >= count;
      var candidates := FilterNodesByConstraints(pod, namespace, names, cluster);
      if candidates.Err? {
        return Err(candidates.reason);
      }
      assert forall n :: HasDevices(pod, namespace, cluster, free, count, n) <==> n in candidates.value;
      if candidates.value == [] {
        return Err("no node has enough available devices satisfying scheduling constraints");
      }
      var ranked := SortByKey(candidates.value, (n: string) => CountOn(free, n));
      PermutationFacts(ranked, candidates.value);
      assert ranked[0] in candidates.value;
      assert HasDevices(pod, namespace, cluster, free, count, ranked[0]);
      r := Ok(ranked[0]);
    }

    // With a node given, only the count there matters; otherwise the grant goes
    // to the node with the fewest free devices among those that fit.
    method AllocateExtendedResource(pod: Pod, namespace: string, count: nat, cls: string, constrainTo: string,
                                    inv: Inventory, cluster: Cluster)
      returns (r: Result<string>, ghost e: Event, ghost free: map<string, int>)
      requires Valid()
      modifies this, clock
      ensures Valid() && history == old(history) + [e] && old(clock.now) <= e.start
      ensures inv.slices.Some? ==> exists counts ::
        && IsCount(inv, cls, counts) && IsLessHeld(counts, Live(old(pending), e.start, ttl), cls, free)
        && (r.Ok? ==> e.Extended? && e.scanned == CountOn(counts, r.value))
      ensures constrainTo != "" ==>
        && (r.Ok? <==> inv.slices.Some? && CountOn(free, constrainTo) >= count)
        && (r.Ok? ==> r.value == constrainTo)
      ensures constrainTo == "" ==>
        && (r.Ok? <==> inv.slices.Some? && CanFilter(pod, cluster) &&
                       exists n :: HasDevices(pod, namespace, cluster, free, count, n))
        && (r.Ok? ==> HasDevices(pod, namespace, cluster, free, count, r.value) &&
                      forall m :: HasDevices(pod, namespace, cluster, free, count, m) ==> free[r.value] <= free[m])
      ensures if r.Ok? then e.Extended? && e.cls == cls && e.node == r.value && e.count == count else e.Refused?
    {
      ghost var before := pending;
      var start := ExpirePending();
      free := map[];
      var scan := ScanAvailableDevices(inv, cls);
      if scan.Err? {
        e := RecordRefusal(before, start);
        return Err("failed to scan devices"), e, free;
      }
      var nodeDevices := SubtractHeld(scan.value, cls);
      free := nodeDevices;
      if constrainTo != "" {
        r := if CountOn(nodeDevices, constrainTo) < count then Err("node has too few available devices")
             else Ok(constrainTo);
      } else {
        r := ChooseNode(pod, namespace, count, nodeDevices, cluster);
      }
      if r.Err? {
        e := RecordRefusal(before, start);
      } else {
        e := ReserveDevices(before, start, cls, r.value, count, CountOn(scan.value, r.value));
      }
    }

    // Stamps the indices 0 to count - 1 of a class on a node.
    method ReserveDevices(ghost before: Pending, ghost start: int, cls: string, node: string, count: nat,
                          ghost scanned: int)
      returns (ghost e: Event)
      requires IsRun(history, ttl) && Until(history, start) && start <= clock.now
      requires before == Replay(history, ttl) && pending == Live(before, start, ttl)
      requires count > 0 ==> scanned >= count + |Held(pending, cls, node)|
      modifies this, clock
      ensures Valid() && history == old(history) + [e]
      ensures e == Extended(start, e.stamp, cls, node, count, scanned)
    {
      ghost var live := pending;
      var now := clock.Read();
      ghost var keys: set<string> := {};
      StampNothing(live, now);
      for i := 0 to count
        invariant history == old(history) && clock.now == now
        invariant keys == set k: nat | 0 <= k < i :: ExtKey(cls, node, k)
        invariant pending == Stamped(live, keys, now)
      {
        StampOneMore(live, keys, ExtKey(cls, node, i), now);
        keys := keys + {ExtKey(cls, node, i)};
        pending := pending[ExtKey(cls, node, i) := now];
      }
      e := Extended(start, now, cls, node, count, scanned);
      assert Keys(e) == keys;
      Record(before, e);
    }
  }

  lemma OneKeyMore(done: set<string>, key: string, cls: string, node: string)
    requires key !in done
    ensures |ExtRead(done + {key}, cls, node)| ==
      |ExtRead(done, cls, node)| + (if ReadExt(key) == Some((cls, node)) then 1 else 0)
  {
    if ReadExt(key) == Some((cls, node)) {
      assert ExtRead(done + {key}, cls, node) == ExtRead(done, cls, node) + {key};
    } else {
      assert ExtRead(done + {key}, cls, node) == ExtRead(done, cls, node);
    }
  }

  // ---- what a reservation takes from the next call --------------------------

  // Taking reserved rails away is what Without does to the items.
  lemma {:induction false} FreeItems(slots: seq<Slot>, blocked: set<int>, ids: seq<nat>)
    requires forall s :: s in slots ==> (s.rail in blocked <==> s.rail in ids)
    ensures Items(FreeSlots(slots, blocked)) == Without(Items(slots), ids)
  {
    if slots != [] {
      var n := |slots| - 1;
      assert Items(slots)[..n] == Items(slots[..n]);
      FreeItems(slots[..n], blocked, ids);
    }
  }

  // While a grant of rails is remembered, the next call sees of the node what
  // this one saw without the granted rails.
  lemma GrantTakesItems(slots: seq<Slot>, blocked: set<int>, rails: seq<nat>)
    ensures Items(FreeSlots(slots, blocked + RailSet(rails))) ==
      Without(Items(FreeSlots(slots, blocked)), rails)
  {
    FreeSlotsTwice(slots, blocked, RailSet(rails));
    FreeItems(FreeSlots(slots, blocked), RailSet(rails), rails);
  }

  function RailSet(rails: seq<nat>): set<int> {
    set r: int | r in rails
  }

  // So a small single-zone grant on a node shrinks the largest zone the next
  // call sees there only when just one zone could host it.
  lemma NextCallSeesLargestZone(slots: seq<Slot>, blocked: set<int>, count: nat, maxPerZone: int, rails: seq<nat>,
                                before: nat, after: nat, z1: int, z2: int)
    requires var items := Items(FreeSlots(slots, blocked));
      && Selected(items, count, true, maxPerZone, rails) && InOneZone(items, rails) && 0 < count < maxPerZone
      && LargestZone(items, before) && Eligible(items, z1, count) && Eligible(items, z2, count)
    requires LargestZone(Items(FreeSlots(slots, blocked + RailSet(rails))), after) && after < before
    ensures z1 == z2
  {
    GrantTakesItems(slots, blocked, rails);
    SmallGrantKeepsLargestZone(Items(FreeSlots(slots, blocked)), count, maxPerZone, rails, before, after, z1, z2);
  }

  // ---- what selections of free devices avoid --------------------------------

  lemma AvoidsBlocked(slots: seq<Slot>, blocked: set<int>, count: nat, oneZone: bool, maxPerZone: int, rails: seq<nat>)
    requires Selected(Items(FreeSlots(slots, blocked)), count, oneZone, maxPerZone, rails)
    ensures forall rail :: rail in rails ==> rail !in blocked
  {
    var free := FreeSlots(slots, blocked);
    SelectedFromItems(Items(free), count, oneZone, maxPerZone, rails);
    forall rail | rail in rails
      ensures rail !in blocked
    {
      var zone :| Item(zone, rail) in Items(free);
      var i :| 0 <= i < |free| && Items(free)[i] == Item(zone, rail);
      FreeSlotsMembers(slots, blocked, free[i]);
    }
  }

  lemma {:induction false} FreeKeepsRailsUnique(slots: seq<Slot>, blocked: set<int>)
    requires UniqueIds(Items(slots))
    ensures UniqueIds(Items(FreeSlots(slots, blocked)))
  {
    if slots != [] {
      var n := |slots| - 1;
      assert Items(slots[..n]) == Items(slots)[..n];
      FreeKeepsRailsUnique(slots[..n], blocked);
      var free := FreeSlots(slots[..n], blocked);
      forall i | 0 <= i < |free|
        ensures free[i].rail != slots[n].rail
      {
        FreeSlotsMembers(slots[..n], blocked, free[i]);
        var k :| 0 <= k < n && slots[..n][k] == free[i];
        assert Items(slots)[k].id != Items(slots)[n].id;
      }
      forall i, j | 0 <= i < j < |FreeSlots(slots, blocked)|
        ensures FreeSlots(slots, blocked)[i].rail != FreeSlots(slots, blocked)[j].rail
      {
        if j < |free| {
          assert Items(free)[i].id != Items(free)[j].id;
        }
      }
    }
  }

  // A grant never names a rail twice when the scan of its node lists each rail
  // at most once, and every rail of it is a configured one that a claim can be
  // satisfied with on that node, by a device no claim is using.
  lemma GrantedRails(cfg: Config, inv: Inventory, slots: Slots, live: Pending, free: Slots, node: string, count: nat,
                     oneZone: bool, rails: seq<nat>)
    requires inv.slices.Some? && IsScan(cfg, inv, inv.slices.value, slots) && IsFree(slots, live, free)
    requires Selected(Items(SlotsOn(free, node)), count, oneZone, cfg.maxPairsPerNUMA, rails)
    ensures UniqueIds(Items(SlotsOn(slots, node))) ==> NoRepeats(rails)
    ensures forall rail :: rail in rails ==> rail !in Blocked(live, node) && rail < RailCount(cfg)
    ensures RailsWellFormed(cfg) ==> forall rail :: rail in rails ==>
      exists d :: (d in DevicesOn(inv.slices.value, node) && !Consumed(cfg, inv, node, d) &&
                   Accepts(NICSelectors(rail, cfg), d))
  {
    var all, blocked := SlotsOn(slots, node), Blocked(live, node);
    var kept := FreeSlots(all, blocked);
    AvoidsBlocked(all, blocked, count, oneZone, cfg.maxPairsPerNUMA, rails);
    SelectedFromItems(Items(kept), count, oneZone, cfg.maxPairsPerNUMA, rails);
    if UniqueIds(Items(all)) {
      FreeKeepsRailsUnique(all, blocked);
    }
    forall rail | rail in rails
      ensures rail < RailCount(cfg)
    {
      var zone :| Item(zone, rail) in Items(kept);
      var i :| 0 <= i < |kept| && Items(kept)[i] == Item(zone, rail);
      FreeSlotsMembers(all, blocked, kept[i]);
      ListedIsOffered(cfg, inv, node, DevicesOn(inv.slices.value, node), all, kept[i]);
    }
    if RailsWellFormed(cfg) {
      forall rail | rail in rails
        ensures exists d :: (d in DevicesOn(inv.slices.value, node) && !Consumed(cfg, inv, node, d) &&
                             Accepts(NICSelectors(rail, cfg), d))
      {
        var zone :| Item(zone, rail) in Items(kept);
        var i :| 0 <= i < |kept| && Items(kept)[i] == Item(zone, rail);
        FreeSlotsMembers(all, blocked, kept[i]);
        OfferedRailIsClaimable(cfg, inv, slots, node, kept[i]);
      }
    }
  }

  // The pairs selected on a node that can give them are configured and unreserved.
  lemma PairsAreFree(cfg: Config, pairing: Pairing, inv: Inventory, live: Pending, pod: Pod, namespace: string,
                     cluster: Cluster, count: nat, oneZone: bool, c: Candidate, indices: seq<nat>)
    requires PoolOf(pairing, c.node.labels) == Some(c.pool)
    requires CanGive(cfg, pairing, inv, live, pod, namespace, cluster, count, oneZone, c.node, c.available)
    requires Selected(PairItems(c.pool, c.available), count, oneZone, cfg.maxPairsPerNUMA, indices)
    ensures NoRepeats(indices)
    ensures forall k :: 0 <= k < |indices| ==>
      indices[k] < |c.pool.pairs| && ExplicitKey(c.node.name, indices[k]) !in live
  {
    SelectedPairsFresh(c.pool, c.available, count, oneZone, cfg.maxPairsPerNUMA, indices);
    forall k | 0 <= k < |indices|
      ensures indices[k] < |c.pool.pairs| && ExplicitKey(c.node.name, indices[k]) !in live
    {
      assert indices[k] in c.available;
    }
  }

  // What a grant of explicit pairs is: as many different pairs as asked of the
  // pool of a listed, admissible node, all usable on it and none reserved
  lemma PairsGranted(cfg: Config, inv: Inventory, live: Pending, pod: Pod, namespace: string, cluster: Cluster,
                     count: nat, oneZone: bool, e: Event)
    returns (c: Candidate)
    requires ExplicitDecided(cfg, inv, live, pod, namespace, cluster, count, oneZone, e) && e.Explicit?
    ensures cfg.pairing.Some? && inv.slices.Some? && cluster.nodes.Some? && c.node in cluster.nodes.value
    ensures c.node.name == e.node && PoolOf(cfg.pairing.value, c.node.labels) == Some(c.pool)
    ensures Admits(pod, namespace, cluster, e.node) && |e.indices| == count && NoRepeats(e.indices)
    ensures forall k :: 0 <= k < |e.indices| ==>
      PairFree(cfg, cfg.pairing.value, inv.slices.value, live, e.node, c.pool, e.indices[k])
    ensures Selected(PairItems(c.pool, c.available), count, oneZone, cfg.maxPairsPerNUMA, e.indices)
  {
    c :| && c.node.name == e.node && PoolOf(cfg.pairing.value, c.node.labels) == Some(c.pool)
         && LeastPairs(cfg, cfg.pairing.value, inv, live, pod, namespace, cluster, count, oneZone, c.node, c.available)
         && Selected(PairItems(c.pool, c.available), count, oneZone, cfg.maxPairsPerNUMA, e.indices);
    SelectedPairsFresh(c.pool, c.available, count, oneZone, cfg.maxPairsPerNUMA, e.indices);
    assert CanGive(cfg, cfg.pairing.value, inv, live, pod, namespace, cluster, count, oneZone, c.node, c.available);
    assert forall k :: 0 <= k < |e.indices| ==> e.indices[k] in c.available;
  }

  lemma SelectedPairsFresh(pool: NodePool, free: seq<nat>, count: nat, oneZone: bool, maxPerZone: int,
                           indices: seq<nat>)
    requires Increasing(free)
    requires Selected(PairItems(pool, free), count, oneZone, maxPerZone, indices)
    ensures NoRepeats(indices)
    ensures forall i :: i in indices ==> i in free
  {
    var items := PairItems(pool, free);
    SelectedFromItems(items, count, oneZone, maxPerZone, indices);
    forall i | i in indices
      ensures i in free
    {
      var zone :| Item(zone, i) in items;
      var k :| 0 <= k < |items| && items[k] == Item(zone, i);
      assert free[k] == i;
    }
  }

  // An increasing sequence is determined by its members.
  lemma {:induction false} SameIncreasing(a: seq<nat>, b: seq<nat>)
    requires Increasing(a) && Increasing(b)
    requires forall i: nat :: i in a <==> i in b
    ensures a == b
  {
    if b != [] {
      assert b[0] in a;
    }
    if a != [] {
      assert a[0] in b;
      var x, y := a[|a| - 1], b[|b| - 1];
      assert x in b && y in a;
      assert x == y;
      var n, m := |a| - 1, |b| - 1;
      forall i: nat
        ensures i in a[..n] <==> i in b[..m]
      {
        assert i in a <==> i in a[..n] || i == x by { assert a == a[..n] + [x]; }
        assert i in b <==> i in b[..m] || i == y by { assert b == b[..m] + [y]; }
      }
      SameIncreasing(a[..n], b[..m]);
      assert a == a[..n] + [x] && b == b[..m] + [y];
    }
  }

  // ---- counts and reservations over runs ------------------------------------

  // What the slices list of a class on a node, less what claims use
  function Unclaimed(inv: Inventory, cls: string, node: string): int
    requires inv.slices.Some?
  {
    (if node == "" then 0 else CountDevices(inv.slices.value, cls, node)) -
    CountAllotted(if inv.allotted.Some? then inv.allotted.value else [], cls, node)
  }

  // Every grant of devices found on its node, listed and not in claims, as many
  // as asked on top of the largest grant still remembered.
  lemma GrantFitsBesideLargest(events: seq<Event>, ttl: nat, j: nat, inv: Inventory, pod: Pod, namespace: string,
                               cluster: Cluster, constrainTo: string)
    requires IsRun(events, ttl) && forall i :: 0 <= i < |events| ==> NamesPlain(events[i])
    requires j < |events| && events[j].Extended? && events[j].count > 0
    requires DevicesDecided(inv, Live(Replay(events[..j], ttl), events[j].start, ttl), pod, namespace, cluster,
                            events[j].count, events[j].cls, constrainTo, events[j])
    ensures inv.slices.Some? && Unclaimed(inv, events[j].cls, events[j].node) >=
      events[j].count + LargestGrant(events[..j], events[j].cls, events[j].node, events[j].start, ttl)
  {
    RoomBesideLargest(events, ttl, j);
    var counts :| IsCount(inv, events[j].cls, counts) && events[j].scanned == CountOn(counts, events[j].node);
  }

  // Two devices of a class on the only node
  function TwoDevices(cls: string, node: string): Inventory {
    Inventory(Some([Slice(cls, Some(node), [Device("a", map[]), Device("b", map[])])]), Some([]))
  }

  lemma TwoAreCounted(cls: string, node: string)
    requires node != ""
    ensures IsCount(TwoDevices(cls, node), cls, map[node := 2])
  {
    var slices := TwoDevices(cls, node).slices.value;
    assert slices[..0] == [];
    forall n
      ensures CountDevices(slices, cls, n) == if n == node then 2 else 0
      ensures CountAllotted([], cls, n) == 0
    {
      assert CountDevices([], cls, n) == 0;
    }
  }

  // The sum is not kept: a call for one device is granted it on the node, after
  // any number of calls that were, though only two devices were ever free.
  lemma SumIsNotKept(n: nat, cls: string, node: string, ttl: nat, pod: Pod, namespace: string, cluster: Cluster)
    requires ':' !in cls && ':' !in node && node != ""
    requires CanFilter(pod, cluster) && Admits(pod, namespace, cluster, node)
    ensures var events := seq(n, i => Extended(0, 0, cls, node, 1, 2));
      && IsRun(events, ttl)
      && forall i :: 0 <= i < n ==>
           DevicesDecided(TwoDevices(cls, node), Live(Replay(events[..i], ttl), 0, ttl), pod, namespace, cluster, 1,
                          cls, "", events[i])
  {
    var events := seq(n, i => Extended(0, 0, cls, node, 1, 2));
    OnesAreARun(events, cls, node, ttl);
    forall i | 0 <= i < n
      ensures DevicesDecided(TwoDevices(cls, node), Live(Replay(events[..i], ttl), 0, ttl), pod, namespace, cluster, 1,
                             cls, "", events[i])
    {
      OnesLeaveOne(events[..i], cls, node, ttl);
      HeldIsLargestGrant(events[..i], cls, node, 0, ttl);
      OneIsGranted(Live(Replay(events[..i], ttl), 0, ttl), cls, node, pod, namespace, cluster);
    }
  }

  lemma OneIsGranted(live: Pending, cls: string, node: string, pod: Pod, namespace: string, cluster: Cluster)
    requires node != "" && |Held(live, cls, node)| <= 1
    requires CanFilter(pod, cluster) && Admits(pod, namespace, cluster, node)
    ensures DevicesDecided(TwoDevices(cls, node), live, pod, namespace, cluster, 1, cls, "",
                           Extended(0, 0, cls, node, 1, 2))
  {
    var counts := map[node := 2];
    var free := map[node := LessHeld(2, |Held(live, cls, node)|)];
    TwoAreCounted(cls, node);
    assert IsLessHeld(counts, live, cls, free);
    assert HasDevices(pod, namespace, cluster, free, 1, node);
    assert DevicesChosen(pod, namespace, cluster, free, 1, cls, "", Extended(0, 0, cls, node, 1, 2));
  }
}
