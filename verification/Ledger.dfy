// The reservation ledger: keys with stamps, read under a time-to-live, over runs of allocator calls.
module Ledger {
  import opened Basics
  import opened Text

  // A map from reservation keys to the time they were stamped. Calls of the
  // allocator are events; a run is a sequence of events with a clock that never
  // runs back.

  // ---- keys -----------------------------------------------------------------

  // "node:rail"
  function PairKey(node: string, rail: nat): string {
    node + ":" + Decimal(rail)
  }

  // "node:explicit:index"
  function ExplicitKey(node: string, index: nat): string {
    node + ":explicit:" + Decimal(index)
  }

  // "ext:class:node:index"
  function ExtKey(cls: string, node: string, index: nat): string {
    "ext:" + cls + ":" + node + ":" + Decimal(index)
  }

  // How Allocate reads any key: the text before the first colon is a node, and
  // the integer scanned after it is a rail.
  function ReadPair(key: string): Option<(string, int)> {
    var parts := SplitN(key, ':', 2);
    if |parts| != 2 then None else Some((parts[0], ScanInt(parts[1])))
  }

  // How AllocateExtendedResource reads any key: device class and node.
  function ReadExt(key: string): Option<(string, string)> {
    if !("ext:" <= key) then None
    else
      var parts := SplitN(key, ':', 4);
      if |parts| != 4 then None else Some((parts[1], parts[2]))
  }

  lemma ReadPairOfPairKey(node: string, rail: nat)
    requires ':' !in node
    ensures ReadPair(PairKey(node, rail)) == Some((node, rail))
  {
    CutAtFirst(node, ':', Decimal(rail));
    assert PairKey(node, rail) == node + [':'] + Decimal(rail);
    ScanDecimal(rail);
  }

  lemma SplitExtKey(cls: string, node: string, index: nat)
    requires ':' !in cls && ':' !in node
    ensures SplitN(ExtKey(cls, node, index), ':', 4) == ["ext", cls, node, Decimal(index)]
    ensures "ext:" <= ExtKey(cls, node, index)
  {
    var tail1 := node + [':'] + Decimal(index);
    var tail2 := cls + [':'] + tail1;
    assert ExtKey(cls, node, index) == "ext" + [':'] + tail2;
    CutAtFirst("ext", ':', tail2);
    CutAtFirst(cls, ':', tail1);
    CutAtFirst(node, ':', Decimal(index));
    assert SplitN(tail1, ':', 2) == [node] + SplitN(Decimal(index), ':', 1);
    assert SplitN(tail2, ':', 3) == [cls] + SplitN(tail1, ':', 2);
  }

  lemma ReadExtOfExtKey(cls: string, node: string, index: nat)
    requires ':' !in cls && ':' !in node
    ensures ReadExt(ExtKey(cls, node, index)) == Some((cls, node))
  {
    SplitExtKey(cls, node, index);
  }

  lemma ExtKeyInjective(cls: string, node: string, i: nat, j: nat)
    requires ':' !in cls && ':' !in node
    requires ExtKey(cls, node, i) == ExtKey(cls, node, j)
    ensures i == j
  {
    SplitExtKey(cls, node, i);
    SplitExtKey(cls, node, j);
    DecimalInjective(i, j);
  }

  // Keys of the two other kinds are never taken for extended-resource keys,
  // whatever the node is called as long as it holds no colon.
  lemma PairKeyIsNotExt(node: string, n: nat)
    requires ':' !in node
    ensures ReadExt(PairKey(node, n)) == None
  {
    var d := Decimal(n);
    assert PairKey(node, n) == node + [':'] + d;
    CutAtFirst(node, ':', d);
    CutNothing(d, ':');
    assert SplitN(PairKey(node, n), ':', 4) == [node] + SplitN(d, ':', 3);
  }

  lemma ExplicitKeyIsNotExt(node: string, n: nat)
    requires ':' !in node
    ensures ReadExt(ExplicitKey(node, n)) == None
  {
    var d := Decimal(n);
    CutNothing(d, ':');
    var tail := "explicit" + [':'] + d;
    assert ExplicitKey(node, n) == node + [':'] + tail;
    CutAtFirst(node, ':', tail);
    CutAtFirst("explicit", ':', d);
    assert SplitN(tail, ':', 3) == ["explicit"] + SplitN(d, ':', 2);
    assert SplitN(ExplicitKey(node, n), ':', 4) == [node] + SplitN(tail, ':', 3);
  }

  // ---- the time-to-live -----------------------------------------------------

  type Pending = map<string, int>

  // What expirePending leaves at time now: entries not stamped before now - ttl
  function Live(p: Pending, now: int, ttl: nat): Pending {
    map k | k in p && !(p[k] < now - ttl) :: p[k]
  }

  function RailsRead(keys: set<string>, node: string): set<int> {
    set k | k in keys && ReadPair(k).Some? && ReadPair(k).value.0 == node :: ReadPair(k).value.1
  }

  // Rails Allocate holds back on a node
  function Blocked(p: Pending, node: string): set<int> {
    RailsRead(p.Keys, node)
  }

  function ExtRead(keys: set<string>, cls: string, node: string): set<string> {
    set k | k in keys && ReadExt(k) == Some((cls, node))
  }

  // Keys AllocateExtendedResource counts against a class on a node
  function Held(p: Pending, cls: string, node: string): set<string> {
    ExtRead(p.Keys, cls, node)
  }

  // ---- events and runs ------------------------------------------------------

  // One call of the allocator. start is the reading expirePending takes, stamp
  // the one taken when the reservation is written; scanned is the number of
  // free devices found by the scan.
  datatype Event =
    | Pairs(start: int, stamp: int, node: string, rails: seq<nat>)
    | Explicit(start: int, stamp: int, node: string, indices: seq<nat>)
    | Extended(start: int, stamp: int, cls: string, node: string, count: nat, scanned: int)
    | Refused(start: int, stamp: int)

  function Keys(e: Event): set<string> {
    match e
    case Pairs(_, _, node, rails) => set r | r in rails :: PairKey(node, r)
    case Explicit(_, _, node, indices) => set i | i in indices :: ExplicitKey(node, i)
    case Extended(_, _, cls, node, count, _) => set i: nat | 0 <= i < count :: ExtKey(cls, node, i)
    case Refused(_, _) => {}
  }

  function Stamped(p: Pending, keys: set<string>, stamp: int): Pending {
    p + map k | k in keys :: stamp
  }

  lemma StampNothing(p: Pending, stamp: int)
    ensures Stamped(p, {}, stamp) == p
  {
  }

  lemma StampOneMore(p: Pending, keys: set<string>, key: string, stamp: int)
    ensures Stamped(p, keys + {key}, stamp) == Stamped(p, keys, stamp)[key := stamp]
  {
  }

  // The ledger after a call: expired entries gone, the granted keys stamped
  function After(p: Pending, e: Event, ttl: nat): Pending {
    Stamped(Live(p, e.start, ttl), Keys(e), e.stamp)
  }

  function Replay(events: seq<Event>, ttl: nat): Pending {
    if events == [] then map[]
    else After(Replay(events[..|events| - 1], ttl), events[|events| - 1], ttl)
  }

  // The entries alive at a time after some calls
  ghost predicate AliveAt(events: seq<Event>, ttl: nat, now: int, live: Pending) {
    live == Live(Replay(events, ttl), now, ttl)
  }

  ghost predicate Chronological(events: seq<Event>) {
    && (forall i :: 0 <= i < |events| ==> events[i].start <= events[i].stamp)
    && (forall i, j :: 0 <= i < j < |events| ==> events[i].stamp <= events[j].start)
  }

  ghost predicate Until(events: seq<Event>, now: int) {
    && Chronological(events)
    && forall i :: 0 <= i < |events| ==> events[i].stamp <= now
  }

  ghost predicate NamesPlain(e: Event) {
    match e
    case Pairs(_, _, node, _) => ':' !in node
    case Explicit(_, _, node, _) => ':' !in node
    case Extended(_, _, cls, node, _, _) => ':' !in cls && ':' !in node
    case Refused(_, _) => true
  }

  // What each kind of grant must find in the ledger, once expired entries are
  // gone, for the code to hand it out.
  ghost predicate Admitted(p: Pending, e: Event, ttl: nat) {
    var live := Live(p, e.start, ttl);
    match e
    case Pairs(_, _, node, rails) =>
      forall r :: r in rails ==> r !in Blocked(live, node)
    case Explicit(_, _, node, indices) =>
      && (forall i :: i in indices ==> ExplicitKey(node, i) !in live)
      && (forall a, b :: 0 <= a < b < |indices| ==> indices[a] != indices[b])
    case Extended(_, _, cls, node, count, scanned) =>
      count > 0 ==> scanned >= count + |Held(live, cls, node)|
    case Refused(_, _) => true
  }

  ghost predicate IsRun(events: seq<Event>, ttl: nat) {
    && Chronological(events)
    && forall i :: 0 <= i < |events| ==> Admitted(Replay(events[..i], ttl), events[i], ttl)
  }

  lemma RunExtend(events: seq<Event>, e: Event, ttl: nat)
    requires IsRun(events, ttl) && Until(events, e.start)
    requires e.start <= e.stamp
    requires Admitted(Replay(events, ttl), e, ttl)
    ensures IsRun(events + [e], ttl) && Until(events + [e], e.stamp)
    ensures Replay(events + [e], ttl) == After(Replay(events, ttl), e, ttl)
  {
    var longer := events + [e];
    assert longer[..|events|] == events;
    forall i | 0 <= i < |longer|
      ensures Admitted(Replay(longer[..i], ttl), longer[i], ttl)
    {
      if i < |events| {
        assert longer[..i] == events[..i];
      }
    }
  }

  // ---- the ledger is exact --------------------------------------------------

  ghost predicate WrittenWithin(events: seq<Event>, key: string, now: int, ttl: nat) {
    exists i :: 0 <= i < |events| && key in Keys(events[i]) && now - events[i].stamp <= ttl
  }

  lemma WrittenSnoc(events: seq<Event>, key: string, now: int, ttl: nat)
    requires events != []
    ensures var n := |events| - 1;
      WrittenWithin(events, key, now, ttl) <==>
      WrittenWithin(events[..n], key, now, ttl) || (key in Keys(events[n]) && now - events[n].stamp <= ttl)
  {
    var n := |events| - 1;
    if i :| 0 <= i < n && key in Keys(events[..n][i]) && now - events[..n][i].stamp <= ttl {
      assert events[i] == events[..n][i];
    }
    if i :| 0 <= i < n && key in Keys(events[i]) && now - events[i].stamp <= ttl {
      assert events[i] == events[..n][i];
    }
  }

  // A key is live exactly when some call of the run wrote it no longer than
  // the time-to-live ago: nothing is forgotten early, nothing lingers.
  lemma {:induction false} LedgerExact(events: seq<Event>, key: string, now: int, ttl: nat)
    requires Until(events, now)
    ensures key in Live(Replay(events, ttl), now, ttl) <==> WrittenWithin(events, key, now, ttl)
  {
    if events != [] {
      LedgerExact(events[..|events| - 1], key, now, ttl);
      WrittenSnoc(events, key, now, ttl);
    }
  }

  // The stamp of a recorded key is that of its last writer.
  lemma {:induction false} StampIsLastWrite(events: seq<Event>, key: string, ttl: nat) returns (w: nat)
    requires Chronological(events)
    requires key in Replay(events, ttl)
    ensures w < |events| && key in Keys(events[w])
    ensures Replay(events, ttl)[key] == events[w].stamp
    ensures forall i :: w < i < |events| ==> key !in Keys(events[i])
  {
    var n := |events| - 1;
    if key in Keys(events[n]) {
      w := n;
    } else {
      w := StampIsLastWrite(events[..n], key, ttl);
      forall i | w < i < |events|
        ensures key !in Keys(events[i])
      {
        if i < n {
          assert events[i] == events[..n][i];
        }
      }
    }
  }

  // ---- no double booking ----------------------------------------------------

  // Of two grants of rails on one node, the later starting within the
  // time-to-live of the earlier reservation, no rail is in both.
  lemma NoDoubleBooking(events: seq<Event>, ttl: nat, i: nat, j: nat, r: nat)
    requires IsRun(events, ttl)
    requires i < j < |events| && events[i].Pairs? && events[j].Pairs?
    requires events[i].node == events[j].node && ':' !in events[i].node
    requires events[j].start - events[i].stamp <= ttl
    requires r in events[i].rails
    ensures r !in events[j].rails
  {
    var before, node := events[..j], events[j].node;
    var live := Live(Replay(before, ttl), events[j].start, ttl);
    var key := PairKey(node, r);
    assert key in Keys(before[i]);
    LedgerExact(before, key, events[j].start, ttl);
    ReadPairOfPairKey(node, r);
    assert r in Blocked(live, node);
  }

  lemma NoDoubleBookingExplicit(events: seq<Event>, ttl: nat, i: nat, j: nat, index: nat)
    requires IsRun(events, ttl)
    requires i < j < |events| && events[i].Explicit? && events[j].Explicit?
    requires events[i].node == events[j].node
    requires events[j].start - events[i].stamp <= ttl
    requires index in events[i].indices
    ensures index !in events[j].indices
  {
    var before := events[..j];
    var key := ExplicitKey(events[j].node, index);
    assert key in Keys(before[i]);
    LedgerExact(before, key, events[j].start, ttl);
  }

  ghost predicate GrantedWithin(events: seq<Event>, node: string, rail: int, now: int, ttl: nat) {
    exists i :: 0 <= i < |events| && events[i].Pairs? && events[i].node == node && rail in events[i].rails &&
      now - events[i].stamp <= ttl
  }

  ghost predicate ExplicitWithin(events: seq<Event>, node: string, now: int, ttl: nat) {
    exists i :: 0 <= i < |events| && events[i].Explicit? && events[i].node == node && events[i].indices != [] &&
      now - events[i].stamp <= ttl
  }

  // "node:explicit:index" reads as rail 0 of the node.
  lemma ExplicitReadsAsRailZero(node: string, index: nat)
    requires ':' !in node
    ensures ReadPair(ExplicitKey(node, index)) == Some((node, 0))
  {
    var tail := "explicit:" + Decimal(index);
    assert ExplicitKey(node, index) == node + [':'] + tail;
    CutAtFirst(node, ':', tail);
    assert LeadingDigits(tail) == [];
  }

  lemma ExtReadsAsNodeExt(cls: string, node: string, index: nat)
    ensures ReadPair(ExtKey(cls, node, index)).Some? && ReadPair(ExtKey(cls, node, index)).value.0 == "ext"
  {
    var tail := cls + ":" + node + ":" + Decimal(index);
    assert ExtKey(cls, node, index) == "ext" + [':'] + tail;
    CutAtFirst("ext", ':', tail);
  }

  // Which event can have written a key that reads as a rail of a node
  lemma RailWriter(e: Event, key: string, node: string, rail: int)
    requires NamesPlain(e) && key in Keys(e) && ReadPair(key) == Some((node, rail)) && node != "ext"
    ensures e.Pairs? || e.Explicit?
    ensures e.Pairs? ==> e.node == node && rail in e.rails
    ensures e.Explicit? ==> e.node == node && rail == 0 && e.indices != []
  {
    match e
    case Pairs(_, _, m, rails) =>
      var r :| r in rails && key == PairKey(m, r);
      ReadPairOfPairKey(m, r);
    case Explicit(_, _, m, indices) =>
      var i :| i in indices && key == ExplicitKey(m, i);
      ExplicitReadsAsRailZero(m, i);
    case Extended(_, _, c, m, count, _) =>
      var i: nat :| i < count && key == ExtKey(c, m, i);
      ExtReadsAsNodeExt(c, m, i);
    case Refused(_, _) =>
  }

  // What Allocate holds back on a node is exactly what Allocate granted there
  // within the time-to-live, and rail 0 besides while an explicit pair of that
  // node is reserved, since explicit keys read as rail 0.
  lemma BlockedIsGranted(events: seq<Event>, node: string, rail: int, now: int, ttl: nat)
    requires Until(events, now)
    requires forall i :: 0 <= i < |events| ==> NamesPlain(events[i])
    requires ':' !in node && node != "ext"
    ensures rail in Blocked(Live(Replay(events, ttl), now, ttl), node) <==>
      GrantedWithin(events, node, rail, now, ttl) || (rail == 0 && ExplicitWithin(events, node, now, ttl))
  {
    var live := Live(Replay(events, ttl), now, ttl);
    if rail in Blocked(live, node) {
      var key :| key in live && ReadPair(key) == Some((node, rail));
      LedgerExact(events, key, now, ttl);
      var w :| 0 <= w < |events| && key in Keys(events[w]) && now - events[w].stamp <= ttl;
      RailWriter(events[w], key, node, rail);
    }
    if GrantedWithin(events, node, rail, now, ttl) {
      var w :| 0 <= w < |events| && events[w].Pairs? && events[w].node == node && rail in events[w].rails &&
        now - events[w].stamp <= ttl;
      var key := PairKey(node, rail);
      assert key in Keys(events[w]);
      LedgerExact(events, key, now, ttl);
      ReadPairOfPairKey(node, rail);
      assert key in live.Keys;
    }
    if rail == 0 && ExplicitWithin(events, node, now, ttl) {
      var w :| 0 <= w < |events| && events[w].Explicit? && events[w].node == node && events[w].indices != [] &&
        now - events[w].stamp <= ttl;
      var key := ExplicitKey(node, events[w].indices[0]);
      assert key in Keys(events[w]);
      LedgerExact(events, key, now, ttl);
      ExplicitReadsAsRailZero(node, events[w].indices[0]);
      assert key in live.Keys;
    }
  }

  lemma {:induction false} StampsBounded(events: seq<Event>, ttl: nat, t: int)
    requires Until(events, t)
    ensures forall k :: k in Replay(events, ttl) ==> Replay(events, ttl)[k] <= t
  {
    if events != [] {
      StampsBounded(events[..|events| - 1], ttl, t);
    }
  }

  // The window is exact: once every stamp is more than the time-to-live old,
  // any rails may be granted, those granted before included.
  lemma {:induction false} BookedAgainAfterExpiry(events: seq<Event>, e: Event, ttl: nat)
    requires IsRun(events, ttl) && Until(events, e.start - ttl - 1)
    requires e.Pairs? && e.start <= e.stamp
    ensures IsRun(events + [e], ttl)
  {
    StampsBounded(events, ttl, e.start - ttl - 1);
    assert Live(Replay(events, ttl), e.start, ttl) == map[];
    RunExtend(events, e, ttl);
  }

  // ---- extended resources: an index prefix ----------------------------------

  function Max(a: nat, b: nat): nat {
    if a < b then b else a
  }

  // The largest single grant of a class on a node within the time-to-live
  function LargestGrant(events: seq<Event>, cls: string, node: string, now: int, ttl: nat): nat {
    if events == [] then 0
    else
      var n := |events| - 1;
      var rest := LargestGrant(events[..n], cls, node, now, ttl);
      match events[n]
      case Extended(_, stamp, c, m, count, _) =>
        if c == cls && m == node && now - stamp <= ttl then Max(rest, count) else rest
      case _ => rest
  }

  lemma {:induction false} LargestGrantBounds(events: seq<Event>, cls: string, node: string, now: int, ttl: nat,
                                              index: nat)
    ensures index < LargestGrant(events, cls, node, now, ttl) <==>
      exists i :: 0 <= i < |events| && events[i].Extended? && events[i].cls == cls && events[i].node == node
        && now - events[i].stamp <= ttl && index < events[i].count
  {
    if events != [] {
      var n := |events| - 1;
      var before := events[..n];
      LargestGrantBounds(before, cls, node, now, ttl, index);
      if index < LargestGrant(before, cls, node, now, ttl) {
        var i :| 0 <= i < |before| && before[i].Extended? && before[i].cls == cls && before[i].node == node
          && now - before[i].stamp <= ttl && index < before[i].count;
        assert events[i] == before[i];
      }
      forall i | 0 <= i < n && events[i].Extended? && events[i].cls == cls && events[i].node == node
        && now - events[i].stamp <= ttl && index < events[i].count
        ensures index < LargestGrant(before, cls, node, now, ttl)
      {
        assert events[i] == before[i];
      }
    }
  }

  // Which event can have written a key that reads as (cls, node)
  lemma ExtWriter(e: Event, key: string, cls: string, node: string)
    requires NamesPlain(e) && key in Keys(e) && ReadExt(key) == Some((cls, node))
    ensures e.Extended? && e.cls == cls && e.node == node
    ensures exists i: nat :: i < e.count && key == ExtKey(cls, node, i)
  {
    match e
    case Pairs(_, _, m, rails) =>
      var r :| r in rails && key == PairKey(m, r);
      PairKeyIsNotExt(m, r);
    case Explicit(_, _, m, indices) =>
      var i :| i in indices && key == ExplicitKey(m, i);
      ExplicitKeyIsNotExt(m, i);
    case Extended(_, _, c, m, count, _) =>
      var i: nat :| i < count && key == ExtKey(c, m, i);
      ReadExtOfExtKey(c, m, i);
    case Refused(_, _) =>
  }

  ghost function Prefix(cls: string, node: string, k: nat): set<string> {
    set i: nat | 0 <= i < k :: ExtKey(cls, node, i)
  }

  lemma {:induction false} PrefixSize(cls: string, node: string, k: nat)
    requires ':' !in cls && ':' !in node
    ensures |Prefix(cls, node, k)| == k
  {
    if k > 0 {
      PrefixSize(cls, node, k - 1);
      var last := ExtKey(cls, node, k - 1);
      assert Prefix(cls, node, k) == Prefix(cls, node, k - 1) + {last};
      if last in Prefix(cls, node, k - 1) {
        var i: nat :| i < k - 1 && ExtKey(cls, node, i) == last;
        ExtKeyInjective(cls, node, i, k - 1);
      }
    } else {
      assert Prefix(cls, node, 0) == {};
    }
  }

  // The live keys of a class on a node are exactly the indices below the
  // largest (not the sum) of the grants made there within the time-to-live.
  lemma HeldIsLargestGrant(events: seq<Event>, cls: string, node: string, now: int, ttl: nat)
    requires Until(events, now)
    requires forall i :: 0 <= i < |events| ==> NamesPlain(events[i])
    requires ':' !in cls && ':' !in node
    ensures var k := LargestGrant(events, cls, node, now, ttl);
            && Held(Live(Replay(events, ttl), now, ttl), cls, node) == Prefix(cls, node, k)
            && |Held(Live(Replay(events, ttl), now, ttl), cls, node)| == k
  {
    var k := LargestGrant(events, cls, node, now, ttl);
    var live := Live(Replay(events, ttl), now, ttl);
    forall key | key in Held(live, cls, node)
      ensures key in Prefix(cls, node, k)
    {
      LedgerExact(events, key, now, ttl);
      var w :| 0 <= w < |events| && key in Keys(events[w]) && now - events[w].stamp <= ttl;
      ExtWriter(events[w], key, cls, node);
      var i: nat :| i < events[w].count && key == ExtKey(cls, node, i);
      LargestGrantBounds(events, cls, node, now, ttl, i);
    }
    forall i: nat | i < k
      ensures ExtKey(cls, node, i) in Held(live, cls, node)
    {
      var key := ExtKey(cls, node, i);
      LargestGrantBounds(events, cls, node, now, ttl, i);
      var w :| 0 <= w < |events| && events[w].Extended? && events[w].cls == cls && events[w].node == node
        && now - events[w].stamp <= ttl && i < events[w].count;
      assert key in Keys(events[w]);
      LedgerExact(events, key, now, ttl);
      ReadExtOfExtKey(cls, node, i);
    }
    assert Held(live, cls, node) == Prefix(cls, node, k);
    PrefixSize(cls, node, k);
  }

  // Along the prefix the stamps never increase.
  lemma StampsDescend(events: seq<Event>, cls: string, node: string, ttl: nat, i: nat, j: nat)
    requires Chronological(events)
    requires forall n :: 0 <= n < |events| ==> NamesPlain(events[n])
    requires ':' !in cls && ':' !in node
    requires i < j && ExtKey(cls, node, j) in Replay(events, ttl)
    ensures ExtKey(cls, node, i) in Replay(events, ttl)
    ensures Replay(events, ttl)[ExtKey(cls, node, i)] >= Replay(events, ttl)[ExtKey(cls, node, j)]
  {
    var low, high := ExtKey(cls, node, i), ExtKey(cls, node, j);
    var w := StampIsLastWrite(events, high, ttl);
    ReadExtOfExtKey(cls, node, j);
    ExtWriter(events[w], high, cls, node);
    var n: nat :| n < events[w].count && high == ExtKey(cls, node, n);
    ExtKeyInjective(cls, node, j, n);
    assert low in Keys(events[w]);
    WriteSurvives(events, w, low, high, ttl);
  }

  // Whatever was written together with a key that is still recorded is still
  // recorded, with a stamp no older.
  lemma {:induction false} WriteSurvives(events: seq<Event>, w: nat, low: string, high: string, ttl: nat)
    requires Chronological(events) && w < |events|
    requires low in Keys(events[w]) && high in Keys(events[w])
    requires high in Replay(events, ttl) && Replay(events, ttl)[high] == events[w].stamp
    requires forall i :: w < i < |events| ==> high !in Keys(events[i])
    ensures low in Replay(events, ttl) && Replay(events, ttl)[low] >= events[w].stamp
  {
    var n := |events| - 1;
    if w < n {
      var before, e := events[..n], events[n];
      var p := Replay(before, ttl);
      Later(events, w, n);
      assert before[w] == events[w];
      UnwrittenKept(p, e, high, ttl);
      WriteSurvives(before, w, low, high, ttl);
      YoungerKept(p, e, low, events[w].stamp, ttl);
    }
  }

  lemma Later(events: seq<Event>, i: nat, j: nat)
    requires Chronological(events) && i < j < |events|
    ensures events[i].stamp <= events[j].start <= events[j].stamp
  {
  }

  // A key a call finds and does not write was live, and keeps its stamp.
  lemma UnwrittenKept(p: Pending, e: Event, key: string, ttl: nat)
    requires key in After(p, e, ttl) && key !in Keys(e)
    ensures key in p && p[key] == After(p, e, ttl)[key] && p[key] >= e.start - ttl
  {
  }

  lemma YoungerKept(p: Pending, e: Event, key: string, stamp: int, ttl: nat)
    requires key in p && p[key] >= stamp >= e.start - ttl && e.stamp >= stamp
    ensures key in After(p, e, ttl) && After(p, e, ttl)[key] >= stamp
  {
  }

  // An extended-resource grant of a run was scanned for room on top of the
  // largest grant still remembered.
  lemma RoomBesideLargest(events: seq<Event>, ttl: nat, j: nat)
    requires IsRun(events, ttl)
    requires forall i :: 0 <= i < |events| ==> NamesPlain(events[i])
    requires j < |events| && events[j].Extended? && events[j].count > 0
    ensures events[j].scanned >=
      events[j].count + LargestGrant(events[..j], events[j].cls, events[j].node, events[j].start, ttl)
  {
    HeldIsLargestGrant(events[..j], events[j].cls, events[j].node, events[j].start, ttl);
  }

  // Any number of grants of one device each, where the scan always finds two
  lemma {:induction false} OnesAreARun(events: seq<Event>, cls: string, node: string, ttl: nat)
    requires ':' !in cls && ':' !in node
    requires forall i :: 0 <= i < |events| ==> events[i] == Extended(0, 0, cls, node, 1, 2)
    ensures IsRun(events, ttl)
  {
    if events != [] {
      var before, e := events[..|events| - 1], events[|events| - 1];
      OnesAreARun(before, cls, node, ttl);
      OnesLeaveOne(before, cls, node, ttl);
      TwoFreeAdmitsOne(before, e, cls, node, ttl);
      RunExtend(before, e, ttl);
      assert before + [e] == events;
    }
  }

  lemma TwoFreeAdmitsOne(events: seq<Event>, e: Event, cls: string, node: string, ttl: nat)
    requires ':' !in cls && ':' !in node
    requires Until(events, 0) && forall i :: 0 <= i < |events| ==> NamesPlain(events[i])
    requires LargestGrant(events, cls, node, 0, ttl) <= 1
    requires e == Extended(0, 0, cls, node, 1, 2)
    ensures Admitted(Replay(events, ttl), e, ttl)
  {
    HeldIsLargestGrant(events, cls, node, 0, ttl);
  }

  lemma {:induction false} OnesLeaveOne(events: seq<Event>, cls: string, node: string, ttl: nat)
    requires forall i :: 0 <= i < |events| ==> events[i] == Extended(0, 0, cls, node, 1, 2)
    ensures LargestGrant(events, cls, node, 0, ttl) <= 1
  {
    if events != [] {
      OnesLeaveOne(events[..|events| - 1], cls, node, ttl);
    }
  }
}
