/** The deployer's boot: components sorted by boot order and started wave by wave. */
module BootWaves {
  import opened Wrappers

  datatype Component =
    | Empty | Jaeger | Nats | Dns | Etcd | FioSpdk
    | Elastic | Kibana
    | CoreAgent | JsonGrpcAgent | Rest | HaClusterAgent
    | IoEngine | CsiNode | CsiController | HaNodeAgent

  /** Every kind, in declaration order. */
  const KINDS: seq<Component> := [
    Empty, Jaeger, Nats, Dns, Etcd, FioSpdk, Elastic, Kibana, CoreAgent, JsonGrpcAgent, Rest, HaClusterAgent,
    IoEngine, CsiNode, CsiController, HaNodeAgent]

  function Order(c: Component): nat {
    match c
    case Empty | Jaeger | Nats | Dns | Etcd | FioSpdk => 0
    case Elastic | Kibana => 1
    case CoreAgent | JsonGrpcAgent | Rest | HaClusterAgent => 2
    case IoEngine | CsiNode | CsiController | HaNodeAgent => 3
  }

  predicate IsAgent(c: Component) {
    c.CoreAgent? || c.JsonGrpcAgent? || c.HaNodeAgent? || c.HaClusterAgent?
  }

  /** What the agents option may hold: any agents, repeated or not, and the empty one. */
  type Agent = c: Component | IsAgent(c) || c == Empty witness Empty

  predicate Sorted(cs: seq<Component>) {
    forall i, j | 0 <= i < j < |cs| :: Order(cs[i]) <= Order(cs[j])
  }

  /** The components of one boot order, in list order. */
  function Wave(cs: seq<Component>, o: nat): seq<Component> {
    if cs == [] then []
    else Wave(cs[..|cs| - 1], o) + (if Order(cs[|cs| - 1]) == o then [cs[|cs| - 1]] else [])
  }

  lemma WaveAppend(cs: seq<Component>, c: Component, o: nat)
    ensures Wave(cs + [c], o) == Wave(cs, o) + (if Order(c) == o then [c] else [])
  {
    assert (cs + [c])[..|cs|] == cs;
  }

  lemma {:induction false} WaveHas(cs: seq<Component>, o: nat, c: Component)
    ensures c in Wave(cs, o) <==> c in cs && Order(c) == o
  {
    if cs != [] {
      WaveHas(cs[..|cs| - 1], o, c);
      assert cs == cs[..|cs| - 1] + [cs[|cs| - 1]];
    }
  }

  // ---- Sorting

  /** Puts `c` behind everything of its order or less. */
  function Insert(cs: seq<Component>, c: Component): seq<Component> {
    if cs == [] || Order(cs[|cs| - 1]) <= Order(c) then cs + [c]
    else Insert(cs[..|cs| - 1], c) + [cs[|cs| - 1]]
  }

  /** The stable sort of a list by boot order. */
  function StableSort(cs: seq<Component>): seq<Component> {
    if cs == [] then [] else Insert(StableSort(cs[..|cs| - 1]), cs[|cs| - 1])
  }

  lemma {:induction false} InsertHas(cs: seq<Component>, c: Component, x: Component)
    ensures x in Insert(cs, c) <==> x in cs || x == c
  {
    if cs != [] && Order(cs[|cs| - 1]) > Order(c) {
      InsertHas(cs[..|cs| - 1], c, x);
      assert cs == cs[..|cs| - 1] + [cs[|cs| - 1]];
    }
  }

  lemma {:induction false} InsertSorted(cs: seq<Component>, c: Component)
    requires Sorted(cs)
    ensures Sorted(Insert(cs, c))
  {
    if cs != [] && Order(cs[|cs| - 1]) > Order(c) {
      var front, last := cs[..|cs| - 1], cs[|cs| - 1];
      InsertSorted(front, c);
      forall x | x in Insert(front, c) ensures Order(x) <= Order(last) {
        InsertHas(front, c, x);
      }
    }
  }

  lemma {:induction false} InsertWave(cs: seq<Component>, c: Component, o: nat)
    requires Sorted(cs)
    ensures Wave(Insert(cs, c), o) == Wave(cs, o) + (if Order(c) == o then [c] else [])
  {
    if cs == [] || Order(cs[|cs| - 1]) <= Order(c) {
      WaveAppend(cs, c, o);
    } else {
      var front, last := cs[..|cs| - 1], cs[|cs| - 1];
      InsertWave(front, c, o);
      WaveAppend(Insert(front, c), last, o);
    }
  }

  /** Sorting orders the list and leaves each wave as it was: nothing lost, added or reordered within an order. */
  lemma {:induction false} StableSortOk(cs: seq<Component>, o: nat)
    ensures Sorted(StableSort(cs)) && Wave(StableSort(cs), o) == Wave(cs, o)
  {
    if cs != [] {
      var front, last := cs[..|cs| - 1], cs[|cs| - 1];
      StableSortOk(front, o);
      InsertSorted(StableSort(front), last);
      InsertWave(StableSort(front), last, o);
    }
  }

  lemma {:induction false} InsertCount(cs: seq<Component>, c: Component)
    ensures multiset(Insert(cs, c)) == multiset(cs) + multiset{c}
  {
    if cs != [] && Order(cs[|cs| - 1]) > Order(c) {
      InsertCount(cs[..|cs| - 1], c);
      assert cs == cs[..|cs| - 1] + [cs[|cs| - 1]];
    }
  }

  lemma {:induction false} StableSortCount(cs: seq<Component>)
    ensures multiset(StableSort(cs)) == multiset(cs)
  {
    if cs != [] {
      var front, last := cs[..|cs| - 1], cs[|cs| - 1];
      StableSortCount(front);
      InsertCount(StableSort(front), last);
      assert cs == front + [last];
    }
  }

  // ---- Who is deployed, and in which wave

  /** The kinds of `ks` that are deployed without being chosen. */
  function Generic(ks: seq<Component>): seq<Component> {
    if ks == [] then []
    else Generic(ks[..|ks| - 1]) + (if IsAgent(ks[|ks| - 1]) then [] else [ks[|ks| - 1]])
  }

  lemma {:induction false} GenericCount(ks: seq<Component>, c: Component)
    ensures multiset(Generic(ks))[c] == if IsAgent(c) then 0 else multiset(ks)[c]
  {
    if ks != [] {
      var front, last := ks[..|ks| - 1], ks[|ks| - 1];
      GenericCount(front, c);
      assert ks == front + [last];
      assert multiset(ks) == multiset(front) + multiset{last};
    }
  }

  /** Where a kind is declared. */
  function Place(c: Component): (i: nat)
    ensures i < |KINDS| && KINDS[i] == c
  {
    match c
    case Empty => 0
    case Jaeger => 1
    case Nats => 2
    case Dns => 3
    case Etcd => 4
    case FioSpdk => 5
    case Elastic => 6
    case Kibana => 7
    case CoreAgent => 8
    case JsonGrpcAgent => 9
    case Rest => 10
    case HaClusterAgent => 11
    case IoEngine => 12
    case CsiNode => 13
    case CsiController => 14
    case HaNodeAgent => 15
  }

  lemma PlaceOnce(i: nat)
    requires i < |KINDS|
    ensures Place(KINDS[i]) == i
  {
  }

  lemma {:induction false} CountOnce(ks: seq<Component>, c: Component, i: nat)
    requires forall j: nat | j < |ks| :: ks[j] == c ==> j == i
    ensures multiset(ks)[c] == if i < |ks| && ks[i] == c then 1 else 0
  {
    if ks != [] {
      var front := ks[..|ks| - 1];
      CountOnce(front, c, i);
      assert ks == front + [ks[|ks| - 1]];
    }
  }

  lemma EveryKindOnce(c: Component)
    ensures multiset(KINDS)[c] == 1
  {
    forall j: nat | j < |KINDS| && KINDS[j] == c ensures j == Place(c) {
      PlaceOnce(j);
    }
    CountOnce(KINDS, c, Place(c));
  }

  /** Every component that is not an agent is deployed, and of the agents those chosen, as often as chosen. */
  lemma DeployedExactly(agents: seq<Agent>, c: Component)
    ensures multiset(StableSort(agents + Generic(KINDS)))[c] ==
              multiset(agents)[c] + if IsAgent(c) then 0 else 1
  {
    var all := agents + Generic(KINDS);
    StableSortCount(all);
    GenericCount(KINDS, c);
    EveryKindOnce(c);
    assert multiset(all) == multiset(agents) + multiset(Generic(KINDS));
  }

  /**
   The infrastructure the control plane talks to, etcd and the message bus among
   it, comes first, what collects its traces next, then the control plane, and
   last what serves volumes on the nodes.
   */
  lemma WavesByName(c: Component)
    ensures Order(c) == 0 <==> c in {Empty, Jaeger, Nats, Dns, Etcd, FioSpdk}
    ensures Order(c) == 1 <==> c in {Elastic, Kibana}
    ensures Order(c) == 2 <==> c in {CoreAgent, JsonGrpcAgent, Rest, HaClusterAgent}
    ensures Order(c) == 3 <==> c in {IoEngine, CsiNode, CsiController, HaNodeAgent}
  {
  }

  // ---- Waves

  /** The boot orders as the loop meets them, runs of equal ones once. */
  function Orders(cs: seq<Component>): seq<nat> {
    if cs == [] then []
    else
      var front := Orders(cs[..|cs| - 1]);
      if |cs| > 1 && Order(cs[|cs| - 2]) == Order(cs[|cs| - 1]) then front else front + [Order(cs[|cs| - 1])]
  }

  predicate Increasing(os: seq<nat>) {
    forall i, j | 0 <= i < j < |os| :: os[i] < os[j]
  }

  lemma {:induction false} OrdersMet(cs: seq<Component>)
    requires Sorted(cs)
    ensures Increasing(Orders(cs))
    ensures cs == [] <==> Orders(cs) == []
    ensures cs != [] ==> Orders(cs)[|Orders(cs)| - 1] == Order(cs[|cs| - 1])
  {
    if cs != [] {
      var front := cs[..|cs| - 1];
      OrdersMet(front);
      if front != [] {
        assert front[|front| - 1] == cs[|cs| - 2] && Order(cs[|cs| - 2]) <= Order(cs[|cs| - 1]);
        LastIsGreatest(Orders(front));
      }
    }
  }

  lemma LastIsGreatest(os: seq<nat>)
    requires Increasing(os) && os != []
    ensures forall i | 0 <= i < |os| :: os[i] <= os[|os| - 1]
  {
  }

  lemma {:induction false} OrderIsMet(cs: seq<Component>, c: Component)
    requires c in cs
    ensures Order(c) in Orders(cs)
  {
    var front, last := cs[..|cs| - 1], cs[|cs| - 1];
    assert cs == front + [last];
    if c in front {
      OrderIsMet(front, c);
    } else if |cs| > 1 && Order(cs[|cs| - 2]) == Order(last) {
      assert cs[|cs| - 2] == front[|front| - 1];
      OrderIsMet(front, cs[|cs| - 2]);
    }
  }

  /** The waves of the given orders, one after the other. */
  function Joined(cs: seq<Component>, os: seq<nat>): seq<Component> {
    if os == [] then [] else Joined(cs, os[..|os| - 1]) + Wave(cs, os[|os| - 1])
  }

  /** A component of another order leaves the waves as they were. */
  lemma {:induction false} JoinedSame(cs: seq<Component>, c: Component, os: seq<nat>)
    requires Order(c) !in os
    ensures Joined(cs + [c], os) == Joined(cs, os)
  {
    if os != [] {
      JoinedSame(cs, c, os[..|os| - 1]);
      WaveAppend(cs, c, os[|os| - 1]);
    }
  }

  lemma {:induction false} WaveEmpty(cs: seq<Component>, o: nat)
    requires forall c | c in cs :: Order(c) != o
    ensures Wave(cs, o) == []
  {
    if cs != [] {
      assert cs[|cs| - 1] in cs && forall c | c in cs[..|cs| - 1] :: c in cs;
      WaveEmpty(cs[..|cs| - 1], o);
    }
  }

  lemma JoinedAppend(cs: seq<Component>, os: seq<nat>, o: nat)
    ensures Joined(cs, os + [o]) == Joined(cs, os) + Wave(cs, o)
  {
    assert (os + [o])[..|os|] == os;
  }

  lemma PartitionStep(front: seq<Component>, last: Component, os: seq<nat>)
    requires Order(last) !in os && Joined(front, os) + Wave(front, Order(last)) == front
    ensures Joined(front + [last], os + [Order(last)]) == front + [last]
  {
    JoinedAppend(front + [last], os, Order(last));
    JoinedSame(front, last, os);
    WaveAppend(front, last, Order(last));
  }

  /** The waves of a sorted list, one after the other, are the list: every component is in one of them, once. */
  lemma {:induction false} WavesPartition(cs: seq<Component>)
    requires Sorted(cs)
    ensures Joined(cs, Orders(cs)) == cs
  {
    if cs != [] {
      var front, last := cs[..|cs| - 1], cs[|cs| - 1];
      var os := Orders(front);
      assert cs == front + [last];
      WavesPartition(front);
      OrdersMet(cs);
      EarlierDiffer(Orders(cs), Order(last));
      if |cs| > 1 && Order(cs[|cs| - 2]) == Order(last) {
        var k := |os| - 1;
        assert os[..k] + [os[k]] == os;
        JoinedAppend(front, os[..k], os[k]);
        PartitionStep(front, last, os[..k]);
      } else {
        assert Orders(cs)[..|os|] == os;
        NoneMet(front, Order(last));
        PartitionStep(front, last, os);
      }
    }
  }

  lemma NoneMet(cs: seq<Component>, o: nat)
    requires o !in Orders(cs)
    ensures Wave(cs, o) == []
  {
    forall c | c in cs ensures Order(c) != o {
      OrderIsMet(cs, c);
    }
    WaveEmpty(cs, o);
  }

  lemma EarlierDiffer(os: seq<nat>, o: nat)
    requires Increasing(os) && os != [] && os[|os| - 1] == o
    ensures o !in os[..|os| - 1]
  {
  }

  // ---- What a boot does

  /** A wave of concurrent starts or waits, in the order they are issued. */
  datatype Event = Start(wave: seq<Component>) | Wait(wave: seq<Component>)

  function StartLog(cs: seq<Component>, os: seq<nat>): (r: seq<Event>)
    ensures |r| == |os| && forall k | 0 <= k < |os| :: r[k] == Start(Wave(cs, os[k]))
  {
    seq(|os|, k requires 0 <= k < |os| => Start(Wave(cs, os[k])))
  }

  function WaitLog(cs: seq<Component>, os: seq<nat>): seq<Event> {
    if os == [] then []
    else
      var o := os[|os| - 1];
      WaitLog(cs, os[..|os| - 1]) + [Start(Wave(cs, o)), Wait(Wave(cs, o))]
  }

  lemma {:induction false} WaitLogLength(cs: seq<Component>, os: seq<nat>)
    ensures |WaitLog(cs, os)| == 2 * |os|
  {
    if os != [] {
      WaitLogLength(cs, os[..|os| - 1]);
    }
  }

  lemma {:induction false} WaitLogAt(cs: seq<Component>, os: seq<nat>, k: nat)
    requires k < |os|
    ensures |WaitLog(cs, os)| == 2 * |os|
    ensures WaitLog(cs, os)[2 * k] == Start(Wave(cs, os[k])) && WaitLog(cs, os)[2 * k + 1] == Wait(Wave(cs, os[k]))
  {
    var front := os[..|os| - 1];
    WaitLogLength(cs, front);
    if k < |front| {
      WaitLogAt(cs, front, k);
    }
  }

  /** Everything started, in order. */
  function Started(log: seq<Event>): seq<Component> {
    if log == [] then []
    else Started(log[..|log| - 1]) + (if log[|log| - 1].Start? then log[|log| - 1].wave else [])
  }

  lemma {:induction false} StartedByStartLog(cs: seq<Component>, os: seq<nat>)
    ensures Started(StartLog(cs, os)) == Joined(cs, os)
  {
    if os != [] {
      StartedByStartLog(cs, os[..|os| - 1]);
      assert StartLog(cs, os)[..|os| - 1] == StartLog(cs, os[..|os| - 1]);
    }
  }

  lemma StartedTwo(log: seq<Event>, wave: seq<Component>)
    ensures Started(log + [Start(wave), Wait(wave)]) == Started(log) + wave
  {
    var all := log + [Start(wave), Wait(wave)];
    assert all[..|all| - 1] == log + [Start(wave)] && (log + [Start(wave)])[..|log|] == log;
  }

  lemma {:induction false} StartedByWaitLog(cs: seq<Component>, os: seq<nat>)
    ensures Started(WaitLog(cs, os)) == Joined(cs, os)
  {
    if os != [] {
      StartedByWaitLog(cs, os[..|os| - 1]);
      StartedTwo(WaitLog(cs, os[..|os| - 1]), Wave(cs, os[|os| - 1]));
    }
  }

  /** Both ways of booting start every component exactly once, in boot order. */
  lemma EachStartedOnce(cs: seq<Component>)
    requires Sorted(cs)
    ensures Started(StartLog(cs, Orders(cs))) == cs
    ensures Started(WaitLog(cs, Orders(cs))) == cs
    ensures Increasing(Orders(cs))
  {
    WavesPartition(cs);
    OrdersMet(cs);
    StartedByStartLog(cs, Orders(cs));
    StartedByWaitLog(cs, Orders(cs));
  }

  /** By position `i` of the log, `c` has been started, and after that waited for. */
  ghost predicate StartedAndWaited(log: seq<Event>, c: Component, i: nat)
    requires i <= |log|
  {
    exists s: nat, t: nat ::
      s < t < i && log[s].Start? && log[t].Wait? && c in log[s].wave && log[s].wave == log[t].wave
  }

  /** What a waiting boot has logged, whether it went through, is under way or failed. */
  ghost predicate IsWaitedBoot(cs: seq<Component>, log: seq<Event>) {
    log <= WaitLog(cs, Orders(cs))
  }

  /** The waiting boot starts nothing until every component of all earlier orders was started and waited for. */
  lemma StartsAfterEarlierWaves(cs: seq<Component>, log: seq<Event>, i: nat, c: Component, d: Component)
    requires Sorted(cs) && IsWaitedBoot(cs, log)
    requires i < |log| && log[i].Start? && c in log[i].wave && d in cs && Order(d) < Order(c)
    ensures StartedAndWaited(log, d, i)
  {
    var os := Orders(cs);
    var all := WaitLog(cs, os);
    var k := i / 2;
    assert i == 2 * k || i == 2 * k + 1;
    WaitLogLength(cs, os);
    WaitLogAt(cs, os, k);
    WaveHas(cs, os[k], c);
    OrderIsMet(cs, d);
    var m :| 0 <= m < |os| && os[m] == Order(d);
    OrdersMet(cs);
    assert m < k;
    WaveHas(cs, os[m], d);
    WaitLogAt(cs, os, m);
    assert log[2 * m] == all[2 * m] && log[2 * m + 1] == all[2 * m + 1];
  }

  // ---- The deployer

  /** The order whose wave failed. */
  datatype BootError = StartFailed(order: nat) | WaitFailed(order: nat)

  predicate AllOk(os: seq<nat>, ok: nat -> bool) {
    forall o | o in os :: ok(o)
  }

  /** The starting boot failed at the wave of the `k`th order, the first with a start that fails. */
  ghost predicate StartStopped(cs: seq<Component>, k: nat, ok: nat -> bool, e: BootError, log: seq<Event>) {
    var os := Orders(cs);
    && k < |os| && AllOk(os[..k], ok) && !ok(os[k])
    && e == StartFailed(os[k]) && log == StartLog(cs, os[..k] + [os[k]])
  }

  /** As above for the waiting boot, where the wait may fail as well. */
  ghost predicate WaitStopped(
    cs: seq<Component>, k: nat, startOk: nat -> bool, waitOk: nat -> bool, e: BootError, log: seq<Event>)
  {
    var os := Orders(cs);
    && k < |os| && AllOk(os[..k], startOk) && AllOk(os[..k], waitOk)
    && var wave := Wave(cs, os[k]);
       if !startOk(os[k]) then e == StartFailed(os[k]) && log == WaitLog(cs, os[..k]) + [Start(wave)]
       else !waitOk(os[k]) && e == WaitFailed(os[k]) && log == WaitLog(cs, os[..k]) + [Start(wave), Wait(wave)]
  }

  /** The loop has gone through `i` components, and `os` are the orders met. */
  ghost predicate Met(cs: seq<Component>, i: nat, os: seq<nat>) {
    i <= |cs| && os == Orders(cs[..i]) && os <= Orders(cs)
  }

  lemma MetStart(cs: seq<Component>)
    ensures Met(cs, 0, [])
  {
    assert cs[..0] == [];
  }

  lemma MetStep(cs: seq<Component>, i: nat, os: seq<nat>)
    requires Met(cs, i, os) && i < |cs|
    ensures i > 0 && Order(cs[i - 1]) == Order(cs[i]) ==> Met(cs, i + 1, os)
    ensures !(i > 0 && Order(cs[i - 1]) == Order(cs[i])) ==>
              && Met(cs, i + 1, os + [Order(cs[i])])
              && |os| < |Orders(cs)| && Orders(cs)[..|os|] == os && Orders(cs)[|os|] == Order(cs[i])
  {
    OrdersStep(cs, i);
    OrdersPrefix(cs, i + 1);
  }

  lemma MetEnd(cs: seq<Component>, os: seq<nat>)
    requires Met(cs, |cs|, os)
    ensures os == Orders(cs)
  {
    assert cs[..|cs|] == cs;
  }

  lemma AllOkStep(os: seq<nat>, o: nat, ok: nat -> bool)
    ensures AllOk(os + [o], ok) <==> AllOk(os, ok) && ok(o)
  {
    assert o in os + [o] && forall x | x in os :: x in os + [o];
  }

  lemma NotAllOk(os: seq<nat>, k: nat, ok: nat -> bool)
    requires k < |os| && !ok(os[k])
    ensures !AllOk(os, ok)
  {
    assert os[k] in os;
  }

  lemma StartLogStep(cs: seq<Component>, os: seq<nat>, o: nat)
    ensures StartLog(cs, os + [o]) == StartLog(cs, os) + [Start(Wave(cs, o))]
  {
  }

  lemma WaitLogStep(cs: seq<Component>, os: seq<nat>, o: nat)
    ensures WaitLog(cs, os + [o]) == WaitLog(cs, os) + [Start(Wave(cs, o)), Wait(Wave(cs, o))]
  {
    assert (os + [o])[..|os|] == os;
  }

  class Components {
    const components: seq<Component>
    var log: seq<Event>

    ghost predicate Valid() {
      Sorted(components)
    }

    /** The chosen agents and every component that is not an agent, sorted by boot order. */
    constructor (agents: seq<Agent>)
      ensures Valid() && log == []
      ensures components == StableSort(agents + Generic(KINDS))
      ensures forall c :: multiset(components)[c] ==
                          multiset(agents)[c] + if IsAgent(c) then 0 else 1
    {
      var cs: seq<Component> := agents;
      var i := 0;
      while i < |KINDS|
        invariant i <= |KINDS| && cs == agents + Generic(KINDS[..i])
      {
        assert KINDS[..i + 1][..i] == KINDS[..i];
        if !IsAgent(KINDS[i]) {
          cs := cs + [KINDS[i]];
        }
        i := i + 1;
      }
      assert KINDS[..|KINDS|] == KINDS;
      StableSortOk(cs, 0);
      forall c ensures multiset(StableSort(cs))[c] ==
                       multiset(agents)[c] + if IsAgent(c) then 0 else 1
      {
        DeployedExactly(agents, c);
      }
      components := StableSort(cs);
      log := [];
    }

    /** Starts wave after wave; a wave with a failed start is the last. */
    method StartAll(startOk: nat -> bool) returns (r: Result<(), BootError>)
      requires Valid() && log == []
      modifies this`log
      ensures r.Ok? <==> AllOk(Orders(components), startOk)
      ensures r.Ok? ==> log == StartLog(components, Orders(components))
      ensures r.Err? ==> exists k: nat :: StartStopped(components, k, startOk, r.error, log)
    {
      var lastDone: Option<nat> := None;
      var i := 0;
      ghost var os := [];
      MetStart(components);
      while i < |components|
        invariant Met(components, i, os) && AllOk(os, startOk) && log == StartLog(components, os)
        invariant lastDone == if i == 0 then None else Some(Order(components[i - 1]))
      {
        MetStep(components, i, os);
        var o := Order(components[i]);
        if lastDone != Some(o) {
          StartLogStep(components, os, o);
          AllOkStep(os, o, startOk);
          log := log + [Start(Wave(components, o))];
          if !startOk(o) {
            NotAllOk(Orders(components), |os|, startOk);
            r := Err(StartFailed(o));
            assert StartStopped(components, |os|, startOk, r.error, log);
            return;
          }
          os := os + [o];
          lastDone := Some(o);
        }
        i := i + 1;
      }
      MetEnd(components, os);
      return Ok(());
    }

    /** Starts a wave and waits for it before the next; a wave with a failure is the last. */
    method StartWaitInner(startOk: nat -> bool, waitOk: nat -> bool) returns (r: Result<(), BootError>)
      requires Valid() && log == []
      modifies this`log
      ensures r.Ok? <==> AllOk(Orders(components), startOk) && AllOk(Orders(components), waitOk)
      ensures r.Ok? ==> log == WaitLog(components, Orders(components))
      ensures r.Err? ==> exists k: nat :: WaitStopped(components, k, startOk, waitOk, r.error, log)
    {
      var lastDone: Option<nat> := None;
      var i := 0;
      ghost var os := [];
      MetStart(components);
      while i < |components|
        invariant Met(components, i, os) && AllOk(os, startOk) && AllOk(os, waitOk)
        invariant log == WaitLog(components, os)
        invariant lastDone == if i == 0 then None else Some(Order(components[i - 1]))
      {
        MetStep(components, i, os);
        var o := Order(components[i]);
        if lastDone != Some(o) {
          r := StartThenWait(o, startOk, waitOk);
          if r.Err? {
            StoppedHere(components, os, startOk, waitOk, r.error, log);
            return;
          }
          WaitLogStep(components, os, o);
          AllOkStep(os, o, startOk);
          AllOkStep(os, o, waitOk);
          os := os + [o];
          lastDone := Some(o);
        }
        i := i + 1;
      }
      MetEnd(components, os);
      return Ok(());
    }

    /** One wave of the waiting boot. */
    method StartThenWait(o: nat, startOk: nat -> bool, waitOk: nat -> bool) returns (r: Result<(), BootError>)
      modifies this`log
      ensures var wave := Wave(components, o);
              log == old(log) + (if startOk(o) then [Start(wave), Wait(wave)] else [Start(wave)])
      ensures r == if !startOk(o) then Err(StartFailed(o)) else if !waitOk(o) then Err(WaitFailed(o)) else Ok(())
    {
      var wave := Wave(components, o);
      log := log + [Start(wave)];
      if !startOk(o) {
        return Err(StartFailed(o));
      }
      log := log + [Wait(wave)];
      return if waitOk(o) then Ok(()) else Err(WaitFailed(o));
    }
  }

  lemma StoppedHere(
    cs: seq<Component>, os: seq<nat>, startOk: nat -> bool, waitOk: nat -> bool, e: BootError, log: seq<Event>)
    requires |os| < |Orders(cs)| && Orders(cs)[..|os|] == os && AllOk(os, startOk) && AllOk(os, waitOk)
    requires var o := Orders(cs)[|os|];
             var wave := Wave(cs, o);
             && e == (if startOk(o) then WaitFailed(o) else StartFailed(o)) && !(startOk(o) && waitOk(o))
             && log == WaitLog(cs, os) + if startOk(o) then [Start(wave), Wait(wave)] else [Start(wave)]
    ensures exists k: nat :: WaitStopped(cs, k, startOk, waitOk, e, log)
    ensures !AllOk(Orders(cs), startOk) || !AllOk(Orders(cs), waitOk)
  {
    assert WaitStopped(cs, |os|, startOk, waitOk, e, log);
    var o := Orders(cs)[|os|];
    NotAllOk(Orders(cs), |os|, if startOk(o) then waitOk else startOk);
  }

  /** A waiting boot that failed still logged nothing but the beginning of a full one. */
  lemma StoppedIsWaitedBoot(
    cs: seq<Component>, k: nat, startOk: nat -> bool, waitOk: nat -> bool, e: BootError, log: seq<Event>)
    requires WaitStopped(cs, k, startOk, waitOk, e, log)
    ensures IsWaitedBoot(cs, log)
  {
    var os := Orders(cs);
    WaitLogStep(cs, os[..k], os[k]);
    assert os[..k] + [os[k]] == os[..k + 1];
    WaitLogPrefix(cs, os, k + 1);
  }

  lemma {:induction false} WaitLogPrefix(cs: seq<Component>, os: seq<nat>, k: nat)
    requires k <= |os|
    ensures WaitLog(cs, os[..k]) <= WaitLog(cs, os)
    decreases |os| - k
  {
    if k == |os| {
      assert os[..k] == os;
    } else {
      assert os[..k + 1] == os[..k] + [os[k]];
      WaitLogStep(cs, os[..k], os[k]);
      WaitLogPrefix(cs, os, k + 1);
    }
  }

  lemma {:induction false} JoinedPrefix(cs: seq<Component>, os: seq<nat>, k: nat)
    requires k <= |os|
    ensures Joined(cs, os[..k]) <= Joined(cs, os)
    decreases |os| - k
  {
    if k == |os| {
      assert os[..k] == os;
    } else {
      assert os[..k + 1][..k] == os[..k];
      JoinedPrefix(cs, os, k + 1);
    }
  }

  lemma FirstWavesAreFirst(cs: seq<Component>, k: nat)
    requires Sorted(cs) && k < |Orders(cs)|
    ensures Joined(cs, Orders(cs)[..k] + [Orders(cs)[k]]) <= cs
  {
    var os := Orders(cs);
    WavesPartition(cs);
    JoinedPrefix(cs, os, k + 1);
    assert os[..k] + [os[k]] == os[..k + 1];
  }

  /** A boot that failed started the components of the orders up to the failed one, each once, and no others. */
  lemma FailedBootStarts(
    cs: seq<Component>, k: nat, startOk: nat -> bool, waitOk: nat -> bool, e: BootError, log: seq<Event>)
    requires Sorted(cs)
    requires StartStopped(cs, k, startOk, e, log) || WaitStopped(cs, k, startOk, waitOk, e, log)
    ensures Started(log) <= cs && Started(log) == Joined(cs, Orders(cs)[..k] + [Orders(cs)[k]])
  {
    FirstWavesAreFirst(cs, k);
    if StartStopped(cs, k, startOk, e, log) {
      StartedByStartLog(cs, Orders(cs)[..k] + [Orders(cs)[k]]);
    } else {
      StartedByStopped(cs, Orders(cs)[..k], Orders(cs)[k]);
    }
  }

  lemma StartedByStopped(cs: seq<Component>, os: seq<nat>, o: nat)
    ensures Started(WaitLog(cs, os) + [Start(Wave(cs, o))]) == Joined(cs, os + [o])
    ensures Started(WaitLog(cs, os) + [Start(Wave(cs, o)), Wait(Wave(cs, o))]) == Joined(cs, os + [o])
  {
    var log, wave := WaitLog(cs, os), Wave(cs, o);
    StartedByWaitLog(cs, os);
    StartedTwo(log, wave);
    assert (log + [Start(wave)])[..|log|] == log;
    assert (os + [o])[..|os|] == os;
  }

  lemma OrdersStep(cs: seq<Component>, i: nat)
    requires i < |cs|
    ensures Orders(cs[..i + 1]) ==
              if i > 0 && Order(cs[i - 1]) == Order(cs[i]) then Orders(cs[..i]) else Orders(cs[..i]) + [Order(cs[i])]
  {
    assert cs[..i + 1][..i] == cs[..i];
  }

  lemma {:induction false} OrdersPrefix(cs: seq<Component>, i: nat)
    requires i <= |cs|
    ensures Orders(cs[..i]) <= Orders(cs)
    decreases |cs| - i
  {
    if i == |cs| {
      assert cs[..i] == cs;
    } else {
      OrdersStep(cs, i);
      OrdersPrefix(cs, i + 1);
    }
  }
}
