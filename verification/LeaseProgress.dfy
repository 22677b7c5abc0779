/** What a keeper makes of etcd's answers, and that it gets its lock back when etcd lets it. */
module LeaseProgress {
  import opened Wrappers
  import opened EtcdStore
  import opened LeaseKeeper
  import opened LeaseProtocol
  import opened LeaseSafety

  // ---- Starting

  /** A start whose owner put took effect and was answered. */
  ghost predicate Recorded(c: Cluster, e: Event, i: nat)
    requires i in c.inst
  {
    e == Do(i, OwnerTxn(true)) && FenceHolds(c.store, c.inst[i].leaseId, KeyOf(c, i))
  }

  /** A call of instance `i` that brings no lock, or an owner put that is not known to have taken effect. */
  ghost predicate GivenUp(c: Cluster, e: Event, i: nat)
    requires i in c.inst
  {
    e.Do? && e.i == i && (e.step.LockFails? || e.step.OwnerLost? || (e.step.OwnerTxn? && !Recorded(c, e, i)))
  }

  lemma StartLocal(c: Cluster, x: Instance, step: Step)
    requires InstanceOk(c.names, x) && EnabledFor(c, x, step) && !Running(x)
    ensures var y := Local(c, x, step);
            var done := step == OwnerTxn(true) && FenceHolds(c.store, x.leaseId, LockKey(c.names.lockDir, x.leaseId));
            && (Running(y) <==> done)
            && (done ==> x.pc.StartOwner? && y.state.Locked?)
            && (y.pc.Failed? <==> x.pc.Failed? || step.LockFails? || step.OwnerLost? || (step.OwnerTxn? && !done))
  {
  }

  lemma StartStep(c: Cluster, e: Event, i: nat)
    requires Inv(c) && Enabled(c, e) && i in c.inst && !Running(c.inst[i])
    ensures i in Apply(c, e).inst
    ensures var x, y := c.inst[i], Apply(c, e).inst[i];
            && (Running(y) <==> Recorded(c, e, i))
            && (Running(y) ==> x.pc.StartOwner? && y.state.Locked?)
            && (y.pc.Failed? <==> x.pc.Failed? || GivenUp(c, e, i))
  {
    if e.Do? && e.i == i {
      StartLocal(c, c.inst[i], e.step);
    } else {
      assert Apply(c, e).inst[i] == c.inst[i];
    }
  }

  /**
   An instance starts running exactly with an owner put that took effect and
   was answered, as the lock holder, in Locked and with its id recorded; it
   fails to start exactly when the lock or the put is not had.
   */
  lemma StartVerdict(r: Run, k: nat, i: nat)
    requires IsRun(r) && k < |r.events| && i in r.states[k].inst && !Running(r.states[k].inst[i])
    ensures i in r.states[k + 1].inst
    ensures var c, d := r.states[k], r.states[k + 1];
            && (Running(d.inst[i]) <==> Recorded(c, r.events[k], i))
            && (Running(d.inst[i]) ==> d.inst[i].state.Locked? && OwnerIsInstance(d, i))
            && (Running(d.inst[i]) ==> Holds(d.names, d.store, d.inst[i].leaseId))
            && (d.inst[i].pc.Failed? <==> c.inst[i].pc.Failed? || GivenUp(c, r.events[k], i))
  {
    assert StepAt(r, k);
    InvAt(r, k);
    StartStep(r.states[k], r.events[k], i);
  }

  /** What failed to start never runs and begins no write. */
  lemma {:induction false} FailedIsFinal(r: Run, k: nat, l: nat, i: nat)
    requires IsRun(r) && k <= l < |r.states| && i in r.states[k].inst && r.states[k].inst[i].pc.Failed?
    ensures i in r.states[l].inst && r.states[l].inst[i].pc.Failed?
    ensures l < |r.events| ==> !(r.events[l].BeginWrite? && r.events[l].i == i)
  {
    if k < l {
      FailedIsFinal(r, k, l - 1, i);
      StartVerdict(r, l - 1, i);
    }
    if l < |r.events| {
      assert StepAt(r, l);
    }
  }

  // ---- The lease as etcd has it

  /** A tick gives up KeepAlive for LeaseGrant exactly when etcd answered and no longer has the lease. */
  lemma TickVerdict(r: Run, k: nat, i: nat)
    requires IsRun(r) && k < |r.events| && r.events[k].Do? && r.events[k].i == i && r.events[k].step.KeepAliveTick?
    ensures i in r.states[k].inst && i in r.states[k + 1].inst
    ensures var c, next, step := r.states[k], r.states[k + 1].inst[i].state, r.events[k].step;
            var answered := step.sent && !step.probe.ProbeFailed?;
            var gone := step.probe.ProbeTtl? && c.inst[i].leaseId !in c.store.leases;
            && (next.LeaseGrant? <==> answered && gone)
            && (next.KeepAlive? <==> answered && !gone)
            && (next.Reconnect? <==> !answered)
  {
    assert StepAt(r, k);
  }

  /** A keeper that has to make sure of its lease asks for a new grant exactly when it did not find it at etcd. */
  lemma ProbeVerdict(r: Run, k: nat, i: nat)
    requires IsRun(r) && k < |r.events| && r.events[k].Do? && r.events[k].i == i && r.events[k].step.GrantProbe?
    ensures i in r.states[k].inst && i in r.states[k + 1].inst
    ensures var c, x := r.states[k], r.states[k + 1].inst[i];
            var found := r.events[k].step.ttl.Some? && c.inst[i].leaseId in c.store.leases;
            && (x.state == Locking(x.leaseId) <==> found)
            && (x.pc == GrantCalling <==> !found)
  {
    assert StepAt(r, k);
    InvAt(r, k);
  }

  // ---- Getting the lock back

  /** How far instance `x` has come: the lease and the key it has shown etcd to have, and its id recorded. */
  ghost predicate OnCourse(c: Cluster, i: nat) {
    && i in c.inst && Running(c.inst[i])
    && var x := c.inst[i];
       var key := KeyOf(c, i);
       && !x.state.Replaced? && OwnerFree(c, i)
       && (forall k | k in c.store.kv && IsLock(c.names, k) :: k == key)
       && (x.pc.GrantCalling? ==> x.leaseId !in c.store.leases)
       && (HasLease(x) ==> x.leaseId in c.store.leases)
       && (HasKey(x) ==> key in c.store.kv)
       && (HasRecorded(x) ==> OwnerIsInstance(c, i))
       && (HasPublished(x) ==> x.info.Some? && x.info.value.leaseId == Some(x.leaseId))
  }

  predicate HasLease(x: Instance) {
    x.state.Locking? || HasRecorded(x)
  }

  predicate HasKey(x: Instance) {
    x.pc == LockWait(true) || x.pc.OwnerPutting? || HasRecorded(x)
  }

  predicate HasRecorded(x: Instance) {
    x.state.Locked? || x.state.KeepAlive?
  }

  predicate HasPublished(x: Instance) {
    x.pc.KeepOpening? || x.state.KeepAlive?
  }

  /** The steps still to go. */
  function StepsLeft(x: Instance): nat {
    match x.pc
    case ExpiredCheck => 10
    case ExpiredStatus => 9
    case GrantCalling => 7
    case LockWait(queued) => if queued then 4 else 5
    case OwnerPutting(_) => 3
    case KeepOpening => 1
    case _ =>
      match x.state
      case Reconnect(_) => 12
      case LeaseExpired => 11
      case LeaseGrant => 8
      case Locking(_) => 6
      case Locked(_, _) => 2
      case _ => 0
  }

  /** A step that etcd answers as asked. */
  predicate Answered(step: Step) {
    match step
    case ServeLock => true
    case GrantLock => true
    case OwnerTxn(acked) => acked
    case ExpiredUnset => true
    case ExpiredRead(ok) => ok
    case StatusReply(up) => up
    case GrantProbe(ttl) => ttl.Some?
    case GrantCall(served, acked) => served && acked
    case LockCheck(ok) => ok
    case LockedSet => true
    case KeepOpened(ok) => ok
    case KeepAliveTick(sent, probe) => sent && !probe.ProbeFailed?
    case ReconnectTick(up) => up
    case _ => false
  }

  /** What may happen besides: writes of any instance and of others, and leases of others expiring. */
  ghost predicate Aside(c: Cluster, e: Event, i: nat) {
    || e.BeginWrite? || e.CommitWrite? || e.DropWrite? || e.ForeignWrite?
    || (e.ExpireLease? && i in c.inst && e.id != c.inst[i].leaseId)
  }

  /** There is always a step to make. */
  lemma NeverStuck(c: Cluster, i: nat) returns (step: Step)
    requires Inv(c) && OnCourse(c, i)
    ensures Answered(step) && EnabledFor(c, c.inst[i], step)
  {
    var x := c.inst[i];
    step := match x.pc
      case ExpiredCheck => ExpiredRead(true)
      case ExpiredStatus => StatusReply(true)
      case GrantCalling => GrantCall(true, true)
      case LockWait(queued) => if queued then GrantLock else ServeLock
      case OwnerPutting(_) => OwnerTxn(true)
      case KeepOpening => KeepOpened(true)
      case _ =>
        match x.state
        case Reconnect(_) => ReconnectTick(true)
        case LeaseExpired => ExpiredUnset
        case LeaseGrant => GrantProbe(Some(if x.leaseId in c.store.leases then 0 else -1))
        case Locking(_) => LockCheck(true)
        case Locked(_, _) => LockedSet
        case _ => KeepAliveTick(true, NoProbe);
  }

  lemma LocalCloser(c: Cluster, x: Instance, step: Step)
    requires InstanceOk(c.names, x) && Running(x) && !x.state.Replaced? && EnabledFor(c, x, step) && Answered(step)
    requires IsReplaced(ReadOwner(c, true), x.leaseId) == Some(false)
    requires x.state.KeepAlive? ==> x.leaseId in c.store.leases
    requires x.pc.OwnerPutting? ==> FenceHolds(c.store, x.leaseId, x.pc.key)
    ensures var y := Local(c, x, step);
            && Running(y) && !y.state.Replaced? && y.leaseId == x.leaseId
            && (if x.state.KeepAlive? then y == x else StepsLeft(y) < StepsLeft(x))
  {
  }

  /** What each answered step leaves etcd with. */
  lemma StoreOnCourse(c: Cluster, i: nat, step: Step)
    requires Inv(c) && OnCourse(c, i) && EnabledFor(c, c.inst[i], step) && Answered(step)
    ensures var t, key := OnStore(c, c.inst[i], step), KeyOf(c, i);
            && (forall k | k in t.kv && IsLock(c.names, k) :: k == key)
            && (key in c.store.kv || step == ServeLock ==> key in t.kv)
            && (c.inst[i].leaseId in c.store.leases || step.GrantCall? ==> c.inst[i].leaseId in t.leases)
            && (step.OwnerTxn? ==> c.names.ownerKey in t.kv
                                   && t.kv[c.names.ownerKey].value == LeaseIdStr(c.inst[i].leaseId))
            && (!step.OwnerTxn? ==> SameAt(c.store, t, c.names.ownerKey))
  {
    assert IsLock(c.names, KeyOf(c, i)) && KeyOf(c, i) != c.names.ownerKey;
    if step.OwnerTxn? {
      assert FenceHolds(c.store, c.inst[i].leaseId, c.inst[i].pc.key);
    }
  }

  lemma StepOnCourse(c: Cluster, i: nat, step: Step)
    requires Inv(c) && OnCourse(c, i) && EnabledFor(c, c.inst[i], step) && Answered(step)
    ensures OnCourse(Apply(c, Do(i, step)), i)
    ensures var x, y := c.inst[i], Apply(c, Do(i, step)).inst[i];
            if x.state.KeepAlive? then y == x else StepsLeft(y) < StepsLeft(x)
  {
    StoreOnCourse(c, i, step);
    LocalCloser(c, c.inst[i], step);
    LocalOk(c, c.inst[i], step);
    LocalGains(c, c.inst[i], step);
  }

  /** Nothing is claimed after a step that was not there before or shown by it. */
  lemma LocalGains(c: Cluster, x: Instance, step: Step)
    requires InstanceOk(c.names, x) && Running(x) && EnabledFor(c, x, step) && Answered(step)
    requires IsReplaced(ReadOwner(c, true), x.leaseId) == Some(false)
    ensures var y := Local(c, x, step);
            && (y.pc.GrantCalling? ==> step.GrantProbe? && x.leaseId !in c.store.leases)
            && (HasLease(y) ==> HasLease(x) || step.GrantCall? || (step.GrantProbe? && x.leaseId in c.store.leases))
            && (HasKey(y) ==> HasKey(x) || step == ServeLock)
            && (HasRecorded(y) ==> HasRecorded(x) || step.OwnerTxn?)
            && (HasPublished(y) ==> HasPublished(x) || step == LockedSet)
            && (step == LockedSet ==> y.info.Some? && y.info.value.leaseId == Some(x.leaseId))
            && (step != LockedSet && !step.ExpiredUnset? ==> y.info == x.info)
            && (step.ExpiredUnset? ==> !HasPublished(y))
  {
  }

  lemma AsideKeepsStore(c: Cluster, e: Event, i: nat)
    requires Inv(c) && OnCourse(c, i) && Enabled(c, e) && Aside(c, e, i)
    ensures var s, t := c.store, Apply(c, e).store;
            && Apply(c, e).inst == c.inst && Apply(c, e).names == c.names
            && SameAt(s, t, c.names.ownerKey) && (c.inst[i].leaseId in t.leases <==> c.inst[i].leaseId in s.leases)
            && (forall k | IsLock(c.names, k) && (k in t.kv || k == KeyOf(c, i)) :: SameAt(s, t, k))
  {
    var s, t, key := c.store, Apply(c, e).store, KeyOf(c, i);
    assert IsLock(c.names, key);
    OwnerStep(c, e);
    forall k | IsLock(c.names, k) && (k in t.kv || k == key) ensures SameAt(s, t, k) {
      if k in t.kv {
        LockKeysStep(c, e, k);
      } else if e.CommitWrite? {
        assert !Touches(c.inflight[e.w].op, k);
      } else if e.ForeignWrite? {
        assert !Touches(e.op, k);
      }
    }
  }

  lemma AsideOnCourse(c: Cluster, e: Event, i: nat)
    requires Inv(c) && OnCourse(c, i) && Enabled(c, e) && Aside(c, e, i)
    ensures OnCourse(Apply(c, e), i) && Apply(c, e).inst[i] == c.inst[i]
  {
    AsideKeepsStore(c, e, i);
    assert IsLock(c.names, KeyOf(c, i));
  }

  /** From `k` to `l`, etcd answers instance `i`, and otherwise only writes happen and other leases expire. */
  ghost predicate Undisturbed(r: Run, k: nat, l: nat, i: nat)
    requires IsRun(r) && l <= |r.events|
  {
    forall m: nat | k <= m < l :: Aside(r.states[m], r.events[m], i) || MovesAt(r, m, i)
  }

  ghost predicate MovesAt(r: Run, m: nat, i: nat)
    requires m < |r.events|
  {
    r.events[m].Do? && r.events[m].i == i && Answered(r.events[m].step)
  }

  /** The steps instance `i` makes from `k` up to, not including, `l`. */
  ghost function Moves(r: Run, k: nat, l: nat, i: nat): nat
    requires l <= |r.events|
    decreases l
  {
    if l <= k then 0 else Moves(r, k, l - 1, i) + if MovesAt(r, l - 1, i) then 1 else 0
  }

  lemma {:induction false} Approaches(r: Run, k: nat, l: nat, i: nat)
    requires IsRun(r) && k <= l < |r.states| && OnCourse(r.states[k], i) && Undisturbed(r, k, l, i)
    ensures OnCourse(r.states[l], i)
    ensures r.states[l].inst[i].state.KeepAlive? ||
            StepsLeft(r.states[l].inst[i]) + Moves(r, k, l, i) <= StepsLeft(r.states[k].inst[i])
    decreases l
  {
    if k < l {
      Approaches(r, k, l - 1, i);
      InvAt(r, l - 1);
      assert StepAt(r, l - 1);
      var c, e := r.states[l - 1], r.events[l - 1];
      if MovesAt(r, l - 1, i) {
        StepOnCourse(c, i, e.step);
      } else {
        AsideOnCourse(c, e, i);
      }
    }
  }

  /** In KeepAlive with the lock held, the id recorded and the lease published. */
  ghost predicate Settled(c: Cluster, i: nat) {
    && i in c.inst && Running(c.inst[i]) && c.inst[i].state.KeepAlive?
    && Holds(c.names, c.store, c.inst[i].leaseId) && OwnerIsInstance(c, i)
    && c.inst[i].info.Some? && c.inst[i].info.value.leaseId == Some(c.inst[i].leaseId)
  }

  /**
   However far a keeper has fallen back, if it has not been replaced and nobody
   else has a lock key, then after at most twelve answered steps it is in
   KeepAlive, holds the lock, is recorded and has its lease published; and it
   stays so for as long as its lease lives and etcd answers.
   */
  lemma KeeperSettles(r: Run, k: nat, l: nat, i: nat)
    requires IsRun(r) && k <= l < |r.states| && OnCourse(r.states[k], i) && Undisturbed(r, k, l, i)
    requires r.states[k].inst[i].state.KeepAlive? || Moves(r, k, l, i) >= 12
    ensures Settled(r.states[l], i)
  {
    Approaches(r, k, l, i);
    InvAt(r, l);
    if r.states[k].inst[i].state.KeepAlive? {
      StaysAlive(r, k, l, i);
    }
    assert IsLock(r.states[l].names, KeyOf(r.states[l], i));
  }

  lemma {:induction false} StaysAlive(r: Run, k: nat, l: nat, i: nat)
    requires IsRun(r) && k <= l < |r.states| && OnCourse(r.states[k], i) && Undisturbed(r, k, l, i)
    requires r.states[k].inst[i].state.KeepAlive?
    ensures OnCourse(r.states[l], i) && r.states[l].inst[i] == r.states[k].inst[i]
    decreases l
  {
    if k < l {
      StaysAlive(r, k, l - 1, i);
      InvAt(r, l - 1);
      assert StepAt(r, l - 1);
      var c, e := r.states[l - 1], r.events[l - 1];
      if MovesAt(r, l - 1, i) {
        StepOnCourse(c, i, e.step);
      } else {
        AsideOnCourse(c, e, i);
      }
    }
  }
}
