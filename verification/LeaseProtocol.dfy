/**
 Any number of service instances, each running the keeper of `LeaseKeeper`,
 interleaved with etcd.  A cycle of a keeper is cut at every call it awaits, so
 leases may expire, lock keys may vanish and other instances may move between
 any two calls.  Writes read the published (lease, lock key) pair in one step
 and reach etcd in a later one, or never.

 What is taken for granted about etcd: every instance starts with a lease id no
 other instance has; a lease is granted again under the id asked for; the key of
 a lock request is named after the lock and the lease; the earliest created key
 holds the lock; expiry deletes the attached keys; a lock call its caller has
 stopped waiting for creates no key afterwards; and other writers stay away from
 the lock and owner keys.  An owner put given up on may still take effect.
 */
module LeaseProtocol {
  import opened Wrappers
  import opened EtcdStore
  import opened LeaseKeeper

  // ---- State

  /** `lockDir` is the lock's name with the slash etcd puts before the lease. */
  datatype Names = Names(lockDir: Bytes, ownerKey: Bytes)

  /** The call an instance is waiting for; `Between` when a new cycle is due. */
  datatype Pc =
    | StartLock(queued: bool)
    | StartOwner(key: Bytes)
    | Failed
    | Between
    | ExpiredCheck
    | ExpiredStatus
    | GrantCalling
    | LockWait(queued: bool)
    | OwnerPutting(key: Bytes)
    | KeepOpening

  datatype Info = Info(leaseId: Option<int>, lockKey: Bytes)

  datatype Instance = Instance(leaseId: int, state: KeeperState, pc: Pc, info: Option<Info>)

  datatype Write = Write(inst: nat, leaseId: int, lockKey: Bytes, op: WriteOp)

  /** `late` are the instances with an owner put they gave up on, which may still take effect. */
  datatype Cluster = Cluster(
    names: Names,
    store: Store,
    inst: map<nat, Instance>,
    inflight: map<nat, Write>,
    late: multiset<nat>)

  /** The steps of one instance: a call answered, or a local action between calls. */
  datatype Step =
    // the lock service, for start and for Locking alike
    | ServeLock
    | GrantLock
    | LockFails(reply: LockReply)
    | OwnerTxn(acked: bool)
    | OwnerLost
    // keeper cycles
    | ExpiredUnset
    | ExpiredRead(ok: bool)
    | StatusReply(up: bool)
    | GrantProbe(ttl: Option<int>)
    | GrantCall(served: bool, acked: bool)
    | LockCheck(ok: bool)
    | LockedSet
    | KeepOpened(ok: bool)
    | KeepAliveTick(sent: bool, probe: ProbeReply)
    | ReconnectTick(up: bool)
    // the key is unlocked, or its abandoned lock request is cleaned up
    | LockKeyRemoved

  datatype Event =
    | StartGrant(i: nat, id: int)
    | Do(i: nat, step: Step)
    | BeginWrite(i: nat, op: WriteOp, w: nat)
    | CommitWrite(w: nat)
    | DropWrite(w: nat)
    | LandOwner(i: nat)
    | ExpireLease(id: int)
    | ForeignWrite(op: WriteOp)

  predicate IsLock(names: Names, key: Bytes) {
    names.lockDir <= key
  }

  ghost predicate Unreserved(names: Names, op: WriteOp) {
    && !Touches(op, names.ownerKey)
    && forall key | IsLock(names, key) :: !Touches(op, key)
  }

  function KeyOf(c: Cluster, i: nat): Bytes
    requires i in c.inst
  {
    LockKey(c.names.lockDir, c.inst[i].leaseId)
  }

  function ReadOwner(c: Cluster, ok: bool): OwnerReply {
    if !ok then OwnerUnknown
    else if c.names.ownerKey in c.store.kv then OwnerIs(c.store.kv[c.names.ownerKey].value)
    else OwnerMissing
  }

  predicate Running(x: Instance) {
    !x.pc.StartLock? && !x.pc.StartOwner? && !x.pc.Failed?
  }

  // ---- Steps

  /** No lock key is older than this one: what the lock service waits for. */
  ghost predicate Oldest(names: Names, s: Store, key: Bytes) {
    && key in s.kv
    && forall k | k in s.kv && IsLock(names, k) :: s.kv[key].createRev <= s.kv[k].createRev
  }

  ghost predicate EnabledFor(c: Cluster, x: Instance, step: Step) {
    match step
    case ServeLock => (x.pc == LockWait(false) || x.pc == StartLock(false)) && x.leaseId in c.store.leases
    case GrantLock =>
      && (x.pc == LockWait(true) || x.pc == StartLock(true))
      && Oldest(c.names, c.store, LockKey(c.names.lockDir, x.leaseId))
    case LockFails(reply) => (x.pc.LockWait? || x.pc.StartLock?) && !reply.LockGranted?
    case OwnerTxn(_) => x.pc.OwnerPutting? || x.pc.StartOwner?
    case OwnerLost => x.pc.OwnerPutting? || x.pc.StartOwner?
    case ExpiredUnset => x.pc == Between && x.state.LeaseExpired?
    case ExpiredRead(_) => x.pc == ExpiredCheck
    case StatusReply(_) => x.pc == ExpiredStatus
    case GrantProbe(ttl) =>
      && x.pc == Between && x.state.LeaseGrant?
      && (ttl.Some? ==> (ttl.value >= 0 <==> x.leaseId in c.store.leases))
    case GrantCall(served, acked) =>
      x.pc == GrantCalling && (acked ==> served) && (served ==> x.leaseId !in c.store.leases)
    case LockCheck(_) => x.pc == Between && x.state.Locking?
    case LockedSet => x.pc == Between && x.state.Locked?
    case KeepOpened(_) => x.pc == KeepOpening
    case KeepAliveTick(sent, probe) =>
      && x.pc == Between && x.state.KeepAlive?
      && (sent && probe.ProbeTtl? ==> (probe.ttl > 0 <==> x.leaseId in c.store.leases))
    case ReconnectTick(_) => x.pc == Between && x.state.Reconnect?
    case LockKeyRemoved => true
  }

  ghost predicate Enabled(c: Cluster, e: Event) {
    match e
    case StartGrant(i, id) =>
      && i !in c.inst && IsLeaseId(id) && id !in c.store.leases
      && forall j | j in c.inst :: c.inst[j].leaseId != id
    case Do(i, step) => i in c.inst && EnabledFor(c, c.inst[i], step)
    case BeginWrite(i, op, w) => i in c.inst && Running(c.inst[i]) && w !in c.inflight && Unreserved(c.names, op)
    case CommitWrite(w) => w in c.inflight
    case DropWrite(w) => w in c.inflight
    case LandOwner(i) => i in c.late && i in c.inst
    case ExpireLease(id) => id in c.store.leases
    case ForeignWrite(op) => Unreserved(c.names, op)
  }

  /** The keeper ends its cycle in the given state. */
  function End(x: Instance, state: KeeperState): Instance {
    x.(state := state, pc := Between)
  }

  /** What a step does to its instance. */
  function Local(c: Cluster, x: Instance, step: Step): Instance {
    var id := x.leaseId;
    var key := LockKey(c.names.lockDir, id);
    match step
    case ServeLock => x.(pc := if x.pc.StartLock? then StartLock(true) else LockWait(true))
    case GrantLock =>
      if x.pc.StartLock? then x.(pc := StartOwner(key), info := Some(Info(Some(id), key)))
      else x.(pc := OwnerPutting(key))
    case LockFails(reply) =>
      if x.pc.StartLock? then x.(pc := Failed)
      else End(x, ClockLocking(id, Some(false), reply, false))
    case OwnerTxn(acked) =>
      if x.pc.OwnerPutting? then
        var done := acked && FenceHolds(c.store, id, x.pc.key);
        End(x, ClockLocking(id, Some(false), LockGranted(x.pc.key), done))
      else if x.pc.StartOwner? && acked && FenceHolds(c.store, id, x.pc.key) then End(x, Locked(x.pc.key, id))
      else x.(pc := Failed)
    case OwnerLost =>
      if x.pc.OwnerPutting? then End(x, ClockLocking(id, Some(false), LockGranted(x.pc.key), false))
      else x.(pc := Failed)
    case ExpiredUnset => x.(pc := ExpiredCheck, info := Publishing(x))
    case ExpiredRead(ok) =>
      var replaced := IsReplaced(ReadOwner(c, ok), id);
      if replaced == Some(true) then End(x, ClockLeaseExpired(replaced, false)) else x.(pc := ExpiredStatus)
    case StatusReply(up) => End(x, ClockLeaseExpired(Some(false), up))
    case GrantProbe(ttl) =>
      if ttl.Some? && ttl.value >= 0 then End(x, ClockLeaseGrant(id, ttl, None)) else x.(pc := GrantCalling)
    case GrantCall(_, acked) => End(x, ClockLeaseGrant(id, None, if acked then Some(id) else None))
    case LockCheck(ok) =>
      var replaced := IsReplaced(ReadOwner(c, ok), id);
      if replaced == Some(false) then x.(pc := LockWait(false))
      else End(x, ClockLocking(id, replaced, LockError, false))
    case LockedSet => x.(pc := KeepOpening, info := Publishing(x))
    case KeepOpened(ok) => End(x, ClockLocked(key, ok))
    case KeepAliveTick(sent, probe) => End(x, ClockKeepAlive(key, sent, probe))
    case ReconnectTick(up) => if x.state.Reconnect? then End(x, ClockReconnect(x.state.delay, up)) else x
    case LockKeyRemoved => x
  }

  function Publishing(x: Instance): Option<Info> {
    if x.info.Some? then Some(x.info.value.(leaseId := Publish(x.state, x.leaseId, x.info.value.leaseId)))
    else None
  }

  /** What a step of instance `x` does to the store. */
  function OnStore(c: Cluster, x: Instance, step: Step): Store {
    var key := LockKey(c.names.lockDir, x.leaseId);
    match step
    case ServeLock => if key in c.store.kv then c.store else PutKey(c.store, key, [], x.leaseId)
    case OwnerTxn(_) =>
      if x.pc.OwnerPutting? || x.pc.StartOwner?
      then FencedWrite(c.store, x.leaseId, x.pc.key, Put(c.names.ownerKey, LeaseIdStr(x.leaseId)))
      else c.store
    case GrantCall(served, _) => if served then Grant(c.store, x.leaseId) else c.store
    case LockKeyRemoved => DeleteKeys(c.store, {key})
    case _ => c.store
  }

  ghost function Apply(c: Cluster, e: Event): Cluster
    requires Enabled(c, e)
  {
    match e
    case StartGrant(i, id) =>
      var x := Instance(id, Locked(LockKey(c.names.lockDir, id), id), StartLock(false), None);
      c.(inst := c.inst[i := x], store := Grant(c.store, id))
    case Do(i, step) =>
      var x := c.inst[i];
      c.(store := OnStore(c, x, step), inst := c.inst[i := Local(c, x, step)],
         late := if step == OwnerLost then c.late + multiset{i} else c.late)
    case BeginWrite(i, op, w) =>
      var x := c.inst[i];
      if x.info.Some? && x.info.value.leaseId.Some?
      then c.(inflight := c.inflight[w := Write(i, x.info.value.leaseId.value, x.info.value.lockKey, op)])
      else c
    case CommitWrite(w) =>
      var pending := c.inflight[w];
      c.(store := FencedWrite(c.store, pending.leaseId, pending.lockKey, pending.op), inflight := c.inflight - {w})
    case DropWrite(w) => c.(inflight := c.inflight - {w})
    case LandOwner(i) =>
      var id := c.inst[i].leaseId;
      c.(store := FencedWrite(c.store, id, KeyOf(c, i), Put(c.names.ownerKey, LeaseIdStr(id))),
         late := c.late - multiset{i})
    case ExpireLease(id) => c.(store := Expire(c.store, id))
    case ForeignWrite(op) => c.(store := ApplyOp(c.store, op))
  }

  // ---- Runs

  /** The owner record outlives every lease. */
  ghost predicate OwnerUnleased(c: Cluster) {
    && 0 !in c.store.leases
    && (c.names.ownerKey in c.store.kv ==> c.store.kv[c.names.ownerKey].lease == 0)
  }

  datatype Run = Run(states: seq<Cluster>, events: seq<Event>)

  ghost predicate Initial(c: Cluster) {
    && !IsLock(c.names, c.names.ownerKey)
    && WellFormed(c.store)
    && c.inst == map[] && c.inflight == map[] && c.late == multiset{}
    && OwnerUnleased(c)
    && forall key | key in c.store.kv :: !IsLock(c.names, key)
  }

  ghost predicate StepAt(r: Run, k: nat)
    requires k < |r.events| && |r.states| == |r.events| + 1
  {
    Enabled(r.states[k], r.events[k]) && r.states[k + 1] == Apply(r.states[k], r.events[k])
  }

  ghost predicate IsRun(r: Run) {
    && |r.states| == |r.events| + 1
    && Initial(r.states[0])
    && forall k: nat | k < |r.events| :: StepAt(r, k)
  }

  // ---- What every step keeps

  /** Instances that etcd has told they hold the lock, and that have not moved on. */
  predicate PostGrant(x: Instance) {
    || x.pc.StartOwner? || x.pc.OwnerPutting?
    || ((x.pc.Between? || x.pc.KeepOpening?) && (x.state.Locked? || x.state.KeepAlive?))
  }

  /** The one holder of the lock: its key is strictly older than every other lock key. */
  ghost predicate Holds(names: Names, s: Store, id: int) {
    var key := LockKey(names.lockDir, id);
    && key in s.kv
    && forall k | k in s.kv && IsLock(names, k) && k != key :: s.kv[key].createRev < s.kv[k].createRev
  }

  predicate InstanceOk(names: Names, x: Instance) {
    var key := LockKey(names.lockDir, x.leaseId);
    && IsLeaseId(x.leaseId)
    && Coherent(names.lockDir, x.leaseId, x.state)
    && (x.pc.OwnerPutting? || x.pc.StartOwner? ==> x.pc.key == key)
    && (x.pc.LockWait? || x.pc.OwnerPutting? ==> x.state.Locking?)
    && (x.pc.ExpiredCheck? || x.pc.ExpiredStatus? ==> x.state.LeaseExpired?)
    && (x.pc.GrantCalling? ==> x.state.LeaseGrant?)
    && (x.pc.KeepOpening? || x.pc.StartLock? || x.pc.StartOwner? ==> x.state.Locked?)
    && (Running(x) || x.pc.StartOwner? ==> x.info.Some?)
    && (x.info.Some? ==> x.info.value.lockKey == key)
    && (x.info.Some? && x.info.value.leaseId.Some? ==> x.info.value.leaseId.value == x.leaseId)
  }

  ghost predicate InstancesOk(c: Cluster) {
    && (forall i | i in c.inst :: InstanceOk(c.names, c.inst[i]))
    && (forall i, j | i in c.inst && j in c.inst && i != j :: c.inst[i].leaseId != c.inst[j].leaseId)
    && (forall w | w in c.inflight ::
          && c.inflight[w].inst in c.inst
          && c.inflight[w].leaseId == c.inst[c.inflight[w].inst].leaseId
          && c.inflight[w].lockKey == KeyOf(c, c.inflight[w].inst)
          && Unreserved(c.names, c.inflight[w].op))
    && (forall i | i in c.late :: i in c.inst)
  }

  /** A lock key belongs to an instance that has started. */
  ghost predicate Owned(c: Cluster, key: Bytes) {
    exists i :: i in c.inst && key == KeyOf(c, i)
  }

  ghost predicate LocksOk(c: Cluster) {
    && !IsLock(c.names, c.names.ownerKey)
    && WellFormed(c.store)
    && OwnerUnleased(c)
    && (forall k, l | k in c.store.kv && l in c.store.kv && IsLock(c.names, k) && IsLock(c.names, l) && k != l ::
          c.store.kv[k].createRev != c.store.kv[l].createRev)
    && (forall k | k in c.store.kv && IsLock(c.names, k) :: Owned(c, k))
    && (forall i | i in c.inst && KeyOf(c, i) in c.store.kv :: c.store.kv[KeyOf(c, i)].lease == c.inst[i].leaseId)
    && (forall i | i in c.inst && PostGrant(c.inst[i]) && KeyOf(c, i) in c.store.kv ::
          Holds(c.names, c.store, c.inst[i].leaseId))
  }

  ghost predicate Inv(c: Cluster) {
    InstancesOk(c) && LocksOk(c)
  }

  lemma LocalOk(c: Cluster, x: Instance, step: Step)
    requires InstanceOk(c.names, x) && EnabledFor(c, x, step)
    ensures InstanceOk(c.names, Local(c, x, step))
    ensures Local(c, x, step).leaseId == x.leaseId
  {
  }

  lemma ReplaceInstance(c: Cluster, i: nat, x: Instance, s: Store, late: multiset<nat>)
    requires InstancesOk(c) && i in c.inst && InstanceOk(c.names, x) && x.leaseId == c.inst[i].leaseId
    requires forall j | j in late :: j in c.inst
    ensures InstancesOk(c.(store := s, inst := c.inst[i := x], late := late))
  {
  }

  lemma AddInstance(c: Cluster, i: nat, x: Instance, s: Store)
    requires InstancesOk(c) && i !in c.inst && InstanceOk(c.names, x)
    requires forall j | j in c.inst :: c.inst[j].leaseId != x.leaseId
    ensures InstancesOk(c.(store := s, inst := c.inst[i := x]))
  {
  }

  lemma AddWrite(c: Cluster, w: nat, pending: Write)
    requires InstancesOk(c) && pending.inst in c.inst && Unreserved(c.names, pending.op)
    requires pending.leaseId == c.inst[pending.inst].leaseId && pending.lockKey == KeyOf(c, pending.inst)
    ensures InstancesOk(c.(inflight := c.inflight[w := pending]))
  {
  }

  /** No instance is lost, and none changes its lease. */
  ghost predicate Continues(c: Cluster, d: Cluster) {
    && d.names == c.names
    && forall i | i in c.inst :: i in d.inst && d.inst[i].leaseId == c.inst[i].leaseId
  }

  lemma InstancesOkStart(c: Cluster, i: nat, id: int)
    requires InstancesOk(c) && Enabled(c, StartGrant(i, id))
    ensures InstancesOk(Apply(c, StartGrant(i, id))) && Continues(c, Apply(c, StartGrant(i, id)))
  {
    var d := Apply(c, StartGrant(i, id));
    AddInstance(c, i, d.inst[i], d.store);
  }

  lemma InstancesOkDo(c: Cluster, i: nat, step: Step)
    requires InstancesOk(c) && Enabled(c, Do(i, step))
    ensures InstancesOk(Apply(c, Do(i, step))) && Continues(c, Apply(c, Do(i, step)))
    ensures Apply(c, Do(i, step)).inst.Keys == c.inst.Keys
  {
    LocalOk(c, c.inst[i], step);
    var late := Apply(c, Do(i, step)).late;
    ReplaceInstance(c, i, Local(c, c.inst[i], step), OnStore(c, c.inst[i], step), late);
  }

  lemma InstancesOkBegin(c: Cluster, i: nat, op: WriteOp, w: nat)
    requires InstancesOk(c) && Enabled(c, BeginWrite(i, op, w))
    ensures InstancesOk(Apply(c, BeginWrite(i, op, w))) && Continues(c, Apply(c, BeginWrite(i, op, w)))
    ensures Apply(c, BeginWrite(i, op, w)).inst == c.inst
  {
    var d := Apply(c, BeginWrite(i, op, w));
    if w in d.inflight {
      AddWrite(c, w, d.inflight[w]);
    }
  }

  lemma InstancesOkRest(c: Cluster, e: Event)
    requires InstancesOk(c) && Enabled(c, e) && !e.StartGrant? && !e.Do? && !e.BeginWrite?
    ensures InstancesOk(Apply(c, e)) && Continues(c, Apply(c, e))
    ensures Apply(c, e).inst == c.inst
  {
  }

  lemma InstancesOkStep(c: Cluster, e: Event)
    requires InstancesOk(c) && Enabled(c, e)
    ensures InstancesOk(Apply(c, e)) && Continues(c, Apply(c, e))
    ensures forall i | i in Apply(c, e).inst :: i in c.inst || e.StartGrant?
  {
    match e
    case StartGrant(i, id) => InstancesOkStart(c, i, id);
    case Do(i, step) => InstancesOkDo(c, i, step);
    case BeginWrite(i, op, w) => InstancesOkBegin(c, i, op, w);
    case _ => InstancesOkRest(c, e);
  }

  /** A step of an instance leaves alone every lock key but its own, and creates only that. */
  lemma OnStoreLocks(c: Cluster, x: Instance, step: Step, k: Bytes)
    requires InstanceOk(c.names, x) && EnabledFor(c, x, step) && LocksOk(c)
    requires IsLock(c.names, k) && k in OnStore(c, x, step).kv
    ensures var s, t := c.store, OnStore(c, x, step);
            || (k in s.kv && t.kv[k] == s.kv[k])
            || (&& k !in s.kv && step == ServeLock && k == LockKey(c.names.lockDir, x.leaseId)
                && t.kv[k].createRev > s.rev && t.kv[k].lease == x.leaseId)
  {
    if step.OwnerTxn? {
      assert k != c.names.ownerKey;
      assert SameAt(c.store, OnStore(c, x, step), k);
    } else if step.LockKeyRemoved? {
      assert k != LockKey(c.names.lockDir, x.leaseId);
      assert SameAt(c.store, OnStore(c, x, step), k);
    }
  }

  /** A lock key appears only when its own instance's request is served, and then it is the newest. */
  ghost predicate KeptOrServed(c: Cluster, e: Event, t: Store, k: Bytes)
    requires k in t.kv
  {
    || (k in c.store.kv && t.kv[k] == c.store.kv[k])
    || (&& k !in c.store.kv && e.Do? && e.step == ServeLock && e.i in c.inst && k == KeyOf(c, e.i)
        && t.kv[k].createRev > c.store.rev && t.kv[k].lease == c.inst[e.i].leaseId)
  }

  lemma LockKeysStep(c: Cluster, e: Event, k: Bytes)
    requires Inv(c) && Enabled(c, e)
    requires IsLock(c.names, k) && k in Apply(c, e).store.kv
    ensures KeptOrServed(c, e, Apply(c, e).store, k)
  {
    match e
    case CommitWrite(w) =>
      assert !Touches(c.inflight[w].op, k);
      assert SameAt(c.store, Apply(c, e).store, k);
    case ForeignWrite(op) =>
      assert !Touches(op, k);
      assert SameAt(c.store, Apply(c, e).store, k);
    case Do(i, step) => OnStoreLocks(c, c.inst[i], step, k);
    case _ =>
  }

  lemma OnStoreWell(c: Cluster, x: Instance, step: Step)
    requires WellFormed(c.store)
    ensures WellFormed(OnStore(c, x, step)) && OnStore(c, x, step).rev >= c.store.rev
  {
  }

  lemma StoreStep(c: Cluster, e: Event)
    requires Inv(c) && Enabled(c, e)
    ensures WellFormed(Apply(c, e).store) && Apply(c, e).store.rev >= c.store.rev
  {
    if e.Do? {
      OnStoreWell(c, c.inst[e.i], e.step);
    }
  }

  /** The event is an owner put of instance `e.i`, made now or given up on before. */
  ghost predicate PutsOwner(c: Cluster, e: Event) {
    || (e.LandOwner? && e.i in c.inst)
    || (e.Do? && e.step.OwnerTxn? && e.i in c.inst && (c.inst[e.i].pc.OwnerPutting? || c.inst[e.i].pc.StartOwner?))
  }

  /** The event is an owner put that passes its fence and records the instance's id. */
  ghost predicate RecordsOwner(c: Cluster, e: Event, t: Store) {
    && PutsOwner(c, e)
    && FenceHolds(c.store, c.inst[e.i].leaseId, KeyOf(c, e.i))
    && c.names.ownerKey in t.kv
    && t.kv[c.names.ownerKey].value == LeaseIdStr(c.inst[e.i].leaseId)
    && t.kv[c.names.ownerKey].lease == 0
  }

  lemma OnStoreOwner(c: Cluster, i: nat, step: Step)
    requires Inv(c) && i in c.inst && EnabledFor(c, c.inst[i], step)
    ensures var t := OnStore(c, c.inst[i], step);
            && (SameAt(c.store, t, c.names.ownerKey) || RecordsOwner(c, Do(i, step), t))
            && 0 !in t.leases
  {
    assert IsLock(c.names, KeyOf(c, i));
  }

  lemma OwnerStep(c: Cluster, e: Event)
    requires Inv(c) && Enabled(c, e)
    ensures OwnerUnleased(Apply(c, e))
    ensures SameAt(c.store, Apply(c, e).store, c.names.ownerKey) || RecordsOwner(c, e, Apply(c, e).store)
  {
    if e.Do? {
      OnStoreOwner(c, e.i, e.step);
    } else if !e.LandOwner? {
      assert SameAt(c.store, Apply(c, e).store, c.names.ownerKey);
    }
  }

  lemma CreateRevsStep(c: Cluster, e: Event, k: Bytes, l: Bytes)
    requires Inv(c) && Enabled(c, e)
    requires IsLock(c.names, k) && IsLock(c.names, l) && k != l
    requires k in Apply(c, e).store.kv && l in Apply(c, e).store.kv
    ensures Apply(c, e).store.kv[k].createRev != Apply(c, e).store.kv[l].createRev
  {
    LockKeysStep(c, e, k);
    LockKeysStep(c, e, l);
  }

  /** The key of an instance that does not have its request served is old or gone. */
  lemma OwnKeyStep(c: Cluster, e: Event, i: nat)
    requires Inv(c) && Enabled(c, e)
    requires i in c.inst && e != Do(i, ServeLock)
    requires KeyOf(c, i) in Apply(c, e).store.kv
    ensures KeyOf(c, i) in c.store.kv && Apply(c, e).store.kv[KeyOf(c, i)] == c.store.kv[KeyOf(c, i)]
  {
    LockKeysStep(c, e, KeyOf(c, i));
    if e.Do? && e.i in c.inst && e.i != i {
      LockKeyInjective(c.names.lockDir, c.inst[i].leaseId, c.inst[e.i].leaseId);
    }
  }

  /** Becoming or staying granted: either it was so before, or etcd just said so. */
  lemma GrantedBefore(c: Cluster, x: Instance, step: Step)
    requires InstanceOk(c.names, x) && EnabledFor(c, x, step) && PostGrant(Local(c, x, step))
    ensures step != ServeLock
    ensures PostGrant(x) || Oldest(c.names, c.store, LockKey(c.names.lockDir, x.leaseId))
  {
  }

  /** Whoever was told it holds the lock keeps it for as long as its key exists. */
  lemma GrantStep(c: Cluster, e: Event, i: nat)
    requires Inv(c) && Enabled(c, e)
    requires i in c.inst && i in Apply(c, e).inst && PostGrant(Apply(c, e).inst[i])
    requires KeyOf(c, i) in Apply(c, e).store.kv
    ensures Holds(c.names, Apply(c, e).store, c.inst[i].leaseId)
  {
    var t := Apply(c, e).store;
    var key := KeyOf(c, i);
    if e.Do? && e.i == i {
      GrantedBefore(c, c.inst[i], e.step);
    }
    OwnKeyStep(c, e, i);
    assert Holds(c.names, c.store, c.inst[i].leaseId);
    forall k | k in t.kv && IsLock(c.names, k) && k != key
      ensures t.kv[key].createRev < t.kv[k].createRev
    {
      LockKeysStep(c, e, k);
    }
  }

  /** An instance that has just started has no lock key yet. */
  lemma StartHasNoKey(c: Cluster, e: Event)
    requires Inv(c) && Enabled(c, e) && e.StartGrant?
    ensures KeyOf(Apply(c, e), e.i) !in Apply(c, e).store.kv
  {
    var key := LockKey(c.names.lockDir, e.id);
    assert IsLock(c.names, key);
    if key in c.store.kv {
      var j :| j in c.inst && key == KeyOf(c, j);
      LockKeyInjective(c.names.lockDir, c.inst[j].leaseId, e.id);
    }
  }

  lemma OwnedStep(c: Cluster, e: Event, k: Bytes)
    requires Inv(c) && Enabled(c, e)
    requires IsLock(c.names, k) && k in Apply(c, e).store.kv
    ensures Owned(Apply(c, e), k)
  {
    LockKeysStep(c, e, k);
    InstancesOkStep(c, e);
    var i :| i in c.inst && k == KeyOf(c, i);
    assert i in Apply(c, e).inst && k == KeyOf(Apply(c, e), i);
  }

  lemma LeaseStep(c: Cluster, e: Event, i: nat)
    requires Inv(c) && Enabled(c, e)
    requires i in c.inst && KeyOf(c, i) in Apply(c, e).store.kv
    ensures Apply(c, e).store.kv[KeyOf(c, i)].lease == c.inst[i].leaseId
  {
    LockKeysStep(c, e, KeyOf(c, i));
    if e.Do? && e.i in c.inst && e.i != i {
      LockKeyInjective(c.names.lockDir, c.inst[i].leaseId, c.inst[e.i].leaseId);
    }
  }

  lemma InvStep(c: Cluster, e: Event)
    requires Inv(c) && Enabled(c, e)
    ensures Inv(Apply(c, e))
  {
    var d := Apply(c, e);
    InstancesOkStep(c, e);
    StoreStep(c, e);
    OwnerStep(c, e);
    forall k, l | k in d.store.kv && l in d.store.kv && IsLock(d.names, k) && IsLock(d.names, l) && k != l
      ensures d.store.kv[k].createRev != d.store.kv[l].createRev
    {
      CreateRevsStep(c, e, k, l);
    }
    forall k | k in d.store.kv && IsLock(d.names, k) ensures Owned(d, k) {
      OwnedStep(c, e, k);
    }
    forall i | i in d.inst && KeyOf(d, i) in d.store.kv
      ensures d.store.kv[KeyOf(d, i)].lease == d.inst[i].leaseId
      ensures PostGrant(d.inst[i]) ==> Holds(d.names, d.store, d.inst[i].leaseId)
    {
      if i in c.inst {
        assert KeyOf(d, i) == KeyOf(c, i);
        LeaseStep(c, e, i);
        if PostGrant(d.inst[i]) {
          GrantStep(c, e, i);
        }
      } else {
        StartHasNoKey(c, e);
      }
    }
  }

  lemma {:induction false} InvAt(r: Run, k: nat)
    requires IsRun(r) && k < |r.states|
    ensures Inv(r.states[k])
  {
    if k > 0 {
      InvAt(r, k - 1);
      assert StepAt(r, k - 1);
      InvStep(r.states[k - 1], r.events[k - 1]);
    }
  }

  /** What one step of a run does to the lock keys and to the set of instances. */
  lemma StepFacts(r: Run, k: nat)
    requires IsRun(r) && k < |r.events|
    ensures r.states[k + 1].names == r.states[k].names
    ensures r.states[k + 1].store.rev >= r.states[k].store.rev
    ensures forall key | IsLock(r.states[k].names, key) && key in r.states[k + 1].store.kv ::
              KeptOrServed(r.states[k], r.events[k], r.states[k + 1].store, key)
    ensures forall i | i in r.states[k].inst ::
              i in r.states[k + 1].inst && r.states[k + 1].inst[i].leaseId == r.states[k].inst[i].leaseId
  {
    assert StepAt(r, k);
    InvAt(r, k);
    InstancesOkStep(r.states[k], r.events[k]);
    StoreStep(r.states[k], r.events[k]);
    forall key | IsLock(r.states[k].names, key) && key in r.states[k + 1].store.kv
      ensures KeptOrServed(r.states[k], r.events[k], r.states[k + 1].store, key)
    {
      LockKeysStep(r.states[k], r.events[k], key);
    }
  }

  /** Instances never disappear, and never change their lease or their names; revisions only grow. */
  lemma {:induction false} Lasting(r: Run, k: nat, l: nat)
    requires IsRun(r) && k <= l < |r.states|
    ensures r.states[l].names == r.states[k].names
    ensures r.states[l].store.rev >= r.states[k].store.rev
    ensures forall i | i in r.states[k].inst ::
              i in r.states[l].inst && r.states[l].inst[i].leaseId == r.states[k].inst[i].leaseId
    decreases l
  {
    if k < l {
      Lasting(r, k, l - 1);
      StepFacts(r, l - 1);
    }
  }

  /**
   What the cycle that ends with this step was answered: the call of this step
   as the store now is, and earlier owner checks of the cycle as not replaced.
   */
  ghost predicate AnsweredBy(c: Cluster, x: Instance, step: Step, a: Answers) {
    && FaithfulAnswers(c.names.lockDir, x.leaseId, a)
    && match step
       case LockCheck(ok) => a.owner == ReadOwner(c, ok)
       case ExpiredRead(ok) => a.owner == ReadOwner(c, ok)
       case StatusReply(up) => a.statusUp == up && IsReplaced(a.owner, x.leaseId) != Some(true)
       case GrantProbe(ttl) => ttl.Some? && x.leaseId in c.store.leases && a.ttl == ttl
       case GrantCall(served, acked) => a.ttl == None && a.granted == if acked then Some(x.leaseId) else None
       case LockFails(reply) => a.lock == reply && IsReplaced(a.owner, x.leaseId) == Some(false)
       case OwnerTxn(acked) =>
         && IsReplaced(a.owner, x.leaseId) == Some(false) && x.pc.OwnerPutting? && a.lock == LockGranted(x.pc.key)
         && a.ownerPut == (acked && FenceHolds(c.store, x.leaseId, x.pc.key))
       case OwnerLost =>
         && IsReplaced(a.owner, x.leaseId) == Some(false) && x.pc.OwnerPutting? && a.lock == LockGranted(x.pc.key)
         && !a.ownerPut
       case KeepOpened(ok) => a.streamOpen == ok
       case KeepAliveTick(sent, probe) => a.keepAliveSent == sent && a.probe == probe
       case ReconnectTick(up) => a.statusUp == up
       case _ => true
  }

  /**
   Each protocol step either leaves the keeper's state alone or is the end of
   one cycle of `SingletonLock.Next`, answered as the store answers.
   */
  lemma StepIsCycle(c: Cluster, x: Instance, step: Step)
    requires InstanceOk(c.names, x) && Running(x) && EnabledFor(c, x, step)
    ensures || Local(c, x, step).state == x.state
            || exists a :: AnsweredBy(c, x, step, a) && Local(c, x, step).state == Clock(x.state, x.leaseId, a)
    ensures Local(c, x, step).info == x.info || Local(c, x, step).info == Publishing(x)
  {
    var id := x.leaseId;
    var idle := Answers(false, OwnerMissing, None, None, LockError, false, false, false, ProbeFailed);
    var a := match step
      case OwnerTxn(acked) =>
        if x.pc.OwnerPutting?
        then idle.(lock := LockGranted(x.pc.key), ownerPut := acked && FenceHolds(c.store, id, x.pc.key)) else idle
      case OwnerLost => if x.pc.OwnerPutting? then idle.(lock := LockGranted(x.pc.key)) else idle
      case LockFails(reply) => idle.(lock := reply)
      case ExpiredRead(ok) => idle.(owner := ReadOwner(c, ok))
      case LockCheck(ok) => idle.(owner := ReadOwner(c, ok))
      case StatusReply(up) => idle.(statusUp := up)
      case GrantProbe(ttl) => idle.(ttl := ttl)
      case GrantCall(_, acked) => idle.(granted := if acked then Some(id) else None)
      case KeepOpened(ok) => idle.(streamOpen := ok)
      case KeepAliveTick(sent, probe) => idle.(keepAliveSent := sent, probe := probe)
      case ReconnectTick(up) => idle.(statusUp := up)
      case _ => idle;
    if Local(c, x, step).state != x.state {
      assert AnsweredBy(c, x, step, a);
      assert Local(c, x, step).state == Clock(x.state, id, a);
    }
  }
}
