/** What the lease lock promises over whole runs of any number of instances. */
module LeaseSafety {
  import opened Wrappers
  import opened EtcdStore
  import opened LeaseKeeper
  import opened LeaseProtocol
  import EtcdClient

  // ---- One holder, and writes that only it can commit

  lemma AtMostOneHolder(names: Names, s: Store, a: int, b: int)
    requires IsLeaseId(a) && IsLeaseId(b)
    requires Holds(names, s, a) && Holds(names, s, b)
    ensures a == b
  {
    LockKeyInjective(names.lockDir, a, b);
    assert IsLock(names, LockKey(names.lockDir, a)) && IsLock(names, LockKey(names.lockDir, b));
  }

  /** The write `w` is about to take effect. */
  ghost predicate CommitsAt(r: Run, k: nat, w: nat)
    requires IsRun(r)
  {
    && k < |r.events| && r.events[k] == CommitWrite(w) && w in r.states[k].inflight
    && FenceHolds(r.states[k].store, r.states[k].inflight[w].leaseId, r.states[k].inflight[w].lockKey)
  }

  /** A write whose fence passes finds its instance's own lock key still there. */
  lemma CommitFindsKey(r: Run, k: nat, w: nat)
    requires IsRun(r) && CommitsAt(r, k, w)
    ensures r.states[k].inflight[w].inst in r.states[k].inst
    ensures KeyOf(r.states[k], r.states[k].inflight[w].inst) in r.states[k].store.kv
  {
    InvAt(r, k);
  }

  /**
   Whatever the interleaving, a write that commits while its keeper believes
   itself granted is the write of the one lock holder, and no other instance
   that believes itself granted could commit at that moment.
   */
  lemma CommitsComeFromTheHolder(r: Run, k: nat, w: nat)
    requires IsRun(r) && CommitsAt(r, k, w)
    requires r.states[k].inflight[w].inst in r.states[k].inst
    requires PostGrant(r.states[k].inst[r.states[k].inflight[w].inst])
    ensures Holds(r.states[k].names, r.states[k].store, r.states[k].inflight[w].leaseId)
    ensures forall j | j in r.states[k].inst && j != r.states[k].inflight[w].inst && PostGrant(r.states[k].inst[j]) ::
              !FenceHolds(r.states[k].store, r.states[k].inst[j].leaseId, KeyOf(r.states[k], j))
  {
    InvAt(r, k);
    var c := r.states[k];
    var i := c.inflight[w].inst;
    forall j | j in c.inst && j != i && PostGrant(c.inst[j])
      ensures !FenceHolds(c.store, c.inst[j].leaseId, KeyOf(c, j))
    {
      if FenceHolds(c.store, c.inst[j].leaseId, KeyOf(c, j)) {
        AtMostOneHolder(c.names, c.store, c.inst[i].leaseId, c.inst[j].leaseId);
      }
    }
  }

  // ---- Fencing

  /**
   Lock keys have only been kept or deleted since `k`, apart from those created
   later than anything that existed at `k`.
   */
  lemma {:induction false} LockKeysSince(r: Run, k: nat, l: nat, key: Bytes)
    requires IsRun(r) && k <= l < |r.states|
    requires IsLock(r.states[k].names, key) && key in r.states[l].store.kv
    ensures || (key in r.states[k].store.kv && r.states[l].store.kv[key] == r.states[k].store.kv[key])
            || r.states[l].store.kv[key].createRev > r.states[k].store.rev
    decreases l
  {
    Lasting(r, k, l);
    if k < l {
      Lasting(r, k, l - 1);
      StepFacts(r, l - 1);
      if key in r.states[l - 1].store.kv {
        LockKeysSince(r, k, l - 1, key);
      }
    }
  }

  /**
   The create revision of the holder's key never goes back, and stays the same
   only while the same instance holds the lock.  The fence does not compare it:
   `OwnerRecord.SameTenureIff` says when a write outlives the key it was begun under.
   */
  lemma FencingTokenMonotone(r: Run, k: nat, l: nat, a: int, b: int)
    requires IsRun(r) && k <= l < |r.states| && IsLeaseId(a) && IsLeaseId(b)
    requires Holds(r.states[k].names, r.states[k].store, a)
    requires Holds(r.states[l].names, r.states[l].store, b)
    ensures var ta := r.states[k].store.kv[LockKey(r.states[k].names.lockDir, a)].createRev;
            var tb := r.states[l].store.kv[LockKey(r.states[l].names.lockDir, b)].createRev;
            ta <= tb && (ta == tb ==> a == b)
  {
    Lasting(r, k, l);
    InvAt(r, k);
    var names := r.states[k].names;
    var ka, kb := LockKey(names.lockDir, a), LockKey(names.lockDir, b);
    assert IsLock(names, ka) && IsLock(names, kb);
    LockKeysSince(r, k, l, kb);
    LockKeyInjective(names.lockDir, a, b);
  }

  /** No lock request of instance `i` is served from `k` up to, not including, `l`. */
  ghost predicate NotServed(r: Run, k: nat, l: nat, i: nat)
    requires l <= |r.events|
  {
    forall m: nat | k <= m < l :: r.events[m] != Do(i, ServeLock)
  }

  lemma {:induction false} KeyStaysGone(r: Run, k: nat, l: nat, i: nat)
    requires IsRun(r) && k <= l < |r.states| && i in r.states[k].inst
    requires KeyOf(r.states[k], i) !in r.states[k].store.kv
    requires NotServed(r, k, l, i)
    ensures i in r.states[l].inst && KeyOf(r.states[l], i) == KeyOf(r.states[k], i)
    ensures KeyOf(r.states[k], i) !in r.states[l].store.kv
    decreases l
  {
    if k < l {
      KeyStaysGone(r, k, l - 1, i);
      assert StepAt(r, l - 1);
      InvAt(r, l - 1);
      InstancesOkStep(r.states[l - 1], r.events[l - 1]);
      assert r.events[l - 1] != Do(i, ServeLock);
      if KeyOf(r.states[k], i) in r.states[l].store.kv {
        OwnKeyStep(r.states[l - 1], r.events[l - 1], i);
      }
    }
  }

  lemma ExpiryTakesTheKey(c: Cluster, i: nat)
    requires Inv(c) && i in c.inst && c.inst[i].leaseId in c.store.leases
    ensures KeyOf(c, i) !in Apply(c, ExpireLease(c.inst[i].leaseId)).store.kv
  {
  }

  lemma KeyGoneAfterExpiry(r: Run, k: nat, l: nat, i: nat)
    requires IsRun(r) && k < l < |r.states|
    requires i in r.states[k].inst && r.events[k] == ExpireLease(r.states[k].inst[i].leaseId)
    requires NotServed(r, k + 1, l, i)
    ensures i in r.states[l].inst && KeyOf(r.states[l], i) !in r.states[l].store.kv
  {
    assert StepAt(r, k);
    InvAt(r, k);
    ExpiryTakesTheKey(r.states[k], i);
    KeyStaysGone(r, k + 1, l, i);
  }

  lemma KeylessWriteIsRefused(c: Cluster, w: nat)
    requires Inv(c) && w in c.inflight && KeyOf(c, c.inflight[w].inst) !in c.store.kv
    ensures Apply(c, CommitWrite(w)).store == c.store
    ensures !FenceHolds(c.store, c.inflight[w].leaseId, c.inflight[w].lockKey)
  {
  }

  /**
   After an instance's lease has expired none of its writes takes effect,
   however early it read the (lease, lock key) pair, until a lock request of
   its own is served again.
   */
  lemma ExpiryFencesWrites(r: Run, k: nat, l: nat, i: nat, w: nat)
    requires IsRun(r) && k < l < |r.events|
    requires i in r.states[k].inst && r.events[k] == ExpireLease(r.states[k].inst[i].leaseId)
    requires NotServed(r, k + 1, l, i)
    requires r.events[l] == CommitWrite(w) && w in r.states[l].inflight && r.states[l].inflight[w].inst == i
    ensures !CommitsAt(r, l, w)
    ensures r.states[l + 1].store == r.states[l].store
  {
    KeyGoneAfterExpiry(r, k, l, i);
    InvAt(r, l);
    KeylessWriteIsRefused(r.states[l], w);
    assert StepAt(r, l);
  }

  // ---- Readiness

  ghost predicate NotPublished(r: Run, k: nat, l: nat, i: nat)
    requires l <= |r.events|
  {
    forall m: nat | k <= m < l :: r.events[m] != Do(i, LockedSet)
  }

  predicate Withdrawn(x: Instance) {
    x.info.Some? && x.info.value.leaseId == None
  }

  lemma WithdrawnStep(c: Cluster, e: Event, i: nat)
    requires Inv(c) && Enabled(c, e) && i in c.inst && Running(c.inst[i]) && Withdrawn(c.inst[i])
    requires e != Do(i, LockedSet)
    ensures i in Apply(c, e).inst && Running(Apply(c, e).inst[i]) && Withdrawn(Apply(c, e).inst[i])
  {
    if e.Do? && e.i == i {
      WithdrawnLocal(c, c.inst[i], e.step);
    }
  }

  lemma WithdrawnLocal(c: Cluster, x: Instance, step: Step)
    requires EnabledFor(c, x, step) && Running(x) && Withdrawn(x) && step != LockedSet
    ensures Running(Local(c, x, step)) && Withdrawn(Local(c, x, step))
  {
  }

  ghost predicate WithdrawnAt(c: Cluster, i: nat) {
    i in c.inst && Running(c.inst[i]) && Withdrawn(c.inst[i])
  }

  lemma UnsetWithdraws(r: Run, k: nat, i: nat)
    requires IsRun(r) && k < |r.events| && r.events[k] == Do(i, ExpiredUnset)
    ensures WithdrawnAt(r.states[k + 1], i)
  {
    assert StepAt(r, k);
    InvAt(r, k);
  }

  lemma {:induction false} WithdrawnUntilLocked(r: Run, k: nat, l: nat, i: nat)
    requires IsRun(r) && k < l < |r.states|
    requires r.events[k] == Do(i, ExpiredUnset) && NotPublished(r, k + 1, l, i)
    ensures WithdrawnAt(r.states[l], i)
    decreases l
  {
    if k + 1 == l {
      UnsetWithdraws(r, k, i);
    } else {
      WithdrawnUntilLocked(r, k, l - 1, i);
      assert StepAt(r, l - 1);
      InvAt(r, l - 1);
      WithdrawnStep(r.states[l - 1], r.events[l - 1], i);
    }
  }

  /** From the expiry cycle until the next Locked cycle every write begun is refused. */
  lemma RefusedUntilLocked(r: Run, k: nat, l: nat, i: nat, op: WriteOp, w: nat)
    requires IsRun(r) && k < l < |r.events|
    requires r.events[k] == Do(i, ExpiredUnset) && NotPublished(r, k + 1, l, i)
    requires r.events[l] == BeginWrite(i, op, w)
    ensures r.states[l + 1] == r.states[l]
  {
    WithdrawnUntilLocked(r, k, l, i);
    assert StepAt(r, l);
  }

  /** Any pair a write carries is the writer's own lease and current lock key. */
  lemma PublishedPairIsCurrent(r: Run, k: nat, i: nat)
    requires IsRun(r) && k < |r.states| && i in r.states[k].inst && Running(r.states[k].inst[i])
    ensures var x := r.states[k].inst[i];
            && x.info.Some? && x.info.value.lockKey == KeyOf(r.states[k], i)
            && (x.info.value.leaseId.Some? ==> x.info.value.leaseId.value == x.leaseId)
            && Coherent(r.states[k].names.lockDir, x.leaseId, x.state)
  {
    InvAt(r, k);
  }

  // ---- Being replaced

  /** No owner is recorded, or the recorded one is instance `i`. */
  predicate OwnerFree(c: Cluster, i: nat)
    requires i in c.inst
  {
    c.names.ownerKey in c.store.kv ==> c.store.kv[c.names.ownerKey].value == LeaseIdStr(c.inst[i].leaseId)
  }

  predicate OwnerIsInstance(c: Cluster, j: nat)
    requires j in c.inst
  {
    c.names.ownerKey in c.store.kv && c.store.kv[c.names.ownerKey].value == LeaseIdStr(c.inst[j].leaseId)
  }

  /** A check that reads the owner record gives up exactly when the record is not the instance's own. */
  lemma CheckVerdict(r: Run, k: nat, i: nat)
    requires IsRun(r) && k < |r.events|
    requires r.events[k] == Do(i, LockCheck(true)) || r.events[k] == Do(i, ExpiredRead(true))
    ensures i in r.states[k].inst && i in r.states[k + 1].inst
    ensures r.states[k + 1].inst[i].state == Replaced <==> !OwnerFree(r.states[k], i)
    ensures forall j | j in r.states[k].inst && j != i && OwnerIsInstance(r.states[k], j) ::
              r.states[k + 1].inst[i].state == Replaced
  {
    assert StepAt(r, k);
    InvAt(r, k);
    var c := r.states[k];
    forall j | j in c.inst && j != i && OwnerIsInstance(c, j) ensures !OwnerFree(c, i) {
      LeaseIdStrInjective(c.inst[i].leaseId, c.inst[j].leaseId);
    }
  }

  lemma ReplacedLocal(c: Cluster, x: Instance, step: Step)
    requires InstanceOk(c.names, x) && EnabledFor(c, x, step) && Running(x) && x.state == Replaced
    ensures Running(Local(c, x, step)) && Local(c, x, step).state == Replaced
  {
  }

  lemma ReplacedStep(c: Cluster, e: Event, i: nat)
    requires Inv(c) && Enabled(c, e) && i in c.inst && Running(c.inst[i]) && c.inst[i].state == Replaced
    ensures i in Apply(c, e).inst && Running(Apply(c, e).inst[i]) && Apply(c, e).inst[i].state == Replaced
  {
    if e.Do? && e.i == i {
      ReplacedLocal(c, c.inst[i], e.step);
    }
  }

  lemma {:induction false} ReplacedIsFinal(r: Run, k: nat, l: nat, i: nat)
    requires IsRun(r) && k <= l < |r.states|
    requires i in r.states[k].inst && Running(r.states[k].inst[i]) && r.states[k].inst[i].state == Replaced
    ensures i in r.states[l].inst && Running(r.states[l].inst[i]) && r.states[l].inst[i].state == Replaced
    decreases l
  {
    if k < l {
      ReplacedIsFinal(r, k, l - 1, i);
      assert StepAt(r, l - 1);
      InvAt(r, l - 1);
      ReplacedStep(r.states[l - 1], r.events[l - 1], i);
    }
  }

  predicate InLockingCycle(x: Instance) {
    x.pc.LockWait? || x.pc.OwnerPutting?
  }

  /** The Locking cycle instance `i` is in at `l` began with a check at `k` that let it through. */
  ghost predicate CheckedAt(r: Run, k: nat, l: nat, i: nat)
    requires IsRun(r)
  {
    && k < l < |r.states| && r.events[k] == Do(i, LockCheck(true))
    && i in r.states[k].inst && OwnerFree(r.states[k], i)
    && forall m: nat | k < m <= l :: i in r.states[m].inst && InLockingCycle(r.states[m].inst[i])
  }

  lemma LockingCycleStep(c: Cluster, x: Instance, step: Step)
    requires InstanceOk(c.names, x) && EnabledFor(c, x, step) && InLockingCycle(Local(c, x, step))
    ensures InLockingCycle(x) || step == LockCheck(true)
    ensures step == LockCheck(true) ==> IsReplaced(ReadOwner(c, true), x.leaseId) == Some(false)
  {
  }

  lemma CycleContinuesOrBegins(c: Cluster, e: Event, i: nat)
    requires Inv(c) && Enabled(c, e) && i in Apply(c, e).inst && InLockingCycle(Apply(c, e).inst[i])
    ensures i in c.inst
    ensures InLockingCycle(c.inst[i]) || (e == Do(i, LockCheck(true)) && OwnerFree(c, i))
  {
    if e.Do? && e.i == i {
      LockingCycleStep(c, c.inst[i], e.step);
    }
  }

  lemma CycleBefore(r: Run, l: nat, i: nat)
    requires IsRun(r) && 0 < l < |r.states| && i in r.states[l].inst && InLockingCycle(r.states[l].inst[i])
    ensures i in r.states[l - 1].inst
    ensures || InLockingCycle(r.states[l - 1].inst[i])
            || (r.events[l - 1] == Do(i, LockCheck(true)) && OwnerFree(r.states[l - 1], i))
  {
    assert StepAt(r, l - 1);
    InvAt(r, l - 1);
    CycleContinuesOrBegins(r.states[l - 1], r.events[l - 1], i);
  }

  lemma {:induction false} LockingCycleWasChecked(r: Run, l: nat, i: nat) returns (k: nat)
    requires IsRun(r) && l < |r.states| && i in r.states[l].inst && InLockingCycle(r.states[l].inst[i])
    ensures CheckedAt(r, k, l, i)
    decreases l
  {
    assert l > 0;
    CycleBefore(r, l, i);
    if InLockingCycle(r.states[l - 1].inst[i]) {
      k := LockingCycleWasChecked(r, l - 1, i);
    } else {
      k := l - 1;
    }
  }

  lemma EntersLockedFromOwnerPut(c: Cluster, x: Instance, step: Step)
    requires InstanceOk(c.names, x) && Running(x) && EnabledFor(c, x, step)
    requires !x.state.Locked? && Local(c, x, step).state.Locked?
    ensures x.pc.OwnerPutting? && step == OwnerTxn(true) && FenceHolds(c.store, x.leaseId, x.pc.key)
  {
  }

  /**
   After start, a keeper enters Locked only through a Locking cycle that first
   found the owner record absent or its own and then, as the lock holder, wrote
   its own id there.
   */
  lemma LockedOnlyAfterCheck(r: Run, l: nat, i: nat) returns (k: nat)
    requires IsRun(r) && l < |r.events| && i in r.states[l].inst && i in r.states[l + 1].inst
    requires Running(r.states[l].inst[i])
    requires !r.states[l].inst[i].state.Locked? && r.states[l + 1].inst[i].state.Locked?
    ensures CheckedAt(r, k, l, i)
    ensures Holds(r.states[l].names, r.states[l].store, r.states[l].inst[i].leaseId)
    ensures OwnerIsInstance(r.states[l + 1], i)
  {
    assert StepAt(r, l);
    InvAt(r, l);
    var c, e := r.states[l], r.events[l];
    assert e.Do? && e.i == i;
    EntersLockedFromOwnerPut(c, c.inst[i], e.step);
    k := LockingCycleWasChecked(r, l, i);
  }

  // ---- The client's writes

  /** A write begun and at once committed is one call of `Client.Write` with the instance's published pair. */
  lemma BeginThenCommitIsWrite(c: Cluster, i: nat, op: WriteOp, w: nat)
    requires Enabled(c, BeginWrite(i, op, w)) && c.inst[i].info.Some?
    ensures var fence := EtcdClient.Fence(c.inst[i].info.value.leaseId, c.inst[i].info.value.lockKey);
            var (store, result) := EtcdClient.WriteResult(c.store, Some(fence), op);
            var d := Apply(c, BeginWrite(i, op, w));
            if result == Err(NotReady) then d == c
            else Enabled(d, CommitWrite(w)) && Apply(d, CommitWrite(w)) == c.(store := store)
  {
    var d := Apply(c, BeginWrite(i, op, w));
    if w in d.inflight {
      assert d.inflight - {w} == c.inflight;
    }
  }

  /** A write that reaches etcd later is the call it would have been then, with the pair it read. */
  lemma CommitIsLateWrite(c: Cluster, w: nat)
    requires Enabled(c, CommitWrite(w))
    ensures var pending := c.inflight[w];
            var fence := EtcdClient.Fence(Some(pending.leaseId), pending.lockKey);
            Apply(c, CommitWrite(w)).store == EtcdClient.WriteResult(c.store, Some(fence), pending.op).0
  {
  }
}
