/** Runs behind the exact conditions of `OwnerRecord`. */
module OwnerWitness {
  import opened Wrappers
  import opened EtcdStore
  import opened LeaseKeeper
  import opened LeaseProtocol
  import opened LeaseSafety
  import opened LeaseWitness
  import opened OwnerRecord

  // ---- Tenures, and being replaced between the check and the put

  /** A write under way was begun. */
  lemma {:induction false} WriteWasBegun(r: Run, l: nat, w: nat) returns (b: nat)
    requires IsRun(r) && l < |r.states| && w in r.states[l].inflight
    ensures b < l && r.events[b].BeginWrite? && r.events[b].w == w && r.events[b].i == r.states[l].inflight[w].inst
    decreases l
  {
    assert l > 0;
    assert StepAt(r, l - 1);
    if w in r.states[l - 1].inflight {
      b := WriteWasBegun(r, l - 1, w);
    } else {
      b := l - 1;
    }
  }

  /** A write commits under a key created since it was begun, queued behind the holder's. */
  lemma WriteOutlivesTenure() returns (r: Run, b: nat)
    ensures IsRun(r) && b + 1 < |r.events| && r.events[b].BeginWrite? && r.events[b].i == 0
    ensures r.events[b].w == 0 && CommitsAt(r, |r.events| - 1, 0) && Recreated(r, b, |r.events| - 1, 0)
  {
    Distinct();
    var before := RelockingRun();
    var s := |before.events|;
    b := WriteWasBegun(before, s, 0);
    r := GoDo(before, 0, ServeLock);
    r := Go(r, CommitWrite(0));
    assert r.events[b] == before.events[b] && r.states[s] == Last(before);
    assert RecreatesAt(r, s, 0);
  }

  /** Instance 1 is granted the lock and records itself as the owner, while instance 0 waits. */
  lemma RivalOwnsRun() returns (r: Run)
    ensures IsRun(r) && Queued(Last(r)) && OwnerIsLease(Last(r), 2)
    ensures Last(r).inst[0] == Zero(Locking(1), LockWait(true), Some(1)) && Last(r).inst[1].leaseId == 2
  {
    Distinct();
    r := PendingRun();
    r := GoDo(r, 1, GrantLock);
    assert Queued(Last(r)) && Last(r).inst[1].pc == StartOwner(K2) && Last(r).inst[1].leaseId == 2;
    assert Last(r).inst[0] == Zero(Locking(1), LockWait(true), Some(1));
    r := GoDo(r, 1, OwnerTxn(true));
  }

  /** Then instance 1 loses its key. */
  lemma RecordedRun() returns (r: Run)
    ensures IsRun(r) && Last(r).names == NAMES && 0 in Last(r).inst && 1 in Last(r).inst
    ensures Last(r).inst[0] == Zero(Locking(1), LockWait(true), Some(1)) && Last(r).inst[1].leaseId == 2
    ensures OwnerIsLease(Last(r), 2) && K1 in Last(r).store.kv && Last(r).store.kv[K1].lease == 1
    ensures forall k | k in Last(r).store.kv && IsLock(NAMES, k) :: k == K1
  {
    Distinct();
    r := RivalOwnsRun();
    var s := Last(r).store;
    r := GoDo(r, 1, LockKeyRemoved);
    assert SameAt(s, Last(r).store, K1) && SameAt(s, Last(r).store, OWNER);
  }

  /**
   The owner check and the owner put are separate calls: an instance that has
   been replaced since its check enters Locked all the same, over the record of
   the instance that replaced it.
   */
  lemma ReplacedMayLockAgain() returns (r: Run)
    ensures IsRun(r) && |r.events| > 0 && 0 in Last(r).inst
    ensures var c := r.states[|r.events| - 1];
            0 in c.inst && 1 in c.inst && Running(c.inst[0]) && c.inst[0].state.Locking? && OwnerIsInstance(c, 1)
    ensures PhaseOf(Last(r).inst[0]) == LockedPhase && Running(Last(r).inst[0])
  {
    Distinct();
    r := RecordedRun();
    r := GoDo(r, 0, GrantLock);
    assert Last(r).inst[0] == Zero(Locking(1), OwnerPutting(K1), Some(1)) && OwnerIsInstance(Last(r), 1);
    r := GoDo(r, 0, OwnerTxn(true));
  }

  // ---- An owner put given up on, and landing late

  /** Instance 0 lost its connection and asked for the lock again while it held it, and gave up on its owner put. */
  lemma PutLostRun() returns (r: Run)
    ensures IsRun(r) && Held(Last(r), RECONNECT, Between, None) && 0 in Last(r).late
  {
    r := AskedAgainRun();
    r := GoDo(r, 0, ServeLock);
    assert Held(Last(r), Locking(1), LockWait(true), None);
    r := GoDo(r, 0, GrantLock);
    assert Held(Last(r), Locking(1), OwnerPutting(K1), None);
    r := GoDo(r, 0, OwnerLost);
  }

  /** Instance 0 alone, with its lease, its key and the owner record. */
  ghost predicate Held(c: Cluster, state: KeeperState, pc: Pc, published: Option<int>) {
    && c.names == NAMES && c.inflight == map[] && c.inst == map[0 := Zero(state, pc, published)]
    && c.store == Store(2, map[K1 := Entry([], 1, 1, 1), OWNER := Entry(LeaseIdStr(1), 2, 2, 0)], {1})
  }

  lemma ReconnectedRun() returns (r: Run)
    ensures IsRun(r) && Held(Last(r), LeaseExpired, ExpiredCheck, None)
  {
    r := KeptRun();
    r := GoDo(r, 0, KeepAliveTick(false, NoProbe));
    assert Held(Last(r), RECONNECT, Between, Some(1));
    r := GoDo(r, 0, ReconnectTick(true));
    assert Held(Last(r), LeaseExpired, Between, Some(1));
    r := GoDo(r, 0, ExpiredUnset);
  }

  lemma RegrantedRun() returns (r: Run)
    ensures IsRun(r) && Held(Last(r), LeaseGrant, Between, None)
  {
    r := ReconnectedRun();
    r := GoDo(r, 0, ExpiredRead(true));
    assert Held(Last(r), LeaseExpired, ExpiredStatus, None);
    r := GoDo(r, 0, StatusReply(true));
  }

  lemma AskedAgainRun() returns (r: Run)
    ensures IsRun(r) && Held(Last(r), Locking(1), LockWait(false), None)
  {
    r := RegrantedRun();
    r := GoDo(r, 0, GrantProbe(Some(5)));
    assert Held(Last(r), Locking(1), Between, None);
    r := GoDo(r, 0, LockCheck(true));
  }

  /** Instance 0 has lost its key, with its put still under way; instance 1 is next for the lock. */
  ghost predicate Behind(c: Cluster, state: KeeperState, pc: Pc, published: Option<int>) {
    && c.names == NAMES && 0 in c.late
    && c.inst == map[0 := Zero(state, pc, published), 1 := One(StartLock(true))]
    && OwnerIsLease(c, 1)
    && K2 in c.store.kv && c.store.kv[K2].lease == 2 && c.store.kv[K2].createRev <= c.store.rev
    && (forall k | k in c.store.kv && IsLock(NAMES, k) :: k == K2)
  }

  lemma BehindRun() returns (r: Run)
    ensures IsRun(r) && Behind(Last(r), RECONNECT, Between, None) && 1 !in Last(r).store.leases
  {
    Distinct();
    r := PutLostRun();
    r := Go(r, StartGrant(1, 2));
    assert Last(r).inst == map[0 := Zero(RECONNECT, Between, None), 1 := One(StartLock(false))];
    r := GoDo(r, 1, ServeLock);
    assert Last(r).inst == map[0 := Zero(RECONNECT, Between, None), 1 := One(StartLock(true))];
    var s := Last(r).store;
    r := Go(r, ExpireLease(1));
    assert SameAt(s, Last(r).store, K2) && SameAt(s, Last(r).store, OWNER);
  }

  lemma BehindExpiredRun() returns (r: Run)
    ensures IsRun(r) && Behind(Last(r), LeaseExpired, ExpiredCheck, None) && 1 !in Last(r).store.leases
  {
    r := BehindRun();
    r := GoDo(r, 0, ReconnectTick(true));
    assert Behind(Last(r), LeaseExpired, Between, None);
    r := GoDo(r, 0, ExpiredUnset);
  }

  lemma BehindGrantingRun() returns (r: Run)
    ensures IsRun(r) && Behind(Last(r), LeaseGrant, Between, None) && 1 !in Last(r).store.leases
  {
    r := BehindExpiredRun();
    r := GoDo(r, 0, ExpiredRead(true));
    assert Behind(Last(r), LeaseExpired, ExpiredStatus, None);
    r := GoDo(r, 0, StatusReply(true));
  }

  lemma BehindLockingRun() returns (r: Run)
    ensures IsRun(r) && Behind(Last(r), Locking(1), LockWait(false), None) && 1 in Last(r).store.leases
  {
    r := BehindGrantingRun();
    r := GoDo(r, 0, GrantProbe(Some(-1)));
    assert Behind(Last(r), LeaseGrant, GrantCalling, None);
    r := GoDo(r, 0, GrantCall(true, true));
    assert Behind(Last(r), Locking(1), Between, None);
    r := GoDo(r, 0, LockCheck(true));
  }

  /** Both keys are there, instance 1's first, and instance 1 is the recorded owner. */
  ghost predicate Contested(c: Cluster) {
    && c.names == NAMES && 0 in c.late && 0 in c.inst && 1 in c.inst
    && c.inst[0].leaseId == 1 && c.inst[1].leaseId == 2
    && K1 in c.store.kv && K2 in c.store.kv && c.store.kv[K1].lease == 1 && c.store.kv[K2].lease == 2
    && c.store.kv[K2].createRev < c.store.kv[K1].createRev
    && (forall k | k in c.store.kv && IsLock(NAMES, k) :: k == K1 || k == K2)
  }

  lemma ContestedRun() returns (r: Run)
    ensures IsRun(r) && Contested(Last(r)) && OwnerIsLease(Last(r), 2)
  {
    Distinct();
    r := BehindLockingRun();
    r := GoDo(r, 0, ServeLock);
    assert Contested(Last(r)) && Last(r).inst[1] == One(StartLock(true));
    r := GoDo(r, 1, GrantLock);
    assert Contested(Last(r)) && Last(r).inst[1].pc == StartOwner(K2);
    r := GoDo(r, 1, OwnerTxn(true));
  }

  /** An owner put given up on lands after its key was queued again, over the record of the holder. */
  lemma NonHolderMayRecord() returns (r: Run)
    ensures IsRun(r) && |r.events| > 0 && r.events[|r.events| - 1] == LandOwner(0) && RecordsAt(r, |r.events| - 1)
    ensures var c := r.states[|r.events| - 1];
            && 0 in c.inst && 1 in c.inst && OwnerIsInstance(c, 1)
            && 0 in Last(r).inst && OwnerIsInstance(Last(r), 0)
            && !Holds(c.names, c.store, c.inst[0].leaseId) && Holds(c.names, c.store, c.inst[1].leaseId)
  {
    Distinct();
    var before := ContestedRun();
    r := Go(before, LandOwner(0));
    assert r.states[|before.events|] == Last(before);
  }
}
