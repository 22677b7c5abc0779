/**
 The exact reach of the lease fence.  The fence only compares the lease of the
 writer's lock key, and a key that is still queued carries that lease too, so a
 write can commit although another instance holds the lock.  Below: the phases
 of a keeper in which that can happen, and the phases in which it never does.
 */
module LeaseWitness {
  import opened Wrappers
  import opened EtcdStore
  import opened LeaseKeeper
  import opened LeaseProtocol
  import opened LeaseSafety

  datatype Phase =
    | Expired
    | Granting
    | LockPending
    | LockAnswered
    | LockedPhase
    | KeepAlivePhase
    | Reconnecting
    | Gone

  function PhaseOf(x: Instance): Phase {
    match x.state
    case LeaseExpired => Expired
    case LeaseGrant => Granting
    case Locking(_) => if x.pc.OwnerPutting? then LockAnswered else LockPending
    case Locked(_, _) => LockedPhase
    case KeepAlive(_) => KeepAlivePhase
    case Reconnect(_) => Reconnecting
    case Replaced => Gone
  }

  predicate Granted(p: Phase) {
    p == LockAnswered || p == LockedPhase || p == KeepAlivePhase
  }

  /** In every run, a write committing while its keeper is in this phase is the lock holder's. */
  ghost predicate OnlyTheHolderCommits(p: Phase) {
    forall r: Run, k: nat, w: nat | IsRun(r) && CommitsAt(r, k, w) && WriterPhase(r.states[k], w, p) ::
      Holds(r.states[k].names, r.states[k].store, r.states[k].inflight[w].leaseId)
  }

  predicate WriterPhase(c: Cluster, w: nat, p: Phase)
    requires w in c.inflight
  {
    && c.inflight[w].inst in c.inst
    && Running(c.inst[c.inflight[w].inst])
    && PhaseOf(c.inst[c.inflight[w].inst]) == p
  }

  lemma HolderGuarantee(p: Phase)
    ensures OnlyTheHolderCommits(p) <==> Granted(p)
  {
    if Granted(p) {
      forall r: Run, k: nat, w: nat | IsRun(r) && CommitsAt(r, k, w) && WriterPhase(r.states[k], w, p)
        ensures Holds(r.states[k].names, r.states[k].store, r.states[k].inflight[w].leaseId)
      {
        InvAt(r, k);
        CommitsComeFromTheHolder(r, k, w);
      }
    } else {
      var r := QueuedRun(p);
      var r' := Go(r, CommitWrite(0));
      var k := |r.events|;
      assert r'.states[k] == Last(r);
      assert CommitsAt(r', k, 0) && WriterPhase(r'.states[k], 0, p);
      QueuedDoesNotHold(Last(r));
    }
  }

  // ---- Extending runs

  ghost function Last(r: Run): Cluster
    requires r.states != []
  {
    r.states[|r.states| - 1]
  }

  lemma Go(r: Run, e: Event) returns (r': Run)
    requires IsRun(r) && Enabled(Last(r), e)
    ensures IsRun(r') && Last(r') == Apply(Last(r), e)
    ensures r'.events == r.events + [e] && r.states <= r'.states
  {
    r' := Run(r.states + [Apply(Last(r), e)], r.events + [e]);
    forall k: nat | k < |r'.events| ensures StepAt(r', k) {
      if k < |r.events| {
        assert StepAt(r, k);
      }
    }
  }

  /** A step of an instance, with what it changes and what it leaves. */
  lemma GoDo(r: Run, i: nat, step: Step) returns (r': Run)
    requires IsRun(r) && i in Last(r).inst && EnabledFor(Last(r), Last(r).inst[i], step)
    ensures IsRun(r') && r'.events == r.events + [Do(i, step)] && r.states <= r'.states
    ensures var c, d := Last(r), Last(r');
            && d.names == c.names && d.inflight == c.inflight
            && d.store == OnStore(c, c.inst[i], step) && d.inst == c.inst[i := Local(c, c.inst[i], step)]
            && d.late == if step == OwnerLost then c.late + multiset{i} else c.late
  {
    r' := Go(r, Do(i, step));
  }

  // ---- Instance 0 with lease 1 queued behind instance 1 with lease 2

  const OWNER: Bytes := [46]
  const NAMES := Names([47], OWNER)
  const OP := Put([1], [])
  const K1 := LockKey([47], 1)
  const K2 := LockKey([47], 2)

  function Zero(state: KeeperState, pc: Pc, published: Option<int>): Instance {
    Instance(1, state, pc, Some(Info(published, K1)))
  }

  function One(pc: Pc): Instance {
    Instance(2, Locked(K2, 2), pc, None)
  }

  lemma Distinct()
    ensures K1 != K2 && K1 != [1] && K2 != [1] && K1 != OWNER && K2 != OWNER && OWNER != [1]
    ensures IsLock(NAMES, K1) && IsLock(NAMES, K2)
    ensures LeaseIdStr(1) != LeaseIdStr(2)
    ensures Unreserved(NAMES, OP)
  {
    LockKeyInjective([47], 1, 2);
    LeaseIdStrInjective(1, 2);
    assert K1[0] == 47 && K2[0] == 47;
  }

  ghost predicate OwnerIsLease(c: Cluster, id: int) {
    OWNER in c.store.kv && c.store.kv[OWNER].value == LeaseIdStr(id)
  }

  /** Both keys exist, instance 1's is older, and a write of instance 0 is on its way. */
  ghost predicate Queued(c: Cluster) {
    && c.names == NAMES
    && K1 in c.store.kv && K2 in c.store.kv
    && c.store.kv[K1].lease == 1
    && c.store.kv[K2].lease == 2
    && c.store.kv[K2].createRev < c.store.kv[K1].createRev
    && (forall k | k in c.store.kv && IsLock(NAMES, k) :: k == K1 || k == K2)
    && 0 in c.inflight && c.inflight[0] == Write(0, 1, K1, OP)
    && 0 in c.inst && 1 in c.inst
  }

  lemma QueuedDoesNotHold(c: Cluster)
    requires Queued(c)
    ensures !Holds(c.names, c.store, 1)
  {
    Distinct();
  }

  /** Instance 0 alone: it holds the lock, is keeping it alive, and has begun a write. */
  ghost predicate Alone(c: Cluster) {
    && c.names == NAMES
    && c.inst == map[0 := Zero(KeepAlive(K1), Between, Some(1))]
    && c.inflight == map[0 := Write(0, 1, K1, OP)]
    && c.store == Store(2, map[K1 := Entry([], 1, 1, 1), OWNER := Entry(LeaseIdStr(1), 2, 2, 0)], {1})
  }

  lemma ServedRun() returns (r: Run)
    ensures IsRun(r) && Last(r).names == NAMES && Last(r).inflight == map[]
    ensures Last(r).inst == map[0 := Instance(1, Locked(K1, 1), StartLock(true), None)]
    ensures Last(r).store == Store(1, map[K1 := Entry([], 1, 1, 1)], {1})
  {
    assert NAMES.lockDir[0] == 47 && OWNER[0] == 46;
    r := Run([Cluster(NAMES, Store(0, map[], {}), map[], map[], multiset{})], []);
    r := Go(r, StartGrant(0, 1));
    r := GoDo(r, 0, ServeLock);
  }

  lemma StartedRun() returns (r: Run)
    ensures IsRun(r) && Last(r).names == NAMES && Last(r).inflight == map[]
    ensures Last(r).inst == map[0 := Zero(Locked(K1, 1), Between, Some(1))]
    ensures Last(r).store == Store(2, map[K1 := Entry([], 1, 1, 1), OWNER := Entry(LeaseIdStr(1), 2, 2, 0)], {1})
  {
    Distinct();
    r := ServedRun();
    r := GoDo(r, 0, GrantLock);
    assert Last(r).inst == map[0 := Zero(Locked(K1, 1), StartOwner(K1), Some(1))];
    r := GoDo(r, 0, OwnerTxn(true));
  }

  lemma KeptRun() returns (r: Run)
    ensures IsRun(r) && Last(r).names == NAMES && Last(r).inflight == map[]
    ensures Last(r).inst == map[0 := Zero(KeepAlive(K1), Between, Some(1))]
    ensures Last(r).store == Store(2, map[K1 := Entry([], 1, 1, 1), OWNER := Entry(LeaseIdStr(1), 2, 2, 0)], {1})
  {
    r := StartedRun();
    r := GoDo(r, 0, LockedSet);
    assert Last(r).inst == map[0 := Zero(Locked(K1, 1), KeepOpening, Some(1))];
    r := GoDo(r, 0, KeepOpened(true));
  }

  lemma AloneRun() returns (r: Run)
    ensures IsRun(r) && Alone(Last(r))
  {
    Distinct();
    r := KeptRun();
    r := Go(r, BeginWrite(0, OP, 0));
  }

  /** Instance 1 has queued, then instance 0 has lost its lease and is asking for it again. */
  ghost predicate Overtaken(c: Cluster, pc: Pc, state: KeeperState) {
    && c.names == NAMES
    && c.inst == map[0 := Zero(state, pc, Some(1)), 1 := One(StartLock(true))]
    && c.inflight == map[0 := Write(0, 1, K1, OP)]
    && OwnerIsLease(c, 1)
    && K2 in c.store.kv && c.store.kv[K2].lease == 2 && c.store.kv[K2].createRev <= c.store.rev
    && (forall k | k in c.store.kv && IsLock(NAMES, k) :: k == K2)
  }

  lemma RivalRun() returns (r: Run)
    ensures IsRun(r) && Last(r).names == NAMES
    ensures Last(r).inst == map[0 := Zero(KeepAlive(K1), Between, Some(1)), 1 := One(StartLock(true))]
    ensures Last(r).inflight == map[0 := Write(0, 1, K1, OP)]
    ensures Last(r).store.leases == {1, 2}
    ensures Last(r).store.kv ==
              map[K1 := Entry([], 1, 1, 1), OWNER := Entry(LeaseIdStr(1), 2, 2, 0), K2 := Entry([], 3, 3, 2)]
    ensures Last(r).store.rev == 3
  {
    Distinct();
    r := AloneRun();
    r := Go(r, StartGrant(1, 2));
    assert Last(r).inst == map[0 := Zero(KeepAlive(K1), Between, Some(1)), 1 := One(StartLock(false))];
    r := GoDo(r, 1, ServeLock);
  }

  lemma OvertakenRun() returns (r: Run)
    ensures IsRun(r) && Overtaken(Last(r), Between, KeepAlive(K1)) && Last(r).store.leases == {2}
  {
    Distinct();
    r := RivalRun();
    var s := Last(r).store;
    r := Go(r, ExpireLease(1));
    assert SameAt(s, Last(r).store, K2) && SameAt(s, Last(r).store, OWNER);
  }

  /** A keeper may go on in KeepAlive while another has been granted the lock and started. */
  lemma TwoMayBelieveGranted() returns (r: Run)
    ensures IsRun(r) && 0 in Last(r).inst && 1 in Last(r).inst
    ensures PhaseOf(Last(r).inst[0]) == KeepAlivePhase && Running(Last(r).inst[0])
    ensures PhaseOf(Last(r).inst[1]) == LockedPhase && Running(Last(r).inst[1])
  {
    Distinct();
    r := OvertakenRun();
    r := GoDo(r, 1, GrantLock);
    assert Last(r).inst[1].pc == StartOwner(K2) && Last(r).inst[0] == Zero(KeepAlive(K1), Between, Some(1));
    r := GoDo(r, 1, OwnerTxn(true));
  }

  lemma RegrantingRun() returns (r: Run)
    ensures IsRun(r) && Overtaken(Last(r), GrantCalling, LeaseGrant) && 1 !in Last(r).store.leases
  {
    r := OvertakenRun();
    r := GoDo(r, 0, KeepAliveTick(true, ProbeTtl(0)));
    assert Overtaken(Last(r), Between, LeaseGrant);
    r := GoDo(r, 0, GrantProbe(Some(-1)));
  }

  lemma RelockingRun() returns (r: Run)
    ensures IsRun(r) && Overtaken(Last(r), LockWait(false), Locking(1)) && 1 in Last(r).store.leases
  {
    Distinct();
    r := RegrantingRun();
    r := GoDo(r, 0, GrantCall(true, true));
    assert Overtaken(Last(r), Between, Locking(1));
    r := GoDo(r, 0, LockCheck(true));
  }

  /** A run ending with instance 0 queued, in the given state, and instance 1 still waiting. */
  ghost predicate Stuck(c: Cluster, state: KeeperState, pc: Pc, published: Option<int>) {
    && Queued(c) && c.inst[0] == Zero(state, pc, published)
    && c.inst[1] == One(StartLock(true))
    && 1 in c.store.leases && OwnerIsLease(c, 1)
  }

  lemma PendingRun() returns (r: Run)
    ensures IsRun(r) && Stuck(Last(r), Locking(1), LockWait(true), Some(1))
  {
    Distinct();
    r := RelockingRun();
    r := GoDo(r, 0, ServeLock);
  }

  lemma ExpiredRun() returns (r: Run)
    ensures IsRun(r) && Stuck(Last(r), LeaseExpired, Between, Some(1))
  {
    r := PendingRun();
    r := GoDo(r, 0, LockFails(LockTimeout));
  }

  lemma GrantingRun() returns (r: Run)
    ensures IsRun(r) && Stuck(Last(r), LeaseGrant, Between, None)
  {
    r := ExpiredRun();
    r := GoDo(r, 0, ExpiredUnset);
    assert Stuck(Last(r), LeaseExpired, ExpiredCheck, None);
    r := GoDo(r, 0, ExpiredRead(true));
    assert Stuck(Last(r), LeaseExpired, ExpiredStatus, None);
    r := GoDo(r, 0, StatusReply(true));
  }

  lemma ReconnectingRun() returns (r: Run)
    ensures IsRun(r) && Stuck(Last(r), RECONNECT, Between, None)
  {
    r := GrantingRun();
    r := GoDo(r, 0, GrantProbe(None));
    assert Stuck(Last(r), LeaseGrant, GrantCalling, None);
    r := GoDo(r, 0, GrantCall(false, false));
  }

  /** Instance 1 is granted the lock and records itself as the owner. */
  lemma DeposedRun() returns (r: Run)
    ensures IsRun(r) && Queued(Last(r)) && OwnerIsLease(Last(r), 2)
    ensures Last(r).inst[0] == Zero(LeaseExpired, Between, Some(1))
  {
    Distinct();
    r := ExpiredRun();
    r := GoDo(r, 1, GrantLock);
    assert Queued(Last(r)) && Last(r).inst[1].pc == StartOwner(K2);
    r := GoDo(r, 1, OwnerTxn(true));
  }

  lemma GoneRun() returns (r: Run)
    ensures IsRun(r) && Queued(Last(r)) && Last(r).inst[0] == Zero(Replaced, Between, None)
  {
    Distinct();
    r := DeposedRun();
    r := GoDo(r, 0, ExpiredUnset);
    assert Queued(Last(r)) && Last(r).inst[0] == Zero(LeaseExpired, ExpiredCheck, None) && OwnerIsLease(Last(r), 2);
    r := GoDo(r, 0, ExpiredRead(true));
  }

  lemma QueuedRun(p: Phase) returns (r: Run)
    requires !Granted(p)
    ensures IsRun(r) && Queued(Last(r)) && WriterPhase(Last(r), 0, p)
  {
    match p
    case LockPending => r := PendingRun();
    case Expired => r := ExpiredRun();
    case Granting => r := GrantingRun();
    case Reconnecting => r := ReconnectingRun();
    case Gone => r := GoneRun();
  }
}
