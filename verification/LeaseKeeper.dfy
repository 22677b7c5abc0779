/**
 The keeper of one service instance: it holds a lease, queues for the service's
 lock, records itself as the owner and keeps the lease alive.  What etcd
 answers is a parameter of each cycle; the cycles of many instances interleaved
 with etcd are the subject of `LeaseProtocol`.
 */
module LeaseKeeper {
  import opened Wrappers
  import opened EtcdStore
  import Radix

  // ---- Lease ids and their hexadecimal form

  const TWO_63 := 0x8000_0000_0000_0000
  const TWO_64 := 0x1_0000_0000_0000_0000

  /** Leases are signed 64-bit numbers; 0 means "no lease". */
  predicate IsLeaseId(id: int) {
    -TWO_63 <= id < TWO_63 && id != 0
  }

  function HexByte(d: nat): Byte
    requires d < 16
  {
    if d < 10 then 48 + d else 87 + d
  }

  /** The hexadecimal form of a signed 64-bit number: the digits of its two's complement. */
  function LeaseIdStr(id: int): Bytes
  {
    var ds := Radix.Digits(id % TWO_64, 16);
    seq(|ds|, i requires 0 <= i < |ds| => assert ds[i] in ds; HexByte(ds[i]))
  }

  lemma LeaseIdStrInjective(a: int, b: int)
    requires IsLeaseId(a) && IsLeaseId(b)
    ensures LeaseIdStr(a) == LeaseIdStr(b) <==> a == b
  {
    var da, db := Radix.Digits(a % TWO_64, 16), Radix.Digits(b % TWO_64, 16);
    if LeaseIdStr(a) == LeaseIdStr(b) {
      assert |da| == |LeaseIdStr(a)| == |db|;
      forall i | 0 <= i < |da| ensures da[i] == db[i] {
        assert da[i] in da && db[i] in db;
        assert LeaseIdStr(a)[i] == HexByte(da[i]) && LeaseIdStr(b)[i] == HexByte(db[i]);
      }
      assert da == db;
      assert a % TWO_64 == b % TWO_64;
    }
  }

  /** etcd names the key of a lock request after the lock and the lease. */
  function LockKey(lockDir: Bytes, id: int): Bytes {
    lockDir + LeaseIdStr(id)
  }

  lemma LockKeyInjective(lockDir: Bytes, a: int, b: int)
    requires IsLeaseId(a) && IsLeaseId(b)
    ensures LockKey(lockDir, a) == LockKey(lockDir, b) <==> a == b
  {
    LeaseIdStrInjective(a, b);
    if LockKey(lockDir, a) == LockKey(lockDir, b) {
      assert LeaseIdStr(a) == LockKey(lockDir, a)[|lockDir|..];
      assert LeaseIdStr(b) == LockKey(lockDir, b)[|lockDir|..];
    }
  }

  // ---- The states of a keeper and what one cycle does to them

  datatype KeeperState =
    | LeaseExpired
    | LeaseGrant
    | Locking(leaseId: int)
    | Locked(lockKey: Bytes, leaseId: int)
    | KeepAlive(lockKey: Bytes)
    | Reconnect(delay: nat)
    | Replaced

  const RECONNECT := Reconnect(1)

  datatype OwnerReply = OwnerMissing | OwnerIs(lease: Bytes) | OwnerUnknown

  datatype LockReply = LockGranted(key: Bytes) | LockError | LockTimeout

  datatype ProbeReply = ProbeFailed | NoProbe | ProbeTtl(ttl: int)

  /** Everything etcd may answer during one cycle; a cycle uses what it asks for. */
  datatype Answers = Answers(
    statusUp: bool,
    owner: OwnerReply,
    ttl: Option<int>,
    granted: Option<int>,
    lock: LockReply,
    ownerPut: bool,
    streamOpen: bool,
    keepAliveSent: bool,
    probe: ProbeReply)

  /** Some(true): another instance owns the service; None: etcd cannot be asked. */
  function IsReplaced(owner: OwnerReply, id: int): Option<bool> {
    match owner
    case OwnerIs(name) => Some(name != LeaseIdStr(id))
    case OwnerMissing => Some(false)
    case OwnerUnknown => None
  }

  function ClockReconnect(delay: nat, statusUp: bool): KeeperState {
    if statusUp then LeaseExpired
    else Reconnect(if delay + 1 < 5 then 5 else delay + 1)
  }

  function ClockLeaseExpired(replaced: Option<bool>, statusUp: bool): KeeperState {
    if replaced == Some(true) then Replaced
    else if statusUp then LeaseGrant else RECONNECT
  }

  function ClockLeaseGrant(id: int, ttl: Option<int>, granted: Option<int>): KeeperState {
    if ttl.Some? && ttl.value >= 0 then Locking(id)
    else if granted.Some? then Locking(granted.value) else RECONNECT
  }

  function ClockLocking(id: int, replaced: Option<bool>, lock: LockReply, ownerPut: bool): KeeperState {
    match replaced
    case None => RECONNECT
    case Some(true) => Replaced
    case Some(false) =>
      match lock
      case LockGranted(key) => if ownerPut then Locked(key, id) else RECONNECT
      case _ => LeaseExpired
  }

  function ClockLocked(lockKey: Bytes, streamOpen: bool): KeeperState {
    if streamOpen then KeepAlive(lockKey) else RECONNECT
  }

  function ClockKeepAlive(lockKey: Bytes, sent: bool, probe: ProbeReply): KeeperState {
    if !sent || probe.ProbeFailed? then RECONNECT
    else if probe.ProbeTtl? && probe.ttl <= 0 then LeaseGrant
    else KeepAlive(lockKey)
  }

  function Clock(state: KeeperState, id: int, a: Answers): KeeperState {
    match state
    case LeaseExpired => ClockLeaseExpired(IsReplaced(a.owner, id), a.statusUp)
    case LeaseGrant => ClockLeaseGrant(id, a.ttl, a.granted)
    case Locking(leaseId) => ClockLocking(leaseId, IsReplaced(a.owner, id), a.lock, a.ownerPut)
    case Locked(key, _) => ClockLocked(key, a.streamOpen)
    case KeepAlive(key) => ClockKeepAlive(key, a.keepAliveSent, a.probe)
    case Reconnect(delay) => ClockReconnect(delay, a.statusUp)
    case Replaced => Replaced
  }

  /** Only two states touch the published lease: expiry withdraws it, the lock restores it. */
  function Publish(state: KeeperState, id: int, published: Option<int>): Option<int> {
    match state
    case LeaseExpired => None
    case Locked(_, _) => Some(id)
    case _ => published
  }

  /** What a cycle of the given state asks etcd, and whether that failed. */
  predicate CallFailed(state: KeeperState, a: Answers) {
    match state
    case LeaseExpired => !a.statusUp
    case LeaseGrant => (a.ttl.None? || a.ttl.value < 0) && a.granted.None?
    case Locking(_) => a.owner.OwnerUnknown? || (a.lock.LockGranted? && !a.ownerPut)
    case Locked(_, _) => !a.streamOpen
    case KeepAlive(_) => !a.keepAliveSent || a.probe.ProbeFailed?
    case Reconnect(_) => !a.statusUp
    case Replaced => false
  }

  /** A cycle of the given state reads the owner record and finds another instance's id there. */
  predicate FindsOther(state: KeeperState, id: int, a: Answers) {
    (state.LeaseExpired? || state.Locking?) && a.owner.OwnerIs? && a.owner.lease != LeaseIdStr(id)
  }

  /**
   The machine read backwards: each state is entered for exactly one reason.
   Another's record leads to Replaced before anything else; otherwise a failed
   call leads to Reconnect; and otherwise the cycle goes on, or falls back to
   LeaseExpired without the lock and to LeaseGrant without the lease.
   */
  lemma EnteredBecause(state: KeeperState, id: int, a: Answers)
    ensures var next := Clock(state, id, a);
            var fine := !FindsOther(state, id, a) && !CallFailed(state, a);
            && (next.Replaced? <==> state.Replaced? || FindsOther(state, id, a))
            && (next.Reconnect? <==> !FindsOther(state, id, a) && CallFailed(state, a))
            && (next.Reconnect? && !state.Reconnect? ==> next.delay == 1)
            && (next.LeaseExpired? <==> fine && (state.Reconnect? || (state.Locking? && !a.lock.LockGranted?)))
            && (next.LeaseGrant? <==>
                  fine && (state.LeaseExpired? || (state.KeepAlive? && a.probe.ProbeTtl? && a.probe.ttl <= 0)))
            && (next.Locking? <==> fine && state.LeaseGrant?)
            && (next.Locked? <==> fine && state.Locking? && a.lock.LockGranted?)
            && (next.KeepAlive? <==>
                  fine && (state.Locked? || (state.KeepAlive? && !(a.probe.ProbeTtl? && a.probe.ttl <= 0))))
  {
  }

  /** etcd answers every call, keeps the lease and grants the lock, and no other instance is recorded. */
  predicate AllWell(lockDir: Bytes, id: int, a: Answers) {
    && FaithfulAnswers(lockDir, id, a)
    && a.statusUp && a.streamOpen && a.keepAliveSent && a.ownerPut
    && (a.owner.OwnerMissing? || a.owner == OwnerIs(LeaseIdStr(id)))
    && ((a.ttl.Some? && a.ttl.value >= 0) || a.granted.Some?)
    && a.lock.LockGranted?
    && (a.probe.NoProbe? || (a.probe.ProbeTtl? && a.probe.ttl > 0))
  }

  /** How many cycles a keeper is from KeepAlive when all is well. */
  function Distance(state: KeeperState): nat {
    match state
    case Reconnect(_) => 5
    case LeaseExpired => 4
    case LeaseGrant => 3
    case Locking(_) => 2
    case Locked(_, _) => 1
    case _ => 0
  }

  /** The keeper after `n` failed attempts to reconnect. */
  function AfterFailures(n: nat): (state: KeeperState)
    ensures state.Reconnect?
  {
    if n == 0 then RECONNECT else ClockReconnect(AfterFailures(n - 1).delay, false)
  }

  /** The wait grows by a second an attempt without end: it is within five seconds only up to the first failure. */
  lemma {:induction false} ReconnectDelay(n: nat)
    ensures AfterFailures(n).delay == if n == 0 then 1 else n + 4
    ensures AfterFailures(n).delay <= 5 <==> n <= 1
  {
    if n > 0 {
      ReconnectDelay(n - 1);
    }
  }

  // ---- The keeper as an object

  datatype StoreError = NotReady | FailedLock | MissingEntry | CompareFailed

  class LeaseLockInfo {
    var leaseId: Option<int>
    const lockKey: Bytes

    constructor (leaseId: int, lockKey: Bytes)
      ensures this.leaseId == Some(leaseId) && this.lockKey == lockKey
    {
      this.leaseId := Some(leaseId);
      this.lockKey := lockKey;
    }

    method LeaseLock() returns (r: Result<(int, Bytes), StoreError>)
      ensures r == if leaseId.Some? then Ok((leaseId.value, lockKey)) else Err(NotReady)
    {
      match leaseId
      case Some(id) => r := Ok((id, lockKey));
      case None => r := Err(NotReady);
    }

    method SetLease(id: Option<int>)
      modifies this
      ensures leaseId == id
    {
      leaseId := id;
    }
  }

  class SingletonLock {
    var state: Option<KeeperState>
    const leaseId: int
    const lockDir: Bytes
    const info: LeaseLockInfo

    /** The keeper as `start` builds it, once the lock and the owner record are its own. */
    constructor (leaseId: int, lockDir: Bytes, lockKey: Bytes)
      requires IsLeaseId(leaseId) && lockKey == LockKey(lockDir, leaseId)
      ensures fresh(info) && this.leaseId == leaseId && this.lockDir == lockDir
      ensures Valid() && state == Some(Locked(lockKey, leaseId)) && info.leaseId == Some(leaseId)
    {
      this.leaseId := leaseId;
      this.lockDir := lockDir;
      this.state := Some(Locked(lockKey, leaseId));
      this.info := new LeaseLockInfo(leaseId, lockKey);
    }

    ghost predicate Valid()
      reads this, info
    {
      && state.Some?
      && IsLeaseId(leaseId)
      && Coherent(lockDir, leaseId, state.value)
      && info.lockKey == LockKey(lockDir, leaseId)
      && (info.leaseId.Some? ==> info.leaseId.value == leaseId)
    }

    /** One cycle of the state machine; `exited` when the process gave up. */
    method Next(a: Answers) returns (exited: bool)
      requires Valid() && FaithfulAnswers(lockDir, leaseId, a)
      modifies this, info
      ensures Valid()
      ensures exited <==> old(state) == Some(Replaced)
      ensures state == Some(Clock(old(state).value, leaseId, a))
      ensures info.leaseId == Publish(old(state).value, leaseId, old(info.leaseId))
    {
      exited := false;
      var current := state.value;
      state := None;
      var next := Replaced;
      match current {
        case LeaseExpired =>
          info.SetLease(None);
          var replaced := IsReplaced(a.owner, leaseId);
          if replaced == Some(true) {
            next := Replaced;
          } else if !a.statusUp {
            next := RECONNECT;
          } else {
            next := LeaseGrant;
          }
        case LeaseGrant =>
          if a.ttl.Some? && a.ttl.value >= 0 {
            next := Locking(leaseId);
          } else {
            match a.granted
            case Some(id) => next := Locking(id);
            case None => next := RECONNECT;
          }
        case Locking(id) =>
          next := LockingCycle(id, a);
        case Locked(key, _) =>
          info.SetLease(Some(leaseId));
          next := if a.streamOpen then KeepAlive(key) else RECONNECT;
        case KeepAlive(key) =>
          if !a.keepAliveSent || a.probe.ProbeFailed? {
            next := RECONNECT;
          } else if a.probe.ProbeTtl? && a.probe.ttl <= 0 {
            next := LeaseGrant;
          } else {
            next := KeepAlive(key);
          }
        case Reconnect(delay) =>
          var sleep := if delay + 1 > 5 then delay + 1 else 5;
          next := if a.statusUp then LeaseExpired else Reconnect(sleep);
        case Replaced =>
          exited := true;
      }
      state := Some(next);
    }

    /**
     Cycle after cycle.  While all is well a keeper that has not been replaced
     is in KeepAlive within five cycles and stays there, with its lease published.
     */
    method KeepLockAlive(cycles: seq<Answers>)
      requires Valid() && !state.value.Replaced?
      requires forall a | a in cycles :: AllWell(lockDir, leaseId, a)
      modifies this, info
      ensures Valid() && !state.value.Replaced?
      ensures |cycles| >= Distance(old(state).value) ==> state.value.KeepAlive?
      ensures |cycles| >= Distance(old(state).value) && !old(state).value.KeepAlive? ==> info.leaseId == Some(leaseId)
      ensures old(state).value.KeepAlive? ==> state == old(state) && info.leaseId == old(info.leaseId)
    {
      var i := 0;
      while i < |cycles|
        invariant i <= |cycles| && Valid() && !state.value.Replaced?
        invariant Distance(state.value) == if i < Distance(old(state).value) then Distance(old(state).value) - i else 0
        invariant state.value.KeepAlive? && !old(state).value.KeepAlive? ==> info.leaseId == Some(leaseId)
        invariant old(state).value.KeepAlive? ==> state == old(state) && info.leaseId == old(info.leaseId)
      {
        assert cycles[i] in cycles;
        var exited := Next(cycles[i]);
        i := i + 1;
      }
    }

    method LockingCycle(id: int, a: Answers) returns (next: KeeperState)
      ensures next == ClockLocking(id, IsReplaced(a.owner, leaseId), a.lock, a.ownerPut)
    {
      var replaced := IsReplaced(a.owner, leaseId);
      if replaced == None {
        return RECONNECT;
      }
      if replaced == Some(true) {
        return Replaced;
      }
      match a.lock
      case LockGranted(key) =>
        next := if a.ownerPut then Locked(key, id) else RECONNECT;
      case LockError =>
        next := LeaseExpired;
      case LockTimeout =>
        next := LeaseExpired;
    }
  }

  /** The ids and keys inside a state are the instance's own. */
  predicate Coherent(lockDir: Bytes, id: int, state: KeeperState) {
    match state
    case Locking(l) => l == id
    case Locked(k, l) => l == id && k == LockKey(lockDir, id)
    case KeepAlive(k) => k == LockKey(lockDir, id)
    case _ => true
  }

  /** etcd grants the lease asked for and names the lock key after it. */
  predicate FaithfulAnswers(lockDir: Bytes, id: int, a: Answers) {
    && (a.granted.Some? ==> a.granted.value == id)
    && (a.lock.LockGranted? ==> a.lock.key == LockKey(lockDir, id))
  }
}
