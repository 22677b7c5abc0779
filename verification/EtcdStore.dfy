/**
 The part of etcd the control plane relies on: a revision-counted key-value
 map, leases that keys may be attached to, and atomic compare-then-write
 transactions.
 */
module EtcdStore {
  type Byte = b: int | 0 <= b < 256
  type Bytes = seq<Byte>

  datatype Entry = Entry(value: Bytes, createRev: nat, modRev: nat, lease: int)

  datatype Store = Store(rev: nat, kv: map<Bytes, Entry>, leases: set<int>)

  datatype WriteOp =
    | Put(key: Bytes, value: Bytes)
    | Delete(key: Bytes)
    | DeletePrefix(prefix: Bytes)

  predicate Touches(op: WriteOp, key: Bytes) {
    match op
    case Put(k, _) => k == key
    case Delete(k) => k == key
    case DeletePrefix(p) => p <= key
  }

  /** Every entry was created no later than it was last written, and not in the future. */
  ghost predicate WellFormed(s: Store) {
    forall k | k in s.kv :: 1 <= s.kv[k].createRev <= s.kv[k].modRev <= s.rev
  }

  /** `key` has the same entry, or none, in both stores. */
  ghost predicate SameAt(s: Store, t: Store, key: Bytes) {
    && (key in s.kv <==> key in t.kv)
    && (key in s.kv ==> t.kv[key] == s.kv[key])
  }

  function PutKey(s: Store, key: Bytes, value: Bytes, lease: int): (t: Store)
    ensures WellFormed(s) ==> WellFormed(t)
    ensures forall k | k != key :: SameAt(s, t, k)
    ensures t.rev > s.rev && key in t.kv && t.kv[key].modRev > s.rev
  {
    var rev := s.rev + 1;
    var created := if key in s.kv then s.kv[key].createRev else rev;
    s.(rev := rev, kv := s.kv[key := Entry(value, created, rev, lease)])
  }

  /** Removing keys takes one revision, and none when nothing is removed. */
  function DeleteKeys(s: Store, dead: set<Bytes>): (t: Store)
    ensures WellFormed(s) ==> WellFormed(t)
    ensures forall k | k !in dead :: SameAt(s, t, k)
    ensures forall k | k in dead :: k !in t.kv
    ensures t.rev >= s.rev
  {
    if forall k | k in dead :: k !in s.kv then s else s.(rev := s.rev + 1, kv := s.kv - dead)
  }

  function ApplyOp(s: Store, op: WriteOp): (t: Store)
    ensures WellFormed(s) ==> WellFormed(t)
    ensures forall k | !Touches(op, k) :: SameAt(s, t, k)
    ensures t.rev >= s.rev
    ensures t.leases == s.leases
  {
    match op
    case Put(k, v) => PutKey(s, k, v, 0)
    case Delete(k) => DeleteKeys(s, {k})
    case DeletePrefix(p) => DeleteKeys(s, set k | k in s.kv && p <= k)
  }

  /** A missing key compares as lease 0 and as modification revision 0. */
  function LeaseOf(s: Store, key: Bytes): int {
    if key in s.kv then s.kv[key].lease else 0
  }

  function ModRevOf(s: Store, key: Bytes): nat {
    if key in s.kv then s.kv[key].modRev else 0
  }

  predicate FenceHolds(s: Store, leaseId: int, lockKey: Bytes) {
    LeaseOf(s, lockKey) == leaseId
  }

  /** A write guarded by "the lock key carries this lease": all or nothing. */
  function FencedWrite(s: Store, leaseId: int, lockKey: Bytes, op: WriteOp): (t: Store)
    ensures WellFormed(s) ==> WellFormed(t)
    ensures forall k | !Touches(op, k) :: SameAt(s, t, k)
    ensures t.rev >= s.rev && t.leases == s.leases
  {
    if FenceHolds(s, leaseId, lockKey) then ApplyOp(s, op) else s
  }

  function Grant(s: Store, id: int): Store {
    s.(leases := s.leases + {id})
  }

  /** Expiry takes the lease and every key attached to it. */
  function Expire(s: Store, id: int): (t: Store)
    ensures WellFormed(s) ==> WellFormed(t)
    ensures id !in t.leases
    ensures forall k | k in t.kv :: k in s.kv && t.kv[k] == s.kv[k] && t.kv[k].lease != id
    ensures forall k | k in s.kv && s.kv[k].lease != id :: SameAt(s, t, k)
    ensures t.rev >= s.rev
  {
    DeleteKeys(s, set k | k in s.kv && s.kv[k].lease == id).(leases := s.leases - {id})
  }
}
