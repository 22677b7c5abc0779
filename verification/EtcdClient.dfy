/** The client every service writes through: fenced when it was opened with a lease. */
module EtcdClient {
  import opened Wrappers
  import opened EtcdStore
  import opened LeaseKeeper

  // ---- What a call does, as values

  /** What a client opened with a lease reads before it writes: the published lease and the lock key. */
  datatype Fence = Fence(leaseId: Option<int>, lockKey: Bytes)

  /** A write: the store it leaves and what the caller is told. */
  function WriteResult(s: Store, fence: Option<Fence>, op: WriteOp): (Store, Result<(), StoreError>) {
    match fence
    case None => (ApplyOp(s, op), Ok(()))
    case Some(Fence(None, _)) => (s, Err(NotReady))
    case Some(Fence(Some(id), key)) =>
      if FenceHolds(s, id, key) then (ApplyOp(s, op), Ok(())) else (s, Err(FailedLock))
  }

  function GetResult(s: Store, key: Bytes): Result<(Bytes, nat), StoreError> {
    if key in s.kv then Ok((s.kv[key].value, s.kv[key].modRev)) else Err(MissingEntry)
  }

  function CasResult(s: Store, key: Bytes, value: Bytes, expected: nat): (Store, Result<(), StoreError>) {
    if ModRevOf(s, key) == expected then (PutKey(s, key, value, 0), Ok(())) else (s, Err(CompareFailed))
  }

  /** What the store holds under a key, as far as a reader can tell. */
  ghost predicate HoldsValue(s: Store, key: Bytes, value: Bytes) {
    key in s.kv && s.kv[key].value == value && s.kv[key].lease == 0
  }

  /** The operation has been carried out, and nothing else. */
  ghost predicate Done(op: WriteOp, s: Store, t: Store) {
    forall key ::
      if !Touches(op, key) then SameAt(s, t, key)
      else if op.Put? then HoldsValue(t, key, op.value)
      else key !in t.kv
  }

  /**
   An Ok means that the operation was carried out, an error that nothing was
   changed; a client without a lease never gets an error, and one with a lease
   gets Ok exactly when its lock key carries the published lease.
   */
  lemma WriteMeansDone(s: Store, fence: Option<Fence>, op: WriteOp)
    ensures var (t, r) := WriteResult(s, fence, op);
            && (r.Ok? ==> Done(op, s, t) && t.rev >= s.rev && t.leases == s.leases)
            && (r.Err? ==> t == s)
            && (r.Ok? <==>
                  || fence.None?
                  || (fence.value.leaseId.Some? && LeaseOf(s, fence.value.lockKey) == fence.value.leaseId.value))
            && (r == Err(NotReady) <==> fence.Some? && fence.value.leaseId.None?)
  {
  }

  /** What was put is what is read, under a revision never used before; what was deleted is missing. */
  lemma ReadYourWrites(s: Store, fence: Option<Fence>, op: WriteOp, key: Bytes)
    requires WriteResult(s, fence, op).1.Ok?
    ensures var r := GetResult(WriteResult(s, fence, op).0, key);
            if !Touches(op, key) then r == GetResult(s, key)
            else if op.Put? then r.Ok? && r.value.0 == op.value && r.value.1 > s.rev
            else r == Err(MissingEntry)
  {
    WriteMeansDone(s, fence, op);
    var t := WriteResult(s, fence, op).0;
    assert Touches(op, key) || SameAt(s, t, key);
  }

  /** A swap succeeds exactly on the revision last read, and then reads back under a newer one. */
  lemma CasMeansSwapped(s: Store, key: Bytes, value: Bytes, expected: nat)
    ensures var (t, r) := CasResult(s, key, value, expected);
            && (r.Ok? ==> HoldsValue(t, key, value) && t.kv[key].modRev > s.rev)
            && (forall k | k != key :: SameAt(s, t, k))
            && (r.Err? ==> t == s)
            && (r.Ok? <==>
                  if GetResult(s, key).Ok? then GetResult(s, key).value.1 == expected else expected == 0)
  {
  }

  // ---- The objects

  /** etcd itself, as one client sees it between two of its own calls. */
  class Server {
    var store: Store

    constructor (store: Store)
      ensures this.store == store
    {
      this.store := store;
    }

    /** A transaction guarded by the lease of the lock key. */
    method FencedTxn(leaseId: int, lockKey: Bytes, op: WriteOp) returns (succeeded: bool)
      modifies this
      ensures store == FencedWrite(old(store), leaseId, lockKey, op)
      ensures succeeded <==> FenceHolds(old(store), leaseId, lockKey)
    {
      succeeded := LeaseOf(store, lockKey) == leaseId;
      if succeeded {
        store := ApplyOp(store, op);
      }
    }

    /** A put guarded by the modification revision of its own key. */
    method RevisionTxn(key: Bytes, value: Bytes, expected: nat) returns (succeeded: bool)
      modifies this
      ensures succeeded <==> ModRevOf(old(store), key) == expected
      ensures store == if succeeded then PutKey(old(store), key, value, 0) else old(store)
    {
      succeeded := ModRevOf(store, key) == expected;
      if succeeded {
        store := PutKey(store, key, value, 0);
      }
    }
  }

  class Client {
    const server: Server
    const info: LeaseLockInfo?

    constructor (server: Server, info: LeaseLockInfo?)
      ensures this.server == server && this.info == info
    {
      this.server := server;
      this.info := info;
    }

    ghost function FenceOf(): Option<Fence>
      reads info
    {
      if info == null then None else Some(Fence(info.leaseId, info.lockKey))
    }

    /** Puts, deletes and prefix deletes; they share one guard and differ in the operation. */
    method Write(op: WriteOp) returns (r: Result<(), StoreError>)
      modifies server
      ensures (server.store, r) == WriteResult(old(server.store), FenceOf(), op)
      ensures r.Ok? ==> Done(op, old(server.store), server.store)
      ensures r.Err? ==> server.store == old(server.store) && info != null
    {
      WriteMeansDone(server.store, FenceOf(), op);
      if info != null {
        var pair := info.LeaseLock();
        match pair
        case Err(e) => return Err(e);
        case Ok((leaseId, lockKey)) =>
          var succeeded := server.FencedTxn(leaseId, lockKey, op);
          if !succeeded {
            return Err(FailedLock);
          }
      } else {
        server.store := ApplyOp(server.store, op);
      }
      return Ok(());
    }

    /** The value of a key with the revision a later compare-and-swap must expect. */
    method GetObj(key: Bytes) returns (r: Result<(Bytes, nat), StoreError>)
      ensures r == GetResult(server.store, key)
      ensures r.Ok? ==> r.value.1 == ModRevOf(server.store, key)
    {
      if key in server.store.kv {
        r := Ok((server.store.kv[key].value, server.store.kv[key].modRev));
      } else {
        r := Err(MissingEntry);
      }
    }

    /** Not fenced: the revision is the only guard. */
    method PutObjCas(key: Bytes, value: Bytes, expected: nat) returns (r: Result<(), StoreError>)
      modifies server
      ensures (server.store, r) == CasResult(old(server.store), key, value, expected)
      ensures r.Err? ==> server.store == old(server.store)
    {
      var succeeded := server.RevisionTxn(key, value, expected);
      r := if succeeded then Ok(()) else Err(CompareFailed);
    }
  }
}
