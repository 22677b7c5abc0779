/** The tenures of a lock key, and who writes the owner record when. */
module OwnerRecord {
  import opened Wrappers
  import opened EtcdStore
  import opened LeaseKeeper
  import opened LeaseProtocol
  import opened LeaseSafety

  // ---- Tenures

  /** The lock request of instance `i` is served at `s` and finds no key: a new tenure begins. */
  ghost predicate RecreatesAt(r: Run, s: nat, i: nat)
    requires IsRun(r) && s < |r.events|
  {
    r.events[s] == Do(i, ServeLock) && i in r.states[s].inst && KeyOf(r.states[s], i) !in r.states[s].store.kv
  }

  ghost predicate Recreated(r: Run, b: nat, l: nat, i: nat)
    requires IsRun(r) && l <= |r.events|
  {
    exists s: nat :: b <= s < l && RecreatesAt(r, s, i)
  }

  /** A lock key found after a step was there before, unless the step created it. */
  lemma TenureStep(r: Run, m: nat, i: nat)
    requires IsRun(r) && m < |r.events| && i in r.states[m].inst && !RecreatesAt(r, m, i)
    requires KeyOf(r.states[m], i) in r.states[m + 1].store.kv
    ensures KeyOf(r.states[m], i) in r.states[m].store.kv
    ensures r.states[m + 1].store.kv[KeyOf(r.states[m], i)] == r.states[m].store.kv[KeyOf(r.states[m], i)]
  {
    assert StepAt(r, m);
    InvAt(r, m);
    if r.events[m] != Do(i, ServeLock) {
      OwnKeyStep(r.states[m], r.events[m], i);
    }
  }

  lemma {:induction false} Unrecreated(r: Run, b: nat, l: nat, i: nat)
    requires IsRun(r) && b <= l < |r.states| && i in r.states[b].inst && !Recreated(r, b, l, i)
    requires KeyOf(r.states[b], i) in r.states[l].store.kv
    ensures KeyOf(r.states[b], i) in r.states[b].store.kv
    ensures r.states[l].store.kv[KeyOf(r.states[b], i)] == r.states[b].store.kv[KeyOf(r.states[b], i)]
    decreases l
  {
    if b < l {
      Lasting(r, b, l - 1);
      assert !RecreatesAt(r, l - 1, i);
      TenureStep(r, l - 1, i);
      Unrecreated(r, b, l - 1, i);
    }
  }

  /** A key created in between is newer than everything there was at its creation. */
  lemma RecreatedIsNewer(r: Run, s: nat, l: nat, i: nat)
    requires IsRun(r) && s < l < |r.states| && RecreatesAt(r, s, i)
    requires KeyOf(r.states[s], i) in r.states[l].store.kv
    ensures r.states[l].store.kv[KeyOf(r.states[s], i)].createRev > r.states[s].store.rev
  {
    LockKeysSince(r, s, l, KeyOf(r.states[s], i));
  }

  /**
   A lock key has the create revision it had before exactly when no lock
   request of its instance was served without it in between; the fence, which
   compares the lease alone, lets a write through in either case.
   */
  lemma SameTenureIff(r: Run, b: nat, l: nat, i: nat)
    requires IsRun(r) && b <= l < |r.states| && i in r.states[b].inst
    requires KeyOf(r.states[b], i) in r.states[b].store.kv && KeyOf(r.states[b], i) in r.states[l].store.kv
    ensures var key := KeyOf(r.states[b], i);
            r.states[l].store.kv[key].createRev == r.states[b].store.kv[key].createRev <==> !Recreated(r, b, l, i)
  {
    if Recreated(r, b, l, i) {
      var s: nat :| b <= s < l && RecreatesAt(r, s, i);
      Lasting(r, b, s);
      RecreatedIsNewer(r, s, l, i);
      InvAt(r, b);
    } else {
      Unrecreated(r, b, l, i);
    }
  }

  // ---- Holding the lock until queued again

  /** The key of `i` was lost since `g` and queued again behind a lock key that is still there at `k`. */
  ghost predicate RequeuedBehind(r: Run, g: nat, k: nat, i: nat)
    requires IsRun(r) && k < |r.states|
  {
    exists s: nat, q: Bytes :: g <= s < k && RecreatesAt(r, s, i) && StillAhead(r, s, k, i, q)
  }

  ghost predicate StillAhead(r: Run, s: nat, k: nat, i: nat, q: Bytes)
    requires s < |r.states| && k < |r.states| && i in r.states[s].inst
  {
    && q != KeyOf(r.states[s], i) && IsLock(r.states[s].names, q)
    && q in r.states[s].store.kv && SameAt(r.states[s].store, r.states[k].store, q)
  }

  /** The last time the key was created anew. */
  lemma {:induction false} LastRecreated(r: Run, b: nat, l: nat, i: nat) returns (s: nat)
    requires IsRun(r) && b <= l < |r.states| && Recreated(r, b, l, i)
    ensures b <= s < l && RecreatesAt(r, s, i) && !Recreated(r, s + 1, l, i)
    decreases l
  {
    if RecreatesAt(r, l - 1, i) {
      s := l - 1;
    } else {
      s := LastRecreated(r, b, l - 1, i);
      assert forall m: nat | s + 1 <= m < l && RecreatesAt(r, m, i) :: m < l - 1;
    }
  }

  /** The holder goes on holding the lock for as long as its key is not created anew. */
  lemma HolderKeepsHolding(r: Run, g: nat, k: nat, i: nat)
    requires IsRun(r) && g <= k < |r.states| && i in r.states[g].inst && !Recreated(r, g, k, i)
    requires Holds(r.states[g].names, r.states[g].store, r.states[g].inst[i].leaseId)
    requires KeyOf(r.states[g], i) in r.states[k].store.kv
    ensures Holds(r.states[g].names, r.states[k].store, r.states[g].inst[i].leaseId)
  {
    Unrecreated(r, g, k, i);
    InvAt(r, g);
    var names, key := r.states[g].names, KeyOf(r.states[g], i);
    forall q | q in r.states[k].store.kv && IsLock(names, q) && q != key
      ensures r.states[k].store.kv[key].createRev < r.states[k].store.kv[q].createRev
    {
      LockKeysSince(r, g, k, q);
    }
  }

  /** A lock key no newer than one created at `s` was there when that one was. */
  lemma OlderWasThere(r: Run, s: nat, k: nat, i: nat, q: Bytes)
    requires IsRun(r) && s < k < |r.states| && RecreatesAt(r, s, i) && !Recreated(r, s + 1, k, i)
    requires IsLock(r.states[s].names, q) && q != KeyOf(r.states[s], i) && q in r.states[k].store.kv
    requires KeyOf(r.states[s], i) in r.states[k].store.kv
    requires r.states[k].store.kv[q].createRev <= r.states[k].store.kv[KeyOf(r.states[s], i)].createRev
    ensures StillAhead(r, s, k, i, q)
  {
    StepFacts(r, s);
    Lasting(r, s, s + 1);
    Unrecreated(r, s + 1, k, i);
    InvAt(r, s + 1);
    LockKeysSince(r, s + 1, k, q);
    assert KeptOrServed(r.states[s], r.events[s], r.states[s + 1].store, q);
  }

  /**
   An instance that held the lock and whose key is there now holds it now,
   exactly unless the key was lost and queued again behind one that is still there.
   */
  lemma HoldsUntilRequeuedIff(r: Run, g: nat, k: nat, i: nat)
    requires IsRun(r) && g <= k < |r.states| && i in r.states[g].inst
    requires Holds(r.states[g].names, r.states[g].store, r.states[g].inst[i].leaseId)
    requires KeyOf(r.states[g], i) in r.states[k].store.kv
    ensures Holds(r.states[g].names, r.states[k].store, r.states[g].inst[i].leaseId) <==> !RequeuedBehind(r, g, k, i)
  {
    var names, id, key := r.states[g].names, r.states[g].inst[i].leaseId, KeyOf(r.states[g], i);
    if RequeuedBehind(r, g, k, i) {
      var s: nat, q: Bytes :| g <= s < k && RecreatesAt(r, s, i) && StillAhead(r, s, k, i, q);
      Lasting(r, g, s);
      RecreatedIsNewer(r, s, k, i);
      InvAt(r, s);
    } else if !Recreated(r, g, k, i) {
      HolderKeepsHolding(r, g, k, i);
    } else {
      var s := LastRecreated(r, g, k, i);
      Lasting(r, g, s);
      forall q | q in r.states[k].store.kv && IsLock(names, q) && q != key
        ensures r.states[k].store.kv[key].createRev < r.states[k].store.kv[q].createRev
      {
        if r.states[k].store.kv[q].createRev <= r.states[k].store.kv[key].createRev {
          OlderWasThere(r, s, k, i, q);
        }
      }
    }
  }

  // ---- Every owner put has a grant behind it

  predicate Putting(x: Instance) {
    x.pc.OwnerPutting? || x.pc.StartOwner?
  }

  lemma PuttingStep(c: Cluster, e: Event, i: nat)
    requires Enabled(c, e) && i in Apply(c, e).inst && Putting(Apply(c, e).inst[i])
    ensures i in c.inst && (e == Do(i, GrantLock) || Putting(c.inst[i]))
  {
  }

  /** An instance about to put its id as the owner was granted the lock, and has been about to since. */
  lemma {:induction false} GrantBehindPut(r: Run, k: nat, i: nat) returns (g: nat)
    requires IsRun(r) && k < |r.states| && i in r.states[k].inst && Putting(r.states[k].inst[i])
    ensures g < k && r.events[g] == Do(i, GrantLock) && i in r.states[g].inst
    decreases k
  {
    assert k > 0;
    assert StepAt(r, k - 1);
    PuttingStep(r.states[k - 1], r.events[k - 1], i);
    if r.events[k - 1] == Do(i, GrantLock) {
      g := k - 1;
    } else {
      g := GrantBehindPut(r, k - 1, i);
    }
  }

  lemma LateStep(c: Cluster, e: Event, i: nat)
    requires Enabled(c, e) && i in Apply(c, e).late
    ensures i in c.late || (e == Do(i, OwnerLost) && i in c.inst && Putting(c.inst[i]))
  {
  }

  /** An owner put under way without its caller was given up on by an instance about to make it. */
  lemma {:induction false} LateWasGivenUp(r: Run, k: nat, i: nat) returns (a: nat)
    requires IsRun(r) && k < |r.states| && i in r.states[k].late
    ensures a < k && r.events[a] == Do(i, OwnerLost) && i in r.states[a].inst && Putting(r.states[a].inst[i])
    decreases k
  {
    assert k > 0;
    assert StepAt(r, k - 1);
    LateStep(r.states[k - 1], r.events[k - 1], i);
    if i in r.states[k - 1].late {
      a := LateWasGivenUp(r, k - 1, i);
    } else {
      a := k - 1;
    }
  }

  /** The lock service grants only the holder. */
  lemma GrantedHolds(r: Run, g: nat, i: nat)
    requires IsRun(r) && g < |r.events| && r.events[g] == Do(i, GrantLock)
    ensures i in r.states[g].inst && Holds(r.states[g].names, r.states[g].store, r.states[g].inst[i].leaseId)
  {
    assert StepAt(r, g);
    InvAt(r, g);
    var c := r.states[g];
    forall q | q in c.store.kv && IsLock(c.names, q) && q != KeyOf(c, i)
      ensures c.store.kv[KeyOf(c, i)].createRev < c.store.kv[q].createRev
    {
      assert IsLock(c.names, KeyOf(c, i));
    }
  }

  /** The event at `k` is an owner put that takes effect. */
  ghost predicate RecordsAt(r: Run, k: nat)
    requires IsRun(r) && k < |r.events|
  {
    RecordsOwner(r.states[k], r.events[k], r.states[k + 1].store)
  }

  /** The owner record changes only by owner puts, each of the writer's own id under its own key. */
  lemma RecordChangesByPut(r: Run, k: nat)
    requires IsRun(r) && k < |r.events|
    ensures RecordsAt(r, k) || SameAt(r.states[k].store, r.states[k + 1].store, r.states[k].names.ownerKey)
    ensures RecordsAt(r, k) ==> r.events[k].i in r.states[k].inst
                                && KeyOf(r.states[k], r.events[k].i) in r.states[k].store.kv
  {
    assert StepAt(r, k);
    InvAt(r, k);
    OwnerStep(r.states[k], r.events[k]);
  }

  /** A put whose caller still waits for it takes effect only while the caller holds the lock. */
  lemma OwnerRecordWrittenByHolder(r: Run, k: nat)
    requires IsRun(r) && k < |r.events| && RecordsAt(r, k) && r.events[k].Do?
    ensures r.events[k].i in r.states[k].inst
    ensures Holds(r.states[k].names, r.states[k].store, r.states[k].inst[r.events[k].i].leaseId)
  {
    RecordChangesByPut(r, k);
    InvAt(r, k);
  }

  lemma PutWasGranted(r: Run, k: nat) returns (g: nat)
    requires IsRun(r) && k < |r.events| && RecordsAt(r, k)
    ensures g < k && r.events[g] == Do(r.events[k].i, GrantLock) && r.events[k].i in r.states[g].inst
  {
    assert StepAt(r, k);
    if r.events[k].LandOwner? {
      var a := LateWasGivenUp(r, k, r.events[k].i);
      g := GrantBehindPut(r, a, r.events[k].i);
    } else {
      g := GrantBehindPut(r, k, r.events[k].i);
    }
  }

  /**
   Whoever writes the owner record was granted the lock before, and holds it at
   that instant exactly unless its key was lost since and queued again behind
   one that is still there, which only a put given up on lives to see.
   */
  lemma RecordedByHolderIff(r: Run, k: nat) returns (g: nat)
    requires IsRun(r) && k < |r.events| && RecordsAt(r, k)
    ensures r.events[k].i in r.states[k].inst
    ensures g < k && r.events[g] == Do(r.events[k].i, GrantLock)
    ensures Holds(r.states[k].names, r.states[k].store, r.states[k].inst[r.events[k].i].leaseId) <==>
            !RequeuedBehind(r, g, k, r.events[k].i)
    ensures r.events[k].Do? ==> !RequeuedBehind(r, g, k, r.events[k].i)
  {
    var i := r.events[k].i;
    RecordChangesByPut(r, k);
    g := PutWasGranted(r, k);
    GrantedHolds(r, g, i);
    Lasting(r, g, k);
    HoldsUntilRequeuedIff(r, g, k, i);
    if r.events[k].Do? {
      OwnerRecordWrittenByHolder(r, k);
    }
  }

  // ---- Whose record it is

  /** The instance whose owner put was the last to take effect from `k` up to, not including, `l`. */
  ghost function LastPut(r: Run, k: nat, l: nat): Option<nat>
    requires IsRun(r) && l <= |r.events|
    decreases l
  {
    if l <= k then None
    else if RecordsAt(r, l - 1) then Some(r.events[l - 1].i)
    else LastPut(r, k, l - 1)
  }

  lemma RecordStep(r: Run, m: nat, i: nat)
    requires IsRun(r) && m < |r.events| && i in r.states[m].inst
    ensures i in r.states[m + 1].inst
    ensures RecordsAt(r, m) ==> (OwnerFree(r.states[m + 1], i) <==> r.events[m].i == i)
    ensures !RecordsAt(r, m) ==> (OwnerFree(r.states[m + 1], i) <==> OwnerFree(r.states[m], i))
  {
    RecordChangesByPut(r, m);
    Lasting(r, m, m + 1);
    InvAt(r, m);
    if RecordsAt(r, m) {
      LeaseIdStrInjective(r.states[m].inst[r.events[m].i].leaseId, r.states[m].inst[i].leaseId);
    }
  }

  /** The owner record is free for `i` as the last owner put left it, or as it was when there was none. */
  lemma {:induction false} RecordIsLastPut(r: Run, k: nat, l: nat, i: nat)
    requires IsRun(r) && k <= l < |r.states| && i in r.states[k].inst
    ensures i in r.states[l].inst
    ensures OwnerFree(r.states[l], i) <==>
            match LastPut(r, k, l) case None => OwnerFree(r.states[k], i) case Some(j) => j == i
    decreases l
  {
    if k < l {
      RecordIsLastPut(r, k, l - 1, i);
      RecordStep(r, l - 1, i);
    }
  }

  /** Since a passed check, the record has become another's exactly when the last owner put since was another's. */
  lemma OvertakenSinceCheckIff(r: Run, k: nat, l: nat, i: nat)
    requires IsRun(r) && CheckedAt(r, k, l, i)
    ensures i in r.states[l].inst
    ensures !OwnerFree(r.states[l], i) <==> LastPut(r, k, l).Some? && LastPut(r, k, l) != Some(i)
  {
    RecordIsLastPut(r, k, l, i);
  }

  // ---- The lock reply decides

  /** Instance `i` is told at `g` that it holds the lock, makes its owner put at `l`, and enters Locked. */
  ghost predicate LocksFrom(r: Run, g: nat, l: nat, i: nat)
    requires IsRun(r)
  {
    && g < l < |r.events| && r.events[g] == Do(i, GrantLock)
    && (forall m: nat | g < m <= l :: i in r.states[m].inst && r.states[m].inst[i].pc.OwnerPutting?)
    && i in r.states[l + 1].inst && r.states[l + 1].inst[i].state.Locked?
  }

  /** Its own put is what takes it to Locked, so its key is there at every state since the grant. */
  lemma KeyKeptSinceGrant(r: Run, g: nat, l: nat, m: nat, i: nat)
    requires IsRun(r) && LocksFrom(r, g, l, i) && g < m <= l
    ensures i in r.states[m].inst && KeyOf(r.states[m], i) in r.states[m].store.kv
    ensures Holds(r.states[m].names, r.states[m].store, r.states[m].inst[i].leaseId)
  {
    OwnPutAt(r, g, l, i);
    assert r.states[m].inst[i].pc.OwnerPutting?;
    forall s: nat | m <= s < l ensures r.events[s] != Do(i, ServeLock) {
      assert StepAt(r, s) && r.states[s].inst[i].pc.OwnerPutting?;
    }
    if KeyOf(r.states[m], i) !in r.states[m].store.kv {
      KeyStaysGone(r, m, l, i);
    }
    InvAt(r, m);
  }

  lemma OwnPutAt(r: Run, g: nat, l: nat, i: nat)
    requires IsRun(r) && LocksFrom(r, g, l, i)
    ensures i in r.states[l].inst && KeyOf(r.states[l], i) in r.states[l].store.kv
  {
    assert StepAt(r, l);
    InvAt(r, l);
    assert r.states[l].inst[i].pc.OwnerPutting?;
    assert r.events[l].Do? && r.events[l].i == i;
    EntersLockedFromOwnerPut(r.states[l], r.states[l].inst[i], r.events[l].step);
  }

  /** Its own put, which ends the wait for it, is none of those in between. */
  lemma NotItsOwnPut(r: Run, g: nat, l: nat, m: nat, i: nat)
    requires IsRun(r) && LocksFrom(r, g, l, i) && g <= m < l && RecordsAt(r, m) && r.events[m].Do?
    ensures g < m && r.events[m].i != i
  {
    assert StepAt(r, m);
    assert r.states[m + 1].inst[i].pc.OwnerPutting?;
  }

  /** From the grant to its own put, no owner put takes effect but ones given up on before. */
  lemma OnlyLatePuts(r: Run, g: nat, l: nat, m: nat, i: nat)
    requires IsRun(r) && LocksFrom(r, g, l, i) && g <= m < l && RecordsAt(r, m)
    ensures r.events[m].LandOwner?
  {
    if r.events[m].Do? {
      NotItsOwnPut(r, g, l, m, i);
      OwnerRecordWrittenByHolder(r, m);
      KeyKeptSinceGrant(r, g, l, m, i);
      InvAt(r, m);
      var c := r.states[m];
      AtMostOneHolder(c.names, c.store, c.inst[i].leaseId, c.inst[r.events[m].i].leaseId);
    }
  }

  /** The last owner put given up on to take effect from `k` up to, not including, `l`. */
  ghost function LastLatePut(r: Run, k: nat, l: nat): Option<nat>
    requires IsRun(r) && l <= |r.events|
    decreases l
  {
    if l <= k then None
    else if RecordsAt(r, l - 1) && r.events[l - 1].LandOwner? then Some(r.events[l - 1].i)
    else LastLatePut(r, k, l - 1)
  }

  lemma {:induction false} LastPutIsLate(r: Run, g: nat, l: nat, n: nat, i: nat)
    requires IsRun(r) && LocksFrom(r, g, l, i) && g <= n <= l
    ensures LastPut(r, g, n) == LastLatePut(r, g, n)
    decreases n
  {
    if g < n {
      LastPutIsLate(r, g, l, n - 1, i);
      if RecordsAt(r, n - 1) {
        OnlyLatePuts(r, g, l, n - 1, i);
      }
    }
  }

  /**
   An instance enters Locked over another's record exactly when the record was
   another's as it was told that it holds the lock, or when a put given up on
   before has changed it since: what it could read at the lock reply decides.
   */
  lemma GrantDecidesIff(r: Run, g: nat, l: nat, i: nat)
    requires IsRun(r) && LocksFrom(r, g, l, i)
    ensures i in r.states[g].inst && i in r.states[l].inst
    ensures !OwnerFree(r.states[l], i) <==>
            match LastLatePut(r, g, l) case None => !OwnerFree(r.states[g], i) case Some(j) => j != i
  {
    assert StepAt(r, g);
    LastPutIsLate(r, g, l, l, i);
    RecordIsLastPut(r, g, l, i);
  }
}
