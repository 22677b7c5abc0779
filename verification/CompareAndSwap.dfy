/**
 Clients that read an object, compute its successor and put it back under the
 revision they read, among arbitrary other puts, deletes, lease expiries and
 each other.
 */
module CompareAndSwap {
  import opened Wrappers
  import opened EtcdStore
  import opened EtcdClient

  /** The entry a client last read, under its key. */
  datatype Seen = Seen(key: Bytes, entry: Entry)

  datatype System = System(store: Store, seen: map<nat, Seen>)

  datatype Event =
    | Other(op: WriteOp)
    | LeasedPut(key: Bytes, value: Bytes, lease: int)
    | LeaseExpires(id: int)
    | Read(client: nat, key: Bytes)
    | Swap(client: nat, update: Bytes -> Bytes)

  ghost predicate Enabled(s: System, e: Event) {
    e.Swap? ==> e.client in s.seen
  }

  /** The swap finds the revision its client read. */
  ghost predicate Succeeds(s: System, e: Event) {
    e.Swap? && e.client in s.seen &&
    ModRevOf(s.store, s.seen[e.client].key) == s.seen[e.client].entry.modRev
  }

  ghost function Apply(s: System, e: Event): System
    requires Enabled(s, e)
  {
    match e
    case Other(op) => s.(store := ApplyOp(s.store, op))
    case LeasedPut(k, v, lease) => s.(store := PutKey(s.store, k, v, lease))
    case LeaseExpires(id) => s.(store := Expire(s.store, id))
    case Read(client, k) =>
      if k in s.store.kv then s.(seen := s.seen[client := Seen(k, s.store.kv[k])]) else s
    case Swap(client, update) =>
      var seen := s.seen[client];
      if Succeeds(s, e) then s.(store := PutKey(s.store, seen.key, update(seen.entry.value), 0)) else s
  }

  datatype Run = Run(states: seq<System>, events: seq<Event>)

  ghost predicate StepAt(r: Run, k: nat)
    requires k < |r.events| && |r.states| == |r.events| + 1
  {
    Enabled(r.states[k], r.events[k]) && r.states[k + 1] == Apply(r.states[k], r.events[k])
  }

  ghost predicate IsRun(r: Run) {
    && |r.states| == |r.events| + 1
    && WellFormed(r.states[0].store) && r.states[0].seen == map[]
    && forall k: nat | k < |r.events| :: StepAt(r, k)
  }

  // ---- A revision names one entry for ever

  /** `entry` is what the key holds now. */
  ghost predicate Unchanged(s: Store, key: Bytes, entry: Entry) {
    key in s.kv && s.kv[key] == entry
  }

  /** The key has been deleted or written anew since it held `entry`. */
  ghost predicate MovedOn(s: Store, key: Bytes, entry: Entry) {
    entry.modRev <= s.rev && (key in s.kv ==> s.kv[key].modRev > entry.modRev)
  }

  ghost predicate Inv(s: System) {
    && WellFormed(s.store)
    && forall c | c in s.seen ::
         && 1 <= s.seen[c].entry.modRev <= s.store.rev
         && (Unchanged(s.store, s.seen[c].key, s.seen[c].entry) || MovedOn(s.store, s.seen[c].key, s.seen[c].entry))
  }

  /** A key moves on from an entry for good. */
  lemma KeyStep(s: System, e: Event, key: Bytes, entry: Entry)
    requires Inv(s) && Enabled(s, e) && 1 <= entry.modRev <= s.store.rev
    requires Unchanged(s.store, key, entry) || MovedOn(s.store, key, entry)
    ensures var t := Apply(s, e).store;
            && t.rev >= s.store.rev
            && (Unchanged(t, key, entry) || MovedOn(t, key, entry))
            && (MovedOn(s.store, key, entry) ==> MovedOn(t, key, entry))
  {
    var t := Apply(s, e).store;
    if key in t.kv {
      if key in s.store.kv && t.kv[key] == s.store.kv[key] {
      } else {
        WriteIsNewer(s, e, key);
      }
    }
  }

  /** Whatever writes a key gives it a modification revision never used before. */
  lemma WriteIsNewer(s: System, e: Event, key: Bytes)
    requires Inv(s) && Enabled(s, e) && key in Apply(s, e).store.kv
    requires !SameAt(s.store, Apply(s, e).store, key)
    ensures Apply(s, e).store.kv[key].modRev > s.store.rev
  {
    match e
    case Other(op) => assert Touches(op, key);
    case _ =>
  }

  lemma InvStep(s: System, e: Event)
    requires Inv(s) && Enabled(s, e)
    ensures Inv(Apply(s, e))
  {
    var t := Apply(s, e);
    forall c | c in t.seen
      ensures 1 <= t.seen[c].entry.modRev <= t.store.rev
      ensures Unchanged(t.store, t.seen[c].key, t.seen[c].entry) || MovedOn(t.store, t.seen[c].key, t.seen[c].entry)
    {
      if c in s.seen && t.seen[c] == s.seen[c] {
        KeyStep(s, e, s.seen[c].key, s.seen[c].entry);
      }
    }
  }

  lemma {:induction false} InvAt(r: Run, k: nat)
    requires IsRun(r) && k < |r.states|
    ensures Inv(r.states[k])
  {
    if k > 0 {
      InvAt(r, k - 1);
      assert StepAt(r, k - 1);
      InvStep(r.states[k - 1], r.events[k - 1]);
    }
  }

  lemma {:induction false} EntrySince(r: Run, k: nat, l: nat, key: Bytes)
    requires IsRun(r) && k <= l < |r.states| && key in r.states[k].store.kv
    ensures var entry := r.states[k].store.kv[key];
            && 1 <= entry.modRev <= r.states[l].store.rev
            && (Unchanged(r.states[l].store, key, entry) || MovedOn(r.states[l].store, key, entry))
    decreases l
  {
    InvAt(r, k);
    if k < l {
      EntrySince(r, k, l - 1, key);
      InvAt(r, l - 1);
      assert StepAt(r, l - 1);
      KeyStep(r.states[l - 1], r.events[l - 1], key, r.states[k].store.kv[key]);
    }
  }

  lemma {:induction false} MovedOnForGood(r: Run, m: nat, l: nat, key: Bytes, entry: Entry)
    requires IsRun(r) && m <= l < |r.states| && 1 <= entry.modRev
    requires MovedOn(r.states[m].store, key, entry)
    ensures MovedOn(r.states[l].store, key, entry)
    decreases l
  {
    if m < l {
      MovedOnForGood(r, m, l - 1, key, entry);
      InvAt(r, l - 1);
      assert StepAt(r, l - 1);
      KeyStep(r.states[l - 1], r.events[l - 1], key, entry);
    }
  }

  // ---- Swaps lose nothing

  /**
   A get at `k` and a revision that still matches at `l`: nothing touched the
   key in between, not even to put an equal value back.
   */
  lemma MatchingRevisionMeansUntouched(r: Run, k: nat, l: nat, m: nat, key: Bytes)
    requires IsRun(r) && k <= m <= l < |r.states| && key in r.states[k].store.kv
    requires ModRevOf(r.states[l].store, key) == r.states[k].store.kv[key].modRev
    ensures SameAt(r.states[k].store, r.states[m].store, key)
  {
    var entry := r.states[k].store.kv[key];
    EntrySince(r, k, m, key);
    EntrySince(r, k, l, key);
    if !Unchanged(r.states[m].store, key, entry) {
      MovedOnForGood(r, m, l, key, entry);
    }
  }

  /** A swap that succeeds replaces exactly the value its client read: it acts as one atomic update. */
  lemma SwapIsAtomicUpdate(r: Run, l: nat)
    requires IsRun(r) && l < |r.events| && Succeeds(r.states[l], r.events[l])
    ensures var key := r.states[l].seen[r.events[l].client].key;
            && key in r.states[l].store.kv && key in r.states[l + 1].store.kv
            && r.states[l + 1].store.kv[key].value == r.events[l].update(r.states[l].store.kv[key].value)
            && r.states[l].store.kv[key] == r.states[l].seen[r.events[l].client].entry
  {
    InvAt(r, l);
    assert StepAt(r, l);
  }

  /** What a key holds: a value and the lease it is attached to, 0 for none. */
  datatype Held = Held(value: Bytes, lease: int)

  ghost function HeldAt(s: Store, key: Bytes): Option<Held> {
    if key in s.kv then Some(Held(s.kv[key].value, s.kv[key].lease)) else None
  }

  /** What one event makes of what `key` held, the successful swap by the value held and not by the one read. */
  ghost function FoldStep(s: System, e: Event, key: Bytes, held: Option<Held>): Option<Held> {
    match e
    case Other(Put(k, v)) => if k == key then Some(Held(v, 0)) else held
    case Other(op) => if Touches(op, key) then None else held
    case LeasedPut(k, v, lease) => if k == key then Some(Held(v, lease)) else held
    case LeaseExpires(id) => if held.Some? && held.value.lease == id then None else held
    case Read(_, _) => held
    case Swap(client, update) =>
      if Succeeds(s, e) && s.seen[client].key == key && held.Some?
      then Some(Held(update(held.value.value), 0)) else held
  }

  /** Every event of the run applied to `key` in turn, as if each had run alone. */
  ghost function Folded(r: Run, n: nat, key: Bytes): Option<Held>
    requires IsRun(r) && n <= |r.events|
  {
    if n == 0 then HeldAt(r.states[0].store, key)
    else FoldStep(r.states[n - 1], r.events[n - 1], key, Folded(r, n - 1, key))
  }

  lemma HeldStep(s: System, e: Event, key: Bytes)
    requires Inv(s) && Enabled(s, e)
    ensures HeldAt(Apply(s, e).store, key) == FoldStep(s, e, key, HeldAt(s.store, key))
  {
    match e
    case Other(op) =>
      if !Touches(op, key) {
        assert SameAt(s.store, Apply(s, e).store, key);
      }
    case LeaseExpires(id) =>
      if key in s.store.kv && s.store.kv[key].lease != id {
        assert SameAt(s.store, Apply(s, e).store, key);
      }
    case LeasedPut(k, _, _) =>
      if k != key {
        assert SameAt(s.store, Apply(s, e).store, key);
      }
    case Swap(client, _) =>
      if s.seen[client].key != key {
        assert SameAt(s.store, Apply(s, e).store, key);
      }
    case Read(_, _) =>
  }

  /**
   However clients, other writers, deletes and expiries interleave, a key holds
   at every moment what its events make of it one after the other, each
   successful swap applied to what was there: no update is lost.
   */
  lemma {:induction false} NoLostUpdate(r: Run, n: nat, key: Bytes)
    requires IsRun(r) && n <= |r.events|
    ensures HeldAt(r.states[n].store, key) == Folded(r, n, key)
  {
    if n > 0 {
      NoLostUpdate(r, n - 1, key);
      InvAt(r, n - 1);
      assert StepAt(r, n - 1);
      HeldStep(r.states[n - 1], r.events[n - 1], key);
    }
  }

  /** A successful swap finds its key: its update is never left out of the fold for want of a value. */
  lemma SwapFindsValue(r: Run, l: nat)
    requires IsRun(r) && l < |r.events| && Succeeds(r.states[l], r.events[l])
    ensures Folded(r, l, r.states[l].seen[r.events[l].client].key).Some?
  {
    NoLostUpdate(r, l, r.states[l].seen[r.events[l].client].key);
    SwapIsAtomicUpdate(r, l);
  }

  // ---- The calls of the client

  /** A read is what `Client.GetObj` returns, kept by its client. */
  lemma ReadIsGetObj(s: System, client: nat, key: Bytes)
    ensures GetResult(s.store, key).Ok? ==>
              && client in Apply(s, Read(client, key)).seen
              && var seen := Apply(s, Read(client, key)).seen[client];
                 seen.key == key && GetResult(s.store, key).value == (seen.entry.value, seen.entry.modRev)
    ensures GetResult(s.store, key).Err? ==> Apply(s, Read(client, key)) == s
  {
  }

  /** A swap is `Client.PutObjCas` on the revision read. */
  lemma SwapIsPutObjCas(s: System, e: Event)
    requires Enabled(s, e) && e.Swap?
    ensures var seen := s.seen[e.client];
            var (t, r) := CasResult(s.store, seen.key, e.update(seen.entry.value), seen.entry.modRev);
            Apply(s, e).store == t && (Succeeds(s, e) <==> r.Ok?)
  {
  }
}
