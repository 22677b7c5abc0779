/**
 What a lost stream loses.  Every watch of a new stream starts after the newest
 header, whatever its own prefix had still to come, so a change may be due on
 one watch and passed over by the header of another.
 */
module WatchLoss {
  import opened Wrappers
  import opened EtcdStore
  import opened WatchSpec
  import opened WatchRuns
  import opened WatchDelivery

  /** A run beside etcd, whose revision at each state is in `nows`. */
  datatype Timed = Timed(run: Run, nows: seq<int>)

  ghost predicate IsTimed(t: Timed) {
    && IsRun(t.run) && AllowedUpTo(t.run, |t.run.events|)
    && |t.nows| == |t.run.states|
    && forall m: nat | m < |t.run.events| :: TimelyAt(t, m)
  }

  /**
   etcd's revision does not go back, a header is a revision etcd has reached,
   and a watch that etcd has ended brings nothing more.
   */
  ghost predicate TimelyAt(t: Timed, m: nat)
    requires m < |t.run.events| && m + 1 < |t.nows| == |t.run.states|
  {
    && t.nows[m] <= t.nows[m + 1]
    && (t.run.events[m].Receive? && t.run.events[m].resp.header.Some? ==>
          1 <= t.run.events[m].resp.header.value <= t.nows[m])
    && (t.run.events[m].Receive? && t.run.events[m].resp.id in Ended(t, m) ==> t.run.events[m].resp.changes == [])
  }

  /** The response at `m` ends a watch that was accepted, as after a compaction; the code takes no notice. */
  ghost predicate EndsAt(t: Timed, m: nat, id: int)
    requires m < |t.run.events|
  {
    var e := t.run.events[m];
    e.Receive? && e.resp.canceled && !e.resp.created && e.resp.id == id
  }

  /** The watches of the current stream that etcd has ended. */
  ghost function Ended(t: Timed, k: nat): set<int>
    requires k < |t.run.states|
  {
    if k == 0 || !WatchingAt(t, k) || !WatchingAt(t, k - 1) || k > |t.run.events| then {}
    else
      Ended(t, k - 1)
      + (if t.run.events[k - 1].Receive? && EndsAt(t, k - 1, t.run.events[k - 1].resp.id)
         then {t.run.events[k - 1].resp.id} else {})
  }

  ghost predicate WatchingAt(t: Timed, k: nat)
    requires k < |t.run.states|
  {
    t.run.states[k].state.Watching?
  }

  /** etcd's revision when each watch of the current stream was asked for. */
  ghost function Born(t: Timed, k: nat): map<int, int>
    requires |t.nows| == |t.run.states| && k < |t.run.states|
  {
    if !WatchingAt(t, k) then map[]
    else
      map id | id in t.run.states[k].state.stream.starts ::
        if k > 0 && id in Born(t, k - 1) then Born(t, k - 1)[id] else t.nows[k]
  }

  /** The first revision a watch brings; etcd takes a start of 0 as "from now on". */
  ghost function FirstRev(t: Timed, k: nat, id: int): int
    requires |t.nows| == |t.run.states| && k < |t.run.states| && WatchingAt(t, k)
    requires id in t.run.states[k].state.stream.starts
  {
    var start := t.run.states[k].state.stream.starts[id];
    if start == 0 then Born(t, k)[id] + 1 else start
  }

  /** The current watch of `p` has to bring `c` and has not done so yet. */
  ghost predicate Owed(t: Timed, k: nat, p: Bytes, c: Change)
    requires |t.nows| == |t.run.states| && k < |t.run.states|
  {
    && WatchingAt(t, k)
    && var w := t.run.states[k];
       && p in w.state.stream.keys && w.state.stream.keys[p] in w.state.stream.starts
       && FirstRev(t, k, w.state.stream.keys[p]) <= c.rev
       && c !in PushedOn(w.pushed, w.state.stream.keys[p]) && w.state.stream.keys[p] !in Ended(t, k)
  }

  // ---- Prefixes left alone

  predicate Concerns(op: TableOp, p: Bytes) {
    match op
    case Asked(r) => r.prefix == p
    case Removed(q) => q == p
    case Noted(_, _) => false
  }

  /** `p` is registered at `k`, and is not registered again or removed up to `l`. */
  ghost predicate LeftAlone(r: Run, k: nat, l: nat, p: Bytes)
    requires k <= l < |r.states|
  {
    && p in r.states[k].config.keys
    && forall i | |r.states[k].ops| <= i < |r.states[l].ops| :: !Concerns(r.states[l].ops[i], p)
  }

  lemma {:induction false} FoldAlone(ops: seq<TableOp>, n: nat, p: Bytes)
    requires n <= |ops| && p in Fold(ops[..n])
    requires forall i | n <= i < |ops| :: !Concerns(ops[i], p)
    ensures p in Fold(ops) && Fold(ops)[p].ctx == Fold(ops[..n])[p].ctx
  {
    if n < |ops| {
      var front := ops[..|ops| - 1];
      assert front[..n] == ops[..n];
      FoldAlone(front, n, p);
      assert !Concerns(ops[|ops| - 1], p);
    } else {
      assert ops[..n] == ops;
    }
  }

  /** A prefix left alone stays registered, by the same registrant. */
  lemma AloneStays(r: Run, k: nat, l: nat, p: Bytes)
    requires IsRun(r) && k <= l < |r.states| && LeftAlone(r, k, l, p)
    ensures p in r.states[l].config.keys && r.states[l].config.keys[p].ctx == r.states[k].config.keys[p].ctx
  {
    OpsGrow(r, k, l);
    InvAt(r, k);
    InvAt(r, l);
    var before, after := r.states[k].ops, r.states[l].ops;
    assert after[..|before|] == before;
    FoldAlone(after, |before|, p);
  }

  lemma AloneBetween(r: Run, k: nat, m: nat, l: nat, p: Bytes)
    requires IsRun(r) && k <= m <= l < |r.states| && LeftAlone(r, k, l, p)
    ensures LeftAlone(r, k, m, p) && LeftAlone(r, m, l, p)
  {
    OpsGrow(r, k, m);
    OpsGrow(r, m, l);
    var mid, after := r.states[m].ops, r.states[l].ops;
    forall i | |r.states[k].ops| <= i < |mid| ensures !Concerns(mid[i], p) {
      assert mid[i] == after[i];
    }
    AloneStays(r, k, m, p);
  }

  // ---- On one stream

  /** On a live stream, watches keep the revision they were asked from. */
  lemma StartsStay(w: World, e: Event, id: int)
    requires Inv(w) && Enabled(w, e) && w.state.Watching? && Next(w, e).state.Watching? && id in w.state.stream.starts
    ensures id in Next(w, e).state.stream.starts
    ensures Next(w, e).state.stream.starts[id] == w.state.stream.starts[id]
  {
  }

  lemma BornStays(t: Timed, k: nat, id: int)
    requires IsTimed(t) && k < |t.run.events| && WatchingAt(t, k) && WatchingAt(t, k + 1)
    requires id in t.run.states[k].state.stream.starts
    ensures id in t.run.states[k + 1].state.stream.starts && FirstRev(t, k + 1, id) == FirstRev(t, k, id)
  {
    InvAt(t.run, k);
    assert StepAt(t.run, k);
    StartsStay(t.run.states[k], t.run.events[k], id);
  }

  /** Nothing that happens to other prefixes on a live stream gives `p` another watch. */
  lemma WatchStays(w: World, e: Event, p: Bytes)
    requires Inv(w) && Enabled(w, e) && w.state.Watching? && Next(w, e).state.Watching?
    requires p in w.state.stream.keys
    requires forall i | |w.ops| <= i < |Next(w, e).ops| :: !Concerns(Next(w, e).ops[i], p)
    ensures p in Next(w, e).state.stream.keys && Next(w, e).state.stream.keys[p] == w.state.stream.keys[p]
  {
    var v := Next(w, e);
    match e
    case TakeRequest(_) =>
      if w.queue != [] {
        assert v.ops[|w.ops|] == Asked(w.queue[0]);
      }
    case Receive(resp, removes) =>
      var n := Notify(w.config, w.state.stream, resp, removes);
      if n.removed.Some? {
        assert v.ops[|v.ops| - 1] == Removed(n.removed.value);
        NotifyStream(w.config, w.state.stream, resp, removes);
      }
    case _ =>
  }

  /** The response at `m` brings `c` on the current watch of `p`. */
  ghost predicate SentAt(t: Timed, m: nat, p: Bytes, c: Change)
    requires IsRun(t.run) && m < |t.run.events|
  {
    var w, e := t.run.states[m], t.run.events[m];
    && e.Receive? && w.state.Watching? && !(e.resp.created && e.resp.canceled)
    && p in w.state.stream.keys && e.resp.id == w.state.stream.keys[p] && c in e.resp.changes
  }

  lemma PushedAfter(w: World, e: Event, id: int, c: Change)
    requires Enabled(w, e) && w.state.Watching? && Next(w, e).state.Watching?
    ensures c in PushedOn(Next(w, e).pushed, id) <==>
            || c in PushedOn(w.pushed, id)
            || (e.Receive? && !(e.resp.created && e.resp.canceled) && e.resp.id == id && c in e.resp.changes)
  {
  }

  /** The response at `m` ends the current watch of `p`. */
  ghost predicate WatchEndsAt(t: Timed, m: nat, p: Bytes)
    requires IsRun(t.run) && m < |t.run.events|
  {
    var w := t.run.states[m];
    w.state.Watching? && p in w.state.stream.keys && EndsAt(t, m, w.state.stream.keys[p])
  }

  /** On a live stream, a change stays owed until it is sent or its watch ended, and none becomes owed. */
  lemma OwedStep(t: Timed, k: nat, p: Bytes, c: Change)
    requires IsTimed(t) && k < |t.run.events| && WatchingAt(t, k) && WatchingAt(t, k + 1)
    requires LeftAlone(t.run, k, k + 1, p)
    ensures Owed(t, k + 1, p, c) <==> Owed(t, k, p, c) && !SentAt(t, k, p, c) && !WatchEndsAt(t, k, p)
  {
    InvAt(t.run, k);
    assert StepAt(t.run, k);
    var w, e := t.run.states[k], t.run.events[k];
    assert p in w.state.stream.keys;
    WatchStays(w, e, p);
    BornStays(t, k, w.state.stream.keys[p]);
    PushedAfter(w, e, w.state.stream.keys[p], c);
  }

  ghost predicate SentBetween(t: Timed, k: nat, l: nat, p: Bytes, c: Change)
    requires IsRun(t.run) && l <= |t.run.events|
  {
    exists m: nat :: k <= m < l && SentAt(t, m, p, c)
  }

  ghost predicate WatchEndsBetween(t: Timed, k: nat, l: nat, p: Bytes)
    requires IsRun(t.run) && l <= |t.run.events|
  {
    exists m: nat :: k <= m < l && WatchEndsAt(t, m, p)
  }

  ghost predicate OneStream(t: Timed, k: nat, l: nat)
    requires l < |t.run.states|
  {
    forall m: nat | k <= m <= l :: WatchingAt(t, m)
  }

  lemma {:induction false} OwedOnStream(t: Timed, k: nat, l: nat, p: Bytes, c: Change)
    requires IsTimed(t) && k <= l < |t.run.states| && OneStream(t, k, l) && LeftAlone(t.run, k, l, p)
    ensures Owed(t, l, p, c) <==>
            Owed(t, k, p, c) && !SentBetween(t, k, l, p, c) && !WatchEndsBetween(t, k, l, p)
    decreases l
  {
    if k < l {
      AloneBetween(t.run, k, l - 1, l, p);
      OwedOnStream(t, k, l - 1, p, c);
      assert WatchingAt(t, l - 1) && WatchingAt(t, l);
      OwedStep(t, l - 1, p, c);
      assert SentBetween(t, k, l, p, c) <==> SentBetween(t, k, l - 1, p, c) || SentAt(t, l - 1, p, c);
      assert WatchEndsBetween(t, k, l, p) <==> WatchEndsBetween(t, k, l - 1, p) || WatchEndsAt(t, l - 1, p);
    }
  }

  /** What is sent reaches the registrant. */
  lemma SentIsDelivered(t: Timed, m: nat, p: Bytes, c: Change)
    requires IsTimed(t) && m < |t.run.events| && SentAt(t, m, p, c)
    ensures p in t.run.states[m].config.keys
    ensures Delivery(p, t.run.states[m].config.keys[p].ctx, c) in t.run.states[m + 1].delivered
  {
    InvAt(t.run, m);
    assert StepAt(t.run, m);
    var w, e := t.run.states[m], t.run.events[m];
    var n := Notify(w.config, w.state.stream, e.resp, e.removes);
    var i :| 0 <= i < |e.resp.changes| && e.resp.changes[i] == c;
    assert n.deliveries[i] == Delivery(p, w.config.keys[p].ctx, c);
  }

  // ---- A watch that etcd has ended

  /** On one stream, an ended watch stays ended, and stays the current watch of its prefix. */
  lemma {:induction false} StaysEnded(t: Timed, k: nat, l: nat, p: Bytes)
    requires IsTimed(t) && k < l < |t.run.states| && OneStream(t, k, l) && LeftAlone(t.run, k, l, p)
    requires WatchEndsAt(t, k, p)
    ensures WatchingAt(t, l) && p in t.run.states[l].state.stream.keys
    ensures t.run.states[l].state.stream.keys[p] in Ended(t, l)
    decreases l
  {
    AloneBetween(t.run, k, l - 1, l, p);
    InvAt(t.run, l - 1);
    assert StepAt(t.run, l - 1);
    assert WatchingAt(t, l - 1) && WatchingAt(t, l);
    if k < l - 1 {
      StaysEnded(t, k, l - 1, p);
    }
    WatchStays(t.run.states[l - 1], t.run.events[l - 1], p);
  }

  /**
   When etcd ends the watch of a prefix, the code goes on as if it had not: the
   prefix hears nothing more until the stream is lost or it is registered again.
   */
  lemma SilentAfterEnd(t: Timed, k: nat, l: nat, p: Bytes, d: Delivery)
    requires IsTimed(t) && k < l < |t.run.events| && OneStream(t, k, l) && LeftAlone(t.run, k, l, p)
    requires WatchEndsAt(t, k, p) && CalledAt(t.run, l, d)
    ensures d.prefix != p
  {
    StaysEnded(t, k, l, p);
    OnlyRegisteredCalled(t.run, l, d);
    AllowedTo(t, l);
    DeliveryInvAt(t.run, l);
    assert TimelyAt(t, l);
  }

  // ---- Across a reconnection

  /** Where a new stream, set up at etcd's revision `now`, takes `p` up again is at or before `c`. */
  predicate Resumable(config: Config, now: int, p: Bytes, c: Change)
    requires p in config.keys
  {
    if config.rev.Some? then config.rev.value < c.rev
    else if config.keys[p].rev == 0 then now < c.rev
    else config.keys[p].rev <= c.rev
  }

  lemma {:induction false} HeaderPositive(t: Timed, k: nat)
    requires IsTimed(t) && k < |t.run.states|
    ensures t.run.states[k].config.rev.Some? ==> t.run.states[k].config.rev.value >= 1
  {
    if k > 0 {
      HeaderPositive(t, k - 1);
      assert StepAt(t.run, k - 1) && TimelyAt(t, k - 1);
      RevStep(t.run.states[k - 1], t.run.events[k - 1]);
    }
  }

  /** Only a response moves the global revision. */
  lemma RevStep(w: World, e: Event)
    requires Enabled(w, e)
    ensures Next(w, e).config.rev ==
              if e.Receive? && !(e.resp.created && e.resp.canceled) && e.resp.header.Some? then e.resp.header
              else w.config.rev
  {
    match e
    case ReconnectStep(ok) => ApplyAllKeeps(w.config, w.queue[..DripCount(w.queue)]);
    case TakeIdle => if w.queue != [] { ApplyKeepsRev(w.config, w.queue[0]); }
    case TakeRequest(_) => if w.queue != [] { ApplyKeepsRev(w.config, w.queue[0]); }
    case Receive(resp, removes) =>
      if !(resp.created && resp.canceled) {
        NotifyRev(w.config, w.state.stream, resp, removes);
      }
    case _ =>
  }

  lemma ApplyKeepsRev(c: Config, r: Request)
    ensures Apply(c, r).rev == c.rev
  {
  }

  lemma {:induction false} ApplyAllAlone(c: Config, rs: seq<Request>, p: Bytes)
    requires p in c.keys && forall r | r in rs :: r.prefix != p
    ensures p in ApplyAll(c, rs).keys && ApplyAll(c, rs).keys[p] == c.keys[p]
  {
    if rs != [] {
      assert rs[|rs| - 1] in rs && forall r | r in rs[..|rs| - 1] :: r in rs;
      ApplyAllAlone(c, rs[..|rs| - 1], p);
    }
  }

  /** Connecting leaves the registration of a prefix that no dripped request concerns as it was. */
  lemma JoinKeeps(w: World, e: Event, p: Bytes)
    requires Inv(w) && Enabled(w, e) && !w.state.Watching? && p in w.config.keys
    requires forall i | |w.ops| <= i < |Next(w, e).ops| :: !Concerns(Next(w, e).ops[i], p)
    ensures p in Next(w, e).config.keys && Next(w, e).config.keys[p] == w.config.keys[p]
  {
    var v := Next(w, e);
    match e
    case ReconnectStep(ok) =>
      var rs := w.queue[..DripCount(w.queue)];
      forall r | r in rs ensures r.prefix != p {
        var i :| 0 <= i < |rs| && rs[i] == r;
        assert v.ops[|w.ops| + i] == Asked(r);
      }
      ApplyAllAlone(w.config, rs, p);
    case TakeIdle =>
      if w.queue != [] {
        assert v.ops[|w.ops|] == Asked(w.queue[0]);
      }
    case _ =>
  }

  lemma JoinConnects(w: World, e: Event)
    requires Enabled(w, e) && !w.state.Watching? && Next(w, e).state.Watching?
    ensures Next(w, e).state.stream == Connected(Next(w, e).config) && Next(w, e).pushed == map[]
  {
  }

  /** On a new stream, `c` is owed exactly when it comes after the place the stream resumes from. */
  lemma OwedOnJoinIff(t: Timed, j: nat, p: Bytes, c: Change)
    requires IsTimed(t) && j < |t.run.events| && !WatchingAt(t, j) && WatchingAt(t, j + 1)
    requires LeftAlone(t.run, j, j + 1, p)
    ensures Owed(t, j + 1, p, c) <==> Resumable(t.run.states[j].config, t.nows[j + 1], p, c)
  {
    InvAt(t.run, j);
    assert StepAt(t.run, j);
    var w, e := t.run.states[j], t.run.events[j];
    var v := Next(w, e);
    JoinKeeps(w, e, p);
    JoinConnects(w, e);
    RevStep(w, e);
    HeaderPositive(t, j);
    ConnectedOk(v.config);
    var id := v.state.stream.keys[p];
    assert v.state.stream.starts[id] == StartOf(v.config, p);
    assert Born(t, j) == map[] && Born(t, j + 1)[id] == t.nows[j + 1];
    assert PushedOn(v.pushed, id) == {};
  }

  /** What is owed long after a reconnection, by what was known before it. */
  lemma OwedAfterJoinIff(t: Timed, j: nat, l: nat, p: Bytes, c: Change)
    requires IsTimed(t) && j < l < |t.run.states| && !WatchingAt(t, j) && OneStream(t, j + 1, l)
    requires LeftAlone(t.run, j, l, p)
    ensures Owed(t, l, p, c) <==>
            && Resumable(t.run.states[j].config, t.nows[j + 1], p, c)
            && !SentBetween(t, j + 1, l, p, c) && !WatchEndsBetween(t, j + 1, l, p)
  {
    AloneBetween(t.run, j, j + 1, l, p);
    assert WatchingAt(t, j + 1);
    OwedOnJoinIff(t, j, p, c);
    OwedOnStream(t, j + 1, l, p, c);
  }

  // ---- From the loss of a stream to the next one

  /** Before any header, each watch was asked from the revision in the table. */
  ghost predicate AskedAsTold(w: World) {
    w.state.Watching? && w.config.rev.None? ==>
      forall p | p in w.config.keys && p in w.state.stream.keys ::
        && w.state.stream.keys[p] in w.state.stream.starts
        && w.state.stream.starts[w.state.stream.keys[p]] == w.config.keys[p].rev
  }

  lemma AskedStep(w: World, e: Event)
    requires Inv(w) && AskedAsTold(w) && Enabled(w, e) && Allowed(w, e)
    ensures AskedAsTold(Next(w, e))
  {
    match e
    case Receive(resp, removes) => AskedReceive(w, resp, removes);
    case TakeRequest(ok) => AskedTake(w, ok);
    case ConnectStep(ok) => if w.state.Connecting? { ConnectedOk(Next(w, e).config); }
    case ReconnectStep(ok) => ConnectedOk(Next(w, e).config);
    case _ =>
  }

  lemma ChangesHaveHeader(w: World, resp: Response)
    requires w.state.Watching? && Honest(w, resp)
    ensures resp.header.Some? || resp.changes == []
  {
    if resp.changes != [] {
      assert resp.changes[0] in resp.changes;
    }
  }

  lemma AskedReceive(w: World, resp: Response, removes: seq<bool>)
    requires Inv(w) && AskedAsTold(w) && w.state.Watching? && Honest(w, resp)
    ensures AskedAsTold(ApplyReceive(w, resp, removes))
  {
    if !(resp.created && resp.canceled) {
      NotifyRev(w.config, w.state.stream, resp, removes);
      ChangesHaveHeader(w, resp);
    }
  }

  lemma AskedTake(w: World, ok: bool)
    requires Inv(w) && AskedAsTold(w) && w.state.Watching? && Ready(w)
    ensures AskedAsTold(ApplyTake(w, ok))
  {
    if w.queue != [] {
      TakeKeepsStep(w.config, w.state.stream, w.queue[0]);
    }
  }

  lemma {:induction false} AskedAt(t: Timed, k: nat)
    requires IsTimed(t) && k < |t.run.states|
    ensures AskedAsTold(t.run.states[k])
  {
    if k > 0 {
      AskedAt(t, k - 1);
      InvAt(t.run, k - 1);
      assert StepAt(t.run, k - 1);
      assert Allowed(t.run.states[k - 1], t.run.events[k - 1]);
      AskedStep(t.run.states[k - 1], t.run.events[k - 1]);
    }
  }

  /** No stream is up at any state from `k + 1` to `j`. */
  ghost predicate Down(t: Timed, k: nat, j: nat)
    requires j < |t.run.states|
  {
    forall m: nat | k < m <= j :: !WatchingAt(t, m)
  }

  /** A step that gives up a stream changes neither the revision nor the registrations it does not concern. */
  lemma LeaveKeeps(w: World, e: Event, p: Bytes)
    requires Enabled(w, e) && w.state.Watching? && !Next(w, e).state.Watching? && p in w.config.keys
    requires forall i | |w.ops| <= i < |Next(w, e).ops| :: !Concerns(Next(w, e).ops[i], p)
    ensures p in Next(w, e).config.keys && Next(w, e).config.keys[p] == w.config.keys[p]
    ensures Next(w, e).config.rev == w.config.rev
  {
    if e.TakeRequest? && w.queue != [] {
      assert Next(w, e).ops[|w.ops|] == Asked(w.queue[0]);
    }
  }

  lemma {:induction false} DownKeeps(t: Timed, k: nat, j: nat, p: Bytes)
    requires IsTimed(t) && k < j < |t.run.states| && WatchingAt(t, k) && Down(t, k, j) && LeftAlone(t.run, k, j, p)
    ensures p in t.run.states[j].config.keys && t.run.states[j].config.keys[p] == t.run.states[k].config.keys[p]
    ensures t.run.states[j].config.rev == t.run.states[k].config.rev
    decreases j
  {
    AloneBetween(t.run, k, j - 1, j, p);
    InvAt(t.run, j - 1);
    assert StepAt(t.run, j - 1);
    assert !WatchingAt(t, j);
    var w, e := t.run.states[j - 1], t.run.events[j - 1];
    if j == k + 1 {
      LeaveKeeps(w, e, p);
    } else {
      DownKeeps(t, k, j - 1, p);
      assert !WatchingAt(t, j - 1);
      JoinKeeps(w, e, p);
      RevStep(w, e);
    }
  }

  /**
   A change still owed when its stream is lost is owed by the next stream,
   after any number of failed attempts, exactly when it is newer than the last
   header, or, before any header, when its watch was asked from a revision or
   the change comes after the new stream.
   */
  lemma SurvivesLossIff(t: Timed, k: nat, j: nat, p: Bytes, c: Change)
    requires IsTimed(t) && k < j < |t.run.events| && Owed(t, k, p, c) && Down(t, k, j) && WatchingAt(t, j + 1)
    requires LeftAlone(t.run, k, j + 1, p)
    ensures Owed(t, j + 1, p, c) <==>
            var w := t.run.states[k];
            if w.config.rev.Some? then w.config.rev.value < c.rev
            else w.config.keys[p].rev != 0 || t.nows[j + 1] < c.rev
  {
    AloneBetween(t.run, k, j, j + 1, p);
    DownKeeps(t, k, j, p);
    assert !WatchingAt(t, j);
    OwedOnJoinIff(t, j, p, c);
    AskedAt(t, k);
  }

  // ---- Lost for good

  /** The registrant `x` can no longer be sent `c`: it is too old for every watch it has or will get. */
  ghost predicate TooLate(w: World, x: nat, c: Change) {
    && x < |w.sent| - |w.queue|
    && w.config.rev.Some? && c.rev <= w.config.rev.value
    && (w.state.Watching? ==>
          forall p | p in w.config.keys && p in w.state.stream.keys && w.config.keys[p].ctx == x ::
            w.state.stream.keys[p] in w.state.stream.starts && c.rev < w.state.stream.starts[w.state.stream.keys[p]])
  }

  lemma TooLateTake(w: World, ok: bool, x: nat, c: Change)
    requires DeliveryInv(w) && w.state.Watching? && Ready(w) && Allowed(w, TakeRequest(ok)) && TooLate(w, x, c)
    ensures TooLate(ApplyTake(w, ok), x, c)
  {
    if w.queue != [] {
      TakeKeepsStep(w.config, w.state.stream, w.queue[0]);
      if w.queue[0].Register? { QueueContexts(w, 0); }
    }
  }

  lemma TooLateJoin(w: World, e: Event, x: nat, c: Change)
    requires DeliveryInv(w) && Enabled(w, e) && (e.ConnectStep? || e.ReconnectStep?) && TooLate(w, x, c)
    ensures TooLate(Next(w, e), x, c)
  {
    RevStep(w, e);
    ConnectedOk(Next(w, e).config);
  }

  lemma TooLateReceive(w: World, resp: Response, removes: seq<bool>, x: nat, c: Change)
    requires DeliveryInv(w) && w.state.Watching? && Honest(w, resp) && TooLate(w, x, c)
    ensures TooLate(ApplyReceive(w, resp, removes), x, c)
    ensures forall d | d in ApplyReceive(w, resp, removes).delivered && d.ctx == x && d.change == c ::
              d in w.delivered
  {
    if !(resp.created && resp.canceled) {
      var n := Notify(w.config, w.state.stream, resp, removes);
      NotifyRev(w.config, w.state.stream, resp, removes);
      forall p | p in n.config.keys && p in n.stream.keys
        ensures p in w.config.keys && p in w.state.stream.keys && n.config.keys[p].ctx == w.config.keys[p].ctx
        ensures n.stream.keys[p] == w.state.stream.keys[p] && n.stream.starts == w.state.stream.starts
      {
        NotifyKeepsIds(w.config, w.state.stream, resp, removes, p);
      }
      forall d | d in n.deliveries && d.ctx == x ensures d.change != c {
        NotifyDelivery(w.config, w.state.stream, resp, removes, d);
        assert w.state.stream.keys[d.prefix] == resp.id;
      }
    }
  }

  lemma TooLateStep(w: World, e: Event, x: nat, c: Change)
    requires DeliveryInv(w) && Enabled(w, e) && Allowed(w, e) && TooLate(w, x, c)
    ensures TooLate(Next(w, e), x, c)
    ensures forall d | d in Next(w, e).delivered && d.ctx == x && d.change == c :: d in w.delivered
  {
    match e
    case TakeRequest(ok) => TooLateTake(w, ok, x, c);
    case ConnectStep(ok) => TooLateJoin(w, e, x, c);
    case ReconnectStep(ok) => TooLateJoin(w, e, x, c);
    case Receive(resp, removes) => TooLateReceive(w, resp, removes, x, c);
    case TakeIdle => RevStep(w, e);
    case _ =>
  }

  /**
   Once the stream is down with a header at or past the change, the registrant
   never gets it, on any continuation of the run, unless it had it already.
   */
  lemma {:induction false} LostForGood(t: Timed, k: nat, l: nat, p: Bytes, c: Change)
    requires IsTimed(t) && k <= l < |t.run.states| && !WatchingAt(t, k) && p in t.run.states[k].config.keys
    requires t.run.states[k].config.rev.Some? && c.rev <= t.run.states[k].config.rev.value
    ensures TooLate(t.run.states[l], t.run.states[k].config.keys[p].ctx, c)
    ensures forall d | d in t.run.states[l].delivered && d.ctx == t.run.states[k].config.keys[p].ctx && d.change == c ::
              d in t.run.states[k].delivered
    decreases l
  {
    if l == k {
      AllowedTo(t, k);
      DeliveryInvAt(t.run, k);
    } else {
      LostForGood(t, k, l - 1, p, c);
      AllowedTo(t, l - 1);
      DeliveryInvAt(t.run, l - 1);
      assert StepAt(t.run, l - 1) && Allowed(t.run.states[l - 1], t.run.events[l - 1]);
      TooLateStep(t.run.states[l - 1], t.run.events[l - 1], t.run.states[k].config.keys[p].ctx, c);
    }
  }

  lemma AllowedTo(t: Timed, k: nat)
    requires IsTimed(t) && k <= |t.run.events|
    ensures AllowedUpTo(t.run, k)
  {
    forall m: nat | m < k ensures Allowed(t.run.states[m], t.run.events[m]) {
    }
  }

  // ---- A change that is lost

  const ONE: Bytes := [1]
  const TWO: Bytes := [2]
  const NEW := Change(TWO, 6, [])
  const OWING := Change(ONE, 5, [])

  ghost function Last(t: Timed): World
    requires t.run.states != []
  {
    t.run.states[|t.run.states| - 1]
  }

  /** etcd stays at revision 6 throughout, and ends no watch. */
  ghost predicate Plain(t: Timed) {
    && IsTimed(t) && t.nows == seq(|t.nows|, _ => 6)
    && forall m: nat | m < |t.run.events| :: !(t.run.events[m].Receive? && t.run.events[m].resp.canceled)
  }

  lemma {:induction false} NoneEnded(t: Timed, k: nat)
    requires k < |t.run.states|
    requires forall m: nat | m < |t.run.events| :: !(t.run.events[m].Receive? && t.run.events[m].resp.canceled)
    ensures Ended(t, k) == {}
  {
    if k > 0 {
      NoneEnded(t, k - 1);
    }
  }

  /** One more event. */
  lemma GoOn(t: Timed, e: Event) returns (t': Timed)
    requires Plain(t) && Enabled(Last(t), e) && Allowed(Last(t), e)
    requires e.Receive? ==> !e.resp.canceled && (e.resp.header.Some? ==> 1 <= e.resp.header.value <= 6)
    ensures Plain(t') && Last(t') == Next(Last(t), e)
    ensures t'.run.events == t.run.events + [e] && t.run.states <= t'.run.states
  {
    var run := Go(t.run, e);
    t' := Timed(run, t.nows + [6]);
    forall m: nat | m < |run.events| ensures Allowed(run.states[m], run.events[m]) && TimelyAt(t', m) {
      NoneEnded(t', m);
      if m < |t.run.events| {
        assert run.states[m] == t.run.states[m] && run.events[m] == t.run.events[m];
        assert Allowed(t.run.states[m], t.run.events[m]) && TimelyAt(t, m);
      }
    }
  }

  lemma StartedRun() returns (t: Timed)
    ensures Plain(t)
    ensures Last(t).state.Watching? && Last(t).queue == [Register(TWO, Some(1), 1)] && Last(t).open
    ensures Last(t).config == Config(map[ONE := Registration(1, 0)], None, false, false, false)
    ensures Last(t).state.stream == Connected(Last(t).config) && Last(t).pushed == map[] && Last(t).delivered == []
  {
    t := Timed(Run([START], []), [6]);
    t := GoOn(t, Send(Register(ONE, Some(1), 0)));
    t := GoOn(t, Send(Register(TWO, Some(1), 1)));
    t := GoOn(t, TakeIdle);
    t := GoOn(t, ConnectStep(true));
  }

  /** Both prefixes are watched from revision 1, and nothing has been sent. */
  ghost predicate BothWatched(w: World) {
    && w.state.Watching? && w.queue == [] && w.open && w.delivered == [] && w.pushed == map[]
    && w.config == Config(map[ONE := Registration(1, 0), TWO := Registration(1, 1)], None, false, false, false)
    && var s := w.state.stream;
       && ONE in s.keys && TWO in s.keys && s.keys[ONE] != s.keys[TWO]
       && s.keys[ONE] in s.starts && s.starts[s.keys[ONE]] == 1
       && s.keys[TWO] in s.starts && s.starts[s.keys[TWO]] == 1
       && s.keys[TWO] in s.ids && s.ids[s.keys[TWO]] == TWO
  }

  lemma BothRun() returns (t: Timed)
    ensures Plain(t) && BothWatched(Last(t))
  {
    t := StartedRun();
    var w := Last(t);
    ConnectedOk(w.config);
    t := GoOn(t, TakeRequest(true));
  }

  /** Revision 6 has been received on the watch of one prefix, and revision 5 is owed to the other. */
  ghost predicate Owing(w: World) {
    && w.state.Watching? && w.queue == [] && w.open && !w.config.closed && w.config.rev == Some(6)
    && ONE in w.config.keys && w.config.keys[ONE].ctx == 0 && ONE in w.state.stream.keys
    && w.delivered == [Delivery(TWO, 1, NEW)]
    && var id := w.state.stream.keys[ONE];
       id in w.state.stream.starts && w.state.stream.starts[id] == 1 && OWING !in PushedOn(w.pushed, id)
  }

  lemma OwingRun() returns (t: Timed)
    ensures Plain(t) && Owing(Last(t))
  {
    t := BothRun();
    var w, id := Last(t), Last(t).state.stream.keys[TWO];
    PingAllowed(w, id, NEW);
    PingDelivers(w, TWO, id, NEW);
    t := GoOn(t, Receive(Ping(id, NEW), [false]));
  }

  lemma LosingRun() returns (t: Timed, k: nat)
    ensures Plain(t) && k + 2 == |t.run.events|
    ensures Owing(t.run.states[k]) && t.run.states[k + 1] == t.run.states[k].(state := Reconnecting(0))
    ensures WatchingAt(t, k + 2)
    ensures t.run.states[k + 2].ops == t.run.states[k].ops && t.run.states[k + 2].delivered == t.run.states[k].delivered
  {
    t := OwingRun();
    k := |t.run.events|;
    var w := Last(t);
    t := GoOn(t, StreamFails);
    assert t.run.states[k] == w;
    var v := Last(t);
    assert DripCount(v.queue) == 0 && v.queue[..0] == [] && ApplyAll(v.config, []) == v.config;
    t := GoOn(t, ReconnectStep(true));
    assert t.run.states[k + 1] == v;
  }

  /**
   Revision 6 arrives for one prefix while revision 5 is owed to the other.
   The stream is lost, the next one starts at 7, and revision 5 is never sent.
   */
  lemma DeliveryLosesChange() returns (t: Timed, k: nat)
    ensures IsTimed(t) && k + 2 == |t.run.events| && LeftAlone(t.run, k, k + 2, ONE)
    ensures Owed(t, k, ONE, OWING) && OWING.rev <= t.nows[k]
    ensures WatchingAt(t, k + 2) && !Owed(t, k + 2, ONE, OWING)
    ensures TooLate(Last(t), t.run.states[k].config.keys[ONE].ctx, OWING)
    ensures forall d | d in Last(t).delivered :: d.change != OWING
  {
    t, k := LosingRun();
    NoneEnded(t, k);
    SurvivesLossIff(t, k, k + 1, ONE, OWING);
    LostForGood(t, k + 1, k + 2, ONE, OWING);
  }
}
