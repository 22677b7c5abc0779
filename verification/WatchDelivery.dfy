/** Who is called back, how often, and until when. */
module WatchDelivery {
  import opened Wrappers
  import opened EtcdStore
  import opened WatchSpec
  import opened WatchRuns

  // ---- At most once

  /**
   What etcd promises of a response: its header revision does not go back and
   covers its changes, a watch sends no change twice, and nothing older than
   the revision it was asked to start from.
   */
  ghost predicate Honest(w: World, resp: Response)
    requires w.state.Watching?
  {
    && (resp.header.Some? && w.config.rev.Some? ==> w.config.rev.value <= resp.header.value)
    && (forall i, j | 0 <= i < j < |resp.changes| :: resp.changes[i] != resp.changes[j])
    && (forall c | c in resp.changes ::
          && resp.header.Some? && 1 <= c.rev <= resp.header.value
          && c !in PushedOn(w.pushed, resp.id)
          && (resp.id in w.state.stream.starts ==> c.rev >= w.state.stream.starts[resp.id]))
  }

  /** Responses are honest, and no prefix is registered again on a stream that already watches it. */
  ghost predicate Allowed(w: World, e: Event) {
    && (e.Receive? && w.state.Watching? ==> Honest(w, e.resp))
    && (e.TakeRequest? && w.queue != [] && w.queue[0].Register? ==> w.queue[0].prefix !in w.config.keys)
  }

  ghost predicate AllowedUpTo(r: Run, k: nat)
    requires IsRun(r) && k <= |r.events|
  {
    forall m: nat | m < k :: Allowed(r.states[m], r.events[m])
  }

  predicate NoRepeat(ds: seq<Delivery>) {
    forall i, j | 0 <= i < j < |ds| :: ds[i].ctx != ds[j].ctx || ds[i].change != ds[j].change
  }

  /** Contexts in the table are below `n` and differ from prefix to prefix. */
  ghost predicate ContextsBelow(c: Config, n: int) {
    && (forall p | p in c.keys :: c.keys[p].ctx < n)
    && (forall p, q | p in c.keys && q in c.keys && p != q :: c.keys[p].ctx != c.keys[q].ctx)
  }

  /** Everything delivered is older than the last header and belongs to a registration already taken. */
  ghost predicate DeliveredBelow(ds: seq<Delivery>, rev: Option<int>, n: int) {
    forall d | d in ds :: rev.Some? && d.change.rev <= rev.value && d.ctx < n
  }

  /** What a registrant has had is known to its current watch, or too old for it to send. */
  ghost predicate Accounted(c: Config, stream: Stream, pushed: map<int, set<Change>>, ds: seq<Delivery>) {
    forall p, d | p in stream.keys && d in ds && p in c.keys && d.ctx == c.keys[p].ctx ::
      d.change in PushedOn(pushed, stream.keys[p])
      || (stream.keys[p] in stream.starts && d.change.rev < stream.starts[stream.keys[p]])
  }

  /** No change etcd has sent is newer than the last header. */
  ghost predicate PushedBelow(pushed: map<int, set<Change>>, rev: Option<int>) {
    forall id, c | id in pushed && c in pushed[id] :: rev.Some? && c.rev <= rev.value
  }

  ghost predicate DeliveryInv(w: World) {
    var taken := |w.sent| - |w.queue|;
    && Inv(w)
    && (forall i | 0 <= i < |w.sent| && w.sent[i].Register? :: w.sent[i].ctx == i)
    && ContextsBelow(w.config, taken)
    && DeliveredBelow(w.delivered, w.config.rev, taken)
    && NoRepeat(w.delivered)
    && PushedBelow(w.pushed, w.config.rev)
    && (w.state.Watching? ==>
          OneIdEach(w.state.stream) && Accounted(w.config, w.state.stream, w.pushed, w.delivered))
  }

  lemma ApplyContexts(c: Config, r: Request, n: int)
    requires ContextsBelow(c, n) && (r.Register? ==> r.ctx == n)
    ensures ContextsBelow(Apply(c, r), n + 1)
  {
  }

  lemma {:induction false} ApplyAllContexts(c: Config, queue: seq<Request>, m: nat, n: int)
    requires ContextsBelow(c, n) && m <= |queue|
    requires forall i | 0 <= i < m && queue[i].Register? :: queue[i].ctx == n + i
    ensures ContextsBelow(ApplyAll(c, queue[..m]), n + m)
  {
    if m > 0 {
      ApplyAllContexts(c, queue, m - 1, n);
      ApplyLast(c, queue, m);
      ApplyContexts(ApplyAll(c, queue[..m - 1]), queue[m - 1], n + m - 1);
    }
  }

  /** The requests still queued carry the contexts that come next. */
  lemma QueueContexts(w: World, i: nat)
    requires Inv(w) && i < |w.queue| && w.queue[i].Register?
    requires forall j | 0 <= j < |w.sent| && w.sent[j].Register? :: w.sent[j].ctx == j
    ensures w.queue[i].ctx == |w.sent| - |w.queue| + i
  {
    assert w.sent[|Requests(w.ops)| + i] == w.queue[i];
  }

  lemma TakeDelivery(w: World, ok: bool)
    requires DeliveryInv(w) && w.state.Watching? && Ready(w) && Allowed(w, TakeRequest(ok))
    ensures DeliveryInv(ApplyTake(w, ok))
  {
    InvTake(w, ok);
    if w.queue != [] {
      var r, stream := w.queue[0], w.state.stream;
      if r.Register? {
        QueueContexts(w, 0);
        var start := if r.rev.Some? then r.rev.value else 0;
        AddWatchKeepsOneIdIff(stream, r.prefix, start);
        AddAccounted(w.config, stream, w.pushed, w.delivered, r, start);
      } else {
        DelWatchOk(stream, r.prefix);
      }
      ApplyContexts(w.config, r, |w.sent| - |w.queue|);
    }
  }

  lemma AddAccounted(
    c: Config, stream: Stream, pushed: map<int, set<Change>>, ds: seq<Delivery>, r: Request, start: int)
    requires StreamOk(stream) && Accounted(c, stream, pushed, ds)
    requires r.Register? && forall d | d in ds :: d.ctx != r.ctx
    ensures Accounted(Apply(c, r), AddWatch(stream, r.prefix, start), pushed, ds)
  {
  }

  lemma IdleDelivery(w: World)
    requires DeliveryInv(w) && w.state.Idle? && Ready(w)
    ensures DeliveryInv(ApplyIdle(w))
  {
    InvIdle(w);
    if w.queue != [] {
      if w.queue[0].Register? { QueueContexts(w, 0); }
      ApplyContexts(w.config, w.queue[0], |w.sent| - |w.queue|);
    }
  }

  /** A new stream resumes after everything delivered so far. */
  lemma ConnectDelivery(w: World, ok: bool)
    requires DeliveryInv(w)
    ensures DeliveryInv(ApplyConnect(w, ok))
  {
    InvConnect(w, ok);
    ConnectedOk(w.config.(requestedProgress := false));
  }

  lemma ReconnectDelivery(w: World, ok: bool)
    requires DeliveryInv(w) && w.state.Reconnecting?
    ensures DeliveryInv(ApplyReconnect(w, ok))
  {
    InvReconnect(w, ok);
    var w1 := Dripped(w);
    DripDelivery(w, w1);
    ConnectDelivery(w1, ok);
  }

  lemma DripDelivery(w: World, w1: World)
    requires DeliveryInv(w) && w.state.Reconnecting?
    requires w1 == Dripped(w)
    ensures DeliveryInv(w1)
  {
    var n := DripCount(w.queue);
    InvReconnectDrip(w, w1);
    ApplyAllKeeps(w.config, w.queue[..n]);
    forall i | 0 <= i < n && w.queue[i].Register? ensures w.queue[i].ctx == |w.sent| - |w.queue| + i {
      QueueContexts(w, i);
    }
    ApplyAllContexts(w.config, w.queue, n, |w.sent| - |w.queue|);
  }

  lemma InvReconnectDrip(w: World, w1: World)
    requires Inv(w) && w.state.Reconnecting?
    requires w1 == Dripped(w)
    ensures Inv(w1)
  {
    var n := DripCount(w.queue);
    AskMany(w.config, w.ops, w.queue, w.sent, n);
    ApplyAllKeeps(w.config, w.queue[..n]);
    assert Drip(w.config, w.queue, w.open).keys == ApplyAll(w.config, w.queue[..n]).keys;
  }

  /** What an honest response brings is new to the registrant it reaches. */
  lemma ReceiveIsNew(w: World, resp: Response, removes: seq<bool>)
    requires DeliveryInv(w) && w.state.Watching? && Honest(w, resp)
    ensures NoRepeat(w.delivered + Notify(w.config, w.state.stream, resp, removes).deliveries)
  {
    var ds := Notify(w.config, w.state.stream, resp, removes).deliveries;
    forall i, j | 0 <= i < j < |w.delivered + ds|
      ensures var all := w.delivered + ds; all[i].ctx != all[j].ctx || all[i].change != all[j].change
    {
      if i >= |w.delivered| {
        assert ds[i - |w.delivered|].change == resp.changes[i - |w.delivered|];
        assert ds[j - |w.delivered|].change == resp.changes[j - |w.delivered|];
      } else if j >= |w.delivered| {
        var d := ds[j - |w.delivered|];
        assert w.delivered[i] in w.delivered;
        NotifyDelivery(w.config, w.state.stream, resp, removes, d);
        assert w.state.stream.keys[d.prefix] == resp.id;
      }
    }
  }

  lemma NotifyContexts(c: Config, stream: Stream, resp: Response, removes: seq<bool>, n: int)
    requires StreamOk(stream) && OneIdEach(stream) && ContextsBelow(c, n)
    ensures ContextsBelow(Notify(c, stream, resp, removes).config, n)
    ensures OneIdEach(Notify(c, stream, resp, removes).stream)
  {
    if resp.id in stream.ids {
      var w1 := if resp.created then stream.(waiting := stream.waiting - {resp.id}) else stream;
      DelWatchOk(w1, stream.ids[resp.id]);
    }
  }

  /** A callback of a response: one of its changes, for the prefix of its watch, to who is registered there. */
  lemma NotifyDelivery(c: Config, stream: Stream, resp: Response, removes: seq<bool>, d: Delivery)
    requires d in Notify(c, stream, resp, removes).deliveries
    ensures resp.id in stream.ids && stream.ids[resp.id] == d.prefix
    ensures d.change in resp.changes && d.prefix in c.keys && c.keys[d.prefix].ctx == d.ctx
  {
    var ds := Notify(c, stream, resp, removes).deliveries;
    var i :| 0 <= i < |ds| && ds[i] == d;
    assert d.change == resp.changes[i];
  }

  lemma NotifyRev(c: Config, stream: Stream, resp: Response, removes: seq<bool>)
    ensures Notify(c, stream, resp, removes).config.rev == if resp.header.Some? then resp.header else c.rev
  {
  }

  lemma NotifyDelivers(w: World, resp: Response, removes: seq<bool>)
    requires DeliveryInv(w) && w.state.Watching? && Honest(w, resp)
    ensures var n := Notify(w.config, w.state.stream, resp, removes);
            DeliveredBelow(w.delivered + n.deliveries, n.config.rev, |w.sent| - |w.queue|)
  {
    var n := Notify(w.config, w.state.stream, resp, removes);
    NotifyRev(w.config, w.state.stream, resp, removes);
    forall d | d in w.delivered + n.deliveries
      ensures n.config.rev.Some? && d.change.rev <= n.config.rev.value && d.ctx < |w.sent| - |w.queue|
    {
      if d !in w.delivered {
        NotifyDelivery(w.config, w.state.stream, resp, removes, d);
      }
    }
  }

  lemma PushedStep(pushed: map<int, set<Change>>, rev: Option<int>, id: int, cs: set<Change>, rev': Option<int>)
    requires PushedBelow(pushed, rev)
    requires rev.Some? ==> rev'.Some? && rev.value <= rev'.value
    requires forall c | c in cs :: rev'.Some? && c.rev <= rev'.value
    ensures PushedBelow(pushed[id := PushedOn(pushed, id) + cs], rev')
  {
    var pushed' := pushed[id := PushedOn(pushed, id) + cs];
    forall i: int, c: Change | i in pushed' && c in pushed'[i] ensures rev'.Some? && c.rev <= rev'.value {
      assert c in PushedOn(pushed, i) || c in cs;
    }
  }

  lemma NotifyAccounted(w: World, resp: Response, removes: seq<bool>)
    requires DeliveryInv(w) && w.state.Watching? && Honest(w, resp)
    requires !(resp.created && resp.canceled)
    ensures var v := ApplyReceive(w, resp, removes);
            Accounted(v.config, v.state.stream, v.pushed, v.delivered)
  {
    var v := ApplyReceive(w, resp, removes);
    var n := Notify(w.config, w.state.stream, resp, removes);
    forall p, d | p in n.stream.keys && d in v.delivered && p in n.config.keys && d.ctx == n.config.keys[p].ctx
      ensures d.change in PushedOn(v.pushed, n.stream.keys[p])
              || (n.stream.keys[p] in n.stream.starts && d.change.rev < n.stream.starts[n.stream.keys[p]])
    {
      NotifyKeepsIds(w.config, w.state.stream, resp, removes, p);
      if d in n.deliveries {
        NotifyDelivery(w.config, w.state.stream, resp, removes, d);
        assert p == d.prefix;
      } else {
        assert d in w.delivered;
      }
    }
  }

  lemma NotifyKeepsIds(c: Config, stream: Stream, resp: Response, removes: seq<bool>, p: Bytes)
    requires StreamOk(stream) && stream.keys.Keys == c.keys.Keys
    requires var n := Notify(c, stream, resp, removes); p in n.stream.keys && p in n.config.keys
    ensures var n := Notify(c, stream, resp, removes);
            && p in stream.keys && p in c.keys
            && n.stream.keys[p] == stream.keys[p] && n.stream.starts == stream.starts
            && n.config.keys[p].ctx == c.keys[p].ctx
  {
  }

  lemma ReceiveDelivery(w: World, resp: Response, removes: seq<bool>)
    requires DeliveryInv(w) && w.state.Watching? && Honest(w, resp)
    ensures DeliveryInv(ApplyReceive(w, resp, removes))
  {
    InvReceive(w, resp, removes);
    if !(resp.created && resp.canceled) {
      ReceiveIsNew(w, resp, removes);
      NotifyContexts(w.config, w.state.stream, resp, removes, |w.sent| - |w.queue|);
      NotifyDelivers(w, resp, removes);
      NotifyRev(w.config, w.state.stream, resp, removes);
      PushedStep(w.pushed, w.config.rev, resp.id, set c | c in resp.changes,
                 if resp.header.Some? then resp.header else w.config.rev);
      NotifyAccounted(w, resp, removes);
    }
  }

  lemma DeliveryStep(w: World, e: Event)
    requires DeliveryInv(w) && Enabled(w, e) && Allowed(w, e)
    ensures DeliveryInv(Next(w, e))
  {
    match e
    case TakeIdle => IdleDelivery(w);
    case TakeRequest(ok) => TakeDelivery(w, ok);
    case ConnectStep(ok) => ConnectDelivery(w, ok);
    case ReconnectStep(ok) => ReconnectDelivery(w, ok);
    case Receive(resp, removes) => ReceiveDelivery(w, resp, removes);
    case _ => InvStep(w, e);
  }

  lemma {:induction false} DeliveryInvAt(r: Run, k: nat)
    requires IsRun(r) && k < |r.states| && AllowedUpTo(r, k)
    ensures DeliveryInv(r.states[k])
  {
    if k > 0 {
      DeliveryInvAt(r, k - 1);
      assert StepAt(r, k - 1);
      assert Allowed(r.states[k - 1], r.events[k - 1]);
      DeliveryStep(r.states[k - 1], r.events[k - 1]);
    }
  }

  /** Across any number of reconnections, no registration is called back twice with the same change. */
  lemma AtMostOnce(r: Run, k: nat)
    requires IsRun(r) && k < |r.states| && AllowedUpTo(r, k)
    ensures NoRepeat(r.states[k].delivered)
  {
    DeliveryInvAt(r, k);
  }

  // ---- Exactly when a registration on a live stream is safe

  /** `r'` goes on from `r` by taking the next request, and is allowed from then on. */
  ghost predicate GoesOn(r: Run, r': Run)
    requires IsRun(r)
  {
    && IsRun(r') && |r.events| < |r'.events|
    && r.states <= r'.states && r.events <= r'.events
    && r'.events[|r.events|] == TakeRequest(true)
    && forall m: nat | |r.events| < m < |r'.events| :: Allowed(r'.states[m], r'.events[m])
  }

  ghost function Last(r: Run): World
    requires r.states != []
  {
    r.states[|r.states| - 1]
  }

  /**
   With a stream up and a registration next in the queue, at-most-once delivery
   is safe whatever follows exactly when the prefix is not registered already.
   */
  lemma AtMostOnceIff(r: Run)
    requires IsRun(r) && AllowedUpTo(r, |r.events|) && Last(r).state.Watching?
    requires Last(r).queue != [] && Last(r).queue[0].Register?
    ensures (forall r' | GoesOn(r, r') :: NoRepeat(Last(r').delivered)) <==>
            Last(r).queue[0].prefix !in Last(r).config.keys
  {
    if Last(r).queue[0].prefix !in Last(r).config.keys {
      forall r' | GoesOn(r, r') ensures NoRepeat(Last(r').delivered) {
        StillAllowed(r, r');
        AtMostOnce(r', |r'.events|);
      }
    } else {
      var r' := RepeatingRun(r);
      assert GoesOn(r, r') && !NoRepeat(Last(r').delivered);
    }
  }

  lemma StillAllowed(r: Run, r': Run)
    requires IsRun(r) && AllowedUpTo(r, |r.events|) && GoesOn(r, r')
    requires Last(r).queue != [] && Last(r).queue[0].prefix !in Last(r).config.keys
    ensures AllowedUpTo(r', |r'.events|)
  {
    forall m: nat | m < |r'.events| ensures Allowed(r'.states[m], r'.events[m]) {
      if m < |r.events| {
        assert r'.states[m] == r.states[m] && r'.events[m] == r.events[m];
        assert Allowed(r.states[m], r.events[m]);
      } else if m == |r.events| {
        assert r'.states[m] == Last(r);
      }
    }
  }

  lemma Go(r: Run, e: Event) returns (r': Run)
    requires IsRun(r) && Enabled(Last(r), e)
    ensures IsRun(r') && Last(r') == Next(Last(r), e)
    ensures r'.events == r.events + [e] && r.states <= r'.states
    ensures r'.states[|r.events|] == Last(r)
  {
    r' := Run(r.states + [Next(Last(r), e)], r.events + [e]);
    forall k: nat | k < |r'.events| ensures StepAt(r', k) {
      if k < |r.events| {
        assert StepAt(r, k);
      }
    }
  }

  function Max(a: int, b: int): int {
    if a < b then b else a
  }

  /** Two ids of the stream are on the same registered prefix, and etcd has sent nothing newer than the header. */
  ghost predicate Doubled(w: World, p: Bytes, a: int, b: int) {
    && w.state.Watching? && a != b && p in w.config.keys
    && a in w.state.stream.ids && b in w.state.stream.ids
    && w.state.stream.ids[a] == p && w.state.stream.ids[b] == p
    && a in w.state.stream.starts && b in w.state.stream.starts
    && PushedBelow(w.pushed, w.config.rev)
  }

  lemma RegisterAgainDoubles(w: World)
    requires DeliveryInv(w) && w.state.Watching? && w.queue != [] && w.queue[0].Register?
    requires w.queue[0].prefix in w.config.keys
    ensures var p := w.queue[0].prefix;
            && p in w.state.stream.keys
            && Doubled(Next(w, TakeRequest(true)), p, w.state.stream.keys[p], w.state.stream.next)
  {
  }

  function Ping(id: int, c: Change): Response {
    Response(id, false, false, Some(c.rev), [c])
  }

  /** A change newer than anything so far, received on one id, reaches the registrant of its prefix. */
  lemma PingDelivers(w: World, p: Bytes, id: int, c: Change)
    requires w.state.Watching? && p in w.config.keys && id in w.state.stream.ids && w.state.stream.ids[id] == p
    ensures var v := Next(w, Receive(Ping(id, c), [false]));
            && v.delivered == w.delivered + [Delivery(p, w.config.keys[p].ctx, c)]
            && v.state == w.state && v.config.rev == Some(c.rev)
            && p in v.config.keys && v.config.keys[p].ctx == w.config.keys[p].ctx
            && v.pushed == w.pushed[id := PushedOn(w.pushed, id) + {c}]
  {
    var n := Notify(w.config, w.state.stream, Ping(id, c), [false]);
    assert n.deliveries == [Delivery(p, w.config.keys[p].ctx, c)];
    assert (set x | x in [c]) == {c};
  }

  /** Such a change is honest on any id that has not sent it. */
  lemma PingAllowed(w: World, id: int, c: Change)
    requires w.state.Watching? && c !in PushedOn(w.pushed, id) && c.rev >= 1
    requires w.config.rev.Some? ==> w.config.rev.value <= c.rev
    requires id in w.state.stream.starts ==> w.state.stream.starts[id] <= c.rev
    ensures Allowed(w, Receive(Ping(id, c), [false]))
  {
  }

  /** A change newer than everything the stream has seen, which both ids may send. */
  lemma FreshChange(w: World, p: Bytes, a: int, b: int) returns (c: Change)
    requires Doubled(w, p, a, b)
    ensures c.rev >= 1 && c !in PushedOn(w.pushed, a) && c !in PushedOn(w.pushed, b)
    ensures w.config.rev.Some? ==> w.config.rev.value <= c.rev
    ensures w.state.stream.starts[a] <= c.rev && w.state.stream.starts[b] <= c.rev
  {
    var starts := w.state.stream.starts;
    var newer := if w.config.rev.Some? then w.config.rev.value + 1 else 1;
    c := Change(p, Max(Max(1, newer), Max(starts[a], starts[b])), []);
  }

  lemma RepeatingRun(r: Run) returns (r': Run)
    requires IsRun(r) && AllowedUpTo(r, |r.events|) && Last(r).state.Watching?
    requires Last(r).queue != [] && Last(r).queue[0].Register?
    requires Last(r).queue[0].prefix in Last(r).config.keys
    ensures GoesOn(r, r') && !NoRepeat(Last(r').delivered)
  {
    DeliveryInvAt(r, |r.events|);
    var p := Last(r).queue[0].prefix;
    var a, b := Last(r).state.stream.keys[p], Last(r).state.stream.next;
    RegisterAgainDoubles(Last(r));
    var r1 := Go(r, TakeRequest(true));
    r' := PingTwice(r1, p, a, b);
    forall m: nat | |r.events| < m < |r'.events| ensures Allowed(r'.states[m], r'.events[m]) {
      assert m == |r1.events| || m == |r1.events| + 1;
    }
  }

  lemma PingTwice(r1: Run, p: Bytes, a: int, b: int) returns (r': Run)
    requires IsRun(r1) && Doubled(Last(r1), p, a, b)
    ensures IsRun(r') && r1.states <= r'.states && r1.events <= r'.events && |r'.events| == |r1.events| + 2
    ensures Allowed(r'.states[|r1.events|], r'.events[|r1.events|])
    ensures Allowed(r'.states[|r1.events| + 1], r'.events[|r1.events| + 1])
    ensures !NoRepeat(Last(r').delivered)
  {
    var w1 := Last(r1);
    var c := FreshChange(w1, p, a, b);
    PingAllowed(w1, a, c);
    PingDelivers(w1, p, a, c);
    var r2 := Go(r1, Receive(Ping(a, c), [false]));
    PingAllowed(Last(r2), b, c);
    PingDelivers(Last(r2), p, b, c);
    r' := Go(r2, Receive(Ping(b, c), [false]));
    assert r'.states[|r1.events|] == r2.states[|r1.events|] && r'.events[|r1.events|] == r2.events[|r1.events|];
    var n := |w1.delivered|;
    assert Last(r').delivered[n] == Last(r').delivered[n + 1];
  }

  // ---- Only the registered, and not after removal

  /** The callback `d` is made by step `k`. */
  ghost predicate CalledAt(r: Run, k: nat, d: Delivery)
    requires IsRun(r) && k < |r.events|
  {
    && r.states[k].delivered <= r.states[k + 1].delivered
    && d in r.states[k + 1].delivered[|r.states[k].delivered|..]
  }

  /** The callbacks of a step, if any, go to the registrant of the prefix its response was for. */
  lemma OnlyRegisteredCalled(r: Run, k: nat, d: Delivery)
    requires IsRun(r) && k < |r.events|
    ensures r.states[k].delivered <= r.states[k + 1].delivered
    ensures CalledAt(r, k, d) ==>
              && r.events[k].Receive? && d.change in r.events[k].resp.changes
              && d.prefix in r.states[k].config.keys && r.states[k].config.keys[d.prefix].ctx == d.ctx
              && r.states[k].state.Watching?
              && r.events[k].resp.id in r.states[k].state.stream.ids
              && r.states[k].state.stream.ids[r.events[k].resp.id] == d.prefix
  {
    assert StepAt(r, k);
    var w, e := r.states[k], r.events[k];
    if e.Receive? && !(e.resp.created && e.resp.canceled) {
      var n := Notify(w.config, w.state.stream, e.resp, e.removes);
      assert r.states[k + 1].delivered[|w.delivered|..] == n.deliveries;
      if d in n.deliveries {
        NotifyDelivery(w.config, w.state.stream, e.resp, e.removes, d);
      }
    }
  }

  predicate Registers(op: TableOp, p: Bytes) {
    op.Asked? && op.request.Register? && op.request.prefix == p
  }

  /** Taken from the queue or dripped, nothing registers `p` from state `k` to state `l`. */
  ghost predicate NotRegistered(r: Run, k: nat, l: nat, p: Bytes)
    requires k <= l < |r.states|
  {
    forall i | |r.states[k].ops| <= i < |r.states[l].ops| :: !Registers(r.states[l].ops[i], p)
  }

  lemma {:induction false} FoldWithout(ops: seq<TableOp>, n: nat, p: Bytes)
    requires n <= |ops| && p !in Fold(ops[..n])
    requires forall i | n <= i < |ops| :: !Registers(ops[i], p)
    ensures p !in Fold(ops)
  {
    if n < |ops| {
      var front := ops[..|ops| - 1];
      assert front[..n] == ops[..n];
      FoldWithout(front, n, p);
      assert !Registers(ops[|ops| - 1], p);
    } else {
      assert ops[..n] == ops;
    }
  }

  /** The response at `k` called back for prefix `p`, and one of the answers was to remove it. */
  ghost predicate AskedRemovalAt(r: Run, k: nat, p: Bytes)
    requires IsRun(r) && k < |r.events|
  {
    && r.events[k].Receive? && r.states[k].state.Watching?
    && !(r.events[k].resp.created && r.events[k].resp.canceled)
    && r.events[k].resp.id in r.states[k].state.stream.ids
    && r.states[k].state.stream.ids[r.events[k].resp.id] == p
    && p in r.states[k].config.keys && true in r.events[k].removes
  }

  lemma RemovalTakesEffect(r: Run, k: nat, p: Bytes)
    requires IsRun(r) && k < |r.events| && AskedRemovalAt(r, k, p)
    ensures p !in r.states[k + 1].config.keys
  {
    assert StepAt(r, k);
    var i :| 0 <= i < |r.events[k].removes| && r.events[k].removes[i];
  }

  /** A response takes no prefix out of the table unless a callback asked for that. */
  lemma KeptUnlessAsked(r: Run, k: nat, p: Bytes)
    requires IsRun(r) && k < |r.events| && r.events[k].Receive? && p in r.states[k].config.keys
    ensures p in r.states[k + 1].config.keys <==> !AskedRemovalAt(r, k, p)
  {
    assert StepAt(r, k);
    if AskedRemovalAt(r, k, p) {
      RemovalTakesEffect(r, k, p);
    }
  }

  /** Once a callback has asked for removal, its prefix hears nothing until it is registered again. */
  lemma SilentAfterRemoval(r: Run, k: nat, l: nat, p: Bytes, d: Delivery)
    requires IsRun(r) && k < l < |r.events| && AskedRemovalAt(r, k, p)
    requires NotRegistered(r, k + 1, l, p)
    requires CalledAt(r, l, d)
    ensures d.prefix != p
  {
    RemovalTakesEffect(r, k, p);
    InvAt(r, k + 1);
    InvAt(r, l);
    var before, after := r.states[k + 1].ops, r.states[l].ops;
    OpsGrow(r, k + 1, l);
    assert after[..|before|] == before;
    FoldWithout(after, |before|, p);
    OnlyRegisteredCalled(r, l, d);
  }
}
