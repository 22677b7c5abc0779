/** The revision the table keeps for each registration. */
module WatchRevisions {
  import opened EtcdStore
  import opened WatchSpec
  import opened WatchRuns
  import opened WatchDelivery

  /** The revision of the last change delivered to context `x`, or `start` when there was none. */
  function LastRev(ds: seq<Delivery>, x: nat, start: int): int {
    if ds == [] then start
    else if ds[|ds| - 1].ctx == x then ds[|ds| - 1].change.rev
    else LastRev(ds[..|ds| - 1], x, start)
  }

  function Started(r: Request): int
    requires r.Register?
  {
    if r.rev.Some? then r.rev.value else 0
  }

  /** The registration was sent, and has the revision of its last change. */
  predicate RegOk(reg: Registration, sent: seq<Request>, ds: seq<Delivery>) {
    && reg.ctx < |sent| && sent[reg.ctx].Register?
    && reg.rev == LastRev(ds, reg.ctx, Started(sent[reg.ctx]))
  }

  ghost predicate RegsOk(keys: map<Bytes, Registration>, sent: seq<Request>, ds: seq<Delivery>) {
    forall p | p in keys :: RegOk(keys[p], sent, ds)
  }

  ghost predicate RevInv(w: World) {
    var taken := |w.sent| - |w.queue|;
    && Inv(w)
    && (forall i | 0 <= i < |w.sent| && w.sent[i].Register? :: w.sent[i].ctx == i)
    && ContextsBelow(w.config, taken)
    && (forall d | d in w.delivered :: d.ctx < taken)
    && RegsOk(w.config.keys, w.sent, w.delivered)
  }

  lemma {:induction false} NoneDelivered(ds: seq<Delivery>, x: nat, start: int)
    requires forall d | d in ds :: d.ctx != x
    ensures LastRev(ds, x, start) == start
  {
    if ds != [] {
      assert ds[|ds| - 1] in ds && forall d | d in ds[..|ds| - 1] :: d in ds;
      NoneDelivered(ds[..|ds| - 1], x, start);
    }
  }

  lemma {:induction false} LastRevAppend(ds: seq<Delivery>, more: seq<Delivery>, x: nat, start: int)
    ensures LastRev(ds + more, x, start) == LastRev(more, x, LastRev(ds, x, start))
  {
    if more != [] {
      var k := |more| - 1;
      assert (ds + more)[..|ds| + k] == ds + more[..k];
      LastRevAppend(ds, more[..k], x, start);
    } else {
      assert ds + more == ds;
    }
  }

  lemma ApplyRegs(c: Config, r: Request, sent: seq<Request>, ds: seq<Delivery>, n: nat)
    requires RegsOk(c.keys, sent, ds) && n < |sent| && sent[n] == r && (r.Register? ==> r.ctx == n)
    requires forall d | d in ds :: d.ctx < n
    ensures RegsOk(Apply(c, r).keys, sent, ds)
  {
    if r.Register? {
      NoneDelivered(ds, n, Started(r));
    }
  }

  lemma {:induction false} TakenRegs(w: World, n: nat)
    requires RevInv(w) && n <= |w.queue|
    ensures RegsOk(ApplyAll(w.config, w.queue[..n]).keys, w.sent, w.delivered)
    ensures ContextsBelow(ApplyAll(w.config, w.queue[..n]), |w.sent| - |w.queue| + n)
  {
    if n > 0 {
      TakenRegs(w, n - 1);
      var c, r := ApplyAll(w.config, w.queue[..n - 1]), w.queue[n - 1];
      var m := |w.sent| - |w.queue| + n - 1;
      assert w.sent[m] == r;
      ApplyLast(w.config, w.queue, n);
      ApplyRegs(c, r, w.sent, w.delivered, m);
      ApplyContexts(c, r, m);
    } else {
      assert w.queue[..0] == [];
    }
  }

  lemma TakeOneRegs(w: World)
    requires RevInv(w) && w.queue != []
    ensures RegsOk(Apply(w.config, w.queue[0]).keys, w.sent, w.delivered)
    ensures ContextsBelow(Apply(w.config, w.queue[0]), |w.sent| - |w.queue| + 1)
  {
    TakenRegs(w, 1);
    ApplyLast(w.config, w.queue, 1);
    assert w.queue[..0] == [];
  }

  lemma DripRev(w: World, ok: bool)
    requires RevInv(w) && w.state.Reconnecting?
    ensures RevInv(ApplyReconnect(w, ok))
  {
    InvReconnect(w, ok);
    TakenRegs(w, DripCount(w.queue));
    assert ApplyReconnect(w, ok).config.keys == ApplyAll(w.config, w.queue[..DripCount(w.queue)]).keys;
  }

  lemma TakeRev(w: World, ok: bool)
    requires RevInv(w) && w.state.Watching? && Ready(w)
    ensures RevInv(ApplyTake(w, ok))
  {
    InvTake(w, ok);
    if w.queue != [] {
      TakeOneRegs(w);
    }
  }

  lemma IdleRev(w: World)
    requires RevInv(w) && w.state.Idle? && Ready(w)
    ensures RevInv(ApplyIdle(w))
  {
    InvIdle(w);
    if w.queue != [] {
      TakeOneRegs(w);
    }
  }

  lemma SendRev(w: World, r: Request)
    requires RevInv(w) && Enabled(w, Send(r))
    ensures RevInv(Next(w, Send(r)))
  {
    InvStep(w, Send(r));
    var v := Next(w, Send(r));
    forall p | p in v.config.keys ensures RegOk(v.config.keys[p], v.sent, v.delivered) {
      assert RegOk(w.config.keys[p], w.sent, w.delivered);
    }
  }

  lemma ReceiveRev(w: World, resp: Response, removes: seq<bool>)
    requires RevInv(w) && w.state.Watching?
    ensures RevInv(ApplyReceive(w, resp, removes))
  {
    InvReceive(w, resp, removes);
    if !(resp.created && resp.canceled) {
      var n, taken := Notify(w.config, w.state.stream, resp, removes), |w.sent| - |w.queue|;
      forall d | d in n.deliveries ensures d.ctx < taken {
        NotifyDelivery(w.config, w.state.stream, resp, removes, d);
      }
      forall p | p in n.config.keys
        ensures p in w.config.keys && n.config.keys[p].ctx == w.config.keys[p].ctx
        ensures RegOk(n.config.keys[p], w.sent, w.delivered + n.deliveries)
      {
        NotedRev(w.config, w.state.stream, resp, removes, p, taken);
        assert RegOk(w.config.keys[p], w.sent, w.delivered);
        var x := w.config.keys[p].ctx;
        LastRevAppend(w.delivered, n.deliveries, x, Started(w.sent[x]));
      }
    }
  }

  /** After a response the revision of each prefix left is that of its last change, if it had one. */
  lemma NotedRev(c: Config, s: Stream, resp: Response, removes: seq<bool>, p: Bytes, n: int)
    requires ContextsBelow(c, n) && p in Notify(c, s, resp, removes).config.keys
    ensures var v := Notify(c, s, resp, removes);
            && p in c.keys && v.config.keys[p].ctx == c.keys[p].ctx
            && v.config.keys[p].rev == LastRev(v.deliveries, c.keys[p].ctx, c.keys[p].rev)
  {
    var ds := Notify(c, s, resp, removes).deliveries;
    if resp.id in s.ids && s.ids[resp.id] == p {
      assert resp.changes != [] ==> ds[|ds| - 1] == Delivery(p, c.keys[p].ctx, resp.changes[|resp.changes| - 1]);
    } else {
      forall d | d in ds ensures d.ctx != c.keys[p].ctx {
        NotifyDelivery(c, s, resp, removes, d);
      }
      NoneDelivered(ds, c.keys[p].ctx, c.keys[p].rev);
    }
  }

  lemma RevInvStep(w: World, e: Event)
    requires RevInv(w) && Enabled(w, e)
    ensures RevInv(Next(w, e))
  {
    match e
    case Send(r) => SendRev(w, r);
    case Receive(resp, removes) => ReceiveRev(w, resp, removes);
    case TakeIdle => IdleRev(w);
    case TakeRequest(ok) => TakeRev(w, ok);
    case ReconnectStep(ok) => DripRev(w, ok);
    case _ => InvStep(w, e);
  }

  lemma {:induction false} RevInvAt(r: Run, k: nat)
    requires IsRun(r) && k < |r.states|
    ensures RevInv(r.states[k])
  {
    if k > 0 {
      RevInvAt(r, k - 1);
      assert StepAt(r, k - 1);
      RevInvStep(r.states[k - 1], r.events[k - 1]);
    }
  }

  /**
   At every moment the table keeps for each registration the revision of the
   last change its registrant was called with, or the one it registered with.
   */
  lemma KeptRevIsLast(r: Run, k: nat, p: Bytes)
    requires IsRun(r) && k < |r.states| && p in r.states[k].config.keys
    ensures RegOk(r.states[k].config.keys[p], r.states[k].sent, r.states[k].delivered)
  {
    RevInvAt(r, k);
  }
}
