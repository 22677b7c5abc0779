/** The watcher as objects: its configuration, its stream and the handlers of the runner. */
module WatchRunner {
  import opened Wrappers
  import opened EtcdStore
  import opened ByteOrder
  import opened WatchSpec

  class WatchConfig {
    var keys: map<Bytes, Registration>
    var rev: Option<int>
    var closed: bool
    var requestedProgress: bool
    var updated: bool

    constructor ()
      ensures View() == Config(map[], None, false, false, false)
    {
      keys, rev, closed, requestedProgress, updated := map[], None, false, false, false;
    }

    ghost function View(): Config
      reads this
    {
      Config(keys, rev, closed, requestedProgress, updated)
    }

    method Take(r: Request)
      modifies this
      ensures View() == Apply(old(View()), r)
    {
      match r
      case Register(p, rev, ctx) =>
        var start := if rev.Some? then rev.value else 0;
        keys := keys[p := Registration(start, ctx)];
      case Unregister(p) =>
        keys := keys - {p};
    }

    /** One change for a prefix: its revision is noted and its registrant called back, if there is one. */
    method Update(prefix: Bytes, change: Change, remove: bool) returns (called: Option<Delivery>, asksRemoval: bool)
      modifies this
      ensures View() == Touch(old(View()), prefix, [change])
      ensures called.Some? <==> prefix in old(keys)
      ensures called.Some? ==> called.value == Delivery(prefix, old(keys)[prefix].ctx, change)
      ensures asksRemoval <==> prefix in old(keys) && remove
    {
      if prefix !in keys {
        return None, false;
      }
      var registration := keys[prefix];
      if change.rev != registration.rev {
        keys := keys[prefix := registration.(rev := change.rev)];
      }
      assert keys == old(keys)[prefix := registration.(rev := change.rev)];
      return Some(Delivery(prefix, registration.ctx, change)), remove;
    }

    method UpdateResponse(resp: Response)
      modifies this
      ensures View() == Seen(old(View()), resp)
    {
      if resp.header.Some? {
        rev := resp.header;
      }
      updated := true;
      requestedProgress := false;
    }
  }

  class StreamedWatcher {
    var next: int
    var ids: map<int, Bytes>
    var waiting: set<int>
    var keys: map<Bytes, int>
    var starts: map<int, int>

    constructor ()
      ensures View() == EMPTY_STREAM
    {
      next, ids, waiting, keys, starts := 1, map[], {}, map[], map[];
    }

    ghost function View(): Stream
      reads this
    {
      Stream(next, ids, waiting, keys, starts)
    }

    method WatchKeyPrefix(prefix: Bytes, rev: Option<int>, ok: bool) returns (r: Result<(), ()>)
      modifies this
      ensures r.Ok? <==> ok
      ensures ok ==> View() == AddWatch(old(View()), prefix, if rev.Some? then rev.value else 0)
    {
      var start := if rev.Some? then rev.value else 0;
      var id := next;
      next := next + 1;
      if !ok {
        return Err(());
      }
      starts := starts[id := start];
      ids := ids[id := prefix];
      keys := keys[prefix := id];
      waiting := waiting + {id};
      return Ok(());
    }

    /** Asks for every registered prefix, in key order; `accepted` is how many calls succeed. */
    method WatchKeyPrefixes(config: WatchConfig, accepted: nat) returns (r: Result<(), ()>)
      requires View() == EMPTY_STREAM
      modifies this
      ensures r.Ok? <==> accepted >= |Sorted(config.keys.Keys)|
      ensures r.Ok? ==> View() == Connected(config.View())
    {
      var rev := if config.rev.Some? then Some(config.rev.value + 1) else None;
      var order := Sorted(config.keys.Keys);
      assert order[..0] == [];
      for i := 0 to |order|
        invariant i <= accepted
        invariant forall k | k in order[..i] :: k in config.keys
        invariant View() == WatchAll(config.View(), order[..i])
      {
        WatchAllNext(config.View(), order, i);
        var start := if rev.Some? then rev else Some(config.keys[order[i]].rev);
        var each := WatchKeyPrefix(order[i], start, i < accepted);
        if each.Err? {
          return Err(());
        }
      }
      assert order[..|order|] == order;
      return Ok(());
    }

    method DelWatchKeyPrefix(prefix: Bytes)
      modifies this
      ensures View() == DelWatch(old(View()), prefix)
    {
      if prefix in keys {
        var id := keys[prefix];
        keys := keys - {prefix};
        ids := ids - {id};
        waiting := waiting - {id};
      }
    }

    /** Returns false when the response says that a watch could not be set up. */
    method NotifyEvents(config: WatchConfig, resp: Response, removes: seq<bool>)
      returns (live: bool, deliveries: seq<Delivery>)
      requires |removes| == |resp.changes|
      modifies this, config
      ensures live <==> !(resp.created && resp.canceled)
      ensures !live ==> deliveries == [] && config.View() == old(config.View())
      ensures live ==>
                var n := Notify(old(config.View()), old(View()), resp, removes);
                config.View() == n.config && View() == n.stream && deliveries == n.deliveries
    {
      var registrant := if resp.id in ids then Some(ids[resp.id]) else None;
      deliveries := [];
      if resp.created && resp.canceled {
        return false, [];
      }
      if resp.created {
        waiting := waiting - {resp.id};
      }
      config.UpdateResponse(resp);
      ghost var seen := config.View();
      var unregister: Option<Bytes> := None;
      for i := 0 to |resp.changes|
        invariant View() == old(View()).(waiting := waiting)
        invariant waiting == if resp.created then old(waiting) - {resp.id} else old(waiting)
        invariant registrant.None? ==> config.View() == seen && deliveries == []
        invariant registrant.Some? ==> config.View() == Touch(seen, registrant.value, resp.changes[..i])
        invariant registrant.Some? ==> deliveries == Deliveries(seen, registrant.value, resp.changes[..i])
        invariant unregister.Some? ==> unregister == registrant
        invariant unregister.Some? <==>
                  registrant.Some? && registrant.value in seen.keys && exists j :: 0 <= j < i && removes[j]
      {
        assert resp.changes[..i + 1] == resp.changes[..i] + [resp.changes[i]];
        if registrant.Some? {
          var called, asksRemoval := config.Update(registrant.value, resp.changes[i], removes[i]);
          if called.Some? {
            deliveries := deliveries + [called.value];
          }
          if asksRemoval && unregister.None? {
            unregister := registrant;
          }
        }
      }
      assert resp.changes[..|resp.changes|] == resp.changes;
      if unregister.Some? {
        config.Take(Unregister(unregister.value));
        DelWatchKeyPrefix(unregister.value);
      }
      return true, deliveries;
    }
  }

  /** What the runner does next; a live stream travels with it. */
  datatype RunnerState =
    | IdleState
    | ConnectingState
    | WatchingState(watcher: StreamedWatcher)
    | ReconnectingState(attempts: nat)
    | ClosedState

  ghost function WatchersOf(s: RunnerState): set<StreamedWatcher> {
    if s.WatchingState? then {s.watcher} else {}
  }

  /** The objects stand for the given state. */
  ghost predicate Shows(s: RunnerState, w: WatchState)
    reads WatchersOf(s)
  {
    match w
    case Idle => s == IdleState
    case Connecting => s == ConnectingState
    case Watching(stream) => s.WatchingState? && s.watcher.View() == stream
    case Reconnecting(n) => s == ReconnectingState(n)
    case Closed => s == ClosedState
  }

  class Runner {
    const config: WatchConfig

    constructor ()
      ensures fresh(config) && config.View() == Config(map[], None, false, false, false)
    {
      config := new WatchConfig();
    }

    /** The first request; None when the queue is closed and empty. */
    method HandleRequestIdle(op: Option<Request>) returns (s: RunnerState)
      modifies config
      ensures op.None? ==> s == ClosedState && config.View() == old(config.View())
      ensures op.Some? ==> config.View() == Apply(old(config.View()), op.value)
      ensures op.Some? ==> s == if op.value.Register? then ConnectingState else IdleState
    {
      match op
      case None => s := ClosedState;
      case Some(r) =>
        config.Take(r);
        s := if r.Register? then ConnectingState else IdleState;
    }

    /** A request while the stream is up; `ok` when etcd takes the new watch. */
    method HandleRequest(watcher: StreamedWatcher, request: Option<Request>, ok: bool) returns (s: RunnerState)
      modifies config, watcher
      ensures request.None? ==> s == ClosedState && config.View() == old(config.View())
      ensures request.Some? ==> config.View() == Apply(old(config.View()), request.value)
      ensures request.Some? && request.value.Register? && !ok ==> s == ReconnectingState(0)
      ensures request.Some? && request.value.Register? && ok ==>
                && s == WatchingState(watcher)
                && watcher.View() == AddWatch(old(watcher.View()), request.value.prefix,
                                              if request.value.rev.Some? then request.value.rev.value else 0)
      ensures request.Some? && request.value.Unregister? ==>
                s == WatchingState(watcher) && watcher.View() == DelWatch(old(watcher.View()), request.value.prefix)
    {
      match request
      case None => s := ClosedState;
      case Some(Register(p, rev, ctx)) =>
        config.Take(Register(p, rev, ctx));
        var r := watcher.WatchKeyPrefix(p, rev, ok);
        s := if r.Ok? then WatchingState(watcher) else ReconnectingState(0);
      case Some(Unregister(p)) =>
        config.Take(Unregister(p));
        watcher.DelWatchKeyPrefix(p);
        s := WatchingState(watcher);
    }

    /** Requests are taken even while there is no stream, but only so many at a time. */
    method DripPendingRequests(queue: seq<Request>, open: bool) returns (rest: seq<Request>)
      modifies config
      ensures rest == queue[DripCount(queue)..]
      ensures config.View() == Drip(old(config.View()), queue, open)
    {
      rest := queue;
      assert queue[..0] == [] && queue[0..] == queue;
      var i := 0;
      while i < DRIP
        invariant 0 <= i <= DripCount(queue)
        invariant rest == queue[i..]
        invariant config.View() == ApplyAll(old(config.View()), queue[..i])
        decreases DRIP - i
      {
        if rest == [] {
          assert queue[..i] == queue;
          if !open {
            config.closed := true;
          }
          return;
        }
        assert queue[..i + 1] == queue[..i] + [queue[i]];
        config.Take(rest[0]);
        rest := rest[1..];
        i := i + 1;
      }
    }

    /** `streamUp` when the stream comes up, `accepted` how many of the watches etcd takes in time. */
    method HandleConnecting(streamUp: bool, accepted: nat) returns (s: RunnerState)
      modifies config
      ensures config.View() == old(config.View()).(requestedProgress := false)
      ensures s.WatchingState? ==> fresh(s.watcher)
      ensures var ok := streamUp && accepted >= |Sorted(config.keys.Keys)|;
              Shows(s, Connect(old(config.View()), ok))
    {
      config.requestedProgress := false;
      if config.closed {
        return ClosedState;
      }
      if !streamUp {
        return ReconnectingState(0);
      }
      var w := new StreamedWatcher();
      var r := w.WatchKeyPrefixes(config, accepted);
      if r.Err? {
        return ReconnectingState(0);
      }
      return WatchingState(w);
    }

    method HandleReconnecting(attempts: nat, queue: seq<Request>, open: bool, streamUp: bool, accepted: nat)
      returns (s: RunnerState, rest: seq<Request>)
      modifies config
      ensures rest == queue[DripCount(queue)..]
      ensures config.View() == Drip(old(config.View()), queue, open).(requestedProgress := false)
      ensures s.WatchingState? ==> fresh(s.watcher)
      ensures var ok := streamUp && accepted >= |Sorted(config.keys.Keys)|;
              Shows(s, Counted(Connect(Drip(old(config.View()), queue, open), ok), attempts))
    {
      rest := DripPendingRequests(queue, open);
      s := HandleConnecting(streamUp, accepted);
      if s.ReconnectingState? {
        s := ReconnectingState(attempts + 1);
      }
    }

    /** `late`: the ids asked for too long ago; `silent`: the last response, if any, is too long ago. */
    method HealthCheck(watcher: StreamedWatcher, late: set<int>, silent: bool) returns (s: RunnerState)
      modifies config
      ensures var c := old(config.View());
              s == if Overdue(watcher.View(), late) || (Silence(c, silent) && c.requestedProgress)
                   then ReconnectingState(0) else WatchingState(watcher)
      ensures config.View() == if !Overdue(watcher.View(), late) && Silence(old(config.View()), silent)
                               then old(config.View()).(requestedProgress := true) else old(config.View())
    {
      var ids := watcher.waiting;
      while ids != {}
        invariant ids <= watcher.waiting
        invariant forall id | id in watcher.waiting && id in late :: id in ids
        decreases |ids|
      {
        assert (forall id :: id !in ids) ==> ids == {};
        var id :| id in ids;
        if id in late {
          return ReconnectingState(0);
        }
        ids := ids - {id};
      }
      if config.updated && silent {
        if config.requestedProgress {
          return ReconnectingState(0);
        }
        config.requestedProgress := true;
      }
      return WatchingState(watcher);
    }
  }
}
