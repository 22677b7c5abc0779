/** The runner's loop: the handlers of `WatchRunner`, one event at a time, are the steps of `WatchRuns`. */
module WatchLoop {
  import opened Wrappers
  import opened ByteOrder
  import opened WatchSpec
  import opened WatchRunner
  import opened WatchRuns

  /** A reconnection attempt, field by field. */
  lemma RejoinShape(w: World, ok: bool)
    requires w.state.Reconnecting?
    ensures var dripped, v := Drip(w.config, w.queue, w.open), Next(w, ReconnectStep(ok));
            && v.config == dripped.(requestedProgress := false)
            && v.queue == w.queue[DripCount(w.queue)..] && v.open == w.open
            && v.state == Counted(Connect(dripped, ok), w.state.attempts)
  {
  }

  class Loop {
    const runner: Runner
    var state: RunnerState
    var queue: seq<Request>
    var open: bool
    /** The same, with the history of the run. */
    ghost var world: World

    constructor ()
      ensures Valid() && world == START && fresh(runner.config)
    {
      runner := new Runner();
      state, queue, open, world := IdleState, [], true, START;
    }

    ghost function Watchers(): set<StreamedWatcher>
      reads this
    {
      WatchersOf(state)
    }

    ghost predicate Valid()
      reads this, runner.config, Watchers()
    {
      && world.config == runner.config.View() && world.queue == queue && world.open == open
      && Shows(state, world.state)
    }

    method Enqueue(r: Request)
      requires Valid() && Enabled(world, Send(r))
      modifies this
      ensures Valid() && world == Next(old(world), Send(r)) && state == old(state)
    {
      queue := queue + [r];
      world := Next(world, Send(r));
    }

    method Close()
      requires Valid() && Enabled(world, CloseQueue)
      modifies this
      ensures Valid() && world == Next(old(world), CloseQueue) && state == old(state)
    {
      open := false;
      world := Next(world, CloseQueue);
    }

    method TakeFirst()
      requires Valid() && Enabled(world, TakeIdle)
      modifies this, runner.config
      ensures Valid() && world == Next(old(world), TakeIdle) && Watchers() <= old(Watchers())
    {
      var op := if queue == [] then None else Some(queue[0]);
      state := runner.HandleRequestIdle(op);
      queue := if queue == [] then [] else queue[1..];
      world := Next(world, TakeIdle);
    }

    method Take(ok: bool)
      requires Valid() && Enabled(world, TakeRequest(ok))
      modifies this, runner.config, Watchers()
      ensures Valid() && world == Next(old(world), TakeRequest(ok)) && Watchers() <= old(Watchers())
    {
      var op := if queue == [] then None else Some(queue[0]);
      state := runner.HandleRequest(state.watcher, op, ok);
      queue := if queue == [] then [] else queue[1..];
      world := Next(world, TakeRequest(ok));
    }

    /** `accepted` is how many watches etcd takes; the attempt succeeds when it is all of them. */
    method Join(streamUp: bool, accepted: nat) returns (ghost ok: bool)
      requires Valid() && world.state.Connecting?
      modifies this, runner.config
      ensures ok == (streamUp && accepted >= |Sorted(runner.config.keys.Keys)|)
      ensures Valid() && world == Next(old(world), ConnectStep(ok)) && fresh(Watchers())
    {
      state := runner.HandleConnecting(streamUp, accepted);
      ok := streamUp && accepted >= |Sorted(runner.config.keys.Keys)|;
      world := Next(world, ConnectStep(ok));
    }

    /** The same after the requests queued meanwhile, and counted when it fails. */
    method Rejoin(streamUp: bool, accepted: nat) returns (ghost ok: bool)
      requires Valid() && world.state.Reconnecting?
      modifies this, runner.config
      ensures ok == (streamUp && accepted >= |Sorted(runner.config.keys.Keys)|)
      ensures Valid() && world == Next(old(world), ReconnectStep(ok)) && fresh(Watchers())
    {
      ghost var before := world;
      var s, rest := runner.HandleReconnecting(state.attempts, queue, open, streamUp, accepted);
      ok := streamUp && accepted >= |Sorted(runner.config.keys.Keys)|;
      RejoinShape(before, ok);
      ghost var after := Next(before, ReconnectStep(ok));
      assert after.config == runner.config.View() && after.queue == rest && after.open == open;
      state, queue, world := s, rest, after;
    }

    method Receive(resp: Response, removes: seq<bool>) returns (deliveries: seq<Delivery>)
      requires Valid() && Enabled(world, WatchRuns.Event.Receive(resp, removes))
      modifies this, runner.config, Watchers()
      ensures Valid() && world == Next(old(world), WatchRuns.Event.Receive(resp, removes))
      ensures world.delivered == old(world.delivered) + deliveries && Watchers() <= old(Watchers())
    {
      var live: bool;
      live, deliveries := state.watcher.NotifyEvents(runner.config, resp, removes);
      if !live {
        state := ReconnectingState(0);
      }
      world := Next(world, WatchRuns.Event.Receive(resp, removes));
    }

    method Fail()
      requires Valid() && Enabled(world, StreamFails)
      modifies this
      ensures Valid() && world == Next(old(world), StreamFails) && Watchers() == {}
    {
      state := ReconnectingState(0);
      world := Next(world, StreamFails);
    }

    method Check(late: set<int>, silent: bool)
      requires Valid() && Enabled(world, HealthCheck(late, silent))
      modifies this, runner.config
      ensures Valid() && world == Next(old(world), HealthCheck(late, silent)) && Watchers() <= old(Watchers())
    {
      state := runner.HealthCheck(state.watcher, late, silent);
      world := Next(world, HealthCheck(late, silent));
    }
  }
}
