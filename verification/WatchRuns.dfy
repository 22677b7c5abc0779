/**
 Whole runs of the watcher: requests queued by clients, the handlers of
 `WatchRunner` in whatever order the runner's loop takes them, and an etcd that
 may drop the stream at any time.
 */
module WatchRuns {
  import opened Wrappers
  import opened EtcdStore
  import opened WatchSpec

  /**
   What has happened to the table: a request taken from the queue, the revision
   of a change noted, or a callback asking for removal.
   */
  datatype TableOp = Asked(request: Request) | Noted(prefix: Bytes, rev: int) | Removed(prefix: Bytes)

  /** `pushed` are the changes etcd has sent so far on each watch id of the current stream. */
  datatype World = World(
    state: WatchState,
    config: Config,
    queue: seq<Request>,
    open: bool,
    sent: seq<Request>,
    ops: seq<TableOp>,
    delivered: seq<Delivery>,
    pushed: map<int, set<Change>>)

  datatype Event =
    | Send(request: Request)
    | CloseQueue
    | TakeIdle
    | TakeRequest(ok: bool)
    | ConnectStep(ok: bool)
    | ReconnectStep(ok: bool)
    | Receive(resp: Response, removes: seq<bool>)
    | StreamFails
    | HealthCheck(late: set<int>, silent: bool)

  const START := World(Idle, Config(map[], None, false, false, false), [], true, [], [], [], map[])

  /** A queue yields a request, or its closing once it is empty; otherwise the runner waits. */
  predicate Ready(w: World) {
    w.queue != [] || !w.open
  }

  /** Registrants are told apart by their contexts. */
  predicate Enabled(w: World, e: Event) {
    match e
    case Send(r) => w.open && (r.Register? ==> r.ctx == |w.sent|)
    case CloseQueue => w.open
    case TakeIdle => w.state.Idle? && Ready(w)
    case TakeRequest(_) => w.state.Watching? && Ready(w)
    case ConnectStep(_) => w.state.Connecting?
    case ReconnectStep(_) => w.state.Reconnecting?
    case Receive(resp, removes) => w.state.Watching? && |removes| == |resp.changes|
    case StreamFails => w.state.Watching?
    case HealthCheck(_, _) => w.state.Watching?
  }

  function Asks(rs: seq<Request>): (ops: seq<TableOp>)
    ensures |ops| == |rs| && forall i | 0 <= i < |rs| :: ops[i] == Asked(rs[i])
  {
    seq(|rs|, i requires 0 <= i < |rs| => Asked(rs[i]))
  }

  function PushedOn(pushed: map<int, set<Change>>, id: int): set<Change> {
    if id in pushed then pushed[id] else {}
  }

  function ApplyTake(w: World, ok: bool): World
    requires w.state.Watching?
  {
    if w.queue == [] then w.(state := Closed)
    else
      var r := w.queue[0];
      var w1 := w.(config := Apply(w.config, r), queue := w.queue[1..], ops := w.ops + [Asked(r)]);
      match r
      case Register(p, rev, _) =>
        if ok then w1.(state := Watching(AddWatch(w.state.stream, p, if rev.Some? then rev.value else 0)))
        else w1.(state := Reconnecting(0))
      case Unregister(p) => w1.(state := Watching(DelWatch(w.state.stream, p)))
  }

  function ApplyIdle(w: World): World {
    if w.queue == [] then w.(state := Closed)
    else
      var r := w.queue[0];
      w.(config := Apply(w.config, r), queue := w.queue[1..], ops := w.ops + [Asked(r)],
         state := if r.Register? then Connecting else Idle)
  }

  function ApplyConnect(w: World, ok: bool): World {
    w.(config := w.config.(requestedProgress := false), state := Connect(w.config, ok), pushed := map[])
  }

  function Dripped(w: World): World {
    var n := DripCount(w.queue);
    w.(config := Drip(w.config, w.queue, w.open), queue := w.queue[n..], ops := w.ops + Asks(w.queue[..n]))
  }

  function ApplyReconnect(w: World, ok: bool): World
    requires w.state.Reconnecting?
  {
    var w1 := ApplyConnect(Dripped(w), ok);
    w1.(state := Counted(w1.state, w.state.attempts))
  }

  /** What a response does to the table: the revision of its last change, and a removal if one was asked for. */
  function NotifyOps(c: Config, stream: Stream, resp: Response, removes: seq<bool>): seq<TableOp> {
    if resp.id !in stream.ids then []
    else
      var p := stream.ids[resp.id];
      (if p in c.keys && resp.changes != [] then [Noted(p, resp.changes[|resp.changes| - 1].rev)] else [])
      + (if Removes(c, p, resp.changes, removes) then [Removed(p)] else [])
  }

  function ApplyReceive(w: World, resp: Response, removes: seq<bool>): World
    requires w.state.Watching?
  {
    if resp.created && resp.canceled then w.(state := Reconnecting(0))
    else
      var n := Notify(w.config, w.state.stream, resp, removes);
      w.(config := n.config, state := Watching(n.stream), delivered := w.delivered + n.deliveries,
         ops := w.ops + NotifyOps(w.config, w.state.stream, resp, removes),
         pushed := w.pushed[resp.id := PushedOn(w.pushed, resp.id) + set c | c in resp.changes])
  }

  function Next(w: World, e: Event): World
    requires Enabled(w, e)
  {
    match e
    case Send(r) => w.(queue := w.queue + [r], sent := w.sent + [r])
    case CloseQueue => w.(open := false)
    case TakeIdle => ApplyIdle(w)
    case TakeRequest(ok) => ApplyTake(w, ok)
    case ConnectStep(ok) => ApplyConnect(w, ok)
    case ReconnectStep(ok) => ApplyReconnect(w, ok)
    case Receive(resp, removes) => ApplyReceive(w, resp, removes)
    case StreamFails => w.(state := Reconnecting(0))
    case HealthCheck(late, silent) =>
      if w.state.Watching? && Overdue(w.state.stream, late) then w.(state := Reconnecting(0))
      else if !Silence(w.config, silent) then w
      else if w.config.requestedProgress then w.(state := Reconnecting(0))
      else w.(config := w.config.(requestedProgress := true))
  }

  datatype Run = Run(states: seq<World>, events: seq<Event>)

  predicate StepAt(r: Run, k: nat)
    requires k < |r.events| && |r.states| == |r.events| + 1
  {
    Enabled(r.states[k], r.events[k]) && r.states[k + 1] == Next(r.states[k], r.events[k])
  }

  ghost predicate IsRun(r: Run) {
    && |r.states| == |r.events| + 1 && r.states[0] == START
    && forall k: nat | k < |r.events| :: StepAt(r, k)
  }

  // ---- The table is the fold of what was asked and removed

  function Fold(ops: seq<TableOp>): map<Bytes, Registration> {
    if ops == [] then map[]
    else
      var m := Fold(ops[..|ops| - 1]);
      match ops[|ops| - 1]
      case Asked(Register(p, rev, ctx)) => m[p := Registration(if rev.Some? then rev.value else 0, ctx)]
      case Asked(Unregister(p)) => m - {p}
      case Noted(p, rev) => if p in m then m[p := m[p].(rev := rev)] else m
      case Removed(p) => m - {p}
  }

  function Requests(ops: seq<TableOp>): seq<Request> {
    if ops == [] then []
    else
      var front := Requests(ops[..|ops| - 1]);
      match ops[|ops| - 1]
      case Asked(r) => front + [r]
      case _ => front
  }

  /** The table is the fold of `ops`, whose requests are what was sent and is no longer queued. */
  ghost predicate TableOk(c: Config, ops: seq<TableOp>, queue: seq<Request>, sent: seq<Request>) {
    && c.keys == Fold(ops)
    && sent == Requests(ops) + queue
  }

  ghost predicate Inv(w: World) {
    && TableOk(w.config, w.ops, w.queue, w.sent)
    && (w.config.closed || w.state.Closed? ==> w.queue == [] && !w.open)
    && (w.state.Watching? ==> StreamOk(w.state.stream) && w.state.stream.keys.Keys == w.config.keys.Keys)
  }

  lemma AskOne(c: Config, ops: seq<TableOp>, queue: seq<Request>, sent: seq<Request>)
    requires TableOk(c, ops, queue, sent) && queue != []
    ensures TableOk(Apply(c, queue[0]), ops + [Asked(queue[0])], queue[1..], sent)
  {
    assert (ops + [Asked(queue[0])])[..|ops|] == ops;
    assert queue == [queue[0]] + queue[1..];
  }

  lemma {:induction false} AskMany(c: Config, ops: seq<TableOp>, queue: seq<Request>, sent: seq<Request>, n: nat)
    requires TableOk(c, ops, queue, sent) && n <= |queue|
    ensures TableOk(ApplyAll(c, queue[..n]), ops + Asks(queue[..n]), queue[n..], sent)
  {
    if n == 0 {
      assert ops + Asks(queue[..0]) == ops && queue[0..] == queue;
    } else {
      AskMany(c, ops, queue, sent, n - 1);
      AskOne(ApplyAll(c, queue[..n - 1]), ops + Asks(queue[..n - 1]), queue[n - 1..], sent);
      ApplyLast(c, queue, n);
      assert ops + Asks(queue[..n]) == ops + Asks(queue[..n - 1]) + [Asked(queue[n - 1])];
      assert queue[n - 1..][1..] == queue[n..];
    }
  }

  lemma ApplyLast(c: Config, queue: seq<Request>, n: nat)
    requires 0 < n <= |queue|
    ensures ApplyAll(c, queue[..n]) == Apply(ApplyAll(c, queue[..n - 1]), queue[n - 1])
  {
    assert queue[..n][..n - 1] == queue[..n - 1];
  }

  lemma {:induction false} ApplyAllKeeps(c: Config, rs: seq<Request>)
    ensures ApplyAll(c, rs).closed == c.closed && ApplyAll(c, rs).rev == c.rev
  {
    if rs != [] {
      ApplyAllKeeps(c, rs[..|rs| - 1]);
    }
  }

  lemma FoldOne(ops: seq<TableOp>, op: TableOp)
    requires !op.Asked?
    ensures Fold(ops + [op]) ==
              if op.Removed? then Fold(ops) - {op.prefix}
              else if op.prefix in Fold(ops) then Fold(ops)[op.prefix := Fold(ops)[op.prefix].(rev := op.rev)]
              else Fold(ops)
    ensures Requests(ops + [op]) == Requests(ops)
  {
    assert (ops + [op])[..|ops|] == ops;
  }

  lemma TakeKeepsStep(c: Config, stream: Stream, r: Request)
    requires StreamOk(stream) && stream.keys.Keys == c.keys.Keys
    ensures r.Register? ==>
              var w := AddWatch(stream, r.prefix, if r.rev.Some? then r.rev.value else 0);
              StreamOk(w) && w.keys.Keys == Apply(c, r).keys.Keys
    ensures r.Unregister? ==>
              var w := DelWatch(stream, r.prefix);
              StreamOk(w) && w.keys.Keys == Apply(c, r).keys.Keys
    ensures Apply(c, r).closed == c.closed && Apply(c, r).rev == c.rev
  {
    DelWatchOk(stream, r.prefix);
    if r.Register? {
      AddWatchOk(stream, r.prefix, if r.rev.Some? then r.rev.value else 0);
    }
  }

  lemma InvTake(w: World, ok: bool)
    requires Inv(w) && w.state.Watching? && Ready(w)
    ensures Inv(ApplyTake(w, ok))
  {
    if w.queue != [] {
      AskOne(w.config, w.ops, w.queue, w.sent);
      TakeKeepsStep(w.config, w.state.stream, w.queue[0]);
    }
  }

  lemma InvIdle(w: World)
    requires Inv(w) && w.state.Idle? && Ready(w)
    ensures Inv(ApplyIdle(w))
  {
    if w.queue != [] {
      AskOne(w.config, w.ops, w.queue, w.sent);
    }
  }

  lemma InvConnect(w: World, ok: bool)
    requires Inv(w)
    ensures Inv(ApplyConnect(w, ok))
  {
    ConnectedOk(w.config.(requestedProgress := false));
  }

  lemma InvReconnect(w: World, ok: bool)
    requires Inv(w) && w.state.Reconnecting?
    ensures Inv(ApplyReconnect(w, ok))
  {
    var n := DripCount(w.queue);
    AskMany(w.config, w.ops, w.queue, w.sent, n);
    ApplyAllKeeps(w.config, w.queue[..n]);
    assert Drip(w.config, w.queue, w.open).keys == ApplyAll(w.config, w.queue[..n]).keys;
    var w1 := Dripped(w);
    assert Inv(w1);
    InvConnect(w1, ok);
  }

  lemma NotifyStream(c: Config, stream: Stream, resp: Response, removes: seq<bool>)
    requires StreamOk(stream)
    ensures var n := Notify(c, stream, resp, removes);
            && StreamOk(n.stream)
            && n.stream.keys.Keys == stream.keys.Keys - (if n.removed.Some? then {n.removed.value} else {})
  {
    if resp.id in stream.ids {
      var w1 := if resp.created then stream.(waiting := stream.waiting - {resp.id}) else stream;
      DelWatchOk(w1, stream.ids[resp.id]);
    }
  }

  lemma NotifyTable(c: Config, stream: Stream, resp: Response, removes: seq<bool>, ops: seq<TableOp>)
    requires c.keys == Fold(ops)
    ensures var n := Notify(c, stream, resp, removes);
            var ops' := ops + NotifyOps(c, stream, resp, removes);
            n.config.closed == c.closed && n.config.keys == Fold(ops') && Requests(ops') == Requests(ops)
  {
    if resp.id !in stream.ids {
      assert ops + [] == ops;
    } else {
      var p := stream.ids[resp.id];
      var noted := if p in c.keys && resp.changes != [] then [Noted(p, resp.changes[|resp.changes| - 1].rev)] else [];
      if noted != [] {
        FoldOne(ops, noted[0]);
      } else {
        assert ops + [] == ops;
      }
      if Removes(c, p, resp.changes, removes) {
        FoldOne(ops + noted, Removed(p));
        assert ops + (noted + [Removed(p)]) == ops + noted + [Removed(p)];
      } else {
        assert ops + (noted + []) == ops + noted;
      }
    }
  }

  lemma NotifyKeys(c: Config, stream: Stream, resp: Response, removes: seq<bool>)
    ensures var n := Notify(c, stream, resp, removes);
            n.config.keys.Keys == c.keys.Keys - (if n.removed.Some? then {n.removed.value} else {})
  {
  }

  lemma InvReceive(w: World, resp: Response, removes: seq<bool>)
    requires Inv(w) && w.state.Watching?
    ensures Inv(ApplyReceive(w, resp, removes))
  {
    if !(resp.created && resp.canceled) {
      NotifyStream(w.config, w.state.stream, resp, removes);
      NotifyKeys(w.config, w.state.stream, resp, removes);
      NotifyTable(w.config, w.state.stream, resp, removes, w.ops);
    }
  }

  lemma InvStep(w: World, e: Event)
    requires Inv(w) && Enabled(w, e)
    ensures Inv(Next(w, e))
  {
    match e
    case TakeIdle => InvIdle(w);
    case TakeRequest(ok) => InvTake(w, ok);
    case ConnectStep(ok) => InvConnect(w, ok);
    case ReconnectStep(ok) => InvReconnect(w, ok);
    case Receive(resp, removes) => InvReceive(w, resp, removes);
    case _ =>
  }

  lemma {:induction false} InvAt(r: Run, k: nat)
    requires IsRun(r) && k < |r.states|
    ensures Inv(r.states[k])
  {
    if k > 0 {
      InvAt(r, k - 1);
      assert StepAt(r, k - 1);
      InvStep(r.states[k - 1], r.events[k - 1]);
    }
  }

  /**
   At every moment the table is the fold of the requests taken, in the order
   they were sent, with the revisions noted and the callbacks' removals in
   between; a live stream watches exactly the registered prefixes; and a stopped
   runner has left no request behind.
   */
  lemma TableIsTheFold(r: Run, k: nat)
    requires IsRun(r) && k < |r.states|
    ensures var w := r.states[k];
            && w.config.keys == Fold(w.ops)
            && Requests(w.ops) <= w.sent && w.sent[|Requests(w.ops)|..] == w.queue
            && (w.state.Watching? ==> w.state.stream.keys.Keys == w.config.keys.Keys)
            && (w.state.Closed? ==> Requests(w.ops) == w.sent)
  {
    InvAt(r, k);
  }

  /** What has happened to the table is never rewritten. */
  lemma {:induction false} OpsGrow(r: Run, k: nat, l: nat)
    requires IsRun(r) && k <= l < |r.states|
    ensures r.states[k].ops <= r.states[l].ops
    decreases l
  {
    if k < l {
      OpsGrow(r, k, l - 1);
      assert StepAt(r, l - 1);
    }
  }

  lemma StreamIdsAreSound(r: Run, k: nat)
    requires IsRun(r) && k < |r.states| && r.states[k].state.Watching?
    ensures StreamOk(r.states[k].state.stream)
  {
    InvAt(r, k);
  }
}
