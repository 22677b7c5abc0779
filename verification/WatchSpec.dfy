/**
 The multiplexed watcher as values: the table of registered prefixes, one watch
 stream, and what every request and response does to them.
 */
module WatchSpec {
  import opened Wrappers
  import opened EtcdStore
  import opened ByteOrder

  /** The revision last seen for a prefix, and the registrant's context. */
  datatype Registration = Registration(rev: int, ctx: nat)

  /** `updated` once a response has been received, ever. */
  datatype Config = Config(
    keys: map<Bytes, Registration>,
    rev: Option<int>,
    closed: bool,
    requestedProgress: bool,
    updated: bool)

  /**
   One stream: the ids issued and still wanted, those etcd has not accepted yet,
   the current id of each prefix, and the revision each id was asked to start
   from.
   */
  datatype Stream = Stream(
    next: int,
    ids: map<int, Bytes>,
    waiting: set<int>,
    keys: map<Bytes, int>,
    starts: map<int, int>)

  datatype Request =
    | Register(prefix: Bytes, rev: Option<int>, ctx: nat)
    | Unregister(prefix: Bytes)

  datatype Change = Change(key: Bytes, rev: int, value: Bytes)

  datatype Response = Response(id: int, created: bool, canceled: bool, header: Option<int>, changes: seq<Change>)

  /** A callback made: to the registrant of a prefix, with one change. */
  datatype Delivery = Delivery(prefix: Bytes, ctx: nat, change: Change)

  // ---- The registration table

  function Apply(c: Config, r: Request): Config {
    match r
    case Register(p, rev, ctx) =>
      c.(keys := c.keys[p := Registration(if rev.Some? then rev.value else 0, ctx)])
    case Unregister(p) => c.(keys := c.keys - {p})
  }

  function ApplyAll(c: Config, rs: seq<Request>): Config {
    if rs == [] then c else Apply(ApplyAll(c, rs[..|rs| - 1]), rs[|rs| - 1])
  }

  // ---- The stream

  const EMPTY_STREAM := Stream(1, map[], {}, map[], map[])

  function AddWatch(w: Stream, prefix: Bytes, start: int): Stream {
    Stream(
      w.next + 1,
      w.ids[w.next := prefix],
      w.waiting + {w.next},
      w.keys[prefix := w.next],
      w.starts[w.next := start])
  }

  function DelWatch(w: Stream, prefix: Bytes): Stream {
    if prefix in w.keys then
      var id := w.keys[prefix];
      w.(keys := w.keys - {prefix}, ids := w.ids - {id}, waiting := w.waiting - {id})
    else w
  }

  /** Where a prefix resumes: after everything already received, or where it was registered. */
  function StartOf(c: Config, prefix: Bytes): int
    requires prefix in c.keys
  {
    if c.rev.Some? then c.rev.value + 1 else c.keys[prefix].rev
  }

  function WatchAll(c: Config, ks: seq<Bytes>): Stream
    requires forall k | k in ks :: k in c.keys
  {
    if ks == [] then EMPTY_STREAM
    else
      assert ks[|ks| - 1] in ks && forall k | k in ks[..|ks| - 1] :: k in ks;
      AddWatch(WatchAll(c, ks[..|ks| - 1]), ks[|ks| - 1], StartOf(c, ks[|ks| - 1]))
  }

  lemma WatchAllNext(c: Config, ks: seq<Bytes>, i: nat)
    requires i < |ks| && forall k | k in ks :: k in c.keys
    ensures forall k | k in ks[..i + 1] :: k in c.keys
    ensures forall k | k in ks[..i] :: k in c.keys
    ensures ks[i] in c.keys && WatchAll(c, ks[..i + 1]) == AddWatch(WatchAll(c, ks[..i]), ks[i], StartOf(c, ks[i]))
  {
    assert ks[i] in ks && forall k | k in ks[..i + 1] :: k in ks;
    assert forall k | k in ks[..i] :: k in ks;
    assert ks[..i + 1][..i] == ks[..i];
  }

  /** The stream a connection sets up: every registered prefix, in key order. */
  function Connected(c: Config): Stream {
    WatchAll(c, Sorted(c.keys.Keys))
  }

  // ---- Responses

  /** Each change updates the revision of a prefix that is registered, and nothing else. */
  function Touch(c: Config, prefix: Bytes, changes: seq<Change>): Config {
    if prefix in c.keys && changes != []
    then c.(keys := c.keys[prefix := c.keys[prefix].(rev := changes[|changes| - 1].rev)])
    else c
  }

  function Deliveries(c: Config, prefix: Bytes, changes: seq<Change>): (ds: seq<Delivery>)
    ensures prefix !in c.keys ==> ds == []
    ensures prefix in c.keys ==> |ds| == |changes|
    ensures forall i | 0 <= i < |ds| :: prefix in c.keys && ds[i] == Delivery(prefix, c.keys[prefix].ctx, changes[i])
  {
    if prefix in c.keys
    then seq(|changes|, i requires 0 <= i < |changes| => Delivery(prefix, c.keys[prefix].ctx, changes[i]))
    else []
  }

  function Seen(c: Config, resp: Response): Config {
    c.(rev := if resp.header.Some? then resp.header else c.rev, requestedProgress := false, updated := true)
  }

  /** The callback asked for removal at least once. */
  predicate Removes(c: Config, prefix: Bytes, changes: seq<Change>, removes: seq<bool>) {
    prefix in c.keys && exists i :: 0 <= i < |changes| && i < |removes| && removes[i]
  }

  datatype Notified = Notified(config: Config, stream: Stream, deliveries: seq<Delivery>, removed: Option<Bytes>)

  /** A response that is not a failed watch setup; `removes` are the callback's answers, in order. */
  function Notify(c: Config, w: Stream, resp: Response, removes: seq<bool>): Notified {
    var w1 := if resp.created then w.(waiting := w.waiting - {resp.id}) else w;
    var c1 := Seen(c, resp);
    if resp.id !in w.ids then Notified(c1, w1, [], None)
    else
      var p := w.ids[resp.id];
      var c2 := Touch(c1, p, resp.changes);
      var ds := Deliveries(c, p, resp.changes);
      if Removes(c, p, resp.changes, removes)
      then Notified(c2.(keys := c2.keys - {p}), DelWatch(w1, p), ds, Some(p))
      else Notified(c2, w1, ds, None)
  }

  // ---- The states of the runner

  datatype WatchState =
    | Idle
    | Connecting
    | Watching(stream: Stream)
    | Reconnecting(attempts: nat)
    | Closed

  /** At most this many queued requests are taken before each reconnection attempt. */
  const DRIP := 100

  function DripCount(queue: seq<Request>): nat {
    if |queue| < DRIP then |queue| else DRIP
  }

  /** The queue reports its closing only once it has been found empty. */
  function Drip(c: Config, queue: seq<Request>, open: bool): Config {
    var c1 := ApplyAll(c, queue[..DripCount(queue)]);
    if |queue| < DRIP && !open then c1.(closed := true) else c1
  }

  function Connect(c: Config, ok: bool): WatchState {
    if c.closed then Closed
    else if ok then Watching(Connected(c.(requestedProgress := false)))
    else Reconnecting(0)
  }

  /** A failed attempt to reconnect is counted. */
  function Counted(s: WatchState, attempts: nat): WatchState {
    if s.Reconnecting? then Reconnecting(attempts + 1) else s
  }

  /** Some watch that etcd has not accepted was asked for too long ago. */
  predicate Overdue(w: Stream, late: set<int>) {
    exists id :: id in w.waiting && id in late
  }

  predicate Silence(c: Config, silent: bool) {
    c.updated && silent
  }

  // ---- What every stream keeps

  /** Ids are fresh and below the next one, a prefix's id leads back to it, and waiting ids are live. */
  ghost predicate StreamOk(w: Stream) {
    && w.next >= 1
    && (forall id | id in w.starts :: 1 <= id < w.next)
    && (forall id | id in w.ids :: id in w.starts)
    && (forall p | p in w.keys :: w.keys[p] in w.ids && w.ids[w.keys[p]] == p)
    && w.waiting <= w.ids.Keys
  }

  /** No prefix has an older watch id still live. */
  ghost predicate OneIdEach(w: Stream) {
    forall id | id in w.ids :: w.ids[id] in w.keys && w.keys[w.ids[id]] == id
  }

  /** Every prefix was asked for from where the configuration says it resumes. */
  ghost predicate Resumes(c: Config, w: Stream) {
    forall p | p in w.keys :: p in c.keys && w.keys[p] in w.starts && w.starts[w.keys[p]] == StartOf(c, p)
  }

  lemma AddWatchOk(w: Stream, prefix: Bytes, start: int)
    requires StreamOk(w)
    ensures StreamOk(AddWatch(w, prefix, start))
    ensures w.next !in w.ids && w.next !in w.starts
  {
  }

  /** Registering a prefix on a live stream leaves its older id alive, and only then are there two. */
  lemma AddWatchKeepsOneIdIff(w: Stream, prefix: Bytes, start: int)
    requires StreamOk(w) && OneIdEach(w)
    ensures OneIdEach(AddWatch(w, prefix, start)) <==> prefix !in w.keys
  {
    var w' := AddWatch(w, prefix, start);
    if prefix in w.keys {
      var older := w.keys[prefix];
      assert older in w'.ids && w'.ids[older] == prefix;
    }
  }

  lemma DelWatchOk(w: Stream, prefix: Bytes)
    requires StreamOk(w)
    ensures StreamOk(DelWatch(w, prefix)) && DelWatch(w, prefix).keys.Keys == w.keys.Keys - {prefix}
    ensures OneIdEach(w) ==> OneIdEach(DelWatch(w, prefix))
    ensures forall p | p in DelWatch(w, prefix).keys :: DelWatch(w, prefix).keys[p] == w.keys[p]
  {
  }

  lemma AddWatchResumes(c: Config, w: Stream, prefix: Bytes)
    requires StreamOk(w) && OneIdEach(w) && Resumes(c, w) && prefix in c.keys && prefix !in w.keys
    ensures var w' := AddWatch(w, prefix, StartOf(c, prefix));
            StreamOk(w') && OneIdEach(w') && Resumes(c, w') && w'.keys.Keys == w.keys.Keys + {prefix}
  {
    AddWatchOk(w, prefix, StartOf(c, prefix));
    AddWatchKeepsOneIdIff(w, prefix, StartOf(c, prefix));
  }

  lemma {:induction false} WatchAllOk(c: Config, ks: seq<Bytes>)
    requires Ascending(ks) && forall k | k in ks :: k in c.keys
    ensures var w := WatchAll(c, ks);
            && StreamOk(w) && OneIdEach(w) && w.next == |ks| + 1
            && (forall k :: k in w.keys <==> k in ks)
            && Resumes(c, w)
  {
    if ks != [] {
      var front, last := ks[..|ks| - 1], ks[|ks| - 1];
      assert last in ks && forall k | k in front :: k in ks;
      WatchAllOk(c, front);
      LessIrreflexive(last);
      assert last !in front && forall k :: k in ks <==> k in front || k == last;
      AddWatchResumes(c, WatchAll(c, front), last);
    }
  }

  lemma ConnectedOk(c: Config)
    ensures var w := Connected(c);
            && StreamOk(w) && OneIdEach(w) && w.keys.Keys == c.keys.Keys
            && Resumes(c, w)
  {
    WatchAllOk(c, Sorted(c.keys.Keys));
  }
}
