/** What the health check goes by: the watches etcd has not accepted, and whether progress was asked for. */
module WatchHealth {
  import opened EtcdStore
  import opened ByteOrder
  import opened WatchSpec
  import opened WatchRuns

  // ---- Watches waiting for acceptance

  /** The ids of the current stream that etcd has said to have created. */
  ghost function Accepted(r: Run, k: nat): set<int>
    requires IsRun(r) && k < |r.states|
  {
    if k == 0 || !r.states[k - 1].state.Watching? || !r.states[k].state.Watching? then {}
    else Accepted(r, k - 1) + AcceptedAt(r, k - 1)
  }

  /** The id that the response at `m` says to be created, if it was asked for. */
  ghost function AcceptedAt(r: Run, m: nat): set<int>
    requires IsRun(r) && m < |r.events|
  {
    var w, e := r.states[m], r.events[m];
    if e.Receive? && e.resp.created && w.state.Watching? && e.resp.id in w.state.stream.starts then {e.resp.id} else {}
  }

  lemma WaitingOnJoin(w: World, e: Event)
    requires Inv(w) && Enabled(w, e) && !w.state.Watching? && Next(w, e).state.Watching?
    ensures Next(w, e).state.stream.waiting == Next(w, e).state.stream.ids.Keys
  {
    var c := Next(w, e).config;
    AllWaiting(c, Sorted(c.keys.Keys));
  }

  lemma {:induction false} AllWaiting(c: Config, ks: seq<Bytes>)
    requires forall k | k in ks :: k in c.keys
    ensures WatchAll(c, ks).waiting == WatchAll(c, ks).ids.Keys
  {
    if ks != [] {
      assert forall k | k in ks[..|ks| - 1] :: k in ks;
      AllWaiting(c, ks[..|ks| - 1]);
    }
  }

  /** `waiting` is what of the stream is not in `accepted`, which was all asked for. */
  ghost predicate Unaccepted(s: Stream, accepted: set<int>) {
    s.waiting == s.ids.Keys - accepted && accepted <= s.starts.Keys
  }

  lemma AddUnaccepted(s: Stream, p: Bytes, start: int, accepted: set<int>)
    requires StreamOk(s) && Unaccepted(s, accepted)
    ensures Unaccepted(AddWatch(s, p, start), accepted)
  {
  }

  lemma DelUnaccepted(s: Stream, p: Bytes, accepted: set<int>)
    requires StreamOk(s) && Unaccepted(s, accepted)
    ensures Unaccepted(DelWatch(s, p), accepted)
  {
  }

  lemma NotifyUnaccepted(c: Config, s: Stream, resp: Response, removes: seq<bool>, accepted: set<int>)
    requires StreamOk(s) && Unaccepted(s, accepted)
    ensures Unaccepted(Notify(c, s, resp, removes).stream,
                       accepted + if resp.created && resp.id in s.starts then {resp.id} else {})
  {
    var s1 := if resp.created then s.(waiting := s.waiting - {resp.id}) else s;
    var accepted' := accepted + if resp.created && resp.id in s.starts then {resp.id} else {};
    assert Unaccepted(s1, accepted');
    if resp.id in s.ids {
      DelUnaccepted(s1, s.ids[resp.id], accepted');
    }
  }

  lemma WaitingStep(r: Run, k: nat)
    requires IsRun(r) && k < |r.events| && r.states[k].state.Watching? && r.states[k + 1].state.Watching?
    requires Unaccepted(r.states[k].state.stream, Accepted(r, k))
    ensures Unaccepted(r.states[k + 1].state.stream, Accepted(r, k + 1))
  {
    InvAt(r, k);
    assert StepAt(r, k);
    var w, e := r.states[k], r.events[k];
    if e.Receive? {
      NotifyUnaccepted(w.config, w.state.stream, e.resp, e.removes, Accepted(r, k));
    } else if e.TakeRequest? && w.queue != [] {
      var q := w.queue[0];
      DelUnaccepted(w.state.stream, q.prefix, Accepted(r, k));
      if q.Register? {
        AddUnaccepted(w.state.stream, q.prefix, if q.rev.Some? then q.rev.value else 0, Accepted(r, k));
      }
    }
  }

  /** At every moment, the watches waiting are exactly those of the stream that etcd has not said to have created. */
  lemma {:induction false} WaitingIsUnaccepted(r: Run, k: nat)
    requires IsRun(r) && k < |r.states| && r.states[k].state.Watching?
    ensures Unaccepted(r.states[k].state.stream, Accepted(r, k))
  {
    assert k > 0;
    assert StepAt(r, k - 1);
    if r.states[k - 1].state.Watching? {
      WaitingIsUnaccepted(r, k - 1);
      WaitingStep(r, k - 1);
    } else {
      InvAt(r, k - 1);
      WaitingOnJoin(r.states[k - 1], r.events[k - 1]);
    }
  }

  // ---- Asking for progress

  /** A check at `m` finds no watch overdue, and no response for too long. */
  ghost predicate SilentAt(r: Run, m: nat)
    requires IsRun(r) && m < |r.events|
  {
    var w, e := r.states[m], r.events[m];
    && e.HealthCheck? && e.silent && w.state.Watching? && !Overdue(w.state.stream, e.late)
    && exists j: nat :: j < m && RespondsAt(r, j)
  }

  /** A response other than that of a failed setup. */
  ghost predicate RespondsAt(r: Run, m: nat)
    requires IsRun(r) && m < |r.events|
  {
    r.events[m].Receive? && !(r.events[m].resp.created && r.events[m].resp.canceled)
  }

  /** What ends a silence: a response, or an attempt to connect. */
  ghost predicate BreaksAt(r: Run, m: nat)
    requires IsRun(r) && m < |r.events|
  {
    RespondsAt(r, m) || r.events[m].ConnectStep? || r.events[m].ReconnectStep?
  }

  /** A check has been silent, and nothing has ended the silence since. */
  ghost predicate SilentSince(r: Run, k: nat)
    requires IsRun(r) && k < |r.states|
  {
    exists m: nat :: m < k && SilentAt(r, m) && forall j: nat | m < j < k :: !BreaksAt(r, j)
  }

  ghost predicate Heard(r: Run, k: nat)
    requires IsRun(r) && k < |r.states|
  {
    exists j: nat :: j < k && RespondsAt(r, j)
  }

  lemma NotifySigns(c: Config, s: Stream, resp: Response, removes: seq<bool>)
    ensures var n := Notify(c, s, resp, removes).config; n.updated && !n.requestedProgress
  {
  }

  lemma TakeSigns(w: World, ok: bool)
    requires w.state.Watching?
    ensures var c := ApplyTake(w, ok).config;
            c.updated == w.config.updated && c.requestedProgress == w.config.requestedProgress
  {
  }

  lemma JoinSigns(w: World, e: Event)
    requires Enabled(w, e) && (e.ConnectStep? || e.ReconnectStep?)
    ensures Next(w, e).config.updated == w.config.updated && !Next(w, e).config.requestedProgress
  {
    ApplyAllKeepsSigns(w.config, w.queue[..DripCount(w.queue)]);
  }

  /** What each event does to the two signs. */
  lemma SignsStep(w: World, e: Event)
    requires Enabled(w, e)
    ensures var c, d := w.config, Next(w, e).config;
            var responds := e.Receive? && !(e.resp.created && e.resp.canceled);
            && (d.updated <==> c.updated || responds)
            && (d.requestedProgress <==>
                  && !responds && !e.ConnectStep? && !e.ReconnectStep?
                  && (|| c.requestedProgress
                      || (e.HealthCheck? && e.silent && c.updated && !Overdue(w.state.stream, e.late))))
  {
    match e
    case Receive(resp, removes) => NotifySigns(w.config, w.state.stream, resp, removes);
    case TakeRequest(ok) => TakeSigns(w, ok);
    case ConnectStep(_) => JoinSigns(w, e);
    case ReconnectStep(_) => JoinSigns(w, e);
    case _ =>
  }

  lemma {:induction false} ApplyAllKeepsSigns(c: Config, rs: seq<Request>)
    ensures ApplyAll(c, rs).updated == c.updated && ApplyAll(c, rs).requestedProgress == c.requestedProgress
  {
    if rs != [] {
      ApplyAllKeepsSigns(c, rs[..|rs| - 1]);
    }
  }

  lemma {:induction false} UpdatedIsHeard(r: Run, k: nat)
    requires IsRun(r) && k < |r.states|
    ensures r.states[k].config.updated <==> Heard(r, k)
  {
    if k > 0 {
      UpdatedIsHeard(r, k - 1);
      assert StepAt(r, k - 1);
      SignsStep(r.states[k - 1], r.events[k - 1]);
      assert Heard(r, k) <==> Heard(r, k - 1) || RespondsAt(r, k - 1);
    }
  }

  lemma ProgressStep(r: Run, k: nat)
    requires IsRun(r) && k < |r.events|
    ensures r.states[k + 1].config.requestedProgress <==>
            !BreaksAt(r, k) && (r.states[k].config.requestedProgress || SilentAt(r, k))
  {
    assert StepAt(r, k);
    UpdatedIsHeard(r, k);
    SignsStep(r.states[k], r.events[k]);
  }

  /** Progress stands requested exactly when a check was silent and nothing has been heard or connected since. */
  lemma {:induction false} RequestedIsSilent(r: Run, k: nat)
    requires IsRun(r) && k < |r.states|
    ensures r.states[k].config.requestedProgress <==> SilentSince(r, k)
  {
    if k > 0 {
      RequestedIsSilent(r, k - 1);
      ProgressStep(r, k - 1);
      SilentSinceStep(r, k - 1);
    }
  }

  lemma SilentSinceStep(r: Run, k: nat)
    requires IsRun(r) && k < |r.events|
    ensures SilentSince(r, k + 1) <==> !BreaksAt(r, k) && (SilentSince(r, k) || SilentAt(r, k))
  {
    if SilentSince(r, k + 1) {
      var m: nat :| m < k + 1 && SilentAt(r, m) && forall j: nat | m < j < k + 1 :: !BreaksAt(r, j);
    }
    if SilentSince(r, k) && !BreaksAt(r, k) {
      var m: nat :| m < k && SilentAt(r, m) && forall j: nat | m < j < k :: !BreaksAt(r, j);
      assert forall j: nat | m < j < k + 1 :: !BreaksAt(r, j);
    }
  }

  /**
   A health check gives up the stream exactly when a watch not accepted by etcd
   was asked for too long ago, or when it is the second silent one in a row.
   */
  lemma CheckGivesUpIff(r: Run, k: nat)
    requires IsRun(r) && k < |r.events| && r.events[k].HealthCheck?
    ensures r.states[k].state.Watching?
    ensures var stream := r.states[k].state.stream;
            r.states[k + 1].state != r.states[k].state <==>
            || (exists id :: id in stream.ids && id !in Accepted(r, k) && id in r.events[k].late)
            || (SilentAt(r, k) && SilentSince(r, k))
    ensures r.states[k + 1].state != r.states[k].state ==> r.states[k + 1].state == Reconnecting(0)
  {
    assert StepAt(r, k);
    WaitingIsUnaccepted(r, k);
    UpdatedIsHeard(r, k);
    RequestedIsSilent(r, k);
  }
}
