/** How the runner comes to an end, and how often it has tried to reconnect. */
module WatchStates {
  import opened WatchSpec
  import opened WatchRuns

  // ---- Shutting down

  /** The runner learns that no more requests come only where it looks for one. */
  predicate Looks(e: Event) {
    e.TakeIdle? || e.TakeRequest? || e.ReconnectStep?
  }

  lemma {:induction false} ClosedWhenSeen(r: Run, k: nat)
    requires IsRun(r) && k < |r.states| && r.states[k].config.closed
    ensures r.states[k].state.Closed?
  {
    if k > 0 {
      var w, e := r.states[k - 1], r.events[k - 1];
      assert StepAt(r, k - 1);
      if w.config.closed {
        ClosedWhenSeen(r, k - 1);
        InvAt(r, k - 1);
      } else {
        SeenOnStep(w, e);
      }
    }
  }

  lemma SeenOnReconnect(w: World, ok: bool)
    requires w.state.Reconnecting? && !w.config.closed
    ensures var next := ApplyReconnect(w, ok);
            (next.config.closed <==> !w.open && |w.queue| < 100) && (next.config.closed ==> next.state.Closed?)
  {
    ApplyAllKeeps(w.config, w.queue[..DripCount(w.queue)]);
  }

  lemma SeenOnStep(w: World, e: Event)
    requires Enabled(w, e) && !w.config.closed
    ensures Next(w, e).config.closed <==> e.ReconnectStep? && !w.open && |w.queue| < 100
    ensures Next(w, e).config.closed ==> Next(w, e).state.Closed?
  {
    if e.ReconnectStep? {
      SeenOnReconnect(w, e.ok);
    }
  }

  /**
   The runner closes exactly when the queue is closed and it finds nothing in
   it: at once when it takes single requests, and before a reconnection only
   after fewer than a hundred.
   */
  lemma ClosesIff(r: Run, k: nat)
    requires IsRun(r) && k < |r.events|
    ensures !r.states[k].state.Closed?
    ensures r.states[k + 1].state.Closed? <==>
              && !r.states[k].open && Looks(r.events[k])
              && |r.states[k].queue| < if r.events[k].ReconnectStep? then 100 else 1
    ensures r.states[k + 1].state.Closed? ==> Requests(r.states[k + 1].ops) == r.states[k + 1].sent
  {
    assert StepAt(r, k);
    InvAt(r, k);
    InvAt(r, k + 1);
    if r.states[k].config.closed {
      ClosedWhenSeen(r, k);
      assert false;
    }
    SeenOnStep(r.states[k], r.events[k]);
  }

  /** How often the runner looked for a request from state `k` on. */
  function LooksIn(r: Run, k: nat, l: nat): nat
    requires k <= l <= |r.events|
  {
    if k == l then 0 else LooksIn(r, k, l - 1) + if Looks(r.events[l - 1]) then 1 else 0
  }

  /** Once the queue is closed, every look takes a request or ends the runner. */
  lemma {:induction false} LooksBounded(r: Run, k: nat, l: nat)
    requires IsRun(r) && k <= l < |r.states| && !r.states[k].open
    ensures !r.states[l].open
    ensures r.states[l].state.Closed? || LooksIn(r, k, l) + |r.states[l].queue| <= |r.states[k].queue|
  {
    if k < l {
      LooksBounded(r, k, l - 1);
      assert StepAt(r, l - 1);
      ClosesIff(r, l - 1);
    }
  }

  /** So the runner ends, with everything sent applied, after one look more than there were requests. */
  lemma ShutsDown(r: Run, k: nat, l: nat)
    requires IsRun(r) && k <= l < |r.states| && !r.states[k].open && LooksIn(r, k, l) > |r.states[k].queue|
    ensures r.states[l].state.Closed? && Requests(r.states[l].ops) == r.states[k].sent && l == |r.events|
  {
    LooksBounded(r, k, l);
    SentSame(r, k, l);
    InvAt(r, l);
    assert Requests(r.states[l].ops) + [] == Requests(r.states[l].ops);
    if l < |r.events| {
      ClosesIff(r, l);
    }
  }

  lemma {:induction false} SentSame(r: Run, k: nat, l: nat)
    requires IsRun(r) && k <= l < |r.states| && !r.states[k].open
    ensures !r.states[l].open && r.states[l].sent == r.states[k].sent
  {
    if k < l {
      SentSame(r, k, l - 1);
      assert StepAt(r, l - 1);
    }
  }

  // ---- Connecting

  /** A registration has been taken from the queue. */
  ghost predicate EverAsked(ops: seq<TableOp>) {
    exists op :: op in ops && op.Asked? && op.request.Register?
  }

  /** The runner stays idle exactly until it takes a registration or ends. */
  lemma {:induction false} IdleIff(r: Run, k: nat)
    requires IsRun(r) && k < |r.states|
    ensures r.states[k].state.Idle? <==> !r.states[k].state.Closed? && !EverAsked(r.states[k].ops)
  {
    if k > 0 {
      IdleIff(r, k - 1);
      ClosesIff(r, k - 1);
      OpsGrow(r, k - 1, k);
      assert StepAt(r, k - 1);
      if r.states[k - 1].state.Idle? {
        IdleStep(r.states[k - 1], r.events[k - 1]);
      }
    }
  }

  lemma IdleStep(w: World, e: Event)
    requires Enabled(w, e) && w.state.Idle? && !EverAsked(w.ops)
    ensures Next(w, e).state.Idle? <==> !Next(w, e).state.Closed? && !EverAsked(Next(w, e).ops)
  {
    if e.TakeIdle? && w.queue != [] {
      var op := Asked(w.queue[0]);
      assert op in Next(w, e).ops;
    }
  }

  /** An attempt that does not end the runner leads to a stream exactly when it succeeds. */
  lemma AttemptVerdict(r: Run, k: nat)
    requires IsRun(r) && k < |r.events| && (r.events[k].ConnectStep? || r.events[k].ReconnectStep?)
    ensures var next := r.states[k + 1];
            && (next.state.Watching? <==> r.events[k].ok && !next.state.Closed?)
            && (next.state.Reconnecting? <==> !r.events[k].ok && !next.state.Closed?)
            && (next.state.Watching? ==> next.state.stream.keys.Keys == Fold(next.ops).Keys)
  {
    assert StepAt(r, k);
    TableIsTheFold(r, k + 1);
    ClosesIff(r, k);
  }

  // ---- Attempts

  /** The reconnections that failed since the last stream was given up. */
  ghost function Failures(r: Run, k: nat): nat
    requires IsRun(r) && k < |r.states|
  {
    if k == 0 || !r.states[k - 1].state.Reconnecting? then 0
    else Failures(r, k - 1) + if r.events[k - 1].ReconnectStep? then 1 else 0
  }

  /** The count the runner carries is the number of those. */
  lemma {:induction false} AttemptsAreFailures(r: Run, k: nat)
    requires IsRun(r) && k < |r.states| && r.states[k].state.Reconnecting?
    ensures r.states[k].state.attempts == Failures(r, k)
  {
    if k > 0 {
      assert StepAt(r, k - 1);
      if r.states[k - 1].state.Reconnecting? {
        AttemptsAreFailures(r, k - 1);
      }
    }
  }
}
