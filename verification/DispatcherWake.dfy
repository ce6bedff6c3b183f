/** No lost wake-up: a waiting dispatcher is always owed a signal if there is
    anything it could do. */
module DispatcherWake {
  import opened Arith
  import opened Dispatcher
  import opened DispatcherProofs

  /** The worker has taken packets and not yet passed its conditional wake. */
  predicate Owes(f: Flow) { f.worker == Got || f.worker == Waking }

  predicate StopOwes(w: World) { w.stop.Flagged? || w.stop.MixedDown? || w.stop.QueuesDown? }

  /** Nothing to do for flow i, or a wake has come or is still to come. */
  ghost predicate Settled(c: Config, w: World, i: nat)
    requires i < |w.flows|
  {
    var f := w.flows[i];
    |f.deferred| == 0 || |f.queue| == c.queueCap || Owes(f) || w.gen != w.seen || f.down
  }

  /** The flows looked at since the generation was read. */
  ghost predicate LookedAt(c: Config, w: World) {
    match w.pc
    case Draining(Second, examined, quota, false) =>
      quota == DEFERRED_QUOTA && forall x :: 0 <= x < examined && x < |w.flows| ==> Settled(c, w, Index(w.cursor, |w.flows|, x))
    case Checking => forall i :: 0 <= i < |w.flows| ==> Settled(c, w, i)
    case Waiting => forall i :: 0 <= i < |w.flows| ==> Settled(c, w, i)
    case _ => true
  }

  ghost predicate Stopping(w: World) {
    (w.stop.NotStopping? <==> w.running) &&
    (forall i :: 0 <= i < |w.flows| && w.flows[i].down ==> w.stop.QueuesDown? || w.stop.Woken?)
  }

  ghost predicate WakeInv(c: Config, w: World) {
    |w.flows| > 0 && w.seen <= w.gen && Stopping(w) && LookedAt(c, w) &&
    (w.pc == Waiting ==> w.gen == w.seen && w.total > 0 && !w.stop.Woken?) &&
    (w.pc == Blocking ==> w.total == 0)
  }

  // ---------------------------------------------------------------------

  /** Every flow is looked at within one round. */
  lemma RoundCovers(cursor: nat, n: nat, i: nat) returns (x: nat)
    requires i < n
    ensures x < n && Index(cursor, n, x) == i
  {
    var start := cursor % n;
    if i >= start {
      x := i - start;
      DivModOf(0, i, n);
    } else {
      x := i + n - start;
      DivModOf(1, i, n);
    }
  }

  lemma RoundDone(c: Config, w: World)
    requires |w.flows| > 0 && forall x :: 0 <= x < |w.flows| ==> Settled(c, w, Index(w.cursor, |w.flows|, x))
    ensures forall i :: 0 <= i < |w.flows| ==> Settled(c, w, i)
  {
    hide Index, Settled;
    forall i | 0 <= i < |w.flows| ensures Settled(c, w, i) {
      var x := RoundCovers(w.cursor, |w.flows|, i);
    }
  }

  lemma {:induction false} NothingDeferred(flows: seq<Flow>)
    requires Sum(flows) == 0
    ensures forall i :: 0 <= i < |flows| ==> |flows[i].deferred| == 0
  {
    if |flows| > 0 {
      NothingDeferred(flows[..|flows| - 1]);
      assert forall i :: 0 <= i < |flows| - 1 ==> flows[..|flows| - 1][i] == flows[i];
    }
  }

  lemma SettledSame(c: Config, w: World, w': World)
    requires w'.flows == w.flows && w'.gen == w.gen && w'.seen == w.seen
    ensures forall i :: 0 <= i < |w.flows| && Settled(c, w, i) ==> Settled(c, w', i)
  {}

  lemma DrainWake(c: Config, w: World)
    requires Inv(c, w) && WakeInv(c, w) && w.pc.Draining?
    ensures WakeInv(c, DrainStep(c, w))
  {
    hide Index, FlowOk, Sum, ActiveSet;
    var pc := w.pc;
    if w.total == 0 { NothingDeferred(w.flows); }
    if pc.pass == Second && !pc.progress && pc.examined >= |w.flows| { RoundDone(c, w); }
    var w' := DrainStep(c, w);
    if w'.flows == w.flows {
      SettledSame(c, w, w');
      assert forall i :: 0 <= i < |w.flows| && Settled(c, w, i) ==> Settled(c, w', i);
    }
  }

  lemma DispatchWake(c: Config, w: World)
    requires Inv(c, w) && WakeInv(c, w)
    ensures WakeInv(c, DispatcherStep(c, w))
  {
    hide Inv, Index, DrainStep, PopStep, Route;
    if w.pc.Draining? {
      DrainWake(c, w);
    } else if w.pc.Enqueued? {
      PopWake(c, w);
    } else if w.pc.Routing? && |w.batch| > 0 {
      RouteWake(c, w);
    } else if w.pc == Checking || w.pc == Waiting {
      SettledSame(c, w, DispatcherStep(c, w));
      assert forall i :: 0 <= i < |w.flows| ==> Settled(c, w, i);
    }
  }

  lemma PopWake(c: Config, w: World)
    requires WakeInv(c, w) && w.pc.Enqueued?
    ensures WakeInv(c, PopStep(w))
  {
    hide Index;
  }

  lemma RouteWake(c: Config, w: World)
    requires WakeInv(c, w) && w.pc.Routing? && |w.batch| > 0
    ensures WakeInv(c, Route(c, w, w.batch[0]).(batch := w.batch[1..]))
  {}

  /** A step of another thread: it settles no less, and moves the dispatcher at
      most out of its wait. */
  lemma OtherThread(c: Config, w: World, w': World)
    requires WakeInv(c, w) && |w'.flows| == |w.flows| && w'.cursor == w.cursor && w'.total == w.total && w'.seen == w.seen
    requires forall i :: 0 <= i < |w.flows| && Settled(c, w, i) ==> Settled(c, w', i)
    requires (w'.pc == w.pc && w'.gen == w.gen) || (w'.gen == w.gen + 1 && w'.pc == if w.pc == Waiting then Checking else w.pc)
    requires Stopping(w') && (w'.stop.Woken? ==> w.stop.Woken? || w'.gen == w.gen + 1)
    ensures WakeInv(c, w')
  {
    hide Settled, Index, Stopping;
  }

  /** A worker that takes packets owes a wake until it has seen the deferred
      count at zero or moved the generation. */
  lemma WorkerWake(c: Config, w: World, e: Event)
    requires WakeInv(c, w) && (e.EvDequeue? || e.EvLoadCount? || e.EvWake? || e.EvEmit? || e.EvAbort?) && e.flow < |w.flows|
    ensures WakeInv(c, WorkerStep(w, e))
  {
    hide Index, LookedAt;
    var w' := WorkerStep(w, e);
    forall i | 0 <= i < |w.flows| && Settled(c, w, i) ensures Settled(c, w', i) {
    }
    OtherThread(c, w, w');
  }

  lemma PushWake(c: Config, w: World, p: Packet)
    requires WakeInv(c, w)
    ensures WakeInv(c, Next(c, w, EvPush(p)))
  {
    hide Index, LookedAt;
    var w' := Next(c, w, EvPush(p));
    forall i | 0 <= i < |w.flows| && Settled(c, w, i) ensures Settled(c, w', i) {
    }
    OtherThread(c, w, w');
  }

  lemma StopWake(c: Config, w: World)
    requires WakeInv(c, w)
    ensures WakeInv(c, StopStep(w))
  {
    hide Index, LookedAt;
    var w' := StopStep(w);
    forall i | 0 <= i < |w.flows| && Settled(c, w, i) ensures Settled(c, w', i) {
    }
    OtherThread(c, w, w');
  }

  lemma StepWake(c: Config, w: World, e: Event)
    requires Inv(c, w) && WakeInv(c, w)
    ensures WakeInv(c, Next(c, w, e))
  {
    hide Inv, WakeInv, DispatcherStep, StopStep, WorkerStep;
    BatchRule(c, w);
    match e
    case EvDispatch => DispatchWake(c, w);
    case EvPush(p) => PushWake(c, w, p);
    case EvStop => StopWake(c, w);
    case _ => if e.flow < |w.flows| { WorkerWake(c, w, e); }
  }

  lemma {:induction false} RunWake(c: Config, n: nat, events: seq<Event>)
    requires n > 0
    ensures WakeInv(c, Run(c, n, events))
  {
    if |events| > 0 {
      hide Inv, WakeInv, Next;
      var k := |events| - 1;
      RunKeeps(c, n, events[..k]);
      RunWake(c, n, events[..k]);
      StepWake(c, Run(c, n, events[..k]), events[k]);
    }
  }

  /** While the dispatcher waits, its generation is current and every flow with
      deferred packets has a full queue, or a worker on the way to its wake, or
      the stopping thread is on the way to its own. */
  lemma NoLostWakeup(c: Config, n: nat, events: seq<Event>, i: nat)
    requires i < n && Run(c, n, events).pc == Waiting
    ensures var w := Run(c, n, events);
            w.gen == w.seen && w.total > 0 && (!w.running ==> StopOwes(w)) &&
            (|w.flows[i].deferred| > 0 ==> |w.flows[i].queue| == c.queueCap || Owes(w.flows[i]) || StopOwes(w))
  {
    hide Run;
    RunWake(c, n, events);
    assert Settled(c, Run(c, n, events), i);
  }

  /** The dispatcher blocks on the mixed queue only with nothing deferred. */
  lemma BlocksOnlyWhenDrained(c: Config, n: nat, events: seq<Event>, i: nat)
    requires i < n && Run(c, n, events).pc == Blocking
    ensures |Run(c, n, events).flows[i].deferred| == 0
  {
    hide Run;
    RunWake(c, n, events);
    CountersMatch(c, n, events);
    NothingDeferred(Run(c, n, events).flows);
  }
}
