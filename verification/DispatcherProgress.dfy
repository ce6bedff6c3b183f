/** What the dispatcher does with every packet, and that it comes to rest only
    with everything done that it can do. */
module DispatcherProgress {
  import opened Arith
  import opened Dispatcher
  import opened DispatcherProofs
  import opened DispatcherWake

  // ---------------------------------------------------------------------
  // One packet.

  /** From f to f' packet p of a flow was routed: dropped as overflow exactly when
      the deferred ring is full and p cannot go straight into the queue; dropped
      for shutdown exactly when the queue is down and nothing is deferred;
      otherwise last in the queue exactly when nothing is deferred and the queue
      has room, and else last in the deferred ring. */
  ghost predicate PacketRouted(c: Config, f: Flow, f': Flow, p: Packet, errors: nat) {
    var straight := f.deferred == [] && !f.down && |f.queue| < c.queueCap;
    var shut := f.deferred == [] && f.down;
    var overflow := |f.deferred| == c.mixedCap && !straight && !shut;
    f' == f.(queue := f'.queue, deferred := f'.deferred, overflows := f'.overflows, routed := f'.routed) &&
    f'.routed == f.routed + [Routed(p, if overflow then Overflowed else if shut then ShutDown else Sent)] &&
    f'.overflows == f.overflows + errors && errors == (if overflow then 1 else 0) &&
    f'.queue == (if straight then f.queue + [p] else f.queue) &&
    f'.deferred == (if straight || overflow || shut then f.deferred else f.deferred + [p])
  }

  lemma RouteFlowExact(c: Config, w: World, p: Packet)
    requires p.flow < |w.flows| && |w.flows[p.flow].queue| <= c.queueCap && |w.flows[p.flow].deferred| <= c.mixedCap
    ensures var w' := Route(c, w, p);
            w'.routeErrors >= w.routeErrors && PacketRouted(c, w.flows[p.flow], w'.flows[p.flow], p, w'.routeErrors - w.routeErrors)
  {}

  /** In every run, the packet at the front of the batch is routed so, or counted
      as an error for an unknown flow; nothing else changes in any flow. */
  lemma RoutesExactly(c: Config, n: nat, events: seq<Event>)
    requires n > 0 && Run(c, n, events).pc.Routing? && Run(c, n, events).batch != []
    ensures var w := Run(c, n, events);
            var w' := Run(c, n, events + [EvDispatch]);
            var p := w.batch[0];
            w'.batch == w.batch[1..] && w'.mixed == w.mixed && w'.pc == w.pc && w'.routeErrors >= w.routeErrors &&
            (forall j :: 0 <= j < n && j != p.flow ==> w'.flows[j] == w.flows[j]) &&
            if p.flow >= n then w'.routeErrors == w.routeErrors + 1
            else PacketRouted(c, w.flows[p.flow], w'.flows[p.flow], p, w'.routeErrors - w.routeErrors)
  {
    CountersMatch(c, n, events);
    LastStep(c, n, events, EvDispatch);
    var w := Run(c, n, events);
    var p := w.batch[0];
    hide Run, PacketRouted, Sum, ActiveSet;
    RouteScope(c, w, p);
    if p.flow < n { RouteFlowExact(c, w, p); }
    forall j | 0 <= j < n && j != p.flow ensures Route(c, w, p).flows[j] == w.flows[j] { RouteOthers(c, w, p, j); }
    assert p.flow >= n ==> Route(c, w, p).routeErrors == w.routeErrors + 1;
    hide Route;
  }

  lemma LastStep(c: Config, n: nat, events: seq<Event>, e: Event)
    requires n > 0
    ensures Run(c, n, events + [e]) == Next(c, Run(c, n, events), e)
  {
    assert (events + [e])[..|events|] == events;
  }

  /** A push goes to the back of the mixed queue exactly when that is up and has
      room. */
  lemma PushExact(c: Config, w: World, p: Packet)
    requires |w.flows| > 0
    ensures var w' := Next(c, w, EvPush(p));
            w'.mixed == (if !w.mixedDown && |w.mixed| < c.mixedCap then w.mixed + [p] else w.mixed) &&
            w'.pc == w.pc && w'.batch == w.batch
  {}

  /** A worker that holds packets, going on: the dispatcher is woken exactly when
      packets of the flow were deferred when it looked, and the first packet is
      emitted or freed. */
  lemma WorkerHandles(c: Config, n: nat, events: seq<Event>, i: nat, ok: bool)
    requires i < n && Run(c, n, events).flows[i].worker == Got
    ensures var w := Run(c, n, events);
            var v := Run(c, n, events + [EvLoadCount(i), EvWake(i), EvEmit(i, ok)]);
            var f, g := w.flows[i], v.flows[i];
            |f.held| > 0 && v.gen == w.gen + (if f.deferred != [] then 1 else 0) &&
            g.handled == f.handled + [Handled(f.held[0], ok)] && g.held == f.held[1..] && g.queue == f.queue && g.deferred == f.deferred &&
            g.worker == if |f.held| > 1 then Got else Idle
  {
    RunKeeps(c, n, events);
    var w := Run(c, n, events);
    assert |w.flows[i].held| > 0 by {
      assert FlowOk(c, w.flows[i], i, w.batch, w.mixed, Moving(w, i));
    }
    LastStep(c, n, events, EvLoadCount(i));
    LastStep(c, n, events + [EvLoadCount(i)], EvWake(i));
    LastStep(c, n, events + [EvLoadCount(i)] + [EvWake(i)], EvEmit(i, ok));
    assert events + [EvLoadCount(i), EvWake(i), EvEmit(i, ok)] == events + [EvLoadCount(i)] + [EvWake(i)] + [EvEmit(i, ok)];
    hide Run, Inv;
    ThreeSteps(c, w, i, ok);
    hide Next;
  }

  lemma ThreeSteps(c: Config, w: World, i: nat, ok: bool)
    requires i < |w.flows| && w.flows[i].worker == Got && |w.flows[i].held| > 0
    ensures var v := Next(c, Next(c, Next(c, w, EvLoadCount(i)), EvWake(i)), EvEmit(i, ok));
            var f, g := w.flows[i], v.flows[i];
            v.gen == w.gen + (if f.deferred != [] then 1 else 0) &&
            g == f.(handled := f.handled + [Handled(f.held[0], ok)], held := f.held[1..], worker := if |f.held| > 1 then Got else Idle)
  {
    hide DispatcherStep, StopStep;
    var f := w.flows[i];
    var w1 := Next(c, w, EvLoadCount(i));
    assert w1.gen == w.gen && w1.flows[i] == f.(worker := if |f.deferred| > 0 then Waking else Emitting);
    var w2 := Next(c, w1, EvWake(i));
    assert w2.gen == w.gen + (if f.deferred != [] then 1 else 0) && w2.flows[i] == f.(worker := Emitting);
  }

  /** An idle worker takes the front of its queue, as many as asked for. */
  lemma WorkerTakes(c: Config, n: nat, events: seq<Event>, i: nat, m: nat)
    requires i < n && Run(c, n, events).flows[i].worker == Idle && 0 < m <= 32 && m <= |Run(c, n, events).flows[i].queue|
    ensures var f, g := Run(c, n, events).flows[i], Run(c, n, events + [EvDequeue(i, m)]).flows[i];
            g.queue == f.queue[m..] && g.held == f.queue[..m] && g.worker == Got
  {
    RunKeeps(c, n, events);
    assert |Run(c, n, events).flows[i].held| == 0 by {
      var w := Run(c, n, events);
      assert FlowOk(c, w.flows[i], i, w.batch, w.mixed, Moving(w, i));
    }
    LastStep(c, n, events, EvDequeue(i, m));
    hide Run, Inv;
  }

  // ---------------------------------------------------------------------
  // One flow's turn in a drain.

  function Steps(c: Config, w: World, k: nat): (v: World)
    requires |w.flows| > 0
    ensures |v.flows| == |w.flows|
    decreases k
  {
    if k == 0 then w else Steps(c, DispatcherStep(c, w), k - 1)
  }

  /** What a turn of at most q packets moves: as many as are deferred and fit. */
  function Moved(c: Config, f: Flow, q: nat): (m: nat) {
    Min(q, Min(|f.deferred|, if |f.queue| < c.queueCap then c.queueCap - |f.queue| else 0))
  }

  /** The dispatcher is at flow i, with q attempts left. */
  ghost predicate AtFlow(w: World, i: nat, q: nat) {
    w.pc.Draining? && w.pc.quota == q && w.pc.examined < |w.flows| && Index(w.cursor, |w.flows|, w.pc.examined) == i
  }

  /** One packet: into the queue, then off the deferred ring. */
  lemma MovesOne(c: Config, w: World, i: nat, q: nat)
    requires Inv(c, w) && AtFlow(w, i, q) && !w.flows[i].down && Moved(c, w.flows[i], q) > 0
    ensures var f := w.flows[i];
            var v := DispatcherStep(c, DispatcherStep(c, w));
            v.flows == w.flows[i := f.(queue := f.queue + [f.deferred[0]], deferred := f.deferred[1..])] &&
            v.pc == Draining(w.pc.pass, w.pc.examined, q - 1, true) && v.cursor == w.cursor
  {
    hide Index;
    assert w.total > 0 by { SumUpdate(w.flows, i, w.flows[i]); }
    hide Sum, ActiveSet, FlowsOk, Route;
  }

  lemma MovesOn(c: Config, w: World, i: nat, q: nat)
    requires Inv(c, w) && AtFlow(w, i, q) && !w.flows[i].down && Moved(c, w.flows[i], q) == 0
    requires w.flows[i].deferred != [] || w.pc.progress
    ensures var v := DispatcherStep(c, w);
            v.flows == w.flows && v.pc == Draining(w.pc.pass, w.pc.examined + 1, 8, w.pc.progress) && v.cursor == w.cursor
  {
    assert FlowOk(c, w.flows[i], i, w.batch, w.mixed, Moving(w, i));
    hide Index;
    assert w.flows[i].deferred != [] ==> w.total > 0 by { SumUpdate(w.flows, i, w.flows[i]); }
    hide Sum, ActiveSet, FlowsOk, Route, FlowOk;
  }

  /** A flow's turn, left to itself, moves exactly the first packets of its deferred
      ring to the back of its queue: eight, or as many as are deferred and fit. */
  lemma {:induction false} TurnExactly(c: Config, w: World, i: nat, q: nat)
    requires Inv(c, w) && AtFlow(w, i, q) && !w.flows[i].down && (w.flows[i].deferred != [] || w.pc.progress)
    ensures var f, m := w.flows[i], Moved(c, w.flows[i], q);
            m <= |f.deferred| &&
            var v := Steps(c, w, 2 * m + 1);
            v.flows == w.flows[i := f.(queue := f.queue + f.deferred[..m], deferred := f.deferred[m..])] &&
            v.pc == Draining(w.pc.pass, w.pc.examined + 1, 8, w.pc.progress || m > 0)
    decreases q
  {
    hide Inv, DispatcherStep, Index;
    var f, m := w.flows[i], Moved(c, w.flows[i], q);
    if m == 0 {
      MovesOn(c, w, i, q);
      assert Steps(c, w, 1) == Steps(c, DispatcherStep(c, w), 0);
      assert f.queue + f.deferred[..0] == f.queue && f.deferred[0..] == f.deferred;
    } else {
      MovesOne(c, w, i, q);
      var w1 := DispatcherStep(c, w);
      var v := DispatcherStep(c, w1);
      DispatchKeeps(c, w);
      DispatchKeeps(c, w1);
      TurnExactly(c, v, i, q - 1);
      assert Steps(c, w, 2 * m + 1) == Steps(c, w1, 2 * m) == Steps(c, v, 2 * (m - 1) + 1);
      var g := v.flows[i];
      assert g.queue + g.deferred[..m - 1] == f.queue + f.deferred[..m] && g.deferred[m - 1..] == f.deferred[m..];
    }
  }

  /** Every turn begins with eight attempts. */
  lemma TurnsStartFull(pass: Pass)
    ensures StartDrain(pass) == Draining(pass, 0, 8, false)
  {}

  // ---------------------------------------------------------------------
  // Rest.

  /** While the manager runs the dispatcher is not in its last round, and a second
      drain is made only for deferred packets. */
  ghost predicate Alive(w: World) {
    (w.running ==> w.stop.NotStopping? && !w.mixedDown && !w.pc.Stopped? &&
                   (w.pc.Draining? || w.pc.Enqueued? ==> w.pc.pass != Last)) &&
    (w.pc.Snapping? || (w.pc.Draining? && w.pc.pass == Second && !w.pc.progress) ==> w.total > 0) &&
    (w.pc.Draining? || w.pc.Enqueued? ==> w.pc.quota <= DEFERRED_QUOTA)
  }

  lemma DispatchAlive(c: Config, w: World)
    requires |w.flows| > 0 && Alive(w)
    ensures Alive(DispatcherStep(c, w))
  {
    hide Route, Index;
    if w.pc.Routing? && |w.batch| > 0 { RouteScope(c, w, w.batch[0]); RouteFlags(c, w, w.batch[0]); }
  }

  lemma RouteFlags(c: Config, w: World, p: Packet)
    ensures var w' := Route(c, w, p); w'.running == w.running && w'.mixedDown == w.mixedDown && w'.stop == w.stop && w'.gen == w.gen && w'.seen == w.seen
  {}

  lemma StepAlive(c: Config, w: World, e: Event)
    requires |w.flows| > 0 && Alive(w)
    ensures Alive(Next(c, w, e))
  {
    hide DispatcherStep;
    DispatchAlive(c, w);
  }

  lemma {:induction false} RunAlive(c: Config, n: nat, events: seq<Event>)
    requires n > 0
    ensures Alive(Run(c, n, events))
  {
    if |events| > 0 {
      hide Next, Alive;
      RunAlive(c, n, events[..|events| - 1]);
      StepAlive(c, Run(c, n, events[..|events| - 1]), events[|events| - 1]);
    } else {
      assert Alive(Start(n));
    }
  }

  /** Asleep until a worker or the stopping thread wakes it, or blocked on an empty
      mixed queue. */
  predicate AtRest(w: World) { w.pc == Waiting || (w.pc == Blocking && w.mixed == []) }

  /** The generation moved since it was read, or nothing is deferred any more. */
  predicate Outdated(w: World) { w.gen != w.seen || w.total == 0 }

  function Flag(b: bool): (n: nat) { if b then 1 else 0 }

  /** Packets still to be routed, a packet in the batch weighing less. */
  function ToRoute(w: World): (n: nat) { 2 * |w.mixed| + |w.batch| }

  /** Packets still deferred, and progress not yet acted on. */
  function ToDrain(w: World): (n: nat) {
    2 * w.total + Flag((w.pc.Draining? && w.pc.progress) || (w.pc.Polling? && w.pc.progress))
  }

  function Phase(w: World): (n: nat) {
    match w.pc
    case Routing(_) => 12
    case Draining(Second, _, _, _) => if w.gen != w.seen then 11 else 3
    case Enqueued(Second, _, _) => if w.gen != w.seen then 11 else 3
    case Checking => if Outdated(w) then 10 else 2
    case Top => 9
    case Draining(_, _, _, _) => 8
    case Enqueued(_, _, _) => 8
    case Polling(_) => 7
    case Deciding => 6
    case Snapping => 5
    case Blocking => 1
    case Waiting => 1
    case Stopped => 0
  }

  /** Flows not yet looked at in this round, and attempts left on this one. */
  function Unseen(w: World): (n: nat) {
    if (w.pc.Draining? || w.pc.Enqueued?) && w.pc.examined < |w.flows| then |w.flows| - w.pc.examined else 0
  }

  function Attempts(w: World): (n: nat) {
    if w.pc.Draining? then 2 * w.pc.quota + 1 else if w.pc.Enqueued? then 2 * w.pc.quota else 0
  }

  ghost predicate Less(v: World, w: World) {
    ToRoute(v) < ToRoute(w) || (ToRoute(v) == ToRoute(w) &&
    (ToDrain(v) < ToDrain(w) || (ToDrain(v) == ToDrain(w) &&
    (Phase(v) < Phase(w) || (Phase(v) == Phase(w) &&
    (Unseen(v) < Unseen(w) || (Unseen(v) == Unseen(w) && Attempts(v) < Attempts(w))))))))
  }

  lemma DrainLess(c: Config, w: World)
    requires Inv(c, w) && Alive(w) && w.running && w.pc.Draining?
    ensures Less(DrainStep(c, w), w)
  {
    hide Inv, Index;
  }

  lemma PopLess(c: Config, w: World)
    requires Inv(c, w) && w.pc.Enqueued?
    ensures Less(PopStep(w), w)
  {
    hide Index;
    var i := Index(w.cursor, |w.flows|, w.pc.examined);
    assert FlowOk(c, w.flows[i], i, w.batch, w.mixed, Moving(w, i));
    SumUpdate(w.flows, i, w.flows[i]);
    hide FlowOk, Sum;
  }

  lemma RouteLess(c: Config, w: World)
    requires w.pc.Routing? && |w.batch| > 0 && |w.flows| > 0
    ensures Less(DispatcherStep(c, w), w)
  {
    hide Route;
    RouteScope(c, w, w.batch[0]);
  }

  /** Every step of a dispatcher that is not at rest leaves less to do. */
  lemma StepLess(c: Config, w: World)
    requires Inv(c, w) && Alive(w) && w.running && !AtRest(w)
    ensures |w.flows| > 0 && Less(DispatcherStep(c, w), w)
  {
    BatchRule(c, w);
    hide Inv, DrainStep, PopStep, Route;
    match w.pc {
      case Draining(_, _, _, _) => DrainLess(c, w);
      case Enqueued(_, _, _) => PopLess(c, w);
      case Routing(_) => if |w.batch| > 0 { RouteLess(c, w); }
      case _ =>
    }
  }

  function Dispatches(n: nat): (events: seq<Event>) { seq(n, i => EvDispatch) }

  /** Everything that had to be polled has been. */
  ghost predicate Polled(w: World) {
    (w.pc.Deciding? || w.pc.Snapping? || w.pc.Checking? || w.pc.Waiting? || w.pc.Blocking? ||
     (w.pc.Draining? && w.pc.pass == Second) || (w.pc.Enqueued? && w.pc.pass == Second)) ==> w.mixed == []
  }

  lemma StepPolled(c: Config, w: World)
    requires |w.flows| > 0 && Polled(w) && Alive(w) && w.running
    ensures Polled(DispatcherStep(c, w)) && DispatcherStep(c, w).running
  {
    hide Route, Index;
    if w.pc.Routing? && |w.batch| > 0 { RouteScope(c, w, w.batch[0]); RouteFlags(c, w, w.batch[0]); }
  }

  lemma StepRuns(c: Config, w: World)
    requires |w.flows| > 0
    ensures DispatcherStep(c, w).running == w.running
  {
    hide Route, Index;
    if w.pc.Routing? && |w.batch| > 0 { RouteFlags(c, w, w.batch[0]); }
  }

  /** From every point of every run in which the manager still runs, the
      dispatcher left to itself comes to rest. */
  lemma {:induction false} ComesToRest(c: Config, n: nat, events: seq<Event>) returns (m: nat)
    requires n > 0 && Run(c, n, events).running
    ensures var v := Run(c, n, events + Dispatches(m));
            AtRest(v) && v.running && (Polled(Run(c, n, events)) ==> Polled(v))
    decreases ToRoute(Run(c, n, events)), ToDrain(Run(c, n, events)), Phase(Run(c, n, events)),
              Unseen(Run(c, n, events)), Attempts(Run(c, n, events))
  {
    hide Run, Inv, Alive, DispatcherStep, Polled, ToRoute, ToDrain, Phase, Unseen, Attempts;
    var w := Run(c, n, events);
    if AtRest(w) {
      m := 0;
      assert events + Dispatches(0) == events;
    } else {
      RunKeeps(c, n, events);
      RunAlive(c, n, events);
      StepLess(c, w);
      StepRuns(c, w);
      if Polled(w) { StepPolled(c, w); }
      LastStep(c, n, events, EvDispatch);
      m := ComesToRest(c, n, events + [EvDispatch]);
      assert events + [EvDispatch] + Dispatches(m) == events + Dispatches(m + 1);
      m := m + 1;
    }
  }

  /** From the top of its loop, left to itself, the dispatcher routes every pushed
      packet, and then rests with every deferred packet behind a full queue, or
      behind a worker that is about to wake it. */
  lemma RestsDrained(c: Config, n: nat, events: seq<Event>) returns (m: nat)
    requires n > 0 && Run(c, n, events).running && Run(c, n, events).pc == Top
    ensures var v := Run(c, n, events + Dispatches(m));
            AtRest(v) && v.mixed == [] && v.batch == [] &&
            forall i :: 0 <= i < n ==>
              v.flows[i].pushed == Packets(v.flows[i].routed) &&
              (v.flows[i].deferred != [] ==> |v.flows[i].queue| == c.queueCap || Owes(v.flows[i]))
  {
    hide Run, Packets, OfFlow;
    m := ComesToRest(c, n, events);
    var all := events + Dispatches(m);
    RunKeeps(c, n, all);
    RunAlive(c, n, all);
    BatchRule(c, Run(c, n, all));
    forall i | 0 <= i < n
      ensures var f := Run(c, n, all).flows[i];
              f.pushed == Packets(f.routed) && (f.deferred != [] ==> |f.queue| == c.queueCap || Owes(f))
    {
      FlowOrder(c, n, all, i);
      NothingOf(i);
      if Run(c, n, all).pc == Waiting { NoLostWakeup(c, n, all, i); } else { BlocksOnlyWhenDrained(c, n, all, i); }
    }
  }

  lemma NothingOf(i: nat)
    ensures OfFlow([], i) == []
  {}
}
