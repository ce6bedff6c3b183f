/** The dispatcher, its flows and their workers as a state machine: every
    lock-protected section or atomic access is one step, in any interleaving. */
module Dispatcher {
  import opened Arith

  const DISPATCH_BATCH: nat := 32
  const DEFERRED_QUOTA: nat := 8
  const ACTIVE_BITS: nat := 64

  datatype Packet = Packet(flow: nat, payload: nat)

  /** What routing did with a packet of a known flow. */
  datatype Fate = Sent | Overflowed | ShutDown
  datatype Routed = Routed(packet: Packet, fate: Fate)

  /** Between taking packets and the wake call, the worker has got some; after
      reading a non-zero deferred count it is about to wake the dispatcher. */
  datatype WorkerPc = Idle | Got | Waking | Emitting | Dead

  /** A packet the worker was done with: emitted, or freed after its emission
      failed. */
  datatype Handled = Handled(packet: Packet, emitted: bool)

  /** held: taken by the worker, not yet emitted. pushed, routed and handled are
      history. */
  datatype Flow = Flow(queue: seq<Packet>, down: bool, deferred: seq<Packet>, worker: WorkerPc, held: seq<Packet>,
                       overflows: nat, handled: seq<Handled>, pushed: seq<Packet>, routed: seq<Routed>)

  datatype Pass = First | Second | Last

  /** Where the dispatcher thread is. */
  datatype Pc =
    | Top
    | Draining(pass: Pass, examined: nat, quota: nat, progress: bool)
    | Enqueued(pass: Pass, examined: nat, quota: nat)
    | Polling(progress: bool)
    | Routing(blocking: bool)
    | Deciding
    | Snapping
    | Checking
    | Waiting
    | Blocking
    | Stopped

  /** How far flow_manager_stop has come. */
  datatype Stop = NotStopping | Flagged | MixedDown | QueuesDown(n: nat) | Woken

  datatype Config = Config(queueCap: nat, mixedCap: nat)

  datatype World = World(flows: seq<Flow>, mixed: seq<Packet>, mixedDown: bool, batch: seq<Packet>, pc: Pc, cursor: nat,
                         gen: nat, seen: nat, running: bool, total: nat, active: set<nat>, stop: Stop, routeErrors: nat)

  // ---------------------------------------------------------------------
  // Deferred queues. Only the dispatcher writes them; workers read the count.

  /** The flow drain_deferred looks at after that many others. */
  function Index(cursor: nat, n: nat, examined: nat): (i: nat)
    requires n > 0
    ensures i < n
  {
    (cursor % n + examined) % n
  }

  /** deferred_push: fails when the deferred queue is full. */
  function DeferredPush(c: Config, w: World, i: nat, p: Packet): (w': World)
    requires i < |w.flows|
    ensures |w'.flows| == |w.flows|
  {
    var f := w.flows[i];
    if |f.deferred| >= c.mixedCap then
      w.(flows := w.flows[i := f.(routed := f.routed + [Routed(p, Overflowed)], overflows := f.overflows + 1)],
         routeErrors := w.routeErrors + 1)
    else
      w.(flows := w.flows[i := f.(deferred := f.deferred + [p], routed := f.routed + [Routed(p, Sent)])],
         total := w.total + 1,
         active := if |f.deferred| == 0 && i < ACTIVE_BITS then w.active + {i} else w.active)
  }

  function DeferredPop(w: World, i: nat): (w': World)
    requires i < |w.flows|
    ensures |w'.flows| == |w.flows|
  {
    var f := w.flows[i];
    if |f.deferred| == 0 || w.total == 0 then w
    else
      w.(flows := w.flows[i := f.(deferred := f.deferred[1..])], total := w.total - 1,
         active := if |f.deferred| == 1 then w.active - {i} else w.active)
  }

  /** route_packet: behind deferred packets if there are any, else straight into
      the flow's queue, else deferred. */
  function Route(c: Config, w: World, p: Packet): (w': World)
    ensures |w'.flows| == |w.flows|
  {
    if p.flow >= |w.flows| then w.(routeErrors := w.routeErrors + 1)
    else
      var f := w.flows[p.flow];
      if |f.deferred| > 0 then DeferredPush(c, w, p.flow, p)
      else if f.down then w.(flows := w.flows[p.flow := f.(routed := f.routed + [Routed(p, ShutDown)])])
      else if |f.queue| == c.queueCap then DeferredPush(c, w, p.flow, p)
      else w.(flows := w.flows[p.flow := f.(queue := f.queue + [p], routed := f.routed + [Routed(p, Sent)])])
  }

  // ---------------------------------------------------------------------
  // The dispatcher thread.

  function StartDrain(pass: Pass): (pc: Pc) { Draining(pass, 0, DEFERRED_QUOTA, false) }

  function AfterDrain(pass: Pass, progress: bool): (pc: Pc) {
    match pass
    case First => Polling(progress)
    case Second => if progress then Top else Checking
    case Last => Stopped
  }

  /** One step of drain_deferred: the next flow, or one attempt on this one. */
  function DrainStep(c: Config, w: World): (w': World)
    requires |w.flows| > 0 && w.pc.Draining?
    ensures |w'.flows| == |w.flows|
  {
    var pc := w.pc;
    if pc.examined == 0 && pc.quota == DEFERRED_QUOTA && !pc.progress && w.active == {} && w.total == 0 then
      w.(pc := AfterDrain(pc.pass, false))
    else if pc.examined >= |w.flows| then
      w.(cursor := (w.cursor % |w.flows| + 1) % |w.flows|, pc := AfterDrain(pc.pass, pc.progress))
    else
      var i := Index(w.cursor, |w.flows|, pc.examined);
      var f := w.flows[i];
      if pc.quota == 0 || |f.deferred| == 0 || f.down || |f.queue| == c.queueCap then
        w.(pc := Draining(pc.pass, pc.examined + 1, DEFERRED_QUOTA, pc.progress))
      else
        w.(flows := w.flows[i := f.(queue := f.queue + [f.deferred[0]])], pc := Enqueued(pc.pass, pc.examined, pc.quota))
  }

  function PopStep(w: World): (w': World)
    requires |w.flows| > 0 && w.pc.Enqueued?
    ensures |w'.flows| == |w.flows|
  {
    var pc := w.pc;
    DeferredPop(w, Index(w.cursor, |w.flows|, pc.examined)).(pc := Draining(pc.pass, pc.examined, if pc.quota == 0 then 0 else pc.quota - 1, true))
  }

  function DispatcherStep(c: Config, w: World): (w': World)
    requires |w.flows| > 0
    ensures |w'.flows| == |w.flows|
  {
    match w.pc
    case Top => w.(pc := StartDrain(if w.running then First else Last))
    case Draining(_, _, _, _) => DrainStep(c, w)
    case Enqueued(_, _, _) => PopStep(w)
    case Polling(progress) =>
      if |w.mixed| == 0 then w.(pc := if w.mixedDown then StartDrain(Last) else if progress then Top else Deciding)
      else
        var n := Min(DISPATCH_BATCH, |w.mixed|);
        w.(batch := w.mixed[..n], mixed := w.mixed[n..], pc := Routing(false))
    case Routing(_) =>
      if |w.batch| == 0 then w.(pc := Top)
      else Route(c, w, w.batch[0]).(batch := w.batch[1..])
    case Deciding =>
      if !w.running then w.(pc := StartDrain(Last))
      else w.(pc := if w.total > 0 then Snapping else Blocking)
    case Snapping => w.(seen := w.gen, pc := StartDrain(Second))
    case Checking => w.(pc := if w.running && w.total > 0 && w.gen == w.seen then Waiting else Top)
    case Waiting => w.(pc := Checking)
    case Blocking =>
      if |w.mixed| == 0 then (if w.mixedDown then w.(pc := StartDrain(Last)) else w)
      else w.(batch := [w.mixed[0]], mixed := w.mixed[1..], pc := Routing(true))
    case Stopped => w
  }

  // ---------------------------------------------------------------------
  // The other threads.

  /** A wake under the lock: the generation moves and a waiting dispatcher is
      signalled. */
  function Wake(w: World): (w': World)
    ensures |w'.flows| == |w.flows|
  {
    w.(gen := w.gen + 1, pc := if w.pc == Waiting then Checking else w.pc)
  }

  datatype Event =
    | EvDispatch
    | EvPush(packet: Packet)
    | EvDequeue(flow: nat, n: nat)
    | EvLoadCount(flow: nat)
    | EvWake(flow: nat)
    | EvEmit(flow: nat, ok: bool)
    | EvAbort(flow: nat)
    | EvStop

  function WithFlow(w: World, i: nat, f: Flow): (w': World)
    requires i < |w.flows|
    ensures |w'.flows| == |w.flows|
  {
    w.(flows := w.flows[i := f])
  }

  /** flow_worker_thread: a batch (or one packet) out of the queue, and for each
      packet the conditional wake before it is emitted. */
  function WorkerStep(w: World, e: Event): (w': World)
    requires (e.EvDequeue? || e.EvLoadCount? || e.EvWake? || e.EvEmit? || e.EvAbort?) && e.flow < |w.flows|
    ensures |w'.flows| == |w.flows|
  {
    var f := w.flows[e.flow];
    match e
    case EvDequeue(i, n) =>
      if f.worker == Idle && 0 < n <= DISPATCH_BATCH && n <= |f.queue|
      then WithFlow(w, i, f.(queue := f.queue[n..], held := f.held + f.queue[..n], worker := Got)) else w
    case EvLoadCount(i) =>
      if f.worker == Got then WithFlow(w, i, f.(worker := if |f.deferred| > 0 then Waking else Emitting)) else w
    case EvWake(i) =>
      if f.worker == Waking then Wake(WithFlow(w, i, f.(worker := Emitting))) else w
    case EvEmit(i, ok) =>
      if f.worker == Emitting && |f.held| > 0
      then WithFlow(w, i, f.(held := f.held[1..], handled := f.handled + [Handled(f.held[0], ok)], worker := if |f.held| > 1 then Got else Idle))
      else w
    case EvAbort(i) =>
      if f.worker == Emitting then WithFlow(w, i, f.(worker := Dead)) else w
  }

  function StopStep(w: World): (w': World)
    ensures |w'.flows| == |w.flows|
  {
    match w.stop
    case NotStopping => w.(running := false, stop := Flagged)
    case Flagged => w.(mixedDown := true, stop := MixedDown)
    case MixedDown => w.(stop := QueuesDown(0))
    case QueuesDown(n) =>
      if n < |w.flows| then WithFlow(w, n, w.flows[n].(down := true)).(stop := QueuesDown(n + 1))
      else Wake(w).(stop := Woken)
    case Woken => w
  }

  function Next(c: Config, w: World, e: Event): (w': World)
    requires |w.flows| > 0
    ensures |w'.flows| == |w.flows|
  {
    match e
    case EvDispatch => DispatcherStep(c, w)
    // The running flag is read before the lock, so a push may follow its fall;
    // a producer turned away by the flag takes no step.
    case EvPush(p) =>
      if w.mixedDown || |w.mixed| >= c.mixedCap then w
      else
        var v := w.(mixed := w.mixed + [p]);
        if p.flow < |w.flows| then WithFlow(v, p.flow, v.flows[p.flow].(pushed := v.flows[p.flow].pushed + [p])) else v
    case EvStop => StopStep(w)
    case _ => if e.flow < |w.flows| then WorkerStep(w, e) else w
  }

  function Start(n: nat): (w: World) {
    World(seq(n, i => Flow([], false, [], Idle, [], 0, [], [], [])), [], false, [], Top, 0, 0, 0, true, 0, {}, NotStopping, 0)
  }

  function Run(c: Config, n: nat, events: seq<Event>): (w: World)
    requires n > 0
    ensures |w.flows| == n
  {
    if |events| == 0 then Start(n) else Next(c, Run(c, n, events[..|events| - 1]), events[|events| - 1])
  }
}
