/** Per-flow order, conservation and wake-ups in every run of the dispatcher. */
module DispatcherProofs {
  import opened Arith
  import opened Dispatcher

  function OfFlow(q: seq<Packet>, i: nat): (r: seq<Packet>) {
    if |q| == 0 then []
    else
      var r := OfFlow(q[..|q| - 1], i);
      if q[|q| - 1].flow == i then r + [q[|q| - 1]] else r
  }

  function Packets(r: seq<Routed>): (q: seq<Packet>) {
    seq(|r|, k requires 0 <= k < |r| => r[k].packet)
  }

  /** The routed packets that were not dropped. */
  function Survivors(r: seq<Routed>): (q: seq<Packet>) {
    if |r| == 0 then []
    else
      var q := Survivors(r[..|r| - 1]);
      if r[|r| - 1].fate == Sent then q + [r[|r| - 1].packet] else q
  }

  function Overflows(r: seq<Routed>): (n: nat) {
    if |r| == 0 then 0 else Overflows(r[..|r| - 1]) + if r[|r| - 1].fate == Overflowed then 1 else 0
  }

  /** The packets a worker was done with. */
  function Done(h: seq<Handled>): (q: seq<Packet>) {
    seq(|h|, k requires 0 <= k < |h| => h[k].packet)
  }

  /** The deferred head of flow i is already in its queue, its pop pending. */
  predicate Moving(w: World, i: nat)
    requires |w.flows| > 0
  {
    w.pc.Enqueued? && Index(w.cursor, |w.flows|, w.pc.examined) == i
  }

  /** One flow's packets: pushed is routed, then in the batch, then in the mixed
      queue; what routing kept is handled, held, queued, then deferred. */
  ghost predicate FlowOk(c: Config, f: Flow, i: nat, batch: seq<Packet>, mixed: seq<Packet>, moving: bool) {
    f.pushed == Packets(f.routed) + OfFlow(batch, i) + OfFlow(mixed, i) &&
    (moving ==> |f.deferred| > 0) &&
    Survivors(f.routed) == Done(f.handled) + f.held + f.queue + (if moving then f.deferred[1..] else f.deferred) &&
    |f.queue| <= c.queueCap && |f.deferred| <= c.mixedCap && f.overflows == Overflows(f.routed) &&
    (f.worker == Idle ==> |f.held| == 0) && (f.worker == Got || f.worker == Waking || f.worker == Emitting ==> |f.held| > 0)
  }

  ghost predicate FlowsOk(c: Config, w: World) {
    |w.flows| > 0 && forall i :: 0 <= i < |w.flows| ==> FlowOk(c, w.flows[i], i, w.batch, w.mixed, Moving(w, i))
  }

  function Sum(flows: seq<Flow>): (n: nat) {
    if |flows| == 0 then 0 else Sum(flows[..|flows| - 1]) + |flows[|flows| - 1].deferred|
  }

  function ActiveSet(flows: seq<Flow>): (s: set<nat>) {
    set i | 0 <= i < |flows| && i < ACTIVE_BITS && |flows[i].deferred| > 0
  }

  /** The shared counters agree with the deferred queues. */
  ghost predicate Tallied(w: World) {
    w.total == Sum(w.flows) && w.active == ActiveSet(w.flows)
  }

  ghost predicate Inv(c: Config, w: World) {
    FlowsOk(c, w) && Tallied(w) && (w.batch != [] ==> w.pc.Routing?)
  }

  // ---------------------------------------------------------------------
  // Sequences.

  lemma OfFlowAdd(q: seq<Packet>, p: Packet, i: nat)
    ensures OfFlow(q + [p], i) == OfFlow(q, i) + if p.flow == i then [p] else []
  {
    assert (q + [p])[..|q|] == q;
  }

  lemma {:induction false} OfFlowSplit(q: seq<Packet>, r: seq<Packet>, i: nat)
    ensures OfFlow(q + r, i) == OfFlow(q, i) + OfFlow(r, i)
  {
    if |r| == 0 {
      assert q + r == q;
    } else {
      var n := |r| - 1;
      OfFlowSplit(q, r[..n], i);
      assert q + r == (q + r[..n]) + [r[n]];
      OfFlowAdd(q + r[..n], r[n], i);
      assert r == r[..n] + [r[n]];
      OfFlowAdd(r[..n], r[n], i);
    }
  }

  lemma OfFlowHead(q: seq<Packet>, i: nat)
    requires |q| > 0
    ensures OfFlow(q, i) == (if q[0].flow == i then [q[0]] else []) + OfFlow(q[1..], i)
  {
    OfFlowSplit([q[0]], q[1..], i);
    assert q == [q[0]] + q[1..];
    OfFlowAdd([], q[0], i);
    assert [] + [q[0]] == [q[0]];
  }

  lemma RoutedAdd(r: seq<Routed>, e: Routed)
    ensures Packets(r + [e]) == Packets(r) + [e.packet]
    ensures Survivors(r + [e]) == Survivors(r) + if e.fate == Sent then [e.packet] else []
    ensures Overflows(r + [e]) == Overflows(r) + if e.fate == Overflowed then 1 else 0
  {
    assert (r + [e])[..|r|] == r;
  }

  lemma {:induction false} SumUpdate(flows: seq<Flow>, i: nat, f: Flow)
    requires i < |flows|
    ensures Sum(flows[i := f]) == Sum(flows) - |flows[i].deferred| + |f.deferred|
    ensures Sum(flows) >= |flows[i].deferred|
  {
    var n := |flows| - 1;
    if i == n {
      assert flows[i := f][..n] == flows[..n];
    } else {
      SumUpdate(flows[..n], i, f);
      assert flows[i := f][..n] == flows[..n][i := f];
    }
  }

  lemma ActiveUpdate(flows: seq<Flow>, i: nat, f: Flow)
    requires i < |flows|
    ensures ActiveSet(flows[i := f]) == if |f.deferred| > 0 && i < ACTIVE_BITS then ActiveSet(flows) + {i} else ActiveSet(flows) - {i}
  {}

  // ---------------------------------------------------------------------
  // Steps that leave every deferred queue alone.

  lemma SameTally(w: World, w': World)
    requires Tallied(w) && w'.total == w.total && w'.active == w.active && |w'.flows| == |w.flows|
    requires forall i :: 0 <= i < |w.flows| ==> w'.flows[i].deferred == w.flows[i].deferred
    ensures Tallied(w')
  {
    SameSum(w.flows, w'.flows);
  }

  lemma {:induction false} SameSum(a: seq<Flow>, b: seq<Flow>)
    requires |a| == |b| && forall i :: 0 <= i < |a| ==> a[i].deferred == b[i].deferred
    ensures Sum(a) == Sum(b)
  {
    if |a| > 0 {
      SameSum(a[..|a| - 1], b[..|a| - 1]);
    }
  }

  /** Only flow i changed, and only in a way its own books allow. */
  lemma OneFlow(c: Config, w: World, w': World, i: nat)
    requires Inv(c, w) && i < |w.flows| == |w'.flows| && w'.flows == w.flows[i := w'.flows[i]]
    requires w'.batch == w.batch && w'.mixed == w.mixed && w'.total == w.total && w'.active == w.active
    requires w'.pc == w.pc || (!w.pc.Enqueued? && !w'.pc.Enqueued? && w.batch == [])
    requires w'.cursor == w.cursor && w'.flows[i].deferred == w.flows[i].deferred
    requires FlowOk(c, w'.flows[i], i, w'.batch, w'.mixed, Moving(w', i))
    ensures Inv(c, w')
  {
    hide FlowOk, Index;
    SameTally(w, w');
    forall j | 0 <= j < |w'.flows| ensures FlowOk(c, w'.flows[j], j, w'.batch, w'.mixed, Moving(w', j)) {
      assert Moving(w, j) == Moving(w', j);
    }
  }

  /** The worker moves packets along its own flow. */
  lemma WorkerFlowOk(c: Config, f: Flow, f': Flow, i: nat, batch: seq<Packet>, mixed: seq<Packet>, moving: bool)
    requires FlowOk(c, f, i, batch, mixed, moving)
    requires f' == f.(queue := f'.queue, held := f'.held, handled := f'.handled, worker := f'.worker)
    requires Done(f'.handled) + f'.held + f'.queue == Done(f.handled) + f.held + f.queue && |f'.queue| <= |f.queue|
    requires (f'.worker == Idle ==> |f'.held| == 0) && (f'.worker == Got || f'.worker == Waking || f'.worker == Emitting ==> |f'.held| > 0)
    ensures FlowOk(c, f', i, batch, mixed, moving)
  {
    hide OfFlow, Survivors, Packets, Overflows;
  }

  lemma WorkerKeeps(c: Config, w: World, e: Event)
    requires Inv(c, w) && (e.EvDequeue? || e.EvLoadCount? || e.EvWake? || e.EvEmit? || e.EvAbort?) && e.flow < |w.flows|
    ensures Inv(c, WorkerStep(w, e))
  {
    hide Index, OfFlow, Survivors, Packets, Overflows, Tallied;
    var w' := WorkerStep(w, e);
    if w' != w {
      var f, f' := w.flows[e.flow], w'.flows[e.flow];
      assert FlowOk(c, f, e.flow, w.batch, w.mixed, Moving(w, e.flow));
      assert Done(f'.handled) + f'.held + f'.queue == Done(f.handled) + f.held + f.queue;
      WorkerFlowOk(c, f, f', e.flow, w.batch, w.mixed, Moving(w, e.flow));
      hide FlowOk;
      OneFlow(c, w, w', e.flow);
    }
  }

  /** A packet leaves the front of the batch for its flow. */
  lemma RoutedOk(c: Config, f: Flow, i: nat, batch: seq<Packet>, mixed: seq<Packet>, f': Flow, fate: Fate)
    requires |batch| > 0 && batch[0].flow == i && FlowOk(c, f, i, batch, mixed, false)
    requires f' == f.(routed := f.routed + [Routed(batch[0], fate)], queue := f'.queue, deferred := f'.deferred, overflows := f'.overflows)
    requires f'.queue + f'.deferred == f.queue + f.deferred + if fate == Sent then [batch[0]] else []
    requires |f'.queue| <= c.queueCap && |f'.deferred| <= c.mixedCap && f'.overflows == f.overflows + if fate == Overflowed then 1 else 0
    ensures FlowOk(c, f', i, batch[1..], mixed, false)
  {
    RoutedAdd(f.routed, Routed(batch[0], fate));
    OfFlowHead(batch, i);
    hide OfFlow, Survivors, Packets, Overflows;
    assert Done(f.handled) + f.held + f.queue + f.deferred == Done(f.handled) + f.held + (f.queue + f.deferred);
    assert Done(f'.handled) + f'.held + f'.queue + f'.deferred == Done(f.handled) + f.held + (f'.queue + f'.deferred);
  }

  lemma OtherFlows(c: Config, f: Flow, i: nat, batch: seq<Packet>, mixed: seq<Packet>)
    requires |batch| > 0 && batch[0].flow != i && FlowOk(c, f, i, batch, mixed, false)
    ensures FlowOk(c, f, i, batch[1..], mixed, false)
  {
    OfFlowHead(batch, i);
  }

  lemma PushTallies(c: Config, w: World, i: nat, p: Packet)
    requires Tallied(w) && i < |w.flows|
    ensures Tallied(DeferredPush(c, w, i, p))
  {
    var f := DeferredPush(c, w, i, p).flows[i];
    SumUpdate(w.flows, i, f);
    ActiveUpdate(w.flows, i, f);
    hide Sum;
  }

  lemma RouteTallies(c: Config, w: World, p: Packet)
    requires Tallied(w)
    ensures Tallied(Route(c, w, p))
  {
    hide Tallied, DeferredPush;
    if p.flow < |w.flows| {
      PushTallies(c, w, p.flow, p);
      var w' := Route(c, w, p);
      if w' != DeferredPush(c, w, p.flow, p) { SameTally(w, w'); }
    } else {
      SameTally(w, Route(c, w, p));
    }
  }

  lemma RouteFlow(c: Config, w: World)
    requires |w.batch| > 0 && w.batch[0].flow < |w.flows| && !w.pc.Enqueued?
    requires FlowOk(c, w.flows[w.batch[0].flow], w.batch[0].flow, w.batch, w.mixed, false)
    ensures var i := w.batch[0].flow;
            FlowOk(c, Route(c, w, w.batch[0]).flows[i], i, w.batch[1..], w.mixed, false)
  {
    hide OfFlow, Survivors, Packets, Overflows;
    var p, i := w.batch[0], w.batch[0].flow;
    var f, f' := w.flows[i], Route(c, w, p).flows[i];
    var fate := f'.routed[|f.routed|].fate;
    RoutedOk(c, f, i, w.batch, w.mixed, f', fate);
  }

  lemma RouteOthers(c: Config, w: World, p: Packet, j: nat)
    requires j < |w.flows| && j != p.flow
    ensures Route(c, w, p).flows[j] == w.flows[j]
  {}

  lemma RouteScope(c: Config, w: World, p: Packet)
    ensures var w' := Route(c, w, p); w'.mixed == w.mixed && w'.pc == w.pc && w'.batch == w.batch && w'.cursor == w.cursor
  {}

  lemma RouteKeeps(c: Config, w: World)
    requires Inv(c, w) && w.pc.Routing? && |w.batch| > 0
    ensures Inv(c, Route(c, w, w.batch[0]).(batch := w.batch[1..]))
  {
    hide Index, FlowOk, Route;
    RouteTallies(c, w, w.batch[0]);
    RouteScope(c, w, w.batch[0]);
    var w' := Route(c, w, w.batch[0]).(batch := w.batch[1..]);
    forall j | 0 <= j < |w'.flows| ensures FlowOk(c, w'.flows[j], j, w'.batch, w'.mixed, Moving(w', j)) {
      assert FlowOk(c, w.flows[j], j, w.batch, w.mixed, Moving(w, j));
      if j == w.batch[0].flow {
        RouteFlow(c, w);
      } else {
        RouteOthers(c, w, w.batch[0], j);
        OtherFlows(c, w.flows[j], j, w.batch, w.mixed);
      }
    }
  }

  /** The deferred head enters the queue while it is still the deferred head. */
  lemma EnqueuedOk(c: Config, f: Flow, i: nat, batch: seq<Packet>, mixed: seq<Packet>)
    requires FlowOk(c, f, i, batch, mixed, false) && |f.deferred| > 0 && |f.queue| != c.queueCap
    ensures FlowOk(c, f.(queue := f.queue + [f.deferred[0]]), i, batch, mixed, true)
  {
    hide OfFlow, Survivors, Packets, Overflows;
    assert f.deferred == [f.deferred[0]] + f.deferred[1..];
    assert Done(f.handled) + f.held + f.queue + f.deferred == Done(f.handled) + f.held + (f.queue + [f.deferred[0]]) + f.deferred[1..];
  }

  lemma DrainKeeps(c: Config, w: World)
    requires Inv(c, w) && w.pc.Draining?
    ensures Inv(c, DrainStep(c, w))
  {
    hide Index, FlowOk;
    var w' := DrainStep(c, w);
    SameTally(w, w');
    hide Tallied;
    forall j | 0 <= j < |w'.flows| ensures FlowOk(c, w'.flows[j], j, w'.batch, w'.mixed, Moving(w', j)) {
      assert FlowOk(c, w.flows[j], j, w.batch, w.mixed, Moving(w, j));
      if Moving(w', j) { EnqueuedOk(c, w.flows[j], j, w.batch, w.mixed); }
    }
  }

  lemma PopKeeps(c: Config, w: World)
    requires Inv(c, w) && w.pc.Enqueued?
    ensures Inv(c, PopStep(w))
  {
    hide Index, OfFlow, Survivors, Packets, Overflows;
    var i := Index(w.cursor, |w.flows|, w.pc.examined);
    assert FlowOk(c, w.flows[i], i, w.batch, w.mixed, Moving(w, i));
    var f := w.flows[i].(deferred := w.flows[i].deferred[1..]);
    SumUpdate(w.flows, i, f);
    ActiveUpdate(w.flows, i, f);
    var w' := PopStep(w);
    assert Tallied(w');
    hide Sum, ActiveSet;
    forall j | 0 <= j < |w'.flows| ensures FlowOk(c, w'.flows[j], j, w'.batch, w'.mixed, Moving(w', j)) {
      assert FlowOk(c, w.flows[j], j, w.batch, w.mixed, Moving(w, j));
    }
  }

  lemma PushOk(c: Config, f: Flow, i: nat, batch: seq<Packet>, mixed: seq<Packet>, p: Packet, moving: bool)
    requires FlowOk(c, f, i, batch, mixed, moving)
    ensures FlowOk(c, if p.flow == i then f.(pushed := f.pushed + [p]) else f, i, batch, mixed + [p], moving)
  {
    OfFlowAdd(mixed, p, i);
    hide OfFlow, Survivors, Packets, Overflows;
  }

  lemma PushKeeps(c: Config, w: World, p: Packet)
    requires Inv(c, w)
    ensures Inv(c, Next(c, w, EvPush(p)))
  {
    hide Index, FlowOk;
    var w' := Next(c, w, EvPush(p));
    SameTally(w, w');
    hide Tallied;
    if w' != w {
      forall j | 0 <= j < |w'.flows| ensures FlowOk(c, w'.flows[j], j, w'.batch, w'.mixed, Moving(w', j)) {
        assert FlowOk(c, w.flows[j], j, w.batch, w.mixed, Moving(w, j));
        PushOk(c, w.flows[j], j, w.batch, w.mixed, p, Moving(w, j));
      }
    }
  }

  lemma TakeOk(c: Config, f: Flow, i: nat, mixed: seq<Packet>, n: nat)
    requires FlowOk(c, f, i, [], mixed, false) && n <= |mixed|
    ensures FlowOk(c, f, i, mixed[..n], mixed[n..], false)
  {
    OfFlowSplit(mixed[..n], mixed[n..], i);
    assert mixed == mixed[..n] + mixed[n..];
    hide Survivors, Packets, Overflows;
  }

  /** Taking a batch from the mixed queue. */
  lemma TakeKeeps(c: Config, w: World, w': World, n: nat)
    requires Inv(c, w) && n <= |w.mixed| && !w.pc.Routing? && !w.pc.Enqueued? && w'.pc.Routing?
    requires w' == w.(batch := w.mixed[..n], mixed := w.mixed[n..], pc := w'.pc)
    ensures Inv(c, w')
  {
    hide FlowOk, Tallied;
    SameTally(w, w');
    forall j | 0 <= j < |w'.flows| ensures FlowOk(c, w'.flows[j], j, w'.batch, w'.mixed, Moving(w', j)) {
      assert FlowOk(c, w.flows[j], j, w.batch, w.mixed, Moving(w, j));
      TakeOk(c, w.flows[j], j, w.mixed, n);
    }
  }

  /** Steps that change neither a flow nor the queues. */
  lemma ControlKeeps(c: Config, w: World, w': World)
    requires Inv(c, w) && w'.flows == w.flows && w'.mixed == w.mixed && w'.batch == w.batch && w'.total == w.total && w'.active == w.active
    requires (!w.pc.Enqueued? && !w'.pc.Enqueued? && (w.batch == [] || w'.pc.Routing?)) || (w'.pc == w.pc && w'.cursor == w.cursor)
    ensures Inv(c, w')
  {
    hide FlowOk, Index;
    SameTally(w, w');
    forall j | 0 <= j < |w'.flows| ensures FlowOk(c, w'.flows[j], j, w'.batch, w'.mixed, Moving(w', j)) {
      assert FlowOk(c, w.flows[j], j, w.batch, w.mixed, Moving(w, j));
    }
  }

  lemma DispatchKeeps(c: Config, w: World)
    requires Inv(c, w)
    ensures Inv(c, DispatcherStep(c, w))
  {
    hide Inv, DrainStep, PopStep, Route;
    BatchRule(c, w);
    var w' := DispatcherStep(c, w);
    match w.pc {
      case Draining(_, _, _, _) => DrainKeeps(c, w);
      case Enqueued(_, _, _) => PopKeeps(c, w);
      case Routing(_) => if |w.batch| > 0 { RouteKeeps(c, w); } else { ControlKeeps(c, w, w'); }
      case Polling(_) =>
        if |w.mixed| == 0 { ControlKeeps(c, w, w'); } else { TakeKeeps(c, w, w', Min(DISPATCH_BATCH, |w.mixed|)); }
      case Blocking =>
        if |w.mixed| == 0 { ControlKeeps(c, w, w'); } else {
          assert w.mixed[..1] == [w.mixed[0]];
          TakeKeeps(c, w, w', 1);
        }
      case _ => ControlKeeps(c, w, w');
    }
  }

  lemma BatchRule(c: Config, w: World)
    requires Inv(c, w)
    ensures |w.flows| > 0 && (w.batch != [] ==> w.pc.Routing?)
  {}

  lemma StopKeeps(c: Config, w: World)
    requires Inv(c, w)
    ensures Inv(c, StopStep(w))
  {
    hide Index, OfFlow, Survivors, Packets, Overflows, Tallied;
    var w' := StopStep(w);
    if w.stop.QueuesDown? && w.stop.n < |w.flows| {
      assert FlowOk(c, w.flows[w.stop.n], w.stop.n, w.batch, w.mixed, Moving(w, w.stop.n));
      OneFlow(c, w, w', w.stop.n);
    } else {
      ControlKeeps(c, w, w');
    }
  }

  lemma StepKeeps(c: Config, w: World, e: Event)
    requires Inv(c, w)
    ensures |w.flows| > 0 && Inv(c, Next(c, w, e))
  {
    hide Inv, DispatcherStep, StopStep, WorkerStep;
    BatchRule(c, w);
    match e
    case EvDispatch => DispatchKeeps(c, w);
    case EvPush(p) => PushKeeps(c, w, p);
    case EvStop => StopKeeps(c, w);
    case _ => if e.flow < |w.flows| { WorkerKeeps(c, w, e); }
  }

  lemma {:induction false} StartSum(n: nat)
    ensures Sum(Start(n).flows) == 0
  {
    if n > 0 {
      StartSum(n - 1);
      assert Start(n).flows[..n - 1] == Start(n - 1).flows;
    }
  }

  lemma {:induction false} RunKeeps(c: Config, n: nat, events: seq<Event>)
    requires n > 0
    ensures Inv(c, Run(c, n, events))
  {
    if |events| == 0 {
      StartSum(n);
    } else {
      hide Inv, Next;
      var k := |events| - 1;
      RunKeeps(c, n, events[..k]);
      StepKeeps(c, Run(c, n, events[..k]), events[k]);
    }
  }

  /** Order and conservation in every interleaving: a flow's packets are its
      routed ones, then those in the batch, then those still mixed; the routed
      ones less exactly the counted overflows and the shutdown drops are, in
      order, handled (emitted, or freed after a failed emission), held, queued
      and deferred - the deferred head once, also
      between its enqueue and its pop. */
  lemma FlowOrder(c: Config, n: nat, events: seq<Event>, i: nat)
    requires i < n
    ensures var w := Run(c, n, events);
            var f := w.flows[i];
            f.pushed == Packets(f.routed) + OfFlow(w.batch, i) + OfFlow(w.mixed, i) &&
            (Moving(w, i) ==> |f.deferred| > 0) &&
            Survivors(f.routed) == Done(f.handled) + f.held + f.queue + (if Moving(w, i) then f.deferred[1..] else f.deferred) &&
            f.overflows == Overflows(f.routed)
  {
    hide Run, Index, Next;
    RunKeeps(c, n, events);
    var w := Run(c, n, events);
    assert FlowOk(c, w.flows[i], i, w.batch, w.mixed, Moving(w, i));
  }

  /** The shared counters match the deferred queues, and no queue overfills. */
  lemma CountersMatch(c: Config, n: nat, events: seq<Event>)
    requires n > 0
    ensures var w := Run(c, n, events);
            w.total == Sum(w.flows) && w.active == ActiveSet(w.flows) &&
            forall i :: 0 <= i < n ==> |w.flows[i].queue| <= c.queueCap && |w.flows[i].deferred| <= c.mixedCap
  {
    hide Run, Index, Next;
    RunKeeps(c, n, events);
    var w := Run(c, n, events);
    forall i | 0 <= i < n ensures |w.flows[i].queue| <= c.queueCap && |w.flows[i].deferred| <= c.mixedCap {
      assert FlowOk(c, w.flows[i], i, w.batch, w.mixed, Moving(w, i));
    }
  }
}
