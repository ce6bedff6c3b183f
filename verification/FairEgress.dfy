/** The relay's fair dequeuer over an ACK and a DATA queue: its choice, its
    wait and the producers' notifications, one locked section per step. */
module FairEgress {
  datatype Kind = Ack | Data

  /** Where one call of egress_fair_dequeue is. firstDown: the queue tried first
      was empty because it is shut down and drained. */
  datatype Pc =
    | Observe
    | TryFirst(observed: nat)
    | TrySecond(observed: nat, firstDown: bool)
    | Check(observed: nat)
    | Waiting(observed: nat)
    | Ended

  /** owed: producers that have changed a queue and not yet notified. log: what
      was dequeued. starved: ACKs dequeued since DATA was last dequeued or last
      absent; hogged: DATA dequeued since ACK was last dequeued or last absent. */
  datatype World = World(ack: seq<nat>, data: seq<nat>, ackDown: bool, dataDown: bool, gen: nat, owed: nat,
                         pc: Pc, consecutive: nat, log: seq<Kind>, starved: nat, hogged: nat, passed: Passed)

  /** What each queue accepted and gave out, and whether a packet ever asked for
      the head. */
  datatype Passed = Passed(ackIn: seq<nat>, ackOut: seq<nat>, dataIn: seq<nat>, dataOut: seq<nat>, jumped: bool)

  datatype Config = Config(quota: nat, capacity: nat)

  datatype Event =
    | EvEnqueue(kind: Kind, packet: nat, preferHead: bool)
    | EvShutdown(kind: Kind)
    | EvNotify
    | EvDequeuer

  function Queue(w: World, kind: Kind): (q: seq<nat>) { if kind == Ack then w.ack else w.data }
  predicate Down(w: World, kind: Kind) { if kind == Ack then w.ackDown else w.dataDown }

  function WithQueue(w: World, kind: Kind, q: seq<nat>): (w': World) {
    if kind == Ack then w.(ack := q) else w.(data := q)
  }

  function Accepted(h: Passed, kind: Kind): (q: seq<nat>) { if kind == Ack then h.ackIn else h.dataIn }
  function Given(h: Passed, kind: Kind): (q: seq<nat>) { if kind == Ack then h.ackOut else h.dataOut }

  function Accept(h: Passed, kind: Kind, p: nat, preferHead: bool): (g: Passed) {
    if kind == Ack then h.(ackIn := h.ackIn + [p], jumped := h.jumped || preferHead)
    else h.(dataIn := h.dataIn + [p], jumped := h.jumped || preferHead)
  }

  function Give(h: Passed, kind: Kind, p: nat): (g: Passed) {
    if kind == Ack then h.(ackOut := h.ackOut + [p]) else h.(dataOut := h.dataOut + [p])
  }

  /** DATA goes first once ack_quota ACKs have gone in a row. */
  function FirstKind(c: Config, w: World): (k: Kind) { if w.consecutive >= c.quota then Data else Ack }
  function Other(k: Kind): (o: Kind) { if k == Ack then Data else Ack }

  /** A successful try_dequeue and the return from the call. */
  function Took(c: Config, w: World, kind: Kind): (w': World)
    requires Queue(w, kind) != []
  {
    WithQueue(w, kind, Queue(w, kind)[1..]).(
      pc := Observe, log := w.log + [kind], passed := Give(w.passed, kind, Queue(w, kind)[0]),
      consecutive := if kind == Data then 0 else if w.consecutive >= c.quota then w.consecutive else w.consecutive + 1)
  }

  function DequeuerStep(c: Config, w: World): (w': World) {
    match w.pc
    case Observe => w.(pc := TryFirst(w.gen))
    case TryFirst(observed) =>
      var kind := FirstKind(c, w);
      if Queue(w, kind) != [] then Took(c, w, kind) else w.(pc := TrySecond(observed, Down(w, kind)))
    case TrySecond(observed, firstDown) =>
      var kind := Other(FirstKind(c, w));
      if Queue(w, kind) != [] then Took(c, w, kind)
      else w.(pc := if firstDown && Down(w, kind) then Ended else Check(observed))
    case Check(observed) => w.(pc := if observed == w.gen then Waiting(observed) else Observe)
    case Waiting(observed) => w.(pc := Check(observed))
    case Ended => w
  }

  function Step(c: Config, w: World, e: Event): (w': World) {
    match e
    case EvEnqueue(kind, p, preferHead) =>
      if Down(w, kind) || |Queue(w, kind)| >= c.capacity then w
      else WithQueue(w, kind, if preferHead then [p] + Queue(w, kind) else Queue(w, kind) + [p]).(owed := w.owed + 1, passed := Accept(w.passed, kind, p, preferHead))
    case EvShutdown(kind) =>
      var v := w.(owed := w.owed + 1);
      if kind == Ack then v.(ackDown := true) else v.(dataDown := true)
    case EvNotify =>
      if w.owed == 0 then w
      else w.(owed := w.owed - 1, gen := w.gen + 1, pc := if w.pc.Waiting? then Check(w.pc.observed) else w.pc)
    case EvDequeuer => DequeuerStep(c, w)
  }

  /** Just dequeued that kind. */
  predicate Dequeued(w: World, w': World, kind: Kind) {
    |w'.log| > |w.log| && w'.log[|w'.log| - 1] == kind
  }

  function Counted(w: World, v: World): (w': World) {
    v.(starved := if v.data == [] || Dequeued(w, v, Data) then 0 else if Dequeued(w, v, Ack) then w.starved + 1 else w.starved,
       hogged := if v.ack == [] || Dequeued(w, v, Ack) then 0 else if Dequeued(w, v, Data) then w.hogged + 1 else w.hogged)
  }

  function Next(c: Config, w: World, e: Event): (w': World) {
    Counted(w, Step(c, w, e))
  }

  const START := World([], [], false, false, 0, 0, Observe, 0, [], 0, 0, Passed([], [], [], [], false))

  function Run(c: Config, events: seq<Event>): (w: World) {
    if |events| == 0 then START else Next(c, Run(c, events[..|events| - 1]), events[|events| - 1])
  }

  // ---------------------------------------------------------------------

  /** A notification has come since the generation was observed, or is owed. */
  predicate Alerted(w: World, observed: nat) { w.owed > 0 || w.gen != observed }

  ghost predicate Inv(c: Config, w: World) {
    w.consecutive <= c.quota && w.starved <= w.consecutive && w.hogged <= 1 && (w.hogged == 1 ==> w.consecutive == 0) &&
    match w.pc
    case Observe => true
    case Ended => true
    case TryFirst(observed) => observed <= w.gen
    case TrySecond(observed, firstDown) =>
      observed <= w.gen &&
      (if FirstKind(c, w) == Data then w.starved == 0 else w.hogged == 0) &&
      (Queue(w, FirstKind(c, w)) != [] ==> Alerted(w, observed)) &&
      (Down(w, FirstKind(c, w)) && !firstDown ==> Alerted(w, observed))
    case Check(observed) =>
      observed <= w.gen && (w.ack != [] || w.data != [] || (w.ackDown && w.dataDown) ==> Alerted(w, observed))
    case Waiting(observed) =>
      observed == w.gen && (w.ack != [] || w.data != [] || (w.ackDown && w.dataDown) ==> w.owed > 0)
  }

  lemma ProducerKeeps(c: Config, w: World, e: Event)
    requires c.quota > 0 && Inv(c, w) && !e.EvDequeuer?
    ensures Inv(c, Next(c, w, e))
  {
    var v := Step(c, w, e);
    assert v.log == w.log && v.consecutive == w.consecutive;
  }

  lemma TookKeeps(c: Config, w: World, kind: Kind)
    requires c.quota > 0 && Inv(c, w) && w.pc != Observe && Queue(w, kind) != []
    requires w.pc.TryFirst? ==> kind == FirstKind(c, w)
    requires w.pc.TrySecond? || w.pc.TryFirst?
    requires w.pc.TrySecond? ==> kind == Other(FirstKind(c, w))
    requires Next(c, w, EvDequeuer) == Counted(w, Took(c, w, kind))
    ensures Inv(c, Next(c, w, EvDequeuer))
  {
    var v := Took(c, w, kind);
    assert v.log[|v.log| - 1] == kind;
  }

  lemma RestKeeps(c: Config, w: World)
    requires c.quota > 0 && Inv(c, w) && DequeuerStep(c, w).log == w.log
    ensures Inv(c, Next(c, w, EvDequeuer))
  {}

  lemma NextKeeps(c: Config, w: World, e: Event)
    requires c.quota > 0 && Inv(c, w)
    ensures Inv(c, Next(c, w, e))
  {
    if !e.EvDequeuer? {
      ProducerKeeps(c, w, e);
    } else if w.pc.TryFirst? && Queue(w, FirstKind(c, w)) != [] {
      TookKeeps(c, w, FirstKind(c, w));
    } else if w.pc.TrySecond? && Queue(w, Other(FirstKind(c, w))) != [] {
      TookKeeps(c, w, Other(FirstKind(c, w)));
    } else {
      RestKeeps(c, w);
    }
  }

  lemma {:induction false} RunKeeps(c: Config, events: seq<Event>)
    requires c.quota > 0
    ensures Inv(c, Run(c, events))
  {
    if |events| > 0 {
      RunKeeps(c, events[..|events| - 1]);
      NextKeeps(c, Run(c, events[..|events| - 1]), events[|events| - 1]);
    }
  }

  /** A dequeuer asleep although something is queued, or although both queues are
      shut down, is owed a notification. */
  lemma NoLostNotify(c: Config, events: seq<Event>)
    requires c.quota > 0 && Run(c, events).pc.Waiting?
    ensures var w := Run(c, events);
            w.pc.observed == w.gen && (w.ack != [] || w.data != [] || (w.ackDown && w.dataDown) ==> w.owed > 0)
  {
    RunKeeps(c, events);
  }

  // ---------------------------------------------------------------------
  // Fairness, read off the log.

  /** How many dequeues of one kind the log ends with, counting back to from. */
  function Trailing(log: seq<Kind>, from: nat, kind: Kind): (n: nat) {
    if |log| <= from || log[|log| - 1] != kind then 0 else 1 + Trailing(log[..|log| - 1], from, kind)
  }

  ghost predicate Throughout(c: Config, before: seq<Event>, after: seq<Event>, kind: Kind) {
    forall i :: 0 <= i <= |after| ==> Queue(Run(c, before + after[..i]), kind) != []
  }

  function Counter(w: World, kind: Kind): (n: nat) { if kind == Ack then w.starved else w.hogged }

  lemma CounterStep(c: Config, w: World, e: Event, kind: Kind)
    requires Queue(Next(c, w, e), Other(kind)) != []
    ensures var v := Next(c, w, e);
            (v.log == w.log && Counter(v, kind) == Counter(w, kind)) ||
            (v.log == w.log + [kind] && Counter(v, kind) == Counter(w, kind) + 1) ||
            v.log == w.log + [Other(kind)]
  {
    hide Step;
    LogStep(c, w, e);
  }

  lemma LogStep(c: Config, w: World, e: Event)
    ensures var v := Step(c, w, e); v.log == w.log || v.log == w.log + [Ack] || v.log == w.log + [Data]
  {
    hide FirstKind;
  }

  lemma TrailingStep(log: seq<Kind>, k: Kind, from: nat, kind: Kind)
    ensures Trailing(log + [k], from, kind) <= if k == kind then Trailing(log, from, kind) + 1 else 0
  {
    assert (log + [k])[..|log|] == log;
  }

  lemma {:induction false} TrailingCounted(c: Config, before: seq<Event>, after: seq<Event>, kind: Kind)
    requires Throughout(c, before, after, Other(kind))
    ensures Trailing(Run(c, before + after).log, |Run(c, before).log|, kind) <= Counter(Run(c, before + after), kind)
    decreases |after|
  {
    hide Next;
    if |after| == 0 {
      assert before + after == before;
    } else {
      var n := |after| - 1;
      var rest := after[..n];
      assert (before + after)[..|before + after| - 1] == before + rest;
      assert after[..|after|] == after;
      forall i | 0 <= i <= n ensures Queue(Run(c, before + rest[..i]), Other(kind)) != [] {
        assert rest[..i] == after[..i];
      }
      TrailingCounted(c, before, rest, kind);
      var w, v, from := Run(c, before + rest), Run(c, before + after), |Run(c, before).log|;
      assert v == Next(c, w, after[n]);
      CounterStep(c, w, after[n], kind);
      TrailingStep(w.log, kind, from, kind);
      TrailingStep(w.log, Other(kind), from, kind);
    }
  }

  /** While DATA stays available, ack_quota + 1 dequeues in a row are never all
      ACKs; while ACK stays available, two in a row are never both DATA. */
  lemma Fair(c: Config, before: seq<Event>, after: seq<Event>)
    requires c.quota > 0
    ensures Throughout(c, before, after, Data) ==> Trailing(Run(c, before + after).log, |Run(c, before).log|, Ack) <= c.quota
    ensures Throughout(c, before, after, Ack) ==> Trailing(Run(c, before + after).log, |Run(c, before).log|, Data) <= 1
  {
    if Throughout(c, before, after, Data) { TrailingCounted(c, before, after, Ack); }
    if Throughout(c, before, after, Ack) { TrailingCounted(c, before, after, Data); }
    RunKeeps(c, before + after);
  }

  // ---------------------------------------------------------------------
  // Nothing is lost, made up or overtaken.

  /** Accepted packets are given out or still queued, in order unless one jumped. */
  ghost predicate Balanced(accepted: seq<nat>, given: seq<nat>, queue: seq<nat>, jumped: bool) {
    multiset(accepted) == multiset(given) + multiset(queue) && (!jumped ==> accepted == given + queue)
  }

  lemma BalancedAdd(accepted: seq<nat>, given: seq<nat>, queue: seq<nat>, jumped: bool, p: nat, preferHead: bool)
    requires Balanced(accepted, given, queue, jumped)
    ensures Balanced(accepted + [p], given, if preferHead then [p] + queue else queue + [p], jumped || preferHead)
    ensures Balanced(accepted, given, queue, true)
  {}

  lemma BalancedTake(accepted: seq<nat>, given: seq<nat>, queue: seq<nat>, jumped: bool)
    requires Balanced(accepted, given, queue, jumped) && queue != []
    ensures Balanced(accepted, given + [queue[0]], queue[1..], jumped)
  {
    assert queue == [queue[0]] + queue[1..];
  }

  ghost predicate Conserved(w: World, kind: Kind) {
    Balanced(Accepted(w.passed, kind), Given(w.passed, kind), Queue(w, kind), w.passed.jumped)
  }

  lemma TookConserves(c: Config, w: World, k: Kind, kind: Kind)
    requires Conserved(w, kind) && Queue(w, k) != []
    ensures Conserved(Took(c, w, k), kind)
  {
    hide Balanced;
    if k == kind { BalancedTake(Accepted(w.passed, kind), Given(w.passed, kind), Queue(w, kind), w.passed.jumped); }
  }

  lemma SameConserves(w: World, v: World, kind: Kind)
    requires Conserved(w, kind) && v.ack == w.ack && v.data == w.data && v.passed == w.passed
    ensures Conserved(v, kind)
  {
    hide Balanced;
  }

  lemma EnqueueConserves(c: Config, w: World, e: Event, kind: Kind)
    requires Conserved(w, kind) && e.EvEnqueue?
    ensures Conserved(Step(c, w, e), kind)
  {
    hide Balanced;
    BalancedAdd(Accepted(w.passed, kind), Given(w.passed, kind), Queue(w, kind), w.passed.jumped, e.packet, e.preferHead);
  }

  lemma NextConserves(c: Config, w: World, e: Event, kind: Kind)
    requires Conserved(w, kind)
    ensures Conserved(Next(c, w, e), kind)
  {
    hide FirstKind, Conserved, Took, Queue;
    var v := Step(c, w, e);
    if e.EvEnqueue? {
      EnqueueConserves(c, w, e, kind);
    } else if e.EvDequeuer? && w.pc.TryFirst? && Queue(w, FirstKind(c, w)) != [] {
      TookConserves(c, w, FirstKind(c, w), kind);
    } else if e.EvDequeuer? && w.pc.TrySecond? && Queue(w, Other(FirstKind(c, w))) != [] {
      TookConserves(c, w, Other(FirstKind(c, w)), kind);
    } else {
      SameConserves(w, v, kind);
    }
    SameConserves(v, Next(c, w, e), kind);
  }

  /** What a queue accepted is what it gave out and still holds; in order, as long
      as no packet asked for the head. */
  lemma {:induction false} RunConserves(c: Config, events: seq<Event>, kind: Kind)
    ensures var w := Run(c, events); Balanced(Accepted(w.passed, kind), Given(w.passed, kind), Queue(w, kind), w.passed.jumped)
  {
    if |events| > 0 {
      hide Next, Balanced;
      RunConserves(c, events[..|events| - 1], kind);
      NextConserves(c, Run(c, events[..|events| - 1]), events[|events| - 1], kind);
    }
  }

  // ---------------------------------------------------------------------
  // The choice, read off the log.

  /** The kind that has precedence after that log: DATA exactly when at least
      ack_quota ACKs have gone since the last DATA. */
  function Preferred(c: Config, log: seq<Kind>): (k: Kind) {
    if Trailing(log, 0, Ack) >= c.quota then Data else Ack
  }

  /** The counter is the number of ACKs since the last DATA, up to the quota. */
  ghost predicate CountsAcks(c: Config, w: World) {
    w.consecutive == if Trailing(w.log, 0, Ack) < c.quota then Trailing(w.log, 0, Ack) else c.quota
  }

  ghost predicate Counts(c: Config, w: World, v: World) {
    (v.log == w.log && v.consecutive == w.consecutive) ||
    (v.log == w.log + [Ack] && v.consecutive == if w.consecutive >= c.quota then w.consecutive else w.consecutive + 1) ||
    (v.log == w.log + [Data] && v.consecutive == 0)
  }

  lemma TookCounts(c: Config, w: World, kind: Kind)
    requires Queue(w, kind) != []
    ensures Counts(c, w, Took(c, w, kind))
  {}

  lemma DequeuerCounts(c: Config, w: World)
    ensures Counts(c, w, DequeuerStep(c, w))
  {
    hide FirstKind, Took, Queue, Down;
    if w.pc.TryFirst? && Queue(w, FirstKind(c, w)) != [] {
      TookCounts(c, w, FirstKind(c, w));
    } else if w.pc.TrySecond? && Queue(w, Other(FirstKind(c, w))) != [] {
      TookCounts(c, w, Other(FirstKind(c, w)));
    }
  }

  lemma CounterMoves(c: Config, w: World, e: Event)
    ensures Counts(c, w, Next(c, w, e))
  {
    hide DequeuerStep, Dequeued, Queue, Down;
    DequeuerCounts(c, w);
  }

  lemma AcksMore(log: seq<Kind>)
    ensures Trailing(log + [Ack], 0, Ack) == Trailing(log, 0, Ack) + 1 && Trailing(log + [Data], 0, Ack) == 0
  {
    assert (log + [Ack])[..|log|] == log;
  }

  lemma StepCountsAcks(c: Config, w: World, e: Event)
    requires CountsAcks(c, w)
    ensures CountsAcks(c, Next(c, w, e))
  {
    hide Next, Trailing;
    CounterMoves(c, w, e);
    AcksMore(w.log);
  }

  lemma {:induction false} RunCountsAcks(c: Config, events: seq<Event>)
    ensures CountsAcks(c, Run(c, events)) && FirstKind(c, Run(c, events)) == Preferred(c, Run(c, events).log)
  {
    if |events| > 0 {
      hide Next;
      RunCountsAcks(c, events[..|events| - 1]);
      StepCountsAcks(c, Run(c, events[..|events| - 1]), events[|events| - 1]);
    }
  }

  /** Event i tried the preferred queue and found it empty, and nothing has been
      dequeued since. */
  ghost predicate FoundEmpty(c: Config, events: seq<Event>, i: nat) {
    i < |events| && events[i].EvDequeuer? && Run(c, events[..i]).pc.TryFirst? &&
    Run(c, events[..i]).log == Run(c, events).log && Queue(Run(c, events[..i]), Preferred(c, Run(c, events).log)) == []
  }

  /** The second queue is tried only after the first was found empty. */
  lemma SecondAfterFirst(c: Config, w: World, e: Event)
    requires Next(c, w, e).pc.TrySecond?
    ensures Next(c, w, e).log == w.log
    ensures w.pc.TrySecond? || (e.EvDequeuer? && w.pc.TryFirst? && Queue(w, FirstKind(c, w)) == [])
  {
    hide FirstKind, Dequeued;
  }

  lemma {:induction false} SecondTry(c: Config, events: seq<Event>) returns (i: nat)
    requires Run(c, events).pc.TrySecond?
    ensures FoundEmpty(c, events, i)
  {
    hide FirstKind, Preferred, Next;
    var n := |events| - 1;
    RunCountsAcks(c, events[..n]);
    SecondAfterFirst(c, Run(c, events[..n]), events[n]);
    if Run(c, events[..n]).pc.TrySecond? {
      i := SecondTry(c, events[..n]);
      assert events[..n][..i] == events[..i];
    } else {
      i := n;
    }
  }

  /** Every dequeue of every run: the preferred kind, or the other one after the
      preferred queue was tried and found empty in the same call. */
  lemma ChoiceExact(c: Config, events: seq<Event>, kind: Kind)
    requires Next(c, Run(c, events), EvDequeuer).log == Run(c, events).log + [kind]
    ensures kind == Preferred(c, Run(c, events).log) || exists i :: FoundEmpty(c, events, i)
  {
    var w := Run(c, events);
    RunCountsAcks(c, events);
    assert (w.log + [kind])[|w.log|] == kind;
    if w.pc.TrySecond? { var i := SecondTry(c, events); } else { TookKind(c, w, kind); }
  }

  lemma TookKind(c: Config, w: World, kind: Kind)
    requires Next(c, w, EvDequeuer).log == w.log + [kind] && !w.pc.TrySecond?
    ensures kind == FirstKind(c, w)
  {
    assert (w.log + [kind])[|w.log|] == kind;
    assert (w.log + [FirstKind(c, w)])[|w.log|] == FirstKind(c, w);
  }

  /** Both queues non-empty from before on. */
  ghost predicate Busy(c: Config, before: seq<Event>, after: seq<Event>) {
    Throughout(c, before, after, Ack) && Throughout(c, before, after, Data)
  }

  lemma BusyPrefix(c: Config, before: seq<Event>, after: seq<Event>, n: nat)
    requires Busy(c, before, after) && n <= |after|
    ensures Busy(c, before, after[..n])
  {
    hide Run;
    forall i | 0 <= i <= n ensures after[..n][..i] == after[..i] {}
  }

  /** In busy times the second queue is never tried. */
  lemma {:induction false} BusyFirst(c: Config, before: seq<Event>, after: seq<Event>)
    requires Busy(c, before, after) && !Run(c, before).pc.TrySecond?
    ensures !Run(c, before + after).pc.TrySecond?
    decreases |after|
  {
    hide FirstKind, Next;
    if |after| == 0 {
      assert before + after == before;
    } else {
      var n := |after| - 1;
      BusyPrefix(c, before, after, n);
      BusyFirst(c, before, after[..n]);
      assert (before + after)[..|before + after| - 1] == before + after[..n];
      var w := Run(c, before + after[..n]);
      assert Queue(w, Ack) != [] && Queue(w, Data) != [];
      if Run(c, before + after).pc.TrySecond? { SecondAfterFirst(c, w, after[n]); }
    }
  }

  /** While both queues stay non-empty, what is dequeued is decided by the log:
      DATA exactly when ack_quota ACKs have gone since the last DATA. So full
      runs of ack_quota ACKs alternate with single DATA. */
  lemma {:induction false} BusyLog(c: Config, before: seq<Event>, after: seq<Event>)
    requires Busy(c, before, after) && !Run(c, before).pc.TrySecond?
    ensures var log, from := Run(c, before + after).log, |Run(c, before).log|;
            from <= |log| && log[..from] == Run(c, before).log &&
            forall i :: from <= i < |log| ==> log[i] == Preferred(c, log[..i])
    decreases |after|
  {
    hide Next, Preferred;
    if |after| == 0 {
      assert before + after == before;
    } else {
      var n := |after| - 1;
      BusyPrefix(c, before, after, n);
      BusyLog(c, before, after[..n]);
      BusyFirst(c, before, after[..n]);
      assert (before + after)[..|before + after| - 1] == before + after[..n];
      var w, v := Run(c, before + after[..n]), Run(c, before + after);
      RunCountsAcks(c, before + after[..n]);
      OneMore(c, w, after[n]);
      var log, from := v.log, |Run(c, before).log|;
      forall i | from <= i < |log| ensures log[i] == Preferred(c, log[..i]) {
        if i < |w.log| { assert log[..i] == w.log[..i] && log[i] == w.log[i]; } else { assert log[..i] == w.log; }
      }
    }
  }

  lemma OneMore(c: Config, w: World, e: Event)
    requires !w.pc.TrySecond?
    ensures var v := Next(c, w, e); v.log == w.log || v.log == w.log + [FirstKind(c, w)]
  {}

  function Tries(c: Config, w: World, n: nat): (v: World)
    decreases n
  {
    if n == 0 then w else Tries(c, Next(c, w, EvDequeuer), n - 1)
  }

  /** A call with something queued dequeues within three steps of its own, the
      preferred kind if there is one of it. */
  lemma Serves(c: Config, events: seq<Event>)
    requires var w := Run(c, events); w.pc == Observe && (w.ack != [] || w.data != [])
    ensures var w := Run(c, events);
            var k := Preferred(c, w.log);
            if Queue(w, k) != [] then Tries(c, w, 2).log == w.log + [k] else Tries(c, w, 3).log == w.log + [Other(k)]
  {
    RunCountsAcks(c, events);
    hide Preferred, Trailing;
    var w := Run(c, events);
    var v := Next(c, w, EvDequeuer);
    assert Tries(c, w, 2) == Tries(c, v, 1) == Next(c, v, EvDequeuer);
    assert Tries(c, w, 3) == Tries(c, Next(c, v, EvDequeuer), 1) == Next(c, Next(c, v, EvDequeuer), EvDequeuer);
  }

  /** A producer's packet is taken exactly when its queue is up and not full; it
      is then last, or first if it asks for the head, and a notification is owed. */
  lemma EnqueueExact(c: Config, w: World, kind: Kind, p: nat, preferHead: bool)
    ensures var v := Next(c, w, EvEnqueue(kind, p, preferHead));
            Queue(v, Other(kind)) == Queue(w, Other(kind)) && v.pc == w.pc && v.log == w.log &&
            if !Down(w, kind) && |Queue(w, kind)| < c.capacity
            then Queue(v, kind) == (if preferHead then [p] + Queue(w, kind) else Queue(w, kind) + [p]) && v.owed == w.owed + 1
            else Queue(v, kind) == Queue(w, kind) && v.owed == w.owed
  {}

  // ---------------------------------------------------------------------
  // The end of the stream.

  predicate Drained(w: World, kind: Kind) { Down(w, kind) && Queue(w, kind) == [] }

  /** A queue found shut down and empty stays so. */
  ghost predicate EndInv(c: Config, w: World) {
    (w.pc.TrySecond? && w.pc.firstDown ==> Drained(w, FirstKind(c, w))) && (w.pc.Ended? ==> Drained(w, Ack) && Drained(w, Data))
  }

  lemma StaysDrained(c: Config, w: World, e: Event, kind: Kind)
    requires Drained(w, kind)
    ensures Drained(Next(c, w, e), kind)
  {
    hide FirstKind, Dequeued;
  }

  lemma StepEnds(c: Config, w: World, e: Event)
    requires EndInv(c, w)
    ensures EndInv(c, Next(c, w, e))
  {
    var v := Next(c, w, e);
    if w.pc.TrySecond? && w.pc.firstDown { StaysDrained(c, w, e, FirstKind(c, w)); }
    if w.pc.Ended? {
      StaysDrained(c, w, e, Ack);
      StaysDrained(c, w, e, Data);
    }
    hide Drained, Dequeued;
    if e.EvDequeuer? { DequeuerEnds(c, w); } else { ProducerScope(c, w, e); }
  }

  lemma ProducerScope(c: Config, w: World, e: Event)
    requires !e.EvDequeuer?
    ensures var v := Next(c, w, e); FirstKind(c, v) == FirstKind(c, w) && (v.pc == w.pc || (w.pc.Waiting? && v.pc.Check?))
  {}

  lemma DequeuerEnds(c: Config, w: World)
    ensures var v := Next(c, w, EvDequeuer);
            (v.pc.TrySecond? ==> FirstKind(c, v) == FirstKind(c, w) && w.pc.TryFirst? && (v.pc.firstDown ==> Drained(v, FirstKind(c, v)))) &&
            (v.pc.Ended? && !w.pc.Ended? ==> w.pc.TrySecond? && w.pc.firstDown && Drained(v, Other(FirstKind(c, w))))
  {
    hide Dequeued;
  }

  lemma {:induction false} RunEnds(c: Config, events: seq<Event>)
    ensures EndInv(c, Run(c, events))
  {
    if |events| > 0 {
      hide Next, EndInv;
      RunEnds(c, events[..|events| - 1]);
      StepEnds(c, Run(c, events[..|events| - 1]), events[|events| - 1]);
    } else {
      assert EndInv(c, START);
    }
  }

  /** A call reports the end only with both queues shut down and drained, and then
      it does so within three steps of its own. */
  lemma EndsExactly(c: Config, events: seq<Event>)
    ensures var w := Run(c, events);
            (w.pc.Ended? ==> w.ackDown && w.dataDown && w.ack == [] && w.data == []) &&
            (w.pc == Observe && w.ackDown && w.dataDown && w.ack == [] && w.data == [] ==> Tries(c, w, 3).pc.Ended?)
  {
    RunEnds(c, events);
    var w := Run(c, events);
    hide Run;
    if w.pc == Observe && w.ackDown && w.dataDown && w.ack == [] && w.data == [] {
      var v := Next(c, w, EvDequeuer);
      assert Tries(c, w, 3) == Tries(c, Next(c, v, EvDequeuer), 1) == Next(c, Next(c, v, EvDequeuer), EvDequeuer) by {
        assert Tries(c, w, 3) == Tries(c, v, 2);
      }
    }
  }
}
