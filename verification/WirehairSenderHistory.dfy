/** The sender's window over every run: what it admits, what is acknowledged, and
    when END goes out. */
module WirehairSenderHistory {
  import Gf256
  import opened WirehairCore
  import opened WirehairSender
  import opened WirehairReceiver
  import opened WirehairProtocol

  /** The segments whose acknowledgement reached the sender in the first n events. */
  ghost function Acknowledged(es: seq<Event>, n: nat): (ids: set<nat>)
    requires n <= |es|
  {
    if n == 0 then {} else Acknowledged(es, n - 1) + if es[n - 1].EvAck? then {es[n - 1].ack} else {}
  }

  /** The window begins at the first segment not acknowledged, and inside it the
      acknowledged ones are marked. */
  ghost predicate Marked(s: Sender, ids: set<nat>) {
    (forall id: nat :: id < s.base ==> id in ids) && (|s.segments| > 0 ==> s.base !in ids) &&
    (forall j :: 0 <= j < |s.segments| ==> (s.segments[j].acked <==> s.base + j in ids)) &&
    s.acks <= ids && forall id :: id in ids ==> id < NextId(s)
  }

  lemma ReleaseMarks(s: Sender, ids: set<nat>)
    requires forall id: nat :: id < s.base ==> id in ids
    requires forall j :: 0 <= j < |s.segments| ==> (s.segments[j].acked <==> s.base + j in ids)
    requires s.acks <= ids && forall id :: id in ids ==> id < NextId(s)
    ensures Marked(Release(s), ids)
  {
    hide Release;
    ReleaseKeepsData(s);
    var t := Release(s);
    var d := t.base - s.base;
    assert |t.segments| > 0 ==> t.segments[0] == s.segments[d] && !s.segments[d].acked && s.base + d == t.base;
    forall id: nat | id < t.base ensures id in ids {
      if id >= s.base { assert s.segments[id - s.base].acked; }
    }
    forall j | 0 <= j < |t.segments| ensures t.segments[j].acked <==> t.base + j in ids {
      assert t.segments[j] == s.segments[j + (t.base - s.base)];
    }
  }

  lemma AckMarks(c: Config, s: Sender, id: nat, ids: set<nat>)
    requires Marked(s, ids) && id < NextId(s) <= s.base + c.window
    ensures Marked(InputAck(c, s, id), ids + {id})
  {
    hide Release;
    ReleaseMarks(ApplyAcks(MarkAck(c, s, id)), ids + {id});
  }

  lemma ApplyMarks(s: Sender, ids: set<nat>)
    requires Marked(s, ids)
    ensures Marked(Release(ApplyAcks(s)), ids)
  {
    hide Release;
    ReleaseMarks(ApplyAcks(s), ids);
  }

  lemma {:induction false} TickFromMarks(f: Fountain, c: Config, s: Sender, j: nat, pending: bool, now: nat, wait: nat, budget: nat)
    requires j <= |s.segments| && DataFits(s)
    ensures var t := TickFrom(f, c, s, j, pending, now, wait, budget).sender;
            t.base == s.base && t.acks == s.acks && |t.segments| == |s.segments| &&
            forall x :: 0 <= x < |s.segments| ==> t.segments[x].acked == s.segments[x].acked
    decreases |s.segments| - j
  {
    hide VisitSegment;
    if j < |s.segments| {
      VisitKeepsData(f, c, s.base + j, s.segments[j], j == 0, pending, now, wait, budget);
      var v := VisitSegment(f, c, s.base + j, s.segments[j], j == 0, pending, now, wait, budget);
      if v.outcome.Go? { TickFromMarks(f, c, s.(segments := s.segments[j := v.segment]), j + 1, pending, now, wait, v.budget); }
    }
  }

  lemma TickMarks(f: Fountain, c: Config, s: Sender, now: nat, wait: nat, budget: nat, ids: set<nat>)
    requires DataFits(s) && Marked(s, ids)
    ensures Marked(Tick(f, c, s, now, wait, budget).sender, ids)
  {
    hide TickFrom, Release, SourcePending;
    if !s.failed {
      ApplyMarks(s, ids);
      ReleaseKeepsData(ApplyAcks(s));
      var t := Release(ApplyAcks(s));
      TickFromMarks(f, c, t, 0, SourcePending(t), now, wait, budget);
    }
  }

  lemma StepMarks(f: Fountain, c: Config, w: World, e: Event, ids: set<nat>)
    requires Inv(f, c, w) && Enabled(w, e) && DataFits(w.s) && Marked(w.s, ids)
    ensures Marked(Next(f, c, w, e).s, if e.EvAck? then ids + {e.ack} else ids)
  {
    WindowOf(f, c, w);
    match e {
      case EvAck(id) => AckKnown(f, c, w, id); AckMarks(c, w.s, id, ids);
      case EvTick(now, wait, budget) => TickMarks(f, c, w.s, now, wait, budget, ids);
      case _ =>
        hide Inv, Ingest, Tick, InputAck;
    }
  }

  lemma WindowOf(f: Fountain, c: Config, w: World)
    requires Inv(f, c, w)
    ensures NextId(w.s) == |w.input| && |w.s.segments| <= c.window
  {}

  lemma AckKnown(f: Fountain, c: Config, w: World, id: nat)
    requires Inv(f, c, w) && id in w.acks
    ensures id < |w.input|
  {
    assert Recovered(w.r, id);
  }

  /** In every run the window begins at the first segment whose acknowledgement has
      not come, and inside it exactly the acknowledged segments are marked. */
  lemma {:induction false} BaseExactly(f: Fountain, c: Config, ws: seq<World>, es: seq<Event>, n: nat)
    requires Sound(f) && ConfigValid(c) && Run(f, c, ws, es) && n < |ws|
    ensures var s, ids := ws[n].s, Acknowledged(es, n);
            (forall id: nat :: id < s.base ==> id in ids) && s.base !in ids &&
            (forall j :: 0 <= j < |s.segments| ==> (s.segments[j].acked <==> s.base + j in ids))
    ensures Marked(ws[n].s, Acknowledged(es, n))
  {
    hide Next, Sound, ConfigValid, Inv;
    if n > 0 {
      BaseExactly(f, c, ws, es, n - 1);
      RunInv(f, c, ws, es, n - 1);
      assert Enabled(ws[n - 1], es[n - 1]) && ws[n - 1 + 1] == Next(f, c, ws[n - 1], es[n - 1]);
      StepMarks(f, c, ws[n - 1], es[n - 1], Acknowledged(es, n - 1));
    }
  }

  /** A segment is admitted exactly when it is the next in order, not empty, not
      over the configured size, the input is still open, the sender has not failed,
      and fewer than a window of segments are unreleased. */
  lemma AdmitsExactly(f: Fountain, c: Config, w: World, id: nat, data: Gf256.Bytes)
    requires Inv(f, c, w) && DataFits(w.s)
    ensures w.s.base <= |w.input| &&
            var w' := Next(f, c, w, EvAdmit(id, data));
            w'.input == if id == |w.input| && 0 < |data| <= c.segmentBytes && !w.s.finished && !w.s.failed && |w.input| - w.s.base < c.window
                        then w.input + [data] else w.input
  {
    WindowOf(f, c, w);
    hide Inv;
  }

  /** END, with the number of segments, goes out exactly when the input is finished,
      every segment is released, and it has not gone out before. */
  lemma EndExactly(f: Fountain, c: Config, w: World, linkOk: bool)
    requires Inv(f, c, w) && DataFits(w.s)
    ensures var w' := Next(f, c, w, EvEnd(linkOk));
            var due := w.s.finished && w.s.base == |w.input| && !w.s.endEmitted && !w.s.failed;
            w'.net == (if due && linkOk then w.net + {EndPacket(|w.input|)} else w.net) &&
            w'.s.endEmitted == (w.s.endEmitted || (due && linkOk)) && w'.s.failed == (w.s.failed || (due && !linkOk))
  {
    WindowOf(f, c, w);
    hide Inv;
  }
}
