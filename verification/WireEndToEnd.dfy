/** Reed-Solomon coding and the wire decoder together. */
module WireEndToEnd {
  import opened Generator
  import opened RsWireCodec
  import WireDecoder
  import opened WireStream
  import opened WireDelivery
  import opened WireRuns
  import opened WireWindow
  import opened WireCompletion
  import WireFlowDecoder

  ghost function RsConfig(k: nat, r: nat, bestEffort: bool): (c: WireDecoder.Config)
    requires ValidGeometry(k, r)
  {
    WireDecoder.Config(BlockCodec(k, r), bestEffort)
  }

  lemma RsSetting(k: nat, r: nat, bestEffort: bool, s: Stream)
    requires ValidGeometry(k, r) && StreamOk(RsConfig(k, r, bestEffort), s)
    ensures Setting(RsConfig(k, r, bestEffort), s)
  {
    BlockCodecOk(k, r);
  }

  /** Up to 46 data shards, whatever the network does: the strict output is the
      source up to a block boundary, and all of it once complete. */
  lemma RsStrictDelivery(k: nat, r: nat, s: Stream, arrivals: seq<Arrival>)
    requires ValidGeometry(k, r) && k <= 46
    requires var c := RsConfig(k, r, false); StreamOk(c, s) && Heard(c, s, arrivals)
    ensures var d := Run(RsConfig(k, r, false), arrivals);
            d.nextEmit <= |s.blocks| && d.output == Concat(s.blocks[..d.nextEmit]) && (d.complete ==> d.output == Concat(s.blocks))
  {
    hide BlockCodec, Run, Heard, Setting;
    var c := RsConfig(k, r, false);
    RsSetting(k, r, false, s);
    StrictExact(c, s, arrivals);
    GeometryFitsLengthField(k);
    KOf(k, r);
  }

  lemma KOf(k: nat, r: nat)
    requires ValidGeometry(k, r)
    ensures WireDecoder.InputSize(RsConfig(k, r, false)) == k * WireDecoder.PKG_SIZE && BlockCodec(k, r).k == k
  {}

  /** In every run with a willing sink, END anywhere and repeated: the whole source
      is delivered exactly when END has arrived and k shards of every block count. */
  lemma RsDeliversExactly(k: nat, r: nat, s: Stream, arrivals: seq<Arrival>)
    requires ValidGeometry(k, r) && k <= 46
    requires var c := RsConfig(k, r, false); StreamOk(c, s) && Heard(c, s, arrivals) && !Run(c, arrivals).refused
    ensures var c := RsConfig(k, r, false);
            var d := Run(c, arrivals);
            (d.complete <==> EndHeard(c, arrivals) && forall b: nat :: b < |s.blocks| ==> |Of(TallyOf(c, arrivals).got, b)| >= k) &&
            (d.complete ==> d.output == Concat(s.blocks))
  {
    hide BlockCodec, Run, Setting, Of, TallyOf;
    var c := RsConfig(k, r, false);
    RsSetting(k, r, false, s);
    KOf(k, r);
    StrictCompletesExactly(c, s, arrivals);
    RsStrictDelivery(k, r, s, arrivals);
  }

  /** Data in any order, none of it too far ahead, then END: that is when k shards
      of every block arrived. */
  lemma RsDeliversInOrder(k: nat, r: nat, s: Stream, arrivals: seq<Arrival>, sink: nat)
    requires ValidGeometry(k, r) && k <= 46
    requires var c := RsConfig(k, r, false);
             var all := arrivals + [Arrival(WireDecoder.End(|s.blocks|, WireDecoder.Shards(c), 0), sink)];
             StreamOk(c, s) && Heard(c, s, arrivals) && !Run(c, all).refused && !EndHeard(c, arrivals) && NeverAhead(c, arrivals)
    ensures var c := RsConfig(k, r, false);
            var all := arrivals + [Arrival(WireDecoder.End(|s.blocks|, WireDecoder.Shards(c), 0), sink)];
            Run(c, all).complete <==> forall b: nat :: b < |s.blocks| ==> |Of(Delivered(c, arrivals), b)| >= k
  {
    hide BlockCodec, Run, Of, Delivered, Short, NeverAhead;
    var c := RsConfig(k, r, false);
    var end := Arrival(WireDecoder.End(|s.blocks|, WireDecoder.Shards(c), 0), sink);
    var all := arrivals + [end];
    assert all[..|arrivals|] == arrivals;
    assert all[|arrivals|] == end && WireDecoder.HeaderOk(c, end.datagram);
    KeptIsDelivered(c, arrivals);
    RsDeliversExactly(k, r, s, all);
    assert TallyOf(c, all).got == Delivered(c, arrivals);
  }

  /** Arrival i is taken in without a failure. */
  ghost predicate Goes(c: WireDecoder.Config, arrivals: seq<Arrival>, i: nat)
    requires i < |arrivals|
  {
    WireDecoder.Ingest(c, Run(c, arrivals[..i]), arrivals[i].datagram, arrivals[i].sink).ok
  }

  /** The decoding thread: arrival after arrival into the decoder object, up to
      and including the first that fails. */
  method Feed(c: WireDecoder.Config, arrivals: seq<Arrival>) returns (decoder: WireFlowDecoder.FlowDecoder, fed: nat, failed: bool)
    ensures fed <= |arrivals| && decoder.Valid() && decoder.c == c && decoder.Abs() == Run(c, arrivals[..fed])
    ensures if failed then fed > 0 && !Goes(c, arrivals, fed - 1) else fed == |arrivals|
    ensures forall i :: 0 <= i < fed && !(failed && i == fed - 1) ==> Goes(c, arrivals, i)
  {
    hide WireDecoder.Ingest;
    decoder := new WireFlowDecoder.FlowDecoder(c);
    fed, failed := 0, false;
    while fed < |arrivals|
      invariant fed <= |arrivals| && decoder.Valid() && decoder.c == c && decoder.Abs() == Run(c, arrivals[..fed])
      invariant fresh(decoder) && !failed && forall i :: 0 <= i < fed ==> Goes(c, arrivals, i)
    {
      assert arrivals[..fed + 1][..fed] == arrivals[..fed];
      var ok := decoder.IngestDatagram(arrivals[fed].datagram, arrivals[fed].sink);
      fed := fed + 1;
      if !ok {
        return decoder, fed, true;
      }
    }
  }
}
