/** The recovered ring under concurrent readers. The decoder thread stores the
    ring's two arrays one atomic access at a time; acknowledging threads load
    them, in the other order, at any moment in between. */
module WirehairAckReader {
  import opened WirehairCore

  /** Where the decoder thread is inside mark_recovered or clear_recovered. */
  datatype Writer = Idle | IdStored(marking: nat) | IdMatched(clearing: nat)

  /** readers: threads that have loaded a set valid flag for their segment.
      recovered: segments whose slot has been recovered so far.
      claims: segments for which some reader has answered yes. */
  datatype Shared = Shared(ids: seq<nat>, valid: seq<bool>, writer: Writer, readers: map<nat, nat>,
                           recovered: set<nat>, claims: set<nat>)

  datatype Access =
    | RecoverSlot(segment: nat)
    | StoreId(segment: nat)
    | StoreValid
    | LoadIdToClear(segment: nat)
    | StoreInvalid
    | LoadValid(thread: nat, segment: nat)
    | LoadId(thread: nat)

  const START := Shared(seq(WINDOW_MAX, i => 0), seq(WINDOW_MAX, i => false), Idle, map[], {}, {})

  predicate Sized(s: Shared) {
    |s.ids| == |s.valid| == WINDOW_MAX
  }

  /** One atomic access. A slot is recovered before its segment is marked. */
  function Next(s: Shared, a: Access): (t: Shared)
    requires Sized(s)
    ensures Sized(t)
  {
    match a
    case RecoverSlot(segment) => if s.writer.Idle? then s.(recovered := s.recovered + {segment}) else s
    case StoreId(segment) =>
      if s.writer.Idle? && segment in s.recovered
      then s.(ids := s.ids[segment % WINDOW_MAX := segment], writer := IdStored(segment)) else s
    case StoreValid =>
      if s.writer.IdStored?
      then s.(valid := s.valid[s.writer.marking % WINDOW_MAX := true], writer := Idle) else s
    case LoadIdToClear(segment) =>
      if s.writer.Idle? && s.ids[segment % WINDOW_MAX] == segment then s.(writer := IdMatched(segment)) else s
    case StoreInvalid =>
      if s.writer.IdMatched?
      then s.(valid := s.valid[s.writer.clearing % WINDOW_MAX := false], writer := Idle) else s
    case LoadValid(thread, segment) =>
      if thread !in s.readers && s.valid[segment % WINDOW_MAX] then s.(readers := s.readers[thread := segment]) else s
    case LoadId(thread) =>
      if thread !in s.readers then s
      else
        var segment := s.readers[thread];
        var yes := s.ids[segment % WINDOW_MAX] == segment;
        s.(readers := s.readers - {thread}, claims := if yes then s.claims + {segment} else s.claims)
  }

  function Run(s: Shared, accesses: seq<Access>): (t: Shared)
    requires Sized(s)
    ensures Sized(t)
    decreases |accesses|
  {
    if accesses == [] then s else Run(Next(s, accesses[0]), accesses[1..])
  }

  /** The id at index i was stored by a mark, and so names a recovered segment. */
  predicate Genuine(s: Shared, i: nat)
    requires Sized(s) && i < WINDOW_MAX
  {
    s.ids[i] in s.recovered
  }

  ghost predicate Inv(s: Shared) {
    Sized(s) && s.claims <= s.recovered &&
    (forall i :: 0 <= i < WINDOW_MAX && s.valid[i] ==> Genuine(s, i)) &&
    (s.writer.IdStored? ==> Genuine(s, s.writer.marking % WINDOW_MAX)) &&
    (forall thread :: thread in s.readers ==> Genuine(s, s.readers[thread] % WINDOW_MAX))
  }

  lemma NextKeepsInv(s: Shared, a: Access)
    requires Inv(s)
    ensures Inv(Next(s, a)) && s.recovered <= Next(s, a).recovered
  {}

  lemma {:induction false} RunKeepsInv(s: Shared, accesses: seq<Access>)
    requires Inv(s)
    ensures Inv(Run(s, accesses))
    decreases |accesses|
  {
    if accesses != [] {
      NextKeepsInv(s, accesses[0]);
      RunKeepsInv(Next(s, accesses[0]), accesses[1..]);
    }
  }

  /** In every interleaving, a segment some reader acknowledged was recovered. */
  lemma ClaimsAreRecovered(accesses: seq<Access>)
    ensures Run(START, accesses).claims <= Run(START, accesses).recovered
  {
    RunKeepsInv(START, accesses);
  }

  /** Between the decoder thread's updates a reader answers yes exactly when the
      ring holds the segment. */
  lemma ReaderAnswers(s: Shared, thread: nat, segment: nat)
    requires Sized(s) && thread !in s.readers
    ensures var t := Run(s, [LoadValid(thread, segment), LoadId(thread)]);
            t.claims == if Holds(s.ids, s.valid, segment) then s.claims + {segment} else s.claims
  {
    Two(s, LoadValid(thread, segment), LoadId(thread));
  }

  lemma Two(s: Shared, a: Access, b: Access)
    requires Sized(s)
    ensures Run(s, [a, b]) == Next(Next(s, a), b)
  {
    hide Next;
    assert [a, b][1..] == [b] && [b][1..] == [];
    assert Run(Next(s, a), [b]) == Run(Next(Next(s, a), b), []);
  }

  /** Marking a recovered segment puts it into the ring, and clearing takes it out. */
  lemma MarkAndClear(s: Shared, segment: nat)
    requires Sized(s) && s.writer.Idle? && segment in s.recovered
    ensures var t := Run(s, [StoreId(segment), StoreValid]);
            t.writer.Idle? && Holds(t.ids, t.valid, segment) &&
            var u := Run(t, [LoadIdToClear(segment), StoreInvalid]);
            u.writer.Idle? && !Holds(u.ids, u.valid, segment)
  {
    Two(s, StoreId(segment), StoreValid);
    Two(Run(s, [StoreId(segment), StoreValid]), LoadIdToClear(segment), StoreInvalid);
  }
}
