/** The whole program: any number of sources framed by the reader thread, whose
    pushes interleave with the steps of the logger thread in any way. */
module Pipeline {
  import opened Lines
  import opened Subsequences
  import opened RingLayout
  import opened Framing
  import LM = LoggerModel
  import opened LoggerInvariant
  import opened LoggerSteps
  import opened LoggerTheorems

  /** A source, with its history. */
  datatype Source = Source(
    framer: Framer,
    stream: seq<byte>,            // the bytes read from it
    reported: seq<seq<byte>>,     // the lines framed from them
    misfired: bool)               // a read has filled a ring whose border was at its end

  datatype State = State(
    size: nat,                    // the capacity of the ring of every source
    sources: map<int, Source>,
    current: int,                 // the source read last
    pending: seq<seq<byte>>,      // its lines still to be pushed
    done: bool,                   // the reader has pushed the sentinel
    tags: seq<int>,               // history: the source of every message pushed
    logger: LM.State)

  datatype Event =
    | Connect(source: int)
    | Read(source: int, input: Input)
    | Push
    | Post
    | Finish
    | LoggerStep(event: LM.Event)

  function Start(size: nat, hasBacklog: bool): State {
    State(size, map[], 0, [], false, [], LM.Initial(hasBacklog, []))
  }

  /** The reader thread is between two pushes. */
  predicate ReaderFree(s: State) {
    s.logger.shared.unposted == 0 && !s.done
  }

  predicate Enabled(s: State, e: Event) {
    match e
    case Connect(i) => ReaderFree(s) && s.pending == [] && i !in s.sources
    case Read(i, input) =>
      ReaderFree(s) && s.pending == [] && i in s.sources
      && Resting(s.sources[i].framer) && Possible(s.sources[i].framer, input)
    case Push => ReaderFree(s) && s.pending != [] && LM.Enabled(s.logger, LM.Store(LM.Line(s.pending[0])))
    case Post => LM.Enabled(s.logger, LM.Post)
    case Finish => ReaderFree(s) && s.pending == [] && LM.Enabled(s.logger, LM.Store(LM.Sentinel))
    case LoggerStep(event) => IsLoggers(event) && LM.Enabled(s.logger, event)
  }

  function AfterRead(source: Source, input: Input): Source
    requires Resting(source.framer) && Possible(source.framer, input)
  {
    var r := Framing.Read(source.framer, input);
    Source(r.next,
           source.stream + Taken(source.framer, input),
           source.reported + r.lines,
           source.misfired || Misfires(source.framer, input))
  }

  function Next(s: State, e: Event): State
    requires Enabled(s, e) && LM.Pos(s.logger) <= |s.logger.disk.file|
  {
    match e
    case Connect(i) => s.(sources := s.sources[i := Source(Framing.Initial(s.size), [], [], false)])
    case Read(i, input) =>
      s.(sources := s.sources[i := AfterRead(s.sources[i], input)], current := i,
         pending := Framing.Read(s.sources[i].framer, input).lines)
    case Push =>
      s.(pending := s.pending[1..], tags := s.tags + [s.current],
         logger := LM.Next(s.logger, LM.Store(LM.Line(s.pending[0]))))
    case Post => s.(logger := LM.Next(s.logger, LM.Post))
    case Finish => s.(done := true, logger := LM.Next(s.logger, LM.Store(LM.Sentinel)))
    case LoggerStep(event) => s.(logger := LM.Next(s.logger, event))
  }

  ghost predicate Reaches(s: State, events: seq<Event>, end: State)
    decreases |events|
  {
    if events == [] then end == s
    else
      && Enabled(s, events[0]) && LM.Pos(s.logger) <= |s.logger.disk.file|
      && Reaches(Next(s, events[0]), events[1..], end)
  }

  // Messages of one source

  /** The messages with a given tag, in order. */
  function Of(i: int, msgs: seq<seq<byte>>, tags: seq<int>): seq<seq<byte>>
    requires |msgs| == |tags|
  {
    if msgs == [] then []
    else (if tags[0] == i then [msgs[0]] else []) + Of(i, msgs[1..], tags[1..])
  }

  lemma {:induction false} OfAppend(i: int, a: seq<seq<byte>>, ta: seq<int>, b: seq<seq<byte>>, tb: seq<int>)
    requires |a| == |ta| && |b| == |tb|
    ensures Of(i, a + b, ta + tb) == Of(i, a, ta) + Of(i, b, tb)
  {
    if a == [] {
      assert a + b == b && ta + tb == tb;
    } else {
      assert (a + b)[1..] == a[1..] + b && (ta + tb)[1..] == ta[1..] + tb;
      OfAppend(i, a[1..], ta[1..], b, tb);
    }
  }

  lemma OfSnoc(i: int, msgs: seq<seq<byte>>, tags: seq<int>, msg: seq<byte>, tag: int)
    requires |msgs| == |tags|
    ensures Of(i, msgs + [msg], tags + [tag]) == if tag == i then Of(i, msgs, tags) + [msg] else Of(i, msgs, tags)
  {
    OfAppend(i, msgs, tags, [msg], [tag]);
    assert [msg][1..] == [] && [tag][1..] == [];
    assert Of(i, msgs, tags) + [] == Of(i, msgs, tags);
  }

  lemma OfPrefix(i: int, a: seq<seq<byte>>, msgs: seq<seq<byte>>, tags: seq<int>)
    requires |msgs| == |tags| && a <= msgs
    ensures Of(i, a, tags[..|a|]) <= Of(i, msgs, tags)
  {
    OfAppend(i, a, tags[..|a|], msgs[|a|..], tags[|a|..]);
    assert a + msgs[|a|..] == msgs && tags[..|a|] + tags[|a|..] == tags;
  }

  // The invariant

  /** A source's framer tracks its stream, and its lines are the fitting ones of
      the stream exactly as long as no read has misfired; after that some are left out. */
  predicate SourceInv(size: nat, source: Source) {
    && Resting(source.framer) && source.framer.size == size
    && Tracks(source.framer, Rest(source.stream), !source.misfired)
    && Subsequence(source.reported, Fitting(Split(source.stream), size))
    && (source.reported == Fitting(Split(source.stream), size) <==> !source.misfired)
  }

  /** The messages pushed for a source, and those pending, are the lines it reported. */
  ghost predicate PushedInv(s: State) {
    && |s.tags| == |s.logger.shared.pushed|
    && (forall line <- s.pending :: Framed(line))
    && (s.pending != [] ==> s.current in s.sources)
    && (forall tag <- s.tags :: tag in s.sources)
    && forall i | i in s.sources ::
         s.sources[i].reported ==
         Of(i, s.logger.shared.pushed, s.tags) + if s.current == i then s.pending else []
  }

  ghost predicate Invariant(s: State) {
    && s.size > 0
    && Inv(s.logger) && s.logger.past.initial == []
    && s.logger.shared.finished == s.done
    && (s.done ==> s.pending == [])
    && (forall i | i in s.sources :: SourceInv(s.size, s.sources[i]))
    && PushedInv(s)
  }

  lemma ReadKeepsSource(size: nat, source: Source, input: Input)
    requires size > 0 && SourceInv(size, source) && Possible(source.framer, input)
    ensures SourceInv(size, AfterRead(source, input))
  {
    var f, rest, taken := source.framer, Rest(source.stream), Taken(source.framer, input);
    var r := Framing.Read(f, input);
    ReadTracks(f, rest, input, !source.misfired);
    SplitAppend(source.stream, taken);
    FittingAppend(Split(source.stream), Split(rest + taken), size);
    var due, due' := Fitting(Split(source.stream), size), Fitting(Split(rest + taken), size);
    SuffixWithin(r.lines, due');
    Joined(source.reported, due, r.lines, due');
    JoinedEqual(source.reported, r.lines, due, due');
  }

  lemma {:induction false} DrainedLinesFramed(size: nat, border: int, held: seq<byte>)
    requires Within(size, border, |held|)
    ensures forall line <- Drain(size, border, held).lines :: Framed(line)
    decreases |held|
  {
    if !Blind(size, border, |held|) && NEWLINE in held {
      var n := LineLength(held);
      DrainedLinesFramed(size, BorderAfter(size, border, n), held[n..]);
    }
  }

  lemma ReadLinesFramed(f: Framer, input: Input)
    requires Resting(f) && Possible(f, input)
    ensures forall line <- Framing.Read(f, input).lines :: Framed(line)
  {
    if f.mode != Ended && input.Bytes? {
      var held := f.held + input.bytes;
      if f.mode == Oversized {
        if NEWLINE in held {
          DrainedLinesFramed(f.size, LineLength(held), held[LineLength(held)..]);
        }
      } else {
        DrainedLinesFramed(f.size, f.border, held);
      }
    }
  }

  // Every step keeps the invariant

  lemma ReadKeepsPushed(s: State, i: int, input: Input)
    requires PushedInv(s) && s.pending == [] && i in s.sources
    requires Resting(s.sources[i].framer) && Possible(s.sources[i].framer, input)
    ensures
      var source := AfterRead(s.sources[i], input);
      PushedInv(s.(sources := s.sources[i := source], current := i,
                   pending := Framing.Read(s.sources[i].framer, input).lines))
  {
    ReadLinesFramed(s.sources[i].framer, input);
    var s' := s.(sources := s.sources[i := AfterRead(s.sources[i], input)], current := i,
                 pending := Framing.Read(s.sources[i].framer, input).lines);
    forall k | k in s'.sources
      ensures s'.sources[k].reported
              == Of(k, s.logger.shared.pushed, s.tags) + if k == i then s'.pending else []
    {
      var before := Of(k, s.logger.shared.pushed, s.tags);
      assert before + [] == before;
      assert s.sources[k].reported == before + if s.current == k then s.pending else [];
    }
  }

  /** A source that has just connected has pushed nothing. */
  lemma {:induction false} OfNobody(i: int, msgs: seq<seq<byte>>, tags: seq<int>)
    requires |msgs| == |tags| && i !in tags
    ensures Of(i, msgs, tags) == []
  {
    if msgs != [] {
      OfNobody(i, msgs[1..], tags[1..]);
    }
  }

  lemma ConnectKeepsPushed(s: State, i: int)
    requires PushedInv(s) && s.pending == [] && i !in s.sources
    ensures PushedInv(s.(sources := s.sources[i := Source(Framing.Initial(s.size), [], [], false)]))
  {
    OfNobody(i, s.logger.shared.pushed, s.tags);
    var s' := s.(sources := s.sources[i := Source(Framing.Initial(s.size), [], [], false)]);
    forall k | k in s'.sources
      ensures s'.sources[k].reported
              == Of(k, s.logger.shared.pushed, s.tags) + if s.current == k then s.pending else []
    {
      assert k != i ==> s.sources[k].reported
                        == Of(k, s.logger.shared.pushed, s.tags) + if s.current == k then s.pending else [];
    }
  }

  lemma PushKeepsPushed(s: State, logger: LM.State)
    requires PushedInv(s) && s.pending != []
    requires logger.shared.pushed == s.logger.shared.pushed + [s.pending[0]]
    ensures PushedInv(s.(pending := s.pending[1..], tags := s.tags + [s.current], logger := logger))
  {
    forall k | k in s.sources
      ensures s.sources[k].reported
              == Of(k, logger.shared.pushed, s.tags + [s.current]) + if s.current == k then s.pending[1..] else []
    {
      PushMoves(k, s.logger.shared.pushed, s.tags, s.current, s.pending);
    }
  }

  /** A push moves a message of source `tag` from the pending ones to the pushed ones. */
  lemma PushMoves(i: int, pushed: seq<seq<byte>>, tags: seq<int>, tag: int, pending: seq<seq<byte>>)
    requires |pushed| == |tags| && pending != []
    ensures Of(i, pushed, tags) + (if tag == i then pending else [])
            == Of(i, pushed + [pending[0]], tags + [tag]) + if tag == i then pending[1..] else []
  {
    OfSnoc(i, pushed, tags, pending[0], tag);
    var before := Of(i, pushed, tags);
    assert before + pending == before + [pending[0]] + pending[1..];
  }

  /** What a step of the logger or an action on the queue leaves alone. */
  lemma LoggerNextKeeps(l: LM.State, e: LM.Event)
    requires LM.Enabled(l, e) && LM.Pos(l) <= |l.disk.file|
    ensures LM.Next(l, e).past.initial == l.past.initial
    ensures LM.Next(l, e).shared.pushed ==
            if e.Store? && e.item.Line? then l.shared.pushed + [e.item.text] else l.shared.pushed
    ensures LM.Next(l, e).shared.finished == if e.Store? then e.item.Sentinel? else l.shared.finished
  {
  }

  lemma ConnectKeepsInvariant(s: State, i: int)
    requires Invariant(s) && Enabled(s, Connect(i))
    ensures Invariant(Next(s, Connect(i)))
  {
    ConnectKeepsPushed(s, i);
    assert SourceInv(s.size, Source(Framing.Initial(s.size), [], [], false));
  }

  lemma ReadKeepsInvariant(s: State, i: int, input: Input)
    requires Invariant(s) && Enabled(s, Read(i, input))
    ensures Invariant(Next(s, Read(i, input)))
  {
    ReadKeepsPushed(s, i, input);
    ReadKeepsSource(s.size, s.sources[i], input);
  }

  /** Steps that push no message. */
  lemma LoggerKeepsInvariant(s: State, e: Event, event: LM.Event)
    requires Invariant(s) && Enabled(s, e) && LM.Enabled(s.logger, event)
    requires e == Post || e == Finish || e.LoggerStep?
    requires LoggerEvent(s, e) == [event]
    ensures Invariant(Next(s, e))
  {
    NextKeepsInv(s.logger, event);
    LoggerNextKeeps(s.logger, event);
  }

  lemma PushKeepsInvariant(s: State)
    requires Invariant(s) && Enabled(s, Push)
    ensures Invariant(Next(s, Push))
  {
    var event := LM.Store(LM.Line(s.pending[0]));
    NextKeepsInv(s.logger, event);
    LoggerNextKeeps(s.logger, event);
    PushKeepsPushed(s, LM.Next(s.logger, event));
  }

  lemma NextKeepsInvariant(s: State, e: Event)
    requires Invariant(s) && Enabled(s, e)
    ensures Invariant(Next(s, e))
  {
    match e
    case Connect(i) => ConnectKeepsInvariant(s, i);
    case Read(i, input) => ReadKeepsInvariant(s, i, input);
    case Push => PushKeepsInvariant(s);
    case Post => LoggerKeepsInvariant(s, e, LM.Post);
    case Finish => LoggerKeepsInvariant(s, e, LM.Store(LM.Sentinel));
    case LoggerStep(event) => LoggerKeepsInvariant(s, e, event);
  }

  lemma {:induction false} RunKeepsInvariant(s: State, events: seq<Event>, end: State)
    requires Invariant(s) && Reaches(s, events, end)
    ensures Invariant(end)
    decreases |events|
  {
    if events != [] {
      NextKeepsInvariant(s, events[0]);
      RunKeepsInvariant(Next(s, events[0]), events[1..], end);
    }
  }

  lemma Reachable(size: nat, hasBacklog: bool, events: seq<Event>, end: State)
    requires size > 0 && Reaches(Start(size, hasBacklog), events, end)
    ensures Invariant(end)
  {
    InvInitial(hasBacklog, []);
    RunKeepsInvariant(Start(size, hasBacklog), events, end);
  }

  // The run of the logger in a run of the program

  /** What an event is for the logger and its queue. */
  function LoggerEvent(s: State, e: Event): seq<LM.Event>
    requires Enabled(s, e)
  {
    match e
    case Connect(_) => []
    case Read(_, _) => []
    case Push => [LM.Store(LM.Line(s.pending[0]))]
    case Post => [LM.Post]
    case Finish => [LM.Store(LM.Sentinel)]
    case LoggerStep(event) => [event]
  }

  /** The logger's run in a run of the program: its theorems apply to every run of the program. */
  ghost function LoggerEvents(s: State, events: seq<Event>, end: State): (logged: seq<LM.Event>)
    requires Reaches(s, events, end)
    ensures LM.Reaches(s.logger, logged, end.logger)
    decreases |events|
  {
    if events == [] then []
    else
      var s', first := Next(s, events[0]), LoggerEvent(s, events[0]);
      var later := LoggerEvents(s', events[1..], end);
      LoggerFollows(s, events[0], later, end.logger);
      first + later
  }

  lemma LoggerFollows(s: State, e: Event, later: seq<LM.Event>, end: LM.State)
    requires Enabled(s, e) && LM.Pos(s.logger) <= |s.logger.disk.file|
    requires LM.Reaches(Next(s, e).logger, later, end)
    ensures LM.Reaches(s.logger, LoggerEvent(s, e) + later, end)
  {
    var first := LoggerEvent(s, e);
    if first == [] {
      assert first + later == later;
    } else {
      assert (first + later)[1..] == later;
    }
  }

  /** No write of a first backlog message is refused, and no flush fails. */
  ghost predicate NothingHarmed(s: State, events: seq<Event>, end: State)
    requires Reaches(s, events, end)
  {
    NeverHarms(s.logger, LoggerEvents(s, events, end), end.logger)
  }

  /** A message is held back from the backlog and has not been delivered since. */
  ghost predicate MessageHeldBack(s: State, events: seq<Event>, end: State)
    requires Reaches(s, events, end)
  {
    HeldBack(s.logger, LoggerEvents(s, events, end), end.logger)
  }

  // Reads that misfire

  /** The event is a read of this source that fills a ring whose border is at its
      end, with a newline among the bytes held. */
  predicate Misread(s: State, e: Event, i: int)
    requires Enabled(s, e)
  {
    e.Read? && e.source == i && Misfires(s.sources[i].framer, e.input)
  }

  ghost predicate NeverMisread(s: State, events: seq<Event>, end: State, i: int)
    requires Reaches(s, events, end)
    decreases |events|
  {
    events == [] || (!Misread(s, events[0], i) && NeverMisread(Next(s, events[0]), events[1..], end, i))
  }

  predicate Misfired(s: State, i: int) {
    i in s.sources && s.sources[i].misfired
  }

  lemma {:induction false} MisfiredRun(s: State, events: seq<Event>, end: State, i: int)
    requires Reaches(s, events, end)
    ensures Misfired(end, i) <==> Misfired(s, i) || !NeverMisread(s, events, end, i)
    decreases |events|
  {
    if events != [] {
      assert Misfired(Next(s, events[0]), i) <==> Misfired(s, i) || Misread(s, events[0], i);
      MisfiredRun(Next(s, events[0]), events[1..], end, i);
    }
  }

  /** The history of a source says that a read has misfired exactly when one has. */
  lemma MisfiredIff(size: nat, hasBacklog: bool, events: seq<Event>, end: State, i: int)
    requires Reaches(Start(size, hasBacklog), events, end)
    ensures Misfired(end, i) <==> !NeverMisread(Start(size, hasBacklog), events, end, i)
  {
    MisfiredRun(Start(size, hasBacklog), events, end, i);
  }

  /** No read fills a whole ring. */
  predicate NoFullReads(events: seq<Event>, size: nat) {
    forall e <- events :: e.Read? && e.input.Bytes? ==> |e.input.bytes| < size
  }

  predicate BordersInside(s: State) {
    forall i | i in s.sources :: s.sources[i].framer.size == s.size && s.sources[i].framer.border < s.size
  }

  lemma {:induction false} NoFullReadsNoMisread(s: State, events: seq<Event>, end: State, i: int)
    requires s.size > 0 && BordersInside(s) && Reaches(s, events, end) && NoFullReads(events, s.size)
    ensures NeverMisread(s, events, end, i)
    decreases |events|
  {
    if events != [] {
      var e := events[0];
      assert e in events;
      if e.Read? {
        ReadKeepsInside(s.sources[e.source].framer, e.input);
      }
      assert BordersInside(Next(s, e));
      NoFullReadsNoMisread(Next(s, e), events[1..], end, i);
    }
  }

  // The guarantees

  /** The reader is never stuck: its next push is always possible, and so is the
      sentinel when it has nothing left to push. */
  lemma ReaderNeverStuck(size: nat, hasBacklog: bool, events: seq<Event>, end: State)
    requires size > 0 && Reaches(Start(size, hasBacklog), events, end) && ReaderFree(end)
    ensures end.pending != [] ==> Enabled(end, Push)
    ensures end.pending == [] ==> Enabled(end, Finish)
  {
    Reachable(size, hasBacklog, events, end);
  }

  /** The lines a source should get delivered: the lines of its stream that fit in its ring. */
  function DueOf(s: State, i: int): seq<seq<byte>>
    requires i in s.sources
  {
    Fitting(Split(s.sources[i].stream), s.size)
  }

  /** Whatever fails: the messages delivered are messages pushed, in their order,
      and each is a whole line of the stream of its source that fits in its ring. */
  lemma OnlyWholeLines(size: nat, hasBacklog: bool, events: seq<Event>, end: State, k: nat)
    requires size > 0 && Reaches(Start(size, hasBacklog), events, end) && k < |end.logger.past.delivered|
    ensures
      var delivered, numbers := end.logger.past.delivered, end.logger.past.numbers;
      && |delivered| <= |numbers| && InOrder(delivered, end.logger.shared.pushed, numbers[..|delivered|])
      && numbers[k] < |end.tags| && end.tags[numbers[k]] in end.sources
      && delivered[k] in DueOf(end, end.tags[numbers[k]])
  {
    Reachable(size, hasBacklog, events, end);
    DeliveredInOrder(end.logger);
    PushedLineIsDue(end, end.logger.past.numbers[k]);
  }

  lemma DeliveredInOrder(l: LM.State)
    requires Inv(l) && Due(l) == l.shared.pushed
    ensures |l.past.delivered| <= |l.past.numbers|
    ensures InOrder(l.past.delivered, l.shared.pushed, l.past.numbers[..|l.past.delivered|])
  {
    assert l.past.delivered == Flow(l)[..|l.past.delivered|];
  }

  lemma PushedLineIsDue(s: State, number: nat)
    requires PushedInv(s) && number < |s.tags| && forall i | i in s.sources :: SourceInv(s.size, s.sources[i])
    ensures s.tags[number] in s.sources && s.logger.shared.pushed[number] in DueOf(s, s.tags[number])
  {
    var i, pushed := s.tags[number], s.logger.shared.pushed;
    assert i in s.tags;
    OfHas(i, pushed, s.tags, number);
    assert s.sources[i].reported == Of(i, pushed, s.tags) + if s.current == i then s.pending else [];
    assert SourceInv(s.size, s.sources[i]);
    Contained(pushed[number], s.sources[i].reported, DueOf(s, i));
  }

  lemma {:induction false} OfHas(i: int, msgs: seq<seq<byte>>, tags: seq<int>, k: nat)
    requires |msgs| == |tags| && k < |msgs| && tags[k] == i
    ensures msgs[k] in Of(i, msgs, tags)
    decreases |msgs|
  {
    if k > 0 {
      OfHas(i, msgs[1..], tags[1..], k - 1);
      assert msgs[1..][k - 1] == msgs[k];
    }
  }

  /** End to end: starting without a backlog, however reads, pushes and steps of
      the logger interleave, and whichever deliveries, opens and spilling writes
      fail: unless the write of a first backlog message is refused or a flush
      fails, the messages delivered are a prefix of those pushed, and those of
      one source are lines of its byte stream that fit in its ring, in order and
      none twice. They are a prefix of these lines if no read of the source has
      misfired; and when the logger ends in its main loop they are all of them
      if and only if none has. */
  lemma EndToEnd(size: nat, hasBacklog: bool, events: seq<Event>, end: State, i: int)
    requires size > 0 && Reaches(Start(size, hasBacklog), events, end) && i in end.sources
    requires NothingHarmed(Start(size, hasBacklog), events, end)
    ensures
      var delivered, start := end.logger.past.delivered, Start(size, hasBacklog);
      && |delivered| <= |end.tags|
      && delivered <= end.logger.shared.pushed
      && Subsequence(Of(i, delivered, end.tags[..|delivered|]), DueOf(end, i))
      && (NeverMisread(start, events, end, i) ==> Of(i, delivered, end.tags[..|delivered|]) <= DueOf(end, i))
      && (end.logger.pc == LM.Stopped(LM.Drained) ==>
            |delivered| == |end.tags|
            && (Of(i, delivered, end.tags) == DueOf(end, i) <==> NeverMisread(start, events, end, i)))
  {
    Reachable(size, hasBacklog, events, end);
    MisfiredIff(size, hasBacklog, events, end, i);
    FlowIsPushed(size, hasBacklog, events, end);
    DeliveredOfSource(end, i);
  }

  lemma DeliveredOfSource(s: State, i: int)
    requires Invariant(s) && Flow(s.logger) == s.logger.shared.pushed && i in s.sources
    ensures
      var delivered := s.logger.past.delivered;
      && |delivered| <= |s.tags|
      && delivered <= s.logger.shared.pushed
      && Subsequence(Of(i, delivered, s.tags[..|delivered|]), DueOf(s, i))
      && (!Misfired(s, i) ==> Of(i, delivered, s.tags[..|delivered|]) <= DueOf(s, i))
      && (s.logger.pc == LM.Stopped(LM.Drained) ==>
            |delivered| == |s.tags| && (Of(i, delivered, s.tags) == DueOf(s, i) <==> !Misfired(s, i)))
  {
    var delivered, pushed := s.logger.past.delivered, s.logger.shared.pushed;
    FlowStartsWithDelivered(s.logger);
    OfPrefix(i, delivered, pushed, s.tags);
    PrefixOfReported(s, i, Of(i, delivered, s.tags[..|delivered|]));
    if s.logger.pc == LM.Stopped(LM.Drained) {
      assert s.tags[..|delivered|] == s.tags;
      PushedOfSource(s, i);
    }
  }

  /** Once the reader is done, everything a source reported has been pushed. */
  lemma PushedOfSource(s: State, i: int)
    requires Invariant(s) && s.done && i in s.sources
    ensures Of(i, s.logger.shared.pushed, s.tags) == DueOf(s, i) <==> !Misfired(s, i)
  {
    assert SourceInv(s.size, s.sources[i]);
    var all := Of(i, s.logger.shared.pushed, s.tags);
    assert s.sources[i].reported == all + if s.current == i then s.pending else [];
    assert all + [] == all;
  }

  lemma FlowIsPushed(size: nat, hasBacklog: bool, events: seq<Event>, end: State)
    requires size > 0 && Reaches(Start(size, hasBacklog), events, end)
    requires NothingHarmed(Start(size, hasBacklog), events, end)
    ensures LM.Pos(end.logger) <= |end.logger.disk.file| && Flow(end.logger) == end.logger.shared.pushed
  {
    ConservedIff(hasBacklog, [], LoggerEvents(Start(size, hasBacklog), events, end), end.logger);
    assert [] + end.logger.shared.pushed == end.logger.shared.pushed;
  }

  lemma FlowStartsWithDelivered(l: LM.State)
    requires RestInv(l) && Flow(l) == l.shared.pushed
    ensures l.past.delivered <= l.shared.pushed
    ensures l.pc == LM.Stopped(LM.Drained) ==> l.past.delivered == l.shared.pushed
  {
    assert l.past.delivered <= Flow(l);
    if l.pc == LM.Stopped(LM.Drained) {
      assert Opt(l.held) == [] && Unread(l) == [] && Opt(l.hand) == [] && Texts(l.shared.queue) == [];
    }
  }

  lemma PrefixOfReported(s: State, i: int, front: seq<seq<byte>>)
    requires i in s.sources && SourceInv(s.size, s.sources[i]) && PushedInv(s)
    requires front <= Of(i, s.logger.shared.pushed, s.tags)
    ensures Subsequence(front, DueOf(s, i))
    ensures !Misfired(s, i) ==> front <= DueOf(s, i)
  {
    var reported := s.sources[i].reported;
    assert reported == Of(i, s.logger.shared.pushed, s.tags) + if s.current == i then s.pending else [];
    assert front <= reported && reported == front + reported[|front|..];
    FrontOf(front, reported[|front|..], DueOf(s, i));
  }

  /** A logger that stops while spilling, without a message held back from the
      backlog, has lost nothing either: what it delivered and what the backlog
      holds from the line read last on are, for every source, all of its lines --
      again if and only if no read of it has misfired. */
  lemma NothingLostOnSpilledStop(size: nat, hasBacklog: bool, events: seq<Event>, end: State, i: int)
    requires size > 0 && Reaches(Start(size, hasBacklog), events, end) && i in end.sources
    requires NothingHarmed(Start(size, hasBacklog), events, end)
    requires !MessageHeldBack(Start(size, hasBacklog), events, end)
    requires end.logger.pc == LM.Stopped(LM.Spilled)
    ensures Replayed(end.logger) <= |end.logger.disk.file|
    ensures
      var all := end.logger.past.delivered + end.logger.disk.file[Replayed(end.logger)..];
      && |all| == |end.tags|
      && (Of(i, all, end.tags) == DueOf(end, i) <==> NeverMisread(Start(size, hasBacklog), events, end, i))
  {
    Reachable(size, hasBacklog, events, end);
    MisfiredIff(size, hasBacklog, events, end, i);
    SpilledLeavesRestInBacklog(hasBacklog, [], LoggerEvents(Start(size, hasBacklog), events, end), end.logger);
    PushedOfSource(end, i);
    assert [] + end.logger.shared.pushed == end.logger.shared.pushed;
  }

  /** The logger's steps meet no backlog error. */
  predicate NoFaults(events: seq<Event>) {
    forall e <- events :: e.LoggerStep? ==> NoFault(e.event)
  }

  lemma {:induction false} NoFaultsProject(s: State, events: seq<Event>, end: State)
    requires Reaches(s, events, end) && NoFaults(events)
    ensures NoBacklogErrors(LoggerEvents(s, events, end))
    decreases |events|
  {
    if events != [] {
      assert events[0] in events;
      NoFaultsProject(Next(s, events[0]), events[1..], end);
    }
  }

  lemma NoFaultsNoHarm(size: nat, hasBacklog: bool, events: seq<Event>, end: State)
    requires Reaches(Start(size, hasBacklog), events, end) && NoFaults(events)
    ensures NothingHarmed(Start(size, hasBacklog), events, end)
    ensures !MessageHeldBack(Start(size, hasBacklog), events, end)
    ensures end.logger.pc != LM.Stopped(LM.Aborted) && end.logger.pc != LM.Stopped(LM.NothingRead)
  {
    var start := Start(size, hasBacklog);
    NoFaultsProject(start, events, end);
    NoErrorsNoHarm(hasBacklog, [], LoggerEvents(start, events, end), end.logger);
  }

  /** The promise, with conditions on what happens alone: without backlog errors,
      and if no read fills a whole ring, then once the logger has stopped every
      line of every source that fits in its ring has been delivered or waits in
      the backlog for the next run -- in order, each exactly once, and all
      delivered if the stop was in the main loop. */
  lemma EveryLineArrives(size: nat, hasBacklog: bool, events: seq<Event>, end: State, i: int)
    requires size > 0 && Reaches(Start(size, hasBacklog), events, end) && i in end.sources
    requires NoFaults(events) && NoFullReads(events, size) && end.logger.pc.Stopped?
    ensures Replayed(end.logger) <= |end.logger.disk.file|
    ensures
      var all := end.logger.past.delivered + end.logger.disk.file[Replayed(end.logger)..];
      |all| == |end.tags| && Of(i, all, end.tags) == DueOf(end, i)
    ensures end.logger.pc == LM.Stopped(LM.Drained) ==>
              |end.logger.past.delivered| == |end.tags| && Of(i, end.logger.past.delivered, end.tags) == DueOf(end, i)
  {
    NoFaultsNoHarm(size, hasBacklog, events, end);
    NoFullReadsNoMisread(Start(size, hasBacklog), events, end, i);
    if end.logger.pc == LM.Stopped(LM.Drained) {
      EndToEnd(size, hasBacklog, events, end, i);
      DrainedLeavesNothing(size, hasBacklog, events, end);
    } else {
      assert end.logger.pc == LM.Stopped(end.logger.pc.exit) && end.logger.pc.exit == LM.Spilled;
      NothingLostOnSpilledStop(size, hasBacklog, events, end, i);
    }
  }

  lemma DrainedLeavesNothing(size: nat, hasBacklog: bool, events: seq<Event>, end: State)
    requires size > 0 && Reaches(Start(size, hasBacklog), events, end) && end.logger.pc == LM.Stopped(LM.Drained)
    ensures Replayed(end.logger) == 0 && end.logger.disk.file == []
    ensures end.logger.past.delivered + end.logger.disk.file[0..] == end.logger.past.delivered
  {
    Reachable(size, hasBacklog, events, end);
  }
}
