/** What the logger guarantees over whole runs and over restarts. */
module LoggerTheorems {
  import opened Lines
  import opened Subsequences
  import opened Wrappers
  import opened LoggerModel
  import opened LoggerInvariant
  import opened LoggerAccounts
  import opened LoggerSteps

  // Conservation

  lemma NextKeepsInitial(s: State, e: Event)
    requires Enabled(s, e) && Pos(s) <= |s.disk.file|
    ensures Next(s, e).past.initial == s.past.initial && Next(s, e).disk.hasBacklog == s.disk.hasBacklog
  {
  }

  lemma {:induction false} InitialKept(s: State, events: seq<Event>, end: State)
    requires Reaches(s, events, end)
    ensures end.past.initial == s.past.initial && end.disk.hasBacklog == s.disk.hasBacklog
    decreases |events|
  {
    if events != [] {
      NextKeepsInitial(s, events[0]);
      InitialKept(Next(s, events[0]), events[1..], end);
    }
  }

  lemma RunInv(hasBacklog: bool, file: seq<seq<byte>>, events: seq<Event>, end: State)
    requires GoodFile(hasBacklog, file) && Reaches(Initial(hasBacklog, file), events, end)
    ensures Inv(end) && Due(end) == file + end.shared.pushed
  {
    InvInitial(hasBacklog, file);
    RunKeepsInv(Initial(hasBacklog, file), events, end);
    InitialKept(Initial(hasBacklog, file), events, end);
  }

  /** Nothing is ever reordered: at every point of every run, what was delivered,
      what is held, what is unread in the backlog, what is being spilled and what
      is queued are, in order, the messages of the old backlog and those pushed.
      Every one of them is there once -- plus the times it was put back while it
      was held, minus the times it was lost. So each is there exactly once if and
      only if these balance, and then the flow is what is due. */
  lemma Conservation(hasBacklog: bool, file: seq<seq<byte>>, events: seq<Event>, end: State)
    requires GoodFile(hasBacklog, file) && Reaches(Initial(hasBacklog, file), events, end)
    ensures Pos(end) <= |end.disk.file|
    ensures
      var flow := end.past.delivered + Opt(end.held) + Unread(end) + Opt(end.hand) + Texts(end.shared.queue);
      var due := file + end.shared.pushed;
      && InOrder(flow, due, end.past.numbers)
      && multiset(end.past.numbers) + end.past.lost == multiset(UpTo(|due|)) + end.past.doubled
      && (end.past.numbers == UpTo(|due|) <==> end.past.lost == end.past.doubled)
      && (end.past.lost == end.past.doubled ==> flow == due)
      && |flow| + |end.past.lost| == |due| + |end.past.doubled|
  {
    RunInv(hasBacklog, file, events, end);
    AccountsOnce(Flow(end), Due(end), end.past);
  }

  // The two branches that harm

  /** A backlog is to be started, and the file opens for appending. */
  predicate StartsBacklog(s: State, e: Event) {
    e.Failed? && s.disk.hasBacklog && s.disk.reading == None && e.appendOk
  }

  /** Writing the message held to it is refused. */
  predicate FailsToStart(s: State, e: Event) {
    StartsBacklog(s, e) && e.write.Refused?
  }

  /** A line is written, there or in a spill, and flushing it fails. */
  predicate Loses(s: State, e: Event) {
    (e.Append? || StartsBacklog(s, e)) && e.write.Lost?
  }

  ghost predicate NeverFailsToStart(s: State, events: seq<Event>, end: State)
    requires Reaches(s, events, end)
    decreases |events|
  {
    events == [] || (!FailsToStart(s, events[0]) && NeverFailsToStart(Next(s, events[0]), events[1..], end))
  }

  ghost predicate NeverLoses(s: State, events: seq<Event>, end: State)
    requires Reaches(s, events, end)
    decreases |events|
  {
    events == [] || (!Loses(s, events[0]) && NeverLoses(Next(s, events[0]), events[1..], end))
  }

  /** Neither branch is taken. */
  ghost predicate NeverHarms(s: State, events: seq<Event>, end: State)
    requires Reaches(s, events, end)
  {
    NeverFailsToStart(s, events, end) && NeverLoses(s, events, end)
  }

  /** A message held has been put back, or is about to be. */
  predicate Harmed(s: State) {
    s.past.doubled != multiset{} || s.pc == Unpopping(ToHolding)
  }

  /** The message held and the one in hand have their places in the flow. */
  predicate Placed(s: State)
    requires Pos(s) <= |s.disk.file|
  {
    && (s.held.Some? ==> |s.past.delivered| < |s.past.numbers|)
    && (s.hand.Some? ==> PlaceInHand(s) < |s.past.numbers|)
  }

  lemma InvPlaced(s: State)
    requires Inv(s)
    ensures Placed(s)
  {
    assert |Flow(s)| == |s.past.numbers|;
  }

  lemma HarmedNext(s: State, e: Event)
    requires FileInv(s) && PcInv(s) && Placed(s) && Enabled(s, e)
    ensures Harmed(Next(s, e)) <==> Harmed(s) || FailsToStart(s, e)
  {
    if e.Unpop? && s.pc.back.ToHolding? {
      assert s.past.numbers[|s.past.delivered|] in Next(s, e).past.doubled;
    }
  }

  lemma {:induction false} HarmedRun(s: State, events: seq<Event>, end: State)
    requires Inv(s) && Reaches(s, events, end)
    ensures Harmed(end) <==> Harmed(s) || !NeverFailsToStart(s, events, end)
    decreases |events|
  {
    if events != [] {
      InvPlaced(s);
      HarmedNext(s, events[0]);
      NextKeepsInv(s, events[0]);
      HarmedRun(Next(s, events[0]), events[1..], end);
    }
  }

  /** Messages are put back while held in exactly the runs that take the first
      branch (and have gone past it). */
  lemma DoubledIff(hasBacklog: bool, file: seq<seq<byte>>, events: seq<Event>, end: State)
    requires GoodFile(hasBacklog, file) && Reaches(Initial(hasBacklog, file), events, end)
    ensures end.past.doubled == multiset{} && end.pc != Unpopping(ToHolding)
            <==> NeverFailsToStart(Initial(hasBacklog, file), events, end)
  {
    InvInitial(hasBacklog, file);
    HarmedRun(Initial(hasBacklog, file), events, end);
  }

  lemma LostNext(s: State, e: Event)
    requires FileInv(s) && PcInv(s) && Placed(s) && Enabled(s, e)
    ensures Next(s, e).past.lost == multiset{} <==> s.past.lost == multiset{} && !Loses(s, e)
  {
    if Loses(s, e) {
      var k := if e.Append? then PlaceInHand(s) else |s.past.delivered|;
      assert s.past.numbers[k] in Next(s, e).past.lost;
    }
  }

  lemma {:induction false} LostRun(s: State, events: seq<Event>, end: State)
    requires Inv(s) && Reaches(s, events, end)
    ensures end.past.lost == multiset{} <==> s.past.lost == multiset{} && NeverLoses(s, events, end)
    decreases |events|
  {
    if events != [] {
      InvPlaced(s);
      LostNext(s, events[0]);
      NextKeepsInv(s, events[0]);
      LostRun(Next(s, events[0]), events[1..], end);
    }
  }

  /** Messages are lost in exactly the runs that take the second branch. */
  lemma LostIff(hasBacklog: bool, file: seq<seq<byte>>, events: seq<Event>, end: State)
    requires GoodFile(hasBacklog, file) && Reaches(Initial(hasBacklog, file), events, end)
    ensures end.past.lost == multiset{} <==> NeverLoses(Initial(hasBacklog, file), events, end)
  {
    InvInitial(hasBacklog, file);
    LostRun(Initial(hasBacklog, file), events, end);
  }

  /** Conservation by the branches taken: while one of them is not taken, the
      flow is what is due if and only if the other is not taken either. (When
      both are, one can make good for the other: `HarmsCanCancel`.) */
  lemma ConservedIff(hasBacklog: bool, file: seq<seq<byte>>, events: seq<Event>, end: State)
    requires GoodFile(hasBacklog, file) && Reaches(Initial(hasBacklog, file), events, end)
    ensures
      var start := Initial(hasBacklog, file);
      && Pos(end) <= |end.disk.file|
      && (NeverFailsToStart(start, events, end) ==>
            (Flow(end) == file + end.shared.pushed <==> NeverLoses(start, events, end)))
      && (NeverLoses(start, events, end) && end.pc != Unpopping(ToHolding) ==>
            (Flow(end) == file + end.shared.pushed <==> NeverFailsToStart(start, events, end)))
  {
    Conservation(hasBacklog, file, events, end);
    DoubledIff(hasBacklog, file, events, end);
    LostIff(hasBacklog, file, events, end);
    NoneIfEmpty(end.past.doubled);
    NoneIfEmpty(end.past.lost);
  }

  lemma NoneIfEmpty(m: multiset<nat>)
    ensures |m| == 0 <==> m == multiset{}
  {
  }

  /** What a logger that ends in its main loop has delivered, and when it is everything. */
  lemma DrainedDeliversAll(hasBacklog: bool, file: seq<seq<byte>>, events: seq<Event>, end: State)
    requires GoodFile(hasBacklog, file) && Reaches(Initial(hasBacklog, file), events, end)
    requires end.pc == Stopped(Drained)
    ensures Accounts(end.past.delivered, file + end.shared.pushed, end.past)
    ensures end.past.lost == end.past.doubled ==> end.past.delivered == file + end.shared.pushed
    ensures
      var start, due := Initial(hasBacklog, file), file + end.shared.pushed;
      && (NeverFailsToStart(start, events, end) ==> (end.past.delivered == due <==> NeverLoses(start, events, end)))
      && (NeverLoses(start, events, end) ==> (end.past.delivered == due <==> NeverFailsToStart(start, events, end)))
  {
    RunInv(hasBacklog, file, events, end);
    AccountsOnce(Flow(end), Due(end), end.past);
    ConservedIff(hasBacklog, file, events, end);
    assert Flow(end) == end.past.delivered;
  }

  // A message held in memory only

  /** A message is held that is not in the backlog although one is being read. */
  predicate HeldOnlyInMemory(s: State) {
    s.held.Some? && s.disk.reading == Some(0)
  }

  /** A backlog is opened for reading, and the message held does not get into it
      because the file does not open for appending, or the write is refused. */
  predicate OpensWithoutWriting(s: State, e: Event) {
    e.Failed? && s.disk.hasBacklog && s.disk.reading == None && e.readOk && (!e.appendOk || e.write.Refused?)
  }

  predicate NothingDelivered(events: seq<Event>) {
    forall e <- events :: !e.Delivered?
  }

  /** That has happened, and nothing was delivered since. */
  ghost predicate HeldBack(s: State, events: seq<Event>, end: State)
    requires Reaches(s, events, end)
    decreases |events|
  {
    events != [] &&
    (HeldBack(Next(s, events[0]), events[1..], end)
     || (OpensWithoutWriting(s, events[0]) && NothingDelivered(events[1..])))
  }

  lemma HeldNext(s: State, e: Event)
    requires FileInv(s) && PcInv(s) && Enabled(s, e)
    ensures HeldOnlyInMemory(Next(s, e)) <==> OpensWithoutWriting(s, e) || (HeldOnlyInMemory(s) && !e.Delivered?)
  {
  }

  lemma {:induction false} HeldRun(s: State, events: seq<Event>, end: State)
    requires Inv(s) && Reaches(s, events, end)
    ensures HeldOnlyInMemory(end) <==> HeldBack(s, events, end) || (HeldOnlyInMemory(s) && NothingDelivered(events))
    decreases |events|
  {
    if events != [] {
      assert NothingDelivered(events) <==> !events[0].Delivered? && NothingDelivered(events[1..]) by {
        assert events == [events[0]] + events[1..];
      }
      HeldNext(s, events[0]);
      NextKeepsInv(s, events[0]);
      HeldRun(Next(s, events[0]), events[1..], end);
    }
  }

  lemma HeldIff(hasBacklog: bool, file: seq<seq<byte>>, events: seq<Event>, end: State)
    requires GoodFile(hasBacklog, file) && Reaches(Initial(hasBacklog, file), events, end)
    ensures HeldOnlyInMemory(end) <==> HeldBack(Initial(hasBacklog, file), events, end)
  {
    InvInitial(hasBacklog, file);
    HeldRun(Initial(hasBacklog, file), events, end);
  }

  // No backlog errors

  /** The backlog always opens for appending, the message that starts it is
      always written, and no flush fails. Writes during a spill may be refused. */
  predicate NoFault(e: Event) {
    && (e.Failed? ==> e.appendOk && e.write.Written?)
    && (e.Append? ==> !e.write.Lost?)
  }

  predicate NoBacklogErrors(events: seq<Event>) {
    forall e <- events :: NoFault(e)
  }

  lemma {:induction false} FaultlessRun(s: State, events: seq<Event>, end: State)
    requires Reaches(s, events, end) && NoBacklogErrors(events) && s.pc != Stopped(Aborted)
    ensures NeverHarms(s, events, end) && !HeldBack(s, events, end) && end.pc != Stopped(Aborted)
    decreases |events|
  {
    if events != [] {
      assert NoFault(events[0]) by {
        assert events[0] in events;
      }
      FaultlessRun(Next(s, events[0]), events[1..], end);
    }
  }

  lemma NoErrorsNoHarm(hasBacklog: bool, file: seq<seq<byte>>, events: seq<Event>, end: State)
    requires GoodFile(hasBacklog, file) && Reaches(Initial(hasBacklog, file), events, end)
    requires NoBacklogErrors(events)
    ensures NeverHarms(Initial(hasBacklog, file), events, end)
    ensures !HeldBack(Initial(hasBacklog, file), events, end)
    ensures end.pc != Stopped(Aborted) && end.pc != Stopped(NothingRead)
  {
    FaultlessRun(Initial(hasBacklog, file), events, end);
    RunInv(hasBacklog, file, events, end);
    LostIff(hasBacklog, file, events, end);
  }

  // A backlog found empty

  predicate IsLoggers(e: Event) {
    !e.Store? && !e.Post?
  }

  /** The logger is in the spill that starts a backlog. */
  predicate Starting(pc: Pc) {
    match pc
    case Waiting(ForSpill(starting, _)) => starting
    case Taking(ForSpill(starting, _)) => starting
    case Sampling(starting) => starting
    case Writing(starting, _) => starting
    case Unpopping(ToResuming(starting)) => starting
    case Reposting(ToResuming(starting)) => starting
    case Resuming(starting, _) => starting
    case _ => false
  }

  /** The spill that starts a backlog has written nothing so far. */
  predicate StartingEmpty(s: State) {
    Starting(s.pc) && s.disk.file == []
  }

  /** A spill that has run up to its end without a line getting to the file. */
  predicate SpillsNothing(events: seq<Event>) {
    && (forall e <- events :: e.Append? ==> !e.write.Written?)
    && (exists e <- events :: e.Resume?)
  }

  /** A backlog was started, its first line was lost, and so was everything else
      until the spill was over. */
  ghost predicate StartsInVain(s: State, events: seq<Event>, end: State)
    requires Reaches(s, events, end)
    decreases |events|
  {
    events != [] &&
    (StartsInVain(Next(s, events[0]), events[1..], end)
     || (StartsBacklog(s, events[0]) && Loses(s, events[0]) && SpillsNothing(events[1..])))
  }

  lemma EmptyNext(s: State, e: Event)
    requires FileInv(s) && PcInv(s) && Enabled(s, e)
    ensures
      var s' := Next(s, e);
      && (s'.pc == Stopped(NothingRead) <==> s.pc == Stopped(NothingRead) || (StartingEmpty(s) && e.Resume?))
      && (StartsBacklog(s, e) && Loses(s, e) ==> StartingEmpty(s'))
      && (StartingEmpty(s') ==> StartingEmpty(s) || (StartsBacklog(s, e) && Loses(s, e)))
      && (StartingEmpty(s) ==> (StartingEmpty(s') && !(e.Append? && e.write.Written?)) || s'.pc.Stopped?
                               || (e.Append? && e.write.Written? && !StartingEmpty(s')))
  {
  }

  lemma {:induction false} StoppedForGood(s: State, events: seq<Event>, end: State)
    requires s.pc.Stopped? && Reaches(s, events, end)
    ensures end.pc == s.pc && forall e <- events :: !IsLoggers(e)
    decreases |events|
  {
    if events != [] {
      StoppedForGood(Next(s, events[0]), events[1..], end);
      assert forall e <- events :: e == events[0] || e in events[1..];
    }
  }

  lemma SpillsNothingNext(events: seq<Event>)
    requires events != []
    ensures SpillsNothing(events) <==>
            !(events[0].Append? && events[0].write.Written?)
            && (SpillsNothing(events[1..])
                || (events[0].Resume? && forall e <- events[1..] :: e.Append? ==> !e.write.Written?))
  {
    assert events == [events[0]] + events[1..];
  }

  lemma {:induction false} EmptyRun(s: State, events: seq<Event>, end: State)
    requires Inv(s) && Reaches(s, events, end)
    ensures end.pc == Stopped(NothingRead)
            <==> s.pc == Stopped(NothingRead) || StartsInVain(s, events, end)
                 || (StartingEmpty(s) && SpillsNothing(events))
    decreases |events|
  {
    if events != [] {
      var s', later := Next(s, events[0]), events[1..];
      EmptyNext(s, events[0]);
      NextKeepsInv(s, events[0]);
      EmptyRun(s', later, end);
      SpillsNothingNext(events);
      if s'.pc.Stopped? {
        StoppedForGood(s', later, end);
      }
    }
  }

  /** The logger ends on an empty backlog in exactly the runs that start one in vain. */
  lemma NothingReadIff(hasBacklog: bool, file: seq<seq<byte>>, events: seq<Event>, end: State)
    requires GoodFile(hasBacklog, file) && Reaches(Initial(hasBacklog, file), events, end)
    ensures end.pc == Stopped(NothingRead) <==> StartsInVain(Initial(hasBacklog, file), events, end)
  {
    InvInitial(hasBacklog, file);
    EmptyRun(Initial(hasBacklog, file), events, end);
  }

  // Progress

  /** The logger blocks only where it should: waiting for a message to deliver
      while the semaphore is zero. In particular a spill never blocks, and no
      pop finds the queue empty. */
  lemma OnlyDeliveryBlocks(hasBacklog: bool, file: seq<seq<byte>>, events: seq<Event>, s: State)
    requires GoodFile(hasBacklog, file) && Reaches(Initial(hasBacklog, file), events, s)
    ensures s.pc.Stopped? || (s.pc == Waiting(ForDelivery) && s.shared.semaphore == 0)
            || exists e: Event :: IsLoggers(e) && Enabled(s, e)
    ensures s.pc.Waiting? && s.pc.goal.ForSpill? ==> s.shared.semaphore > 0
    ensures s.pc.Taking? ==> s.shared.queue != []
  {
    RunInv(hasBacklog, file, events, s);
    BlocksOnlyForDelivery(s);
  }

  lemma BlocksOnlyForDelivery(s: State)
    requires RestInv(s)
    ensures s.pc.Stopped? || (s.pc == Waiting(ForDelivery) && s.shared.semaphore == 0)
            || exists e: Event :: IsLoggers(e) && Enabled(s, e)
    ensures s.pc.Waiting? && s.pc.goal.ForSpill? ==> s.shared.semaphore > 0
    ensures s.pc.Taking? ==> s.shared.queue != []
  {
    match s.pc {
      case Opening => assert Enabled(s, Open(s.disk.file != []));
      case Waiting(_) => assert s.shared.semaphore > 0 ==> Enabled(s, Wait);
      case Taking(_) => assert Enabled(s, Take);
      case Holding => assert Enabled(s, Delivered);
      case Sampling(_) => assert Enabled(s, Sample);
      case Writing(_, _) => assert Enabled(s, Append(Written));
      case Unpopping(_) => assert Enabled(s, Unpop);
      case Reposting(_) => assert Enabled(s, Repost);
      case Resuming(_, _) => assert Enabled(s, Resume(false));
      case Stopped(_) =>
    }
  }

  // Restart

  /** The number of lines of the backlog that had been delivered when the logger stopped. */
  function Replayed(s: State): nat {
    if Pos(s) > 0 then Pos(s) - 1 else 0
  }

  lemma SpilledRest(s: State)
    requires Inv(s) && s.pc == Stopped(Spilled)
    ensures Replayed(s) <= |s.disk.file|
    ensures IsSuffix(s.disk.file[..Replayed(s)], s.past.delivered)
    ensures
      var rest, k := s.past.delivered + s.disk.file[Replayed(s)..], |s.past.delivered|;
      if HeldOnlyInMemory(s) then k < |Flow(s)| && rest == Flow(s)[..k] + Flow(s)[k + 1..]
      else rest == Flow(s)
  {
    if s.held.Some? && Pos(s) > 0 {
      assert s.disk.file[Replayed(s)..] == [s.held.value] + Unread(s);
    } else {
      assert s.disk.file[..0] == [] == s.past.delivered[|s.past.delivered|..];
    }
  }

  lemma SpilledAccounts(s: State)
    requires Inv(s) && s.pc == Stopped(Spilled)
    ensures Replayed(s) <= |s.disk.file| && GoodFile(s.disk.hasBacklog, s.disk.file)
    ensures IsSuffix(s.disk.file[..Replayed(s)], s.past.delivered)
    ensures
      var rest := s.past.delivered + s.disk.file[Replayed(s)..];
      && Accounts(rest, Due(s), if HeldOnlyInMemory(s) then Lose(s.past, |s.past.delivered|) else s.past)
      && (Flow(s) == Due(s) ==> (rest == Due(s) <==> !HeldOnlyInMemory(s)))
  {
    SpilledRest(s);
    if HeldOnlyInMemory(s) {
      AccountsLost(Flow(s), Due(s), s.past, |s.past.delivered|);
    }
  }

  /** When the logger stops while spilling, what it delivered and what the backlog
      holds from the line read last on account for everything due, like the flow;
      only that a message held back is a further one lost. The lines before that
      are the ones delivered last. Without refused and lost writes everything is
      there if and only if no message is held back. */
  lemma SpilledLeavesRestInBacklog(hasBacklog: bool, file: seq<seq<byte>>, events: seq<Event>, end: State)
    requires GoodFile(hasBacklog, file) && Reaches(Initial(hasBacklog, file), events, end)
    requires end.pc == Stopped(Spilled)
    ensures Replayed(end) <= |end.disk.file|
    ensures
      var start, due := Initial(hasBacklog, file), file + end.shared.pushed;
      var rest := end.past.delivered + end.disk.file[Replayed(end)..];
      && Accounts(rest, due, if HeldBack(start, events, end) then Lose(end.past, |end.past.delivered|) else end.past)
      && (NeverHarms(start, events, end) ==>
            (rest == due <==> !HeldBack(start, events, end)))
    ensures IsSuffix(end.disk.file[..Replayed(end)], end.past.delivered)
    ensures GoodFile(hasBacklog, end.disk.file)
  {
    RunInv(hasBacklog, file, events, end);
    InitialKept(Initial(hasBacklog, file), events, end);
    ConservedIff(hasBacklog, file, events, end);
    HeldIff(hasBacklog, file, events, end);
    SpilledAccounts(end);
  }

  lemma Replay(delivered: seq<seq<byte>>, again: seq<seq<byte>>, undelivered: seq<seq<byte>>,
               file: seq<seq<byte>>, pushed: seq<seq<byte>>)
    requires file == again + undelivered
    ensures delivered + (file + pushed) == delivered + again + undelivered + pushed
  {
  }

  /** Two lifetimes: the first stops while spilling; the second starts on the
      backlog left behind and ends in its main loop. Unless messages were put
      back, lost or held back, every message of both is delivered, and the only
      ones delivered twice are the delivered lines at the front of that backlog. */
  lemma RestartDeliversAll(file: seq<seq<byte>>, events: seq<Event>, end: State, events': seq<Event>, end': State)
    requires GoodFile(true, file) && Reaches(Initial(true, file), events, end) && end.pc == Stopped(Spilled)
    requires NeverHarms(Initial(true, file), events, end)
    requires !HeldBack(Initial(true, file), events, end)
    requires Reaches(Initial(true, end.disk.file), events', end') && end'.pc == Stopped(Drained)
    requires NeverHarms(Initial(true, end.disk.file), events', end')
    ensures exists undelivered, again ::
              && end.past.delivered + undelivered == file + end.shared.pushed
              && IsSuffix(again, end.past.delivered)
              && end.past.delivered + end'.past.delivered
                 == end.past.delivered + again + undelivered + end'.shared.pushed
  {
    var again, undelivered := StopLeaves(file, events, end);
    DrainedDeliversAll(true, end.disk.file, events', end');
    Replay(end.past.delivered, again, undelivered, end.disk.file, end'.shared.pushed);
  }

  /** One run of the program from start to stop. */
  datatype Lifetime = Lifetime(events: seq<Event>, end: State)

  /** Lifetimes that follow each other on one backlog file: all stop while
      spilling but the last, which ends in its main loop; none of them puts back,
      loses or holds back a message. */
  ghost predicate Lifetimes(file: seq<seq<byte>>, lives: seq<Lifetime>)
    decreases |lives|
  {
    && lives != []
    && var start, events, end := Initial(true, file), lives[0].events, lives[0].end;
    && Reaches(start, events, end)
    && NeverHarms(start, events, end)
    && if |lives| == 1 then end.pc == Stopped(Drained)
       else end.pc == Stopped(Spilled) && !HeldBack(start, events, end) && Lifetimes(end.disk.file, lives[1..])
  }

  function AllPushed(lives: seq<Lifetime>): seq<seq<byte>> {
    if lives == [] then [] else lives[0].end.shared.pushed + AllPushed(lives[1..])
  }

  function AllDelivered(lives: seq<Lifetime>): seq<seq<byte>> {
    if lives == [] then [] else lives[0].end.past.delivered + AllDelivered(lives[1..])
  }

  /** Lifetimes that follow each other on one backlog file and all stop while spilling. */
  ghost predicate StoppedLifetimes(file: seq<seq<byte>>, lives: seq<Lifetime>)
    decreases |lives|
  {
    lives == [] ||
    var start, events, end := Initial(true, file), lives[0].events, lives[0].end;
    && Reaches(start, events, end) && end.pc == Stopped(Spilled)
    && NeverHarms(start, events, end) && !HeldBack(start, events, end)
    && StoppedLifetimes(end.disk.file, lives[1..])
  }

  function FileLeft(file: seq<seq<byte>>, lives: seq<Lifetime>): seq<seq<byte>>
    decreases |lives|
  {
    if lives == [] then file else FileLeft(lives[0].end.disk.file, lives[1..])
  }

  function AllReplays(lives: seq<Lifetime>): nat {
    if lives == [] then 0 else Replayed(lives[0].end) + AllReplays(lives[1..])
  }

  /** However often the program stops while spilling, what it has delivered and
      what the file holds cover everything due, in order; what there is beyond
      that are lines delivered that the file still holds or that were replayed. */
  lemma {:induction false} StopsKeepAll(file: seq<seq<byte>>, lives: seq<Lifetime>)
    requires GoodFile(true, file) && StoppedLifetimes(file, lives)
    ensures Subsequence(file + AllPushed(lives), AllDelivered(lives) + FileLeft(file, lives))
    ensures |AllDelivered(lives) + FileLeft(file, lives)| == |file + AllPushed(lives)| + AllReplays(lives)
    decreases |lives|
  {
    if lives == [] {
      assert file + [] == file && [] + file == file;
      Whole(file);
    } else {
      var end, later := lives[0].end, lives[1..];
      var again, rest := StopLeaves(file, lives[0].events, end);
      StopsKeepAll(end.disk.file, later);
      var covering := AllDelivered(later) + FileLeft(end.disk.file, later);
      OneMoreLifetime(file + end.shared.pushed, end.past.delivered, again, rest, AllPushed(later), covering);
      Assoc(file, end.shared.pushed, AllPushed(later));
      Assoc(end.past.delivered, AllDelivered(later), FileLeft(end.disk.file, later));
    }
  }

  /** How many delivered lines the stops leave in front of the undelivered ones. */
  function Replays(lives: seq<Lifetime>): nat {
    if |lives| <= 1 then 0 else Replayed(lives[0].end) + Replays(lives[1..])
  }

  /** A lifetime in front of later ones that replay the lines `again` first. */
  lemma OneMoreLifetime(due: seq<seq<byte>>, delivered: seq<seq<byte>>, again: seq<seq<byte>>, rest: seq<seq<byte>>,
                        pushed: seq<seq<byte>>, later: seq<seq<byte>>)
    requires delivered + rest == due
    requires Subsequence(again + rest + pushed, later)
    ensures Subsequence(due + pushed, delivered + later)
  {
    assert again + rest + pushed == again + (rest + pushed);
    BackOf(again, rest + pushed, later);
    Whole(delivered);
    Joined(delivered, delivered, rest + pushed, later);
    assert due + pushed == delivered + (rest + pushed);
  }

  /** At least once, over any number of restarts: the old backlog and everything
      pushed in any lifetime is delivered, in order, among what all lifetimes
      together deliver; and what is delivered beyond that are the replays. */
  lemma {:induction false} RestartsDeliverAll(file: seq<seq<byte>>, lives: seq<Lifetime>)
    requires GoodFile(true, file) && Lifetimes(file, lives)
    ensures Subsequence(file + AllPushed(lives), AllDelivered(lives))
    ensures |AllDelivered(lives)| == |file + AllPushed(lives)| + Replays(lives)
    decreases |lives|
  {
    if |lives| == 1 {
      LastLifetime(file, lives);
    } else {
      var end, later := lives[0].end, lives[1..];
      var again, rest := StopLeaves(file, lives[0].events, end);
      RestartsDeliverAll(end.disk.file, later);
      OneMoreLifetime(file + end.shared.pushed, end.past.delivered, again, rest, AllPushed(later), AllDelivered(later));
      Assoc(file, end.shared.pushed, AllPushed(later));
    }
  }

  lemma LastLifetime(file: seq<seq<byte>>, lives: seq<Lifetime>)
    requires GoodFile(true, file) && Lifetimes(file, lives) && |lives| == 1
    ensures AllDelivered(lives) == file + AllPushed(lives)
    ensures Subsequence(file + AllPushed(lives), AllDelivered(lives))
  {
    var end := lives[0].end;
    LastDelivers(file, lives[0].events, end);
    assert lives[1..] == [];
    assert end.shared.pushed + [] == end.shared.pushed && end.past.delivered + [] == end.past.delivered;
    Whole(AllDelivered(lives));
  }

  lemma LastDelivers(file: seq<seq<byte>>, events: seq<Event>, end: State)
    requires GoodFile(true, file) && Reaches(Initial(true, file), events, end) && end.pc == Stopped(Drained)
    requires NeverHarms(Initial(true, file), events, end)
    ensures end.past.delivered == file + end.shared.pushed
  {
    DrainedDeliversAll(true, file, events, end);
  }

  /** What a lifetime that stops while spilling leaves to the next one. */
  lemma StopLeaves(file: seq<seq<byte>>, events: seq<Event>, end: State)
    returns (again: seq<seq<byte>>, rest: seq<seq<byte>>)
    requires GoodFile(true, file) && Reaches(Initial(true, file), events, end) && end.pc == Stopped(Spilled)
    requires NeverHarms(Initial(true, file), events, end)
    requires !HeldBack(Initial(true, file), events, end)
    ensures end.disk.file == again + rest && |again| == Replayed(end) && IsSuffix(again, end.past.delivered)
    ensures end.past.delivered + rest == file + end.shared.pushed
    ensures GoodFile(true, end.disk.file)
  {
    SpilledLeavesRestInBacklog(true, file, events, end);
    again, rest := end.disk.file[..Replayed(end)], end.disk.file[Replayed(end)..];
  }

  // A spill moves exactly what it sampled

  predicate InSpill(pc: Pc) {
    (pc.Waiting? && pc.goal.ForSpill?) || (pc.Taking? && pc.goal.ForSpill?) || pc.Writing?
  }

  function Left(pc: Pc): nat
    requires InSpill(pc)
  {
    if pc.Writing? then pc.left else pc.goal.left
  }

  predicate AppendsSucceed(events: seq<Event>) {
    forall e <- events :: e.Append? ==> e.write.Written?
  }

  /** The first messages of a sampled queue are in the file, the others still
      queued in front of what came later. */
  predicate Moved(file: seq<seq<byte>>, queue: seq<Item>, n: nat, s: State)
    requires n <= |queue|
  {
    InSpill(s.pc) && Left(s.pc) <= n &&
    var k := n - Left(s.pc);
    && s.disk.file == file + Texts(queue[..k])
    && if s.pc.Writing? then s.hand.Some? && k < n && queue[k] == Line(s.hand.value) && queue[k + 1..] <= s.shared.queue
       else queue[k..] <= s.shared.queue
  }

  predicate MovedAll(file: seq<seq<byte>>, queue: seq<Item>, n: nat, s: State)
    requires n <= |queue|
  {
    s.pc.Resuming? && s.disk.file == file + Texts(queue[..n]) && queue[n..] <= s.shared.queue
  }

  lemma ReaderKeepsMoved(file: seq<seq<byte>>, queue: seq<Item>, n: nat, s: State, e: Event)
    requires n <= |queue| && RestInv(s) && Enabled(s, e) && Moved(file, queue, n, s) && !IsLoggers(e)
    ensures Moved(file, queue, n, Next(s, e))
  {
  }

  lemma PopKeepsMoved(file: seq<seq<byte>>, queue: seq<Item>, n: nat, s: State, e: Event)
    requires n <= |queue| && (forall i | 0 <= i < n :: queue[i].Line?)
    requires RestInv(s) && Enabled(s, e) && Moved(file, queue, n, s) && (e.Wait? || e.Take?)
    ensures Moved(file, queue, n, Next(s, e))
  {
  }

  lemma AppendMoves(file: seq<seq<byte>>, queue: seq<Item>, n: nat, s: State)
    requires n <= |queue| && (forall i | 0 <= i < n :: queue[i].Line?)
    requires RestInv(s) && Enabled(s, Append(Written)) && Moved(file, queue, n, s)
    ensures Moved(file, queue, n, AfterAppend(s, Written)) || MovedAll(file, queue, n, AfterAppend(s, Written))
  {
    var k := n - Left(s.pc);
    TextsNext(file, queue, k);
    assert queue[k + 1..] <= s.shared.queue;
  }

  lemma TextsNext(file: seq<seq<byte>>, queue: seq<Item>, k: nat)
    requires k < |queue| && queue[k].Line?
    ensures file + Texts(queue[..k + 1]) == file + Texts(queue[..k]) + [queue[k].text]
  {
    assert queue[..k + 1] == queue[..k] + [queue[k]];
    TextsSnoc(queue[..k], queue[k]);
  }

  lemma MovedNext(file: seq<seq<byte>>, queue: seq<Item>, n: nat, s: State, e: Event)
    requires n <= |queue| && (forall i | 0 <= i < n :: queue[i].Line?)
    requires RestInv(s) && Enabled(s, e) && Moved(file, queue, n, s)
    requires e.Append? ==> e.write.Written?
    ensures Moved(file, queue, n, Next(s, e)) || MovedAll(file, queue, n, Next(s, e))
  {
    match e
    case Append(_) => AppendMoves(file, queue, n, s);
    case Wait => PopKeepsMoved(file, queue, n, s, e);
    case Take => PopKeepsMoved(file, queue, n, s, e);
    case _ => ReaderKeepsMoved(file, queue, n, s, e);
  }

  /** The pass stays in the spill up to the last event. */
  ghost predicate SpillsUntil(s: State, events: seq<Event>, end: State)
    requires Reaches(s, events, end)
    decreases |events|
  {
    events == [] || (InSpill(s.pc) && SpillsUntil(Next(s, events[0]), events[1..], end))
  }

  lemma {:induction false} MovedAlong(file: seq<seq<byte>>, queue: seq<Item>, n: nat,
                                      s: State, events: seq<Event>, end: State)
    requires n <= |queue| && (forall i | 0 <= i < n :: queue[i].Line?)
    requires Inv(s) && (Moved(file, queue, n, s) || MovedAll(file, queue, n, s))
    requires Reaches(s, events, end) && AppendsSucceed(events) && SpillsUntil(s, events, end)
    ensures Moved(file, queue, n, end) || MovedAll(file, queue, n, end)
    decreases |events|
  {
    if events != [] {
      assert events[0] in events;
      MovedNext(file, queue, n, s, events[0]);
      NextKeepsInv(s, events[0]);
      MovedAlong(file, queue, n, Next(s, events[0]), events[1..], end);
    }
  }

  /** However the reader interleaves, a spill without failures that does not
      meet the sentinel among the messages it sampled moves exactly these to the
      end of the backlog, in order, and leaves everything else queued. */
  lemma SpillMovesSnapshot(hasBacklog: bool, file: seq<seq<byte>>, before: seq<Event>, s: State,
                           events: seq<Event>, end: State)
    requires GoodFile(hasBacklog, file) && Reaches(Initial(hasBacklog, file), before, s) && s.pc.Sampling?
    requires forall i | 0 <= i < s.shared.semaphore && i < |s.shared.queue| :: s.shared.queue[i].Line?
    requires Pos(s) <= |s.disk.file|
    requires Reaches(Next(s, Sample), events, end) && SpillsUntil(Next(s, Sample), events, end)
    requires AppendsSucceed(events)
    ensures s.shared.semaphore <= |s.shared.queue|
    ensures !InSpill(end.pc) ==>
            && end.disk.file == s.disk.file + Texts(s.shared.queue[..s.shared.semaphore])
            && s.shared.queue[s.shared.semaphore..] <= end.shared.queue
  {
    RunInv(hasBacklog, file, before, s);
    assert s.disk.file + [] == s.disk.file && s.shared.queue[0..] == s.shared.queue;
    NextKeepsInv(s, Sample);
    MovedAlong(s.disk.file, s.shared.queue, s.shared.semaphore, Next(s, Sample), events, end);
  }
}
