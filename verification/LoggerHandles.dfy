/** When the logger appends to a backlog it is reading. The handle for that is
    opened by one failed delivery and used by the next, and it is closed by every
    delivery in between. */
module LoggerHandles {
  import opened Lines
  import opened Wrappers
  import opened LoggerModel
  import opened LoggerInvariant
  import opened LoggerSteps
  import opened LoggerTheorems

  /** A message is held, a backlog is being read, and nothing can be appended to it. */
  predicate Closed(s: State) {
    s.pc == Holding && s.disk.reading.Some? && !s.disk.appending
  }

  /** No two deliveries fail in a row. `failed` says that one has failed before. */
  predicate NeverTwiceInARow(events: seq<Event>, failed: bool)
    decreases |events|
  {
    events == [] ||
    match events[0]
    case Failed(_, _, _) => !failed && NeverTwiceInARow(events[1..], true)
    case Delivered => NeverTwiceInARow(events[1..], false)
    case _ => NeverTwiceInARow(events[1..], failed)
  }

  /** The backlog goes on being read. */
  ghost predicate KeepsReading(s: State, events: seq<Event>, end: State)
    requires Reaches(s, events, end)
    decreases |events|
  {
    s.disk.reading.Some? && (events == [] || KeepsReading(Next(s, events[0]), events[1..], end))
  }

  /** Nothing is popped and nothing is written: the logger only tries to deliver. */
  predicate OnlyTries(s: State, events: seq<Event>, end: State) {
    && (forall e <- events :: IsLoggers(e) ==> e.Delivered? || e.Failed?)
    && end.disk.file == s.disk.file && s.shared.queue <= end.shared.queue
  }

  lemma OnlyTriesNext(s: State, e: Event, events: seq<Event>, end: State)
    requires Enabled(s, e) && Pos(s) <= |s.disk.file| && (IsLoggers(e) ==> e.Delivered? || e.Failed?)
    requires Next(s, e).disk.file == s.disk.file && s.shared.queue <= Next(s, e).shared.queue
    requires OnlyTries(Next(s, e), events, end)
    ensures OnlyTries(s, [e] + events, end)
  {
  }

  lemma {:induction false} OnlyTriesAlong(s: State, events: seq<Event>, end: State, failed: bool)
    requires s.pc == Holding || s.pc == Stopped(Aborted)
    requires s.disk.appending && s.pc == Holding ==> failed
    requires Reaches(s, events, end) && KeepsReading(s, events, end) && NeverTwiceInARow(events, failed)
    ensures OnlyTries(s, events, end)
    decreases |events|
  {
    if events != [] {
      var e := events[0];
      var s', failed' := Next(s, e), if e.Failed? then true else if e.Delivered? then false else failed;
      assert s'.disk.reading.Some?;
      OnlyTriesAlong(s', events[1..], end, failed');
      OnlyTriesNext(s, e, events[1..], end);
      assert [e] + events[1..] == events;
    }
  }

  /** What closes the handle: a delivery, a write that has failed for good, and a
      backlog that opens for reading only. */
  predicate ClosesHandle(s: State, e: Event) {
    || e.Delivered?
    || e == Resume(true)
    || (e.Failed? && s.disk.reading == None && !e.appendOk)
  }

  /** From then on, while the backlog goes on being read, nothing is appended to
      it before two deliveries have failed in a row: the first failure only
      reopens the handle. */
  lemma NothingAppendedAfter(s: State, e: Event, events: seq<Event>, end: State)
    requires Enabled(s, e) && Pos(s) <= |s.disk.file| && ClosesHandle(s, e)
    requires Next(s, e).pc == Holding && Next(s, e).disk.reading.Some?
    requires Reaches(Next(s, e), events, end) && KeepsReading(Next(s, e), events, end)
    requires NeverTwiceInARow(events, false)
    ensures OnlyTries(Next(s, e), events, end)
  {
    OnlyTriesAlong(Next(s, e), events, end, false);
  }

  lemma {:induction false} ReadersOnly(s: State, events: seq<Event>, end: State)
    requires Reaches(s, events, end) && forall e <- events :: !IsLoggers(e)
    ensures end.pc == s.pc && end.held == s.held && end.disk == s.disk && s.shared.queue <= end.shared.queue
    decreases |events|
  {
    if events != [] {
      assert events[0] in events;
      ReadersOnly(Next(s, events[0]), events[1..], end);
    }
  }

  /** Two failures in a row do spill: the first one leaves file and queue alone and
      opens the handle, and the second one goes on to sample the queue. */
  lemma SecondFailureSpills(s: State, first: Event, meanwhile: seq<Event>, mid: State, second: Event)
    requires FileInv(s) && PcInv(s) && Closed(s) && first.Failed? && first.appendOk && Enabled(s, first)
    requires Reaches(Next(s, first), meanwhile, mid) && forall e <- meanwhile :: !IsLoggers(e)
    requires second.Failed? && Enabled(mid, second)
    ensures mid.pc == Holding && mid.disk.appending
    ensures mid.disk.file == s.disk.file && s.shared.queue <= mid.shared.queue
    ensures Pos(mid) <= |mid.disk.file| && Next(mid, second).pc == Sampling(false)
  {
    ReadersOnly(Next(s, first), meanwhile, mid);
  }

  /** After a spill the next failure spills again, unless a write has failed for
      good: then it only reopens the handle. */
  lemma NextSpillIff(s: State, ferror: bool, meanwhile: seq<Event>, mid: State, next: Event)
    requires FileInv(s) && PcInv(s) && s.pc.Resuming? && !s.pc.starting && Enabled(s, Resume(ferror))
    requires Reaches(Next(s, Resume(ferror)), meanwhile, mid) && forall e <- meanwhile :: !IsLoggers(e)
    requires next.Failed? && Enabled(mid, next)
    ensures Pos(mid) <= |mid.disk.file| && (Next(mid, next).pc == Sampling(false) <==> !ferror)
  {
    ReadersOnly(Next(s, Resume(ferror)), meanwhile, mid);
  }

  // A reopening that fails

  /** The backlog is being read, the handle for appending is closed and cannot be opened. */
  predicate FailsToReopen(s: State, e: Event) {
    e.Failed? && s.disk.reading.Some? && !s.disk.appending && !e.appendOk
  }

  ghost predicate SomeReopeningFails(s: State, events: seq<Event>, end: State)
    requires Reaches(s, events, end)
    decreases |events|
  {
    events != [] && (FailsToReopen(s, events[0]) || SomeReopeningFails(Next(s, events[0]), events[1..], end))
  }

  lemma AbortedNext(s: State, e: Event)
    requires FileInv(s) && PcInv(s) && Enabled(s, e)
    ensures Next(s, e).pc == Stopped(Aborted) <==> s.pc == Stopped(Aborted) || FailsToReopen(s, e)
  {
  }

  lemma {:induction false} AbortedRun(s: State, events: seq<Event>, end: State)
    requires Inv(s) && Reaches(s, events, end)
    ensures end.pc == Stopped(Aborted) <==> s.pc == Stopped(Aborted) || SomeReopeningFails(s, events, end)
    decreases |events|
  {
    if events != [] {
      AbortedNext(s, events[0]);
      NextKeepsInv(s, events[0]);
      AbortedRun(Next(s, events[0]), events[1..], end);
    }
  }

  /** The process is aborted in exactly the runs in which reopening the backlog
      for appending fails once. */
  lemma AbortedIff(hasBacklog: bool, file: seq<seq<byte>>, events: seq<Event>, end: State)
    requires GoodFile(hasBacklog, file) && Reaches(Initial(hasBacklog, file), events, end)
    ensures end.pc == Stopped(Aborted) <==> SomeReopeningFails(Initial(hasBacklog, file), events, end)
  {
    InvInitial(hasBacklog, file);
    AbortedRun(Initial(hasBacklog, file), events, end);
  }
}
