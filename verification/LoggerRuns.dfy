/** Concrete runs in which the logger does harm. */
module LoggerRuns {
  import opened Lines
  import opened Wrappers
  import opened LoggerModel
  import opened LoggerInvariant

  lemma {:induction false} ReachesOn(s: State, events: seq<Event>, mid: State, more: seq<Event>, end: State)
    requires Reaches(s, events, mid) && Reaches(mid, more, end)
    ensures Reaches(s, events + more, end)
    decreases |events|
  {
    if events == [] {
      assert events + more == more;
    } else {
      assert (events + more)[1..] == events[1..] + more;
      ReachesOn(Next(s, events[0]), events[1..], mid, more, end);
    }
  }

  /** One more event. */
  lemma Then(start: State, events: seq<Event>, s: State, e: Event) returns (events': seq<Event>, s': State)
    requires Reaches(start, events, s) && Enabled(s, e) && Pos(s) <= |s.disk.file|
    ensures Reaches(start, events', s') && s' == Next(s, e)
  {
    events', s' := events + [e], Next(s, e);
    assert [e][1..] == [];
    ReachesOn(start, events, s, [e], s');
  }

  /** A message has arrived and is held; there is no backlog yet. */
  function HeldFirst(m: seq<byte>): State {
    State(Holding, Some(m), None, Disk(true, [], None, false), Shared([], 0, 0, false, [m]),
          Past([], [], [0], multiset{}, multiset{}))
  }

  /** It is in the queue, and the logger waits. */
  function Arrived(m: seq<byte>): State {
    State(Waiting(ForDelivery), None, None, Disk(true, [], None, false), Shared([Line(m)], 1, 0, false, [m]),
          Past([], [], [0], multiset{}, multiset{}))
  }

  lemma Arrives(m: seq<byte>) returns (events: seq<Event>)
    requires Framed(m)
    ensures Reaches(Initial(true, []), events, Arrived(m))
  {
    var start := Initial(true, []);
    var s := start;
    events := [];
    events, s := Then(start, events, s, Store(Line(m)));
    assert s.shared == Shared([Line(m)], 0, 1, false, [m]) && s.past == Past([], [], [0], multiset{}, multiset{});
    events, s := Then(start, events, s, Post);
    events, s := Then(start, events, s, Open(false));
  }

  lemma ArrivesAndIsHeld(m: seq<byte>) returns (events: seq<Event>)
    requires Framed(m)
    ensures Reaches(Initial(true, []), events, HeldFirst(m))
  {
    var start, s := Initial(true, []), Arrived(m);
    events := Arrives(m);
    events, s := Then(start, events, s, Wait);
    events, s := Then(start, events, s, Take);
    assert s.shared == Shared([], 0, 0, false, [m]);
  }

  /** A message can be lost without a trace, and the logger ends with it: the
      backlog opens, `fputs` takes the message, and the flush fails. */
  lemma FlushFailureLosesMessage(m: seq<byte>)
    requires Framed(m)
    ensures exists events, end ::
              Reaches(Initial(true, []), events, end) && end.pc == Stopped(NothingRead)
              && end.shared.pushed == [m] && end.past.delivered == [] && end.disk.file == [] && end.shared.queue == []
  {
    var start, s := Initial(true, []), HeldFirst(m);
    var events := ArrivesAndIsHeld(m);
    events, s := Then(start, events, s, Failed(true, true, Lost));
    events, s := Then(start, events, s, Sample);
    events, s := Then(start, events, s, Resume(false));
  }

  /** The message held is refused by a new backlog: it is put back and still held. */
  function PutBackWhileHeld(m: seq<byte>): State {
    State(Holding, Some(m), None, Disk(true, [], Some(0), true), Shared([Line(m)], 1, 0, false, [m]),
          Past([], [], [0, 0], multiset{0}, multiset{}))
  }

  lemma RefusedAndPutBack(m: seq<byte>) returns (events: seq<Event>)
    requires Framed(m)
    ensures Reaches(Initial(true, []), events, PutBackWhileHeld(m))
  {
    var start, s := Initial(true, []), HeldFirst(m);
    events := ArrivesAndIsHeld(m);
    events, s := Then(start, events, s, Failed(true, true, Refused));
    events, s := Then(start, events, s, Unpop);
    assert s.past == Past([], [], [0, 0], multiset{0}, multiset{}) && s.shared == Shared([Line(m)], 0, 0, false, [m]);
    events, s := Then(start, events, s, Repost);
  }

  /** The copy is held in turn, after the message has been delivered. */
  function CopyHeld(m: seq<byte>): State {
    State(Holding, Some(m), None, Disk(true, [], None, false), Shared([], 0, 0, false, [m]),
          Past([], [m], [0, 0], multiset{0}, multiset{}))
  }

  lemma DeliveredAndCopyHeld(m: seq<byte>) returns (events: seq<Event>)
    requires Framed(m)
    ensures Reaches(Initial(true, []), events, CopyHeld(m))
  {
    var start, s := Initial(true, []), PutBackWhileHeld(m);
    events := RefusedAndPutBack(m);
    events, s := Then(start, events, s, Delivered);
    assert s.past == Past([], [m], [0, 0], multiset{0}, multiset{}) && s.disk == Disk(true, [], None, false);
    events, s := Then(start, events, s, Wait);
    events, s := Then(start, events, s, Take);
    assert s.shared == Shared([], 0, 0, false, [m]);
  }

  /** So a message can be delivered twice. */
  lemma MessageDeliveredTwice(m: seq<byte>)
    requires Framed(m)
    ensures exists events, end ::
              Reaches(Initial(true, []), events, end) && end.shared.pushed == [m] && end.past.delivered == [m, m]
  {
    var start, s := Initial(true, []), CopyHeld(m);
    var events := DeliveredAndCopyHeld(m);
    events, s := Then(start, events, s, Delivered);
  }

  /** And one harm can make good for the other: the copy is lost, and the message
      has been delivered exactly once. */
  lemma HarmsCanCancel(m: seq<byte>)
    requires Framed(m)
    ensures exists events, end ::
              Reaches(Initial(true, []), events, end) && end.past.doubled == end.past.lost == multiset{0}
              && end.past.delivered == end.shared.pushed == [m] && Pos(end) <= |end.disk.file| && Flow(end) == [m]
  {
    var start, s := Initial(true, []), CopyHeld(m);
    var events := DeliveredAndCopyHeld(m);
    events, s := Then(start, events, s, Failed(true, true, Lost));
    assert s.past.lost == multiset{0};
    events, s := Then(start, events, s, Sample);
    events, s := Then(start, events, s, Resume(false));
    assert Flow(s) == [m];
  }

  /** A spilled stop can lose the message held: the backlog opened for reading but
      not for appending, so the message never got there; appending opens with the
      next failure, and the spill meets the sentinel. */
  lemma SpilledStopLosesMessage(m: seq<byte>)
    requires Framed(m)
    ensures exists events, end ::
              Reaches(Initial(true, []), events, end) && end.pc == Stopped(Spilled)
              && end.past.doubled == end.past.lost == multiset{}
              && end.shared.pushed == [m] && end.past.delivered == [] && end.disk.file == [] && end.shared.queue == []
  {
    var start, s := Initial(true, []), HeldFirst(m);
    var events := ArrivesAndIsHeld(m);
    events, s := Then(start, events, s, Failed(false, true, Written));
    events, s := Then(start, events, s, Failed(true, true, Written));
    events, s := Then(start, events, s, Store(Sentinel));
    events, s := Then(start, events, s, Post);
    events, s := Then(start, events, s, Failed(true, true, Written));
    events, s := Then(start, events, s, Sample);
    events, s := Then(start, events, s, Wait);
    events, s := Then(start, events, s, Take);
  }
}
