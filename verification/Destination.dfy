/** What the destination gets to see of a run: the logger's deliveries, and the
    bytes that the delivery loop has sent for each of them. */
module Destination {
  import opened Lines
  import opened Delivery
  import LM = LoggerModel
  import opened LoggerInvariant
  import opened LoggerSteps
  import P = Pipeline

  // The deliveries of a run

  /** The messages a delivery was tried of, in order; the same one again after a failure. */
  ghost function Tried(s: LM.State, events: seq<LM.Event>, end: LM.State): seq<seq<byte>>
    requires LM.Reaches(s, events, end)
    decreases |events|
  {
    if events == [] then []
    else
      (if LM.IsDelivery(events[0]) then [s.held.value] else []) + Tried(LM.Next(s, events[0]), events[1..], end)
  }

  /** Which of the deliveries succeeded. */
  function Succeeded(events: seq<LM.Event>): seq<bool> {
    if events == [] then []
    else (if LM.IsDelivery(events[0]) then [events[0].Delivered?] else []) + Succeeded(events[1..])
  }

  lemma {:induction false} TriedFramed(s: LM.State, events: seq<LM.Event>, end: LM.State)
    requires Inv(s) && LM.Reaches(s, events, end)
    ensures AllFramed(Tried(s, events, end))
    decreases |events|
  {
    if events != [] {
      NextKeepsInv(s, events[0]);
      TriedFramed(LM.Next(s, events[0]), events[1..], end);
    }
  }

  lemma DeliveredGrows(s: LM.State, e: LM.Event)
    requires LM.Enabled(s, e) && LM.Pos(s) <= |s.disk.file|
    ensures LM.Next(s, e).past.delivered == s.past.delivered + if e.Delivered? then [s.held.value] else []
  {
  }

  /** The messages the logger counts as delivered are those whose delivery succeeded. */
  lemma {:induction false} ChosenAreDelivered(s: LM.State, events: seq<LM.Event>, end: LM.State)
    requires LM.Reaches(s, events, end)
    ensures |Tried(s, events, end)| == |Succeeded(events)|
    ensures end.past.delivered == s.past.delivered + Chosen(Tried(s, events, end), Succeeded(events))
    decreases |events|
  {
    if events != [] {
      var s', later := LM.Next(s, events[0]), events[1..];
      DeliveredGrows(s, events[0]);
      ChosenAreDelivered(s', later, end);
      ChosenCons(s, events[0], Tried(s', later, end), Succeeded(later));
    }
  }

  lemma ChosenCons(s: LM.State, e: LM.Event, tried: seq<seq<byte>>, succeeded: seq<bool>)
    requires |tried| == |succeeded| && (LM.IsDelivery(e) ==> s.held.Some?)
    ensures
      var first := if LM.IsDelivery(e) then [s.held.value] else [];
      var outcome := if LM.IsDelivery(e) then [e.Delivered?] else [];
      Chosen(first + tried, outcome + succeeded)
      == (if e.Delivered? then [s.held.value] else []) + Chosen(tried, succeeded)
  {
    if LM.IsDelivery(e) {
      assert ([s.held.value] + tried)[1..] == tried && ([e.Delivered?] + succeeded)[1..] == succeeded;
    } else {
      assert [] + tried == tried && [] + succeeded == succeeded;
      assert [] + Chosen(tried, succeeded) == Chosen(tried, succeeded);
    }
  }

  /** Whatever the delivery loop has sent in the deliveries of a run: a destination
      that splits its bytes into lines sees exactly the messages the logger counts
      as delivered, if and only if no delivery was given up half written. */
  lemma DestinationSees(hasBacklog: bool, file: seq<seq<byte>>, events: seq<LM.Event>, end: LM.State,
                        sent: seq<seq<byte>>)
    requires LM.GoodFile(hasBacklog, file) && LM.Reaches(LM.Initial(hasBacklog, file), events, end)
    requires IsSent(Tried(LM.Initial(hasBacklog, file), events, end), sent, Succeeded(events))
    ensures Split(Flatten(sent)) == end.past.delivered && Rest(Flatten(sent)) == []
            <==> GivenUpWhole(sent, Succeeded(events))
    ensures Flatten(sent) == Flatten(end.past.delivered) <==> GivenUpWhole(sent, Succeeded(events))
  {
    var start := LM.Initial(hasBacklog, file);
    InvInitial(hasBacklog, file);
    TriedFramed(start, events, end);
    ChosenAreDelivered(start, events, end);
    var chosen := Chosen(Tried(start, events, end), Succeeded(events));
    assert [] + chosen == chosen;
    LinesSeenIff(Tried(start, events, end), sent, Succeeded(events));
    WholeIff(Tried(start, events, end), sent, Succeeded(events));
  }

  /** From byte stream to byte stream: without backlog errors, without reads that
      fill a whole ring and without deliveries given up half written, when the
      logger ends in its main loop the destination has read, among its lines,
      exactly the lines of every source that fit in its ring, in order. */
  lemma EveryLineIsSeen(size: nat, hasBacklog: bool, events: seq<P.Event>, end: P.State, sent: seq<seq<byte>>, i: int)
    requires size > 0 && P.Reaches(P.Start(size, hasBacklog), events, end) && i in end.sources
    requires P.NoFaults(events) && P.NoFullReads(events, size)
    requires end.logger.pc == LM.Stopped(LM.Drained)
    requires
      var logged := P.LoggerEvents(P.Start(size, hasBacklog), events, end);
      && IsSent(Tried(LM.Initial(hasBacklog, []), logged, end.logger), sent, Succeeded(logged))
      && GivenUpWhole(sent, Succeeded(logged))
    ensures
      var seen := Split(Flatten(sent));
      && Rest(Flatten(sent)) == [] && |seen| == |end.tags|
      && P.Of(i, seen, end.tags) == Fitting(Split(end.sources[i].stream), end.size)
  {
    DestinationSees(hasBacklog, [], P.LoggerEvents(P.Start(size, hasBacklog), events, end), end.logger, sent);
    P.EveryLineArrives(size, hasBacklog, events, end, i);
  }
}
