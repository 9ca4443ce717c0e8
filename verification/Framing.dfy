/** The framing state machine of one source, on values: what a read does to the
    bytes held and which lines it reports. The class `InputHandler` is proved
    against `Read`; here its behaviour over whole runs is compared with the
    lines of the byte stream itself. */
module Framing {
  import opened Lines
  import opened RingLayout
  import opened Subsequences

  datatype Mode = Ready | Oversized | Ended

  /** What the operating system answers to one read attempt. */
  datatype Input =
    | Dead                      // FIONREAD fails, or finds nothing; or the read fails or returns nothing
    | Interrupted               // EAGAIN or EINTR
    | Bytes(bytes: seq<byte>)

  datatype Framer = Framer(size: nat, mode: Mode, border: int, held: seq<byte>)

  datatype Outcome = Outcome(next: Framer, lines: seq<seq<byte>>, status: int)

  function Initial(size: nat): Framer {
    Framer(size, Ready, 0, [])
  }

  /** What holds between reads. */
  predicate Resting(f: Framer) {
    && Within(f.size, f.border, |f.held|)
    && |f.held| < f.size
    && (f.mode == Oversized ==> f.border == 0 && f.held == [])
  }

  /** A read returns between one byte and as many as there is room for. */
  predicate Possible(f: Framer, input: Input)
    requires Resting(f)
  {
    input.Bytes? ==> 0 < |input.bytes| <= Room(f.size, f.border, |f.held|)
  }

  datatype Drained = Drained(border: int, held: seq<byte>, lines: seq<seq<byte>>)

  /** Takes lines off the ring until no search finds one. */
  function Drain(size: nat, border: int, held: seq<byte>): (d: Drained)
    requires Within(size, border, |held|)
    ensures Within(size, d.border, |d.held|)
    ensures Blind(size, d.border, |d.held|) || NEWLINE !in d.held
    ensures d.lines == [] ==> d.border == border && d.held == held
    ensures d.lines != [] ==> |d.held| < size
    decreases |held|
  {
    if Blind(size, border, |held|) || NEWLINE !in held then Drained(border, held, [])
    else
      var n := LineLength(held);
      var rest := Drain(size, BorderAfter(size, border, n), held[n..]);
      Drained(rest.border, rest.held, [held[..n]] + rest.lines)
  }

  /** Reports the complete lines; a ring that is still full is emptied, and the
      line it could not hold is dropped up to its newline. */
  function Report(size: nat, border: int, held: seq<byte>): (r: Outcome)
    requires Within(size, border, |held|)
    ensures Resting(r.next) && r.next.size == size
  {
    var d := Drain(size, border, held);
    if |d.held| == size then Outcome(Framer(size, Oversized, 0, []), d.lines, 0)
    else Outcome(Framer(size, Ready, d.border, d.held), d.lines, 0)
  }

  function Read(f: Framer, input: Input): (r: Outcome)
    requires Resting(f) && Possible(f, input)
    ensures Resting(r.next) && r.next.size == f.size
  {
    if f.mode == Ended then Outcome(f, [], -1)
    else match input
      case Dead => Outcome(f.(mode := Ended), [], -1)
      case Interrupted => Outcome(f, [], 0)
      case Bytes(bytes) =>
        var held := f.held + bytes;
        if f.mode == Oversized then
          if NEWLINE !in held then Outcome(Framer(f.size, Oversized, 0, []), [], 0)
          else Report(f.size, LineLength(held), held[LineLength(held)..])
        else
          Report(f.size, f.border, held)
  }

  /** The read that loses lines: it fills the ring while the border is at the
      end, and the bytes held contain a newline. */
  predicate Misfires(f: Framer, input: Input) {
    && f.mode == Ready && input.Bytes?
    && Blind(f.size, f.border, |f.held| + |input.bytes|)
    && NEWLINE in f.held + input.bytes
  }

  // Whole runs

  predicate AllPossible(f: Framer, inputs: seq<Input>)
    requires Resting(f)
    decreases |inputs|
  {
    inputs == [] || (Possible(f, inputs[0]) && AllPossible(Read(f, inputs[0]).next, inputs[1..]))
  }

  predicate NeverMisfires(f: Framer, inputs: seq<Input>)
    requires Resting(f) && AllPossible(f, inputs)
    decreases |inputs|
  {
    inputs == [] || (!Misfires(f, inputs[0]) && NeverMisfires(Read(f, inputs[0]).next, inputs[1..]))
  }

  /** The lines a run reports. */
  function Reported(f: Framer, inputs: seq<Input>): seq<seq<byte>>
    requires Resting(f) && AllPossible(f, inputs)
    decreases |inputs|
  {
    if inputs == [] then []
    else Read(f, inputs[0]).lines + Reported(Read(f, inputs[0]).next, inputs[1..])
  }

  /** The bytes a read takes from the source. */
  function Taken(f: Framer, input: Input): seq<byte> {
    if f.mode != Ended && input.Bytes? then input.bytes else []
  }

  /** All bytes a run takes from the source. */
  function Stream(f: Framer, inputs: seq<Input>): seq<byte>
    requires Resting(f) && AllPossible(f, inputs)
    decreases |inputs|
  {
    if inputs == [] then []
    else Taken(f, inputs[0]) + Stream(Read(f, inputs[0]).next, inputs[1..])
  }

  // Correctness

  /** How the framer relates to the unfinished line of the stream. `exact` says
      no read has misfired so far: then a framer that drops bytes is inside a
      line that is already too long. */
  predicate Tracks(f: Framer, rest: seq<byte>, exact: bool)
    requires Resting(f)
  {
    && (f.mode == Ready ==> f.held == rest)
    && (f.mode == Oversized && exact ==> |rest| >= f.size)
  }

  lemma {:induction false} DrainSplits(size: nat, border: int, held: seq<byte>)
    requires Within(size, border, |held|) && !Blind(size, border, |held|)
    ensures Drain(size, border, held).lines == Split(held)
    ensures Drain(size, border, held).held == Rest(held)
    decreases |held|
  {
    if NEWLINE in held {
      var n := LineLength(held);
      DrainSplits(size, BorderAfter(size, border, n), held[n..]);
    }
  }

  lemma {:induction false} SplitFits(s: seq<byte>, limit: nat)
    requires |s| <= limit
    ensures Fitting(Split(s), limit) == Split(s)
    decreases |s|
  {
    if NEWLINE in s {
      SplitFits(s[LineLength(s)..], limit);
    }
  }

  /** A line whose start was dropped is the first one of `rest + bytes`. */
  lemma SplitAcross(rest: seq<byte>, bytes: seq<byte>)
    requires NEWLINE !in rest && NEWLINE in bytes
    ensures
      var n := LineLength(bytes);
      && Split(rest + bytes) == [rest + bytes[..n]] + Split(bytes[n..])
      && Rest(rest + bytes) == Rest(bytes[n..])
  {
    var n := LineLength(bytes);
    IndexOfAppend(rest, bytes, NEWLINE);
    assert LineLength(rest + bytes) == |rest| + n;
    assert (rest + bytes)[..|rest| + n] == rest + bytes[..n];
    assert (rest + bytes)[|rest| + n..] == bytes[n..];
  }

  /** How a read must compare with the lines that its bytes complete: it reports
      the last of them, and all of them unless a read has misfired. */
  predicate Follows(r: Outcome, rest: seq<byte>, due: seq<seq<byte>>, exact: bool, misfires: bool)
    requires Resting(r.next)
  {
    && Tracks(r.next, rest, exact && !misfires)
    && IsSuffix(r.lines, due)
    && (misfires ==> r.lines == [] != due)
    && (exact && !misfires ==> r.lines == due)
  }

  predicate ReadFollows(f: Framer, rest: seq<byte>, input: Input, exact: bool)
    requires Resting(f) && Possible(f, input)
  {
    var bytes := rest + Taken(f, input);
    Follows(Read(f, input), Rest(bytes), Fitting(Split(bytes), f.size), exact, Misfires(f, input))
  }

  /** The read that ends an oversized line reports the lines after it. */
  lemma ReadPastOversized(f: Framer, bytes: seq<byte>)
    requires Resting(f) && f.mode == Oversized && Possible(f, Bytes(bytes)) && NEWLINE in bytes
    ensures
      var r, after := Read(f, Bytes(bytes)), bytes[LineLength(bytes)..];
      r.lines == Split(after) && r.next.mode == Ready && r.next.held == Rest(after)
  {
    assert f.held + bytes == bytes && Room(f.size, 0, 0) == f.size;
    var n := LineLength(bytes);
    DrainSplits(f.size, n, bytes[n..]);
  }

  lemma DueAcross(rest: seq<byte>, bytes: seq<byte>, limit: nat)
    requires NEWLINE !in rest && NEWLINE in bytes && |bytes| <= limit
    ensures
      var n := LineLength(bytes);
      Fitting(Split(rest + bytes), limit) ==
      if |rest| + n <= limit then [rest + bytes[..n]] + Split(bytes[n..]) else Split(bytes[n..])
  {
    var n := LineLength(bytes);
    SplitAcross(rest, bytes);
    SplitFits(bytes[n..], limit);
    assert Split(rest + bytes)[1..] == Split(bytes[n..]);
  }

  lemma ReadWhileOversized(f: Framer, rest: seq<byte>, input: Input, exact: bool)
    requires Resting(f) && Possible(f, input) && Tracks(f, rest, exact) && NEWLINE !in rest
    requires f.mode == Oversized && input.Bytes?
    ensures ReadFollows(f, rest, input, exact)
  {
    assert f.held + input.bytes == input.bytes && Room(f.size, 0, 0) == f.size;
    if NEWLINE in input.bytes {
      ReadToNewline(f, rest, input.bytes, exact);
    } else {
      assert Split(rest + input.bytes) == [];
    }
  }

  lemma ReadToNewline(f: Framer, rest: seq<byte>, bytes: seq<byte>, exact: bool)
    requires Resting(f) && Possible(f, Bytes(bytes)) && Tracks(f, rest, exact) && NEWLINE !in rest
    requires f.mode == Oversized && NEWLINE in bytes && |bytes| <= f.size
    ensures ReadFollows(f, rest, Bytes(bytes), exact)
  {
    ReadPastOversized(f, bytes);
    FollowsPastOversized(Read(f, Bytes(bytes)), rest, bytes, f.size, exact);
  }

  /** The lines after the one dropped are due, and they are all if that one does not fit. */
  lemma FollowsPastOversized(r: Outcome, rest: seq<byte>, bytes: seq<byte>, limit: nat, exact: bool)
    requires Resting(r.next) && r.next.mode == Ready
    requires NEWLINE !in rest && NEWLINE in bytes && |bytes| <= limit && (exact ==> |rest| >= limit)
    requires r.lines == Split(bytes[LineLength(bytes)..]) && r.next.held == Rest(bytes[LineLength(bytes)..])
    ensures Follows(r, Rest(rest + bytes), Fitting(Split(rest + bytes), limit), exact, false)
  {
    SplitAcross(rest, bytes);
    DueAcross(rest, bytes, limit);
  }

  lemma ReadWhileReady(f: Framer, rest: seq<byte>, input: Input, exact: bool)
    requires Resting(f) && Possible(f, input) && Tracks(f, rest, exact) && NEWLINE !in rest
    requires f.mode == Ready && input.Bytes?
    ensures ReadFollows(f, rest, input, exact)
  {
    var held := rest + input.bytes;
    SplitFits(held, f.size);
    if !Blind(f.size, f.border, |held|) {
      DrainSplits(f.size, f.border, held);
    }
  }

  lemma ReadTracks(f: Framer, rest: seq<byte>, input: Input, exact: bool)
    requires Resting(f) && Possible(f, input) && Tracks(f, rest, exact) && NEWLINE !in rest
    ensures ReadFollows(f, rest, input, exact)
  {
    if f.mode == Ended || !input.Bytes? {
      assert rest + Taken(f, input) == rest;
    } else if f.mode == Oversized {
      ReadWhileOversized(f, rest, input, exact);
    } else {
      ReadWhileReady(f, rest, input, exact);
    }
  }

  /** The lines due after a prefix of a stream, and those due after the rest of it. */
  lemma DueAppend(rest: seq<byte>, taken: seq<byte>, more: seq<byte>, limit: nat)
    ensures Fitting(Split(rest + (taken + more)), limit)
            == Fitting(Split(rest + taken), limit) + Fitting(Split(Rest(rest + taken) + more), limit)
  {
    assert rest + (taken + more) == (rest + taken) + more;
    SplitAppend(rest + taken, more);
    FittingAppend(Split(rest + taken), Split(Rest(rest + taken) + more), limit);
  }

  /** `bytes` is what a run reads, behind the unfinished line it starts in. */
  lemma {:induction false} RunTracks(f: Framer, rest: seq<byte>, inputs: seq<Input>, exact: bool, bytes: seq<byte>)
    requires Resting(f) && AllPossible(f, inputs) && Tracks(f, rest, exact) && NEWLINE !in rest
    requires bytes == rest + Stream(f, inputs)
    ensures
      var due := Fitting(Split(bytes), f.size);
      && Subsequence(Reported(f, inputs), due)
      && (exact ==> (Reported(f, inputs) == due <==> NeverMisfires(f, inputs)))
    decreases |inputs|
  {
    if inputs == [] {
      assert bytes == rest;
    } else {
      var taken, r := Taken(f, inputs[0]), Read(f, inputs[0]);
      var more, rest' := Stream(r.next, inputs[1..]), Rest(rest + taken);
      var due, later := Fitting(Split(rest + taken), f.size), Fitting(Split(rest' + more), f.size);
      ReadTracks(f, rest, inputs[0], exact);
      RunTracks(r.next, rest', inputs[1..], exact && !Misfires(f, inputs[0]), rest' + more);
      DueAppend(rest, taken, more, f.size);
      SuffixWithin(r.lines, due);
      Joined(r.lines, due, Reported(r.next, inputs[1..]), later);
      JoinedEqual(r.lines, Reported(r.next, inputs[1..]), due, later);
    }
  }

  /** Main result: whatever the capacity and however the stream is cut into
      reads, the lines reported are the lines of the stream that fit in the
      ring, in order, if and only if no read misfires. A misfire only leaves some
      of them out: no fragment of a line is ever reported. */
  lemma ReportedLines(size: nat, inputs: seq<Input>)
    requires size > 0 && AllPossible(Initial(size), inputs)
    ensures Subsequence(Reported(Initial(size), inputs), Fitting(Split(Stream(Initial(size), inputs)), size))
    ensures Reported(Initial(size), inputs) == Fitting(Split(Stream(Initial(size), inputs)), size)
            <==> NeverMisfires(Initial(size), inputs)
  {
    RunTracks(Initial(size), [], inputs, true, Stream(Initial(size), inputs));
  }

  /** A source at its end stays there: after a dead read nothing more is taken
      from it, and nothing more is reported. */
  lemma {:induction false} NothingAfterDead(f: Framer, inputs: seq<Input>, more: seq<Input>)
    requires Resting(f) && AllPossible(f, inputs + [Dead] + more)
    ensures AllPossible(f, inputs)
    ensures Stream(f, inputs + [Dead] + more) == Stream(f, inputs)
    ensures Reported(f, inputs + [Dead] + more) == Reported(f, inputs)
    decreases |inputs|
  {
    var all := inputs + [Dead] + more;
    if inputs == [] {
      assert all[0] == Dead && all[1..] == more;
      EndedTakesNothing(Read(f, Dead).next, more);
    } else {
      assert all[0] == inputs[0] && all[1..] == inputs[1..] + [Dead] + more;
      NothingAfterDead(Read(f, inputs[0]).next, inputs[1..], more);
    }
  }

  lemma {:induction false} EndedTakesNothing(f: Framer, inputs: seq<Input>)
    requires Resting(f) && AllPossible(f, inputs) && f.mode == Ended
    ensures Stream(f, inputs) == [] && Reported(f, inputs) == []
    decreases |inputs|
  {
    if inputs != [] {
      EndedTakesNothing(Read(f, inputs[0]).next, inputs[1..]);
    }
  }

  /** A condition on the reads alone: a run in which no single read fills the
      whole ring at once reports exactly the fitting lines of its stream. */
  lemma ReportedWithoutFullReads(size: nat, inputs: seq<Input>)
    requires size > 0 && AllPossible(Initial(size), inputs)
    requires forall input <- inputs :: input.Bytes? ==> |input.bytes| < size
    ensures Reported(Initial(size), inputs) == Fitting(Split(Stream(Initial(size), inputs)), size)
  {
    BorderStaysInside(Initial(size), inputs);
    ReportedLines(size, inputs);
  }

  lemma {:induction false} BorderStaysInside(f: Framer, inputs: seq<Input>)
    requires Resting(f) && AllPossible(f, inputs) && f.border < f.size
    requires forall input <- inputs :: input.Bytes? ==> |input.bytes| < f.size
    ensures NeverMisfires(f, inputs)
    decreases |inputs|
  {
    if inputs != [] {
      assert inputs[0] in inputs;
      ReadKeepsInside(f, inputs[0]);
      BorderStaysInside(Read(f, inputs[0]).next, inputs[1..]);
    }
  }

  /** A read that does not fill a whole ring whose border is inside does not
      misfire, and leaves it inside. */
  lemma ReadKeepsInside(f: Framer, input: Input)
    requires Resting(f) && Possible(f, input) && f.border < f.size
    requires input.Bytes? ==> |input.bytes| < f.size
    ensures !Misfires(f, input) && Read(f, input).next.border < f.size
  {
    if Taken(f, input) != [] {
      var held := f.held + input.bytes;
      if f.mode == Oversized && NEWLINE in held {
        DrainKeepsInside(f.size, LineLength(held), held[LineLength(held)..]);
      } else if f.mode == Ready {
        DrainKeepsInside(f.size, f.border, held);
      }
    }
  }

  lemma {:induction false} DrainKeepsInside(size: nat, border: int, held: seq<byte>)
    requires Within(size, border, |held|) && border < size
    ensures Drain(size, border, held).border < size
    decreases |held|
  {
    if NEWLINE in held {
      DrainKeepsInside(size, BorderAfter(size, border, LineLength(held)), held[LineLength(held)..]);
    }
  }

  /** Two ways of cutting the same stream into reads report the same lines. */
  lemma ChunkingIndependence(size: nat, inputs: seq<Input>, inputs': seq<Input>)
    requires size > 0 && AllPossible(Initial(size), inputs) && AllPossible(Initial(size), inputs')
    requires Stream(Initial(size), inputs) == Stream(Initial(size), inputs')
    requires NeverMisfires(Initial(size), inputs) && NeverMisfires(Initial(size), inputs')
    ensures Reported(Initial(size), inputs) == Reported(Initial(size), inputs')
  {
    ReportedLines(size, inputs);
    ReportedLines(size, inputs');
  }

  /** The lines of the stream can indeed get lost. A ring of two bytes drops
      "aaa\n", whose end leaves the border at the end of the ring; the two empty
      lines that follow in one read are then never found. */
  lemma LinesCanGetLost()
    ensures
      var a: byte := 97;
      var inputs := [Bytes([a, a]), Bytes([a, NEWLINE]), Bytes([NEWLINE, NEWLINE])];
      && AllPossible(Initial(2), inputs)
      && Reported(Initial(2), inputs) == []
      && Fitting(Split(Stream(Initial(2), inputs)), 2) == [[NEWLINE], [NEWLINE]]
  {
    var a: byte := 97;
    ThreeReads(a);
    LongLineIsDropped(a);
  }

  lemma ThreeReads(a: byte)
    requires a != NEWLINE
    ensures
      var inputs := [Bytes([a, a]), Bytes([a, NEWLINE]), Bytes([NEWLINE, NEWLINE])];
      && AllPossible(Initial(2), inputs)
      && Reported(Initial(2), inputs) == []
      && Stream(Initial(2), inputs) == [a, a, a, NEWLINE, NEWLINE, NEWLINE]
  {
    var i0, i1, i2 := Bytes([a, a]), Bytes([a, NEWLINE]), Bytes([NEWLINE, NEWLINE]);
    FirstRead(a);
    SecondRead(a);
    ThirdRead();
    RunCons(Framer(2, Ready, 2, []), i2, []);
    RunCons(Framer(2, Oversized, 0, []), i1, [i2]);
    RunCons(Initial(2), i0, [i1, i2]);
    assert [i0] + [i1, i2] == [i0, i1, i2] && [i1] + [i2] == [i1, i2] && [i2] + [] == [i2];
    assert [a, a] + ([a, NEWLINE] + ([NEWLINE, NEWLINE] + [])) == [a, a, a, NEWLINE, NEWLINE, NEWLINE];
  }

  lemma FirstRead(a: byte)
    requires a != NEWLINE
    ensures Possible(Initial(2), Bytes([a, a]))
    ensures Read(Initial(2), Bytes([a, a])) == Outcome(Framer(2, Oversized, 0, []), [], 0)
  {
    assert Initial(2).held + [a, a] == [a, a];
  }

  lemma SecondRead(a: byte)
    requires a != NEWLINE
    ensures Possible(Framer(2, Oversized, 0, []), Bytes([a, NEWLINE]))
    ensures Read(Framer(2, Oversized, 0, []), Bytes([a, NEWLINE])) == Outcome(Framer(2, Ready, 2, []), [], 0)
  {
    assert [] + [a, NEWLINE] == [a, NEWLINE];
    assert IndexOf([a, NEWLINE], NEWLINE) == 1;
    assert [a, NEWLINE][2..] == [];
  }

  lemma ThirdRead()
    ensures Possible(Framer(2, Ready, 2, []), Bytes([NEWLINE, NEWLINE]))
    ensures Read(Framer(2, Ready, 2, []), Bytes([NEWLINE, NEWLINE])) == Outcome(Framer(2, Oversized, 0, []), [], 0)
  {
    assert [] + [NEWLINE, NEWLINE] == [NEWLINE, NEWLINE];
  }

  lemma RunCons(f: Framer, input: Input, inputs: seq<Input>)
    requires Resting(f) && Possible(f, input) && AllPossible(Read(f, input).next, inputs)
    ensures AllPossible(f, [input] + inputs)
    ensures Reported(f, [input] + inputs) == Read(f, input).lines + Reported(Read(f, input).next, inputs)
    ensures Stream(f, [input] + inputs) == Taken(f, input) + Stream(Read(f, input).next, inputs)
  {
    assert ([input] + inputs)[1..] == inputs;
  }

  lemma LongLineIsDropped(a: byte)
    requires a != NEWLINE
    ensures Fitting(Split([a, a, a, NEWLINE, NEWLINE, NEWLINE]), 2) == [[NEWLINE], [NEWLINE]]
  {
    var line, empty: seq<byte> := [a, a, a, NEWLINE], [NEWLINE];
    var lines := [line, empty, empty];
    assert lines[1..] == [empty, empty] && [empty, empty][1..] == [empty] && [empty][1..] == [];
    assert Flatten([empty]) == empty && Flatten([empty, empty]) == empty + empty;
    assert Flatten(lines) == [a, a, a, NEWLINE, NEWLINE, NEWLINE];
    SplitFlatten(lines);
    assert Fitting([empty], 2) == [empty] && Fitting([empty, empty], 2) == [empty, empty];
    assert Fitting(lines, 2) == [] + Fitting([empty, empty], 2);
  }
}
