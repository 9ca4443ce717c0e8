/** One source: its ring buffer and its state, and the read that frames its bytes. */
module InputHandlers {
  import opened Lines
  import opened RingLayout
  import opened InputBuffers
  import opened Framing

  class InputHandler {
    const inbuf: InputBuffer
    var state: Mode

    ghost predicate Valid()
      reads this, inbuf, inbuf.data
    {
      inbuf.Valid() && Resting(Model())
    }

    ghost function Model(): Framer
      requires inbuf.Valid()
      reads this, inbuf, inbuf.data
    {
      Framer(inbuf.data.Length, state, inbuf.border, inbuf.Content())
    }

    constructor Init(size: nat)
      requires size > 0
      ensures Valid() && fresh(inbuf) && fresh(inbuf.data)
      ensures Model() == Initial(size)
    {
      inbuf := new InputBuffer.Create(size);
      state := Ready;
    }

    /** One read attempt. The two guards on the room in the ring never fail, and
        the purge of a full ring never finds a line. */
    method Read(input: Input) returns (status: int, reported: seq<seq<byte>>)
      requires Valid() && Possible(Model(), input)
      modifies this, inbuf, inbuf.data
      ensures Valid()
      ensures Outcome(Model(), reported, status) == Framing.Read(old(Model()), input)
    {
      ghost var f := Model();
      if state == Ended {
        return -1, [];
      }

      RoomIsFree(inbuf.data.Length, inbuf.border, inbuf.used);
      assert inbuf.write > 0;
      assert inbuf.available > 0;

      match input {
        case Dead =>
          state := Ended;
          return -1, [];
        case Interrupted =>
          return 0, [];
        case Bytes(bytes) =>
          inbuf.Receive(bytes);
          inbuf.Update(|bytes|);
      }
      ghost var held := f.held + input.bytes;
      assert inbuf.Content() == held && inbuf.border == f.border;

      if state == Oversized {
        var purged := inbuf.PurgeLine();
        if !purged {
          state := Oversized;
          assert NEWLINE !in held;
          return 0, [];
        }
        state := Ready;
        assert inbuf.Content() == held[LineLength(held)..] && inbuf.border == LineLength(held);
      }

      assert Framing.Read(f, input) == Report(inbuf.data.Length, inbuf.border, inbuf.Content());
      reported := ReportLines();
      status := 0;
    }

    /** The reporting half of the read: the drain loop and the purge of a ring that stayed full. */
    method ReportLines() returns (reported: seq<seq<byte>>)
      requires inbuf.Valid() && state == Ready
      modifies this, inbuf
      ensures Valid()
      ensures Outcome(Model(), reported, 0) == Report(inbuf.data.Length, old(inbuf.border), old(inbuf.Content()))
    {
      reported := DrainLines();
      if inbuf.available == 0 {
        state := Oversized;
        var purged := inbuf.PurgeLine();
        assert !purged;
      }
    }

    method DrainLines() returns (reported: seq<seq<byte>>)
      requires inbuf.Valid()
      modifies inbuf
      ensures inbuf.Valid()
      ensures Drained(inbuf.border, inbuf.Content(), reported)
              == Drain(inbuf.data.Length, old(inbuf.border), old(inbuf.Content()))
    {
      ghost var size, d := inbuf.data.Length, Drain(inbuf.data.Length, inbuf.border, inbuf.Content());
      reported := [];
      DrainedStep(size, [], inbuf.border, inbuf.Content());
      var msg := inbuf.GetLine();
      while msg.Some?
        invariant inbuf.Valid()
        invariant msg.Some? ==> d == DrainedAfter(size, reported + [msg.value], inbuf.border, inbuf.Content())
        invariant msg.None? ==> d == Drained(inbuf.border, inbuf.Content(), reported)
        decreases inbuf.used, msg.Some?
      {
        reported := reported + [msg.value];
        DrainedStep(size, reported, inbuf.border, inbuf.Content());
        msg := inbuf.GetLine();
      }
    }
  }

  /** The end of a drain that has already reported some lines. */
  ghost function DrainedAfter(size: nat, reported: seq<seq<byte>>, border: int, held: seq<byte>): Drained
    requires Within(size, border, |held|)
  {
    var rest := Drain(size, border, held);
    Drained(rest.border, rest.held, reported + rest.lines)
  }

  lemma DrainedStep(size: nat, reported: seq<seq<byte>>, border: int, held: seq<byte>)
    requires Within(size, border, |held|)
    ensures reported == [] ==> DrainedAfter(size, reported, border, held) == Drain(size, border, held)
    ensures
      DrainedAfter(size, reported, border, held) ==
      if Blind(size, border, |held|) || NEWLINE !in held then Drained(border, held, reported)
      else
        var n := LineLength(held);
        DrainedAfter(size, reported + [held[..n]], BorderAfter(size, border, n), held[n..])
  {
    assert reported == [] ==> reported + Drain(size, border, held).lines == Drain(size, border, held).lines;
    if !Blind(size, border, |held|) && NEWLINE in held {
      var n := LineLength(held);
      var rest := Drain(size, BorderAfter(size, border, n), held[n..]);
      assert reported + ([held[..n]] + rest.lines) == (reported + [held[..n]]) + rest.lines;
    }
  }
}
