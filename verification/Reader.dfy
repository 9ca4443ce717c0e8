/** One round of the reader, on values. After a handler is removed the scan
    starts over, and the handlers before it are read again although nothing new
    has arrived for them. */
module Rounds {
  /** A handler in the table: whether `select` reported it, and how many more
      reads it answers before it is at its end, or looks as if it were. */
  datatype Slot = Slot(source: int, reported: bool, lives: nat)

  /** How many handlers of a table a round removes. */
  function Losses(slots: seq<Slot>): nat {
    if slots == [] then 0
    else Losses(slots[1..]) + if slots[0].reported && slots[0].lives <= Losses(slots[1..]) then 1 else 0
  }

  /** The table after a round: a reported handler stays if and only if it
      answers one read more than the number of handlers removed behind it; the
      others keep their order. */
  function Kept(slots: seq<Slot>): seq<Slot> {
    if slots == [] then []
    else
      var lost := Losses(slots[1..]);
      if !slots[0].reported then [slots[0]] + Kept(slots[1..])
      else if slots[0].lives <= lost then Kept(slots[1..])
      else [slots[0].(lives := slots[0].lives - 1 - lost)] + Kept(slots[1..])
  }

  /** No reported handler is at its end. */
  predicate Answering(slots: seq<Slot>) {
    forall i | 0 <= i < |slots| :: slots[i].reported ==> slots[i].lives > 0
  }

  predicate Unreported(slots: seq<Slot>) {
    forall i | 0 <= i < |slots| :: !slots[i].reported
  }

  /** Every reported handler read once. */
  function ReadOnce(slots: seq<Slot>): (r: seq<Slot>)
    requires Answering(slots)
    ensures |r| == |slots|
    ensures forall i | 0 <= i < |slots| ::
              r[i] == if slots[i].reported then slots[i].(lives := slots[i].lives - 1) else slots[i]
  {
    if slots == [] then []
    else [if slots[0].reported then slots[0].(lives := slots[0].lives - 1) else slots[0]] + ReadOnce(slots[1..])
  }

  /** A pass that meets a handler at its end at index `i`: those before it have
      been read, it is removed, and the round starts over with the same result. */
  lemma {:induction false} KeptAfterRemoval(slots: seq<Slot>, i: nat)
    requires i < |slots| && slots[i].reported && slots[i].lives == 0
    requires Answering(slots[..i])
    ensures Kept(slots) == Kept(ReadOnce(slots[..i]) + slots[i + 1..])
    ensures Losses(slots) == Losses(ReadOnce(slots[..i]) + slots[i + 1..]) + 1
  {
    if i == 0 {
      assert ReadOnce(slots[..0]) + slots[1..] == slots[1..];
    } else {
      var rest := slots[1..];
      assert rest[..i - 1] == slots[..i][1..] && rest[i..] == slots[i + 1..];
      KeptAfterRemoval(rest, i - 1);
      var after := ReadOnce(slots[..i]) + slots[i + 1..];
      assert after[1..] == ReadOnce(rest[..i - 1]) + rest[i..];
      assert slots[0] in slots[..i];
    }
  }

  /** A pass that meets no handler at its end reads every reported one once. */
  lemma {:induction false} KeptWithoutRemoval(slots: seq<Slot>)
    requires Answering(slots)
    ensures Kept(slots) == ReadOnce(slots) && Losses(slots) == 0
  {
    if slots != [] {
      KeptWithoutRemoval(slots[1..]);
    }
  }

  /** Handlers that were not reported take no part. */
  lemma {:induction false} KeptAppendUnreported(slots: seq<Slot>, added: seq<Slot>)
    requires Unreported(added)
    ensures Kept(slots + added) == Kept(slots) + added && Losses(slots + added) == Losses(slots)
  {
    if slots == [] {
      assert slots + added == added;
      if added != [] {
        assert added == [] + added;
        KeptUnreported(added);
      }
    } else {
      assert (slots + added)[1..] == slots[1..] + added;
      KeptAppendUnreported(slots[1..], added);
    }
  }

  lemma {:induction false} KeptUnreported(slots: seq<Slot>)
    requires Unreported(slots)
    ensures Kept(slots) == slots && Losses(slots) == 0
  {
    if slots != [] {
      KeptUnreported(slots[1..]);
    }
  }

  function Sources(slots: seq<Slot>): set<int> {
    set s <- slots :: s.source
  }

  /** The exact condition on the place of a handler in the table, for handlers
      with different sources. */
  lemma {:induction false} StaysIff(slots: seq<Slot>, i: nat)
    requires i < |slots|
    requires forall j, k | 0 <= j < k < |slots| :: slots[j].source != slots[k].source
    ensures slots[i].source in Sources(Kept(slots))
            <==> !slots[i].reported || slots[i].lives > Losses(slots[i + 1..])
  {
    KeptSources(slots[1..]);
    if i == 0 {
      var kept := Kept(slots);
      if !slots[0].reported || slots[0].lives > Losses(slots[1..]) {
        assert kept[0].source == slots[0].source;
      }
    } else {
      StaysIff(slots[1..], i - 1);
      assert slots[1..][i - 1] == slots[i] && slots[1..][i..] == slots[i + 1..];
      var tail := Kept(slots[1..]);
      assert forall s <- Kept(slots) :: s in tail || s.source == slots[0].source;
      assert forall s <- tail :: s in Kept(slots);
    }
  }

  lemma {:induction false} KeptSources(slots: seq<Slot>)
    ensures forall s <- Kept(slots) :: exists j :: 0 <= j < |slots| && slots[j].source == s.source
  {
    if slots != [] {
      KeptSources(slots[1..]);
      forall s <- Kept(slots) ensures exists j :: 0 <= j < |slots| && slots[j].source == s.source {
        if s in Kept(slots[1..]) {
          var j :| 0 <= j < |slots[1..]| && slots[1..][j].source == s.source;
          assert slots[j + 1].source == s.source;
        } else {
          assert slots[0].source == s.source;
        }
      }
    }
  }

  /** Reported handlers for which nothing has arrived are all removed. */
  lemma {:induction false} IdleAllRemoved(slots: seq<Slot>)
    requires forall s <- slots :: s.reported && s.lives == 0
    ensures Kept(slots) == [] && Losses(slots) == |slots|
  {
    if slots != [] {
      IdleAllRemoved(slots[1..]);
    }
  }
}

/** What the number of reads a handler answers is for a source that frames its bytes. */
module HandlerReads {
  import opened Lines
  import opened Framing
  import opened Rounds

  /** How many reads of a source are answered with zero before one is not. */
  function Lives(f: Framer, inputs: seq<Input>): nat
    requires Resting(f) && AllPossible(f, inputs)
    decreases |inputs|
  {
    if inputs == [] || Read(f, inputs[0]).status != 0 then 0
    else 1 + Lives(Read(f, inputs[0]).next, inputs[1..])
  }

  /** A source that has not ended answers until its first read that is dead. */
  lemma {:induction false} AnswersIff(f: Framer, inputs: seq<Input>, n: nat)
    requires Resting(f) && AllPossible(f, inputs) && n < |inputs|
    ensures Lives(f, inputs) > n <==> f.mode != Ended && forall j | 0 <= j <= n :: inputs[j] != Dead
    decreases n
  {
    if n > 0 {
      var later := inputs[1..];
      AnswersIff(Read(f, inputs[0]).next, later, n - 1);
      assert forall j | 0 < j <= n :: inputs[j] == later[j - 1];
      assert forall j | 0 <= j <= n - 1 :: later[j] == inputs[j + 1];
    }
  }

  /** So a reported source that has not ended stays in the table if and only if
      its next reads, one more than there are removals behind it, all find it alive. */
  lemma LiveSourceStaysIff(slots: seq<Slot>, i: nat, f: Framer, inputs: seq<Input>)
    requires i < |slots| && slots[i].reported
    requires forall j, k | 0 <= j < k < |slots| :: slots[j].source != slots[k].source
    requires Resting(f) && f.mode != Ended && AllPossible(f, inputs) && Losses(slots[i + 1..]) < |inputs|
    requires slots[i].lives == Lives(f, inputs)
    ensures slots[i].source in Sources(Kept(slots))
            <==> forall j | 0 <= j <= Losses(slots[i + 1..]) :: inputs[j] != Dead
  {
    StaysIff(slots, i);
    AnswersIff(f, inputs, Losses(slots[i + 1..]));
  }

  /** A live source can be removed: it is read once, a source behind it is
      removed, it is read again, and nothing being there passes for its end. In
      front of it the other source does no harm. */
  lemma LiveSourceRemoved(size: nat, x: seq<byte>)
    requires 0 < |x| <= size
    ensures
      var f := Initial(size);
      && AllPossible(f, [Bytes(x), Dead]) && AllPossible(f, [Dead])
      && var live, ended := Slot(1, true, Lives(f, [Bytes(x), Dead])), Slot(2, true, Lives(f, [Dead]));
      && Kept([live, ended]) == []
      && Kept([ended, live]) == [Slot(1, true, 0)]
  {
    AnswersOnce(Initial(size), Bytes(x));
    TwoHandlers();
  }

  /** A ready source that is read, and then read again too early, has answered once. */
  lemma AnswersOnce(f: Framer, first: Input)
    requires Resting(f) && f.mode != Ended && first != Dead && Possible(f, first)
    ensures AllPossible(f, [first, Dead]) && Lives(f, [first, Dead]) == 1
    ensures AllPossible(f, [Dead]) && Lives(f, [Dead]) == 0
  {
    assert [first, Dead][1..] == [Dead] && [Dead][1..] == [];
    AnswersIff(f, [first, Dead], 0);
    AnswersIff(f, [first, Dead], 1);
    AnswersIff(f, [Dead], 0);
  }

  lemma TwoHandlers()
    ensures Kept([Slot(1, true, 1), Slot(2, true, 0)]) == []
    ensures Kept([Slot(2, true, 0), Slot(1, true, 1)]) == [Slot(1, true, 0)]
  {
    var live, ended := Slot(1, true, 1), Slot(2, true, 0);
    assert [live, ended][1..] == [ended] && [ended, live][1..] == [live] && [live][1..] == [] && [ended][1..] == [];
  }
}

module Readers {
  import opened Rounds

  /** An entry of the handler table. How many reads the source still answers is
      the environment's affair. */
  datatype Entry = Entry(source: int, fd: int, lives: nat)

  const HANDLERS_STEPPING: nat := 8

  ghost predicate Distinct(table: seq<Entry>) {
    forall i, j | 0 <= i < j < |table| :: table[i].fd != table[j].fd
  }

  ghost predicate Listed(fd: int, table: seq<Entry>) {
    exists i :: 0 <= i < |table| && table[i].fd == fd
  }

  predicate Foreign(entries: seq<Entry>, fds: set<int>) {
    forall i | 0 <= i < |entries| :: entries[i].fd !in fds
  }

  function SlotsOf(table: seq<Entry>, fds: set<int>): (r: seq<Slot>)
    ensures |r| == |table|
    ensures forall i | 0 <= i < |table| :: r[i] == Slot(table[i].source, table[i].fd in fds, table[i].lives)
  {
    if table == [] then []
    else [Slot(table[0].source, table[0].fd in fds, table[0].lives)] + SlotsOf(table[1..], fds)
  }

  class Reader {
    var handlers: array<Entry>
    var handler_count: nat
    var handlers_alloc: nat
    var fds: set<int>           // the descriptors `select` reported, as far as they are still handled

    /** The entry count the table was allocated for is never recorded, so the
        table is reallocated for every handler added; that is what keeps it large enough. */
    ghost predicate Valid()
      reads this, handlers
    {
      && handler_count <= handlers.Length && handlers_alloc == 0
      && Distinct(Table())
      && forall fd <- fds :: Listed(fd, Table())
    }

    ghost function Table(): seq<Entry>
      requires handler_count <= handlers.Length
      reads this, handlers
    {
      handlers[..handler_count]
    }

    ghost function Slots(): seq<Slot>
      requires handler_count <= handlers.Length
      reads this, handlers
    {
      SlotsOf(Table(), fds)
    }

    constructor ()
      ensures Valid() && fresh(handlers) && Table() == [] && fds == {}
    {
      handlers := new Entry[0];
      handler_count := 0;
      handlers_alloc := 0;
      fds := {};
    }

    method AddSource(entry: Entry)
      requires Valid() && !Listed(entry.fd, Table())
      modifies this
      ensures Valid() && fresh(handlers) && fds == old(fds)
      ensures Table() == old(Table()) + [entry]
    {
      ghost var table := Table();
      if handlers_alloc % HANDLERS_STEPPING == 0 {
        var tmp := new Entry[handler_count + HANDLERS_STEPPING + 1];
        forall k | 0 <= k < handler_count {
          tmp[k] := handlers[k];
        }
        handlers := tmp;
        handlers[handler_count] := entry;
        handler_count := handler_count + 1;
      }
      assert Table() == table + [entry];
      forall fd | fd in fds ensures Listed(fd, Table()) {
        var i :| 0 <= i < |table| && table[i].fd == fd;
        assert Table()[i].fd == fd;
      }
    }

    method RemoveHandler(index: nat)
      requires Valid() && index < handler_count
      modifies this, handlers
      ensures Valid() && handlers == old(handlers)
      ensures Table() == old(Table())[..index] + old(Table())[index + 1..]
      ensures fds == old(fds) - {old(Table())[index].fd}
    {
      ghost var table := Table();
      fds := fds - {handlers[index].fd};
      if index < handler_count - 1 {
        forall k | index <= k < handler_count - 1 {
          handlers[k] := handlers[k + 1];
        }
      }
      handler_count := handler_count - 1;
      assert Table() == table[..index] + table[index + 1..];
      forall fd | fd in fds ensures Listed(fd, Table()) {
        var i :| 0 <= i < |table| && table[i].fd == fd;
        assert Table()[if i < index then i else i - 1].fd == fd;
      }
    }

    /** One read of a handler: its answer, and the handlers it adds, as a
        listening socket does for every connection it accepts. */
    method ReadHandler(index: nat) returns (status: int, ghost added: seq<Entry>)
      requires Valid() && index < handler_count
      modifies this, handlers
      ensures Valid() && (handlers == old(handlers) || fresh(handlers)) && fds == old(fds)
      ensures status == 0 <==> old(Table())[index].lives > 0
      ensures Table() == Answered(old(Table()), index) + added
      ensures Foreign(added, fds)
    {
      ghost var answered := Answered(Table(), index);
      var entry := handlers[index];
      if entry.lives > 0 {
        handlers[index] := entry.(lives := entry.lives - 1);
        status := 0;
      } else {
        status := *;
        status := if status == 0 then -1 else status;
      }
      assert Table() == answered;
      forall fd | fd in fds ensures Listed(fd, answered) {
        var i :| 0 <= i < |old(Table())| && old(Table())[i].fd == fd;
        assert answered[i].fd == fd;
      }

      added := [];
      var connections: int := *;
      while connections > 0
        invariant Valid() && (handlers == old(handlers) || fresh(handlers)) && fds == old(fds)
        invariant Table() == answered + added
        invariant Foreign(added, fds)
      {
        connections := connections - 1;
        var connection: Entry := *;
        if forall k | 0 <= k < handler_count :: handlers[k].fd != connection.fd {
          AddSource(connection);
          added := added + [connection];
        }
      }
    }

    /** The scan, from the label it restarts at to the end of a pass that
        removes nothing. It terminates because every restart follows a removal,
        which takes one descriptor off the reported ones. The handlers that stay,
        and their order, are those of `Kept`; the ones added come after them. */
    method Scan() returns (ghost added: seq<Slot>)
      requires Valid()
      modifies this, handlers
      ensures Valid()
      ensures Slots() == Kept(old(Slots())) + added && Unreported(added)
    {
      ghost var slots := Slots();
      added := [];
      var removed := true;
      assert Kept(slots) + [] == Kept(slots);
      while removed
        invariant Valid() && (handlers == old(handlers) || fresh(handlers))
        invariant Unreported(added)
        invariant if removed then Kept(Slots()) == Kept(slots) + added else Slots() == Kept(slots) + added
        decreases |fds|, removed
      {
        ghost var more;
        removed, more := ScanPass();
        Regroup(Kept(slots), added, more);
        added := added + more;
      }
    }

    /** One pass over the handlers that were there at its start; a removal ends it. */
    method ScanPass() returns (removed: bool, ghost added: seq<Slot>)
      requires Valid()
      modifies this, handlers
      ensures Valid() && (handlers == old(handlers) || fresh(handlers))
      ensures Unreported(added)
      ensures if removed then Kept(Slots()) == Kept(old(Slots())) + added && |fds| < |old(fds)|
              else Slots() == Kept(old(Slots())) + added && fds == old(fds)
    {
      ghost var slots := Slots();
      added := [];
      removed := false;
      var i, count := 0, handler_count;
      while i < count && !removed
        invariant Valid() && (handlers == old(handlers) || fresh(handlers))
        invariant 0 <= i <= count <= |slots| && (!removed ==> count <= handler_count)
        invariant Unreported(added)
        invariant !removed ==> fds == old(fds) && Passed(slots, Slots(), i, added)
        invariant removed ==> |fds| < |old(fds)| && Kept(Slots()) == Kept(slots) + added
      {
        if handlers[i].fd in fds {
          removed, added := HandleReported(slots, i, added);
        } else {
          PassedSkip(slots, Slots(), i, added);
        }
        i := i + 1;
      }
      if !removed {
        PassedAll(slots, Slots(), added);
      }
    }

    /** Reads a reported handler, and removes it if it is at its end. */
    method HandleReported(ghost slots: seq<Slot>, i: nat, ghost before: seq<Slot>)
      returns (removed: bool, ghost added: seq<Slot>)
      requires Valid() && i < handler_count && i < |slots| && Passed(slots, Slots(), i, before)
      requires handlers[i].fd in fds && Unreported(before)
      modifies this, handlers
      ensures Valid() && (handlers == old(handlers) || fresh(handlers))
      ensures old(handler_count) <= handler_count || removed
      ensures Unreported(added)
      ensures if removed then |fds| < |old(fds)| && Kept(Slots()) == Kept(slots) + added
              else fds == old(fds) && Passed(slots, Slots(), i + 1, added)
    {
      var status;
      status, added := ReadReported(slots, i, before);
      removed := status != 0;
      if removed {
        RemoveEnded(slots, i, added);
      }
    }

    method ReadReported(ghost slots: seq<Slot>, i: nat, ghost before: seq<Slot>)
      returns (status: int, ghost added: seq<Slot>)
      requires Valid() && i < handler_count && i < |slots| && Passed(slots, Slots(), i, before)
      requires handlers[i].fd in fds && Unreported(before)
      modifies this, handlers
      ensures Valid() && (handlers == old(handlers) || fresh(handlers))
      ensures old(handler_count) <= handler_count && fds == old(fds)
      ensures Unreported(added)
      ensures slots[i].reported && handlers[i].fd in fds
      ensures if status == 0 then Passed(slots, Slots(), i + 1, added)
              else slots[i].lives == 0 && Passed(slots, Slots(), i, added)
    {
      ghost var table, entries := Table(), [];
      status, entries := ReadHandler(i);
      added := before + SlotsOf(entries, fds);
      UnreportedMore(before, entries, fds);
      assert Table()[i].fd == table[i].fd;
      if status == 0 {
        PassedAnswered(slots, table, fds, i, before, entries);
      } else {
        PassedEnded(slots, table, fds, i, before, entries);
      }
    }

    method RemoveEnded(ghost slots: seq<Slot>, i: nat, ghost added: seq<Slot>)
      requires Valid() && i < handler_count && i < |slots| && Passed(slots, Slots(), i, added)
      requires slots[i].reported && slots[i].lives == 0 && handlers[i].fd in fds
      requires Unreported(added)
      modifies this, handlers
      ensures Valid() && handlers == old(handlers)
      ensures |fds| < |old(fds)| && Kept(Slots()) == Kept(slots) + added
    {
      ghost var current := Slots();
      SlotsWithout(Table(), fds, i);
      RemoveHandler(i);
      assert Slots() == current[..i] + current[i + 1..];
      PassedRemoved(slots, current, i, added);
    }

    /** Watches every descriptor again. */
    method Rearm() returns (n: int)
      requires Valid()
      modifies this`fds
      ensures Valid() && forall i | 0 <= i < handler_count :: handlers[i].fd in fds && handlers[i].fd <= n
      ensures n == 0 || exists i :: 0 <= i < handler_count && handlers[i].fd == n
    {
      fds := {};
      n := 0;
      var i, count := 0, handler_count;
      while i < count
        invariant 0 <= i <= count == handler_count
        invariant forall k | 0 <= k < i :: handlers[k].fd in fds && handlers[k].fd <= n
        invariant n == 0 || exists k :: 0 <= k < i && handlers[k].fd == n
        invariant forall fd <- fds :: Listed(fd, Table())
      {
        var fd := handlers[i].fd;
        assert Table()[i].fd == fd;
        fds := fds + {fd};
        n := if fd > n then fd else n;
        i := i + 1;
      }
    }

    /** When `select` fails over a bad descriptor, its set is still the one that
        was watched: the handler is removed, and the round that follows takes
        every other handler for reported. If nothing has arrived for any of
        them at that moment, all of them are removed. */
    method Recover(bad: nat) returns (ghost added: seq<Slot>)
      requires Valid() && bad < handler_count
      requires forall i | 0 <= i < handler_count :: handlers[i].fd in fds
      modifies this, handlers
      ensures Valid() && Unreported(added)
      ensures
        var others := old(Slots())[..bad] + old(Slots())[bad + 1..];
        && (forall s <- others :: s.reported)
        && Slots() == Kept(others) + added
        && ((forall s <- others :: s.lives == 0) ==> Slots() == added)
    {
      ghost var slots := Slots();
      ghost var others := slots[..bad] + slots[bad + 1..];
      AllReported(slots, bad);
      SlotsWithout(Table(), fds, bad);
      RemoveHandler(bad);
      assert Slots() == others;
      added := Scan();
      IdleLeaveNothing(others, added);
    }
  }

  lemma AllReported(slots: seq<Slot>, bad: nat)
    requires bad < |slots| && forall i | 0 <= i < |slots| :: slots[i].reported
    ensures forall s <- slots[..bad] + slots[bad + 1..] :: s.reported
  {
  }

  lemma IdleLeaveNothing(slots: seq<Slot>, added: seq<Slot>)
    requires forall s <- slots :: s.reported
    ensures (forall s <- slots :: s.lives == 0) ==> Kept(slots) + added == added
  {
    if forall s <- slots :: s.lives == 0 {
      IdleAllRemoved(slots);
      assert [] + added == added;
    }
  }

  lemma SlotsWithout(table: seq<Entry>, fds: set<int>, i: nat)
    requires i < |table| && Distinct(table)
    ensures SlotsOf(table[..i] + table[i + 1..], fds - {table[i].fd})
            == SlotsOf(table, fds)[..i] + SlotsOf(table, fds)[i + 1..]
  {
  }

  lemma SlotsAnswered(table: seq<Entry>, fds: set<int>, i: nat, entries: seq<Entry>)
    requires i < |table|
    ensures
      var slots := SlotsOf(table, fds);
      SlotsOf(Answered(table, i) + entries, fds) ==
      (if table[i].lives > 0 then slots[i := slots[i].(lives := slots[i].lives - 1)] else slots) + SlotsOf(entries, fds)
  {
  }

  // Sequences in pieces

  lemma Pieces<T>(all: seq<T>, front: seq<T>, s: seq<T>, i: nat, back: seq<T>, x: T)
    requires i < |s| && |front| == i && all == front + s[i..] + back
    ensures i < |all| && all[i] == s[i]
    ensures all[..i] + all[i + 1..] == (front + s[i + 1..]) + back
    ensures all[i := x] == front + [x] + s[i + 1..] + back
  {
    assert s[i..] == [s[i]] + s[i + 1..];
  }

  lemma Regroup<T>(a: seq<T>, b: seq<T>, c: seq<T>)
    ensures a + b + c == a + (b + c)
  {
  }

  /** The first `i` handlers of a table have been read, the others not yet, and some have been added. */
  ghost predicate Passed(slots: seq<Slot>, current: seq<Slot>, i: nat, added: seq<Slot>)
    requires i <= |slots|
  {
    && Answering(slots[..i])
    && current == ReadOnce(slots[..i]) + slots[i..] + added
  }

  lemma PassedSkip(slots: seq<Slot>, current: seq<Slot>, i: nat, added: seq<Slot>)
    requires i < |slots| && Passed(slots, current, i, added) && !current[i].reported
    ensures Passed(slots, current, i + 1, added)
  {
    Pieces(current, ReadOnce(slots[..i]), slots, i, added, slots[i]);
    assert current[i := slots[i]] == current;
    ReadOnceSnoc(slots, i);
  }

  lemma PassedRead(slots: seq<Slot>, current: seq<Slot>, i: nat, before: seq<Slot>, more: seq<Slot>)
    requires i < |slots| && Passed(slots, current, i, before) && slots[i].reported && slots[i].lives > 0
    ensures Passed(slots, current[i := slots[i].(lives := slots[i].lives - 1)] + more, i + 1, before + more)
  {
    var done, read := ReadOnce(slots[..i]), slots[i].(lives := slots[i].lives - 1);
    ReadOnceSnoc(slots, i);
    Pieces(current, done, slots, i, before, read);
    Regroup(done + [read] + slots[i + 1..], before, more);
  }

  lemma PassedMore(slots: seq<Slot>, current: seq<Slot>, i: nat, before: seq<Slot>, more: seq<Slot>)
    requires i < |slots| && Passed(slots, current, i, before)
    ensures Passed(slots, current + more, i, before + more)
  {
    Regroup(ReadOnce(slots[..i]) + slots[i..], before, more);
  }

  lemma PassedAt(slots: seq<Slot>, current: seq<Slot>, i: nat, added: seq<Slot>)
    requires i < |slots| && Passed(slots, current, i, added)
    ensures i < |current| && current[i] == slots[i]
  {
    Pieces(current, ReadOnce(slots[..i]), slots, i, added, slots[i]);
  }

  lemma PassedAnswered(slots: seq<Slot>, table: seq<Entry>, fds: set<int>, i: nat,
                       before: seq<Slot>, entries: seq<Entry>)
    requires i < |slots| && Passed(slots, SlotsOf(table, fds), i, before)
    requires i < |table| && table[i].fd in fds && table[i].lives > 0
    ensures slots[i].reported && slots[i].lives == table[i].lives
    ensures Passed(slots, SlotsOf(Answered(table, i) + entries, fds), i + 1, before + SlotsOf(entries, fds))
  {
    PassedAt(slots, SlotsOf(table, fds), i, before);
    SlotsAnswered(table, fds, i, entries);
    PassedRead(slots, SlotsOf(table, fds), i, before, SlotsOf(entries, fds));
  }

  lemma PassedEnded(slots: seq<Slot>, table: seq<Entry>, fds: set<int>, i: nat,
                    before: seq<Slot>, entries: seq<Entry>)
    requires i < |slots| && Passed(slots, SlotsOf(table, fds), i, before)
    requires i < |table| && table[i].fd in fds && table[i].lives == 0
    ensures slots[i].reported && slots[i].lives == table[i].lives
    ensures Passed(slots, SlotsOf(Answered(table, i) + entries, fds), i, before + SlotsOf(entries, fds))
  {
    PassedAt(slots, SlotsOf(table, fds), i, before);
    SlotsAnswered(table, fds, i, entries);
    PassedMore(slots, SlotsOf(table, fds), i, before, SlotsOf(entries, fds));
  }

  lemma UnreportedMore(before: seq<Slot>, entries: seq<Entry>, fds: set<int>)
    requires Unreported(before) && Foreign(entries, fds)
    ensures Unreported(before + SlotsOf(entries, fds))
  {
  }

  lemma PassedRemoved(slots: seq<Slot>, current: seq<Slot>, i: nat, added: seq<Slot>)
    requires i < |slots| && Passed(slots, current, i, added) && slots[i].reported && slots[i].lives == 0
    requires Unreported(added)
    ensures Kept(current[..i] + current[i + 1..]) == Kept(slots) + added
  {
    Pieces(current, ReadOnce(slots[..i]), slots, i, added, slots[i]);
    KeptAfterRemoval(slots, i);
    KeptAppendUnreported(ReadOnce(slots[..i]) + slots[i + 1..], added);
  }

  lemma PassedAll(slots: seq<Slot>, current: seq<Slot>, added: seq<Slot>)
    requires Passed(slots, current, |slots|, added)
    ensures current == Kept(slots) + added
  {
    assert slots[..|slots|] == slots && slots[|slots|..] == [];
    assert ReadOnce(slots) + [] == ReadOnce(slots);
    KeptWithoutRemoval(slots);
  }

  lemma ReadOnceSnoc(slots: seq<Slot>, i: nat)
    requires i < |slots| && Answering(slots[..i])
    requires slots[i].reported ==> slots[i].lives > 0
    ensures Answering(slots[..i + 1])
    ensures ReadOnce(slots[..i + 1]) == ReadOnce(slots[..i])
            + [if slots[i].reported then slots[i].(lives := slots[i].lives - 1) else slots[i]]
  {
    assert forall j | 0 <= j < i :: slots[..i + 1][j] == slots[..i][j];
  }

  ghost function Answered(table: seq<Entry>, index: nat): seq<Entry>
    requires index < |table|
  {
    if table[index].lives > 0 then table[index := table[index].(lives := table[index].lives - 1)] else table
  }
}
