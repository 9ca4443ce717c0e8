/** What a run of chunks stands for: everything from `head` in chunk `first` up
    to `end` in chunk `last`. */
module ChunkList {
  ghost predicate Spans<T>(data: map<int, seq<T>>, size: nat, first: int, last: int, head: nat, end: nat) {
    && first <= last && head < size && end < size
    && (forall i | first <= i <= last :: i in data && |data[i]| == size)
    && (first == last ==> head <= end)
  }

  ghost function Slots<T>(data: map<int, seq<T>>, i: int, lo: nat, hi: nat): seq<T> {
    if i in data && lo <= hi <= |data[i]| then data[i][lo..hi] else []
  }

  ghost function Window<T>(data: map<int, seq<T>>, size: nat, first: int, last: int, head: nat, end: nat): (s: seq<T>)
    decreases last - first
  {
    if first >= last then Slots(data, first, head, end)
    else Slots(data, first, head, size) + Window(data, size, first + 1, last, 0, end)
  }

  /** Only the slots inside the window matter. */
  lemma {:induction false} WindowSame<T>(data: map<int, seq<T>>, data': map<int, seq<T>>,
                                         size: nat, first: int, last: int, head: nat, end: nat)
    requires Spans(data, size, first, last, head, end) && Spans(data', size, first, last, head, end)
    requires forall i | first <= i < last :: data[i] == data'[i]
    requires data[last][..end] == data'[last][..end]
    ensures Window(data, size, first, last, head, end) == Window(data', size, first, last, head, end)
    decreases last - first
  {
    if first == last {
      assert data[first][head..end] == data[first][..end][head..];
      assert data'[first][head..end] == data'[first][..end][head..];
    } else {
      WindowSame(data, data', size, first + 1, last, 0, end);
    }
  }

  lemma WindowSameFromHead<T>(data: map<int, seq<T>>, data': map<int, seq<T>>,
                              size: nat, first: int, last: int, head: nat, end: nat)
    requires Spans(data, size, first, last, head, end) && Spans(data', size, first, last, head, end)
    requires data[first][head..] == data'[first][head..]
    requires forall i | first < i <= last :: data[i] == data'[i]
    ensures Window(data, size, first, last, head, end) == Window(data', size, first, last, head, end)
  {
    if first == last {
      assert data[first][head..end] == data[first][head..][..end - head];
      assert data'[first][head..end] == data'[first][head..][..end - head];
    } else {
      WindowSame(data, data', size, first + 1, last, 0, end);
    }
  }

  /** Advancing the end shows one more slot. */
  lemma {:induction false} WindowGrows<T>(data: map<int, seq<T>>, size: nat, first: int, last: int, head: nat, end: nat)
    requires Spans(data, size, first, last, head, end) && end + 1 < size
    ensures Window(data, size, first, last, head, end + 1)
            == Window(data, size, first, last, head, end) + [data[last][end]]
    decreases last - first
  {
    if first < last {
      WindowGrows(data, size, first + 1, last, 0, end);
      assert data[first][head..] + (Window(data, size, first + 1, last, 0, end) + [data[last][end]])
          == data[first][head..] + Window(data, size, first + 1, last, 0, end) + [data[last][end]];
    }
  }

  /** Once the last chunk is full the window ends at the start of the next one. */
  lemma {:induction false} WindowSpills<T>(data: map<int, seq<T>>, size: nat, first: int, last: int, head: nat)
    requires size > 0 && Spans(data, size, first, last + 1, head, 0) && first <= last
    ensures Spans(data, size, first, last, head, size - 1)
    ensures Window(data, size, first, last + 1, head, 0)
            == Window(data, size, first, last, head, size - 1) + [data[last][size - 1]]
    decreases last - first
  {
    if first == last {
      assert Window(data, size, first + 1, last + 1, 0, 0) == [];
      assert data[first][head..] == data[first][head..size - 1] + [data[first][size - 1]];
    } else {
      WindowSpills(data, size, first + 1, last, 0);
      assert data[first][head..] + (Window(data, size, first + 1, last, 0, size - 1) + [data[last][size - 1]])
          == data[first][head..] + Window(data, size, first + 1, last, 0, size - 1) + [data[last][size - 1]];
    }
  }

  /** The front of a nonempty window is at `head` of the first chunk; what is
      behind it starts in the next slot, or in the next chunk, which exists. */
  lemma WindowFront<T>(data: map<int, seq<T>>, size: nat, first: int, last: int, head: nat, end: nat)
    requires Spans(data, size, first, last, head, end)
    requires Window(data, size, first, last, head, end) != []
    ensures head + 1 == size ==> first < last
    ensures
      var front := data[first][head];
      Window(data, size, first, last, head, end) == [front] +
      if head + 1 == size then Window(data, size, first + 1, last, 0, end)
      else Window(data, size, first, last, head + 1, end)
  {
  }

  // What the operations do to the window

  lemma Pushed<T>(data: map<int, seq<T>>, size: nat, first: int, last: int, head: nat, end: nat, x: T)
    requires Spans(data, size, first, last, head, end) && end + 1 < size
    ensures
      var data' := data[last := data[last][end := x]];
      Spans(data', size, first, last, head, end + 1)
      && Window(data', size, first, last, head, end + 1) == Window(data, size, first, last, head, end) + [x]
  {
    var data' := data[last := data[last][end := x]];
    WindowSame(data, data', size, first, last, head, end);
    WindowGrows(data', size, first, last, head, end);
  }

  lemma PushedLast<T>(data: map<int, seq<T>>, size: nat, first: int, last: int, head: nat, x: T, blank: seq<T>)
    requires size > 0 && Spans(data, size, first, last, head, size - 1) && |blank| == size
    ensures
      var data' := data[last := data[last][size - 1 := x]][last + 1 := blank];
      Spans(data', size, first, last + 1, head, 0)
      && Window(data', size, first, last + 1, head, 0) == Window(data, size, first, last, head, size - 1) + [x]
  {
    var data' := data[last := data[last][size - 1 := x]][last + 1 := blank];
    WindowSpills(data', size, first, last, head);
    WindowSame(data, data', size, first, last, head, size - 1);
  }

  lemma Unpopped<T>(data: map<int, seq<T>>, size: nat, first: int, last: int, head: nat, end: nat, x: T)
    requires Spans(data, size, first, last, head, end) && head > 0
    ensures
      var data' := data[first := data[first][head - 1 := x]];
      Spans(data', size, first, last, head - 1, end)
      && Window(data', size, first, last, head - 1, end) == [x] + Window(data, size, first, last, head, end)
  {
    var data' := data[first := data[first][head - 1 := x]];
    WindowSameFromHead(data, data', size, first, last, head, end);
  }

  lemma UnpoppedFirst<T>(data: map<int, seq<T>>, size: nat, first: int, last: int, end: nat, x: T, blank: seq<T>)
    requires Spans(data, size, first, last, 0, end) && |blank| == size
    ensures
      var data' := data[first - 1 := blank][first - 1 := blank[size - 1 := x]];
      Spans(data', size, first - 1, last, size - 1, end)
      && Window(data', size, first - 1, last, size - 1, end) == [x] + Window(data, size, first, last, 0, end)
  {
    var data' := data[first - 1 := blank][first - 1 := blank[size - 1 := x]];
    WindowSame(data, data', size, first, last, 0, end);
    assert data'[first - 1][size - 1..] == [x];
  }
}

/** The queue between reader and logger: a linked list of chunks, counted by a
    semaphore that is moved outside the lock. */
module MessageQueues {
  import opened ChunkList

  class Chunk<T(0)> {
    const msgs: array<T>
    var next: Chunk?<T>
    ghost const number: int

    constructor (size: nat, ghost number: int)
      ensures fresh(msgs) && msgs.Length == size && next == null && this.number == number
    {
      msgs := new T[size];
      next := null;
      this.number := number;
    }
  }

  /** A view of the list: the chunks numbered `first` to `last` are in it. */
  datatype Layout<T(0)> = Layout(
    first: int,
    last: int,
    chunk: map<int, Chunk<T>>,
    data: map<int, seq<T>>,         // what each chunk stores
    owner: map<array<T>, int>)      // which chunk each slot array belongs to
  {
    ghost predicate InList(i: int, size: nat, repr: set<object>)
      reads if i in chunk then {chunk[i], chunk[i].msgs} else {}
    {
      && i in chunk && i in data && |data[i]| == size
      && chunk[i] in repr && chunk[i].msgs in repr && chunk[i].msgs in owner
      && chunk[i].number == i && owner[chunk[i].msgs] == i
      && Stores(chunk[i].msgs, data[i])
      && (i == last ==> chunk[i].next == null)
      && (i < last ==> i + 1 in chunk && chunk[i].next == chunk[i + 1])
    }

    static ghost predicate Stores(a: array<T>, s: seq<T>)
      reads a
    {
      a[..] == s
    }

    /** The list from chunk `i` on. */
    ghost predicate LinkedFrom(i: int, size: nat, repr: set<object>)
      reads repr
      decreases last - i
    {
      && i in chunk && chunk[i] in repr && chunk[i].msgs in repr
      && InList(i, size, repr)
      && (i < last ==> LinkedFrom(i + 1, size, repr))
    }

    /** The same, chunk by chunk. */
    ghost predicate Linked(size: nat, repr: set<object>)
      reads set i | i in chunk :: chunk[i], set i | i in chunk :: chunk[i].msgs
    {
      first <= last && forall i | first <= i <= last :: InList(i, size, repr)
    }

    lemma {:induction false} LinkedFromIff(i: int, size: nat, repr: set<object>)
      requires i <= last
      ensures LinkedFrom(i, size, repr) <==> forall j | i <= j <= last :: InList(j, size, repr)
      decreases last - i
    {
      if i < last {
        LinkedFromIff(i + 1, size, repr);
      }
      if forall j | i <= j <= last :: InList(j, size, repr) {
        assert InList(i, size, repr);
      }
    }

    lemma LinkedIff(size: nat, repr: set<object>)
      requires first <= last
      ensures LinkedFrom(first, size, repr) <==> Linked(size, repr)
      ensures Linked(size, repr) ==> forall i | first <= i <= last :: i in data && |data[i]| == size
    {
      LinkedFromIff(first, size, repr);
      if Linked(size, repr) {
        forall i | first <= i <= last ensures i in data && |data[i]| == size {
          assert InList(i, size, repr);
        }
      }
    }

    lemma WithoutFirst(size: nat, repr: set<object>)
      requires Linked(size, repr) && first < last
      ensures this.(first := first + 1).Linked(size, repr)
      ensures first in chunk && first + 1 in chunk && chunk[first].next == chunk[first + 1]
    {
      assert InList(first, size, repr);
      var rest := this.(first := first + 1);
      forall i | rest.first <= i <= rest.last ensures rest.InList(i, size, repr) {
        assert InList(i, size, repr);
      }
    }
  }

  class MessageQueue<T(0)> {
    const chunkSize: nat
    var semaphore: nat
    var headindex: nat
    var endindex: nat
    var head: Chunk<T>
    var current: Chunk<T>

    ghost var list: Layout<T>
    ghost var Repr: set<object>

    ghost predicate Valid()
      reads this, Repr
      ensures Valid() ==> this in Repr
    {
      && this in Repr
      && list.first <= list.last
      && list.LinkedFrom(list.first, chunkSize, Repr - {this})
      && Ends()
      && headindex < chunkSize && endindex < chunkSize
      && (list.first == list.last ==> headindex <= endindex)
      && semaphore <= |Contents()|
    }

    ghost predicate Ends()
      reads `list, `head, `current
    {
      && list.first in list.chunk && head == list.chunk[list.first]
      && list.last in list.chunk && current == list.chunk[list.last]
    }

    /** The same as `Valid`, apart from the semaphore, chunk by chunk. */
    ghost predicate Flat()
      reads `list, `headindex, `endindex, `head, `current, `Repr
      reads set i | i in list.chunk :: list.chunk[i], set i | i in list.chunk :: list.chunk[i].msgs
    {
      && this in Repr
      && list.Linked(chunkSize, Repr - {this})
      && Ends()
      && Spans(list.data, chunkSize, list.first, list.last, headindex, endindex)
    }

    lemma ValidIff()
      ensures Valid() <==> Flat() && semaphore <= |Contents()|
    {
      if list.first <= list.last {
        list.LinkedIff(chunkSize, Repr - {this});
      }
    }

    /** The messages stored, oldest first. */
    ghost function Contents(): (s: seq<T>)
      reads `list, `headindex, `endindex
    {
      Window(list.data, chunkSize, list.first, list.last, headindex, endindex)
    }

    constructor Init(chunkSize: nat)
      requires chunkSize > 0
      ensures Valid() && fresh(Repr)
      ensures this.chunkSize == chunkSize && semaphore == 0 && Contents() == []
    {
      this.chunkSize := chunkSize;
      semaphore := 0;
      headindex := 0;
      endindex := 0;
      var c := new Chunk<T>(chunkSize, 0);
      head := c;
      current := c;
      list := Layout(0, 0, map[0 := c], map[0 := c.msgs[..]], map[c.msgs := 0]);
      Repr := {this, c, c.msgs};
    }

    /** A chunk without successor, linked behind `prev` if there is one. */
    method CreateInternalBuffer(prev: Chunk?<T>, ghost number: int) returns (retval: Chunk<T>)
      modifies if prev == null then {} else {prev}
      ensures fresh(retval) && fresh(retval.msgs)
      ensures retval.msgs.Length == chunkSize && retval.next == null && retval.number == number
      ensures prev != null ==> prev.next == retval
    {
      retval := new Chunk<T>(chunkSize, number);
      if prev != null {
        prev.next := retval;
      }
    }

    /** Writes one slot of a chunk in the list. */
    method WriteSlot(c: Chunk<T>, slot: nat, x: T)
      requires list.Linked(chunkSize, Repr - {this}) && slot < chunkSize
      requires list.first <= c.number <= list.last && list.InList(c.number, chunkSize, Repr - {this})
      requires list.chunk[c.number] == c
      modifies c.msgs, `list
      ensures list == old(list).(data := old(list.data)[c.number := old(list.data)[c.number][slot := x]])
      ensures list.Linked(chunkSize, Repr - {this})
    {
      ghost var list0 := list;
      c.msgs[slot] := x;
      list := list.(data := list.data[c.number := list.data[c.number][slot := x]]);
      forall i | list.first <= i <= list.last ensures list.InList(i, chunkSize, Repr - {this}) {
        assert old(list.InList(i, chunkSize, Repr - {this}));
      }
    }

    /** Links a new chunk behind the last one. */
    method AppendChunk()
      requires list.Linked(chunkSize, Repr - {this}) && Ends()
      modifies this, current
      ensures fresh(Repr - old(Repr)) && old(Repr) <= Repr
      ensures list.Linked(chunkSize, Repr - {this}) && Ends()
      ensures list.first == old(list.first) && list.last == old(list.last) + 1
      ensures list.last in list.data && |list.data[list.last]| == chunkSize
      ensures list.data == old(list.data)[list.last := list.data[list.last]]
      ensures headindex == old(headindex) && endindex == old(endindex) && semaphore == old(semaphore)
    {
      ghost var old_list, repr := list, Repr - {this};
      assert list.InList(list.last, chunkSize, repr);
      var c := CreateInternalBuffer(current, list.last + 1);
      current := c;
      ghost var n := list.last + 1;
      list := Layout(list.first, n, list.chunk[n := c], list.data[n := c.msgs[..]], list.owner[c.msgs := n]);
      Repr := Repr + {c, c.msgs};
      forall i | list.first <= i <= n ensures list.InList(i, chunkSize, Repr - {this}) {
        if i < n {
          assert old(list.InList(i, chunkSize, repr));
        }
      }
    }

    /** Puts a new chunk in front of the first one. */
    method PrependChunk()
      requires list.Linked(chunkSize, Repr - {this}) && Ends()
      modifies this
      ensures fresh(Repr - old(Repr)) && old(Repr) <= Repr
      ensures list.Linked(chunkSize, Repr - {this}) && Ends()
      ensures list.first == old(list.first) - 1 && list.last == old(list.last)
      ensures list.first in list.data && |list.data[list.first]| == chunkSize
      ensures list.data == old(list.data)[list.first := list.data[list.first]]
      ensures headindex == chunkSize && endindex == old(endindex) && semaphore == old(semaphore)
    {
      ghost var repr := Repr - {this};
      ghost var n := list.first - 1;
      var c := CreateInternalBuffer(null, n);
      c.next := head;
      head := c;
      list := Layout(n, list.last, list.chunk[n := c], list.data[n := c.msgs[..]], list.owner[c.msgs := n]);
      Repr := Repr + {c, c.msgs};
      headindex := chunkSize;
      forall i | n <= i <= list.last ensures list.InList(i, chunkSize, Repr - {this}) {
        if n < i {
          assert old(list.InList(i, chunkSize, repr));
        }
      }
    }

    /** The locked part of a push. */
    method Store(str: T)
      requires Valid()
      modifies Repr
      ensures Valid() && fresh(Repr - old(Repr))
      ensures Contents() == old(Contents()) + [str] && semaphore == old(semaphore)
    {
      ValidIff();
      StoreMessage(str);
      ValidIff();
    }

    method StoreMessage(str: T)
      requires Flat()
      modifies Repr
      ensures Flat() && fresh(Repr - old(Repr))
      ensures Contents() == old(Contents()) + [str] && semaphore == old(semaphore)
    {
      ghost var data0 := list.data;
      assert list.InList(list.last, chunkSize, Repr - {this});
      WriteSlot(current, endindex, str);

      endindex := endindex + 1;
      if endindex == chunkSize {
        NextChunk(data0, str);
      } else {
        Pushed(data0, chunkSize, list.first, list.last, headindex, endindex - 1, str);
      }
    }

    /** The last slot has been written: the next message goes to a new chunk. */
    method NextChunk(ghost data0: map<int, seq<T>>, ghost str: T)
      requires chunkSize > 0 && endindex == chunkSize
      requires this in Repr && list.Linked(chunkSize, Repr - {this}) && Ends()
      requires Spans(data0, chunkSize, list.first, list.last, headindex, chunkSize - 1)
      requires list.data == data0[list.last := data0[list.last][chunkSize - 1 := str]]
      modifies this, current
      ensures Flat() && fresh(Repr - old(Repr)) && semaphore == old(semaphore)
      ensures Contents() == Window(data0, chunkSize, list.first, list.last - 1, headindex, chunkSize - 1) + [str]
      ensures list.first == old(list.first) && list.last == old(list.last) + 1 && headindex == old(headindex)
    {
      AppendChunk();
      endindex := 0;
      PushedLast(data0, chunkSize, list.first, list.last - 1, headindex, str, list.data[list.last]);
    }

    /** The semaphore action that ends a push or an unpop. */
    method Post()
      requires Valid() && semaphore < |Contents()|
      modifies this`semaphore
      ensures Valid() && semaphore == old(semaphore) + 1
      ensures Contents() == old(Contents()) && Repr == old(Repr)
    {
      semaphore := semaphore + 1;
    }

    /** The semaphore action that starts a pop. */
    method Wait()
      requires Valid() && semaphore > 0
      modifies this`semaphore
      ensures Valid() && semaphore == old(semaphore) - 1
      ensures Contents() == old(Contents()) && Repr == old(Repr)
    {
      semaphore := semaphore - 1;
    }

    /** The locked part of a pop: with a message stored that no other waiter is
        entitled to, the slot read is filled and a chunk left behind has a successor. */
    method Take() returns (retval: T)
      requires Valid() && semaphore < |Contents()|
      modifies this
      ensures Valid() && Repr == old(Repr)
      ensures [retval] + Contents() == old(Contents()) && semaphore == old(semaphore)
    {
      ValidIff();
      retval := TakeMessage();
      ValidIff();
    }

    method TakeMessage() returns (retval: T)
      requires Flat() && Contents() != []
      modifies this
      ensures Flat() && Repr == old(Repr)
      ensures [retval] + Contents() == old(Contents()) && semaphore == old(semaphore)
    {
      assert list.InList(list.first, chunkSize, Repr - {this});
      WindowFront(list.data, chunkSize, list.first, list.last, headindex, endindex);
      retval := head.msgs[headindex];
      headindex := headindex + 1;

      if headindex == chunkSize {
        list.WithoutFirst(chunkSize, Repr - {this});
        head := head.next;
        list := list.(first := list.first + 1);
        headindex := 0;
      }
    }

    /** The locked part of an unpop. */
    method Restore(msg: T)
      requires Valid()
      modifies Repr
      ensures Valid() && fresh(Repr - old(Repr))
      ensures Contents() == [msg] + old(Contents()) && semaphore == old(semaphore)
    {
      ValidIff();
      RestoreMessage(msg);
      ValidIff();
    }

    method RestoreMessage(msg: T)
      requires Flat()
      modifies Repr
      ensures Flat() && fresh(Repr - old(Repr))
      ensures Contents() == [msg] + old(Contents()) && semaphore == old(semaphore)
    {
      ghost var data0, atStart := list.data, headindex == 0;
      if headindex == 0 {
        PrependChunk();
      }
      ghost var blank := list.data[list.first];

      headindex := headindex - 1;
      assert list.InList(list.first, chunkSize, Repr - {this});
      WriteSlot(head, headindex, msg);
      if atStart {
        UnpoppedFirst(data0, chunkSize, list.first + 1, list.last, endindex, msg, blank);
      } else {
        Unpopped(data0, chunkSize, list.first, list.last, headindex + 1, endindex, msg);
      }
    }

    method Push(str: T)
      requires Valid()
      modifies Repr
      ensures Valid() && fresh(Repr - old(Repr))
      ensures Contents() == old(Contents()) + [str] && semaphore == old(semaphore) + 1
    {
      Store(str);
      Post();
    }

    /** Returns the front message; blocks, that is must not be called, at semaphore zero. */
    method Pop() returns (retval: T)
      requires Valid() && semaphore > 0
      modifies this
      ensures Valid() && Repr == old(Repr)
      ensures [retval] + Contents() == old(Contents()) && semaphore == old(semaphore) - 1
    {
      Wait();
      retval := Take();
    }

    method Unpop(msg: T)
      requires Valid()
      modifies Repr
      ensures Valid() && fresh(Repr - old(Repr))
      ensures Contents() == [msg] + old(Contents()) && semaphore == old(semaphore) + 1
    {
      Restore(msg);
      Post();
    }

    method Size() returns (retval: nat)
      requires Valid()
      ensures retval == semaphore <= |Contents()|
    {
      retval := semaphore;
    }

    /** Frees the messages still stored, as far as the walk visits them: it
        restarts at the end of every later chunk, so exactly those in the rest of
        the first chunk are freed, and all of them only if they fit there. */
    method Cleanup() returns (freed: seq<T>)
      requires Valid()
      ensures headindex <= chunkSize
      ensures freed == if |Contents()| <= chunkSize - headindex then Contents() else Contents()[..chunkSize - headindex]
      ensures freed == Contents() <==> |Contents()| <= chunkSize - headindex
    {
      ValidIff();
      ghost var part := if list.first == list.last then list.data[list.first][headindex..endindex]
                        else list.data[list.first][headindex..];
      freed := [];
      var index := headindex;
      var curr: Chunk?<T> := head;
      var end := chunkSize;
      ghost var i := list.first;
      while curr != null
        invariant curr == null <==> i == list.last + 1
        invariant list.first <= i <= list.last + 1
        invariant i <= list.last ==> i in list.chunk && curr == list.chunk[i] && end == chunkSize
        invariant i == list.first ==> index == headindex && freed == []
        invariant i > list.first ==> index == chunkSize && freed == part
        decreases list.last + 1 - i
      {
        assert list.InList(i, chunkSize, Repr - {this});
        var next := curr.next;
        if next == null {
          end := endindex;
        }

        ghost var freed0 := freed;
        while index < end
          invariant i == list.first ==> headindex <= index <= end && freed == list.data[i][headindex..index]
          invariant i > list.first ==> index == chunkSize && freed == freed0
        {
          freed := freed + [curr.msgs[index]];
          index := index + 1;
        }
        index := chunkSize;

        curr := next;
        i := i + 1;
      }
      assert freed == part;
    }
  }
  /** Two messages in chunks of one: the second is never freed. */
  method CleanupMissesMessage<T(0)>(first: T, second: T) returns (stored: seq<T>, freed: seq<T>)
    ensures stored == [first, second] && freed == [first]
  {
    var queue := new MessageQueue<T>.Init(1);
    queue.Push(first);
    queue.Push(second);
    freed := queue.Cleanup();
    stored := [first, second];
    assert queue.Contents() == stored;
  }
}
