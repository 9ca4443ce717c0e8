/** Where things lie in a ring of `size` bytes that holds `used` bytes starting
    at `border`. A border equal to `size` is possible: a purged line that ended
    exactly at the end of the ring leaves it there. */
module RingLayout {
  import opened Lines

  predicate Within(size: nat, border: int, used: nat) {
    0 < size && 0 <= border <= size && used <= size
  }

  /** The position the next byte read goes to. */
  function Current(size: nat, border: int, used: nat): (p: nat)
    requires Within(size, border, used)
    ensures p < size
  {
    var p := border + used;
    if p < size then p else if p < 2 * size then p - size else 0
  }

  lemma CurrentIsModular(size: nat, border: int, used: nat)
    requires Within(size, border, used)
    ensures Current(size, border, used) == (border + used) % size
  {
  }

  /** The `write` field: how many bytes one read may place at the current position. */
  function Room(size: nat, border: int, used: nat): (n: nat)
    requires Within(size, border, used)
  {
    var current := Current(size, border, used);
    if current < border then border - current
    else if size - current < size - used then size - current else size - used
  }

  /** The state in which the ring is full and every search of it fails. */
  predicate Blind(size: nat, border: int, used: nat) {
    border == size && used == size
  }

  /** The position of the `i`-th byte held. */
  function Slot(size: nat, border: int, i: nat): (p: nat)
    requires 0 <= border <= size && i < size
    ensures p < size
  {
    if border + i < size then border + i else border + i - size
  }

  /** The bytes held, oldest first. */
  function Held(d: seq<byte>, border: int, used: nat): (s: seq<byte>)
    requires Within(|d|, border, used)
    ensures |s| == used
  {
    seq(used, i requires 0 <= i < used => d[Slot(|d|, border, i)])
  }

  /** Unless the ring is blind, the room is free space, and there is some unless the ring is full. */
  lemma RoomIsFree(size: nat, border: int, used: nat)
    requires Within(size, border, used) && !Blind(size, border, used)
    ensures Room(size, border, used) <= size - used
    ensures Room(size, border, used) == 0 <==> used == size
    ensures Current(size, border, used) + Room(size, border, used) <= size
  {
  }

  /** Where the border goes when the first `n` bytes held are removed. */
  function BorderAfter(size: nat, border: int, n: nat): int {
    if border + n < size then border + n else border + n - size
  }

  /** Bytes written at the current position do not touch the bytes held. */
  lemma HeldUntouched(d: seq<byte>, d': seq<byte>, border: int, used: nat, n: nat)
    requires |d| == |d'| && Within(|d|, border, used) && n <= Room(|d|, border, used) && n <= |d| - used
    requires
      var current := Current(|d|, border, used);
      forall i | 0 <= i < |d| && !(current <= i < current + n) :: d[i] == d'[i]
    ensures Held(d, border, used) == Held(d', border, used)
  {
  }

  /** Counting `n` more bytes moves the current position only. */
  lemma CurrentAdvanced(size: nat, border: int, used: nat, n: nat)
    requires Within(size, border, used) && n <= Room(size, border, used) && n <= size - used
    ensures
      var current := Current(size, border, used);
      && current + n <= size
      && Current(size, border, used + n) == if current + n == size then 0 else current + n
  {
  }

  /** Counting `n` more bytes appends exactly the ones at the current position. */
  lemma HeldExtended(d: seq<byte>, border: int, used: nat, n: nat)
    requires Within(|d|, border, used) && n <= Room(|d|, border, used) && n <= |d| - used
    ensures
      var current := Current(|d|, border, used);
      && current + n <= |d|
      && Held(d, border, used + n) == Held(d, border, used) + d[current..current + n]
  {
  }

  /** Removing the first `n` bytes held moves the border only. */
  lemma BorderAdvanced(size: nat, border: int, used: nat, n: nat)
    requires Within(size, border, used) && 0 < n <= used && !Blind(size, border, used)
    ensures
      var border' := BorderAfter(size, border, n);
      var current := Current(size, border, used);
      && Within(size, border', used - n)
      && Current(size, border', used - n) == current
      && Room(size, border', used - n) == if current < border' then border' - current else size - current
  {
  }

  lemma HeldShortened(d: seq<byte>, border: int, used: nat, n: nat)
    requires Within(|d|, border, used) && n <= used && BorderAfter(|d|, border, n) <= |d|
    ensures Within(|d|, BorderAfter(|d|, border, n), used - n)
    ensures Held(d, BorderAfter(|d|, border, n), used - n) == Held(d, border, used)[n..]
  {
  }

  /** The border may also be left at the very end instead of the start: the
      layout is the same. */
  lemma LeftAtEnd(size: nat, border: int, used: nat, n: nat)
    requires Within(size, border, used) && 0 < n <= used && !Blind(size, border, used) && border + n <= size
    ensures
      var current := Current(size, border, used);
      && Within(size, border + n, used - n)
      && Current(size, border + n, used - n) == current
      && Room(size, border + n, used - n) == if current < border + n then border + n - current else size - current
  {
  }

  lemma HeldPurged(d: seq<byte>, border: int, used: nat, n: nat)
    requires Within(|d|, border, used) && n <= used && border + n <= |d|
    ensures Held(d, border + n, used - n) == Held(d, border, used)[n..]
  {
  }

  /** The first `n` bytes held lie in one piece or in two. */
  lemma HeldPrefix(d: seq<byte>, border: int, used: nat, n: nat)
    requires Within(|d|, border, used) && n <= used
    ensures Held(d, border, used)[..n] ==
            if border + n <= |d| then d[border..border + n] else d[border..] + d[..border + n - |d|]
  {
  }
}

module InputBuffers {
  import opened Lines
  import opened RingLayout
  import opened Wrappers

  class InputBuffer {
    const data: array<byte>
    var border: int
    var current: int
    var available: int
    var write: int
    ghost var used: nat

    /** The redundant fields agree with the border and the number of bytes held. */
    ghost predicate Valid()
      reads this
    {
      && Within(data.Length, border, used)
      && available == data.Length - used
      && current == Current(data.Length, border, used)
      && write == Room(data.Length, border, used)
    }

    ghost predicate IsBlind()
      reads this
    {
      Blind(data.Length, border, used)
    }

    ghost function Content(): (s: seq<byte>)
      requires Valid()
      reads this, data
    {
      Held(data[..], border, used)
    }

    constructor Create(size: nat)
      requires size > 0
      ensures Valid() && fresh(data) && data.Length == size
      ensures border == 0 && Content() == []
    {
      data := new byte[size];
      available := size;
      write := size;
      border := 0;
      current := 0;
      used := 0;
    }

    /** What `read` does to the ring's memory before `Update` accounts for it. */
    method Receive(bytes: seq<byte>)
      requires Valid() && |bytes| <= write && |bytes| <= available
      modifies data
      ensures Content() == old(Content())
      ensures current + |bytes| <= data.Length && data[current..current + |bytes|] == bytes
    {
      HeldExtended(data[..], border, used, |bytes|);
      forall i | 0 <= i < |bytes| {
        data[current + i] := bytes[i];
      }
      HeldUntouched(old(data[..]), data[..], border, used, |bytes|);
    }

    /** Accounts for `read` bytes placed at the current position. */
    method Update(read: nat)
      requires Valid() && read <= write && read <= available
      modifies this
      ensures Valid() && border == old(border)
      ensures old(current) + read <= data.Length
      ensures Content() == old(Content()) + data[old(current)..old(current) + read]
    {
      ghost var d, more := data[..], Content() + data[current..current + read];
      CurrentAdvanced(data.Length, border, used, read);
      assert Held(d, border, used + read) == more by {
        HeldExtended(d, border, used, read);
        assert d[current..current + read] == data[current..current + read];
      }

      current := current + read;
      available := available - read;
      used := used + read;
      if current == data.Length {
        current := 0;
      }
      MeasureRoom();
      assert data[..] == d;
    }

    /** How much one read may place at the current position. */
    method MeasureRoom()
      modifies this`write
      ensures
        var toEnd := data.Length - current;
        write == if current < border then border - current else if toEnd < available then toEnd else available
    {
      if current < border {
        write := border - current;
      } else {
        write := if data.Length - current < available then data.Length - current else available;
      }
    }

    /** One-based position of the first `c` held, or -1; a blind ring never finds anything. */
    method Find(c: byte) returns (r: int)
      requires Valid()
      ensures r == if IsBlind() || c !in Content() then -1 else IndexOf(Content(), c) + 1
    {
      if current <= border {
        if available == data.Length {
          return -1;
        }

        var tail := data[border..];
        IndexOfAppend(tail, data[..current], c);
        assert !IsBlind() ==> Content() == tail + data[..current];
        var index := IndexOf(tail, c);
        if index < |tail| {
          return index + 1;
        }

        index := IndexOf(data[..current], c);
        if index < current {
          return (data.Length - border) + index + 1;
        }
      } else {
        assert Content() == data[border..current];
        var index := IndexOf(data[border..current], c);
        if index < current - border {
          return index + 1;
        }
      }
      return -1;
    }

    /** The source's own integrity check: on a consistent ring it fails exactly
        in the blind state; and with a border inside the ring it admits only
        one inconsistency, a zero `write` on an empty ring. */
    method Validate() returns (ok: bool)
      ensures Valid() ==> (ok <==> !IsBlind())
      ensures ok && 0 <= border <= data.Length && available == data.Length - used ==>
              Valid() || (write == 0 && used == 0)
    {
      ok := && current < data.Length
            && current >= 0
            && write <= available
            && (|| (current < border && write == border - current && available == write)
                || (current > border && write == data.Length - current && available == border + write)
                || (&& current == border
                    && (available == 0 || available == data.Length)
                    && (write == 0 || write == data.Length - current)));
    }

    /** Recomputes the derived fields after the border moved over `len` bytes. */
    method Reclaim(len: nat)
      requires len <= used
      modifies this`write, this`available, this`used
      ensures write == if current < border then border - current else data.Length - current
      ensures available == old(available) + len && used == old(used) - len
    {
      if current < border {
        write := border - current;
      } else {
        write := data.Length - current;
      }
      available := available + len;
      used := used - len;
    }

    /** Drops the first line, or everything when there is none. The invariant
        survives exactly when the line does not run past the end of the ring. */
    method PurgeLine() returns (purged: bool)
      requires Valid()
      modifies this
      ensures purged <==> !old(IsBlind()) && NEWLINE in old(Content())
      ensures !purged ==> Valid() && border == 0 && Content() == []
      ensures purged ==>
        var len := LineLength(old(Content()));
        && (Valid() <==> old(border) + len <= data.Length)
        && (Valid() ==> border == old(border) + len && Content() == old(Content())[len..])
        && (!Valid() ==> border == data.Length - (old(border) + len))
        && used == old(used) - len && available == old(available) + len && current == old(current)
    {
      var len := Find(NEWLINE);
      if len == -1 {
        DropAll();
        return false;
      }
      DropLine(len);
      return true;
    }

    /** Empties the ring. */
    method DropAll()
      requires Valid()
      modifies this
      ensures Valid() && border == 0 && Content() == []
    {
      border := 0;
      current := border;
      write := data.Length - current;
      available := write;
      used := 0;
    }

    /** Moves the border over the first `len` bytes held, wrapping it as the source does. */
    method DropLine(len: nat)
      requires Valid() && !IsBlind() && 0 < len <= used
      modifies this
      ensures Valid() <==> old(border) + len <= data.Length
      ensures Valid() ==> border == old(border) + len && Content() == old(Content())[len..]
      ensures !Valid() ==> border == data.Length - (old(border) + len)
      ensures used == old(used) - len && available == old(available) + len && current == old(current)
    {
      ghost var d := data[..];
      if border + len <= data.Length {
        LeftAtEnd(data.Length, border, used, len);
        HeldPurged(d, border, used, len);
      }
      border := border + len;
      if border > data.Length {
        border := 0 - (border - data.Length);
      }
      Reclaim(len);
      assert data[..] == d;
    }

    /** Removes and returns the first line, newline included. */
    method GetLine() returns (line: Option<seq<byte>>)
      requires Valid()
      modifies this
      ensures Valid()
      ensures line.None? <==> old(IsBlind()) || NEWLINE !in old(Content())
      ensures line.None? ==> border == old(border) && Content() == old(Content())
      ensures line.Some? ==>
        var len := LineLength(old(Content()));
        && line.value == old(Content())[..len]
        && Content() == old(Content())[len..]
        && border == BorderAfter(data.Length, old(border), len)
    {
      var len := Find(NEWLINE);
      if len == -1 {
        return None;
      }

      ghost var d, s := data[..], Content();
      BorderAdvanced(data.Length, border, used, len);
      HeldShortened(d, border, used, len);
      var copy := CopyOut(len);
      line := Some(copy);
      Reclaim(len);
      assert data[..] == d;
      assert Content() == s[len..];
    }

    /** Copies the first `len` bytes, in one piece or in two, and moves the border over them. */
    method CopyOut(len: nat) returns (line: seq<byte>)
      requires Valid() && 0 < len <= used && !IsBlind()
      modifies this`border
      ensures line == old(Content())[..len]
      ensures border == BorderAfter(data.Length, old(border), len)
    {
      HeldPrefix(data[..], border, used, len);
      if border + len > data.Length {
        var taillen := data.Length - border;
        line := data[border..] + data[..len - taillen];
        border := len - taillen;
      } else {
        line := data[border..border + len];
        border := border + len;
        if border == data.Length {
          border := 0;
        }
      }
    }
  }
}
