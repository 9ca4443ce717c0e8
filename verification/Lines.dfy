/** Byte strings, and the lines they are made of: the vocabulary every part of
    the pipeline shares. */
module Lines {
  newtype byte = b: int | 0 <= b < 256

  const NEWLINE: byte := 10

  /** Position of the first `c`, or the length when there is none (`memchr`). */
  function IndexOf(s: seq<byte>, c: byte): (k: nat)
    ensures k <= |s|
    ensures k < |s| <==> c in s
    ensures k < |s| ==> s[k] == c
    ensures c !in s[..k]
  {
    if s == [] || s[0] == c then 0 else 1 + IndexOf(s[1..], c)
  }

  /** Length of the first line, its newline included. */
  function LineLength(s: seq<byte>): (n: nat)
    requires NEWLINE in s
    ensures 0 < n <= |s| && Framed(s[..n])
  {
    IndexOf(s, NEWLINE) + 1
  }

  /** A line as every message must be: one newline, at its end. */
  predicate Framed(line: seq<byte>) {
    line != [] && line[|line| - 1] == NEWLINE && NEWLINE !in line[..|line| - 1]
  }

  /** The newline-terminated lines of a byte string, in order. */
  function Split(s: seq<byte>): (lines: seq<seq<byte>>)
    ensures forall line <- lines :: Framed(line)
  {
    if NEWLINE !in s then [] else
    var n := LineLength(s);
    [s[..n]] + Split(s[n..])
  }

  /** What follows the last newline. */
  function Rest(s: seq<byte>): (r: seq<byte>)
    ensures NEWLINE !in r
  {
    if NEWLINE !in s then s else Rest(s[LineLength(s)..])
  }

  function Flatten(lines: seq<seq<byte>>): seq<byte> {
    if lines == [] then [] else lines[0] + Flatten(lines[1..])
  }

  /** The lines that fit in `limit` bytes, in order. */
  function Fitting(lines: seq<seq<byte>>, limit: nat): seq<seq<byte>> {
    if lines == [] then []
    else (if |lines[0]| <= limit then [lines[0]] else []) + Fitting(lines[1..], limit)
  }

  /** The first match does not depend on what is appended after it. */
  lemma {:induction false} IndexOfAppend(a: seq<byte>, b: seq<byte>, c: byte)
    ensures IndexOf(a + b, c) == if c in a then IndexOf(a, c) else |a| + IndexOf(b, c)
  {
    if a == [] {
      assert a + b == b;
    } else if a[0] != c {
      assert (a + b)[1..] == a[1..] + b;
      IndexOfAppend(a[1..], b, c);
    }
  }

  /** Splitting is incremental: only the unfinished rest of what came before matters. */
  lemma {:induction false} SplitAppend(a: seq<byte>, b: seq<byte>)
    ensures Split(a + b) == Split(a) + Split(Rest(a) + b)
    ensures Rest(a + b) == Rest(Rest(a) + b)
    decreases |a|
  {
    if NEWLINE in a {
      var n := LineLength(a);
      IndexOfAppend(a, b, NEWLINE);
      assert (a + b)[..n] == a[..n] && (a + b)[n..] == a[n..] + b;
      SplitAppend(a[n..], b);
    }
  }

  lemma SplitOneLine(line: seq<byte>)
    requires Framed(line)
    ensures Split(line) == [line] && Rest(line) == []
  {
    assert LineLength(line) == |line| by {
      assert IndexOf(line, NEWLINE) < |line|;
      assert line[IndexOf(line, NEWLINE)] == NEWLINE;
    }
    assert line[..|line|] == line && line[|line|..] == [];
  }

  lemma FlattenCons(line: seq<byte>, lines: seq<seq<byte>>)
    ensures Flatten([line] + lines) == line + Flatten(lines)
  {
    assert ([line] + lines)[1..] == lines;
  }

  lemma Assoc<T>(a: seq<T>, b: seq<T>, c: seq<T>)
    ensures a + b + c == a + (b + c)
  {
  }

  /** Nothing is lost in splitting. */
  lemma {:induction false} FlattenSplit(s: seq<byte>)
    ensures Flatten(Split(s)) + Rest(s) == s
  {
    if NEWLINE in s {
      var line, tail := s[..LineLength(s)], s[LineLength(s)..];
      calc {
        Flatten(Split(s)) + Rest(s);
        Flatten([line] + Split(tail)) + Rest(tail);
        { FlattenCons(line, Split(tail)); }
        line + Flatten(Split(tail)) + Rest(tail);
        { Assoc(line, Flatten(Split(tail)), Rest(tail)); }
        line + (Flatten(Split(tail)) + Rest(tail));
        { FlattenSplit(tail); }
        line + tail;
        s;
      }
    }
  }

  lemma FlattenSnoc(lines: seq<seq<byte>>, line: seq<byte>)
    ensures Flatten(lines + [line]) == Flatten(lines) + line
  {
    FlattenAppend(lines, [line]);
    assert [line] == [line] + [] && line + [] == line;
    FlattenCons(line, []);
  }

  lemma {:induction false} FlattenAppend(a: seq<seq<byte>>, b: seq<seq<byte>>)
    ensures Flatten(a + b) == Flatten(a) + Flatten(b)
  {
    if a == [] {
      assert a + b == b;
    } else {
      assert (a + b)[1..] == a[1..] + b;
      FlattenAppend(a[1..], b);
    }
  }

  /** The backlog round trip: framed messages written one after the other are
      read back line by line as the same messages. */
  lemma {:induction false} SplitFlatten(lines: seq<seq<byte>>)
    requires forall line <- lines :: Framed(line)
    ensures Split(Flatten(lines)) == lines && Rest(Flatten(lines)) == []
  {
    if lines != [] {
      SplitFlatten(lines[1..]);
      SplitAppend(lines[0], Flatten(lines[1..]));
      SplitOneLine(lines[0]);
      assert [] + Flatten(lines[1..]) == Flatten(lines[1..]);
      assert lines == [lines[0]] + lines[1..];
    }
  }

  lemma {:induction false} FittingAppend(a: seq<seq<byte>>, b: seq<seq<byte>>, limit: nat)
    ensures Fitting(a + b, limit) == Fitting(a, limit) + Fitting(b, limit)
  {
    if a == [] {
      assert a + b == b;
    } else {
      assert (a + b)[1..] == a[1..] + b;
      FittingAppend(a[1..], b, limit);
    }
  }
}

/** One sequence inside another: in the same order, with some left out. */
module Subsequences {
  predicate Subsequence<T(==)>(a: seq<T>, b: seq<T>)
    decreases |b|
  {
    a == [] || (b != [] && Subsequence(if a[0] == b[0] then a[1..] else a, b[1..]))
  }

  predicate IsSuffix<T(==)>(a: seq<T>, b: seq<T>) {
    |a| <= |b| && b[|b| - |a|..] == a
  }

  lemma {:induction false} Whole<T>(s: seq<T>)
    ensures Subsequence(s, s)
  {
    if s != [] {
      Whole(s[1..]);
    }
  }

  lemma {:induction false} WithoutFirst<T>(a: seq<T>, b: seq<T>)
    requires a != [] && Subsequence(a, b)
    ensures b != [] && Subsequence(a[1..], b[1..])
    decreases |b|, 0
  {
    if a[0] != b[0] {
      WithoutFirst(a, b[1..]);
      InLonger(a[1..], b[1..]);
    }
  }

  lemma {:induction false} InLonger<T>(a: seq<T>, b: seq<T>)
    requires b != [] && Subsequence(a, b[1..])
    ensures Subsequence(a, b)
    decreases |b|, 1
  {
    if a != [] && a[0] == b[0] {
      WithoutFirst(a, b[1..]);
      InLonger(a[1..], b[1..]);
    }
  }

  lemma {:induction false} Behind<T>(a: seq<T>, front: seq<T>, b: seq<T>)
    requires Subsequence(a, b)
    ensures Subsequence(a, front + b)
    decreases |front|
  {
    if front == [] {
      assert front + b == b;
    } else {
      assert (front + b)[1..] == front[1..] + b;
      Behind(a, front[1..], b);
      InLonger(a, front + b);
    }
  }

  lemma SuffixWithin<T>(a: seq<T>, b: seq<T>)
    requires IsSuffix(a, b)
    ensures Subsequence(a, b)
  {
    Whole(a);
    Behind(a, b[..|b| - |a|], a);
    assert b == b[..|b| - |a|] + a;
  }

  lemma {:induction false} Joined<T>(a: seq<T>, a': seq<T>, b: seq<T>, b': seq<T>)
    requires Subsequence(a, a') && Subsequence(b, b')
    ensures Subsequence(a + b, a' + b')
    decreases |a'|
  {
    if a == [] {
      assert a + b == b;
      Behind(b, a', b');
    } else {
      assert (a' + b')[1..] == a'[1..] + b' && (a + b)[1..] == a[1..] + b;
      Joined(if a[0] == a'[0] then a[1..] else a, a'[1..], b, b');
    }
  }

  lemma {:induction false} BackOf<T>(front: seq<T>, a: seq<T>, b: seq<T>)
    requires Subsequence(front + a, b)
    ensures Subsequence(a, b)
    decreases |front|
  {
    if front == [] {
      assert front + a == a;
    } else {
      WithoutFirst(front + a, b);
      assert (front + a)[1..] == front[1..] + a;
      BackOf(front[1..], a, b[1..]);
      InLonger(a, b);
    }
  }

  lemma {:induction false} FrontOf<T>(a: seq<T>, back: seq<T>, b: seq<T>)
    requires Subsequence(a + back, b)
    ensures Subsequence(a, b)
    decreases |b|
  {
    if a != [] {
      assert (a + back)[1..] == a[1..] + back;
      FrontOf(if a[0] == b[0] then a[1..] else a, back, b[1..]);
    }
  }

  lemma {:induction false} NoLonger<T>(a: seq<T>, b: seq<T>)
    requires Subsequence(a, b)
    ensures |a| <= |b| && (|a| == |b| ==> a == b)
    decreases |b|
  {
    if a != [] {
      NoLonger(if a[0] == b[0] then a[1..] else a, b[1..]);
    }
  }

  /** Subsequences joined are everything only if each of them is. */
  lemma JoinedEqual<T>(a: seq<T>, b: seq<T>, a': seq<T>, b': seq<T>)
    requires Subsequence(a, a') && Subsequence(b, b')
    ensures a + b == a' + b' <==> a == a' && b == b'
  {
    NoLonger(a, a');
    NoLonger(b, b');
    if a + b == a' + b' {
      assert |a| + |b| == |a'| + |b'|;
      assert a == (a + b)[..|a|] && b == (a + b)[|a|..];
      assert a' == (a' + b')[..|a'|] && b' == (a' + b')[|a'|..];
    }
  }

  lemma {:induction false} Contained<T>(x: T, a: seq<T>, b: seq<T>)
    requires x in a && Subsequence(a, b)
    ensures x in b
    decreases |b|
  {
    if a[0] != b[0] || x != a[0] {
      Contained(x, if a[0] == b[0] then a[1..] else a, b[1..]);
    }
  }
}
