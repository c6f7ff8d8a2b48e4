/** GetLogs: the last lines of a log file, read backwards in chunks. */
module LogTail {
  newtype Byte = x: int | 0 <= x < 256

  const NEWLINE: Byte := 10

  /** A newline that ends a line with something after it; the file's final newline does not count. */
  predicate Breaks(s: seq<Byte>, i: int) {
    0 <= i < |s| - 1 && s[i] == NEWLINE
  }

  /** How many such newlines lie at or after position `from`. */
  function Count(s: seq<Byte>, from: nat): nat
    decreases |s| - from
  {
    if from >= |s| then 0 else Count(s, from + 1) + if Breaks(s, from) then 1 else 0
  }

  /**
   * The tail of a file, with no reference to chunks: everything after the newline that has exactly
   * `lines` counted newlines at or after it, or the whole file when there is none.
   */
  ghost predicate IsTail(s: seq<Byte>, lines: int, tail: seq<Byte>) {
    if lines <= 0 || Count(s, 0) < lines then tail == s
    else exists i :: Breaks(s, i) && Count(s, i) == lines && tail == s[i + 1..]
  }

  lemma {:induction false} CountFalls(s: seq<Byte>, i: nat, j: nat)
    requires i <= j
    ensures Count(s, i) >= Count(s, j)
    decreases j - i
  {
    if i < j {
      CountFalls(s, i + 1, j);
      if i >= |s| {
        assert Count(s, j) == 0;
      }
    }
  }

  /** The tail is unique, so GetLogs is a function of the file and the number of lines alone. */
  lemma {:induction false} TailUnique(s: seq<Byte>, lines: int, t: seq<Byte>, u: seq<Byte>)
    requires IsTail(s, lines, t) && IsTail(s, lines, u)
    ensures t == u
  {
    if lines > 0 && Count(s, 0) >= lines {
      var i :| Breaks(s, i) && Count(s, i) == lines && t == s[i + 1..];
      var j :| Breaks(s, j) && Count(s, j) == lines && u == s[j + 1..];
      if i < j {
        CountFalls(s, i + 1, j);
      } else if j < i {
        CountFalls(s, j + 1, i);
      }
    }
  }

  lemma {:induction false} CountSuffix(s: seq<Byte>, cut: nat, from: nat)
    requires cut <= |s|
    ensures Count(s[cut..], from) == Count(s, cut + from)
    decreases |s| - from
  {
    if cut + from < |s| {
      CountSuffix(s, cut, from + 1);
      assert Breaks(s[cut..], from) <==> Breaks(s, cut + from);
    }
  }

  /** A tail has the requested number of lines: one newline fewer, its own last one not counted. */
  lemma {:induction false} TailLines(s: seq<Byte>, lines: int, tail: seq<Byte>)
    requires IsTail(s, lines, tail) && 0 < lines <= Count(s, 0)
    ensures Count(tail, 0) == lines - 1 && tail != []
  {
    var i :| Breaks(s, i) && Count(s, i) == lines && tail == s[i + 1..];
    CountSuffix(s, i + 1, 0);
  }

  // ----- the tail in terms of lines -----

  ghost function Concat(ls: seq<seq<Byte>>): seq<Byte> {
    if ls == [] then [] else ls[0] + Concat(ls[1..])
  }

  /** A line has at least one byte, and a newline at its end only. */
  ghost predicate IsLine(l: seq<Byte>) {
    l != [] && forall i :: 0 <= i < |l| - 1 ==> l[i] != NEWLINE
  }

  /** The lines of a file: every line but the last ends with a newline. */
  ghost predicate AreLines(ls: seq<seq<Byte>>, s: seq<Byte>) {
    && Concat(ls) == s
    && (forall i :: 0 <= i < |ls| ==> IsLine(ls[i]))
    && (forall i :: 0 <= i < |ls| - 1 ==> ls[i] != [] && ls[i][|ls[i]| - 1] == NEWLINE)
  }

  /** The last n lines, or all of them. */
  ghost function LastLines(ls: seq<seq<Byte>>, n: nat): seq<seq<Byte>> {
    if |ls| <= n then ls else ls[|ls| - n..]
  }

  lemma {:induction false} ConcatSplit(ls: seq<seq<Byte>>, k: nat)
    requires k <= |ls|
    ensures Concat(ls) == Concat(ls[..k]) + Concat(ls[k..])
  {
    if k > 0 {
      ConcatSplit(ls[1..], k - 1);
      assert ls[..k][1..] == ls[1..][..k - 1] && ls[1..][k - 1..] == ls[k..];
    }
  }

  /** No newline is counted before position `to`. */
  lemma {:induction false} CountSkips(s: seq<Byte>, from: nat, to: nat)
    requires from <= to <= |s| && forall i :: from <= i < to ==> !Breaks(s, i)
    ensures Count(s, from) == Count(s, to)
    decreases |s| - from
  {
    if from < to {
      CountSkips(s, from + 1, to);
    }
  }

  /** A file of n lines has n - 1 counted newlines. */
  lemma {:induction false} LinesCount(ls: seq<seq<Byte>>, s: seq<Byte>)
    requires AreLines(ls, s) && ls != []
    ensures Count(s, 0) == |ls| - 1 && s != []
  {
    var first, rest := ls[0], Concat(ls[1..]);
    assert s == first + rest && IsLine(first);
    CountSkips(s, 0, |first| - 1);
    if |ls| > 1 {
      LinesCount(ls[1..], rest);
      assert s[|first|..] == rest;
      CountSuffix(s, |first|, 0);
    }
  }

  /** What GetLogs returns is the last lines of the file, as they are; a file with fewer lines is returned whole. */
  lemma {:induction false} TailIsLastLines(s: seq<Byte>, ls: seq<seq<Byte>>, lines: nat, tail: seq<Byte>)
    requires AreLines(ls, s) && lines > 0 && IsTail(s, lines, tail)
    ensures tail == Concat(LastLines(ls, lines))
  {
    if ls == [] {
      assert s == [];
    } else {
      LinesCount(ls, s);
      if |ls| > lines {
        var k := |ls| - lines;
        var cut := LineStart(ls, s, k);
        TailUnique(s, lines, tail, s[cut..]);
      }
    }
  }

  /** Where line k begins: after a counted newline with |ls| - k of them at or after it. */
  lemma {:induction false} LineStart(ls: seq<seq<Byte>>, s: seq<Byte>, k: nat) returns (cut: nat)
    requires AreLines(ls, s) && 0 < k < |ls|
    ensures cut <= |s| && s[cut..] == Concat(ls[k..]) && IsTail(s, |ls| - k, s[cut..])
  {
    var head, last, rest := Around(ls, k);
    LinesCount(ls[k..], rest);
    cut := |head| + |last|;
    Marks(s, head, last, rest, |ls| - k);
  }

  lemma {:induction false} Around(ls: seq<seq<Byte>>, k: nat)
      returns (head: seq<Byte>, last: seq<Byte>, rest: seq<Byte>)
    requires 0 < k < |ls|
    ensures last == ls[k - 1] && rest == Concat(ls[k..]) && Concat(ls) == head + last + rest
  {
    head, last, rest := Concat(ls[..k - 1]), ls[k - 1], Concat(ls[k..]);
    ConcatSplit(ls, k);
    ConcatSplit(ls[..k], k - 1);
    assert ls[..k][..k - 1] == ls[..k - 1] && ls[..k][k - 1..] == [last];
    assert [last][1..] == [] && Concat([last]) == last + [] == last;
  }

  lemma {:induction false} Marks(s: seq<Byte>, head: seq<Byte>, last: seq<Byte>, rest: seq<Byte>, n: nat)
    requires s == head + last + rest && rest != [] && last != [] && last[|last| - 1] == NEWLINE
    requires n > 0 && Count(rest, 0) == n - 1
    ensures s[|head| + |last|..] == rest && IsTail(s, n, rest)
  {
    var cut := |head| + |last|;
    assert s[cut..] == rest && s[cut - 1] == NEWLINE;
    CountSuffix(s, cut, 0);
    Found(s, n, cut - 1);
  }

  /** Every file has lines. */
  lemma {:induction false} SplitLines(s: seq<Byte>) returns (ls: seq<seq<Byte>>)
    ensures AreLines(ls, s)
  {
    ls := [];
    if s != [] {
      var n := 1;
      while n < |s| && s[n - 1] != NEWLINE
        invariant 1 <= n <= |s| && forall i :: 0 <= i < n - 1 ==> s[i] != NEWLINE
      {
        n := n + 1;
      }
      var rest := SplitLines(s[n..]);
      ls := [s[..n]] + rest;
      assert s == s[..n] + s[n..] && ls[1..] == rest;
    }
  }

  /** f.ReadAt into the front of a fixed buffer. */
  method ReadAt(file: seq<Byte>, buf: array<Byte>, n: nat, pos: nat)
    requires n <= buf.Length && pos + n <= |file|
    modifies buf
    ensures buf[..n] == file[pos..pos + n]
  {
    for i := 0 to n
      invariant forall j :: 0 <= j < i ==> buf[j] == file[pos + j]
    {
      buf[i] := file[pos + i];
    }
  }

  /** The inner loop: back through one chunk until the wanted newline, or to the chunk's start. */
  method ScanChunk(ghost file: seq<Byte>, chunk: seq<Byte>, pos: nat, size: nat, before: nat, lines: nat)
      returns (newlines: nat, at: int)
    requires size == |file| && pos + |chunk| <= size && chunk == file[pos..pos + |chunk|]
    requires before == Count(file, pos + |chunk|) < lines
    ensures -1 <= at < |chunk|
    ensures at >= 0 ==> Breaks(file, pos + at) && Count(file, pos + at) == lines
    ensures at == -1 ==> newlines == Count(file, pos) < lines
  {
    newlines, at := before, |chunk| - 1;
    while at >= 0
      invariant -1 <= at < |chunk| && newlines == Count(file, pos + at + 1) < lines
    {
      assert chunk[at] == file[pos + at];
      if chunk[at] == NEWLINE && pos + at != size - 1 {
        newlines := newlines + 1;
        if newlines == lines {
          return;
        }
      }
      at := at - 1;
    }
  }

  /** The chunk that ends at `pos`, as much of it as the buffer takes. */
  method ReadBack(file: seq<Byte>, buf: array<Byte>, pos: nat) returns (chunk: seq<Byte>, start: nat)
    requires 0 < pos <= |file| && buf.Length > 0
    modifies buf
    ensures start < pos && chunk == file[start..pos]
  {
    var readSize := buf.Length;
    if pos < readSize {
      readSize := pos;
    }
    start := pos - readSize;
    ReadAt(file, buf, readSize, start);
    chunk := buf[..readSize];
  }

  /** For every file, every number of lines and every buffer size. */
  method GetLogs(file: seq<Byte>, lines: int, bufferSize: nat) returns (tail: seq<Byte>)
    requires bufferSize > 0
    ensures IsTail(file, lines, tail)
  {
    if lines <= 0 {
      return file;
    }
    var size := |file|;
    if size == 0 {
      return [];
    }
    var buf := new Byte[bufferSize];
    tail := [];
    var newlines, pos := 0, size;
    while pos > 0
      invariant 0 <= pos <= size && tail == file[pos..]
      invariant newlines == Count(file, pos) < lines
    {
      var chunk, start := ReadBack(file, buf, pos);
      var at;
      newlines, at := ScanChunk(file, chunk, start, size, newlines, lines);
      Join(file, start, pos - start, at + 1);
      if at >= 0 {
        Found(file, lines, start + at);
        return chunk[at + 1..] + tail;
      }
      tail, pos := chunk + tail, start;
    }
    Whole(file, lines);
  }

  lemma Whole(s: seq<Byte>, lines: int)
    requires Count(s, 0) < lines
    ensures IsTail(s, lines, s)
  {
  }

  lemma Join(s: seq<Byte>, pos: nat, n: nat, k: nat)
    requires pos + n <= |s| && k <= n
    ensures s[pos..pos + n][k..] + s[pos + n..] == s[pos + k..]
    ensures s[pos..pos + n] + s[pos + n..] == s[pos..]
  {
  }

  lemma Found(s: seq<Byte>, lines: nat, i: nat)
    requires Breaks(s, i) && Count(s, i) == lines > 0
    ensures IsTail(s, lines, s[i + 1..])
  {
    CountFalls(s, 0, i);
  }
}
