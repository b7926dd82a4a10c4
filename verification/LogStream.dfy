/** Reading the kernel log (kernel/src/kmsg.rs, `read`): what a reader gets, compared with the
    stream of all lines ever kept. */
module LogStream {
  import opened Bytes
  import opened LogLines
  import opened LogStamps

  const RING_BYTES := 0x1_0000
  const LONGEST := STAMP_BYTES + LINE_BYTES + 1

  function Rendered(l: Line): seq<Byte> {
    Stamp(l.stamp) + l.body + [LF]
  }

  /** All bytes of all lines. */
  function Stream(lines: seq<Line>): seq<Byte> {
    if lines == [] then [] else Stream(lines[..|lines| - 1]) + Rendered(lines[|lines| - 1])
  }

  /** Where line `k` starts. */
  function Offset(lines: seq<Line>, k: nat): nat
    requires k <= |lines|
  {
    |Stream(lines[..k])|
  }

  /** `at` is where a line starts, or the end of the stream. */
  ghost predicate Boundary(lines: seq<Line>, at: int) {
    exists k :: 0 <= k <= |lines| && Offset(lines, k) == at
  }

  ghost predicate AllGood(lines: seq<Line>) {
    forall i :: 0 <= i < |lines| ==> GoodLine(lines[i])
  }

  // ---- The stream and its boundaries ---------------------------------------------------

  lemma RenderedShape(l: Line)
    requires GoodLine(l)
    ensures 0 < |Rendered(l)| <= LONGEST
    ensures forall i :: 0 <= i < |Rendered(l)| ==> (Rendered(l)[i] == LF <==> i == |Rendered(l)| - 1)
  {
    StampHasNoLineFeed(l.stamp);
    var r := Rendered(l);
    forall i | 0 <= i < |r| - 1
      ensures r[i] != LF
    {
      if i < STAMP_BYTES {
        assert r[i] == Stamp(l.stamp)[i];
      } else {
        assert r[i] == l.body[i - STAMP_BYTES];
      }
    }
  }

  /** A stamp of 15 bytes, the body, a line feed. */
  ghost predicate Reads(at: seq<Byte>, l: Line) {
    |at| == 16 + |l.body| && at[..15] == Stamp(l.stamp) && at[15..|at| - 1] == l.body && at[|at| - 1] == LF
  }

  lemma RenderedReads(l: Line)
    ensures Reads(Rendered(l), l)
  {
    var r := Rendered(l);
    assert r[..15] == Stamp(l.stamp);
    assert r[15..|r| - 1] == l.body;
  }

  lemma {:induction false} LineRendered(lines: seq<Line>, k: nat)
    requires k < |lines|
    ensures Offset(lines, k) <= Offset(lines, k + 1) <= |Stream(lines)|
    ensures Stream(lines)[Offset(lines, k)..Offset(lines, k + 1)] == Rendered(lines[k])
  {
    var before := lines[..|lines| - 1];
    if k == |lines| - 1 {
      OffsetEnd(lines);
    } else {
      LineRendered(before, k);
      OffsetSame(lines, k);
      OffsetSame(lines, k + 1);
      assert Stream(lines)[Offset(before, k)..Offset(before, k + 1)] == Stream(before)[Offset(before, k)..Offset(before, k + 1)];
    }
  }

  /** Line `k` lies in the stream between its offset and the next one. */
  lemma LineLies(lines: seq<Line>, k: nat)
    requires k < |lines|
    ensures Offset(lines, k) <= Offset(lines, k + 1) <= |Stream(lines)|
    ensures Reads(Stream(lines)[Offset(lines, k)..Offset(lines, k + 1)], lines[k])
  {
    LineRendered(lines, k);
    RenderedReads(lines[k]);
  }

  /** A byte is a line feed exactly when a line ends right after it. */
  lemma {:induction false} LineFeedIff(lines: seq<Line>, at: nat)
    requires AllGood(lines) && at < |Stream(lines)|
    ensures Stream(lines)[at] == LF <==> Boundary(lines, at + 1)
  {
    var before, last := lines[..|lines| - 1], lines[|lines| - 1];
    RenderedShape(last);
    BoundaryMore(lines, at + 1);
    if at < |Stream(before)| {
      LineFeedIff(before, at);
    } else {
      assert Stream(lines)[at] == Rendered(last)[at - |Stream(before)|];
      if at + 1 < |Stream(lines)| {
        BoundaryWithin(before, at + 1);
      }
    }
  }

  lemma OffsetSame(lines: seq<Line>, k: nat)
    requires lines != [] && k < |lines|
    ensures Offset(lines, k) == Offset(lines[..|lines| - 1], k)
  {
    assert lines[..|lines| - 1][..k] == lines[..k];
  }

  lemma OffsetEnd(lines: seq<Line>)
    ensures Offset(lines, |lines|) == |Stream(lines)|
  {
    assert lines[..|lines|] == lines;
  }

  /** The boundaries of a longer stream are those of the shorter one and its end. */
  lemma BoundaryMore(lines: seq<Line>, at: int)
    requires lines != []
    ensures Boundary(lines, at) <==> Boundary(lines[..|lines| - 1], at) || at == |Stream(lines)|
  {
    var before := lines[..|lines| - 1];
    OffsetEnd(lines);
    forall k | 0 <= k < |lines|
      ensures Offset(lines, k) == Offset(before, k)
    {
      OffsetSame(lines, k);
    }
  }

  lemma {:induction false} BoundaryWithin(lines: seq<Line>, at: int)
    requires at > |Stream(lines)|
    ensures !Boundary(lines, at)
  {
    if lines != [] {
      BoundaryWithin(lines[..|lines| - 1], at);
      BoundaryMore(lines, at);
    }
  }

  /** A line ends within any 256 bytes of the stream. */
  lemma {:induction false} EndsSoon(lines: seq<Line>, at: nat) returns (p: nat)
    requires AllGood(lines) && at < |Stream(lines)|
    ensures at <= p < |Stream(lines)| && p < at + LONGEST && Stream(lines)[p] == LF
  {
    var before, last := lines[..|lines| - 1], lines[|lines| - 1];
    RenderedShape(last);
    if at < |Stream(before)| {
      p := EndsSoon(before, at);
    } else {
      p := |Stream(lines)| - 1;
    }
  }

  // ---- Reading -------------------------------------------------------------------------

  function Min(a: int, b: int): int {
    if a <= b then a else b
  }

  /** The first byte the ring still has. */
  function OldestKept(stream: seq<Byte>): nat {
    if |stream| <= RING_BYTES then 0 else |stream| - RING_BYTES
  }

  /** The first line feed from `i` on, or the end. */
  function NextFeed(stream: seq<Byte>, i: nat): (r: nat)
    requires i <= |stream|
    ensures i <= r <= |stream| && (r < |stream| ==> stream[r] == LF) && forall j :: i <= j < r ==> stream[j] != LF
    decreases |stream| - i
  {
    if i == |stream| || stream[i] == LF then i else NextFeed(stream, i + 1)
  }

  /** Where a read at `offset` begins. */
  function StartOf(stream: seq<Byte>, offset: nat): (r: nat)
    ensures r <= |stream|
  {
    if Min(offset, |stream|) >= OldestKept(stream) then Min(offset, |stream|)
    else Min(NextFeed(stream, OldestKept(stream)) + 1, |stream|)
  }

  /** The bytes a read of up to `room` bytes at `offset` returns, and the next offset. */
  function ReadAt(stream: seq<Byte>, offset: nat, room: nat): (seq<Byte>, nat) {
    var start := StartOf(stream, offset);
    var n := Min(room, |stream| - start);
    (stream[start..start + n], start + n)
  }

  /** A read at an offset still kept returns exactly that slice of the stream. */
  lemma KeptReadIsSlice(stream: seq<Byte>, offset: nat, room: nat)
    requires OldestKept(stream) <= offset <= |stream|
    ensures ReadAt(stream, offset, room) ==
            (stream[offset..Min(offset + room, |stream|)], Min(offset + room, |stream|))
  {
  }

  /** A read past the end returns nothing and goes on at the end. */
  lemma ReadPastEnd(stream: seq<Byte>, offset: nat, room: nat)
    requires offset > |stream|
    ensures ReadAt(stream, offset, room) == ([], |stream|)
  {
    assert StartOf(stream, offset) == |stream| && stream[|stream|..|stream|] == [];
  }

  /** A read at an overwritten offset starts on a line boundary, at most 256 bytes past the
      oldest byte kept. */
  lemma OverwrittenReadStarts(lines: seq<Line>, offset: nat)
    requires AllGood(lines)
    requires offset < OldestKept(Stream(lines))
    ensures var start := StartOf(Stream(lines), offset);
            Boundary(lines, start) && OldestKept(Stream(lines)) < start <= OldestKept(Stream(lines)) + LONGEST
  {
    var stream := Stream(lines);
    var oldest := OldestKept(stream);
    var p := EndsSoon(lines, oldest);
    FeedBy(stream, oldest, p);
    StartPast(stream, offset);
    LineFeedIff(lines, NextFeed(stream, oldest));
  }

  lemma FeedBy(stream: seq<Byte>, i: nat, p: nat)
    requires i <= p < |stream| && stream[p] == LF
    ensures NextFeed(stream, i) <= p
  {
  }

  lemma StartPast(stream: seq<Byte>, offset: nat)
    requires offset < OldestKept(stream) && NextFeed(stream, OldestKept(stream)) < |stream|
    ensures StartOf(stream, offset) == NextFeed(stream, OldestKept(stream)) + 1
  {
  }

  /** So the read returns the stream from the start of a line `k` on, as much as there is room
      for, and goes on after it. */
  lemma OverwrittenRead(lines: seq<Line>, offset: nat, room: nat) returns (k: nat)
    requires AllGood(lines) && offset < OldestKept(Stream(lines))
    ensures k <= |lines| && OldestKept(Stream(lines)) < Offset(lines, k) <= OldestKept(Stream(lines)) + 256
    ensures var stream, start := Stream(lines), Offset(lines, k);
            && start <= |stream|
            && var end := if room <= |stream| - start then start + room else |stream|;
               ReadAt(stream, offset, room) == (stream[start..end], end)
  {
    OverwrittenReadStarts(lines, offset);
    k :| 0 <= k <= |lines| && Offset(lines, k) == StartOf(Stream(lines), offset);
  }

  /** Such a read is the read at the first line boundary still kept exactly when the oldest byte
      kept is not itself one; when it is, a whole kept line is skipped. */
  lemma SkipsAKeptLineIff(lines: seq<Line>, offset: nat, first: nat, room: nat)
    requires AllGood(lines)
    requires offset < OldestKept(Stream(lines))
    requires first >= OldestKept(Stream(lines)) && Boundary(lines, first)
    requires forall b :: OldestKept(Stream(lines)) <= b < first ==> !Boundary(lines, b)
    ensures ReadAt(Stream(lines), offset, room) == ReadAt(Stream(lines), first, room) <==> !Boundary(lines, OldestKept(Stream(lines)))
  {
    var stream := Stream(lines);
    if first > |stream| {
      BoundaryWithin(lines, first);
    }
    SkipsStartIff(lines, offset, first);
    OtherStart(stream, offset, first, room);
  }

  /** Reads that start apart differ. */
  lemma OtherStart(stream: seq<Byte>, offset: nat, first: nat, room: nat)
    requires OldestKept(stream) <= first <= |stream|
    ensures ReadAt(stream, offset, room) == ReadAt(stream, first, room) <==> StartOf(stream, offset) == first
  {
    var start := StartOf(stream, offset);
    var n, m := Min(room, |stream| - start), Min(room, |stream| - first);
    assert StartOf(stream, first) == first;
    assert |stream[start..start + n]| == n && |stream[first..first + m]| == m;
  }

  lemma SkipsStartIff(lines: seq<Line>, offset: nat, first: nat)
    requires AllGood(lines)
    requires offset < OldestKept(Stream(lines))
    requires first >= OldestKept(Stream(lines)) && Boundary(lines, first)
    requires forall b :: OldestKept(Stream(lines)) <= b < first ==> !Boundary(lines, b)
    ensures StartOf(Stream(lines), offset) == first <==> !Boundary(lines, OldestKept(Stream(lines)))
  {
    var stream := Stream(lines);
    var oldest := OldestKept(stream);
    var feed := NextFeed(stream, oldest);
    OverwrittenReadStarts(lines, offset);
    if !Boundary(lines, oldest) {
      if first <= feed {
        LineFeedIff(lines, first - 1);
      }
    }
  }

  /** Full lines are 256 bytes each. */
  lemma {:induction false} FullOffset(lines: seq<Line>, k: nat)
    requires k <= |lines| && forall i :: 0 <= i < |lines| ==> |lines[i].body| == LINE_BYTES
    ensures Offset(lines, k) == LONGEST * k
  {
    if k > 0 {
      assert lines[..k][..k - 1] == lines[..k - 1];
      FullOffset(lines, k - 1);
    }
  }

  lemma FullLinesSkip(lines: seq<Line>)
    requires |lines| == 257 && AllGood(lines) && forall i :: 0 <= i < |lines| ==> |lines[i].body| == LINE_BYTES
    ensures OldestKept(Stream(lines)) == Offset(lines, 1) == 256 && |Stream(lines)| == 65792 && Offset(lines, 2) == 512
    ensures ReadAt(Stream(lines), 0, 65536) == (Stream(lines)[512..], 65792)
  {
    OffsetEnd(lines);
    FullOffset(lines, 257);
    FullOffset(lines, 1);
    FullOffset(lines, 2);
    var k := OverwrittenRead(lines, 0, 65536);
    FullOffset(lines, k);
    assert k == 2;
    assert Stream(lines)[512..65792] == Stream(lines)[512..];
  }

  /** That does happen: after 257 full lines the ring has lines 1 to 256, whole, and a reader
      coming from offset 0 with room for all of it is given lines 2 to 256. */
  lemma SkipsAKeptLine()
    ensures var lines := After(Typed(257 * LINE_BYTES)).lines;
            && |lines| == 257 && AllGood(lines)
            && OldestKept(Stream(lines)) == Offset(lines, 1) == 256
            && |Stream(lines)| == 65792 && Offset(lines, 2) == 512
            && ReadAt(Stream(lines), 0, 65536) == (Stream(lines)[512..], 65792)
  {
    var a := Filling(257 * LINE_BYTES, 257, 0);
    SourcedRuns(Typed(257 * LINE_BYTES));
    RunningGood(Typed(257 * LINE_BYTES));
    FullLinesSkip(a.lines);
  }

  /** Reading in two pieces gives what one read gives. */
  lemma PiecesConcatenate(stream: seq<Byte>, offset: nat, a: nat, b: nat)
    ensures var (one, next) := ReadAt(stream, offset, a);
            var (two, end) := ReadAt(stream, next, b);
            ReadAt(stream, offset, a + b) == (one + two, end)
  {
    var start := StartOf(stream, offset);
    assert start >= OldestKept(stream);
    var (one, next) := ReadAt(stream, offset, a);
    assert StartOf(stream, next) == next;
    var two := ReadAt(stream, next, b).0;
    assert stream[start..start + |one|] + stream[next..next + |two|] == stream[start..next + |two|];
  }
}
