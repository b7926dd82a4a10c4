/** The kernel log as the object it is (kernel/src/kmsg.rs, `Log`): a 64 KiB ring written byte
    by byte, refining the unbounded stream of kept lines. */
module KernelLogs {
  import opened Bytes
  import opened Objects
  import opened LogLines
  import opened LogStamps
  import opened LogStream

  /** The ring has the last 64 KiB of the stream. */
  ghost predicate Holds(ring: seq<Byte>, stream: seq<Byte>) {
    && |ring| == RING_BYTES
    && forall at :: OldestKept(stream) <= at < |stream| ==> ring[at % RING_BYTES] == stream[at]
  }

  lemma HoldsNext(ring: seq<Byte>, stream: seq<Byte>, byte: Byte)
    requires Holds(ring, stream)
    ensures Holds(ring[|stream| % RING_BYTES := byte], stream + [byte])
  {
    var n := |stream|;
    forall at | OldestKept(stream + [byte]) <= at < n + 1
      ensures ring[n % RING_BYTES := byte][at % RING_BYTES] == (stream + [byte])[at]
    {
      if at < n {
        Apart(at, n);
      }
    }
  }

  lemma Apart(a: nat, b: nat)
    requires a < b < a + RING_BYTES
    ensures a % RING_BYTES != b % RING_BYTES
  {
  }

  /** All the lines of `append`, byte by byte. */
  function FedAll(a: Assembly, source: nat, bytes: seq<Byte>, now: nat): (r: Assembly)
    requires |a.slots| == PENDING_SLOTS
    ensures |r.slots| == PENDING_SLOTS
  {
    if bytes == [] then a
    else Fed(FedAll(a, source, bytes[..|bytes| - 1], now), source, bytes[|bytes| - 1], now)
  }

  /** Every byte of a write finds room. */
  predicate Fits(a: Assembly, source: nat, bytes: seq<Byte>, now: nat)
    requires |a.slots| == PENDING_SLOTS
  {
    bytes != [] ==>
      var before, last := bytes[..|bytes| - 1], bytes[|bytes| - 1];
      Fits(a, source, before, now) && InRange(FedAll(a, source, before, now), source, last, now)
  }

  /** `a` took the first `n` bytes of a write after `from`, and each found room. */
  ghost predicate Took(from: Assembly, source: nat, bytes: seq<Byte>, now: nat, n: nat, a: Assembly) {
    && |from.slots| == PENDING_SLOTS && n <= |bytes|
    && a == FedAll(from, source, bytes[..n], now) && Fits(from, source, bytes[..n], now)
  }

  lemma TookMore(from: Assembly, source: nat, bytes: seq<Byte>, now: nat, n: nat, a: Assembly)
    requires Took(from, source, bytes, now, n, a) && n < |bytes| && InRange(a, source, bytes[n], now)
    ensures Took(from, source, bytes, now, n + 1, Fed(a, source, bytes[n], now))
  {
    assert bytes[..n + 1][..n] == bytes[..n];
  }

  function Pieces(source: nat, bytes: seq<Byte>, now: nat): (r: seq<Piece>)
    ensures |r| == |bytes|
  {
    seq(|bytes|, i requires 0 <= i < |bytes| => Piece(source, bytes[i], now))
  }

  lemma PiecesMore(history: seq<Piece>, source: nat, bytes: seq<Byte>, now: nat)
    requires bytes != []
    ensures var all, n := history + Pieces(source, bytes, now), |bytes| - 1;
            && all[..|all| - 1] == history + Pieces(source, bytes[..n], now)
            && all[|all| - 1] == Piece(source, bytes[n], now)
  {
  }

  /** So a log that took writes in turn is the assembly after that history of bytes. */
  lemma {:induction false} WritesAreHistory(history: seq<Piece>, source: nat, bytes: seq<Byte>, now: nat)
    ensures FedAll(After(history), source, bytes, now) == After(history + Pieces(source, bytes, now))
    ensures Running(history) && Fits(After(history), source, bytes, now) ==> Running(history + Pieces(source, bytes, now))
  {
    if bytes == [] {
      assert history + Pieces(source, bytes, now) == history;
    } else {
      WritesAreHistory(history, source, bytes[..|bytes| - 1], now);
      PiecesMore(history, source, bytes, now);
    }
  }

  class Log {
    const ring: array<Byte>
    var written: nat
    var pending: seq<Slot>
    var nextOrder: nat
    ghost var lines: seq<Line>
    ghost var stream: seq<Byte>

    ghost function View(): Assembly
      reads this
    {
      Assembly(pending, nextOrder, lines)
    }

    /** The ring agrees with the bytes written so far. */
    ghost predicate Streaming()
      reads this, ring
    {
      ring.Length == RING_BYTES && written == |stream| && Holds(ring[..], stream)
    }

    ghost predicate Valid()
      reads this, ring
    {
      Streaming() && stream == Stream(lines) && Good(View())
    }

    constructor ()
      ensures Valid() && fresh(ring) && View() == NoLines()
    {
      ring := new Byte[RING_BYTES](i => 0);
      written := 0;
      pending := NoLines().slots;
      nextOrder := 0;
      lines := [];
      stream := [];
    }

    method Push(bytes: seq<Byte>)
      requires Streaming()
      modifies this`written, this`stream, ring
      ensures Streaming() && stream == old(stream) + bytes
    {
      var i := 0;
      while i < |bytes|
        invariant 0 <= i <= |bytes| && Streaming() && stream == old(stream) + bytes[..i]
      {
        HoldsNext(ring[..], stream, bytes[i]);
        ring[written % RING_BYTES] := bytes[i];
        written := written + 1;
        stream := stream + [bytes[i]];
        i := i + 1;
      }
      assert bytes[..i] == bytes;
    }

    method CommitSlot(i: nat, ghost why: Reason)
      requires Streaming() && stream == Stream(lines) && i < |pending|
      modifies this, ring
      ensures Streaming() && stream == Stream(lines) && View() == Commit(old(View()), i, why)
    {
      var slot := pending[i];
      pending := pending[i := slot.(source := FREE)];
      var stamp := new Byte[16](i => 0);
      var len := FormatStamp(slot.stamp, stamp);
      Push(stamp[..len]);
      Push(slot.body);
      Push([LF]);
      lines := lines + [LineOf(slot, why)];
      assert lines[..|lines| - 1] == old(lines);
      assert stream == old(stream) + Rendered(LineOf(slot, why));
    }

    method FindSlot(source: nat) returns (r: Option<nat>)
      ensures r == Find(pending, source, 0)
    {
      var i := 0;
      while i < |pending|
        invariant 0 <= i <= |pending| && Find(pending, source, 0) == Find(pending, source, i)
      {
        if pending[i].source == source {
          return Some(i);
        }
        i := i + 1;
      }
      return None;
    }

    method FindOldest() returns (r: nat)
      requires |pending| == PENDING_SLOTS
      ensures r == Oldest(pending, PENDING_SLOTS)
    {
      r := 0;
      for n := 1 to PENDING_SLOTS
        invariant r == Oldest(pending, n)
      {
        if pending[n].order < pending[r].order {
          r := n;
        }
      }
    }

    method SlotFor(source: nat, now: nat) returns (i: nat)
      requires Streaming() && stream == Stream(lines) && |pending| == PENDING_SLOTS
      modifies this, ring
      ensures Streaming() && stream == Stream(lines) && (View(), i) == Ready(old(View()), source, now)
    {
      var found := FindSlot(source);
      if found.Some? {
        return found.value;
      }
      var free := FindSlot(FREE);
      if free.Some? {
        i := free.value;
      } else {
        i := FindOldest();
        CommitSlot(i, Evicted);
      }
      pending := pending[i := Slot(source, now, [], nextOrder)];
      nextOrder := nextOrder + 1;
    }

    /** `fits` is false when the buffer access falls outside the buffer; nothing has changed then. */
    method AppendByte(source: nat, byte: Byte, now: nat) returns (fits: bool)
      requires Valid()
      modifies this, ring
      ensures Valid() && fits == InRange(old(View()), source, byte, now)
      ensures View() == if fits then Fed(old(View()), source, byte, now) else old(View())
    {
      fits := true;
      if source != FREE {
        SourcedInRange(View(), source, byte, now);
      }
      if InRange(View(), source, byte, now) {
        FedGood(View(), source, byte, now);
      }
      var slot := SlotFor(source, now);
      if byte == LF {
        CommitSlot(slot, AtNewline);
        return;
      }
      if byte == CR {
        return;
      }
      if |pending[slot].body| >= LINE_BYTES {
        return false;
      }
      pending := pending[slot := pending[slot].(body := pending[slot].body + [byte])];
      if |pending[slot].body| == LINE_BYTES {
        CommitSlot(slot, AtFull);
      }
    }

    /** The bytes taken: all of them, unless one from `u64::MAX` falls outside its buffer. */
    method Append(source: nat, bytes: seq<Byte>, now: nat) returns (taken: nat)
      requires Valid()
      modifies this, ring
      ensures Valid() && Took(old(View()), source, bytes, now, taken, View())
      ensures source != FREE ==> taken == |bytes|
      ensures taken < |bytes| ==> !InRange(View(), source, bytes[taken], now)
    {
      ghost var from := View();
      taken := 0;
      while taken < |bytes|
        invariant taken <= |bytes| && Valid() && Took(from, source, bytes, now, taken, View())
      {
        ghost var was := View();
        if source != FREE {
          SourcedInRange(was, source, bytes[taken], now);
        }
        var fits := AppendByte(source, bytes[taken], now);
        if !fits {
          return;
        }
        TookMore(from, source, bytes, now, taken, was);
        taken := taken + 1;
      }
    }

    function ByteAt(at: nat): (r: Byte)
      requires Streaming() && OldestKept(stream) <= at < |stream|
      reads this, ring
      ensures r == stream[at]
    {
      assert ring[..][at % RING_BYTES] == stream[at];
      ring[at % RING_BYTES]
    }

    /** Where a read at `offset` begins. */
    method FindStart(offset: nat) returns (start: nat)
      requires Streaming()
      ensures start == StartOf(stream, offset) && OldestKept(stream) <= start <= |stream|
    {
      var oldest := if written <= RING_BYTES then 0 else written - RING_BYTES;
      start := if offset <= written then offset else written;
      if start < oldest {
        start := oldest;
        while start < written && ByteAt(start) != LF
          invariant oldest <= start <= written && NextFeed(stream, oldest) == NextFeed(stream, start)
        {
          start := start + 1;
        }
        start := if start + 1 <= written then start + 1 else written;
      }
    }

    /** Fill `dest` from `offset`: the bytes copied and where to go on. */
    method ReadInto(offset: nat, dest: array<Byte>) returns (n: nat, next: nat)
      requires Valid() && dest != ring
      modifies dest
      ensures n <= dest.Length && (dest[..n], next) == ReadAt(Stream(lines), offset, dest.Length)
      ensures dest[n..] == old(dest[n..])
    {
      var start := FindStart(offset);
      n := if dest.Length <= written - start then dest.Length else written - start;
      CopyOut(start, n, dest);
      next := start + n;
    }

    method CopyOut(start: nat, n: nat, dest: array<Byte>)
      requires Streaming() && OldestKept(stream) <= start && start + n <= |stream| && n <= dest.Length && dest != ring
      modifies dest
      ensures dest[..n] == stream[start..start + n] && dest[n..] == old(dest[n..])
    {
      var i := 0;
      while i < n
        invariant 0 <= i <= n && dest[..i] == stream[start..start + i] && dest[n..] == old(dest[n..])
      {
        dest[i] := ByteAt(start + i);
        i := i + 1;
        assert stream[start..start + i] == stream[start..start + (i - 1)] + [stream[start + (i - 1)]];
        assert dest[..i] == dest[..i - 1] + [dest[i - 1]];
      }
    }
  }
}
