/** How the kernel log assembles lines from the pieces its sources write (kernel/src/kmsg.rs,
    `append`, `slot_for`, `commit`): eight unfinished lines at a time, one per source. */
module LogLines {
  import opened Bytes
  import opened Objects

  const FREE := U64_MAX
  const PENDING_SLOTS := 8
  const LINE_BYTES := 240
  const LF: Byte := 10
  const CR: Byte := 13

  /** An unfinished line: `body` is the used part of its buffer. A slot whose source is `FREE`
      still has the body it last had. `order` counts the lines started before it. */
  datatype Slot = Slot(source: nat, stamp: nat, body: seq<Byte>, order: nat)

  /** A kept line. `why` says what ended it. */
  datatype Reason = AtNewline | AtFull | Evicted
  datatype Line = Line(source: nat, stamp: nat, body: seq<Byte>, why: Reason)

  datatype Assembly = Assembly(slots: seq<Slot>, next: nat, lines: seq<Line>)

  /** The first slot from `i` on that belongs to `source`. */
  function Find(slots: seq<Slot>, source: nat, i: nat): (r: Option<nat>)
    requires i <= |slots|
    ensures r.Some? ==> i <= r.value < |slots| && slots[r.value].source == source
    ensures r.None? ==> forall j :: i <= j < |slots| ==> slots[j].source != source
    decreases |slots| - i
  {
    if i == |slots| then None else if slots[i].source == source then Some(i) else Find(slots, source, i + 1)
  }

  /** The slot of least order among the first `n`, the earliest such one. */
  function Oldest(slots: seq<Slot>, n: nat): (r: nat)
    requires 0 < n <= |slots|
    ensures r < n && forall j :: 0 <= j < n ==> slots[r].order <= slots[j].order
  {
    if n == 1 then 0
    else
      var r := Oldest(slots, n - 1);
      if slots[n - 1].order < slots[r].order then n - 1 else r
  }

  function LineOf(slot: Slot, why: Reason): Line {
    Line(slot.source, slot.stamp, slot.body, why)
  }

  function Commit(a: Assembly, i: nat, why: Reason): Assembly
    requires i < |a.slots|
  {
    a.(slots := a.slots[i := a.slots[i].(source := FREE)], lines := a.lines + [LineOf(a.slots[i], why)])
  }

  /** No slot is the source's and none is free. */
  predicate Crowded(slots: seq<Slot>, source: nat) {
    Find(slots, source, 0).None? && Find(slots, FREE, 0).None?
  }

  function Started(a: Assembly, i: nat, source: nat, now: nat): Assembly
    requires i < |a.slots|
  {
    a.(slots := a.slots[i := Slot(source, now, [], a.next)], next := a.next + 1)
  }

  /** `slot_for`. */
  function Ready(a: Assembly, source: nat, now: nat): (r: (Assembly, nat))
    requires |a.slots| == PENDING_SLOTS
    ensures |r.0.slots| == PENDING_SLOTS && r.1 < PENDING_SLOTS && r.0.slots[r.1].source == source
  {
    match Find(a.slots, source, 0)
    case Some(i) => (a, i)
    case None =>
      match Find(a.slots, FREE, 0)
      case Some(i) => (Started(a, i, source, now), i)
      case None =>
        var i := Oldest(a.slots, PENDING_SLOTS);
        (Started(Commit(a, i, Evicted), i, source, now), i)
  }

  /** The buffer access `append` makes for this byte is in range. */
  predicate InRange(a: Assembly, source: nat, byte: Byte, now: nat)
    requires |a.slots| == PENDING_SLOTS
  {
    var (b, i) := Ready(a, source, now);
    byte == LF || byte == CR || |b.slots[i].body| < LINE_BYTES
  }

  /** One byte of `append`. */
  function Fed(a: Assembly, source: nat, byte: Byte, now: nat): (r: Assembly)
    requires |a.slots| == PENDING_SLOTS
    ensures |r.slots| == PENDING_SLOTS
  {
    var (b, i) := Ready(a, source, now);
    if byte == LF then Commit(b, i, AtNewline)
    else if byte == CR then b
    else
      var c := b.(slots := b.slots[i := b.slots[i].(body := b.slots[i].body + [byte])]);
      if |c.slots[i].body| == LINE_BYTES then Commit(c, i, AtFull) else c
  }

  // ---- The invariant -------------------------------------------------------------------

  predicate Busy(s: Slot) {
    s.source != FREE
  }

  ghost predicate Plain(body: seq<Byte>) {
    |body| <= LINE_BYTES && LF !in body && CR !in body
  }

  ghost predicate GoodSlots(slots: seq<Slot>, next: nat) {
    && (forall i :: 0 <= i < |slots| ==>
          Plain(slots[i].body) && (Busy(slots[i]) ==> |slots[i].body| < LINE_BYTES && slots[i].order < next))
    && (forall i, j :: 0 <= i < j < |slots| && Busy(slots[i]) && Busy(slots[j]) ==>
          slots[i].source != slots[j].source && slots[i].order != slots[j].order)
  }

  ghost predicate GoodLine(l: Line) {
    Plain(l.body) && (l.source != FREE ==> (l.why.AtFull? <==> |l.body| == LINE_BYTES))
  }

  ghost predicate Good(a: Assembly) {
    && |a.slots| == PENDING_SLOTS && GoodSlots(a.slots, a.next)
    && (forall i :: 0 <= i < |a.lines| ==> GoodLine(a.lines[i]))
  }

  lemma ReadyGood(a: Assembly, source: nat, now: nat)
    requires Good(a)
    ensures var (b, i) := Ready(a, source, now); Good(b) && (source != FREE ==> |b.slots[i].body| < LINE_BYTES)
  {
  }

  /** Every byte from a source but `u64::MAX` finds room in its buffer. */
  lemma SourcedInRange(a: Assembly, source: nat, byte: Byte, now: nat)
    requires Good(a) && source != FREE
    ensures InRange(a, source, byte, now)
  {
    ReadyGood(a, source, now);
  }

  /** A byte that finds room leaves the assembly good. */
  lemma FedGood(a: Assembly, source: nat, byte: Byte, now: nat)
    requires Good(a) && InRange(a, source, byte, now)
    ensures Good(Fed(a, source, byte, now))
  {
    ReadyGood(a, source, now);
    var (b, i) := Ready(a, source, now);
    if byte != LF && byte != CR {
      GrownGood(b, i, byte);
    }
  }

  lemma GrownGood(b: Assembly, i: nat, byte: Byte)
    requires Good(b) && i < PENDING_SLOTS && |b.slots[i].body| < LINE_BYTES && byte != LF && byte != CR
    ensures var c := b.(slots := b.slots[i := b.slots[i].(body := b.slots[i].body + [byte])]);
            if |c.slots[i].body| == LINE_BYTES then Good(Commit(c, i, AtFull)) else Good(c)
  {
  }

  // ---- Nothing lost, nothing mixed -----------------------------------------------------

  /** The bytes of `source` among kept lines. */
  function Bodies(lines: seq<Line>, source: nat): seq<Byte> {
    if lines == [] then []
    else
      var before, last := Bodies(lines[..|lines| - 1], source), lines[|lines| - 1];
      if last.source == source then before + last.body else before
  }

  function PendingBody(slots: seq<Slot>, source: nat): seq<Byte> {
    match Find(slots, source, 0)
    case None => []
    case Some(i) => slots[i].body
  }

  /** All the log has of `source`. */
  function Collected(a: Assembly, source: nat): seq<Byte> {
    Bodies(a.lines, source) + PendingBody(a.slots, source)
  }

  lemma FindIs(slots: seq<Slot>, next: nat, i: nat)
    requires GoodSlots(slots, next) && i < |slots| && Busy(slots[i])
    ensures Find(slots, slots[i].source, 0) == Some(i)
  {
  }

  lemma FindOnly(slots: seq<Slot>, i: nat)
    requires i < |slots| && forall j :: 0 <= j < |slots| && j != i ==> slots[j].source != slots[i].source
    ensures Find(slots, slots[i].source, 0) == Some(i)
  {
  }

  /** Changing one slot does not change where another source's line is. */
  lemma PendingElsewhere(slots: seq<Slot>, i: nat, s: Slot, source: nat)
    requires i < |slots| && slots[i].source != source && s.source != source
    ensures PendingBody(slots[i := s], source) == PendingBody(slots, source)
  {
    FindElsewhere(slots, i, s, source, 0);
  }

  lemma {:induction false} FindElsewhere(slots: seq<Slot>, i: nat, s: Slot, source: nat, k: nat)
    requires i < |slots| && slots[i].source != source && s.source != source && k <= |slots|
    ensures Find(slots[i := s], source, k) == Find(slots, source, k)
    decreases |slots| - k
  {
    if k < |slots| {
      FindElsewhere(slots, i, s, source, k + 1);
    }
  }

  lemma CommitCollects(a: Assembly, i: nat, why: Reason, source: nat)
    requires GoodSlots(a.slots, a.next) && i < |a.slots| && source != FREE
    ensures Collected(Commit(a, i, why), source) == Collected(a, source)
  {
    var c := Commit(a, i, why);
    assert c.lines[..|c.lines| - 1] == a.lines;
    if a.slots[i].source == source {
      FindIs(a.slots, a.next, i);
      assert Find(c.slots, source, 0) == None;
    } else {
      PendingElsewhere(a.slots, i, a.slots[i].(source := FREE), source);
    }
  }

  lemma StartCollects(a: Assembly, i: nat, source: nat, now: nat, other: nat)
    requires i < |a.slots| && !Busy(a.slots[i]) && other != FREE && (source != FREE ==> Find(a.slots, source, 0).None?)
    ensures Collected(Started(a, i, source, now), other) == Collected(a, other)
  {
    var b := Started(a, i, source, now);
    if other == source {
      assert PendingBody(b.slots, source) == [];
    } else {
      PendingElsewhere(a.slots, i, b.slots[i], other);
    }
  }

  lemma ReadyCollects(a: Assembly, source: nat, now: nat, other: nat)
    requires Good(a) && other != FREE
    ensures Collected(Ready(a, source, now).0, other) == Collected(a, other)
  {
    if Find(a.slots, source, 0).None? {
      match Find(a.slots, FREE, 0)
      case Some(i) => StartCollects(a, i, source, now, other);
      case None =>
        var i := Oldest(a.slots, PENDING_SLOTS);
        CommitCollects(a, i, Evicted, other);
        StartCollects(Commit(a, i, Evicted), i, source, now, other);
    }
  }

  function Kept(byte: Byte): seq<Byte> {
    if byte == LF || byte == CR then [] else [byte]
  }

  lemma GrowCollects(b: Assembly, i: nat, byte: Byte, other: nat)
    requires Good(b) && i < PENDING_SLOTS && other != FREE && byte != LF && byte != CR
    ensures var c := b.(slots := b.slots[i := b.slots[i].(body := b.slots[i].body + [byte])]);
            && Collected(c, other) == (if other == b.slots[i].source then Collected(b, other) + [byte] else Collected(b, other))
            && (|c.slots[i].body| == LINE_BYTES ==> Collected(Commit(c, i, AtFull), other) == Collected(c, other))
  {
    var c := b.(slots := b.slots[i := b.slots[i].(body := b.slots[i].body + [byte])]);
    if other == b.slots[i].source {
      FindIs(b.slots, b.next, i);
      FindOnly(c.slots, i);
      assert Collected(c, other) == Bodies(b.lines, other) + (PendingBody(b.slots, other) + [byte]);
    } else {
      PendingElsewhere(b.slots, i, c.slots[i], other);
    }
    if |c.slots[i].body| == LINE_BYTES {
      FullCollects(c, i, other);
    }
  }

  lemma FullCollects(c: Assembly, i: nat, other: nat)
    requires i < |c.slots| && other != FREE
    requires Busy(c.slots[i]) ==> forall j :: 0 <= j < |c.slots| && j != i ==> c.slots[j].source != c.slots[i].source
    ensures Collected(Commit(c, i, AtFull), other) == Collected(c, other)
  {
    var d := Commit(c, i, AtFull);
    assert d.lines[..|d.lines| - 1] == c.lines;
    if c.slots[i].source == other {
      assert Find(c.slots, other, 0) == Some(i) && Find(d.slots, other, 0) == None;
    } else {
      PendingElsewhere(c.slots, i, d.slots[i], other);
    }
  }

  /** One byte adds itself to its own source, unless it is CR or LF, and nothing to another. */
  lemma FedCollects(a: Assembly, source: nat, byte: Byte, now: nat, other: nat)
    requires Good(a) && other != FREE
    ensures Collected(Fed(a, source, byte, now), other) ==
            if other == source then Collected(a, other) + Kept(byte) else Collected(a, other)
  {
    var (b, i) := Ready(a, source, now);
    ReadyGood(a, source, now);
    ReadyCollects(a, source, now, other);
    if byte == LF {
      CommitCollects(b, i, AtNewline, other);
    } else if byte != CR {
      GrowCollects(b, i, byte, other);
    }
  }

  // ---- What ends a line ----------------------------------------------------------------

  /** The lines one byte keeps: first, if every slot is busy with someone else's line, the line
      started earliest, as it stands; then the source's own line, if this byte is a line feed
      or fills it. Nothing else ends a line. */
  lemma FedLines(a: Assembly, source: nat, byte: Byte, now: nat)
    requires |a.slots| == PENDING_SLOTS
    ensures var (b, i) := Ready(a, source, now);
            var evicted := if Crowded(a.slots, source) then [LineOf(a.slots[Oldest(a.slots, PENDING_SLOTS)], Evicted)] else [];
            var grown := b.slots[i].(body := b.slots[i].body + Kept(byte));
            var ended := if byte == LF then [LineOf(grown, AtNewline)]
                         else if byte != CR && |b.slots[i].body| == LINE_BYTES - 1 then [LineOf(grown, AtFull)] else [];
            Fed(a, source, byte, now).lines == a.lines + evicted + ended
  {
    var (b, i) := Ready(a, source, now);
    assert byte == LF ==> b.slots[i].body + Kept(byte) == b.slots[i].body;
    assert a.lines + [] == a.lines;
  }

  /** A line starts empty, with the time of its first byte, younger than every other one. */
  lemma StartsFresh(a: Assembly, source: nat, now: nat)
    requires Good(a) && source != FREE && Find(a.slots, source, 0).None?
    ensures var (b, i) := Ready(a, source, now);
            && b.slots[i] == Slot(source, now, [], a.next)
            && forall j :: 0 <= j < PENDING_SLOTS && j != i ==> b.slots[j] == a.slots[j] && (Busy(b.slots[j]) ==> b.slots[j].order < a.next)
  {
  }

  // ---- Whole histories -----------------------------------------------------------------

  /** A byte a source wrote, and when. */
  datatype Piece = Piece(source: nat, byte: Byte, now: nat)

  function NoLines(): (a: Assembly)
    ensures Good(a) && a.lines == []
  {
    Assembly(seq(PENDING_SLOTS, i => Slot(FREE, 0, [], 0)), 0, [])
  }

  function After(history: seq<Piece>): (a: Assembly)
    ensures |a.slots| == PENDING_SLOTS
  {
    if history == [] then NoLines()
    else
      var last := history[|history| - 1];
      Fed(After(history[..|history| - 1]), last.source, last.byte, last.now)
  }

  /** What `source` wrote, without CR and LF. */
  function Text(history: seq<Piece>, source: nat): seq<Byte> {
    if history == [] then []
    else
      var last := history[|history| - 1];
      var before := Text(history[..|history| - 1], source);
      if last.source == source then before + Kept(last.byte) else before
  }

  /** Every byte found room in its buffer; the kernel stops at the first that does not. */
  predicate Running(history: seq<Piece>) {
    history != [] ==>
      var before, last := history[..|history| - 1], history[|history| - 1];
      Running(before) && InRange(After(before), last.source, last.byte, last.now)
  }

  /** That is so whenever no source is `u64::MAX`. */
  lemma {:induction false} SourcedRuns(history: seq<Piece>)
    requires forall i :: 0 <= i < |history| ==> history[i].source != FREE
    ensures Running(history)
  {
    if history != [] {
      var before, last := history[..|history| - 1], history[|history| - 1];
      SourcedRuns(before);
      RunningGood(before);
      SourcedInRange(After(before), last.source, last.byte, last.now);
    }
  }

  lemma {:induction false} RunningGood(history: seq<Piece>)
    requires Running(history)
    ensures Good(After(history))
  {
    if history != [] {
      var before, last := history[..|history| - 1], history[|history| - 1];
      RunningGood(before);
      FedGood(After(before), last.source, last.byte, last.now);
    }
  }

  /** Whatever the sources write and however their pieces interleave: every source's kept
      lines and its unfinished line are together exactly what it wrote, in order, without CR
      and LF; and every kept line is within length and free of both. */
  lemma {:induction false} HistoryKept(history: seq<Piece>, source: nat)
    requires Running(history) && source != FREE
    ensures Good(After(history)) && Collected(After(history), source) == Text(history, source)
  {
    RunningGood(history);
    if history == [] {
      assert Find(NoLines().slots, source, 0) == None;
    } else {
      var before, last := history[..|history| - 1], history[|history| - 1];
      RunningGood(before);
      HistoryKept(before, source);
      FedCollects(After(before), last.source, last.byte, last.now, source);
    }
  }

  // ---- The reserved source -------------------------------------------------------------

  /** A source numbered `u64::MAX` is taken for a free slot and writes after whatever that slot
      last held: its byte falls outside the buffer exactly when the first free slot last held
      a full line. */
  lemma ReservedSourceIff(a: Assembly, byte: Byte, now: nat)
    requires Good(a) && byte != LF && byte != CR
    ensures !InRange(a, FREE, byte, now) <==>
            Find(a.slots, FREE, 0).Some? && |a.slots[Find(a.slots, FREE, 0).value].body| == LINE_BYTES
  {
  }

  /** `n` letters written by the kernel's own source. */
  function Typed(n: nat): (r: seq<Piece>)
    ensures |r| == n
  {
    seq(n, i => Piece(0, 65, 0))
  }

  /** `k` full lines and `n` more bytes of the kernel's own source, and of no other. */
  ghost predicate Filled(a: Assembly, k: nat, n: nat) {
    && |a.lines| == k && (forall i :: 0 <= i < k ==> |a.lines[i].body| == LINE_BYTES)
    && |a.slots| == PENDING_SLOTS && (forall j :: 0 < j < PENDING_SLOTS ==> a.slots[j].source == FREE)
    && a.slots[0].source == (if n > 0 then 0 else FREE)
    && |a.slots[0].body| == (if n > 0 then n else if k > 0 then LINE_BYTES else 0)
  }

  lemma FillsNext(a: Assembly, k: nat, n: nat)
    requires Filled(a, k, n) && n < LINE_BYTES
    ensures n + 1 < LINE_BYTES ==> Filled(Fed(a, 0, 65, 0), k, n + 1)
    ensures n + 1 == LINE_BYTES ==> Filled(Fed(a, 0, 65, 0), k + 1, 0)
  {
    if n == 0 {
      assert Find(a.slots, 0, 0) == None;
    }
    var (b, i) := Ready(a, 0, 0);
    assert i == 0 && |b.slots[0].body| == n;
  }

  lemma TypedNext(all: nat, k: nat, n: nat, a: Assembly) returns (b: Assembly)
    requires 0 < all && a == After(Typed(all - 1)) && Filled(a, k, n) && n < LINE_BYTES
    ensures b == After(Typed(all))
    ensures if n + 1 < LINE_BYTES then Filled(b, k, n + 1) else Filled(b, k + 1, 0)
  {
    b := Fed(a, 0, 65, 0);
    FillsNext(a, k, n);
    assert Typed(all)[..all - 1] == Typed(all - 1);
  }

  lemma TypedNone()
    ensures After(Typed(0)) == NoLines() && Filled(NoLines(), 0, 0)
  {
  }

  /** What that source leaves behind. */
  lemma {:induction false} Filling(all: nat, k: nat, n: nat) returns (a: Assembly)
    requires all == k * LINE_BYTES + n && n < LINE_BYTES
    ensures a == After(Typed(all)) && Filled(a, k, n)
    decreases all
  {
    if n > 0 {
      a := Filling(all - 1, k, n - 1);
      a := TypedNext(all, k, n - 1, a);
    } else if k > 0 {
      a := Filling(all - 1, k - 1, LINE_BYTES - 1);
      a := TypedNext(all, k - 1, LINE_BYTES - 1, a);
    } else {
      TypedNone();
      a := NoLines();
    }
  }

  /** After one full line the reserved source does write outside the buffer. */
  lemma ReservedSourceOverruns()
    ensures Running(Typed(LINE_BYTES)) && !InRange(After(Typed(LINE_BYTES)), FREE, 65, 0)
  {
    SourcedRuns(Typed(LINE_BYTES));
    var a := Filling(LINE_BYTES, 1, 0);
  }
}
