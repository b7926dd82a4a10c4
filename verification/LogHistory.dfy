/** Where every kept line of the kernel log came from (kernel/src/kmsg.rs, `append`, `slot_for`):
    the byte that started it, the byte that ended it, and why. */
module LogHistory {
  import opened Bytes
  import opened Objects
  import opened LogLines

  /** The last byte of `source` that found no unfinished line of its source. */
  function StartedAt(history: seq<Piece>, source: nat): nat {
    if history == [] then 0
    else
      var before, last := history[..|history| - 1], history[|history| - 1];
      if last.source == source && Find(After(before).slots, source, 0).None? then |before| else StartedAt(before, source)
  }

  /** Byte `m` started a line of `source`. */
  ghost predicate Starts(history: seq<Piece>, source: nat, m: nat) {
    m < |history| && history[m].source == source && Find(After(history[..m]).slots, source, 0).None?
  }

  /** The slot has the time of the byte that started its line, and what its source wrote since. */
  ghost predicate From(history: seq<Piece>, s: Slot) {
    var m := StartedAt(history, s.source);
    Starts(history, s.source, m) && s.stamp == history[m].now && s.body == Text(history[m..], s.source)
  }

  /** So it is with every unfinished line, and their order is that of their first bytes. */
  ghost predicate Told(history: seq<Piece>, slots: seq<Slot>) {
    && (forall i :: 0 <= i < |slots| && Busy(slots[i]) ==> From(history, slots[i]))
    && (forall i, j :: 0 <= i < |slots| && 0 <= j < |slots| && Busy(slots[i]) && Busy(slots[j]) ==>
          (slots[i].order < slots[j].order <==> StartedAt(history, slots[i].source) < StartedAt(history, slots[j].source)))
  }

  // ---- One more byte -------------------------------------------------------------------

  lemma {:induction false} StartsStill(history: seq<Piece>, source: nat, m: nat)
    requires history != [] && Starts(history[..|history| - 1], source, m)
    ensures Starts(history, source, m)
  {
    assert history[..|history| - 1][..m] == history[..m];
  }

  lemma {:induction false} TextMore(history: seq<Piece>, source: nat, m: nat)
    requires m < |history|
    ensures var n := |history| - 1;
            Text(history[m..], source) == Text(history[..n][m..], source) + if history[n].source == source then Kept(history[n].byte) else []
  {
    var n := |history| - 1;
    assert history[m..][..n - m] == history[..n][m..];
    assert history[m..][n - m] == history[n];
  }

  /** Another source's byte, or one more of the line's own. */
  lemma {:induction false} FromStill(history: seq<Piece>, s: Slot)
    requires history != [] && From(history[..|history| - 1], s)
    requires history[|history| - 1].source == s.source ==> Find(After(history[..|history| - 1]).slots, s.source, 0).Some?
    ensures var last := history[|history| - 1];
            From(history, s.(body := s.body + if last.source == s.source then Kept(last.byte) else []))
    ensures StartedAt(history, s.source) == StartedAt(history[..|history| - 1], s.source)
  {
    var m := StartedAt(history[..|history| - 1], s.source);
    StartsStill(history, s.source, m);
    TextMore(history, s.source, m);
  }

  /** The first byte of a line. */
  lemma {:induction false} FromFirst(history: seq<Piece>, s: Slot)
    requires history != []
    requires var before, last := history[..|history| - 1], history[|history| - 1];
             && Find(After(before).slots, last.source, 0).None?
             && s.source == last.source && s.stamp == last.now && s.body == Kept(last.byte)
    ensures From(history, s) && StartedAt(history, s.source) == |history| - 1
  {
    TextMore(history, s.source, |history| - 1);
  }

  /** One byte touches one slot: the one its source has, or a new line's. */
  lemma {:induction false} FedShape(a: Assembly, source: nat, byte: Byte, now: nat)
    requires Good(a)
    ensures var (b, i) := Ready(a, source, now);
            var c := Fed(a, source, byte, now);
            && (forall j :: 0 <= j < PENDING_SLOTS && j != i ==> c.slots[j] == a.slots[j] && (Busy(a.slots[j]) ==> a.slots[j].source != source))
            && (Busy(c.slots[i]) ==> source != FREE && c.slots[i] == b.slots[i].(body := b.slots[i].body + Kept(byte)))
            && b.slots[i] == (if Find(a.slots, source, 0).Some? then a.slots[i] else Slot(source, now, [], a.next))
  {
  }

  /** The slot a byte goes to, with that byte, is told by the longer history. */
  lemma {:induction false} FromReady(history: seq<Piece>)
    requires history != []
    requires var before, last := history[..|history| - 1], history[|history| - 1];
             Good(After(before)) && Told(before, After(before).slots) && last.source != FREE
    ensures var before, last := history[..|history| - 1], history[|history| - 1];
            var (b, i) := Ready(After(before), last.source, last.now);
            From(history, b.slots[i].(body := b.slots[i].body + Kept(last.byte)))
  {
    var before, last := history[..|history| - 1], history[|history| - 1];
    var a := After(before);
    var (b, i) := Ready(a, last.source, last.now);
    FedShape(a, last.source, last.byte, last.now);
    if Find(a.slots, last.source, 0).Some? {
      FromStill(history, a.slots[i]);
    } else {
      FromFirst(history, b.slots[i].(body := b.slots[i].body + Kept(last.byte)));
    }
  }

  /** What was told of another source's line still is. */
  lemma {:induction false} FromOther(history: seq<Piece>, s: Slot)
    requires history != [] && From(history[..|history| - 1], s) && history[|history| - 1].source != s.source
    ensures From(history, s) && StartedAt(history, s.source) == StartedAt(history[..|history| - 1], s.source) < |history| - 1
  {
    FromStill(history, s);
    assert s.(body := s.body + []) == s;
  }

  /** Slot `i` keeps its place among the others, or comes after them all. */
  ghost predicate InPlace(history: seq<Piece>, slots: seq<Slot>, i: nat) {
    i < |slots| &&
    forall j :: 0 <= j < |slots| && j != i && Busy(slots[j]) ==>
      var m, n := StartedAt(history, slots[j].source), StartedAt(history, slots[i].source);
      (slots[j].order < slots[i].order <==> m < n) && (slots[i].order < slots[j].order <==> n < m)
  }

  /** A history goes on as told if the one slot its last byte touches does. */
  lemma {:induction false} ToldAround(history: seq<Piece>, was: seq<Slot>, slots: seq<Slot>, i: nat)
    requires history != [] && |was| == |slots| && i < |slots| && Told(history[..|history| - 1], was)
    requires forall j :: 0 <= j < |slots| && j != i ==>
               slots[j] == was[j] && (Busy(was[j]) ==> was[j].source != history[|history| - 1].source)
    requires Busy(slots[i]) ==> From(history, slots[i]) && InPlace(history, slots, i)
    ensures Told(history, slots)
  {
    forall j | 0 <= j < |slots| && j != i && Busy(slots[j])
      ensures From(history, slots[j])
      ensures StartedAt(history, slots[j].source) == StartedAt(history[..|history| - 1], slots[j].source)
    {
      FromOther(history, was[j]);
    }
  }

  lemma {:induction false} PlaceKept(history: seq<Piece>, was: seq<Slot>, slots: seq<Slot>, i: nat)
    requires history != [] && |was| == |slots| && i < |slots| && Told(history[..|history| - 1], was)
    requires forall j :: 0 <= j < |slots| && j != i ==>
               slots[j] == was[j] && (Busy(was[j]) ==> was[j].source != history[|history| - 1].source)
    requires Busy(was[i]) && slots[i].source == was[i].source && slots[i].order == was[i].order
    requires StartedAt(history, was[i].source) == StartedAt(history[..|history| - 1], was[i].source)
    ensures InPlace(history, slots, i)
  {
    forall j | 0 <= j < |slots| && j != i && Busy(slots[j])
      ensures StartedAt(history, slots[j].source) == StartedAt(history[..|history| - 1], slots[j].source)
    {
      FromOther(history, was[j]);
    }
  }

  lemma {:induction false} PlaceLast(history: seq<Piece>, was: seq<Slot>, slots: seq<Slot>, i: nat)
    requires history != [] && |was| == |slots| && i < |slots| && Told(history[..|history| - 1], was)
    requires forall j :: 0 <= j < |slots| && j != i ==>
               slots[j] == was[j] && (Busy(was[j]) ==> was[j].source != history[|history| - 1].source && was[j].order < slots[i].order)
    requires StartedAt(history, slots[i].source) == |history| - 1
    ensures InPlace(history, slots, i)
  {
    forall j | 0 <= j < |slots| && j != i && Busy(slots[j])
      ensures StartedAt(history, slots[j].source) < |history| - 1
    {
      FromOther(history, was[j]);
    }
  }

  lemma {:induction false} ToldNext(history: seq<Piece>)
    requires history != []
    requires var before := history[..|history| - 1]; Good(After(before)) && Told(before, After(before).slots)
    ensures Told(history, After(history).slots)
  {
    var before, last := history[..|history| - 1], history[|history| - 1];
    var a, c := After(before), After(history);
    var i := Ready(a, last.source, last.now).1;
    FedShape(a, last.source, last.byte, last.now);
    if Busy(c.slots[i]) {
      FromReady(history);
      if Find(a.slots, last.source, 0).Some? {
        FromStill(history, a.slots[i]);
        PlaceKept(history, a.slots, c.slots, i);
      } else {
        PlaceLast(history, a.slots, c.slots, i);
      }
    }
    ToldAround(history, a.slots, c.slots, i);
  }

  lemma {:induction false} HistoryTold(history: seq<Piece>)
    requires Running(history)
    ensures Told(history, After(history).slots)
  {
    if history != [] {
      HistoryTold(history[..|history| - 1]);
      RunningGood(history[..|history| - 1]);
      ToldNext(history);
    }
  }

  // ---- Every line ----------------------------------------------------------------------

  /** All eight lines were someone else's, and `source` had started its own, at `m`, first. */
  ghost predicate FirstOfEight(before: seq<Piece>, newcomer: nat, source: nat, m: nat) {
    var slots := After(before).slots;
    && Crowded(slots, newcomer) && Find(slots, source, 0).Some? && m == StartedAt(before, source)
    && forall j :: 0 <= j < PENDING_SLOTS ==> m <= StartedAt(before, slots[j].source)
  }

  /** Byte `m` started the line and byte `n` ended it. */
  ghost predicate Spans(history: seq<Piece>, l: Line, m: nat, n: nat) {
    && m <= n < |history| && Starts(history, l.source, m) && l.stamp == history[m].now
    && match l.why {
         case AtNewline =>
           history[n].source == l.source && history[n].byte == LF && l.body == Text(history[m..n + 1], l.source)
         case AtFull =>
           && history[n].source == l.source && history[n].byte != LF && history[n].byte != CR
           && |l.body| == LINE_BYTES && l.body == Text(history[m..n + 1], l.source)
         case Evicted =>
           FirstOfEight(history[..n], history[n].source, l.source, m) && l.body == Text(history[m..n], l.source)
       }
  }

  lemma {:induction false} SameSlices(history: seq<Piece>, m: nat, n: nat)
    requires m <= n < |history|
    ensures history[..|history| - 1][..n] == history[..n]
    ensures history[..|history| - 1][m..n] == history[m..n]
    ensures n + 1 < |history| ==> history[..|history| - 1][m..n + 1] == history[m..n + 1]
  {
  }

  lemma {:induction false} SpansStill(history: seq<Piece>, l: Line, m: nat, n: nat)
    requires history != [] && Spans(history[..|history| - 1], l, m, n)
    ensures Spans(history, l, m, n)
  {
    StartsStill(history, l.source, m);
    SameSlices(history, m, n);
  }

  /** The slot of least order has the line started first. */
  lemma {:induction false} OldestFirst(history: seq<Piece>, slots: seq<Slot>)
    requires Told(history, slots) && |slots| == PENDING_SLOTS && Find(slots, FREE, 0).None?
    ensures var s := slots[Oldest(slots, PENDING_SLOTS)];
            && Busy(s) && From(history, s)
            && forall j :: 0 <= j < PENDING_SLOTS ==> StartedAt(history, s.source) <= StartedAt(history, slots[j].source)
  {
    var o := Oldest(slots, PENDING_SLOTS);
    assert Busy(slots[o]);
    forall j | 0 <= j < PENDING_SLOTS
      ensures StartedAt(history, slots[o].source) <= StartedAt(history, slots[j].source)
    {
      assert Busy(slots[j]) && slots[o].order <= slots[j].order;
    }
  }

  lemma {:induction false} SpansEvicted(history: seq<Piece>)
    requires history != []
    requires var before, last := history[..|history| - 1], history[|history| - 1];
             Good(After(before)) && Told(before, After(before).slots) && Crowded(After(before).slots, last.source)
    ensures var before := history[..|history| - 1];
            var s := After(before).slots[Oldest(After(before).slots, PENDING_SLOTS)];
            Spans(history, LineOf(s, Evicted), StartedAt(before, s.source), |before|)
  {
    var before := history[..|history| - 1];
    var slots := After(before).slots;
    OldestFirst(before, slots);
    var s := slots[Oldest(slots, PENDING_SLOTS)];
    var m := StartedAt(before, s.source);
    FindIs(slots, After(before).next, Oldest(slots, PENDING_SLOTS));
    StartsStill(history, s.source, m);
    assert before[m..] == history[m..|before|];
  }

  lemma {:induction false} SpansOwn(history: seq<Piece>, s: Slot, why: Reason)
    requires history != [] && From(history, s) && why != Evicted && history[|history| - 1].source == s.source
    requires var byte := history[|history| - 1].byte;
             if why == AtNewline then byte == LF else byte != LF && byte != CR && |s.body| == LINE_BYTES
    ensures Spans(history, LineOf(s, why), StartedAt(history, s.source), |history| - 1)
  {
    var m := StartedAt(history, s.source);
    assert history[m..|history|] == history[m..];
  }

  lemma {:induction false} SpansEnded(history: seq<Piece>, why: Reason)
    requires history != [] && why != Evicted
    requires var before, last := history[..|history| - 1], history[|history| - 1];
             && Good(After(before)) && Told(before, After(before).slots) && last.source != FREE
             && var (b, i) := Ready(After(before), last.source, last.now);
                if why == AtNewline then last.byte == LF
                else last.byte != LF && last.byte != CR && |b.slots[i].body| == LINE_BYTES - 1
    ensures var before, last := history[..|history| - 1], history[|history| - 1];
            var (b, i) := Ready(After(before), last.source, last.now);
            var grown := b.slots[i].(body := b.slots[i].body + Kept(last.byte));
            Spans(history, LineOf(grown, why), StartedAt(history, last.source), |before|)
  {
    FromReady(history);
    var before, last := history[..|history| - 1], history[|history| - 1];
    var (b, i) := Ready(After(before), last.source, last.now);
    SpansOwn(history, b.slots[i].(body := b.slots[i].body + Kept(last.byte)), why);
  }

  /** Line `k` of the log: byte `m` started it, byte `n` ended it, and it was kept then. */
  ghost predicate Traced(history: seq<Piece>, k: nat, m: nat, n: nat) {
    && k < |After(history).lines| && Spans(history, After(history).lines[k], m, n)
    && |After(history[..n]).lines| <= k < |After(history[..n + 1]).lines|
  }

  /** Kept lines stay. */
  lemma {:induction false} OlderLine(history: seq<Piece>, k: nat)
    requires history != [] && k < |After(history[..|history| - 1]).lines|
    ensures k < |After(history).lines| && After(history).lines[k] == After(history[..|history| - 1]).lines[k]
  {
    var last := history[|history| - 1];
    FedLines(After(history[..|history| - 1]), last.source, last.byte, last.now);
  }

  lemma {:induction false} TracedStill(history: seq<Piece>, k: nat, m: nat, n: nat)
    requires history != [] && Traced(history[..|history| - 1], k, m, n)
    ensures Traced(history, k, m, n)
  {
    var before := history[..|history| - 1];
    SpansStill(history, After(before).lines[k], m, n);
    OlderLine(history, k);
    assert before[..n] == history[..n];
    assert before[..n + 1] == history[..n + 1];
  }

  /** The line ended by the newcomer's first byte, and the line of the byte's own source. */
  lemma {:induction false} NewLine(history: seq<Piece>, k: nat)
    requires history != []
    requires var before := history[..|history| - 1]; Good(After(before)) && Told(before, After(before).slots)
    requires |After(history[..|history| - 1]).lines| <= k < |After(history).lines| && After(history).lines[k].source != FREE
    ensures var before, last := history[..|history| - 1], history[|history| - 1];
            var slots := After(before).slots;
            var m := if Crowded(slots, last.source) && k == |After(before).lines|
                     then StartedAt(before, slots[Oldest(slots, PENDING_SLOTS)].source) else StartedAt(history, last.source);
            Spans(history, After(history).lines[k], m, |history| - 1)
  {
    var before, last := history[..|history| - 1], history[|history| - 1];
    var a := After(before);
    FedLines(a, last.source, last.byte, last.now);
    if Crowded(a.slots, last.source) && k == |a.lines| {
      SpansEvicted(history);
    } else {
      SpansEnded(history, if last.byte == LF then AtNewline else AtFull);
    }
  }

  lemma {:induction false} TracedNew(history: seq<Piece>, k: nat) returns (m: nat)
    requires Running(history) && k < |After(history).lines| && After(history).lines[k].source != FREE
    requires history != [] && |After(history[..|history| - 1]).lines| <= k
    ensures Traced(history, k, m, |history| - 1)
  {
    var before, last := history[..|history| - 1], history[|history| - 1];
    RunningGood(before);
    HistoryTold(before);
    NewLine(history, k);
    var slots := After(before).slots;
    m := if Crowded(slots, last.source) && k == |After(before).lines|
    then StartedAt(before, slots[Oldest(slots, PENDING_SLOTS)].source) else StartedAt(history, last.source);
    assert history[..|history|] == history;
  }

  /** Every line the log keeps was started by a byte that found no line of its source, has that
      byte's time, and has just what its source wrote from there on, up to the byte that ended
      it: its source's line feed, the byte that filled it, or the first byte of a ninth source
      when, of the eight lines, this one was started first. */
  lemma {:induction false} EveryLine(history: seq<Piece>, k: nat) returns (m: nat, n: nat)
    requires Running(history) && k < |After(history).lines| && After(history).lines[k].source != FREE
    ensures Traced(history, k, m, n)
  {
    n := |history| - 1;
    if k < |After(history[..n]).lines| {
      OlderLine(history, k);
      m, n := EveryLine(history[..n], k);
      TracedStill(history, k, m, n);
    } else {
      m := TracedNew(history, k);
    }
  }
}
