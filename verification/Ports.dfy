/** Ports coalesce signals per source and deliver them first come, first served
    (kernel/src/ipc.rs, `Port`). */
module Ports {
  import opened Objects

  type Signals = bv32

  datatype Packet = Packet(source: nat, signals: Signals)

  function Merged(p: Packet, signals: Signals): Packet {
    p.(signals := p.signals | signals)
  }

  /** `queue_signal`: merge into the pending packet of the source, or append a new one. */
  function Queue(ps: seq<Packet>, source: nat, signals: Signals): (r: seq<Packet>)
    ensures r != []
  {
    if ps == [] then [Packet(source, signals)]
    else if ps[0].source == source then [Merged(ps[0], signals)] + ps[1..]
    else [ps[0]] + Queue(ps[1..], source, signals)
  }

  class Port {
    var packets: seq<Packet>

    constructor ()
      ensures packets == []
    {
      packets := [];
    }

    method QueueSignal(source: nat, signals: Signals)
      modifies this
      ensures packets == Queue(old(packets), source, signals)
    {
      var i := 0;
      while i < |packets|
        invariant 0 <= i <= |packets| && packets == old(packets)
        invariant forall j :: 0 <= j < i ==> packets[j].source != source
      {
        if packets[i].source == source {
          QueueAt(packets, source, signals, i);
          packets := packets[i := Merged(packets[i], signals)];
          return;
        }
        i := i + 1;
      }
      QueueAbsent(packets, source, signals);
      packets := packets + [Packet(source, signals)];
    }

    /** `wait`: the oldest pending packet, or nothing to deliver. */
    method Wait() returns (r: Option<Packet>)
      modifies this
      ensures old(packets) == [] ==> r.None? && packets == []
      ensures old(packets) != [] ==> r == Some(old(packets)[0]) && packets == old(packets)[1..]
    {
      if packets == [] {
        return None;
      }
      r := Some(packets[0]);
      packets := packets[1..];
    }
  }

  lemma {:induction false} QueueAt(ps: seq<Packet>, source: nat, signals: Signals, i: nat)
    requires i < |ps| && ps[i].source == source && forall j :: 0 <= j < i ==> ps[j].source != source
    ensures Queue(ps, source, signals) == ps[i := Merged(ps[i], signals)]
  {
    if i > 0 {
      assert ps[1..][i - 1] == ps[i];
      QueueAt(ps[1..], source, signals, i - 1);
    }
  }

  lemma {:induction false} QueueAbsent(ps: seq<Packet>, source: nat, signals: Signals)
    requires forall j :: 0 <= j < |ps| ==> ps[j].source != source
    ensures Queue(ps, source, signals) == ps + [Packet(source, signals)]
  {
    if ps != [] {
      QueueAbsent(ps[1..], source, signals);
      assert ps + [Packet(source, signals)] == [ps[0]] + (ps[1..] + [Packet(source, signals)]);
    }
  }

  // ---- Whole histories -----------------------------------------------------------------

  datatype Event = Signal(source: nat, signals: Signals) | Wait

  function Apply(ps: seq<Packet>, ev: Event): seq<Packet> {
    match ev
    case Signal(s, x) => Queue(ps, s, x)
    case Wait => if ps == [] then [] else ps[1..]
  }

  /** Pending packets after a history. */
  function After(evs: seq<Event>): seq<Packet> {
    if evs == [] then [] else Apply(After(evs[..|evs| - 1]), evs[|evs| - 1])
  }

  /** How long the history was when `s` was last delivered; 0 if it never was. */
  function LastDelivery(evs: seq<Event>, s: nat): (r: nat)
    ensures r <= |evs|
  {
    if evs == [] then 0
    else
      var before := evs[..|evs| - 1];
      if evs[|evs| - 1] == Wait && After(before) != [] && After(before)[0].source == s then |evs|
      else LastDelivery(before, s)
  }

  /** The union of the signals of `s` from event `from` on. */
  function Union(evs: seq<Event>, from: nat, s: nat): Signals {
    if |evs| <= from then 0
    else
      var last := evs[|evs| - 1];
      Union(evs[..|evs| - 1], from, s) | (if last.Signal? && last.source == s then last.signals else 0)
  }

  /** The first event from `from` on that signals `s`; the history's length if none does. */
  function First(evs: seq<Event>, from: nat, s: nat): (r: nat)
    requires from <= |evs|
    ensures from <= r <= |evs|
    ensures r < |evs| ==> evs[r].Signal? && evs[r].source == s
    ensures forall i :: from <= i < r ==> !(evs[i].Signal? && evs[i].source == s)
    decreases |evs| - from
  {
    if from == |evs| || (evs[from].Signal? && evs[from].source == s) then from else First(evs, from + 1, s)
  }

  /** When `s` was first signalled since its last delivery. */
  function Since(evs: seq<Event>, s: nat): (r: nat)
    ensures r <= |evs|
  {
    First(evs, LastDelivery(evs, s), s)
  }

  ghost predicate Distinct(ps: seq<Packet>) {
    forall i, j :: 0 <= i < j < |ps| ==> ps[i].source != ps[j].source
  }

  /** The signals of `s` not delivered yet. */
  function Owed(evs: seq<Event>, s: nat): Signals {
    Union(evs, LastDelivery(evs, s), s)
  }

  ghost predicate Has(ps: seq<Packet>, s: nat) {
    exists i :: 0 <= i < |ps| && ps[i].source == s
  }

  /** The pending packets `ps` are exactly the sources first signalled before event `n`, once
      each, in that order, each with the signals it is owed. */
  ghost predicate Exact(ps: seq<Packet>, since: nat -> nat, owed: nat -> Signals, n: nat) {
    && Distinct(ps)
    && (forall i :: 0 <= i < |ps| ==> ps[i].signals == owed(ps[i].source))
    && (forall i, j :: 0 <= i < j < |ps| ==> since(ps[i].source) < since(ps[j].source))
    && (forall s: nat :: since(s) < n <==> Has(ps, s))
  }

  lemma {:induction false} UnionNone(evs: seq<Event>, from: nat, s: nat)
    requires from <= |evs| && First(evs, from, s) == |evs|
    ensures Union(evs, from, s) == 0
  {
    if from < |evs| {
      FirstPrefix(evs, from, s);
      UnionNone(evs[..|evs| - 1], from, s);
    }
  }

  /** One more event moves the first signal of `s` only if there was none before. */
  lemma {:induction false} FirstPrefix(evs: seq<Event>, from: nat, s: nat)
    requires from < |evs|
    ensures var before := evs[..|evs| - 1];
            First(evs, from, s) ==
            if First(before, from, s) < |before| then First(before, from, s)
            else if evs[|evs| - 1].Signal? && evs[|evs| - 1].source == s then |before| else |evs|
    decreases |evs| - from
  {
    if from < |evs| - 1 && !(evs[from].Signal? && evs[from].source == s) {
      FirstPrefix(evs, from + 1, s);
    }
  }

  /** The last event delivers `s`. */
  predicate Delivers(evs: seq<Event>, s: nat)
    requires evs != []
  {
    evs[|evs| - 1] == Wait && After(evs[..|evs| - 1]) != [] && After(evs[..|evs| - 1])[0].source == s
  }

  predicate Signalled(ev: Event, s: nat) {
    ev.Signal? && ev.source == s
  }

  /** What the last event changes for a source it does not deliver. */
  lemma OwedStep(evs: seq<Event>, s: nat)
    requires evs != [] && !Delivers(evs, s)
    ensures var before, last := evs[..|evs| - 1], evs[|evs| - 1];
            && (!Signalled(last, s) ==> Owed(evs, s) == Owed(before, s))
            && (Signalled(last, s) ==> Owed(evs, s) == Owed(before, s) | last.signals)
            && (Signalled(last, s) && Owed(before, s) == 0 ==> Owed(evs, s) == last.signals)
  {
  }

  lemma SinceStep(evs: seq<Event>, s: nat)
    requires evs != [] && !Delivers(evs, s)
    ensures var before, last := evs[..|evs| - 1], evs[|evs| - 1];
            Since(evs, s) == if Since(before, s) < |before| then Since(before, s)
                             else if Signalled(last, s) then |before| else |evs|
  {
    var from := LastDelivery(evs[..|evs| - 1], s);
    assert LastDelivery(evs, s) == from;
    FirstPrefix(evs, from, s);
  }

  lemma OwedNothing(evs: seq<Event>, s: nat)
    requires Since(evs, s) == |evs|
    ensures Owed(evs, s) == 0
  {
    UnionNone(evs, LastDelivery(evs, s), s);
  }

  ghost function SinceOf(evs: seq<Event>): nat -> nat {
    (s: nat) => Since(evs, s)
  }

  ghost function OwedOf(evs: seq<Event>): nat -> Signals {
    (s: nat) => Owed(evs, s)
  }

  lemma HistoryStep(evs: seq<Event>, u: nat)
    requires evs != [] && !Delivers(evs, u)
    ensures var before, last := evs[..|evs| - 1], evs[|evs| - 1];
            var since0, owed0 := SinceOf(before)(u), OwedOf(before)(u);
            && SinceOf(evs)(u) == (if since0 < |before| then since0 else if Signalled(last, u) then |before| else |evs|)
            && (!Signalled(last, u) ==> OwedOf(evs)(u) == owed0)
            && (Signalled(last, u) ==> OwedOf(evs)(u) == owed0 | last.signals)
            && (Signalled(last, u) && since0 >= |before| ==> OwedOf(evs)(u) == last.signals)
  {
    var before := evs[..|evs| - 1];
    SinceStep(evs, u);
    if Since(before, u) == |before| {
      OwedNothing(before, u);
    }
    OwedStep(evs, u);
  }

  /** Pending packets are exactly the sources signalled since their last delivery, once each,
      in the order of their first such signal, each with the union of its signals since. */
  lemma {:induction false} PendingExact(evs: seq<Event>)
    ensures Exact(After(evs), SinceOf(evs), OwedOf(evs), |evs|)
  {
    if evs != [] {
      PendingExact(evs[..|evs| - 1]);
      if evs[|evs| - 1].Signal? {
        SignalExact(evs);
      } else {
        WaitsExact(evs);
      }
    }
  }

  lemma SignalHistory(evs: seq<Event>)
    requires evs != [] && evs[|evs| - 1].Signal?
    ensures var before, last := evs[..|evs| - 1], evs[|evs| - 1];
            && (forall u: nat :: SinceOf(evs)(u) ==
                  (if SinceOf(before)(u) < |before| then SinceOf(before)(u) else if u == last.source then |before| else |evs|))
            && (forall u: nat :: u != last.source ==> OwedOf(evs)(u) == OwedOf(before)(u))
  {
    var before, last := evs[..|evs| - 1], evs[|evs| - 1];
    forall u: nat
      ensures SinceOf(evs)(u) == (if SinceOf(before)(u) < |before| then SinceOf(before)(u) else if u == last.source then |before| else |evs|)
      ensures u != last.source ==> OwedOf(evs)(u) == OwedOf(before)(u)
    {
      HistoryStep(evs, u);
    }
  }

  lemma SignalExact(evs: seq<Event>)
    requires evs != [] && evs[|evs| - 1].Signal?
    requires Exact(After(evs[..|evs| - 1]), SinceOf(evs[..|evs| - 1]), OwedOf(evs[..|evs| - 1]), |evs| - 1)
    ensures Exact(After(evs), SinceOf(evs), OwedOf(evs), |evs|)
  {
    var before, last := evs[..|evs| - 1], evs[|evs| - 1];
    var ps := After(before);
    SignalHistory(evs);
    HistoryStep(evs, last.source);
    if i :| 0 <= i < |ps| && ps[i].source == last.source {
      MergeExact(ps, i, last.signals, SinceOf(before), OwedOf(before), SinceOf(evs), OwedOf(evs), |before|);
    } else {
      assert !Has(ps, last.source);
      AppendExact(ps, last.source, last.signals, SinceOf(before), OwedOf(before), SinceOf(evs), OwedOf(evs), |before|);
    }
  }

  lemma WaitsExact(evs: seq<Event>)
    requires evs != [] && evs[|evs| - 1].Wait?
    requires Exact(After(evs[..|evs| - 1]), SinceOf(evs[..|evs| - 1]), OwedOf(evs[..|evs| - 1]), |evs| - 1)
    ensures Exact(After(evs), SinceOf(evs), OwedOf(evs), |evs|)
  {
    var before := evs[..|evs| - 1];
    var ps := After(before);
    forall u: nat | ps == [] || u != ps[0].source
      ensures OwedOf(evs)(u) == OwedOf(before)(u)
      ensures SinceOf(evs)(u) == if SinceOf(before)(u) < |before| then SinceOf(before)(u) else |evs|
    {
      HistoryStep(evs, u);
    }
    if ps != [] {
      assert Delivers(evs, ps[0].source);
      assert LastDelivery(evs, ps[0].source) == |evs|;
    }
    WaitExact(ps, SinceOf(before), OwedOf(before), SinceOf(evs), OwedOf(evs), |before|);
  }

  lemma MergeExact(ps: seq<Packet>, i: nat, x: Signals, since0: nat -> nat, owed0: nat -> Signals, since1: nat -> nat, owed1: nat -> Signals, n: nat)
    requires Exact(ps, since0, owed0, n) && i < |ps|
    requires forall u: nat :: since1(u) == if since0(u) < n then since0(u) else if u == ps[i].source then n else n + 1
    requires forall u: nat :: u != ps[i].source ==> owed1(u) == owed0(u)
    requires owed1(ps[i].source) == owed0(ps[i].source) | x
    ensures Exact(Queue(ps, ps[i].source, x), since1, owed1, n + 1)
  {
    QueueAt(ps, ps[i].source, x, i);
    UpdateExact(ps, Queue(ps, ps[i].source, x), i, since0, owed0, since1, owed1, n);
  }

  lemma UpdateExact(ps: seq<Packet>, qs: seq<Packet>, i: nat, since0: nat -> nat, owed0: nat -> Signals, since1: nat -> nat, owed1: nat -> Signals, n: nat)
    requires Exact(ps, since0, owed0, n) && i < |ps| == |qs|
    requires forall j :: 0 <= j < |ps| ==> qs[j].source == ps[j].source && (j != i ==> qs[j] == ps[j])
    requires forall u: nat :: since1(u) == if since0(u) < n then since0(u) else if u == ps[i].source then n else n + 1
    requires forall u: nat :: u != ps[i].source ==> owed1(u) == owed0(u)
    requires owed1(ps[i].source) == qs[i].signals
    ensures Exact(qs, since1, owed1, n + 1)
  {
    forall j | 0 <= j < |ps|
      ensures Has(ps, ps[j].source) && since0(ps[j].source) < n
    {
    }
    forall u: nat
      ensures Has(qs, u) <==> Has(ps, u)
    {
      SourcesKept(ps, qs, u);
    }
  }

  lemma SourcesKept(ps: seq<Packet>, qs: seq<Packet>, u: nat)
    requires |ps| == |qs| && forall i :: 0 <= i < |ps| ==> qs[i].source == ps[i].source
    ensures Has(qs, u) <==> Has(ps, u)
  {
    if Has(ps, u) {
      var i :| 0 <= i < |ps| && ps[i].source == u;
      assert qs[i].source == u;
    }
    if Has(qs, u) {
      var i :| 0 <= i < |qs| && qs[i].source == u;
      assert ps[i].source == u;
    }
  }

  lemma AppendExact(ps: seq<Packet>, s: nat, x: Signals, since0: nat -> nat, owed0: nat -> Signals, since1: nat -> nat, owed1: nat -> Signals, n: nat)
    requires Exact(ps, since0, owed0, n) && !Has(ps, s)
    requires forall u: nat :: since1(u) == if since0(u) < n then since0(u) else if u == s then n else n + 1
    requires forall u: nat :: owed1(u) == if u == s then x else owed0(u)
    ensures Exact(Queue(ps, s, x), since1, owed1, n + 1)
  {
    assert forall j :: 0 <= j < |ps| ==> ps[j].source != s;
    QueueAbsent(ps, s, x);
    var qs := ps + [Packet(s, x)];
    forall j | 0 <= j < |ps|
      ensures Has(ps, ps[j].source) && since0(ps[j].source) < n
    {
    }
    forall u: nat
      ensures Has(qs, u) <==> Has(ps, u) || u == s
    {
      HasAppend(ps, Packet(s, x), u);
    }
  }

  lemma HasAppend(ps: seq<Packet>, p: Packet, u: nat)
    ensures Has(ps + [p], u) <==> Has(ps, u) || u == p.source
  {
    var qs := ps + [p];
    assert qs[|ps|] == p;
    if Has(ps, u) {
      var i :| 0 <= i < |ps| && ps[i].source == u;
      assert qs[i].source == u;
    }
  }

  lemma WaitExact(ps: seq<Packet>, since0: nat -> nat, owed0: nat -> Signals, since1: nat -> nat, owed1: nat -> Signals, n: nat)
    requires Exact(ps, since0, owed0, n)
    requires forall u: nat :: ps == [] || u != ps[0].source ==>
                                owed1(u) == owed0(u) && since1(u) == if since0(u) < n then since0(u) else n + 1
    requires ps != [] ==> since1(ps[0].source) == n + 1
    ensures Exact(if ps == [] then [] else ps[1..], since1, owed1, n + 1)
  {
    forall j | 0 <= j < |ps|
      ensures Has(ps, ps[j].source) && since0(ps[j].source) < n
    {
    }
    forall u: nat
      ensures Has(if ps == [] then [] else ps[1..], u) <==> Has(ps, u) && (ps == [] || ps[0].source != u)
    {
      HasTail(ps, u);
    }
  }

  lemma HasTail(ps: seq<Packet>, u: nat)
    requires Distinct(ps)
    ensures Has(if ps == [] then [] else ps[1..], u) <==> Has(ps, u) && (ps == [] || ps[0].source != u)
  {
    if ps != [] {
      if Has(ps, u) && ps[0].source != u {
        var i :| 0 <= i < |ps| && ps[i].source == u;
        assert ps[1..][i - 1].source == u;
      }
      if Has(ps[1..], u) {
        var i :| 0 <= i < |ps[1..]| && ps[1..][i].source == u;
        assert ps[i + 1].source == u;
      }
    }
  }

  // ---- Waiting time --------------------------------------------------------------------

  function Run(ps: seq<Packet>, evs: seq<Event>): seq<Packet>
    decreases |evs|
  {
    if evs == [] then ps else Run(Apply(ps, evs[0]), evs[1..])
  }

  function Waits(evs: seq<Event>): nat {
    if evs == [] then 0 else (if evs[0].Wait? then 1 else 0) + Waits(evs[1..])
  }

  lemma {:induction false} QueueKeepsPlaces(ps: seq<Packet>, source: nat, signals: Signals)
    ensures |ps| <= |Queue(ps, source, signals)|
    ensures forall i :: 0 <= i < |ps| ==> Queue(ps, source, signals)[i].source == ps[i].source
  {
    if ps != [] && ps[0].source != source {
      QueueKeepsPlaces(ps[1..], source, signals);
      forall i | 0 < i < |ps|
        ensures Queue(ps, source, signals)[i].source == ps[i].source
      {
        assert ps[i] == ps[1..][i - 1];
      }
    }
  }

  /** The packet at index `i` moves up by one per wait and by nothing else, so whatever the
      sources do meanwhile, the wait number `i + 1` delivers it. */
  lemma {:induction false} DeliveredInTurn(ps: seq<Packet>, evs: seq<Event>, i: nat)
    requires i < |ps| && Waits(evs) <= i
    ensures i - Waits(evs) < |Run(ps, evs)|
    ensures Run(ps, evs)[i - Waits(evs)].source == ps[i].source
    decreases |evs|
  {
    if evs != [] {
      match evs[0]
      case Signal(s, x) =>
        QueueKeepsPlaces(ps, s, x);
        DeliveredInTurn(Queue(ps, s, x), evs[1..], i);
      case Wait =>
        DeliveredInTurn(ps[1..], evs[1..], i - 1);
    }
  }
}
