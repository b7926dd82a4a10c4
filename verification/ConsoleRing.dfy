/** The console byte ring between the interrupt handler and the boot floor
    (kernel/src/conin.rs, `Ring`): one producer, one consumer, no lock. Each load, slot access
    and store is a step of its own, and the two sides may interleave in any way. */
module ConsoleRing {
  import opened Bytes

  const RING_BYTES := 256

  /** Where the producer is inside `push`. */
  datatype Pushing =
    | Out
    | HasTail(byte: Byte, tail: nat)
    | HasRoom(byte: Byte, tail: nat)
    | HasWritten(byte: Byte, tail: nat)

  /** Where the consumer is inside `pop`. */
  datatype Popping =
    | Away
    | HasHead(head: nat)
    | HasData(head: nat)
    | HasRead(head: nat, byte: Byte)

  /** The shared memory, both sides, and what `push` accepted and `pop` returned so far.
      `refusals` and `misses` record how much the ring held at each refused push and each
      empty pop, at the moment the side decided. */
  datatype Ring = Ring(
    buf: seq<Byte>, head: nat, tail: nat,
    producer: Pushing, consumer: Popping,
    accepted: seq<Byte>, popped: seq<Byte>,
    refusals: seq<nat>, misses: seq<nat>)

  datatype Action =
    | PushLoadTail(byte: Byte) | PushLoadHead | PushWrite | PushStoreTail
    | PopLoadHead | PopLoadTail | PopRead | PopStoreHead

  function Empty(): Ring {
    Ring(seq(RING_BYTES, i => 0), 0, 0, Out, Away, [], [], [], [])
  }

  function Next(i: nat): nat {
    (i + 1) % RING_BYTES
  }

  /** How many bytes lie from `head` up to `tail`. */
  function Held(head: nat, tail: nat): (r: nat)
    requires head < RING_BYTES && tail < RING_BYTES
    ensures r < RING_BYTES
  {
    if head <= tail then tail - head else tail + RING_BYTES - head
  }

  /** The bytes from `head` up to `tail`, in order. */
  function Content(buf: seq<Byte>, head: nat, tail: nat): (r: seq<Byte>)
    requires |buf| == RING_BYTES && head < RING_BYTES && tail < RING_BYTES
    ensures |r| == Held(head, tail)
  {
    seq(Held(head, tail), i requires 0 <= i => buf[(head + i) % RING_BYTES])
  }

  /** One atomic step; a step the side is not ready for does nothing. */
  ghost function Step(r: Ring, a: Action): Ring
    requires Coherent(r)
  {
    match a
    case PushLoadTail(byte) => if r.producer.Out? then r.(producer := HasTail(byte, r.tail)) else r
    case PushLoadHead =>
      if !r.producer.HasTail? then r
      else if Next(r.producer.tail) == r.head then r.(producer := Out, refusals := r.refusals + [Held(r.head, r.tail)])
      else r.(producer := HasRoom(r.producer.byte, r.producer.tail))
    case PushWrite =>
      if !r.producer.HasRoom? then r
      else r.(buf := r.buf[r.producer.tail := r.producer.byte], producer := HasWritten(r.producer.byte, r.producer.tail))
    case PushStoreTail =>
      if !r.producer.HasWritten? then r
      else r.(tail := Next(r.producer.tail), accepted := r.accepted + [r.producer.byte], producer := Out)
    case PopLoadHead => if r.consumer.Away? then r.(consumer := HasHead(r.head)) else r
    case PopLoadTail =>
      if !r.consumer.HasHead? then r
      else if r.consumer.head == r.tail then r.(consumer := Away, misses := r.misses + [Held(r.head, r.tail)])
      else r.(consumer := HasData(r.consumer.head))
    case PopRead =>
      if !r.consumer.HasData? then r else r.(consumer := HasRead(r.consumer.head, r.buf[r.consumer.head]))
    case PopStoreHead =>
      if !r.consumer.HasRead? then r
      else r.(head := Next(r.consumer.head), popped := r.popped + [r.consumer.byte], consumer := Away)
  }

  /** The local copies of the indices, however old, are still the right ones. */
  ghost predicate Coherent(r: Ring) {
    && |r.buf| == RING_BYTES && r.head < RING_BYTES && r.tail < RING_BYTES
    && (match r.producer
        case Out => true
        case HasTail(_, tail) => tail == r.tail
        case HasRoom(_, tail) => tail == r.tail && Next(tail) != r.head
        case HasWritten(byte, tail) => tail == r.tail && Next(tail) != r.head && r.buf[tail] == byte)
    && (match r.consumer
        case Away => true
        case HasHead(head) => head == r.head
        case HasData(head) => head == r.head && head != r.tail
        case HasRead(head, byte) => head == r.head && head != r.tail && r.buf[head] == byte)
  }

  /** What was taken out and what is inside are together what was accepted, in order. */
  ghost predicate Faithful(r: Ring)
    requires Coherent(r)
  {
    r.popped + Content(r.buf, r.head, r.tail) == r.accepted
  }

  /** A push was refused only by a full ring, a pop found nothing only in an empty one. */
  ghost predicate Justified(r: Ring) {
    && (forall i :: 0 <= i < |r.refusals| ==> r.refusals[i] == RING_BYTES - 1)
    && (forall i :: 0 <= i < |r.misses| ==> r.misses[i] == 0)
  }

  /** The two sides never touch the same slot at once. */
  ghost predicate RaceFree(r: Ring) {
    r.producer.HasRoom? && r.consumer.HasData? ==> r.producer.tail != r.consumer.head
  }

  // ---- One step ------------------------------------------------------------------------

  lemma WriteOutside(buf: seq<Byte>, head: nat, tail: nat, byte: Byte)
    requires |buf| == RING_BYTES && head < RING_BYTES && tail < RING_BYTES
    ensures Content(buf[tail := byte], head, tail) == Content(buf, head, tail)
  {
    var now, was := Content(buf[tail := byte], head, tail), Content(buf, head, tail);
    forall i | 0 <= i < |was|
      ensures now[i] == was[i]
    {
      assert (head + i) % RING_BYTES != tail;
    }
  }

  lemma GrowsByLast(buf: seq<Byte>, head: nat, tail: nat)
    requires |buf| == RING_BYTES && head < RING_BYTES && tail < RING_BYTES && Next(tail) != head
    ensures Content(buf, head, Next(tail)) == Content(buf, head, tail) + [buf[tail]]
  {
    assert Held(head, Next(tail)) == Held(head, tail) + 1;
    assert (head + Held(head, tail)) % RING_BYTES == tail;
  }

  lemma Wraps(head: nat, i: nat)
    ensures (head + (i + 1)) % RING_BYTES == (Next(head) + i) % RING_BYTES
  {
  }

  lemma HeldNext(head: nat, tail: nat)
    requires head < RING_BYTES && tail < RING_BYTES && head != tail
    ensures Held(head, tail) == Held(Next(head), tail) + 1
  {
  }

  lemma ShrinksByFirst(buf: seq<Byte>, head: nat, tail: nat)
    requires |buf| == RING_BYTES && head < RING_BYTES && tail < RING_BYTES && head != tail
    ensures Content(buf, head, tail) == [buf[head]] + Content(buf, Next(head), tail)
  {
    HeldNext(head, tail);
    var all, rest := Content(buf, head, tail), Content(buf, Next(head), tail);
    forall i | 0 <= i < |rest|
      ensures all[i + 1] == rest[i]
    {
      Wraps(head, i);
    }
  }

  lemma StepCoherent(r: Ring, a: Action)
    requires Coherent(r)
    ensures Coherent(Step(r, a))
  {
  }

  /** Every step keeps the ring faithful, whatever the other side is doing. */
  lemma StepKeeps(r: Ring, a: Action)
    requires Coherent(r) && Faithful(r) && Justified(r)
    ensures Coherent(Step(r, a)) && Faithful(Step(r, a)) && Justified(Step(r, a))
  {
    StepCoherent(r, a);
    match a
    case PushWrite =>
      if r.producer.HasRoom? { WriteOutside(r.buf, r.head, r.tail, r.producer.byte); }
    case PushStoreTail =>
      if r.producer.HasWritten? {
        GrowsByLast(r.buf, r.head, r.tail);
        assert r.popped + (Content(r.buf, r.head, r.tail) + [r.buf[r.tail]]) == r.accepted + [r.buf[r.tail]];
      }
    case PopStoreHead =>
      if r.consumer.HasRead? {
        ShrinksByFirst(r.buf, r.head, r.tail);
        var rest := Content(r.buf, Next(r.head), r.tail);
        assert r.popped + ([r.buf[r.head]] + rest) == (r.popped + [r.buf[r.head]]) + rest;
      }
    case _ =>
  }

  // ---- Every interleaving --------------------------------------------------------------

  /** The ring after the two sides took these steps, in this order. */
  ghost function Run(trace: seq<Action>): (r: Ring)
    ensures Coherent(r)
  {
    if trace == [] then Empty()
    else
      var before := Run(trace[..|trace| - 1]);
      StepCoherent(before, trace[|trace| - 1]);
      Step(before, trace[|trace| - 1])
  }

  /** How often `push` has come back. */
  ghost function PushesDone(trace: seq<Action>): nat {
    if trace == [] then 0
    else
      var before := trace[..|trace| - 1];
      PushesDone(before) + if !Run(before).producer.Out? && Run(trace).producer.Out? then 1 else 0
  }

  /** How often `pop` has come back. */
  ghost function PopsDone(trace: seq<Action>): nat {
    if trace == [] then 0
    else
      var before := trace[..|trace| - 1];
      PopsDone(before) + if !Run(before).consumer.Away? && Run(trace).consumer.Away? then 1 else 0
  }

  /** Every push that came back was accepted or refused, every pop gave a byte or found nothing. */
  lemma {:induction false} EveryCallAccounted(trace: seq<Action>)
    ensures PushesDone(trace) == |Run(trace).accepted| + |Run(trace).refusals|
    ensures PopsDone(trace) == |Run(trace).popped| + |Run(trace).misses|
  {
    if trace != [] {
      var before := trace[..|trace| - 1];
      EveryCallAccounted(before);
      StepAccounts(Run(before), trace[|trace| - 1]);
    }
  }

  lemma StepAccounts(r: Ring, a: Action)
    requires Coherent(r)
    ensures var n := Step(r, a);
            && |n.accepted| + |n.refusals| == |r.accepted| + |r.refusals| + (if !r.producer.Out? && n.producer.Out? then 1 else 0)
            && |n.popped| + |n.misses| == |r.popped| + |r.misses| + (if !r.consumer.Away? && n.consumer.Away? then 1 else 0)
  {
  }

  /** After any interleaving of the two sides: bytes come out in the order they went in, none
      lost or doubled; at most 255 are held; the sides never meet in a slot; and a push is
      refused only when the ring was full at the moment it looked. */
  lemma {:induction false} EveryInterleaving(trace: seq<Action>)
    ensures var r := Run(trace);
            && Faithful(r) && Justified(r) && RaceFree(r)
            && |Content(r.buf, r.head, r.tail)| <= RING_BYTES - 1
  {
    if trace == [] {
      assert Content(Empty().buf, 0, 0) == [];
    } else {
      EveryInterleaving(trace[..|trace| - 1]);
      StepKeeps(Run(trace[..|trace| - 1]), trace[|trace| - 1]);
    }
  }

  // ---- One side at a time --------------------------------------------------------------

  ghost function Steps(r: Ring, acts: seq<Action>): (n: Ring)
    requires Coherent(r)
    ensures Coherent(n)
    decreases |acts|
  {
    if acts == [] then r
    else
      StepCoherent(r, acts[0]);
      Steps(Step(r, acts[0]), acts[1..])
  }

  lemma StepsFour(r: Ring, a: Action, b: Action, c: Action, d: Action)
    requires Coherent(r)
    ensures Coherent(Step(r, a)) && Coherent(Step(Step(r, a), b)) && Coherent(Step(Step(Step(r, a), b), c))
    ensures Steps(r, [a, b, c, d]) == Step(Step(Step(Step(r, a), b), c), d)
  {
    StepsOne(r, a, [b, c, d]);
    StepsOne(Step(r, a), b, [c, d]);
    StepsOne(Step(Step(r, a), b), c, [d]);
    StepsOne(Step(Step(Step(r, a), b), c), d, []);
    assert [a, b, c, d] == [a] + [b, c, d] && [b, c, d] == [b] + [c, d] && [c, d] == [c] + [d] && [d] == [d] + [];
  }

  lemma StepsOne(r: Ring, a: Action, rest: seq<Action>)
    requires Coherent(r)
    ensures Coherent(Step(r, a)) && Steps(r, [a] + rest) == Steps(Step(r, a), rest)
  {
    StepCoherent(r, a);
    assert ([a] + rest)[0] == a && ([a] + rest)[1..] == rest;
  }

  /** A push left to itself appends its byte, unless 255 bytes are held, when it drops it. */
  lemma PushAlone(r: Ring, byte: Byte)
    requires Coherent(r) && r.producer.Out?
    ensures var n := Steps(r, [PushLoadTail(byte), PushLoadHead, PushWrite, PushStoreTail]);
            && n.producer.Out? && n.consumer == r.consumer && n.popped == r.popped && n.misses == r.misses
            && if Held(r.head, r.tail) == 255 then
                 n.accepted == r.accepted && Content(n.buf, n.head, n.tail) == Content(r.buf, r.head, r.tail) && |n.refusals| == |r.refusals| + 1
               else
                 && n.accepted == r.accepted + [byte] && n.refusals == r.refusals
                 && Content(n.buf, n.head, n.tail) == Content(r.buf, r.head, r.tail) + [byte]
  {
    StepsFour(r, PushLoadTail(byte), PushLoadHead, PushWrite, PushStoreTail);
    FullIs(r.head, r.tail);
    if Next(r.tail) != r.head {
      WriteOutside(r.buf, r.head, r.tail, byte);
      GrowsByLast(r.buf[r.tail := byte], r.head, r.tail);
    }
  }

  lemma FullIs(head: nat, tail: nat)
    requires head < RING_BYTES && tail < RING_BYTES
    ensures Held(head, tail) == 255 <==> Next(tail) == head
    ensures Held(head, tail) == 0 <==> head == tail
  {
  }

  /** A pop left to itself takes the oldest byte, or finds nothing. */
  lemma PopAlone(r: Ring)
    requires Coherent(r) && r.consumer.Away?
    ensures var n, was := Steps(r, [PopLoadHead, PopLoadTail, PopRead, PopStoreHead]), Content(r.buf, r.head, r.tail);
            && n.consumer.Away? && n.producer == r.producer && n.accepted == r.accepted && n.refusals == r.refusals
            && if was == [] then
                 n.popped == r.popped && Content(n.buf, n.head, n.tail) == [] && |n.misses| == |r.misses| + 1
               else n.popped == r.popped + [was[0]] && n.misses == r.misses && Content(n.buf, n.head, n.tail) == was[1..]
  {
    StepsFour(r, PopLoadHead, PopLoadTail, PopRead, PopStoreHead);
    FullIs(r.head, r.tail);
    if r.head != r.tail {
      ShrinksByFirst(r.buf, r.head, r.tail);
    }
  }
}
