/** Channel pairs, their mailboxes, and the close cascade (kernel/src/ipc.rs), on values.

    A registry is the list of its pairs; strong counts are passed beside it. */
module Channels {
  import opened Objects
  import opened Bytes

  datatype IpcError =
    | BadHandle | WrongType | AccessDenied | TableFull | TooManyBytes | TooManyHandles
    | ShouldWait | PeerClosed | NotChannel

  function FromObjectError(e: ObjectError): IpcError {
    match e
    case BadHandle => IpcError.BadHandle
    case WrongType => IpcError.WrongType
    case AccessDenied => IpcError.AccessDenied
    case TableFull => IpcError.TableFull
  }

  const MAX_INLINE_BYTES: nat := 4096
  const MAX_MESSAGE_HANDLES: nat := 64

  datatype Header = Header(ordinal: nat, flags: nat, bytesLen: nat, handlesLen: nat)

  /** A queued message owns the entries in `transfers` until a receiver installs them. */
  datatype Message = Message(header: Header, bytes: seq<Byte>, handles: seq<nat>, transfers: seq<OwnedEntry>)

  datatype End = Left | Right

  function Peer(d: End): End {
    match d
    case Left => Right
    case Right => Left
  }

  /** `references` observes the lineage of the endpoint's handles; the kernel-retained end of
      a root channel has none. */
  datatype Endpoint = Endpoint(koid: nat, inbox: seq<Message>, open: bool, references: Option<nat>)

  datatype Pair = Pair(left: Endpoint, right: Endpoint) {
    function At(d: End): Endpoint {
      match d
      case Left => left
      case Right => right
    }

    function With(d: End, e: Endpoint): (r: Pair)
      ensures r.At(d) == e && r.At(Peer(d)) == At(Peer(d))
    {
      match d
      case Left => this.(left := e)
      case Right => this.(right := e)
    }
  }

  // ---- Finding an endpoint -------------------------------------------------------------

  /** The first pair that has `koid` at one of its ends, and which end. */
  function LocateFrom(cs: seq<Pair>, koid: nat, i: nat): (r: Option<(nat, End)>)
    requires i <= |cs|
    ensures r.Some? ==> i <= r.value.0 < |cs| && cs[r.value.0].At(r.value.1).koid == koid
    ensures r.None? ==> forall j, d :: i <= j < |cs| ==> cs[j].At(d).koid != koid
    decreases |cs| - i
  {
    if i == |cs| then None
    else if cs[i].left.koid == koid then Some((i, Left))
    else if cs[i].right.koid == koid then Some((i, Right))
    else
      assert forall d: End :: cs[i].At(d).koid != koid;
      LocateFrom(cs, koid, i + 1)
  }

  function Locate(cs: seq<Pair>, koid: nat): (r: Option<(nat, End)>)
    ensures r.Some? ==> r.value.0 < |cs| && cs[r.value.0].At(r.value.1).koid == koid
    ensures r.None? ==> forall j, d :: 0 <= j < |cs| ==> cs[j].At(d).koid != koid
  {
    LocateFrom(cs, koid, 0)
  }

  /** No two endpoints share an id. */
  ghost predicate Unique(cs: seq<Pair>) {
    forall i, d, j, f :: 0 <= i < |cs| && 0 <= j < |cs| && cs[i].At(d).koid == cs[j].At(f).koid ==> i == j && d == f
  }

  lemma LocateAt(cs: seq<Pair>, i: nat, d: End)
    requires Unique(cs) && i < |cs|
    ensures Locate(cs, cs[i].At(d).koid) == Some((i, d))
  {
  }

  // ---- Capabilities queued in mailboxes ------------------------------------------------

  /** Every entry the messages of a mailbox own, in queue order. */
  function Queued(inbox: seq<Message>): seq<OwnedEntry> {
    if inbox == [] then [] else inbox[0].transfers + Queued(inbox[1..])
  }

  lemma QueuedConcat(a: seq<Message>, b: seq<Message>)
    ensures Queued(a + b) == Queued(a) + Queued(b)
  {
    if a == [] {
      assert a + b == b;
    } else {
      assert (a + b)[1..] == a[1..] + b;
      QueuedConcat(a[1..], b);
    }
  }

  function Bag(p: Pair): seq<OwnedEntry> {
    Queued(p.left.inbox) + Queued(p.right.inbox)
  }

  function PairBags(cs: seq<Pair>): (r: seq<seq<OwnedEntry>>)
    ensures |r| == |cs|
  {
    seq(|cs|, i requires 0 <= i < |cs| => Bag(cs[i]))
  }

  lemma BagUpdate(cs: seq<Pair>, i: nat, p: Pair, l: nat)
    requires i < |cs|
    ensures CountBags(PairBags(cs[i := p]), l) == CountBags(PairBags(cs), l) - Count(Bag(cs[i]), l) + Count(Bag(p), l)
  {
    assert PairBags(cs[i := p]) == PairBags(cs)[i := Bag(p)];
    CountBagsUpdate(PairBags(cs), i, Bag(p), l);
  }

  lemma BagRemove(cs: seq<Pair>, i: nat, l: nat)
    requires i < |cs|
    ensures CountBags(PairBags(cs), l) == CountBags(PairBags(cs[..i] + cs[i + 1..]), l) + Count(Bag(cs[i]), l)
  {
    assert PairBags(cs[..i] + cs[i + 1..]) == PairBags(cs)[..i] + PairBags(cs)[i + 1..];
    CountBagsSplit(PairBags(cs), i, l);
  }

  /** The two mailboxes' shares of a pair, whichever end is named first. */
  lemma BagCount(p: Pair, d: End, l: nat)
    ensures Count(Bag(p), l) == Count(Queued(p.At(d).inbox), l) + Count(Queued(p.At(Peer(d)).inbox), l)
  {
    CountConcat(Queued(p.left.inbox), Queued(p.right.inbox), l);
  }

  /** A queued entry is counted in its registry. */
  lemma QueuedCounts(cs: seq<Pair>, i: nat, d: End, e: OwnedEntry, l: nat)
    requires i < |cs| && e in Queued(cs[i].At(d).inbox) && e.reference == Some(l)
    ensures CountBags(PairBags(cs), l) > 0
  {
    CountPositive(Queued(cs[i].At(d).inbox), e, l);
    BagCount(cs[i], d, l);
    CountBagsSplit(PairBags(cs), i, l);
  }

  // ---- Closing -------------------------------------------------------------------------

  /** `last_owner`: the endpoint has an observer and no owner is left. */
  predicate LastOwner(strong: Counts, e: Endpoint) {
    e.references.Some? && !Referenced(strong, e.references.value)
  }

  predicate Owned(strong: Counts, e: Endpoint) {
    e.references.Some? && Referenced(strong, e.references.value)
  }

  /** Ids of the channel endpoints carried by dropped entries, in drop order. */
  function Carried(es: seq<OwnedEntry>): seq<nat> {
    if es == [] then []
    else (if es[0].entry.kind == Channel then [es[0].entry.koid] else []) + Carried(es[1..])
  }

  lemma {:induction false} CarriedConcat(a: seq<OwnedEntry>, b: seq<OwnedEntry>)
    ensures Carried(a + b) == Carried(a) + Carried(b)
  {
    if a == [] {
      assert a + b == b;
    } else {
      var first := if a[0].entry.kind == Channel then [a[0].entry.koid] else [];
      assert (a + b)[0] == a[0] && (a + b)[1..] == a[1..] + b;
      CarriedConcat(a[1..], b);
      assert first + (Carried(a[1..]) + Carried(b)) == (first + Carried(a[1..])) + Carried(b);
    }
  }

  lemma CarriedHas(es: seq<OwnedEntry>, e: OwnedEntry)
    requires e in es && e.entry.kind == Channel
    ensures e.entry.koid in Carried(es)
  {
    if es[0] != e {
      CarriedHas(es[1..], e);
    }
  }

  lemma CarriedFrom(es: seq<OwnedEntry>, k: nat) returns (e: OwnedEntry)
    requires k in Carried(es)
    ensures e in es && e.entry.kind == Channel && e.entry.koid == k
  {
    if es[0].entry.kind == Channel && es[0].entry.koid == k {
      e := es[0];
    } else {
      e := CarriedFrom(es[1..], k);
    }
  }

  /** Channel capabilities still queued in the registry. */
  function Pending(cs: seq<Pair>): nat {
    if cs == [] then 0 else |Carried(Bag(cs[0]))| + Pending(cs[1..])
  }

  lemma PendingUpdate(cs: seq<Pair>, i: nat, p: Pair)
    requires i < |cs|
    ensures Pending(cs[i := p]) == Pending(cs) - |Carried(Bag(cs[i]))| + |Carried(Bag(p))|
  {
    var u := cs[i := p];
    if i == 0 {
      assert u[1..] == cs[1..];
    } else {
      assert u[1..] == cs[1..][i - 1 := p];
      PendingUpdate(cs[1..], i - 1, p);
    }
  }

  /** State of a close in progress: the registry, the counts, the worklist, the peers to
      signal so far and the endpoints closed so far, in order. */
  datatype Closing = Closing(channels: seq<Pair>, strong: Counts, carried: seq<nat>, signals: seq<nat>, closed: seq<nat>)

  /** Close one end; when its last owner is gone, drop its mailbox and put the channel
      endpoints it carried on the worklist. */
  function CloseEnd(s: Closing, i: nat, d: End): Closing
    requires i < |s.channels|
  {
    var p := s.channels[i];
    var e := p.At(d);
    var gone := LastOwner(s.strong, e);
    var dropped := if gone then Queued(e.inbox) else [];
    Closing(
      s.channels[i := p.With(d, e.(open := false, inbox := if gone then [] else e.inbox))],
      Release(s.strong, dropped),
      s.carried + Carried(dropped),
      if p.At(Peer(d)).open then s.signals + [p.At(Peer(d)).koid] else s.signals,
      s.closed + [e.koid])
  }

  /** One turn of the worklist loop: pop an id, close its endpoint if that is still open and
      has just lost its last owner. */
  function CascadeStep(s: Closing): Closing
    requires s.carried != []
  {
    var popped := s.(carried := s.carried[..|s.carried| - 1]);
    match Locate(s.channels, s.carried[|s.carried| - 1])
    case None => popped
    case Some((i, d)) =>
      var e := s.channels[i].At(d);
      if !e.open || !LastOwner(s.strong, e) then popped else CloseEnd(popped, i, d)
  }

  lemma CloseEndMeasure(s: Closing, i: nat, d: End)
    requires i < |s.channels|
    ensures Pending(CloseEnd(s, i, d).channels) + |CloseEnd(s, i, d).carried| == Pending(s.channels) + |s.carried|
  {
    var p := s.channels[i];
    var q := CloseEnd(s, i, d).channels[i];
    CarriedConcat(Queued(p.left.inbox), Queued(p.right.inbox));
    CarriedConcat(Queued(q.left.inbox), Queued(q.right.inbox));
    PendingUpdate(s.channels, i, q);
  }

  /** Every turn of the loop lowers queued-plus-listed channel capabilities by exactly one. */
  lemma CascadeStepMeasure(s: Closing)
    requires s.carried != []
    ensures Pending(CascadeStep(s).channels) + |CascadeStep(s).carried| == Pending(s.channels) + |s.carried| - 1
  {
    var popped := s.(carried := s.carried[..|s.carried| - 1]);
    match Locate(s.channels, s.carried[|s.carried| - 1])
    case None =>
    case Some((i, d)) => CloseEndMeasure(popped, i, d);
  }

  function Cascade(s: Closing): Closing
    decreases Pending(s.channels) + |s.carried|
  {
    if s.carried == [] then s
    else
      CascadeStepMeasure(s);
      Cascade(CascadeStep(s))
  }

  lemma StepBehind(s: Closing, a: seq<nat>)
    requires s.carried != []
    ensures var t := s.(carried := a + s.carried); t.carried != [] && CascadeStep(t) == CascadeStep(s).(carried := a + CascadeStep(s).carried)
  {
    var t := s.(carried := a + s.carried);
    var n := |s.carried| - 1;
    assert t.carried[|t.carried| - 1] == s.carried[n] && t.carried[..|t.carried| - 1] == a + s.carried[..n];
    match Locate(s.channels, s.carried[n])
    case None =>
    case Some((i, d)) =>
      var e := s.channels[i].At(d);
      var dropped := if LastOwner(s.strong, e) then Queued(e.inbox) else [];
      assert a + s.carried[..n] + Carried(dropped) == a + (s.carried[..n] + Carried(dropped));
  }

  /** The worklist is a stack: what was put on it later, and all that follows from it, is finished
      before what was put on it earlier is looked at. */
  lemma {:induction false} LastListedFirst(s: Closing, a: seq<nat>)
    ensures Cascade(s.(carried := a + s.carried)) == Cascade(Cascade(s).(carried := a))
    decreases Pending(s.channels) + |s.carried|
  {
    if s.carried == [] {
      assert a + [] == a;
    } else {
      CascadeStepMeasure(s);
      CascadeStepMeasure(s.(carried := a + s.carried));
      StepBehind(s, a);
      LastListedFirst(CascadeStep(s), a);
    }
  }

  /** A pair neither of whose ends can be reached by any owner again. */
  predicate Dead(strong: Counts, p: Pair) {
    !p.left.open && LastOwner(strong, p.left) && !p.right.open && LastOwner(strong, p.right)
  }

  /** `reap_unowned_channels` from index `i` on. A removed record drops what its mailboxes
      still own, so a later pair is judged by the lowered counts. */
  function Reap(cs: seq<Pair>, strong: Counts, i: nat): (r: (seq<Pair>, Counts))
    requires i <= |cs|
    decreases |cs| - i
  {
    if i == |cs| then (cs, strong)
    else if Dead(strong, cs[i]) then Reap(cs[..i] + cs[i + 1..], Release(strong, Bag(cs[i])), i)
    else Reap(cs, strong, i + 1)
  }

  /** The cascade of closing the endpoint at `(i, d)`, before reaping. */
  function Cascaded(cs: seq<Pair>, strong: Counts, i: nat, d: End): Closing
    requires i < |cs|
  {
    Cascade(CloseEnd(Closing(cs, strong, [], [], []), i, d))
  }

  /** `close_by_koid`: the registry, the counts and the peers to signal. */
  function CloseByKoid(cs: seq<Pair>, strong: Counts, koid: nat): Result<(seq<Pair>, Counts, seq<nat>), IpcError> {
    match Locate(cs, koid)
    case None => Err(NotChannel)
    case Some((i, d)) =>
      var s := Cascaded(cs, strong, i, d);
      var (kept, counts) := Reap(s.channels, s.strong, 0);
      Ok((kept, counts, s.signals))
  }
}
