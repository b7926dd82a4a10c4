/** Messages arrive in the order they were sent, each once and whole (kernel/src/ipc.rs,
    `channel_write`, `channel_read` and the mailboxes between them). */
module MessageOrder {
  import opened Objects
  import opened Channels
  import opened Transfers
  import opened CapabilitySystem
  import opened Ownership
  import opened CapabilityRuns

  function Letters(inbox: seq<Message>): (r: seq<Letter>)
    ensures |r| == |inbox|
  {
    seq(|inbox|, i requires 0 <= i < |inbox| => LetterOf(inbox[i]))
  }

  /** What was received at `e` and what is still queued there are, in order, what was sent to
      it. Once `e` is closed its queue may have been dropped. */
  ghost predicate Filed(s: System, e: Endpoint) {
    && Log(s.got, e.koid) + Letters(e.inbox) <= Log(s.sent, e.koid)
    && (e.open ==> Log(s.got, e.koid) + Letters(e.inbox) == Log(s.sent, e.koid))
  }

  ghost predicate AllFiled(s: System) {
    forall i, d :: 0 <= i < |s.channels| ==> Filed(s, s.channels[i].At(d))
  }

  /** For every endpoint that ever was, what was received is a prefix of what was sent. */
  ghost predicate InOrder(s: System) {
    && (forall k :: Log(s.got, k) <= Log(s.sent, k))
    && (forall k :: k in s.sent ==> k < s.nextKoid)
    && AllFiled(s)
  }

  // ---- Steps that send and receive nothing ---------------------------------------------

  /** `e` is `e0`, perhaps closed, perhaps with its queue dropped. */
  ghost predicate Trims(e0: Endpoint, e: Endpoint) {
    && e.koid == e0.koid
    && (e.open ==> e0.open && e.inbox == e0.inbox)
    && (e.inbox == e0.inbox || e.inbox == [])
  }

  ghost predicate From(cs: seq<Pair>, e: Endpoint) {
    exists i, d :: 0 <= i < |cs| && Trims(cs[i].At(d), e)
  }

  ghost predicate Trimmed(cs: seq<Pair>, ds: seq<Pair>) {
    forall j, f :: 0 <= j < |ds| ==> From(cs, ds[j].At(f))
  }

  lemma TrimmedSame(cs: seq<Pair>)
    ensures Trimmed(cs, cs)
  {
    forall j, f | 0 <= j < |cs|
      ensures From(cs, cs[j].At(f))
    {
      assert Trims(cs[j].At(f), cs[j].At(f));
    }
  }

  lemma TrimmedThen(cs: seq<Pair>, ds: seq<Pair>, fs: seq<Pair>)
    requires Trimmed(cs, ds) && Trimmed(ds, fs)
    ensures Trimmed(cs, fs)
  {
    forall j, f | 0 <= j < |fs|
      ensures From(cs, fs[j].At(f))
    {
      assert From(ds, fs[j].At(f));
      var i, d :| 0 <= i < |ds| && Trims(ds[i].At(d), fs[j].At(f));
      assert From(cs, ds[i].At(d));
      var h, c :| 0 <= h < |cs| && Trims(cs[h].At(c), ds[i].At(d));
      assert Trims(cs[h].At(c), fs[j].At(f));
    }
  }

  lemma CloseEndTrims(s: Closing, i: nat, d: End)
    requires i < |s.channels|
    ensures Trimmed(s.channels, CloseEnd(s, i, d).channels)
  {
    var ds := CloseEnd(s, i, d).channels;
    forall j, f | 0 <= j < |ds|
      ensures From(s.channels, ds[j].At(f))
    {
      assert Trims(s.channels[j].At(f), ds[j].At(f));
    }
  }

  lemma {:induction false} CascadeTrims(s: Closing)
    ensures Trimmed(s.channels, Cascade(s).channels)
    decreases Pending(s.channels) + |s.carried|
  {
    TrimmedSame(s.channels);
    if s.carried != [] {
      CascadeStepMeasure(s);
      var n := CascadeStep(s);
      var found := Locate(s.channels, s.carried[|s.carried| - 1]);
      if found.Some? {
        CloseEndTrims(s.(carried := s.carried[..|s.carried| - 1]), found.value.0, found.value.1);
      }
      CascadeTrims(n);
      TrimmedThen(s.channels, n.channels, Cascade(s).channels);
    }
  }

  lemma {:induction false} ReapTrims(cs: seq<Pair>, strong: Counts, i: nat)
    requires i <= |cs|
    ensures Trimmed(cs, Reap(cs, strong, i).0)
    decreases |cs| - i
  {
    if i == |cs| {
      TrimmedSame(cs);
    } else if Dead(strong, cs[i]) {
      var ds := cs[..i] + cs[i + 1..];
      forall j, f | 0 <= j < |ds|
        ensures From(cs, ds[j].At(f))
      {
        assert Trims(cs[if j < i then j else j + 1].At(f), ds[j].At(f));
      }
      ReapTrims(ds, Release(strong, Bag(cs[i])), i);
      TrimmedThen(cs, ds, Reap(cs, strong, i).0);
    } else {
      ReapTrims(cs, strong, i + 1);
    }
  }

  lemma CloseTrims(cs: seq<Pair>, strong: Counts, koid: nat)
    requires CloseByKoid(cs, strong, koid).Ok?
    ensures Trimmed(cs, CloseByKoid(cs, strong, koid).value.0)
  {
    var (i, d) := Locate(cs, koid).value;
    var start := Closing(cs, strong, [], [], []);
    var first := CloseEnd(start, i, d);
    var s := Cascade(first);
    CloseEndTrims(start, i, d);
    CascadeTrims(first);
    TrimmedThen(cs, first.channels, s.channels);
    ReapTrims(s.channels, s.strong, 0);
    TrimmedThen(cs, s.channels, Reap(s.channels, s.strong, 0).0);
  }

  /** Nothing was sent or received. */
  ghost predicate NoMail(s: System, t: System) {
    t.sent == s.sent && t.got == s.got && t.nextKoid >= s.nextKoid
  }

  lemma TrimKeepsOrder(s: System, t: System)
    requires InOrder(s) && Trimmed(s.channels, t.channels)
    requires NoMail(s, t)
    ensures InOrder(t)
  {
    forall j, f | 0 <= j < |t.channels|
      ensures Filed(t, t.channels[j].At(f))
    {
      var e := t.channels[j].At(f);
      var i, d :| 0 <= i < |s.channels| && Trims(s.channels[i].At(d), e);
      assert Filed(s, s.channels[i].At(d));
      if e.inbox == [] {
        assert Log(t.got, e.koid) + Letters([]) == Log(t.got, e.koid);
      }
    }
  }

  // ---- Sending and receiving -----------------------------------------------------------

  lemma {:induction false} LettersConcat(a: seq<Message>, b: seq<Message>)
    ensures Letters(a + b) == Letters(a) + Letters(b)
  {
    assert |Letters(a + b)| == |Letters(a) + Letters(b)|;
    forall i | 0 <= i < |a + b|
      ensures Letters(a + b)[i] == (Letters(a) + Letters(b))[i]
    {
    }
  }

  /** Appending to an open mailbox and to its history of letters sent. */
  lemma PushKeepsOrder(s: System, t: System, i: nat, d: End, m: Message)
    requires InOrder(s) && Endpoints(s) && i < |s.channels| && s.channels[i].At(d).open
    requires t.channels == Pushed(s.channels, i, d, m) && t.nextKoid == s.nextKoid && t.got == s.got
    requires var k := s.channels[i].At(d).koid; t.sent == s.sent[k := Log(s.sent, k) + [LetterOf(m)]]
    ensures InOrder(t)
  {
    var e0 := s.channels[i].At(d);
    assert GoodEndpoint(s, e0);
    forall j, f | 0 <= j < |t.channels|
      ensures Filed(t, t.channels[j].At(f))
    {
      assert Filed(s, s.channels[j].At(f));
      if j == i && f == d {
        LettersConcat(e0.inbox, [m]);
        assert Letters([m]) == [LetterOf(m)];
        assert Log(s.got, e0.koid) + Letters(e0.inbox + [m]) == (Log(s.got, e0.koid) + Letters(e0.inbox)) + [LetterOf(m)];
      } else {
        assert t.channels[j].At(f) == s.channels[j].At(f) && s.channels[j].At(f).koid != e0.koid;
      }
    }
  }

  /** Taking the front message and adding it to the history of letters received. */
  lemma PopKeepsOrder(s: System, t: System, i: nat, d: End)
    requires InOrder(s) && Endpoints(s) && i < |s.channels| && s.channels[i].At(d).inbox != []
    requires t.channels == Transfers.Popped(s.channels, i, d) && t.nextKoid == s.nextKoid && t.sent == s.sent
    requires var e := s.channels[i].At(d); t.got == s.got[e.koid := Log(s.got, e.koid) + [LetterOf(e.inbox[0])]]
    ensures InOrder(t)
  {
    var e0 := s.channels[i].At(d);
    assert Filed(s, e0);
    LettersConcat([e0.inbox[0]], e0.inbox[1..]);
    assert [e0.inbox[0]] + e0.inbox[1..] == e0.inbox && Letters([e0.inbox[0]]) == [LetterOf(e0.inbox[0])];
    var got := Log(s.got, e0.koid);
    assert got + Letters(e0.inbox) == (got + [LetterOf(e0.inbox[0])]) + Letters(e0.inbox[1..]);
    forall j, f | 0 <= j < |t.channels|
      ensures Filed(t, t.channels[j].At(f))
    {
      assert Filed(s, s.channels[j].At(f));
      if j != i || f != d {
        assert t.channels[j].At(f) == s.channels[j].At(f) && s.channels[j].At(f).koid != e0.koid;
      }
    }
  }

  lemma {:induction false} NamedAre(t: Table, handles: seq<nat>, es: seq<OwnedEntry>)
    requires |handles| == |es|
    requires forall j :: 0 <= j < |es| ==> Lookup(t, handles[j]).Some? && CapOf(Lookup(t, handles[j]).value) == CapOf(es[j])
    ensures Named(t, handles) == Caps(es)
  {
    if es != [] {
      var n := |es| - 1;
      NamedAre(t, handles[..n], es[..n]);
      assert Caps(es) == Caps(es[..n]) + [CapOf(es[n])];
    }
  }

  /** The message carries what its sender's handles named. */
  lemma SentNamed(t: Table, handles: seq<nat>)
    requires Collect(t, handles, 0).Ok?
    ensures Named(t, handles) == Caps(Collect(t, handles, 0).value)
  {
    CollectIff(t, handles, 0);
    NamedAre(t, handles, Collect(t, handles, 0).value);
  }

  /** The handles its receiver is told name what the message carried. */
  lemma ReceivedNamed(t: Table, es: seq<OwnedEntry>)
    requires ValidTable(t) && |es| <= Room(t)
    ensures Named(Install(t, es), Handles(t.next, |es|)) == Caps(es)
  {
    forall k | 0 <= k < |es|
      ensures Lookup(Install(t, es), Handles(t.next, |es|)[k]) == Some(Renumbered(es[k], t.next + k))
    {
      ReceivedResolve(t, es, k);
    }
    NamedAre(Install(t, es), Handles(t.next, |es|), es);
  }

  lemma SendInOrder(s: System, p: nat, channel: nat, m: Outgoing)
    requires InOrder(s) && Endpoints(s) && p < |s.tables|
    ensures InOrder(StepSend(s, p, channel, m))
  {
    var t := s.tables[p];
    if Write(t, s.channels, channel, m).Ok? {
      SentNamed(t, m.handles);
      var (i, d) := Locate(s.channels, Get(t, channel).value.koid).value;
      var message := Message(m.header, m.bytes, m.handles, Collect(t, m.handles, 0).value);
      PushKeepsOrder(s, StepSend(s, p, channel, m), i, Peer(d), message);
    }
  }

  lemma ReceiveInOrder(s: System, p: nat, channel: nat)
    requires InOrder(s) && Endpoints(s) && p < |s.tables| && ValidTable(s.tables[p])
    ensures InOrder(StepReceive(s, p, channel))
  {
    var t := s.tables[p];
    var u := StepReceive(s, p, channel);
    if Read(t, s.channels, channel).result.Ok? {
      var (i, d) := Locate(s.channels, Get(t, channel).value.koid).value;
      ReceivedNamed(t, s.channels[i].At(d).inbox[0].transfers);
      PopKeepsOrder(s, u, i, d);
    } else {
      TrimmedSame(s.channels);
      TrimKeepsOrder(s, u);
    }
  }

  lemma KernelInOrder(s: System, op: Op)
    requires InOrder(s) && Endpoints(s) && (op.KernelSend? || op.KernelReceive?)
    ensures InOrder(Step(s, op))
  {
    match Locate(s.channels, op.koid)
    case None =>
    case Some((i, _)) =>
      if op.KernelSend? {
        if s.channels[i].At(Peer(op.from)).open {
          PushKeepsOrder(s, Step(s, op), i, Peer(op.from), Message(op.m.header, op.m.bytes, op.m.handles, []));
        }
      } else if s.channels[i].At(op.end).inbox != [] {
        PopKeepsOrder(s, Step(s, op), i, op.end);
      }
  }

  // ---- New endpoints -------------------------------------------------------------------

  lemma NewPairInOrder(s: System, t: System, p: Pair)
    requires InOrder(s) && t.channels == s.channels + [p] && NoMail(s, t)
    requires forall d :: p.At(d).koid >= s.nextKoid && p.At(d).inbox == []
    ensures InOrder(t)
  {
    forall j, f | 0 <= j < |t.channels|
      ensures Filed(t, t.channels[j].At(f))
    {
      if j < |s.channels| {
        assert t.channels[j] == s.channels[j];
        assert Filed(s, s.channels[j].At(f));
      } else {
        var k := p.At(f).koid;
        assert k !in s.sent;
        assert Log(s.got, k) <= Log(s.sent, k);
        assert Log(t.got, k) + Letters([]) == [];
      }
    }
  }

  lemma MakeInOrder(s: System, op: Op)
    requires InOrder(s) && IdsLeft(s, op) && (op.MakeChannel? || op.MakeRoot?)
    ensures InOrder(Step(s, op))
  {
    var t := Step(s, op);
    if |t.channels| > |s.channels| {
      NewPairInOrder(s, t, t.channels[|s.channels|]);
    } else {
      assert t.channels == s.channels;
      TrimmedSame(s.channels);
      TrimKeepsOrder(s, t);
    }
  }

  // ---- Whole runs ----------------------------------------------------------------------

  predicate Silent(op: Op) {
    !(op.Send? || op.Receive? || op.KernelSend? || op.KernelReceive? || op.MakeChannel? || op.MakeRoot?)
  }

  lemma MintNoMail(s: System, op: Op)
    requires IdsLeft(s, op) && (op.MintPlain? || op.MintDevice? || op.MakePort?)
    ensures NoMail(s, Step(s, op)) && Step(s, op).channels == s.channels
  {
  }

  lemma TableNoMail(s: System, op: Op)
    requires op.NewProcess? || op.Duplicate? || op.Stage? || op.CloseHandle? || op.Remove? || op.Drain? || op.DropHeld? || op.TakePorts?
    ensures NoMail(s, Step(s, op)) && Step(s, op).channels == s.channels
  {
  }

  lemma OtherTrims(s: System, op: Op)
    requires Silent(op) && IdsLeft(s, op)
    ensures NoMail(s, Step(s, op)) && Trimmed(s.channels, Step(s, op).channels)
  {
    TrimmedSame(s.channels);
    if op.CloseKoid? {
      if CloseByKoid(s.channels, s.strong, op.koid).Ok? { CloseTrims(s.channels, s.strong, op.koid); }
    } else if op.ReapPairs? {
      ReapTrims(s.channels, s.strong, 0);
    } else if op.MintPlain? || op.MintDevice? || op.MakePort? {
      MintNoMail(s, op);
    } else {
      TableNoMail(s, op);
    }
  }

  lemma StepInOrder(s: System, op: Op)
    requires Core(s) && InOrder(s) && IdsLeft(s, op)
    ensures InOrder(Step(s, op))
  {
    if op.Send? {
      if op.p < |s.tables| { SendInOrder(s, op.p, op.channel, op.m); }
    } else if op.Receive? {
      if op.p < |s.tables| { ReceiveInOrder(s, op.p, op.channel); }
    } else if op.KernelSend? || op.KernelReceive? {
      KernelInOrder(s, op);
    } else if op.MakeChannel? || op.MakeRoot? {
      MakeInOrder(s, op);
    } else {
      OtherTrims(s, op);
      TrimKeepsOrder(s, Step(s, op));
    }
  }

  /** Over any run: what any endpoint has received is, in order, the first of what was sent
      to it, and while it is open the rest waits in its mailbox. Ordinals, flags, bytes and
      capabilities agree: what the receiver's new handles name is what the sender's named. */
  lemma {:induction false} RunInOrder(s: System, ops: seq<Op>)
    requires Core(s) && InOrder(s) && IdsLeftThroughout(s, ops)
    ensures InOrder(Run(s, ops))
    decreases |ops|
  {
    if ops != [] {
      StepCore(s, ops[0]);
      StepInOrder(s, ops[0]);
      RunInOrder(Step(s, ops[0]), ops[1..]);
    }
  }

  lemma BootRunInOrder(ops: seq<Op>)
    requires IdsLeftThroughout(boot, ops)
    ensures InOrder(Run(boot, ops))
  {
    BootCore();
    RunInOrder(boot, ops);
  }
}
