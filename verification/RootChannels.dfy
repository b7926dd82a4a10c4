/** A root channel stays reachable by its id for good (kernel/src/ipc.rs,
    `root_channel_create`, `channel_pair_mut`, `reap_unowned_channels`), although reaping moves
    the records around. */
module RootChannels {
  import opened Objects
  import opened Channels
  import opened Transfers
  import opened CapabilitySystem
  import opened Ownership
  import opened CapabilityRuns
  import opened MessageOrder

  predicate SameIds(p: Pair, q: Pair) {
    && p.left.koid == q.left.koid && p.left.references == q.left.references
    && p.right.koid == q.right.koid && p.right.references == q.right.references
  }

  ghost predicate HasIds(cs: seq<Pair>, p: Pair) {
    exists j :: 0 <= j < |cs| && SameIds(p, cs[j])
  }

  /** Every pair whose left end the kernel keeps is still there. */
  ghost predicate KeepsRoots(cs: seq<Pair>, ds: seq<Pair>) {
    forall i :: 0 <= i < |cs| && cs[i].left.references.None? ==> HasIds(ds, cs[i])
  }

  lemma InPlaceKeeps(cs: seq<Pair>, ds: seq<Pair>)
    requires |cs| <= |ds| && forall i :: 0 <= i < |cs| ==> SameIds(cs[i], ds[i])
    ensures KeepsRoots(cs, ds)
  {
  }

  lemma KeepsThen(cs: seq<Pair>, ds: seq<Pair>, fs: seq<Pair>)
    requires KeepsRoots(cs, ds) && KeepsRoots(ds, fs)
    ensures KeepsRoots(cs, fs)
  {
    forall i | 0 <= i < |cs| && cs[i].left.references.None?
      ensures HasIds(fs, cs[i])
    {
      assert HasIds(ds, cs[i]);
      var j :| 0 <= j < |ds| && SameIds(cs[i], ds[j]);
      assert HasIds(fs, ds[j]);
      var k :| 0 <= k < |fs| && SameIds(ds[j], fs[k]);
      assert SameIds(cs[i], fs[k]);
    }
  }

  lemma CloseEndKeeps(s: Closing, i: nat, d: End)
    requires i < |s.channels|
    ensures KeepsRoots(s.channels, CloseEnd(s, i, d).channels)
  {
    InPlaceKeeps(s.channels, CloseEnd(s, i, d).channels);
  }

  lemma {:induction false} CascadeKeeps(s: Closing)
    ensures KeepsRoots(s.channels, Cascade(s).channels)
    decreases Pending(s.channels) + |s.carried|
  {
    InPlaceKeeps(s.channels, s.channels);
    if s.carried != [] {
      CascadeStepMeasure(s);
      var n := CascadeStep(s);
      var found := Locate(s.channels, s.carried[|s.carried| - 1]);
      if found.Some? {
        CloseEndKeeps(s.(carried := s.carried[..|s.carried| - 1]), found.value.0, found.value.1);
      }
      CascadeKeeps(n);
      KeepsThen(s.channels, n.channels, Cascade(s).channels);
    }
  }

  /** A pair the kernel keeps an end of is never dead. */
  lemma {:induction false} ReapKeepsRoots(cs: seq<Pair>, strong: Counts, i: nat)
    requires i <= |cs|
    ensures KeepsRoots(cs, Reap(cs, strong, i).0)
    decreases |cs| - i
  {
    if i == |cs| {
      InPlaceKeeps(cs, cs);
    } else if Dead(strong, cs[i]) {
      var ds := cs[..i] + cs[i + 1..];
      forall j | 0 <= j < |cs| && cs[j].left.references.None?
        ensures HasIds(ds, cs[j])
      {
        assert SameIds(cs[j], ds[if j < i then j else j - 1]);
      }
      ReapKeepsRoots(ds, Release(strong, Bag(cs[i])), i);
      KeepsThen(cs, ds, Reap(cs, strong, i).0);
    } else {
      ReapKeepsRoots(cs, strong, i + 1);
    }
  }

  lemma CloseKeepsRoots(cs: seq<Pair>, strong: Counts, koid: nat)
    requires CloseByKoid(cs, strong, koid).Ok?
    ensures KeepsRoots(cs, CloseByKoid(cs, strong, koid).value.0)
  {
    var (i, d) := Locate(cs, koid).value;
    var start := Closing(cs, strong, [], [], []);
    var first := CloseEnd(start, i, d);
    var s := Cascade(first);
    CloseEndKeeps(start, i, d);
    CascadeKeeps(first);
    KeepsThen(cs, first.channels, s.channels);
    ReapKeepsRoots(s.channels, s.strong, 0);
    KeepsThen(cs, s.channels, Reap(s.channels, s.strong, 0).0);
  }

  // ---- Steps and runs ------------------------------------------------------------------

  lemma EndsKeep(cs: seq<Pair>, ds: seq<Pair>)
    requires SameEnds(cs, ds)
    ensures KeepsRoots(cs, ds)
  {
    forall i | 0 <= i < |cs|
      ensures SameIds(cs[i], ds[i])
    {
      assert cs[i].At(Left).koid == ds[i].At(Left).koid && cs[i].At(Right).koid == ds[i].At(Right).koid;
    }
    InPlaceKeeps(cs, ds);
  }

  lemma WriteKeepsRoots(t: Table, cs: seq<Pair>, channel: nat, m: Outgoing)
    requires Write(t, cs, channel, m).Ok?
    ensures KeepsRoots(cs, Write(t, cs, channel, m).value.1)
  {
    var (i, d) := Locate(cs, Get(t, channel).value.koid).value;
    PushedFacts(cs, i, Peer(d), Message(m.header, m.bytes, m.handles, Collect(t, m.handles, 0).value));
    EndsKeep(cs, Write(t, cs, channel, m).value.1);
  }

  lemma SendChannels(s: System, p: nat, channel: nat, m: Outgoing)
    ensures var n := Step(s, Send(p, channel, m));
            if p < |s.tables| && Write(s.tables[p], s.channels, channel, m).Ok?
            then n.channels == Write(s.tables[p], s.channels, channel, m).value.1 else n == s
  {
  }

  lemma SendKeepsRoots(s: System, p: nat, channel: nat, m: Outgoing)
    ensures KeepsRoots(s.channels, Step(s, Send(p, channel, m)).channels)
  {
    SendChannels(s, p, channel, m);
    if p < |s.tables| && Write(s.tables[p], s.channels, channel, m).Ok? {
      WriteKeepsRoots(s.tables[p], s.channels, channel, m);
    } else {
      InPlaceKeeps(s.channels, s.channels);
    }
  }

  lemma ReadKeepsRoots(t: Table, cs: seq<Pair>, channel: nat)
    ensures KeepsRoots(cs, Read(t, cs, channel).channels)
  {
    if Read(t, cs, channel).result.Ok? {
      var (i, d) := Locate(cs, Get(t, channel).value.koid).value;
      PoppedFacts(cs, i, d);
      EndsKeep(cs, Read(t, cs, channel).channels);
    } else {
      InPlaceKeeps(cs, cs);
    }
  }

  lemma ReceiveChannels(s: System, p: nat, channel: nat)
    ensures Step(s, Receive(p, channel)).channels
         == if p < |s.tables| then Read(s.tables[p], s.channels, channel).channels else s.channels
  {
  }

  lemma ReceiveKeepsRoots(s: System, p: nat, channel: nat)
    ensures KeepsRoots(s.channels, Step(s, Receive(p, channel)).channels)
  {
    ReceiveChannels(s, p, channel);
    if p < |s.tables| {
      ReadKeepsRoots(s.tables[p], s.channels, channel);
    } else {
      InPlaceKeeps(s.channels, s.channels);
    }
  }

  lemma KernelKeepsRoots(s: System, op: Op)
    requires op.KernelSend? || op.KernelReceive?
    ensures KeepsRoots(s.channels, Step(s, op).channels)
  {
    var cs := s.channels;
    InPlaceKeeps(cs, cs);
    var found := Locate(cs, op.koid);
    if found.Some? {
      var i := found.value.0;
      if op.KernelSend? {
        if cs[i].At(Peer(op.from)).open {
          var m := Message(op.m.header, op.m.bytes, op.m.handles, []);
          assert Step(s, op).channels == Pushed(cs, i, Peer(op.from), m);
          PushedFacts(cs, i, Peer(op.from), m);
          EndsKeep(cs, Pushed(cs, i, Peer(op.from), m));
        }
      } else if cs[i].At(op.end).inbox != [] {
        assert Step(s, op).channels == Transfers.Popped(cs, i, op.end);
        PoppedFacts(cs, i, op.end);
        EndsKeep(cs, Transfers.Popped(cs, i, op.end));
      }
    }
  }

  lemma MakeKeepsRoots(s: System, op: Op)
    requires op.MakeChannel? || op.MakeRoot?
    ensures KeepsRoots(s.channels, Step(s, op).channels)
  {
    InPlaceKeeps(s.channels, Step(s, op).channels);
  }

  lemma MailKeepsRoots(s: System, op: Op)
    requires op.Send? || op.Receive? || op.KernelSend? || op.KernelReceive?
    ensures KeepsRoots(s.channels, Step(s, op).channels)
  {
    if op.Send? {
      SendKeepsRoots(s, op.p, op.channel, op.m);
    } else if op.Receive? {
      ReceiveKeepsRoots(s, op.p, op.channel);
    } else {
      KernelKeepsRoots(s, op);
    }
  }

  lemma StepCloseKeepsRoots(s: System, koid: nat)
    ensures KeepsRoots(s.channels, StepClose(s, koid).channels)
  {
    if CloseByKoid(s.channels, s.strong, koid).Ok? {
      CloseKeepsRoots(s.channels, s.strong, koid);
    } else {
      InPlaceKeeps(s.channels, s.channels);
    }
  }

  lemma StepKeepsRoots(s: System, op: Op)
    requires IdsLeft(s, op)
    ensures KeepsRoots(s.channels, Step(s, op).channels)
  {
    if op.Send? || op.Receive? || op.KernelSend? || op.KernelReceive? {
      MailKeepsRoots(s, op);
    } else if op.MakeChannel? || op.MakeRoot? {
      MakeKeepsRoots(s, op);
    } else if op.CloseKoid? {
      StepCloseKeepsRoots(s, op.koid);
      assert Step(s, op) == StepClose(s, op.koid);
    } else if op.ReapPairs? {
      ReapKeepsRoots(s.channels, s.strong, 0);
      assert Step(s, op).channels == Reap(s.channels, s.strong, 0).0;
    } else {
      SilentKeepsChannels(s, op);
      InPlaceKeeps(s.channels, s.channels);
    }
  }

  lemma SilentKeepsChannels(s: System, op: Op)
    requires Silent(op) && !op.CloseKoid? && !op.ReapPairs? && IdsLeft(s, op)
    ensures Step(s, op).channels == s.channels
  {
    if op.MintPlain? || op.MintDevice? || op.MakePort? {
      MintNoMail(s, op);
    } else {
      TableNoMail(s, op);
    }
  }

  /** `channel_pair_mut(id)` finds the pair of the kernel's end `id` and the end `peer`. */
  ghost predicate RootPair(s: System, id: nat, peer: nat, references: Option<nat>) {
    && Locate(s.channels, id).Some?
    && var (i, d) := Locate(s.channels, id).value;
       && d == Left && s.channels[i].left.references == None
       && s.channels[i].right.koid == peer && s.channels[i].right.references == references
  }

  /** `root_channel_create` makes such a pair whenever the table has a number left. */
  lemma RootMade(s: System, p: nat)
    requires Core(s) && IdsLeft(s, MakeRoot(p)) && p < |s.tables| && s.tables[p].next != 0
    ensures RootPair(Step(s, MakeRoot(p)), s.nextKoid, s.nextKoid + 1, Some(|s.strong|))
  {
    var t := Step(s, MakeRoot(p));
    StepCore(s, MakeRoot(p));
    assert t.channels[|s.channels|].At(Left).koid == s.nextKoid;
    LocateAt(t.channels, |s.channels|, Left);
  }

  /** By its id, the kernel finds the same root channel after any run. */
  lemma {:induction false} RunKeepsRoots(s: System, ops: seq<Op>, id: nat, peer: nat, references: Option<nat>)
    requires Core(s) && IdsLeftThroughout(s, ops) && RootPair(s, id, peer, references)
    ensures RootPair(Run(s, ops), id, peer, references)
    decreases |ops|
  {
    if ops != [] {
      var t := Step(s, ops[0]);
      StepCore(s, ops[0]);
      StepKeepsRoots(s, ops[0]);
      var (i, _) := Locate(s.channels, id).value;
      assert HasIds(t.channels, s.channels[i]);
      var j :| 0 <= j < |t.channels| && SameIds(s.channels[i], t.channels[j]);
      assert t.channels[j].At(Left).koid == id;
      LocateAt(t.channels, j, Left);
      RunKeepsRoots(t, ops[1..], id, peer, references);
    }
  }

  /** A root channel made at any point of any run from boot is found by its id ever after. */
  lemma RootStays(before: seq<Op>, p: nat, after: seq<Op>)
    requires IdsLeftThroughout(boot, before)
    requires var s := Run(boot, before);
             && p < |s.tables| && s.tables[p].next != 0 && IdsLeft(s, MakeRoot(p))
             && IdsLeftThroughout(Step(s, MakeRoot(p)), after)
    ensures var s := Run(boot, before);
            RootPair(Run(Step(s, MakeRoot(p)), after), s.nextKoid, s.nextKoid + 1, Some(|s.strong|))
  {
    var s := Run(boot, before);
    BootCore();
    RunCore(boot, before);
    RootMade(s, p);
    StepCore(s, MakeRoot(p));
    RunKeepsRoots(Step(s, MakeRoot(p)), after, s.nextKoid, s.nextKoid + 1, Some(|s.strong|));
  }
}
