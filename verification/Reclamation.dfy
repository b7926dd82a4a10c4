/** Reclaiming dead records never strands a live capability (kernel/src/ipc.rs,
    `reap_unowned_channels`, `take_unreferenced_ports`, `channel_pair_mut`). */
module Reclamation {
  import opened Objects
  import opened Channels
  import opened Transfers
  import opened Registry
  import opened CapabilitySystem
  import opened Shedding
  import opened Ownership
  import opened CapabilityRuns
  import CloseCascade
  import MessageOrder

  ghost predicate HasPort(ps: seq<PortRecord>, koid: nat, references: Option<nat>) {
    exists i :: 0 <= i < |ps| && ps[i].koid == koid && ps[i].references == references
  }

  /** `e` leads to the record of the object it names. */
  ghost predicate Leads(s: System, e: OwnedEntry) {
    && (e.entry.kind == Channel ==> HasEnd(s.channels, e.entry.koid, e.reference))
    && (e.entry.kind == Port ==> HasPort(s.ports, e.entry.koid, e.reference))
  }

  /** `e` is a handle to a channel that was never made. */
  predicate Stranded(e: OwnedEntry, lost: set<nat>) {
    e.entry.kind == Channel && e.entry.koid in lost
  }

  /** Of all channel and port capabilities anywhere, exactly those of the `lost` ids do not
      resolve to their own record. */
  ghost predicate ResolvesBut(s: System, lost: set<nat>) {
    forall e :: Holds(s, e) ==> (Leads(s, e) <==> !Stranded(e, lost))
  }

  /** No endpoint has, or will ever get, one of the `lost` ids. */
  ghost predicate Absent(s: System, lost: set<nat>) {
    && (forall k :: k in lost ==> k < s.nextKoid)
    && (forall i, d :: 0 <= i < |s.channels| ==> s.channels[i].At(d).koid !in lost)
  }

  /** Every other capability resolves. */
  ghost predicate Resolves(s: System, lost: set<nat>) {
    Absent(s, lost) && forall e :: Holds(s, e) ==> Leads(s, e) || Stranded(e, lost)
  }

  lemma ResolvesExactly(s: System, lost: set<nat>)
    requires Resolves(s, lost)
    ensures ResolvesBut(s, lost)
  {
    forall e | Holds(s, e) && Stranded(e, lost)
      ensures !Leads(s, e)
    {
      assert forall i, d :: 0 <= i < |s.channels| ==> s.channels[i].At(d).koid != e.entry.koid;
    }
  }

  /** A step keeps every record some owner still needs. */
  ghost predicate KeepsRecords(s: System, t: System) {
    && (forall i, d :: 0 <= i < |s.channels| ==>
          HasEnd(t.channels, s.channels[i].At(d).koid, s.channels[i].At(d).references) || Gone(t.strong, s.channels[i].At(d)))
    && (forall i :: 0 <= i < |s.ports| ==>
          HasPort(t.ports, s.ports[i].koid, s.ports[i].references) || PortUnreferenced(t.strong, s.ports[i]))
  }

  /** An entry that survives a step still leads to its record: its own reference keeps that
      record from being reclaimed. */
  lemma StillLeads(s: System, t: System, lost: set<nat>, e: OwnedEntry)
    requires Core(s) && Core(t) && Resolves(s, lost) && KeepsRecords(s, t) && Holds(t, e) && Descends(s, e)
    ensures Leads(t, e) || Stranded(e, lost)
  {
    var e0 :| Holds(s, e0) && Narrows(e0, e);
    assert Good(t, e) && (Leads(s, e0) || Stranded(e0, lost));
    if e.entry.kind == Channel && !Stranded(e, lost) {
      HolderCounts(t, e, e.reference.value);
      var i, d :| 0 <= i < |s.channels| && s.channels[i].At(d).koid == e.entry.koid && s.channels[i].At(d).references == e.reference;
      assert !Gone(t.strong, s.channels[i].At(d));
    }
    if e.entry.kind == Port {
      HolderCounts(t, e, e.reference.value);
      var i :| 0 <= i < |s.ports| && s.ports[i].koid == e.entry.koid && s.ports[i].references == e.reference;
      assert !PortUnreferenced(t.strong, s.ports[i]);
    }
  }

  lemma SamePorts(s: System, t: System)
    requires t.ports == s.ports
    ensures forall i :: 0 <= i < |s.ports| ==> HasPort(t.ports, s.ports[i].koid, s.ports[i].references)
  {
  }

  lemma MoreRecords(s: System, t: System)
    requires s.channels <= t.channels && s.ports <= t.ports
    ensures KeepsRecords(s, t)
  {
    forall i, d | 0 <= i < |s.channels|
      ensures HasEnd(t.channels, s.channels[i].At(d).koid, s.channels[i].At(d).references)
    {
      assert t.channels[i] == s.channels[i];
    }
    forall i | 0 <= i < |s.ports|
      ensures HasPort(t.ports, s.ports[i].koid, s.ports[i].references)
    {
      assert t.ports[i] == s.ports[i];
    }
  }

  lemma EndsKeepRecords(s: System, t: System)
    requires SameEnds(s.channels, t.channels) && t.ports == s.ports
    ensures KeepsRecords(s, t)
  {
    SamePorts(s, t);
    forall i, d | 0 <= i < |s.channels|
      ensures HasEnd(t.channels, s.channels[i].At(d).koid, s.channels[i].At(d).references)
    {
      assert t.channels[i].At(d).koid == s.channels[i].At(d).koid;
    }
  }

  lemma TakePortsKeepsRecords(s: System)
    ensures KeepsRecords(s, Step(s, TakePorts))
  {
    var t := Step(s, TakePorts);
    MoreRecords(s, s);
    forall i | 0 <= i < |s.ports|
      ensures HasPort(t.ports, s.ports[i].koid, s.ports[i].references) || PortUnreferenced(t.strong, s.ports[i])
    {
      LivePortsIn(s.ports, s.strong, s.ports[i]);
      if !PortUnreferenced(s.strong, s.ports[i]) {
        var j :| 0 <= j < |t.ports| && t.ports[j] == s.ports[i];
        assert t.ports[j].koid == s.ports[i].koid;
      }
    }
  }

  lemma ShedKeepsRecords(s: System, t: System)
    requires Sheds(s.channels, s.strong, t.channels, t.strong) && t.ports == s.ports
    ensures KeepsRecords(s, t)
  {
    SamePorts(s, t);
  }

  lemma SendKeepsRecords(s: System, p: nat, channel: nat, m: Outgoing)
    requires p < |s.tables|
    ensures KeepsRecords(s, StepSend(s, p, channel, m))
  {
    MoreRecords(s, s);
    var t := s.tables[p];
    if Write(t, s.channels, channel, m).Ok? {
      var (i, d) := Locate(s.channels, Get(t, channel).value.koid).value;
      PushedFacts(s.channels, i, Peer(d), Message(m.header, m.bytes, m.handles, Collect(t, m.handles, 0).value));
      EndsKeepRecords(s, StepSend(s, p, channel, m));
    }
  }

  lemma ReceiveKeepsRecords(s: System, p: nat, channel: nat)
    requires p < |s.tables|
    ensures KeepsRecords(s, StepReceive(s, p, channel))
  {
    MoreRecords(s, s);
    var t := s.tables[p];
    if Read(t, s.channels, channel).result.Ok? {
      var (i, d) := Locate(s.channels, Get(t, channel).value.koid).value;
      PoppedFacts(s.channels, i, d);
      EndsKeepRecords(s, StepReceive(s, p, channel));
    }
  }

  lemma KernelKeepsRecords(s: System, op: Op)
    requires op.KernelSend? || op.KernelReceive?
    ensures KeepsRecords(s, Step(s, op))
  {
    MoreRecords(s, s);
    match Locate(s.channels, op.koid)
    case None =>
    case Some((i, d)) =>
      if op.KernelSend? {
        PushedFacts(s.channels, i, Peer(op.from), Message(op.m.header, op.m.bytes, op.m.handles, []));
        EndsKeepRecords(s, Step(s, op));
      } else if s.channels[i].At(op.end).inbox != [] {
        PoppedFacts(s.channels, i, op.end);
        EndsKeepRecords(s, Step(s, op));
      }
  }

  lemma CloseKeepsRecords(s: System, koid: nat)
    ensures KeepsRecords(s, StepClose(s, koid))
  {
    if CloseByKoid(s.channels, s.strong, koid).Ok? {
      CloseSheds(s.channels, s.strong, koid);
      ShedKeepsRecords(s, StepClose(s, koid));
    } else {
      MoreRecords(s, s);
    }
  }

  lemma ReapKeepsRecords(s: System)
    ensures KeepsRecords(s, StepReap(s))
  {
    ReapSheds(s.channels, s.strong, 0);
    ShedKeepsRecords(s, StepReap(s));
  }

  lemma MailKeepsRecords(s: System, op: Op)
    requires op.Send? || op.Receive? || op.KernelSend? || op.KernelReceive?
    ensures KeepsRecords(s, Step(s, op))
  {
    if op.KernelSend? || op.KernelReceive? {
      KernelKeepsRecords(s, op);
    } else if op.p >= |s.tables| {
      MoreRecords(s, s);
    } else if op.Send? {
      SendKeepsRecords(s, op.p, op.channel, op.m);
      assert Step(s, op) == StepSend(s, op.p, op.channel, op.m);
    } else {
      ReceiveKeepsRecords(s, op.p, op.channel);
      assert Step(s, op) == StepReceive(s, op.p, op.channel);
    }
  }

  lemma StepKeepsRecords(s: System, op: Op)
    ensures KeepsRecords(s, Step(s, op))
  {
    if op.CloseKoid? {
      CloseKeepsRecords(s, op.koid);
      assert Step(s, op) == StepClose(s, op.koid);
    } else if op.ReapPairs? {
      ReapKeepsRecords(s);
      assert Step(s, op) == StepReap(s);
    } else if op.TakePorts? {
      TakePortsKeepsRecords(s);
    } else if op.Send? || op.Receive? || op.KernelSend? || op.KernelReceive? {
      MailKeepsRecords(s, op);
    } else {
      GrowsRecords(s, op);
      MoreRecords(s, Step(s, op));
    }
  }

  lemma GrowsRecords(s: System, op: Op)
    requires !(op.CloseKoid? || op.ReapPairs? || op.TakePorts? || op.Send? || op.Receive? || op.KernelSend? || op.KernelReceive?)
    ensures s.channels <= Step(s, op).channels && s.ports <= Step(s, op).ports
  {
  }

  // ---- Ids once lost -------------------------------------------------------------------

  /** A step brings back no endpoint id given out before. */
  ghost predicate NoOldIds(s: System, t: System) {
    && s.nextKoid <= t.nextKoid
    && forall j, f :: 0 <= j < |t.channels| ==>
         t.channels[j].At(f).koid >= s.nextKoid || HasId(s.channels, t.channels[j].At(f).koid)
  }

  ghost predicate HasId(cs: seq<Pair>, koid: nat) {
    exists i, d :: 0 <= i < |cs| && cs[i].At(d).koid == koid
  }

  lemma StaysAbsent(s: System, t: System, lost: set<nat>)
    requires Absent(s, lost) && NoOldIds(s, t)
    ensures Absent(t, lost)
  {
    forall j, f | 0 <= j < |t.channels| && t.channels[j].At(f).koid < s.nextKoid
      ensures t.channels[j].At(f).koid !in lost
    {
      assert HasId(s.channels, t.channels[j].At(f).koid);
      var i, d :| 0 <= i < |s.channels| && s.channels[i].At(d).koid == t.channels[j].At(f).koid;
      assert s.channels[i].At(d).koid !in lost;
    }
  }

  lemma TrimmedNoOldIds(s: System, t: System)
    requires s.nextKoid <= t.nextKoid && MessageOrder.Trimmed(s.channels, t.channels)
    ensures NoOldIds(s, t)
  {
    forall j, f | 0 <= j < |t.channels|
      ensures HasId(s.channels, t.channels[j].At(f).koid)
    {
      assert MessageOrder.From(s.channels, t.channels[j].At(f));
      var i, d :| 0 <= i < |s.channels| && MessageOrder.Trims(s.channels[i].At(d), t.channels[j].At(f));
      assert s.channels[i].At(d).koid == t.channels[j].At(f).koid;
    }
  }

  lemma EndsNoOldIds(s: System, t: System)
    requires s.nextKoid <= t.nextKoid && SameEnds(s.channels, t.channels)
    ensures NoOldIds(s, t)
  {
    forall j, f | 0 <= j < |t.channels|
      ensures HasId(s.channels, t.channels[j].At(f).koid)
    {
      assert s.channels[j].At(f).koid == t.channels[j].At(f).koid;
    }
  }

  lemma MakeNoOldIds(s: System, op: Op)
    requires IdsLeft(s, op) && (op.MakeChannel? || op.MakeRoot?)
    ensures NoOldIds(s, Step(s, op))
  {
    var t := Step(s, op);
    forall j, f | 0 <= j < |t.channels|
      ensures t.channels[j].At(f).koid >= s.nextKoid || HasId(s.channels, t.channels[j].At(f).koid)
    {
      if j < |s.channels| {
        assert t.channels[j] == s.channels[j];
        assert s.channels[j].At(f).koid == t.channels[j].At(f).koid;
      }
    }
  }

  lemma MailNoOldIds(s: System, op: Op)
    requires op.Send? || op.Receive? || op.KernelSend? || op.KernelReceive?
    ensures NoOldIds(s, Step(s, op))
  {
    EndsNoOldIds(s, s);
    if op.Send? {
      if op.p < |s.tables| { SendNoOldIds(s, op.p, op.channel, op.m); }
    } else if op.Receive? {
      if op.p < |s.tables| { ReceiveNoOldIds(s, op.p, op.channel); }
    } else {
      KernelNoOldIds(s, op);
    }
  }

  lemma SendNoOldIds(s: System, p: nat, channel: nat, m: Outgoing)
    requires p < |s.tables|
    ensures NoOldIds(s, StepSend(s, p, channel, m))
  {
    EndsNoOldIds(s, s);
    var t := s.tables[p];
    if Write(t, s.channels, channel, m).Ok? {
      var (i, d) := Locate(s.channels, Get(t, channel).value.koid).value;
      PushedFacts(s.channels, i, Peer(d), Message(m.header, m.bytes, m.handles, Collect(t, m.handles, 0).value));
      EndsNoOldIds(s, StepSend(s, p, channel, m));
    }
  }

  lemma ReceiveNoOldIds(s: System, p: nat, channel: nat)
    requires p < |s.tables|
    ensures NoOldIds(s, StepReceive(s, p, channel))
  {
    EndsNoOldIds(s, s);
    var t := s.tables[p];
    if Read(t, s.channels, channel).result.Ok? {
      var (i, d) := Locate(s.channels, Get(t, channel).value.koid).value;
      PoppedFacts(s.channels, i, d);
    }
    EndsNoOldIds(s, StepReceive(s, p, channel));
  }

  lemma KernelNoOldIds(s: System, op: Op)
    requires op.KernelSend? || op.KernelReceive?
    ensures NoOldIds(s, Step(s, op))
  {
    EndsNoOldIds(s, s);
    match Locate(s.channels, op.koid)
    case None =>
    case Some((i, _)) =>
      if op.KernelSend? {
        PushedFacts(s.channels, i, Peer(op.from), Message(op.m.header, op.m.bytes, op.m.handles, []));
        EndsNoOldIds(s, Step(s, op));
      } else if s.channels[i].At(op.end).inbox != [] {
        PoppedFacts(s.channels, i, op.end);
        EndsNoOldIds(s, Step(s, op));
      }
  }

  lemma StepNoOldIds(s: System, op: Op)
    requires IdsLeft(s, op)
    ensures NoOldIds(s, Step(s, op))
  {
    if op.Send? || op.Receive? || op.KernelSend? || op.KernelReceive? {
      MailNoOldIds(s, op);
    } else if op.MakeChannel? || op.MakeRoot? {
      MakeNoOldIds(s, op);
    } else {
      MessageOrder.OtherTrims(s, op);
      TrimmedNoOldIds(s, Step(s, op));
    }
  }

  // ---- Making new records --------------------------------------------------------------

  /** After a step that only adds to one table and the registries, an entry is an old one or
      lies past the old end of that table. */
  lemma NewOrOld(s: System, t: System, p: nat, e: OwnedEntry)
    requires p < |s.tables| && p < |t.tables| && t.tables == s.tables[p := t.tables[p]]
    requires s.tables[p].entries <= t.tables[p].entries && t.held == s.held
    requires Holds(t, e) && !InQueues(t.channels, e)
    ensures Holds(s, e) || e in t.tables[p].entries[|s.tables[p].entries|..]
  {
    if InTables(t.tables, e) {
      InTablesUpdate(s.tables, p, t.tables[p], e);
      if e in t.tables[p].entries && e !in t.tables[p].entries[|s.tables[p].entries|..] {
        assert t.tables[p].entries == s.tables[p].entries + t.tables[p].entries[|s.tables[p].entries|..];
        assert InTables(s.tables, e);
      }
    }
  }

  /** A creating step resolves if what it adds to the table leads somewhere. */
  lemma MakeResolves(s: System, t: System, lost: set<nat>, p: nat)
    requires Core(s) && Core(t) && Resolves(s, lost) && Absent(t, lost) && KeepsRecords(s, t)
    requires p < |s.tables| && p < |t.tables| && t.tables == s.tables[p := t.tables[p]]
    requires s.tables[p].entries <= t.tables[p].entries && t.held == s.held
    requires forall e :: InQueues(t.channels, e) ==> InQueues(s.channels, e)
    requires forall e :: e in t.tables[p].entries[|s.tables[p].entries|..] ==> Leads(t, e) || Stranded(e, lost)
    ensures Resolves(t, lost)
  {
    forall e | Holds(t, e)
      ensures Leads(t, e) || Stranded(e, lost)
    {
      if !InQueues(t.channels, e) {
        NewOrOld(s, t, p, e);
      }
      if Holds(s, e) {
        SameDescends(s, e, e);
        StillLeads(s, t, lost, e);
      }
    }
  }

  /** Minting adds at most an entry that names no channel and no port. */
  lemma MintAdds(s: System, op: Op)
    requires (op.MintPlain? || op.MintDevice?) && op.p < |s.tables|
    ensures var t := Step(s, op);
            && |t.tables| == |s.tables| && t.tables == s.tables[op.p := t.tables[op.p]] && t.held == s.held && t.channels == s.channels
            && s.tables[op.p].entries <= t.tables[op.p].entries
            && forall e :: e in t.tables[op.p].entries[|s.tables[op.p].entries|..] ==> e.entry.kind != Channel && e.entry.kind != Port
  {
    assert s.tables[op.p := s.tables[op.p]] == s.tables;
  }

  lemma PlainResolves(s: System, lost: set<nat>, op: Op)
    requires Core(s) && IdsLeft(s, op) && Resolves(s, lost) && (op.MintPlain? || op.MintDevice?)
    ensures Resolves(Step(s, op), lost)
  {
    StepCore(s, op);
    StepKeepsRecords(s, op);
    StepNoOldIds(s, op);
    StaysAbsent(s, Step(s, op), lost);
    if op.p < |s.tables| {
      MintAdds(s, op);
      MakeResolves(s, Step(s, op), lost, op.p);
    }
  }

  lemma PortResolves(s: System, lost: set<nat>, p: nat)
    requires Core(s) && s.nextKoid + 2 <= U64_MAX && Resolves(s, lost) && p < |s.tables|
    ensures Resolves(StepPort(s, p), lost)
  {
    var t := StepPort(s, p);
    PortKeeps(s, p);
    StepKeepsRecords(s, MakePort(p));
    StepNoOldIds(s, MakePort(p));
    StaysAbsent(s, t, lost);
    assert s.tables[p := s.tables[p]] == s.tables;
    if s.tables[p].next != 0 {
      assert t.ports[|s.ports|] == PortRecord(s.nextKoid, [], Some(|s.strong|));
      assert HasPort(t.ports, s.nextKoid, Some(|s.strong|));
    }
    MakeResolves(s, t, lost, p);
  }

  lemma RootResolves(s: System, lost: set<nat>, p: nat)
    requires Core(s) && s.nextKoid + 2 <= U64_MAX && Resolves(s, lost) && p < |s.tables|
    ensures Resolves(StepRoot(s, p), lost)
  {
    var t := StepRoot(s, p);
    RootKeeps(s, p);
    StepKeepsRecords(s, MakeRoot(p));
    StepNoOldIds(s, MakeRoot(p));
    StaysAbsent(s, t, lost);
    assert s.tables[p := s.tables[p]] == s.tables;
    if s.tables[p].next != 0 {
      var pair := t.channels[|s.channels|];
      assert pair.At(Right).koid == s.nextKoid + 1 && pair.At(Right).references == Some(|s.strong|);
      assert HasEnd(t.channels, s.nextKoid + 1, Some(|s.strong|));
      NewPairQueuesAll(s.channels, pair);
    }
    MakeResolves(s, t, lost, p);
  }

  lemma NewPairQueuesAll(cs: seq<Pair>, p: Pair)
    requires p.left.inbox == [] && p.right.inbox == []
    ensures forall e :: InQueues(cs + [p], e) ==> InQueues(cs, e)
  {
    forall e | InQueues(cs + [p], e)
      ensures InQueues(cs, e)
    {
      NewPairQueues(cs, p, e);
    }
  }

  /** `channel_create` entered with a single handle number left leaves behind a handle to a
      channel that does not exist. */
  predicate Strands(s: System, op: Op) {
    op.MakeChannel? && op.p < |s.tables| && s.tables[op.p].next == LAST_HANDLE
  }

  lemma ChannelResolves(s: System, lost: set<nat>, p: nat)
    requires Core(s) && s.nextKoid + 2 <= U64_MAX && Resolves(s, lost) && p < |s.tables| && s.tables[p].next != LAST_HANDLE
    ensures Resolves(StepChannel(s, p), lost)
  {
    var t := StepChannel(s, p);
    ChannelKeeps(s, p);
    StepKeepsRecords(s, MakeChannel(p));
    StepNoOldIds(s, MakeChannel(p));
    StaysAbsent(s, t, lost);
    assert s.tables[p := s.tables[p]] == s.tables;
    if s.tables[p].next != 0 {
      var pair := t.channels[|s.channels|];
      assert pair.At(Left).koid == s.nextKoid && pair.At(Left).references == Some(|s.strong|);
      assert pair.At(Right).koid == s.nextKoid + 1 && pair.At(Right).references == Some(|s.strong| + 1);
      assert HasEnd(t.channels, s.nextKoid, Some(|s.strong|)) && HasEnd(t.channels, s.nextKoid + 1, Some(|s.strong| + 1));
      NewPairQueuesAll(s.channels, pair);
    }
    MakeResolves(s, t, lost, p);
  }

  lemma ChannelStrands(s: System, lost: set<nat>, p: nat)
    requires Core(s) && s.nextKoid + 2 <= U64_MAX && Resolves(s, lost) && p < |s.tables| && s.tables[p].next == LAST_HANDLE
    ensures Resolves(StepChannel(s, p), lost + {s.nextKoid})
    ensures exists e :: Holds(StepChannel(s, p), e) && Stranded(e, {s.nextKoid})
  {
    var t := StepChannel(s, p);
    ChannelKeeps(s, p);
    StepKeepsRecords(s, MakeChannel(p));
    forall i, d | 0 <= i < |s.channels|
      ensures s.channels[i].At(d).koid != s.nextKoid
    {
      assert GoodEndpoint(s, s.channels[i].At(d));
    }
    var x := Renumbered(NewEntry(s.nextKoid, Channel, CHANNEL_RIGHTS, |s.strong|), LAST_HANDLE);
    assert t.channels == s.channels && t.tables[p].entries == s.tables[p].entries + [x];
    assert x in t.tables[p].entries;
    assert InTables(t.tables, x) && Holds(t, x);
    StrandResolves(s, t, lost, p);
  }

  lemma StrandResolves(s: System, t: System, lost: set<nat>, p: nat)
    requires Core(s) && Core(t) && Resolves(s, lost) && KeepsRecords(s, t) && s.nextKoid < t.nextKoid
    requires p < |s.tables| && p < |t.tables| && t.tables == s.tables[p := t.tables[p]] && t.held == s.held
    requires t.channels == s.channels && forall i, d :: 0 <= i < |s.channels| ==> s.channels[i].At(d).koid != s.nextKoid
    requires exists x :: t.tables[p].entries == s.tables[p].entries + [x] && Stranded(x, {s.nextKoid})
    ensures Resolves(t, lost + {s.nextKoid})
  {
    forall e | Holds(t, e)
      ensures Leads(t, e) || Stranded(e, lost + {s.nextKoid})
    {
      if !InQueues(t.channels, e) {
        NewOrOld(s, t, p, e);
      }
      if Holds(s, e) {
        SameDescends(s, e, e);
        StillLeads(s, t, lost, e);
      }
    }
  }

  /** So where every capability resolves, `channel_create` keeps it so exactly when it is not
      entered with a single handle number left. */
  lemma ChannelResolvesIff(s: System, p: nat)
    requires Core(s) && s.nextKoid + 2 <= U64_MAX && ResolvesBut(s, {}) && p < |s.tables|
    ensures ResolvesBut(StepChannel(s, p), {}) <==> s.tables[p].next != LAST_HANDLE
  {
    var t := StepChannel(s, p);
    if s.tables[p].next != LAST_HANDLE {
      ChannelResolves(s, {}, p);
      ResolvesExactly(t, {});
    } else {
      ChannelStrands(s, {}, p);
      assert {} + {s.nextKoid} == {s.nextKoid};
      ResolvesExactly(t, {s.nextKoid});
      var e :| Holds(t, e) && Stranded(e, {s.nextKoid});
      assert !Leads(t, e) && !Stranded(e, {});
    }
  }

  // ---- Whole runs ----------------------------------------------------------------------

  /** The ids a run hands out to channels it then does not make. */
  function LostIds(s: System, ops: seq<Op>): set<nat>
    decreases |ops|
  {
    if ops == [] then {}
    else (if Strands(s, ops[0]) then {s.nextKoid} else {}) + LostIds(Step(s, ops[0]), ops[1..])
  }

  lemma StepResolves(s: System, lost: set<nat>, op: Op)
    requires Core(s) && Resolves(s, lost) && IdsLeft(s, op)
    ensures Core(Step(s, op)) && Resolves(Step(s, op), lost + if Strands(s, op) then {s.nextKoid} else {})
  {
    var t := Step(s, op);
    assert lost + {} == lost;
    StepCore(s, op);
    if MakesNothing(op) {
      StepKeepsRecords(s, op);
      StepNoOldIds(s, op);
      StaysAbsent(s, t, lost);
      forall e | Holds(t, e)
        ensures Leads(t, e) || Stranded(e, lost)
      {
        StillLeads(s, t, lost, e);
      }
    } else if op.MintPlain? || op.MintDevice? {
      PlainResolves(s, lost, op);
    } else if op.p < |s.tables| {
      match op
      case MakeChannel(p) => if Strands(s, op) { ChannelStrands(s, lost, p); } else { ChannelResolves(s, lost, p); }
      case MakeRoot(p) => RootResolves(s, lost, p);
      case MakePort(p) => PortResolves(s, lost, p);
    }
  }

  lemma {:induction false} RunResolves(s: System, lost: set<nat>, ops: seq<Op>)
    requires Core(s) && Resolves(s, lost) && IdsLeftThroughout(s, ops)
    ensures Core(Run(s, ops)) && Resolves(Run(s, ops), lost + LostIds(s, ops))
    decreases |ops|
  {
    if ops == [] {
      assert lost + LostIds(s, ops) == lost;
    } else {
      var now := if Strands(s, ops[0]) then {s.nextKoid} else {};
      StepResolves(s, lost, ops[0]);
      RunResolves(Step(s, ops[0]), lost + now, ops[1..]);
      assert lost + LostIds(s, ops) == (lost + now) + LostIds(Step(s, ops[0]), ops[1..]);
    }
  }

  /** In every run from boot, after any amount of closing and reaping, a channel or port
      capability in any table, mailbox or in flight resolves to its own record exactly unless
      it is of a channel that was never made, because `channel_create` was entered with a
      single handle number left. */
  lemma BootRunResolves(ops: seq<Op>)
    requires IdsLeftThroughout(boot, ops)
    ensures ResolvesBut(Run(boot, ops), LostIds(boot, ops))
  {
    BootCore();
    RunResolves(boot, {}, ops);
    assert {} + LostIds(boot, ops) == LostIds(boot, ops);
    ResolvesExactly(Run(boot, ops), LostIds(boot, ops));
  }

  // ---- Closing in a run ----------------------------------------------------------------

  /** Owners of each lineage outside the registry of channels. */
  function Outside(s: System): (r: seq<nat>)
    ensures |r| == |s.strong|
  {
    seq(|s.strong|, l requires 0 <= l => CountBags(TableBags(s.tables), l) + Count(s.held, l))
  }

  /** Every state of every run is one the account of `close_by_koid` in `CloseCascade` covers. */
  lemma CoreIsSound(s: System)
    requires Core(s)
    ensures CloseCascade.Sound(s.channels, s.strong, Outside(s))
  {
    var cs := s.channels;
    forall i, d, j, f, e | 0 <= i < |cs| && 0 <= j < |cs| && e in Queued(cs[i].At(d).inbox) && cs[j].At(f).references.Some?
      ensures e.reference == cs[j].At(f).references <==> e.entry.kind == Channel && e.entry.koid == cs[j].At(f).koid
    {
      assert InQueues(cs, e) && Holds(s, e) && Good(s, e);
      assert GoodEndpoint(s, cs[j].At(f));
    }
    forall i, d | 0 <= i < |cs| && cs[i].At(d).references.Some?
      ensures cs[i].At(d).references.value < |s.strong|
    {
      assert GoodEndpoint(s, cs[i].At(d));
    }
  }

  /** In every state of every run, closing an endpoint closes exactly it and the open
      endpoints that lose their last owner on the way. */
  lemma RunCascadeExact(ops: seq<Op>, a: nat, b: End)
    requires IdsLeftThroughout(boot, ops) && a < |Run(boot, ops).channels|
    ensures var s := Run(boot, ops);
            var r := Cascaded(s.channels, s.strong, a, b);
            && CloseCascade.AllSettled(s.channels, r)
            && CloseCascade.ClosedExactly(s.channels, s.strong, a, b, r)
            && CloseCascade.Chained(s.channels, s.channels[a].At(b).koid, r.closed)
            && r.signals == CloseCascade.PeerSignals(s.channels, r.closed)
  {
    var s := Run(boot, ops);
    BootCore();
    RunCore(boot, ops);
    CoreIsSound(s);
    CloseCascade.CascadeExact(s.channels, s.strong, Outside(s), a, b);
  }

  /** And its final reap takes some endpoint's last owner, unnoticed, exactly when the cascade
      leaves some owned endpoint only owners queued in pairs that are then dead. */
  lemma RunCloseExact(ops: seq<Op>, a: nat, b: End)
    requires IdsLeftThroughout(boot, ops) && a < |Run(boot, ops).channels|
    ensures var s := Run(boot, ops);
            var c := Cascaded(s.channels, s.strong, a, b);
            var r := CloseByKoid(s.channels, s.strong, s.channels[a].At(b).koid);
            && r.Ok?
            && ((forall i, d :: 0 <= i < |s.channels| ==> !CloseCascade.Orphaned(c, r.value.1, s.channels[i].At(d)))
                <==> CloseCascade.Spares(c.channels, c.strong))
            && (CloseCascade.Spares(c.channels, c.strong) ==> r.value.0 == CloseCascade.Kept(c.channels, c.strong))
  {
    var s := Run(boot, ops);
    BootCore();
    RunCore(boot, ops);
    CoreIsSound(s);
    CloseCascade.CloseExact(s.channels, s.strong, Outside(s), a, b);
  }
}
