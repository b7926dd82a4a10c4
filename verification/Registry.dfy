/** The mutable IPC registry of kernel/src/ipc.rs, proved against the values of modules
    Channels, Transfers and Ports. Drops that Rust performs at the end of a scope are
    explicit calls on the reference heap. */
module Registry {
  import opened Objects
  import opened Channels
  import opened Transfers
  import opened HandleTables
  import Ports

  // ---- Creating ------------------------------------------------------------------------

  /** READ | WRITE | TRANSFER | DUPLICATE | WAIT. */
  const CHANNEL_RIGHTS: Rights := 0x2F
  /** WAIT | TRANSFER | DUPLICATE. */
  const PORT_RIGHTS: Rights := 0x23

  datatype PortRecord = PortRecord(koid: nat, packets: seq<Ports.Packet>, references: Option<nat>)

  function NewEntry(koid: nat, kind: ObjectKind, rights: Rights, lineage: nat): OwnedEntry {
    OwnedEntry(HandleEntry(0, koid, kind, rights), Some(lineage))
  }

  function NewEndpoint(koid: nat, references: Option<nat>): Endpoint {
    Endpoint(koid, [], true, references)
  }

  /** What a creation makes of the creator's table, the registry and the counts. */
  datatype Created<R> = Created(table: Table, record: Option<R>, strong: Counts, result: Result<(nat, nat), IpcError>)

  /** `channel_create`. The left handle is inserted first and is not taken back when the right
      one does not fit. */
  function CreateChannel(t: Table, strong: Counts, left: nat, right: nat): Created<Pair> {
    var l := |strong|;
    if t.next == 0 then Created(t, None, strong + [0], Err(IpcError.TableFull))
    else
      var t1 := Inserted(t, NewEntry(left, Channel, CHANNEL_RIGHTS, l));
      if t1.next == 0 then Created(t1, None, strong + [1] + [0], Err(IpcError.TableFull))
      else
        var t2 := Inserted(t1, NewEntry(right, Channel, CHANNEL_RIGHTS, l + 1));
        Created(t2, Some(Pair(NewEndpoint(left, Some(l)), NewEndpoint(right, Some(l + 1)))),
                strong + [1] + [1], Ok((t.next, t1.next)))
  }

  /** `root_channel_create`: the left end stays with the kernel and has no observer. */
  function CreateRoot(t: Table, strong: Counts, left: nat, right: nat): Created<Pair> {
    var l := |strong|;
    if t.next == 0 then Created(t, None, strong + [0], Err(IpcError.TableFull))
    else Created(Inserted(t, NewEntry(right, Channel, CHANNEL_RIGHTS, l)),
                 Some(Pair(NewEndpoint(left, None), NewEndpoint(right, Some(l)))),
                 strong + [1], Ok((t.next, left)))
  }

  /** `port_create`. */
  function CreatePort(t: Table, strong: Counts, koid: nat): Created<PortRecord> {
    var l := |strong|;
    if t.next == 0 then Created(t, None, strong + [0], Err(IpcError.TableFull))
    else Created(Inserted(t, NewEntry(koid, Port, PORT_RIGHTS, l)),
                 Some(PortRecord(koid, [], Some(l))), strong + [1], Ok((t.next, l)))
  }

  predicate PortUnreferenced(strong: Counts, p: PortRecord) {
    p.references.Some? && !Referenced(strong, p.references.value)
  }

  /** Ports some handle can still reach. */
  function LivePorts(ps: seq<PortRecord>, strong: Counts): seq<PortRecord> {
    if ps == [] then []
    else if PortUnreferenced(strong, ps[0]) then LivePorts(ps[1..], strong)
    else [ps[0]] + LivePorts(ps[1..], strong)
  }

  function DeadPorts(ps: seq<PortRecord>, strong: Counts): seq<nat> {
    if ps == [] then []
    else if PortUnreferenced(strong, ps[0]) then [ps[0].koid] + DeadPorts(ps[1..], strong)
    else DeadPorts(ps[1..], strong)
  }

  // ---- The registry object -------------------------------------------------------------

  /** Every entry queued in the registry names a minted lineage. */
  ghost predicate QueueKnown(cs: seq<Pair>, strong: Counts) {
    forall i, d, e :: 0 <= i < |cs| && e in Queued(cs[i].At(d).inbox) && e.reference.Some? ==> e.reference.value < |strong|
  }

  class IpcRegistry {
    var channels: seq<Pair>
    var ports: seq<PortRecord>

    constructor ()
      ensures channels == [] && ports == []
    {
      channels := [];
      ports := [];
    }

    /** `channel_end_for` and `channel_mut_by_koid` in one scan: both stop at the same pair. */
    method FindEnd(koid: nat) returns (r: Option<(nat, End)>)
      ensures r == Locate(channels, koid)
    {
      var i := 0;
      while i < |channels|
        invariant 0 <= i <= |channels|
        invariant LocateFrom(channels, koid, i) == Locate(channels, koid)
      {
        if channels[i].left.koid == koid {
          return Some((i, Left));
        }
        if channels[i].right.koid == koid {
          return Some((i, Right));
        }
        i := i + 1;
      }
      r := None;
    }

    method ChannelCreate(objects: ObjectManager, process: HandleTable, refs: RcHeap)
      returns (r: Result<(nat, nat), IpcError>)
      requires process.Valid()
      modifies this, objects, process, refs
      ensures process.Valid() && ports == old(ports)
      ensures objects.nextKoid == NextKoid(NextKoid(old(objects.nextKoid)))
      ensures var c := CreateChannel(old(process.View()), old(refs.strong), old(objects.nextKoid), NextKoid(old(objects.nextKoid)));
              && process.View() == c.table && refs.strong == c.strong && r == c.result
              && channels == old(channels) + (if c.record.Some? then [c.record.value] else [])
    {
      var left := objects.Create();
      var right := objects.Create();
      var first := process.InsertReferenced(left, Channel, CHANNEL_RIGHTS, refs);
      if first.Err? {
        return Err(FromObjectError(first.error));
      }
      var second := process.InsertReferenced(right, Channel, CHANNEL_RIGHTS, refs);
      if second.Err? {
        return Err(FromObjectError(second.error));
      }
      channels := channels + [Pair(NewEndpoint(left, Some(first.value.1)), NewEndpoint(right, Some(second.value.1)))];
      r := Ok((first.value.0, second.value.0));
    }

    method RootChannelCreate(objects: ObjectManager, process: HandleTable, refs: RcHeap)
      returns (r: Result<(nat, nat), IpcError>)
      requires process.Valid()
      modifies this, objects, process, refs
      ensures process.Valid() && ports == old(ports)
      ensures objects.nextKoid == NextKoid(NextKoid(old(objects.nextKoid)))
      ensures var c := CreateRoot(old(process.View()), old(refs.strong), old(objects.nextKoid), NextKoid(old(objects.nextKoid)));
              && process.View() == c.table && refs.strong == c.strong && r == c.result
              && channels == old(channels) + (if c.record.Some? then [c.record.value] else [])
    {
      var left := objects.Create();
      var right := objects.Create();
      var inserted := process.InsertReferenced(right, Channel, CHANNEL_RIGHTS, refs);
      if inserted.Err? {
        return Err(FromObjectError(inserted.error));
      }
      channels := channels + [Pair(NewEndpoint(left, None), NewEndpoint(right, Some(inserted.value.1)))];
      r := Ok((inserted.value.0, left));
    }

    method PortCreate(objects: ObjectManager, process: HandleTable, refs: RcHeap)
      returns (r: Result<(nat, nat), IpcError>)
      requires process.Valid()
      modifies this, objects, process, refs
      ensures process.Valid() && channels == old(channels)
      ensures objects.nextKoid == NextKoid(old(objects.nextKoid))
      ensures var c := CreatePort(old(process.View()), old(refs.strong), old(objects.nextKoid));
              && process.View() == c.table && refs.strong == c.strong && r == c.result
              && ports == old(ports) + (if c.record.Some? then [c.record.value] else [])
    {
      var koid := objects.Create();
      var inserted := process.InsertReferenced(koid, Port, PORT_RIGHTS, refs);
      if inserted.Err? {
        return Err(FromObjectError(inserted.error));
      }
      ports := ports + [PortRecord(koid, [], Some(inserted.value.1))];
      r := Ok(inserted.value);
    }

    /** `take_unreferenced_ports`. */
    method TakeUnreferencedPorts(refs: RcHeap) returns (removed: seq<nat>)
      modifies this
      ensures channels == old(channels)
      ensures ports == LivePorts(old(ports), refs.strong)
      ensures removed == DeadPorts(old(ports), refs.strong)
    {
      removed := [];
      var index := 0;
      while index < |ports|
        invariant 0 <= index <= |ports| && channels == old(channels)
        invariant ports[..index] + LivePorts(ports[index..], refs.strong) == LivePorts(old(ports), refs.strong)
        invariant removed + DeadPorts(ports[index..], refs.strong) == DeadPorts(old(ports), refs.strong)
        decreases |ports| - index
      {
        var p := ports[index];
        assert ports[index..][1..] == ports[index + 1..];
        if PortUnreferenced(refs.strong, p) {
          removed := removed + [p.koid];
          assert (ports[..index] + ports[index + 1..])[index..] == ports[index + 1..];
          ports := ports[..index] + ports[index + 1..];
        } else {
          assert ports[..index + 1] == ports[..index] + [p];
          index := index + 1;
        }
      }
    }

    /** `channel_write`. A refused send changes nothing at all; a send that goes through moves
        the named entries into one message at the end of the peer's mailbox. The closing loop
        at the end cannot fail. */
    method ChannelWrite(process: HandleTable, refs: RcHeap, channel: nat, m: Outgoing) returns (r: Result<(), IpcError>)
      requires process.Valid() && Backs(refs.strong, process.entries)
      modifies this, process, refs
      ensures process.Valid() && ports == old(ports) && refs.strong == old(refs.strong)
      ensures match Write(old(process.View()), old(channels), channel, m)
              case Err(e) => r == Err(e) && process.View() == old(process.View()) && channels == old(channels)
              case Ok((t, cs)) => r == Ok(()) && process.View() == t && channels == cs
    {
      var required := process.RequireEntry(channel, Channel, WRITE);
      if required.Err? {
        return Err(FromObjectError(required.error));
      }
      var found := FindEnd(required.value.koid);
      if found.None? {
        return Err(NotChannel);
      }
      var (index, end) := found.value;
      var collected := CollectTransfers(process, refs, m.handles);
      if collected.Err? {
        return Err(collected.error);
      }
      var transfers := collected.value;
      ghost var strong := old(refs.strong);
      assert Backs(refs.strong, transfers) by {
        CollectedBacks(process.View(), strong, m.handles);
      }
      RetainRelease(strong, transfers);
      if |m.bytes| > MAX_INLINE_BYTES {
        refs.DropAll(transfers);
        return Err(TooManyBytes);
      }
      if |m.handles| > MAX_MESSAGE_HANDLES {
        refs.DropAll(transfers);
        return Err(TooManyHandles);
      }
      if !channels[index].At(Peer(end)).open {
        refs.DropAll(transfers);
        return Err(PeerClosed);
      }
      channels := Pushed(channels, index, Peer(end), Message(m.header, m.bytes, m.handles, transfers));
      CloseSources(process, refs, m.handles, strong);
      r := Ok(());
    }

    /** The collecting loop of `channel_write`: clone every named entry, or drop the clones
        made so far and refuse. */
    method CollectTransfers(process: HandleTable, refs: RcHeap, handles: seq<nat>) returns (r: Result<seq<OwnedEntry>, IpcError>)
      requires process.Valid() && Backs(refs.strong, process.entries)
      modifies refs
      ensures r == Collect(process.View(), handles, 0)
      ensures refs.strong == if r.Ok? then Retain(old(refs.strong), r.value) else old(refs.strong)
    {
      var transfers: seq<OwnedEntry> := [];
      var index := 0;
      ghost var t, strong := process.View(), refs.strong;
      RetainRelease(strong, []);
      assert Collect(t, handles, 0).Ok? ==> [] + Collect(t, handles, 0).value == Collect(t, handles, 0).value;
      while index < |handles|
        invariant 0 <= index <= |handles| && process.View() == t
        invariant refs.strong == Retain(strong, transfers)
        invariant forall e :: e in transfers ==> e in t.entries
        invariant match Collect(t, handles, index)
                  case Err(e) => Collect(t, handles, 0) == Err(e)
                  case Ok(rest) => Collect(t, handles, 0) == Ok(transfers + rest)
      {
        RetainRelease(strong, transfers);
        RetainBacks(strong, t.entries, transfers);
        var handle := handles[index];
        if handle in handles[..index] {
          refs.DropAll(transfers);
          return Err(IpcError.BadHandle);
        }
        var got := process.GetEntry(handle);
        if got.Err? {
          refs.DropAll(transfers);
          return Err(FromObjectError(got.error));
        }
        if !Contains(got.value.rights, TRANSFER) {
          refs.DropAll(transfers);
          return Err(IpcError.AccessDenied);
        }
        var cloned := process.CloneEntry(handle, refs);
        ReleaseConcat(strong, transfers, [cloned.value]);
        ghost var rest := Collect(t, handles, index + 1);
        assert rest.Ok? ==> transfers + ([cloned.value] + rest.value) == transfers + [cloned.value] + rest.value;
        transfers := transfers + [cloned.value];
        index := index + 1;
      }
      assert transfers + [] == transfers;
      r := Ok(transfers);
    }

    /** The closing loop of `channel_write`: each named handle is still there when its turn
        comes, and dropping it pays back the clone in the message. */
    method CloseSources(process: HandleTable, refs: RcHeap, handles: seq<nat>, ghost strong: Counts)
      requires process.Valid() && Collect(process.View(), handles, 0).Ok?
      requires Backs(strong, process.entries) && refs.strong == Retain(strong, Collect(process.View(), handles, 0).value)
      modifies process, refs
      ensures process.Valid() && refs.strong == strong
      ensures process.View() == old(process.View()).(entries := Without(old(process.entries), handles))
    {
      ghost var t := process.View();
      ghost var es := Collect(t, handles, 0).value;
      var j := 0;
      WithoutNone(t.entries);
      PaidEnds(strong, es);
      while j < |handles|
        invariant 0 <= j <= |handles| && process.Valid()
        invariant process.View() == t.(entries := Without(t.entries, handles[..j]))
        invariant refs.strong == Paid(strong, es, j)
      {
        CloseTurn(t, strong, handles, j);
        var closed := process.Close(handles[j], refs);
        if closed.Err? {
          assert false;
        }
        j := j + 1;
      }
      assert handles[..j] == handles;
    }

    /** `install_transfers`: install every entry of the message in the receiver, or take back
        all that were installed. Either way no owner is made or lost. */
    method InstallTransfers(process: HandleTable, refs: RcHeap, m: Message) returns (r: Result<Message, IpcError>)
      requires process.Valid() && Backs(refs.strong, process.entries)
      requires forall e :: e in m.transfers && e.reference.Some? ==> e.reference.value < |refs.strong|
      modifies process, refs
      ensures process.Valid() && refs.strong == old(refs.strong)
      ensures var t := old(process.View());
              if |m.transfers| > Room(t) then r == Err(IpcError.TableFull) && process.View() == t.(next := 0)
              else r == Ok(Delivered(t, m)) && process.View() == Install(t, m.transfers)
    {
      ghost var t, strong := process.View(), refs.strong;
      var es := m.transfers;
      var installed: seq<nat> := [];
      var k := 0;
      PaidEnds(strong, []);
      while k < |es|
        invariant 0 <= k <= |es| && k <= Room(t) && process.Valid()
        invariant process.View() == Install(t, es[..k]) && process.nextHandle == NextAfter(t, k)
        invariant installed == Handles(t.next, k)
        invariant refs.strong == Retain(strong, es[..k])
      {
        InstallTurn(t, strong, es, k);
        var entry := es[k];
        refs.CloneOf(entry);
        RetainRelease(Retain(strong, es[..k]), [entry]);
        var inserted := process.InsertEntry(entry, refs);
        if inserted.Err? {
          TakeBack(process, refs, installed, t, es[..k], strong);
          return Err(IpcError.TableFull);
        }
        installed := installed + [inserted.value];
        assert es[..k + 1] == es[..k] + [entry];
        k := k + 1;
      }
      assert es[..k] == es;
      RetainRelease(strong, es);
      RetainedBacks(strong, t.entries, es);
      refs.DropAll(es);
      r := Ok(m.(handles := installed, header := m.header.(handlesLen := |installed| % 0x1_0000_0000), transfers := []));
    }

    /** The rollback loop of `install_transfers`, entered with every number used up. */
    method TakeBack(process: HandleTable, refs: RcHeap, installed: seq<nat>, ghost t: Table, ghost es: seq<OwnedEntry>, ghost strong: Counts)
      requires ValidTable(t) && |es| == Room(t) && Backs(strong, t.entries)
      requires forall e :: e in es && e.reference.Some? ==> e.reference.value < |strong|
      requires process.Valid() && process.View() == Install(t, es) && process.nextHandle == 0
      requires installed == Handles(t.next, |es|) && refs.strong == Retain(strong, es)
      modifies process, refs
      ensures process.Valid() && process.View() == t.(next := 0) && refs.strong == strong
    {
      var j := 0;
      InstallExact(t, es);
      PaidEnds(strong, es);
      assert es[0..] == es;
      while j < |installed|
        invariant 0 <= j <= |installed| && process.Valid()
        invariant process.View() == Unwound(t, es, j)
        invariant refs.strong == Paid(strong, es, j)
      {
        RollbackTurn(t, strong, es, j);
        var closed := process.Close(installed[j], refs);
        if closed.Err? {
          assert false;
        }
        j := j + 1;
      }
      assert Unwound(t, es, |es|) == t.(next := 0);
    }

    /** `channel_read`. A read that fails leaves the receiver's entries, the mailbox and every
        count as they were, also after a partial installation. */
    method ChannelRead(process: HandleTable, refs: RcHeap, channel: nat) returns (r: Result<Message, IpcError>)
      requires process.Valid() && Backs(refs.strong, process.entries) && QueueKnown(channels, refs.strong)
      modifies this, process, refs
      ensures process.Valid() && ports == old(ports) && refs.strong == old(refs.strong)
      ensures Received(process.View(), channels, r) == Read(old(process.View()), old(channels), channel)
    {
      var required := process.RequireEntry(channel, Channel, READ);
      if required.Err? {
        return Err(FromObjectError(required.error));
      }
      var found := FindEnd(required.value.koid);
      if found.None? {
        return Err(NotChannel);
      }
      var (index, end) := found.value;
      var inbox := channels[index].At(end).inbox;
      if inbox == [] {
        return Err(if channels[index].At(Peer(end)).open then ShouldWait else PeerClosed);
      }
      forall e | e in inbox[0].transfers
        ensures e in Queued(channels[index].At(end).inbox)
      {
      }
      var received := InstallTransfers(process, refs, inbox[0]);
      if received.Err? {
        return Err(received.error);
      }
      channels := Transfers.Popped(channels, index, end);
      r := received;
    }

    /** `collect_carried_transfers`: drop every message of a mailbox and list the channel
        endpoints they carried. */
    method DrainMailbox(index: nat, end: End, refs: RcHeap) returns (carried: seq<nat>)
      requires index < |channels| && Backs(refs.strong, Queued(channels[index].At(end).inbox))
      modifies this, refs
      ensures ports == old(ports)
      ensures var e := old(channels)[index].At(end);
              && channels == old(channels)[index := old(channels)[index].With(end, e.(inbox := []))]
              && carried == Carried(Queued(e.inbox))
              && refs.strong == Release(old(refs.strong), Queued(e.inbox))
    {
      var inbox := channels[index].At(end).inbox;
      channels := channels[index := channels[index].With(end, channels[index].At(end).(inbox := []))];
      carried := [];
      var i := 0;
      RetainRelease(refs.strong, []);
      while i < |inbox|
        invariant 0 <= i <= |inbox| && ports == old(ports)
        invariant channels == old(channels)[index := old(channels)[index].With(end, old(channels)[index].At(end).(inbox := []))]
        invariant carried == Carried(Queued(inbox[..i]))
        invariant refs.strong == Release(old(refs.strong), Queued(inbox[..i]))
      {
        assert inbox[..i + 1] == inbox[..i] + [inbox[i]];
        QueuedConcat(inbox[..i], [inbox[i]]);
        QueuedSingle(inbox[i]);
        CarriedConcat(Queued(inbox[..i]), inbox[i].transfers);
        ReleaseConcat(old(refs.strong), Queued(inbox[..i]), inbox[i].transfers);
        DrainTurn(old(refs.strong), inbox, i);
        var listed := DropMessage(inbox[i].transfers, refs);
        carried := carried + listed;
        i := i + 1;
      }
      assert inbox[..i] == inbox;
    }

    method DropMessage(es: seq<OwnedEntry>, refs: RcHeap) returns (listed: seq<nat>)
      requires Backs(refs.strong, es)
      modifies refs
      ensures listed == Carried(es) && refs.strong == Release(old(refs.strong), es)
    {
      listed := [];
      var i := 0;
      while i < |es|
        invariant 0 <= i <= |es|
        invariant listed + Carried(es[i..]) == Carried(es)
      {
        assert es[i..][1..] == es[i + 1..];
        if es[i].entry.kind == Channel {
          listed := listed + [es[i].entry.koid];
        }
        i := i + 1;
      }
      refs.DropAll(es);
    }

    /** `close_by_koid`. */
    method CloseEndpoint(koid: nat, refs: RcHeap) returns (r: Result<seq<nat>, IpcError>)
      requires QueueBacked(channels, refs.strong)
      modifies this, refs
      ensures ports == old(ports)
      ensures match CloseByKoid(old(channels), old(refs.strong), koid)
              case Err(e) => r == Err(e) && channels == old(channels) && refs.strong == old(refs.strong)
              case Ok((cs, strong, signals)) => r == Ok(signals) && channels == cs && refs.strong == strong
    {
      var found := FindEnd(koid);
      if found.None? {
        return Err(NotChannel);
      }
      var (index, end) := found.value;
      ghost var start := Closing(channels, refs.strong, [], [], []);
      ghost var s := CloseEnd(start, index, end);
      var signals, carried := CloseOne(index, end, [], [], refs, start);
      while carried != []
        invariant s == Closing(channels, refs.strong, carried, signals, s.closed)
        invariant ports == old(ports) && QueueBacked(channels, refs.strong)
        invariant Cascade(s) == Cascaded(old(channels), old(refs.strong), index, end)
        decreases Pending(channels) + |carried|
      {
        CascadeStepMeasure(s);
        var carriedKoid := carried[|carried| - 1];
        carried := carried[..|carried| - 1];
        var next := FindEnd(carriedKoid);
        ghost var popped := s.(carried := carried);
        s := CascadeStep(s);
        if next.Some? {
          var (i, d) := next.value;
          var e := channels[i].At(d);
          if e.open && LastOwner(refs.strong, e) {
            signals, carried := CloseOne(i, d, signals, carried, refs, popped);
          }
        }
      }
      assert Cascade(s) == s;
      var dropped := ReapUnowned(refs);
      r := Ok(signals);
    }

    /** Close one end, list its peer if that is open, and drop its mailbox if its last owner is
        gone. */
    method CloseOne(i: nat, d: End, signals: seq<nat>, carried: seq<nat>, refs: RcHeap, ghost s: Closing)
      returns (signals': seq<nat>, carried': seq<nat>)
      requires i < |channels| && QueueBacked(channels, refs.strong)
      requires s == Closing(channels, refs.strong, carried, signals, s.closed)
      modifies this, refs
      ensures ports == old(ports) && QueueBacked(channels, refs.strong)
      ensures Closing(channels, refs.strong, carried', signals', CloseEnd(s, i, d).closed) == CloseEnd(s, i, d)
    {
      CloseEndBacked(s, i, d);
      MailboxBacked(channels, refs.strong, i, d);
      var p := channels[i];
      var e := p.At(d);
      ghost var cs := channels;
      channels := channels[i := p.With(d, e.(open := false))];
      signals' := if p.At(Peer(d)).open then signals + [p.At(Peer(d)).koid] else signals;
      carried' := carried;
      if LastOwner(refs.strong, e) {
        var listed := DrainMailbox(i, d, refs);
        carried' := carried + listed;
        WithTwice(p, d, e.(open := false), e.(open := false, inbox := []));
        assert channels == cs[i := p.With(d, e.(open := false, inbox := []))];
      } else {
        RetainRelease(refs.strong, []);
        assert carried + Carried([]) == carried;
      }
    }

    /** `reap_unowned_channels`: a removed record drops what its mailboxes still own. */
    method ReapUnowned(refs: RcHeap) returns (removed: nat)
      requires QueueBacked(channels, refs.strong)
      modifies this, refs
      ensures ports == old(ports) && removed == |old(channels)| - |channels|
      ensures (channels, refs.strong) == Reap(old(channels), old(refs.strong), 0)
    {
      removed := 0;
      var index := 0;
      while index < |channels|
        invariant 0 <= index <= |channels| && ports == old(ports)
        invariant removed == |old(channels)| - |channels|
        invariant QueueBacked(channels, refs.strong)
        invariant Reap(channels, refs.strong, index) == Reap(old(channels), old(refs.strong), 0)
        decreases |channels| - index
      {
        var pair := channels[index];
        if Dead(refs.strong, pair) {
          ReapTurn(channels, refs.strong, index);
          channels := channels[..index] + channels[index + 1..];
          refs.DropAll(Bag(pair));
          removed := removed + 1;
        } else {
          index := index + 1;
        }
      }
    }
  }

  lemma QueuedSingle(m: Message)
    ensures Queued([m]) == m.transfers
  {
    assert [m][1..] == [];
  }

  lemma WithTwice(p: Pair, d: End, x: Endpoint, y: Endpoint)
    ensures p.With(d, x).With(d, y) == p.With(d, y)
  {
  }

  /** The counts cover everything queued. */
  ghost predicate QueueBacked(cs: seq<Pair>, strong: Counts) {
    && QueueKnown(cs, strong)
    && (forall l :: 0 <= l < |strong| ==> CountBags(PairBags(cs), l) <= strong[l])
  }

  lemma BagKnown(cs: seq<Pair>, strong: Counts, i: nat)
    requires QueueKnown(cs, strong) && i < |cs|
    ensures forall e :: e in Bag(cs[i]) && e.reference.Some? ==> e.reference.value < |strong|
  {
    forall e | e in Bag(cs[i]) && e.reference.Some?
      ensures e.reference.value < |strong|
    {
      var d := if e in Queued(cs[i].left.inbox) then Left else Right;
      assert e in Queued(cs[i].At(d).inbox);
    }
  }

  lemma ReapTurn(cs: seq<Pair>, strong: Counts, i: nat)
    requires QueueBacked(cs, strong) && i < |cs|
    ensures Backs(strong, Bag(cs[i]))
    ensures QueueBacked(cs[..i] + cs[i + 1..], Release(strong, Bag(cs[i])))
  {
    BagKnown(cs, strong, i);
    var u := cs[..i] + cs[i + 1..];
    forall l | 0 <= l < |strong|
      ensures Count(Bag(cs[i]), l) <= strong[l] && CountBags(PairBags(u), l) <= Release(strong, Bag(cs[i]))[l]
    {
      BagRemove(cs, i, l);
    }
    forall j, d, e | 0 <= j < |u| && e in Queued(u[j].At(d).inbox) && e.reference.Some?
      ensures e.reference.value < |strong|
    {
      assert u[j] == cs[if j < i then j else j + 1];
    }
  }

  lemma MailboxBacked(cs: seq<Pair>, strong: Counts, i: nat, d: End)
    requires QueueBacked(cs, strong) && i < |cs|
    ensures Backs(strong, Queued(cs[i].At(d).inbox))
  {
    forall l | 0 <= l < |strong|
      ensures Count(Queued(cs[i].At(d).inbox), l) <= strong[l]
    {
      BagCount(cs[i], d, l);
      CountBagsSplit(PairBags(cs), i, l);
    }
  }

  lemma CloseEndBacked(s: Closing, i: nat, d: End)
    requires i < |s.channels| && QueueBacked(s.channels, s.strong)
    ensures QueueBacked(CloseEnd(s, i, d).channels, CloseEnd(s, i, d).strong)
  {
    var t := CloseEnd(s, i, d);
    forall l | 0 <= l < |s.strong|
      ensures CountBags(PairBags(t.channels), l) <= t.strong[l]
    {
      BagUpdate(s.channels, i, t.channels[i], l);
      BagCount(s.channels[i], d, l);
      BagCount(t.channels[i], d, l);
    }
    forall j, f, e | 0 <= j < |t.channels| && e in Queued(t.channels[j].At(f).inbox) && e.reference.Some?
      ensures e.reference.value < |t.strong|
    {
      assert e in Queued(s.channels[j].At(f).inbox);
    }
  }

  lemma DrainTurn(strong: Counts, inbox: seq<Message>, i: nat)
    requires Backs(strong, Queued(inbox)) && i < |inbox|
    ensures Backs(Release(strong, Queued(inbox[..i])), inbox[i].transfers)
  {
    assert inbox == inbox[..i] + inbox[i..];
    QueuedConcat(inbox[..i], inbox[i..]);
    var tail := Queued(inbox[i..]);
    assert tail == inbox[i].transfers + Queued(inbox[i..][1..]);
    var now := Release(strong, Queued(inbox[..i]));
    forall l | 0 <= l < |strong|
      ensures Count(inbox[i].transfers, l) <= now[l]
    {
      CountConcat(Queued(inbox[..i]), tail, l);
      CountConcat(inbox[i].transfers, Queued(inbox[i..][1..]), l);
    }
    forall e | e in inbox[i].transfers && e.reference.Some?
      ensures e.reference.value < |strong|
    {
      assert e in tail;
      assert e in Queued(inbox);
    }
  }

  /** One turn of the installing loop. */
  lemma InstallTurn(t: Table, strong: Counts, es: seq<OwnedEntry>, k: nat)
    requires ValidTable(t) && Backs(strong, t.entries) && k < |es| && k <= Room(t)
    requires forall e :: e in es && e.reference.Some? ==> e.reference.value < |strong|
    ensures Retain(Retain(strong, es[..k]), [es[k]]) == Retain(strong, es[..k + 1])
    ensures Live(Retain(strong, es[..k + 1]), es[k])
    ensures NextAfter(t, k) == 0 <==> k == Room(t)
    ensures k < Room(t) ==> Install(t, es[..k + 1]) == Inserted(Install(t, es[..k]), es[k])
    ensures k < Room(t) ==> NextAfter(t, k) == t.next + k && NextAfter(t, k + 1) == NextHandle(t.next + k)
  {
    assert es[..k + 1] == es[..k] + [es[k]];
    ReleaseConcat(strong, es[..k], [es[k]]);
    assert es[..k + 1][..k] == es[..k];
    if es[k].reference.Some? {
      var l := es[k].reference.value;
      CountPositive(es[..k + 1], es[k], l);
      assert 0 <= Count(t.entries, l) <= strong[l];
    }
  }

  lemma RetainedBacks(strong: Counts, held: seq<OwnedEntry>, es: seq<OwnedEntry>)
    requires Backs(strong, held)
    requires forall e :: e in es && e.reference.Some? ==> e.reference.value < |strong|
    ensures Backs(Retain(strong, es), es)
  {
    forall l | 0 <= l < |strong|
      ensures Count(es, l) <= Retain(strong, es)[l]
    {
      assert 0 <= Count(held, l) <= strong[l];
    }
  }

  lemma {:induction false} CountNumbered(es: seq<OwnedEntry>, from: nat, l: nat)
    ensures Count(Numbered(es, from), l) == Count(es, l)
  {
    if es != [] {
      CountNumbered(es[1..], from + 1, l);
      assert Numbered(es, from)[1..] == Numbered(es[1..], from + 1);
    }
  }

  /** The table when the first `j` of the entries installed in `t` were taken back. */
  ghost function Unwound(t: Table, es: seq<OwnedEntry>, j: nat): Table
    requires j <= |es|
  {
    Table(t.entries + Numbered(es[j..], t.next + j), 0)
  }

  /** One turn of the rollback loop: the oldest installed handle is the first entry past the
      receiver's own, and closing it pays back its clone. */
  lemma RollbackTurn(t: Table, strong: Counts, es: seq<OwnedEntry>, j: nat)
    requires ValidTable(t) && |es| == Room(t) && Backs(strong, t.entries) && j < |es|
    requires forall e :: e in es && e.reference.Some? ==> e.reference.value < |strong|
    requires ValidTable(Unwound(t, es, j))
    ensures var u := Unwound(t, es, j);
            && Handles(t.next, |es|)[j] == t.next + j
            && Backs(Paid(strong, es, j), u.entries)
            && Lookup(u, t.next + j) == Some(Renumbered(es[j], t.next + j))
            && Removed(u, t.next + j) == Unwound(t, es, j + 1)
            && Release(Paid(strong, es, j), [Renumbered(es[j], t.next + j)]) == Paid(strong, es, j + 1)
  {
    var u := Unwound(t, es, j);
    assert u.entries[|t.entries|] == Renumbered(es[j], t.next + j);
    LookupAt(u, |t.entries|);
    assert RemoveAt(u.entries, |t.entries|) == t.entries + Numbered(es[j + 1..], t.next + j + 1);
    RollbackCounts(t, strong, es, j);
  }

  lemma RollbackCounts(t: Table, strong: Counts, es: seq<OwnedEntry>, j: nat)
    requires Backs(strong, t.entries) && j < |es|
    requires forall e :: e in es && e.reference.Some? ==> e.reference.value < |strong|
    ensures Backs(Paid(strong, es, j), t.entries + Numbered(es[j..], t.next + j))
    ensures Release(Paid(strong, es, j), [Renumbered(es[j], t.next + j)]) == Paid(strong, es, j + 1)
  {
    var left := t.entries + Numbered(es[j..], t.next + j);
    var now := Paid(strong, es, j);
    forall l | 0 <= l < |strong|
      ensures Count(left, l) <= now[l]
      ensures Count([Renumbered(es[j], t.next + j)], l) == Count([es[j]], l)
    {
      CountConcat(t.entries, Numbered(es[j..], t.next + j), l);
      CountNumbered(es[j..], t.next + j, l);
      assert es == es[..j] + es[j..];
      CountConcat(es[..j], es[j..], l);
      CountSingle(es[j], l);
      CountSingle(Renumbered(es[j], t.next + j), l);
    }
    forall e | e in left && e.reference.Some?
      ensures e.reference.value < |strong|
    {
      if e !in t.entries {
        var i :| 0 <= i < |es[j..]| && Numbered(es[j..], t.next + j)[i] == e;
        assert es[j + i] in es;
      }
    }
    assert es[..j + 1] == es[..j] + [es[j]];
    ReleaseConcat(Retain(strong, es), es[..j], [es[j]]);
  }

  /** The counts once the first `j` of the sources of a sent message were dropped. */
  ghost function Paid(strong: Counts, es: seq<OwnedEntry>, j: nat): Counts
    requires j <= |es|
  {
    Release(Retain(strong, es), es[..j])
  }

  lemma PaidEnds(strong: Counts, es: seq<OwnedEntry>)
    ensures Paid(strong, es, 0) == Retain(strong, es) && Paid(strong, es, |es|) == strong
  {
    assert es[..0] == [] && es[..|es|] == es;
    RetainRelease(Retain(strong, es), []);
    RetainRelease(strong, es);
  }

  /** One turn of the closing loop. */
  lemma CloseTurn(t: Table, strong: Counts, handles: seq<nat>, j: nat)
    requires ValidTable(t) && Backs(strong, t.entries) && Collect(t, handles, 0).Ok? && j < |handles|
    ensures var es := Collect(t, handles, 0).value;
            var u := t.(entries := Without(t.entries, handles[..j]));
            && Backs(Paid(strong, es, j), u.entries)
            && Lookup(u, handles[j]) == Some(es[j])
            && Removed(u, handles[j]) == t.(entries := Without(t.entries, handles[..j + 1]))
            && Release(Paid(strong, es, j), [es[j]]) == Paid(strong, es, j + 1)
  {
    var es := Collect(t, handles, 0).value;
    CloseNext(t, handles, j);
    ClosingBacks(t, strong, handles, j);
    ReleaseConcat(Retain(strong, es), es[..j], [es[j]]);
    assert es[..j + 1] == es[..j] + [es[j]];
  }

  /** Clones of live entries are covered by the counts they raised. */
  lemma RetainBacks(strong: Counts, es: seq<OwnedEntry>, clones: seq<OwnedEntry>)
    requires Backs(strong, es) && forall e :: e in clones ==> e in es
    ensures Backs(Retain(strong, clones), clones)
    ensures Backs(Retain(strong, clones), es)
  {
    forall l | 0 <= l < |strong|
      ensures Count(clones, l) <= Retain(strong, clones)[l] && Count(es, l) <= Retain(strong, clones)[l]
    {
      assert 0 <= Count(es, l) <= strong[l];
    }
  }

  lemma CollectedBacks(t: Table, strong: Counts, handles: seq<nat>)
    requires Backs(strong, t.entries) && Collect(t, handles, 0).Ok?
    ensures Backs(Retain(strong, Collect(t, handles, 0).value), Collect(t, handles, 0).value)
  {
    var es := Collect(t, handles, 0).value;
    CollectIff(t, handles, 0);
    forall e | e in es
      ensures e in t.entries
    {
      var j :| 0 <= j < |es| && es[j] == e;
      assert Lookup(t, handles[j]) == Some(es[j]);
    }
    RetainBacks(strong, t.entries, es);
  }

  /** While the sources are being closed the counts still cover what is left of the table. */
  lemma ClosingBacks(t: Table, strong: Counts, handles: seq<nat>, j: nat)
    requires ValidTable(t) && Backs(strong, t.entries) && Collect(t, handles, 0).Ok? && j <= |handles|
    ensures var es := Collect(t, handles, 0).value;
            Backs(Release(Retain(strong, es), es[..j]), Without(t.entries, handles[..j]))
  {
    var es := Collect(t, handles, 0).value;
    var left := Without(t.entries, handles[..j]);
    var now := Release(Retain(strong, es), es[..j]);
    forall e | e in left
      ensures e in t.entries
    {
      WithoutIn(t.entries, handles[..j], e);
    }
    forall l | 0 <= l < |strong|
      ensures Count(left, l) <= now[l]
    {
      SendConservesUpTo(t, handles, j, l);
      assert es == es[..j] + es[j..];
      CountConcat(es[..j], es[j..], l);
    }
  }
}
