/** Sending and receiving messages that carry capabilities (kernel/src/ipc.rs,
    `channel_write`, `channel_read` and `install_transfers`), on values. */
module Transfers {
  import opened Objects
  import opened Channels
  import opened Bytes

  /** A message as the sender hands it over. */
  datatype Outgoing = Outgoing(header: Header, bytes: seq<Byte>, handles: seq<nat>)

  // ---- Send ----------------------------------------------------------------------------

  /** The entries the handles from index `i` on name, or the first reason to refuse. */
  function Collect(t: Table, handles: seq<nat>, i: nat): (r: Result<seq<OwnedEntry>, IpcError>)
    requires i <= |handles|
    ensures r.Ok? ==> |r.value| == |handles| - i
    decreases |handles| - i
  {
    if i == |handles| then Ok([])
    else if handles[i] in handles[..i] then Err(IpcError.BadHandle)
    else
      match Lookup(t, handles[i])
      case None => Err(IpcError.BadHandle)
      case Some(e) =>
        if !Contains(e.entry.rights, TRANSFER) then Err(IpcError.AccessDenied)
        else
          match Collect(t, handles, i + 1)
          case Err(error) => Err(error)
          case Ok(rest) => Ok([e] + rest)
  }

  /** Collection succeeds exactly for distinct live handles that may be transferred, and
      yields their entries in order. */
  lemma CollectIff(t: Table, handles: seq<nat>, i: nat)
    requires i <= |handles|
    ensures Collect(t, handles, i).Ok? <==>
            forall j :: i <= j < |handles| ==>
              && handles[j] !in handles[..j]
              && Lookup(t, handles[j]).Some? && Contains(Lookup(t, handles[j]).value.entry.rights, TRANSFER)
    ensures Collect(t, handles, i).Ok? ==>
              forall j :: i <= j < |handles| ==> Lookup(t, handles[j]) == Some(Collect(t, handles, i).value[j - i])
    decreases |handles| - i
  {
    if i < |handles| {
      CollectIff(t, handles, i + 1);
      if Collect(t, handles, i).Ok? {
        var r := Collect(t, handles, i).value;
        forall j | i <= j < |handles|
          ensures Lookup(t, handles[j]) == Some(r[j - i])
        {
          if j > i {
            assert r[j - i] == Collect(t, handles, i + 1).value[j - (i + 1)];
          }
        }
      }
    }
  }

  /** The entries whose handle is not in `gone`. */
  function Without(es: seq<OwnedEntry>, gone: seq<nat>): seq<OwnedEntry> {
    if es == [] then []
    else if es[0].entry.handle in gone then Without(es[1..], gone)
    else [es[0]] + Without(es[1..], gone)
  }

  function Pushed(cs: seq<Pair>, i: nat, d: End, m: Message): seq<Pair>
    requires i < |cs|
  {
    var e := cs[i].At(d);
    cs[i := cs[i].With(d, e.(inbox := e.inbox + [m]))]
  }

  /** `channel_write`: the sender's table and the registry after a send, or the refusal. */
  function Write(t: Table, cs: seq<Pair>, channel: nat, m: Outgoing): Result<(Table, seq<Pair>), IpcError> {
    match Require(t, channel, Channel, WRITE)
    case Err(e) => Err(FromObjectError(e))
    case Ok(entry) =>
      match Locate(cs, entry.koid)
      case None => Err(NotChannel)
      case Some((i, d)) =>
        match Collect(t, m.handles, 0)
        case Err(e) => Err(e)
        case Ok(transfers) =>
          if |m.bytes| > MAX_INLINE_BYTES then Err(TooManyBytes)
          else if |m.handles| > MAX_MESSAGE_HANDLES then Err(TooManyHandles)
          else if !cs[i].At(Peer(d)).open then Err(PeerClosed)
          else Ok((t.(entries := Without(t.entries, m.handles)),
                   Pushed(cs, i, Peer(d), Message(m.header, m.bytes, m.handles, transfers))))
  }

  lemma WithoutNone(es: seq<OwnedEntry>)
    ensures Without(es, []) == es
  {
  }

  lemma {:induction false} WithoutMore(es: seq<OwnedEntry>, gone: seq<nat>, h: nat)
    ensures Without(es, gone + [h]) == Without(Without(es, gone), [h])
  {
    if es != [] {
      WithoutMore(es[1..], gone, h);
      var x := es[0].entry.handle;
      assert x in gone + [h] <==> x in gone || x == h;
      if x !in gone {
        assert Without(es, gone)[1..] == Without(es[1..], gone);
      }
    }
  }

  lemma WithoutIn(es: seq<OwnedEntry>, gone: seq<nat>, e: OwnedEntry)
    ensures e in Without(es, gone) <==> e in es && e.entry.handle !in gone
  {
    if es != [] {
      WithoutIn(es[1..], gone, e);
    }
  }

  /** Taking out the one entry with handle `h` is filtering by it. */
  lemma {:induction false} WithoutOne(es: seq<OwnedEntry>, i: nat)
    requires Ascending(es) && i < |es|
    ensures Without(es, [es[i].entry.handle]) == RemoveAt(es, i)
  {
    var h := es[i].entry.handle;
    var tail := es[1..];
    if i == 0 {
      assert RemoveAt(es, 0) == tail;
      WithoutAbsent(tail, h);
    } else {
      assert tail[i - 1] == es[i] && es[0].entry.handle < h;
      WithoutOne(tail, i - 1);
      assert RemoveAt(es, i) == [es[0]] + RemoveAt(tail, i - 1);
    }
  }

  lemma {:induction false} WithoutAbsent(es: seq<OwnedEntry>, h: nat)
    requires forall e :: e in es ==> e.entry.handle != h
    ensures Without(es, [h]) == es
  {
    if es != [] {
      WithoutAbsent(es[1..], h);
    }
  }

  /** Filtering keeps the order and the validity of a table. */
  lemma WithoutValid(t: Table, gone: seq<nat>)
    requires ValidTable(t)
    ensures ValidTable(t.(entries := Without(t.entries, gone)))
  {
    WithoutAscending(t.entries, gone);
    var u := t.(entries := Without(t.entries, gone));
    forall i | 0 <= i < |u.entries|
      ensures Issued(u, u.entries[i].entry.handle)
    {
      WithoutIn(t.entries, gone, u.entries[i]);
      var j :| 0 <= j < |t.entries| && t.entries[j] == u.entries[i];
      assert Issued(t, t.entries[j].entry.handle);
    }
  }

  lemma WithoutAscending(es: seq<OwnedEntry>, gone: seq<nat>)
    requires Ascending(es)
    ensures Ascending(Without(es, gone))
  {
    if es != [] {
      WithoutAscending(es[1..], gone);
      forall e | e in Without(es[1..], gone)
        ensures es[0].entry.handle < e.entry.handle
      {
        WithoutIn(es[1..], gone, e);
      }
    }
  }

  /** One more named handle closed: the table is the original without the handles so far. */
  lemma CloseNext(t: Table, handles: seq<nat>, j: nat)
    requires ValidTable(t) && j < |handles| && Collect(t, handles, 0).Ok?
    ensures var u := t.(entries := Without(t.entries, handles[..j]));
            && Lookup(u, handles[j]) == Lookup(t, handles[j]) == Some(Collect(t, handles, 0).value[j])
            && Removed(u, handles[j]) == t.(entries := Without(t.entries, handles[..j + 1]))
  {
    CollectIff(t, handles, 0);
    var u := t.(entries := Without(t.entries, handles[..j]));
    var e := Collect(t, handles, 0).value[j];
    WithoutValid(t, handles[..j]);
    WithoutIn(t.entries, handles[..j], e);
    assert e in u.entries;
    var i :| 0 <= i < |u.entries| && u.entries[i] == e;
    LookupAt(u, i);
    WithoutOne(u.entries, i);
    assert handles[..j + 1] == handles[..j] + [handles[j]];
    WithoutMore(t.entries, handles[..j], handles[j]);
  }

  /** A send moves owners from the table into the message: none is made, none is lost. */
  lemma SendConserves(t: Table, handles: seq<nat>, l: nat)
    requires ValidTable(t) && Collect(t, handles, 0).Ok?
    ensures Count(t.entries, l) == Count(Without(t.entries, handles), l) + Count(Collect(t, handles, 0).value, l)
  {
    SendConservesUpTo(t, handles, |handles|, l);
    assert handles[..|handles|] == handles;
    var es := Collect(t, handles, 0).value;
    assert es[..|handles|] == es;
  }

  lemma RemovedCount(t: Table, h: nat, l: nat)
    requires Lookup(t, h).Some?
    ensures Count(t.entries, l) == Count(Removed(t, h).entries, l) + Count([Lookup(t, h).value], l)
  {
    CountRemoveAt(t.entries, Position(t, h).value, l);
  }

  lemma SendConservesNext(t: Table, handles: seq<nat>, j: nat, l: nat)
    requires ValidTable(t) && j < |handles| && Collect(t, handles, 0).Ok?
    ensures Count(Without(t.entries, handles[..j]), l) ==
            Count(Without(t.entries, handles[..j + 1]), l) + Count([Collect(t, handles, 0).value[j]], l)
  {
    CloseNext(t, handles, j);
    RemovedCount(t.(entries := Without(t.entries, handles[..j])), handles[j], l);
  }

  lemma {:induction false} SendConservesUpTo(t: Table, handles: seq<nat>, j: nat, l: nat)
    requires ValidTable(t) && j <= |handles| && Collect(t, handles, 0).Ok?
    ensures Count(t.entries, l) == Count(Without(t.entries, handles[..j]), l) + Count(Collect(t, handles, 0).value[..j], l)
  {
    var es := Collect(t, handles, 0).value;
    if j == 0 {
      WithoutNone(t.entries);
    } else {
      SendConservesUpTo(t, handles, j - 1, l);
      SendConservesNext(t, handles, j - 1, l);
      assert es[..j] == es[..j - 1] + [es[j - 1]];
      CountConcat(es[..j - 1], [es[j - 1]], l);
    }
  }

  // ---- Receive -------------------------------------------------------------------------

  /** Handle numbers a table can still issue. */
  function Room(t: Table): nat {
    if t.next == 0 || t.next > LAST_HANDLE then 0 else LAST_HANDLE - t.next + 1
  }

  /** The table after installing `es` in order. */
  function Install(t: Table, es: seq<OwnedEntry>): Table {
    if es == [] then t else Inserted(Install(t, es[..|es| - 1]), es[|es| - 1])
  }

  /** The issue counter after `n` insertions. */
  function NextAfter(t: Table, n: nat): nat {
    if n == 0 then t.next else if t.next + n > LAST_HANDLE then 0 else t.next + n
  }

  function Numbered(es: seq<OwnedEntry>, from: nat): (r: seq<OwnedEntry>)
    ensures |r| == |es|
  {
    seq(|es|, i requires 0 <= i < |es| => Renumbered(es[i], from + i))
  }

  function Handles(from: nat, n: nat): (r: seq<nat>)
    ensures |r| == n
  {
    seq(n, i requires 0 <= i => from + i)
  }

  /** `Received(t, cs, r)`: the receiver's table, the registry and the result of a read. */
  datatype Received = Received(table: Table, channels: seq<Pair>, result: Result<Message, IpcError>)

  function Popped(cs: seq<Pair>, i: nat, d: End): seq<Pair>
    requires i < |cs| && cs[i].At(d).inbox != []
  {
    var e := cs[i].At(d);
    cs[i := cs[i].With(d, e.(inbox := e.inbox[1..]))]
  }

  /** The front message as the receiver gets it: naming its new handles, owning nothing. */
  function Delivered(t: Table, m: Message): Message {
    m.(handles := Handles(t.next, |m.transfers|),
       header := m.header.(handlesLen := |m.transfers| % 0x1_0000_0000),
       transfers := [])
  }

  /** `channel_read`. When the receiver's table runs out of numbers on the way, everything it
      was given is taken back: its entries and the mailbox are as before, its numbers gone. */
  function Read(t: Table, cs: seq<Pair>, channel: nat): Received {
    match Require(t, channel, Channel, READ)
    case Err(e) => Received(t, cs, Err(FromObjectError(e)))
    case Ok(entry) =>
      match Locate(cs, entry.koid)
      case None => Received(t, cs, Err(NotChannel))
      case Some((i, d)) =>
        var inbox := cs[i].At(d).inbox;
        if inbox == [] then Received(t, cs, Err(if cs[i].At(Peer(d)).open then ShouldWait else PeerClosed))
        else if |inbox[0].transfers| > Room(t) then Received(t.(next := 0), cs, Err(IpcError.TableFull))
        else Received(Install(t, inbox[0].transfers), Popped(cs, i, d), Ok(Delivered(t, inbox[0])))
  }

  /** Installing numbers the entries consecutively and changes nothing below them. */
  lemma {:induction false} InstallExact(t: Table, es: seq<OwnedEntry>)
    requires ValidTable(t) && |es| <= Room(t)
    ensures ValidTable(Install(t, es))
    ensures Install(t, es).next == NextAfter(t, |es|)
    ensures Install(t, es).entries == t.entries + Numbered(es, t.next)
  {
    if es != [] {
      var before, last := es[..|es| - 1], es[|es| - 1];
      InstallExact(t, before);
      var u := Install(t, before);
      InsertRefinesMap(u, last, u.next);
      NumberedMore(t.entries, es, t.next);
    }
  }

  lemma NumberedMore(kept: seq<OwnedEntry>, es: seq<OwnedEntry>, from: nat)
    requires es != []
    ensures var n := |es| - 1;
            kept + Numbered(es, from) == kept + Numbered(es[..n], from) + [Renumbered(es[n], from + n)]
  {
    var n := |es| - 1;
    assert Numbered(es, from) == Numbered(es[..n], from) + [Renumbered(es[n], from + n)];
  }

  /** A receive moves owners from the message into the table. */
  lemma ReceiveConserves(t: Table, es: seq<OwnedEntry>, l: nat)
    ensures Count(Install(t, es).entries, l) == Count(t.entries, l) + Count(es, l)
  {
    if es != [] {
      var before, last := es[..|es| - 1], es[|es| - 1];
      ReceiveConserves(t, before, l);
      var u := Install(t, before);
      CountConcat(u.entries, [Renumbered(last, u.next)], l);
      CountSingle(last, l);
      CountSingle(Renumbered(last, u.next), l);
      assert es == before + [last];
      CountConcat(before, [last], l);
    }
  }

  lemma NumberedAt(kept: seq<OwnedEntry>, es: seq<OwnedEntry>, from: nat, k: nat)
    requires k < |es|
    ensures (kept + Numbered(es, from))[|kept| + k] == Renumbered(es[k], from + k) && Handles(from, |es|)[k] == from + k
  {
    assert Numbered(es, from)[k] == Renumbered(es[k], from + k);
  }

  /** What was received resolves to the same object with the same rights, in order. */
  lemma ReceivedResolve(t: Table, es: seq<OwnedEntry>, k: nat)
    requires ValidTable(t) && |es| <= Room(t) && k < |es|
    ensures Lookup(Install(t, es), Handles(t.next, |es|)[k]) == Some(Renumbered(es[k], t.next + k))
  {
    InstallExact(t, es);
    NumberedAt(t.entries, es, t.next, k);
    LookupAt(Install(t, es), |t.entries| + k);
  }
}
