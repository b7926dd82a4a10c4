/** What each capability operation answers and changes, said of lookups, mailboxes and the
    numbers a table has left (kernel/src/object.rs, kernel/src/ipc.rs). */
module CapabilityLaws {
  import opened Objects
  import opened Channels
  import opened Transfers
  import opened Registry
  import opened CapabilitySystem
  import opened Ownership
  import opened CapabilityRuns
  import opened Reclamation
  import opened Shedding

  // ---- Handles -------------------------------------------------------------------------

  /** `h` is a live handle of `kind` with at least `rights`. */
  predicate Usable(t: Table, h: nat, kind: ObjectKind, rights: Rights) {
    Lookup(t, h).Some? && Lookup(t, h).value.entry.kind == kind && Contains(Lookup(t, h).value.entry.rights, rights)
  }

  /** A handle is accepted exactly when it is live, of the kind and holds the rights; otherwise
      the answer is that of the first of the three that fails. */
  lemma RequireAnswers(t: Table, h: nat, kind: ObjectKind, rights: Rights)
    ensures var r, found := Require(t, h, kind, rights), Lookup(t, h);
            && (r.Ok? <==> Usable(t, h, kind, rights))
            && (r.Ok? ==> r.value == found.value.entry)
            && (r == Err(ObjectError.BadHandle) <==> found.None?)
            && (r == Err(ObjectError.WrongType) <==> found.Some? && found.value.entry.kind != kind)
            && (r == Err(ObjectError.AccessDenied) <==>
                  found.Some? && found.value.entry.kind == kind && !Contains(found.value.entry.rights, rights))
  {
  }

  /** `h` may be duplicated with `rights`. */
  predicate MayNarrow(t: Table, h: nat, rights: Rights) {
    && Lookup(t, h).Some? && Contains(Lookup(t, h).value.entry.rights, DUPLICATE)
    && Contains(Lookup(t, h).value.entry.rights, rights)
  }

  lemma DuplicateAnswers(t: Table, h: nat, rights: Rights)
    ensures var r := Duplicated(t, h, rights);
            && (r.Ok? <==> MayNarrow(t, h, rights) && t.next != 0)
            && (r == Err(ObjectError.BadHandle) <==> Lookup(t, h).None?)
            && (r == Err(ObjectError.AccessDenied) <==> Lookup(t, h).Some? && !MayNarrow(t, h, rights))
            && (r == Err(ObjectError.TableFull) <==> MayNarrow(t, h, rights) && t.next == 0)
  {
  }

  /** A duplicate names the same object and lineage with exactly the rights asked for, under the
      next number; every other handle is what it was. A refused one changes nothing. */
  lemma DuplicateNarrows(s: System, p: nat, h: nat, rights: Rights)
    requires Core(s) && p < |s.tables|
    ensures var n, t := Step(s, Duplicate(p, h, rights)), s.tables[p];
            if MayNarrow(t, h, rights) && t.next != 0 then
              var e := Lookup(t, h).value;
              && |n.tables| == |s.tables| && (forall q :: 0 <= q < |s.tables| && q != p ==> n.tables[q] == s.tables[q])
              && Lookup(n.tables[p], t.next) == Some(OwnedEntry(HandleEntry(t.next, e.entry.koid, e.entry.kind, rights), e.reference))
              && (forall x :: x != t.next ==> Lookup(n.tables[p], x) == Lookup(t, x))
              && n.channels == s.channels && n.ports == s.ports && n.held == s.held
            else n == s
  {
    var t := s.tables[p];
    if MayNarrow(t, h, rights) && t.next != 0 {
      forall x
        ensures x == t.next ==> Lookup(Step(s, Duplicate(p, h, rights)).tables[p], x) ==
                                Some(OwnedEntry(HandleEntry(t.next, Lookup(t, h).value.entry.koid, Lookup(t, h).value.entry.kind, rights), Lookup(t, h).value.reference))
        ensures x != t.next ==> Lookup(Step(s, Duplicate(p, h, rights)).tables[p], x) == Lookup(t, x)
      {
        InsertRefinesMap(t, Duplicated(t, h, rights).value, x);
      }
    }
  }

  /** `h` may be granted to another process. */
  predicate MayGrant(t: Table, h: nat, transfer: bool) {
    Lookup(t, h).Some? && Contains(Lookup(t, h).value.entry.rights, if transfer then TRANSFER else DUPLICATE)
  }

  lemma StageAnswers(source: Table, target: Table, h: nat, transfer: bool)
    ensures var r := Staged(source, target, h, transfer);
            && (r.Ok? <==> MayGrant(source, h, transfer) && target.next != 0)
            && (r == Err(ObjectError.BadHandle) <==> Lookup(source, h).None?)
            && (r == Err(ObjectError.AccessDenied) <==> Lookup(source, h).Some? && !MayGrant(source, h, transfer))
            && (r == Err(ObjectError.TableFull) <==> MayGrant(source, h, transfer) && target.next == 0)
  {
  }

  /** A staged grant gives the target the same object, lineage and rights under its next number,
      and leaves the source alone. */
  lemma StageGrants(s: System, p: nat, q: nat, h: nat, transfer: bool)
    requires Core(s) && p < |s.tables| && q < |s.tables| && p != q
    ensures var n, t := Step(s, Stage(p, q, h, transfer)), s.tables[q];
            if MayGrant(s.tables[p], h, transfer) && t.next != 0 then
              && |n.tables| == |s.tables| && (forall o :: 0 <= o < |s.tables| && o != q ==> n.tables[o] == s.tables[o])
              && Lookup(n.tables[q], t.next) == Some(Renumbered(Lookup(s.tables[p], h).value, t.next))
              && (forall x :: x != t.next ==> Lookup(n.tables[q], x) == Lookup(t, x))
              && n.channels == s.channels && n.ports == s.ports && n.held == s.held
            else n == s
  {
    var t := s.tables[q];
    if MayGrant(s.tables[p], h, transfer) && t.next != 0 {
      var e := Lookup(s.tables[p], h).value;
      forall x
        ensures Lookup(Inserted(t, e), x) == if x == t.next then Some(Renumbered(e, x)) else Lookup(t, x)
      {
        InsertRefinesMap(t, e, x);
      }
    }
  }

  // ---- Sending -------------------------------------------------------------------------

  /** Handle `j` of a message may go: not named before, live, and transferable. */
  predicate MaySend(t: Table, handles: seq<nat>, j: nat)
    requires j < |handles|
  {
    && handles[j] !in handles[..j]
    && Lookup(t, handles[j]).Some? && Contains(Lookup(t, handles[j]).value.entry.rights, TRANSFER)
  }

  ghost predicate AllMaySend(t: Table, handles: seq<nat>) {
    forall j :: 0 <= j < |handles| ==> MaySend(t, handles, j)
  }

  /** Handle `j` is the first that may not go. */
  ghost predicate FirstRefused(t: Table, handles: seq<nat>, j: nat) {
    j < |handles| && !MaySend(t, handles, j) && forall k :: 0 <= k < j ==> MaySend(t, handles, k)
  }

  /** Why handle `j` may not go. */
  function Refusal(t: Table, handles: seq<nat>, j: nat): IpcError
    requires j < |handles|
  {
    if handles[j] in handles[..j] || Lookup(t, handles[j]).None? then IpcError.BadHandle else IpcError.AccessDenied
  }

  /** A refused collection is refused for its first bad handle. */
  lemma {:induction false} CollectRefuses(t: Table, handles: seq<nat>, i: nat, j: nat)
    requires i <= j && FirstRefused(t, handles, j)
    ensures Collect(t, handles, i) == Err(Refusal(t, handles, j))
    decreases j - i
  {
    if i < j {
      assert MaySend(t, handles, i);
      CollectRefuses(t, handles, i + 1, j);
    }
  }

  lemma {:induction false} AllOrFirst(t: Table, handles: seq<nat>, i: nat) returns (j: nat)
    requires i <= |handles| && forall k :: 0 <= k < i ==> MaySend(t, handles, k)
    ensures AllMaySend(t, handles) || FirstRefused(t, handles, j)
    decreases |handles| - i
  {
    j := i;
    if i < |handles| && MaySend(t, handles, i) {
      j := AllOrFirst(t, handles, i + 1);
    }
  }

  lemma CollectAnswers(t: Table, handles: seq<nat>)
    ensures Collect(t, handles, 0).Ok? <==> AllMaySend(t, handles)
    ensures forall j: nat :: FirstRefused(t, handles, j) ==> Collect(t, handles, 0) == Err(Refusal(t, handles, j))
  {
    forall j: nat | FirstRefused(t, handles, j)
      ensures Collect(t, handles, 0) == Err(Refusal(t, handles, j))
    {
      CollectRefuses(t, handles, 0, j);
    }
    var j := AllOrFirst(t, handles, 0);
    if AllMaySend(t, handles) {
      CollectAccepts(t, handles, 0);
    }
  }

  lemma {:induction false} CollectAccepts(t: Table, handles: seq<nat>, i: nat)
    requires i <= |handles| && AllMaySend(t, handles)
    ensures Collect(t, handles, i).Ok?
    decreases |handles| - i
  {
    if i < |handles| {
      assert MaySend(t, handles, i);
      CollectAccepts(t, handles, i + 1);
    }
  }

  /** The message may be sent to a peer that is open or not. */
  ghost predicate Sendable(t: Table, m: Outgoing, open: bool) {
    AllMaySend(t, m.handles) && |m.bytes| <= 4096 && |m.handles| <= 64 && open
  }

  /** A send through a usable handle of end `d` of pair `i` succeeds exactly when every named
      handle may go, both lengths are within bounds and the peer is open; the first of these
      that fails is the answer. */
  lemma SendAnswers(t: Table, cs: seq<Pair>, channel: nat, m: Outgoing, i: nat, d: End)
    requires Usable(t, channel, Channel, WRITE) && Unique(cs) && i < |cs|
    requires cs[i].At(d).koid == Lookup(t, channel).value.entry.koid
    ensures var r, open := Write(t, cs, channel, m), cs[i].At(Peer(d)).open;
            && (r.Ok? <==> Sendable(t, m, open))
            && (forall j: nat :: FirstRefused(t, m.handles, j) ==> r == Err(Refusal(t, m.handles, j)))
            && (r == Err(TooManyBytes) <==> AllMaySend(t, m.handles) && |m.bytes| > 4096)
            && (r == Err(TooManyHandles) <==> AllMaySend(t, m.handles) && |m.bytes| <= 4096 && |m.handles| > 64)
            && (r == Err(PeerClosed) <==> Sendable(t, m, true) && !open)
  {
    RequireAnswers(t, channel, Channel, WRITE);
    LocateAt(cs, i, d);
    CollectAnswers(t, m.handles);
    var j := AllOrFirst(t, m.handles, 0);
  }

  /** One mailbox has changed and nothing else of any endpoint. */
  ghost predicate OnlyInbox(cs: seq<Pair>, ds: seq<Pair>, i: nat, d: End, inbox: seq<Message>) {
    && i < |cs| == |ds| && ds[i].At(d) == cs[i].At(d).(inbox := inbox)
    && forall j, f :: 0 <= j < |cs| && (j != i || f != d) ==> ds[j].At(f) == cs[j].At(f)
  }

  /** One table has changed and nothing else but mailboxes and the history. */
  ghost predicate OnlyTable(s: System, n: System, p: nat) {
    && |n.tables| == |s.tables| && (forall q :: 0 <= q < |s.tables| && q != p ==> n.tables[q] == s.tables[q])
    && n.held == s.held && n.ports == s.ports && n.strong == s.strong && n.nextKoid == s.nextKoid
  }

  /** The mailbox at `(i, d)` gained one message: the sender's header, bytes and handle numbers,
      with the entries the handles named in `t`, in order. */
  ghost predicate Delivers(t: Table, m: Outgoing, cs: seq<Pair>, ds: seq<Pair>, i: nat, d: End) {
    && i < |cs| == |ds|
    && var inbox := ds[i].At(d).inbox;
       && |inbox| == |cs[i].At(d).inbox| + 1 && OnlyInbox(cs, ds, i, d, cs[i].At(d).inbox + [inbox[|inbox| - 1]])
       && var last := inbox[|inbox| - 1];
          last.header == m.header && last.bytes == m.bytes && last.handles == m.handles && Sent(t, m.handles, last.transfers)
  }

  lemma PushDelivers(t: Table, cs: seq<Pair>, m: Outgoing, es: seq<OwnedEntry>, i: nat, d: End)
    requires i < |cs| && Sent(t, m.handles, es)
    ensures Delivers(t, m, cs, Pushed(cs, i, d, Message(m.header, m.bytes, m.handles, es)), i, d)
  {
  }

  lemma WriteMoves(t: Table, cs: seq<Pair>, channel: nat, m: Outgoing, i: nat, d: End)
    requires ValidTable(t) && Unique(cs) && Usable(t, channel, Channel, WRITE)
    requires i < |cs| && cs[i].At(d).koid == Lookup(t, channel).value.entry.koid && Sendable(t, m, cs[i].At(Peer(d)).open)
    ensures var r := Write(t, cs, channel, m);
            && r.Ok? && Delivers(t, m, cs, r.value.1, i, Peer(d))
            && forall x :: Lookup(r.value.0, x) == if x in m.handles then None else Lookup(t, x)
  {
    SendAnswers(t, cs, channel, m, i, d);
    LocateAt(cs, i, d);
    CollectIff(t, m.handles, 0);
    PushDelivers(t, cs, m, Collect(t, m.handles, 0).value, i, Peer(d));
    forall x
      ensures Lookup(t.(entries := Without(t.entries, m.handles)), x) == if x in m.handles then None else Lookup(t, x)
    {
      WithoutLookup(t, m.handles, x);
    }
  }

  /** The named handles leave the sender's table, every other handle stays, and the peer's
      mailbox gains the message at its end. A refused send changes nothing. */
  lemma SendMoves(s: System, p: nat, channel: nat, m: Outgoing, i: nat, d: End)
    requires Core(s) && p < |s.tables| && Usable(s.tables[p], channel, Channel, WRITE)
    requires i < |s.channels| && s.channels[i].At(d).koid == Lookup(s.tables[p], channel).value.entry.koid
    ensures var n, t := Step(s, Send(p, channel, m)), s.tables[p];
            if Sendable(t, m, s.channels[i].At(Peer(d)).open) then
              && OnlyTable(s, n, p) && Delivers(t, m, s.channels, n.channels, i, Peer(d))
              && forall x :: Lookup(n.tables[p], x) == if x in m.handles then None else Lookup(t, x)
            else n == s
  {
    var t := s.tables[p];
    SendAnswers(t, s.channels, channel, m, i, d);
    if Sendable(t, m, s.channels[i].At(Peer(d)).open) {
      WriteMoves(t, s.channels, channel, m, i, d);
    }
  }

  /** `es` are the entries the handles name. */
  ghost predicate Sent(t: Table, handles: seq<nat>, es: seq<OwnedEntry>) {
    |es| == |handles| && forall j :: 0 <= j < |handles| ==> Lookup(t, handles[j]) == Some(es[j])
  }

  lemma WithoutLookup(t: Table, gone: seq<nat>, x: nat)
    requires ValidTable(t)
    ensures Lookup(t.(entries := Without(t.entries, gone)), x) == if x in gone then None else Lookup(t, x)
  {
    var u := t.(entries := Without(t.entries, gone));
    WithoutValid(t, gone);
    if Lookup(u, x).Some? {
      var e := Lookup(u, x).value;
      WithoutIn(t.entries, gone, e);
      var i :| 0 <= i < |t.entries| && t.entries[i] == e;
      LookupAt(t, i);
    } else if Lookup(t, x).Some? && x !in gone {
      var e := Lookup(t, x).value;
      WithoutIn(t.entries, gone, e);
      var i :| 0 <= i < |u.entries| && u.entries[i] == e;
      LookupAt(u, i);
    }
  }

  // ---- Receiving -----------------------------------------------------------------------

  /** Handle numbers a table can still give out. */
  function NumbersLeft(t: Table): int {
    if t.next == 0 then 0 else LAST_HANDLE + 1 - t.next
  }

  /** The front message can be received: there is one, and its entries fit. */
  predicate CanReceive(t: Table, e: Endpoint) {
    e.inbox != [] && |e.inbox[0].transfers| <= NumbersLeft(t)
  }

  /** The message a receiver is told, of the one queued: the same but for its handles, which are
      counted in the header. */
  predicate Tells(m: Message, sent: Message) {
    && m.bytes == sent.bytes && m.header.ordinal == sent.header.ordinal && m.header.flags == sent.header.flags
    && m.header.bytesLen == sent.header.bytesLen && m.header.handlesLen == |m.handles| == |sent.transfers|
    && m.transfers == []
  }

  /** The answer to a receive at endpoint `e`, whose peer is open or not. */
  ghost predicate Answer(r: Result<Message, IpcError>, t: Table, e: Endpoint, open: bool) {
    && (r.Ok? <==> CanReceive(t, e)) && (r.Ok? ==> Tells(r.value, e.inbox[0]))
    && (r == Err(ShouldWait) <==> e.inbox == [] && open)
    && (r == Err(PeerClosed) <==> e.inbox == [] && !open)
    && (r == Err(IpcError.TableFull) <==> e.inbox != [] && |e.inbox[0].transfers| > NumbersLeft(t))
  }

  /** A receive through a usable handle of end `d` of pair `i` succeeds exactly when there is a
      message whose entries fit the numbers left. On an empty mailbox the answer is to wait
      exactly while the peer is open. */
  lemma ReceiveAnswers(t: Table, cs: seq<Pair>, channel: nat, i: nat, d: End)
    requires ValidTable(t) && Usable(t, channel, Channel, READ) && Unique(cs) && i < |cs|
    requires cs[i].At(d).koid == Lookup(t, channel).value.entry.koid
    ensures Answer(Read(t, cs, channel).result, t, cs[i].At(d), cs[i].At(Peer(d)).open)
  {
    RequireAnswers(t, channel, Channel, READ);
    LocateAt(cs, i, d);
  }

  ghost predicate InstalledAt(t: Table, u: Table, handles: seq<nat>, es: seq<OwnedEntry>, k: nat)
    requires |handles| == |es| && k < |es|
  {
    handles[k] == t.next + k && Lookup(u, handles[k]) == Some(Renumbered(es[k], handles[k]))
  }

  /** The handles of a received message are the next numbers of the table and name, in `u`, the
      entries `es`, in order; every handle issued before is what it was. */
  ghost predicate Installed(t: Table, u: Table, handles: seq<nat>, es: seq<OwnedEntry>) {
    && |handles| == |es| && (forall k :: 0 <= k < |es| ==> InstalledAt(t, u, handles, es, k))
    && (forall x :: Issued(t, x) ==> Lookup(u, x) == Lookup(t, x))
  }

  lemma ReadMoves(t: Table, cs: seq<Pair>, channel: nat, i: nat, d: End)
    requires ValidTable(t) && Unique(cs) && Usable(t, channel, Channel, READ)
    requires i < |cs| && cs[i].At(d).koid == Lookup(t, channel).value.entry.koid
    ensures var r, e := Read(t, cs, channel), cs[i].At(d);
            if CanReceive(t, e) then
              && r.result.Ok? && OnlyInbox(cs, r.channels, i, d, e.inbox[1..])
              && Installed(t, r.table, r.result.value.handles, e.inbox[0].transfers)
            else
              && r.result.Err? && r.channels == cs && r.table.entries == t.entries
              && r.table.next == if e.inbox == [] then t.next else 0
  {
    ReceiveAnswers(t, cs, channel, i, d);
    LocateAt(cs, i, d);
    if CanReceive(t, cs[i].At(d)) {
      InstallNumbers(t, cs[i].At(d).inbox[0].transfers);
    }
  }

  lemma InstallNumbers(t: Table, es: seq<OwnedEntry>)
    requires ValidTable(t) && |es| <= NumbersLeft(t)
    ensures Installed(t, Install(t, es), Handles(t.next, |es|), es)
  {
    forall k | 0 <= k < |es|
      ensures InstalledAt(t, Install(t, es), Handles(t.next, |es|), es, k)
    {
      ReceivedResolve(t, es, k);
    }
    forall x | Issued(t, x)
      ensures Lookup(Install(t, es), x) == Lookup(t, x)
    {
      InstallKeeps(t, es, x);
    }
  }

  /** A receive takes the front message: its entries become the receiver's, under the handles the
      answer tells, and the mailbox loses its front. One that fails leaves every handle and every
      mailbox as it was; one that failed for want of numbers has used them all up. */
  lemma ReceiveMoves(s: System, p: nat, channel: nat, i: nat, d: End)
    requires Core(s) && p < |s.tables| && Usable(s.tables[p], channel, Channel, READ)
    requires i < |s.channels| && s.channels[i].At(d).koid == Lookup(s.tables[p], channel).value.entry.koid
    ensures var n, t, e := Step(s, Receive(p, channel)), s.tables[p], s.channels[i].At(d);
            && OnlyTable(s, n, p)
            && if CanReceive(t, e) then
                 && OnlyInbox(s.channels, n.channels, i, d, e.inbox[1..])
                 && Installed(t, n.tables[p], Handles(t.next, |e.inbox[0].transfers|), e.inbox[0].transfers)
               else n.channels == s.channels && n.tables[p] == t.(next := if e.inbox == [] then t.next else 0)
  {
    ReadMoves(s.tables[p], s.channels, channel, i, d);
    LocateAt(s.channels, i, d);
  }

  lemma InstallKeeps(t: Table, es: seq<OwnedEntry>, x: nat)
    requires ValidTable(t) && |es| <= Room(t) && Issued(t, x)
    ensures Lookup(Install(t, es), x) == Lookup(t, x)
  {
    InstallExact(t, es);
    InstallEndures(t, es);
    if Lookup(t, x).Some? {
      var i := Position(t, x).value;
      assert Install(t, es).entries[i] == t.entries[i];
      LookupAt(Install(t, es), i);
    }
  }

  /** In every run from boot a usable channel handle leads to an endpoint, unless its channel was
      never made, and a receive through it answers and moves as above. */
  lemma RunReceives(ops: seq<Op>, p: nat, channel: nat) returns (i: nat, d: End)
    requires IdsLeftThroughout(boot, ops) && p < |Run(boot, ops).tables|
    requires Usable(Run(boot, ops).tables[p], channel, Channel, READ)
    requires Lookup(Run(boot, ops).tables[p], channel).value.entry.koid !in LostIds(boot, ops)
    ensures var s := Run(boot, ops);
            && i < |s.channels| && s.channels[i].At(d).koid == Lookup(s.tables[p], channel).value.entry.koid
            && s.channels[i].At(d).references == Lookup(s.tables[p], channel).value.reference
            && Answer(Read(s.tables[p], s.channels, channel).result, s.tables[p], s.channels[i].At(d), s.channels[i].At(Peer(d)).open)
  {
    var s := Run(boot, ops);
    BootCore();
    RunCore(boot, ops);
    BootRunResolves(ops);
    var e := Lookup(s.tables[p], channel).value;
    assert InTables(s.tables, e) && Holds(s, e) && !Stranded(e, LostIds(boot, ops));
    assert HasEnd(s.channels, e.entry.koid, e.reference);
    i, d :| 0 <= i < |s.channels| && s.channels[i].At(d).koid == e.entry.koid && s.channels[i].At(d).references == e.reference;
    ReceiveAnswers(s.tables[p], s.channels, channel, i, d);
  }

  /** Through any other handle no channel operation gets anywhere: the answer is that of the
      handle check, or that there is no such channel, and nothing changes. */
  lemma Unusable(s: System, p: nat, channel: nat, m: Outgoing)
    requires p < |s.tables|
    ensures var t := s.tables[p];
            && (!Usable(t, channel, Channel, WRITE) ==>
                  && Write(t, s.channels, channel, m) == Err(FromObjectError(Require(t, channel, Channel, WRITE).error))
                  && Step(s, Send(p, channel, m)) == s)
            && (!Usable(t, channel, Channel, READ) ==>
                  && Read(t, s.channels, channel).result == Err(FromObjectError(Require(t, channel, Channel, READ).error))
                  && Step(s, Receive(p, channel)) == s)
            && (Usable(t, channel, Channel, WRITE) && !HasId(s.channels, Lookup(t, channel).value.entry.koid) ==>
                  Write(t, s.channels, channel, m) == Err(NotChannel) && Step(s, Send(p, channel, m)) == s)
            && (Usable(t, channel, Channel, READ) && !HasId(s.channels, Lookup(t, channel).value.entry.koid) ==>
                  Read(t, s.channels, channel).result == Err(NotChannel) && Step(s, Receive(p, channel)) == s)
  {
    var t := s.tables[p];
    RequireAnswers(t, channel, Channel, WRITE);
    RequireAnswers(t, channel, Channel, READ);
    assert s.tables[p := t] == s.tables;
    if Lookup(t, channel).Some? {
      var k := Lookup(t, channel).value.entry.koid;
      assert Locate(s.channels, k).Some? ==> HasId(s.channels, k);
    }
  }

  // ---- The kernel's own messages -------------------------------------------------------

  /** The kernel's message joins the mailbox it is for if that is open; it owns nothing. */
  lemma KernelSends(s: System, i: nat, named: End, from: End, m: Outgoing)
    requires Unique(s.channels) && i < |s.channels|
    ensures var n, e := Step(s, KernelSend(s.channels[i].At(named).koid, from, m)), s.channels[i].At(Peer(from));
            && n.tables == s.tables && n.held == s.held && n.strong == s.strong && n.ports == s.ports
            && if e.open then OnlyInbox(s.channels, n.channels, i, Peer(from), e.inbox + [Message(m.header, m.bytes, m.handles, [])])
               else n == s
  {
    LocateAt(s.channels, i, named);
  }

  /** The kernel takes the front message, and with it the entries it owns. */
  lemma KernelReceives(s: System, i: nat, named: End, end: End)
    requires Unique(s.channels) && i < |s.channels|
    ensures var n, e := Step(s, KernelReceive(s.channels[i].At(named).koid, end)), s.channels[i].At(end);
            if e.inbox == [] then n == s
            else
              && n.tables == s.tables && n.held == s.held + e.inbox[0].transfers && n.strong == s.strong && n.ports == s.ports
              && OnlyInbox(s.channels, n.channels, i, end, e.inbox[1..])
  {
    LocateAt(s.channels, i, named);
  }

  // ---- Making, closing and taking ------------------------------------------------------

  /** A new channel handle may be duplicated, transferred, read, written and waited on, a new port
      handle duplicated, transferred and waited on; neither has another right. */
  lemma RightsOfNew()
    ensures CHANNEL_RIGHTS == READ | WRITE | TRANSFER | DUPLICATE | WAIT && PORT_RIGHTS == WAIT | TRANSFER | DUPLICATE
  {
  }

  /** `u` has handles for the ends `k` and `k + 1` beside those of `t`, as many as fit. */
  ghost predicate TwoHandles(t: Table, u: Table, k: nat, l: nat) {
    forall x :: Lookup(u, x) ==
                if t.next != 0 && x == t.next then Some(OwnedEntry(HandleEntry(x, k, Channel, CHANNEL_RIGHTS), Some(l)))
                else if t.next != 0 && t.next != LAST_HANDLE && x == t.next + 1 then
                  Some(OwnedEntry(HandleEntry(x, k + 1, Channel, CHANNEL_RIGHTS), Some(l + 1)))
                else Lookup(t, x)
  }

  lemma ChannelCreated(t: Table, strong: Counts, k: nat)
    requires ValidTable(t)
    ensures var c, l := CreateChannel(t, strong, k, k + 1), |strong|;
            && TwoHandles(t, c.table, k, l)
            && if t.next == 0 || t.next == LAST_HANDLE then c.result == Err(IpcError.TableFull) && c.record.None?
               else
                 && c.result == Ok((t.next, t.next + 1)) && c.strong == strong + [1, 1]
                 && c.record == Some(Pair(Endpoint(k, [], true, Some(l)), Endpoint(k + 1, [], true, Some(l + 1))))
  {
    if t.next != 0 {
      TwoInserted(t, NewEntry(k, Channel, CHANNEL_RIGHTS, |strong|), NewEntry(k + 1, Channel, CHANNEL_RIGHTS, |strong| + 1));
    }
  }

  /** With two numbers left, a new channel is two open, empty ends that are each other's peer,
      one handle each. With one left the first handle stays and there is no channel; with none
      nothing is made. */
  lemma ChannelMade(s: System, p: nat)
    requires Core(s) && IdsLeft(s, MakeChannel(p)) && p < |s.tables|
    ensures var n, t, k, l := Step(s, MakeChannel(p)), s.tables[p], s.nextKoid, |s.strong|;
            && |n.tables| == |s.tables| && TwoHandles(t, n.tables[p], k, l)
            && if t.next == 0 || t.next == LAST_HANDLE then n.channels == s.channels
               else n.channels == s.channels + [Pair(Endpoint(k, [], true, Some(l)), Endpoint(k + 1, [], true, Some(l + 1)))]
  {
    ChannelCreated(s.tables[p], s.strong, s.nextKoid);
    assert Step(s, MakeChannel(p)).tables[p] == CreateChannel(s.tables[p], s.strong, s.nextKoid, s.nextKoid + 1).table;
  }

  lemma TwoInserted(t: Table, a: OwnedEntry, b: OwnedEntry)
    requires ValidTable(t) && t.next != 0
    ensures forall x :: Lookup(Inserted(t, a), x) == if x == t.next then Some(Renumbered(a, x)) else Lookup(t, x)
    ensures t.next != LAST_HANDLE ==>
              forall x :: Lookup(Inserted(Inserted(t, a), b), x) ==
                          if x == t.next then Some(Renumbered(a, x)) else if x == t.next + 1 then Some(Renumbered(b, x)) else Lookup(t, x)
  {
    forall x
      ensures Lookup(Inserted(t, a), x) == if x == t.next then Some(Renumbered(a, x)) else Lookup(t, x)
      ensures t.next != LAST_HANDLE ==>
                Lookup(Inserted(Inserted(t, a), b), x) == if x == t.next + 1 then Some(Renumbered(b, x)) else Lookup(Inserted(t, a), x)
    {
      InsertRefinesMap(t, a, x);
      if t.next != LAST_HANDLE {
        InsertRefinesMap(Inserted(t, a), b, x);
      }
    }
  }

  /** So a read of either end of a new channel is told to wait. */
  lemma FreshWaits(s: System, p: nat, second: bool)
    requires Core(s) && IdsLeft(s, MakeChannel(p)) && p < |s.tables| && s.tables[p].next != 0 && s.tables[p].next != LAST_HANDLE
    ensures var n := Step(s, MakeChannel(p));
            Read(n.tables[p], n.channels, s.tables[p].next + if second then 1 else 0).result == Err(ShouldWait)
  {
    var n, t := Step(s, MakeChannel(p)), s.tables[p];
    ChannelMade(s, p);
    StepCore(s, MakeChannel(p));
    var h, d := t.next + (if second then 1 else 0), if second then Right else Left;
    assert Lookup(n.tables[p], h).Some?;
    ReceiveAnswers(n.tables[p], n.channels, h, |s.channels|, d);
  }

  /** A root channel has one handle, to its right end; the left end is the kernel's. */
  lemma RootChannelMade(s: System, p: nat)
    requires Core(s) && IdsLeft(s, MakeRoot(p)) && p < |s.tables|
    ensures var n, t, k, l := Step(s, MakeRoot(p)), s.tables[p], s.nextKoid, |s.strong|;
            var r := CreateRoot(t, s.strong, k, k + 1).result;
            var entry := OwnedEntry(HandleEntry(t.next, k + 1, Channel, CHANNEL_RIGHTS), Some(l));
            if t.next == 0 then r == Err(IpcError.TableFull) && n.tables[p] == t && n.channels == s.channels
            else
              && r == Ok((t.next, k))
              && n.channels == s.channels + [Pair(Endpoint(k, [], true, None), Endpoint(k + 1, [], true, Some(l)))]
              && forall x :: Lookup(n.tables[p], x) == if x == t.next then Some(entry) else Lookup(t, x)
  {
    var t := s.tables[p];
    if t.next != 0 {
      var e := NewEntry(s.nextKoid + 1, Channel, CHANNEL_RIGHTS, |s.strong|);
      TwoInserted(t, e, e);
    }
  }

  lemma PortMade(s: System, p: nat)
    requires Core(s) && IdsLeft(s, MakePort(p)) && p < |s.tables|
    ensures var n, t, k, l := Step(s, MakePort(p)), s.tables[p], s.nextKoid, |s.strong|;
            var r := CreatePort(t, s.strong, k).result;
            var entry := OwnedEntry(HandleEntry(t.next, k, Port, PORT_RIGHTS), Some(l));
            if t.next == 0 then r == Err(IpcError.TableFull) && n.tables[p] == t && n.ports == s.ports
            else
              && r == Ok((t.next, l)) && n.ports == s.ports + [PortRecord(k, [], Some(l))]
              && forall x :: Lookup(n.tables[p], x) == if x == t.next then Some(entry) else Lookup(t, x)
  {
    var t := s.tables[p];
    if t.next != 0 {
      var e := NewEntry(s.nextKoid, Port, PORT_RIGHTS, |s.strong|);
      TwoInserted(t, e, e);
    }
  }

  /** Closing an id that no endpoint has is refused, and only that is. */
  lemma CloseAnswers(cs: seq<Pair>, strong: Counts, koid: nat)
    ensures CloseByKoid(cs, strong, koid).Ok? <==> HasId(cs, koid)
    ensures CloseByKoid(cs, strong, koid) == Err(NotChannel) <==> !HasId(cs, koid)
  {
    if HasId(cs, koid) {
      var i, d :| 0 <= i < |cs| && cs[i].At(d).koid == koid;
    }
  }

  lemma {:induction false} PortsConcat(a: seq<PortRecord>, b: seq<PortRecord>, strong: Counts)
    ensures LivePorts(a + b, strong) == LivePorts(a, strong) + LivePorts(b, strong)
    ensures DeadPorts(a + b, strong) == DeadPorts(a, strong) + DeadPorts(b, strong)
  {
    if a == [] {
      assert a + b == b;
    } else {
      assert (a + b)[0] == a[0] && (a + b)[1..] == a[1..] + b;
      PortsConcat(a[1..], b, strong);
    }
  }

  /** Taking the unreferenced ports works record by record, in order: a record stays unless it
      has an observed lineage without an owner, and then its id is returned. */
  lemma TakesPortByPort(ps: seq<PortRecord>, p: PortRecord, strong: Counts)
    ensures var gone := p.references.Some? && (p.references.value >= |strong| || strong[p.references.value] == 0);
            && LivePorts(ps + [p], strong) == LivePorts(ps, strong) + (if gone then [] else [p])
            && DeadPorts(ps + [p], strong) == DeadPorts(ps, strong) + (if gone then [p.koid] else [])
    ensures LivePorts([], strong) == [] && DeadPorts([], strong) == []
  {
    PortsConcat(ps, [p], strong);
    assert [p][1..] == [];
  }

  // ---- Single handles ------------------------------------------------------------------

  /** A fresh object: the next number names it with the rights given, without a lineage of its own
      or, for a device context or an interrupt, with one. Nothing else is minted this way. */
  lemma MintMakes(s: System, op: Op)
    requires Core(s) && IdsLeft(s, op) && (op.MintPlain? || op.MintDevice?) && op.p < |s.tables|
    ensures var n, t := Step(s, op), s.tables[op.p];
            var device := op.kind == DeviceCtx || op.kind == Interrupt;
            var allowed := if op.MintDevice? then device else !device && op.kind != Channel && op.kind != Port;
            var entry := OwnedEntry(HandleEntry(t.next, s.nextKoid, op.kind, op.rights), if op.MintDevice? then Some(|s.strong|) else None);
            && (!allowed ==> n == s)
            && (allowed ==>
                  && n.nextKoid == s.nextKoid + 1
                  && n.tables[op.p].next == (if t.next == 0 then 0 else NextHandle(t.next))
                  && forall x :: Lookup(n.tables[op.p], x) == if t.next != 0 && x == t.next then Some(entry) else Lookup(t, x))
  {
    var t := s.tables[op.p];
    if t.next != 0 {
      var e := if op.MintDevice? then NewEntry(s.nextKoid, op.kind, op.rights, |s.strong|) else PlainEntry(s.nextKoid, op.kind, op.rights);
      TwoInserted(t, e, e);
    }
  }

  /** Handle `h` is gone from the table, and no other. */
  ghost predicate LosesOnly(t: Table, u: Table, h: nat) {
    u.next == t.next && forall x :: Lookup(u, x) == if x == h then None else Lookup(t, x)
  }

  lemma RemovedIs(t: Table, h: nat)
    requires ValidTable(t)
    ensures LosesOnly(t, Removed(t, h), h)
  {
    forall x
      ensures Lookup(Removed(t, h), x) == if x == h then None else Lookup(t, x)
    {
      RemoveRefinesMap(t, h, x);
    }
  }

  /** Closing a live handle drops its entry, removing it leaves the entry in the kernel's hands;
      a handle that is not live changes nothing. */
  lemma HandleLeaves(s: System, p: nat, h: nat)
    requires Core(s) && p < |s.tables|
    ensures var t, closed, removed := s.tables[p], Step(s, CloseHandle(p, h)), Step(s, Remove(p, h));
            match Lookup(t, h)
            case None => closed == s && removed == s
            case Some(e) =>
              && LosesOnly(t, closed.tables[p], h) && closed.held == s.held && closed.strong == Release(s.strong, [e])
              && LosesOnly(t, removed.tables[p], h) && removed.held == s.held + [e] && removed.strong == s.strong
              && closed.channels == removed.channels == s.channels
  {
    RemovedIs(s.tables[p], h);
  }

  /** Draining a table leaves it no live handle and its entries, in order, in the kernel's hands;
      what the kernel drops loses its owner. */
  lemma TableDrains(s: System, p: nat, i: nat)
    requires p < |s.tables|
    ensures var n := Step(s, Drain(p));
            && (forall x :: Lookup(n.tables[p], x) == None) && n.tables[p].next == s.tables[p].next
            && n.held == s.held + s.tables[p].entries && n.strong == s.strong && n.channels == s.channels
    ensures i < |s.held| ==>
              var n := Step(s, DropHeld(i));
              n.held == s.held[..i] + s.held[i + 1..] && n.strong == Release(s.strong, [s.held[i]]) && n.tables == s.tables
  {
  }
}
