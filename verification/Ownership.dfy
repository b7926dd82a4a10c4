/** Ownership over whole runs: strong counts are exactly the owners there are, capabilities
    only ever narrow, and lineages never change hands between objects. */
module Ownership {
  import opened Objects
  import opened Channels
  import opened Transfers
  import opened Registry
  import opened CapabilitySystem
  import opened Shedding

  // ---- Who owns what -------------------------------------------------------------------

  function TableBags(ts: seq<Table>): (r: seq<seq<OwnedEntry>>)
    ensures |r| == |ts|
  {
    seq(|ts|, i requires 0 <= i < |ts| => ts[i].entries)
  }

  /** Owners of lineage `l` in all tables, all mailboxes and in flight. */
  function Owners(s: System, l: nat): nat {
    CountBags(TableBags(s.tables), l) + CountBags(PairBags(s.channels), l) + Count(s.held, l)
  }

  ghost predicate InTables(ts: seq<Table>, e: OwnedEntry) {
    exists p :: 0 <= p < |ts| && e in ts[p].entries
  }

  ghost predicate Holds(s: System, e: OwnedEntry) {
    InTables(s.tables, e) || InQueues(s.channels, e) || e in s.held
  }

  /** Some mint made the object of `e` with rights that contain those of `e`. */
  ghost predicate Minted(mints: seq<Mint>, e: OwnedEntry) {
    exists m :: m in mints && m.koid == e.entry.koid && m.kind == e.entry.kind && Contains(m.rights, e.entry.rights)
  }

  /** `e` names the object its lineage was minted for, within rights once minted. */
  ghost predicate Good(s: System, e: OwnedEntry) {
    && (e.reference.Some? ==>
          && e.reference.value < |s.origin|
          && s.origin[e.reference.value].koid == e.entry.koid
          && s.origin[e.reference.value].kind == e.entry.kind)
    && (e.entry.kind in {Channel, Port, DeviceCtx, Interrupt} ==> e.reference.Some?)
    && Minted(s.mints, e)
  }

  ghost predicate GoodEndpoint(s: System, e: Endpoint) {
    && e.koid < s.nextKoid
    && (e.references.Some? ==>
          && e.references.value < |s.origin|
          && s.origin[e.references.value].koid == e.koid
          && s.origin[e.references.value].kind == Channel)
  }

  ghost predicate GoodPort(s: System, p: PortRecord) {
    && p.koid < s.nextKoid
    && (p.references.Some? ==>
          && p.references.value < |s.origin|
          && s.origin[p.references.value].koid == p.koid
          && s.origin[p.references.value].kind == Port)
  }

  ghost predicate Honest(s: System) {
    |s.origin| == |s.strong| && forall l :: 0 <= l < |s.strong| ==> s.strong[l] == Owners(s, l)
  }

  ghost predicate OriginsDiffer(s: System) {
    && (forall l :: 0 <= l < |s.origin| ==> s.origin[l].koid < s.nextKoid)
    && (forall l, m :: 0 <= l < m < |s.origin| ==> s.origin[l].koid != s.origin[m].koid)
  }

  ghost predicate Endpoints(s: System) {
    && Unique(s.channels)
    && (forall i, d :: 0 <= i < |s.channels| ==> GoodEndpoint(s, s.channels[i].At(d)))
    && (forall i :: 0 <= i < |s.ports| ==> GoodPort(s, s.ports[i]))
  }

  /** The invariant of every run. */
  ghost predicate Core(s: System) {
    && (forall p :: 0 <= p < |s.tables| ==> ValidTable(s.tables[p]))
    && Honest(s)
    && OriginsDiffer(s)
    && Endpoints(s)
    && (forall e :: Holds(s, e) ==> Good(s, e))
  }

  // ---- Facts every step needs ----------------------------------------------------------

  /** Histories only grow. */
  ghost predicate Grows(s: System, t: System) {
    s.origin <= t.origin && s.mints <= t.mints && s.nextKoid <= t.nextKoid && |s.strong| <= |t.strong|
  }

  /** `e` is the capability `e0` under another number and with no more rights. */
  ghost predicate Narrows(e0: OwnedEntry, e: OwnedEntry) {
    && e.reference == e0.reference && e.entry.koid == e0.entry.koid && e.entry.kind == e0.entry.kind
    && Contains(e0.entry.rights, e.entry.rights)
  }

  ghost predicate Descends(s: System, e: OwnedEntry) {
    exists e0 :: Holds(s, e0) && Narrows(e0, e)
  }

  /** Everything owned after a step descends from something owned before it. */
  ghost predicate Inherits(s: System, t: System) {
    forall e :: Holds(t, e) ==> Descends(s, e)
  }

  lemma InheritsSame(s: System)
    ensures Inherits(s, s)
  {
    forall e | Holds(s, e)
      ensures Descends(s, e)
    {
      SameDescends(s, e, e);
    }
  }

  lemma DescendantGood(s: System, t: System, e: OwnedEntry)
    requires Grows(s, t) && (forall x :: Holds(s, x) ==> Good(s, x)) && Descends(s, e)
    ensures Good(t, e)
  {
    var e0 :| Holds(s, e0) && Narrows(e0, e);
    var m :| m in s.mints && m.koid == e0.entry.koid && m.kind == e0.entry.kind && Contains(m.rights, e0.entry.rights);
    ContainsTransitive(m.rights, e0.entry.rights, e.entry.rights);
    assert m in t.mints;
  }

  lemma SameDescends(s: System, e0: OwnedEntry, e: OwnedEntry)
    requires Holds(s, e0) && CapOf(e0) == CapOf(e)
    ensures Descends(s, e)
  {
    assert Narrows(e0, e);
  }

  lemma {:induction false} BagWitness(bags: seq<seq<OwnedEntry>>, l: nat) returns (i: nat)
    requires CountBags(bags, l) > 0
    ensures i < |bags| && Count(bags[i], l) > 0
  {
    if Count(bags[0], l) > 0 {
      i := 0;
    } else {
      i := BagWitness(bags[1..], l);
      i := i + 1;
    }
  }

  /** A counted owner is some entry somewhere. */
  lemma OwnerWitness(s: System, l: nat) returns (e: OwnedEntry)
    requires Owners(s, l) > 0
    ensures Holds(s, e) && e.reference == Some(l)
  {
    if Count(s.held, l) > 0 {
      e := CountWitness(s.held, l);
    } else if CountBags(TableBags(s.tables), l) > 0 {
      var p := BagWitness(TableBags(s.tables), l);
      e := CountWitness(s.tables[p].entries, l);
      assert InTables(s.tables, e);
    } else {
      var i := BagWitness(PairBags(s.channels), l);
      e := CountWitness(Bag(s.channels[i]), l);
      var d := if e in Queued(s.channels[i].left.inbox) then Left else Right;
      assert e in Queued(s.channels[i].At(d).inbox);
      assert InQueues(s.channels, e);
    }
  }

  /** And every entry is a counted owner. */
  lemma HolderCounts(s: System, e: OwnedEntry, l: nat)
    requires Holds(s, e) && e.reference == Some(l)
    ensures Owners(s, l) > 0
  {
    if e in s.held {
      CountPositive(s.held, e, l);
    } else if InTables(s.tables, e) {
      var p :| 0 <= p < |s.tables| && e in s.tables[p].entries;
      CountPositive(s.tables[p].entries, e, l);
      CountBagsSplit(TableBags(s.tables), p, l);
    } else {
      var i, d :| 0 <= i < |s.channels| && e in Queued(s.channels[i].At(d).inbox);
      QueuedCounts(s.channels, i, d, e, l);
    }
  }

  /** A lineage not minted yet has no owner. */
  lemma NoOwnerBeyond(s: System, l: nat)
    requires Core(s) && l >= |s.strong|
    ensures Owners(s, l) == 0
  {
    if Owners(s, l) > 0 {
      var e := OwnerWitness(s, l);
    }
  }

  lemma TableUpdate(ts: seq<Table>, p: nat, u: Table, l: nat)
    requires p < |ts|
    ensures CountBags(TableBags(ts[p := u]), l) == CountBags(TableBags(ts), l) - Count(ts[p].entries, l) + Count(u.entries, l)
  {
    assert TableBags(ts[p := u]) == TableBags(ts)[p := u.entries];
    CountBagsUpdate(TableBags(ts), p, u.entries, l);
  }

  lemma InTablesUpdate(ts: seq<Table>, p: nat, u: Table, e: OwnedEntry)
    requires p < |ts|
    ensures InTables(ts[p := u], e) ==> InTables(ts, e) || e in u.entries
    ensures e in ts[p].entries ==> InTables(ts, e)
  {
    if InTables(ts[p := u], e) && e !in u.entries {
      var q :| 0 <= q < |ts| && e in ts[p := u][q].entries;
      assert e in ts[q].entries;
    }
  }

  /** What a step from `s` to `t` must show to keep the invariant when it adds no lineage. */
  lemma CoreKept(s: System, t: System)
    requires Core(s) && Grows(s, t) && t.origin == s.origin && |t.strong| == |s.strong|
    requires forall p :: 0 <= p < |t.tables| ==> ValidTable(t.tables[p])
    requires forall l :: 0 <= l < |s.strong| ==> t.strong[l] - s.strong[l] == Owners(t, l) - Owners(s, l)
    requires Endpoints(t)
    requires Inherits(s, t)
    ensures Core(t)
  {
    forall e | Holds(t, e)
      ensures Good(t, e)
    {
      DescendantGood(s, t, e);
    }
  }

  /** Endpoints are judged by ids and histories only. */
  lemma SameEndpoints(s: System, t: System)
    requires Endpoints(s) && Grows(s, t) && t.channels == s.channels && t.ports == s.ports
    ensures Endpoints(t)
  {
  }

  // ---- Steps that keep every lineage's count -------------------------------------------

  /** Replacing one table keeps the invariant when the entries stay backed and descended. */
  lemma TableStep(s: System, p: nat, u: Table, held: seq<OwnedEntry>, strong: Counts)
    requires Core(s) && p < |s.tables| && ValidTable(u) && |strong| == |s.strong|
    requires forall l :: 0 <= l < |strong| ==>
               strong[l] - s.strong[l] == Count(u.entries, l) - Count(s.tables[p].entries, l) + Count(held, l) - Count(s.held, l)
    requires forall e :: e in u.entries || e in held ==> Descends(s, e)
    ensures var t := s.(tables := s.tables[p := u], held := held, strong := strong); Core(t) && Inherits(s, t)
  {
    var t := s.(tables := s.tables[p := u], held := held, strong := strong);
    forall l | 0 <= l < |strong|
      ensures t.strong[l] - s.strong[l] == Owners(t, l) - Owners(s, l)
    {
      TableUpdate(s.tables, p, u, l);
    }
    forall e | Holds(t, e)
      ensures Descends(s, e)
    {
      InTablesUpdate(s.tables, p, u, e);
      if Holds(s, e) {
        SameDescends(s, e, e);
      }
    }
    SameEndpoints(s, t);
    CoreKept(s, t);
  }

  lemma EntriesDescend(s: System, p: nat)
    requires p < |s.tables|
    ensures forall e :: e in s.tables[p].entries ==> Descends(s, e)
  {
    forall e | e in s.tables[p].entries
      ensures Descends(s, e)
    {
      assert InTables(s.tables, e);
      SameDescends(s, e, e);
    }
  }

  lemma HeldDescend(s: System)
    ensures forall e :: e in s.held ==> Descends(s, e)
  {
    forall e | e in s.held
      ensures Descends(s, e)
    {
      SameDescends(s, e, e);
    }
  }

  /** A grant: one more owner of a lineage already owned, with no more rights. */
  lemma GrantKeeps(s: System, q: nat, e: OwnedEntry)
    requires Core(s) && q < |s.tables| && s.tables[q].next != 0 && Descends(s, e)
    ensures Core(Granted(s, q, e)) && Inherits(s, Granted(s, q, e))
  {
    var t := s.tables[q];
    var x := Renumbered(e, t.next);
    InsertRefinesMap(t, e, t.next);
    EntriesDescend(s, q);
    HeldDescend(s);
    assert Descends(s, x) by {
      var e0 :| Holds(s, e0) && Narrows(e0, e);
      assert Narrows(e0, x);
    }
    forall l | 0 <= l < |s.strong|
      ensures Count(Inserted(t, e).entries, l) == Count(t.entries, l) + Count([e], l)
    {
      CountConcat(t.entries, [x], l);
      CountSingle(e, l);
      CountSingle(x, l);
    }
    TableStep(s, q, Inserted(t, e), s.held, Retain(s.strong, [e]));
  }

  lemma DuplicateKeeps(s: System, p: nat, h: nat, rights: Rights)
    requires Core(s) && p < |s.tables|
    ensures Core(StepDuplicate(s, p, h, rights)) && Inherits(s, StepDuplicate(s, p, h, rights))
  {
    InheritsSame(s);
    var r := Duplicated(s.tables[p], h, rights);
    if r.Ok? {
      var e0 := Lookup(s.tables[p], h).value;
      assert InTables(s.tables, e0) && Holds(s, e0) && Narrows(e0, r.value);
      GrantKeeps(s, p, r.value);
    }
  }

  lemma StageKeeps(s: System, p: nat, q: nat, h: nat, transfer: bool)
    requires Core(s) && p < |s.tables| && q < |s.tables|
    ensures Core(StepStage(s, p, q, h, transfer)) && Inherits(s, StepStage(s, p, q, h, transfer))
  {
    InheritsSame(s);
    var r := Staged(s.tables[p], s.tables[q], h, transfer);
    if r.Ok? {
      EntriesDescend(s, p);
      GrantKeeps(s, q, r.value);
    }
  }

  lemma RemovedFacts(t: Table, h: nat)
    requires ValidTable(t) && Lookup(t, h).Some?
    ensures ValidTable(Removed(t, h))
    ensures forall e :: e in Removed(t, h).entries ==> e in t.entries
    ensures forall l :: Count(t.entries, l) == Count(Removed(t, h).entries, l) + Count([Lookup(t, h).value], l)
  {
    RemoveKeepsOrder(t, h);
    forall l: nat
      ensures Count(t.entries, l) == Count(Removed(t, h).entries, l) + Count([Lookup(t, h).value], l)
    {
      RemovedCount(t, h, l);
    }
  }

  lemma CloseHandleKeeps(s: System, p: nat, h: nat)
    requires Core(s) && p < |s.tables|
    ensures Core(StepCloseHandle(s, p, h)) && Inherits(s, StepCloseHandle(s, p, h))
  {
    InheritsSame(s);
    var t := s.tables[p];
    if Lookup(t, h).Some? {
      RemovedFacts(t, h);
      EntriesDescend(s, p);
      HeldDescend(s);
      TableStep(s, p, Removed(t, h), s.held, Release(s.strong, [Lookup(t, h).value]));
    }
  }

  lemma RemoveKeeps(s: System, p: nat, h: nat)
    requires Core(s) && p < |s.tables|
    ensures Core(StepRemove(s, p, h)) && Inherits(s, StepRemove(s, p, h))
  {
    InheritsSame(s);
    var t := s.tables[p];
    if Lookup(t, h).Some? {
      var e := Lookup(t, h).value;
      RemovedFacts(t, h);
      EntriesDescend(s, p);
      HeldDescend(s);
      forall l: nat
        ensures Count(s.held + [e], l) == Count(s.held, l) + Count([e], l)
      {
        CountConcat(s.held, [e], l);
      }
      TableStep(s, p, Removed(t, h), s.held + [e], s.strong);
    }
  }

  lemma DrainKeeps(s: System, p: nat)
    requires Core(s) && p < |s.tables|
    ensures Core(StepDrain(s, p)) && Inherits(s, StepDrain(s, p))
  {
    var t := s.tables[p];
    EntriesDescend(s, p);
    HeldDescend(s);
    forall l: nat
      ensures Count(s.held + t.entries, l) == Count(s.held, l) + Count(t.entries, l)
    {
      CountConcat(s.held, t.entries, l);
    }
    TableStep(s, p, t.(entries := []), s.held + t.entries, s.strong);
  }

  lemma DropHeldKeeps(s: System, i: nat)
    requires Core(s) && i < |s.held|
    ensures Core(StepDropHeld(s, i)) && Inherits(s, StepDropHeld(s, i))
  {
    var t := StepDropHeld(s, i);
    forall l | 0 <= l < |s.strong|
      ensures t.strong[l] - s.strong[l] == Owners(t, l) - Owners(s, l)
    {
      CountRemoveAt(s.held, i, l);
    }
    forall e | Holds(t, e)
      ensures Descends(s, e)
    {
      SameDescends(s, e, e);
    }
    SameEndpoints(s, t);
    CoreKept(s, t);
  }

  // ---- Sending and receiving -----------------------------------------------------------

  /** Two registries with the same endpoints, whatever their mailboxes hold. */
  ghost predicate SameEnds(cs: seq<Pair>, ds: seq<Pair>) {
    |cs| == |ds| && forall i, d :: 0 <= i < |cs| ==> ds[i].At(d).koid == cs[i].At(d).koid && ds[i].At(d).references == cs[i].At(d).references
  }

  /** A step that only moves owners about. */
  lemma MoveStep(s: System, t: System)
    requires Core(s) && t.strong == s.strong && t.origin == s.origin && t.mints == s.mints
    requires t.nextKoid == s.nextKoid && t.ports == s.ports && SameEnds(s.channels, t.channels)
    requires forall p :: 0 <= p < |t.tables| ==> ValidTable(t.tables[p])
    requires forall l :: 0 <= l < |s.strong| ==> Owners(t, l) == Owners(s, l)
    requires Inherits(s, t)
    ensures Core(t)
  {
    forall i, d | 0 <= i < |t.channels|
      ensures GoodEndpoint(t, t.channels[i].At(d))
    {
      assert GoodEndpoint(s, s.channels[i].At(d));
    }
    CoreKept(s, t);
  }

  lemma PushedFacts(cs: seq<Pair>, i: nat, d: End, m: Message)
    requires i < |cs|
    ensures SameEnds(cs, Pushed(cs, i, d, m))
    ensures forall l :: CountBags(PairBags(Pushed(cs, i, d, m)), l) == CountBags(PairBags(cs), l) + Count(m.transfers, l)
    ensures forall e :: InQueues(Pushed(cs, i, d, m), e) ==> InQueues(cs, e) || e in m.transfers
  {
    var ds := Pushed(cs, i, d, m);
    var inbox := cs[i].At(d).inbox;
    QueuedConcat(inbox, [m]);
    QueuedSingle(m);
    forall l: nat
      ensures CountBags(PairBags(ds), l) == CountBags(PairBags(cs), l) + Count(m.transfers, l)
    {
      BagUpdate(cs, i, ds[i], l);
      BagCount(cs[i], d, l);
      BagCount(ds[i], d, l);
      CountConcat(Queued(inbox), m.transfers, l);
    }
    forall e | InQueues(ds, e)
      ensures InQueues(cs, e) || e in m.transfers
    {
      var j, f :| 0 <= j < |ds| && e in Queued(ds[j].At(f).inbox);
      if e !in m.transfers {
        assert e in Queued(cs[j].At(f).inbox);
      }
    }
  }

  lemma PoppedFacts(cs: seq<Pair>, i: nat, d: End)
    requires i < |cs| && cs[i].At(d).inbox != []
    ensures SameEnds(cs, Transfers.Popped(cs, i, d))
    ensures forall l :: CountBags(PairBags(cs), l) ==
                        CountBags(PairBags(Transfers.Popped(cs, i, d)), l) + Count(cs[i].At(d).inbox[0].transfers, l)
    ensures forall e :: InQueues(Transfers.Popped(cs, i, d), e) || e in cs[i].At(d).inbox[0].transfers ==> InQueues(cs, e)
  {
    var ds := Transfers.Popped(cs, i, d);
    var inbox := cs[i].At(d).inbox;
    forall l: nat
      ensures CountBags(PairBags(cs), l) == CountBags(PairBags(ds), l) + Count(inbox[0].transfers, l)
    {
      BagUpdate(cs, i, ds[i], l);
      BagCount(cs[i], d, l);
      BagCount(ds[i], d, l);
      CountConcat(inbox[0].transfers, Queued(inbox[1..]), l);
    }
    forall e | InQueues(ds, e) || e in inbox[0].transfers
      ensures InQueues(cs, e)
    {
      if e in inbox[0].transfers {
        assert e in Queued(cs[i].At(d).inbox);
      } else {
        var j, f :| 0 <= j < |ds| && e in Queued(ds[j].At(f).inbox);
        assert e in Queued(cs[j].At(f).inbox);
      }
    }
  }

  /** An entry collected for sending is in the sender's table. */
  lemma CollectedIn(t: Table, handles: seq<nat>, e: OwnedEntry)
    requires Collect(t, handles, 0).Ok? && e in Collect(t, handles, 0).value
    ensures e in t.entries
  {
    var es := Collect(t, handles, 0).value;
    CollectIff(t, handles, 0);
    var j :| 0 <= j < |es| && es[j] == e;
    assert Lookup(t, handles[j]) == Some(es[j]);
  }

  lemma SendKeeps(s: System, p: nat, channel: nat, m: Outgoing)
    requires Core(s) && p < |s.tables|
    ensures Core(StepSend(s, p, channel, m)) && StepSend(s, p, channel, m).strong == s.strong
    ensures Inherits(s, StepSend(s, p, channel, m))
  {
    InheritsSame(s);
    var t := s.tables[p];
    var r := Write(t, s.channels, channel, m);
    if r.Ok? {
      var n := StepSend(s, p, channel, m);
      var (i, d) := Locate(s.channels, Get(t, channel).value.koid).value;
      var es := Collect(t, m.handles, 0).value;
      var u := t.(entries := Without(t.entries, m.handles));
      PushedFacts(s.channels, i, Peer(d), Message(m.header, m.bytes, m.handles, es));
      WithoutValid(t, m.handles);
      forall l | 0 <= l < |s.strong|
        ensures Owners(n, l) == Owners(s, l)
      {
        TableUpdate(s.tables, p, u, l);
        SendConserves(t, m.handles, l);
      }
      forall e | Holds(n, e)
        ensures Descends(s, e)
      {
        InTablesUpdate(s.tables, p, u, e);
        WithoutIn(t.entries, m.handles, e);
        if e in es {
          CollectedIn(t, m.handles, e);
          assert InTables(s.tables, e);
        } else if e in u.entries {
          assert InTables(s.tables, e);
        }
        SameDescends(s, e, e);
      }
      MoveStep(s, n);
    }
  }

  lemma ReceiveKeeps(s: System, p: nat, channel: nat)
    requires Core(s) && p < |s.tables|
    ensures Core(StepReceive(s, p, channel)) && StepReceive(s, p, channel).strong == s.strong
    ensures Inherits(s, StepReceive(s, p, channel))
  {
    InheritsSame(s);
    var t := s.tables[p];
    var r := Read(t, s.channels, channel);
    var n := StepReceive(s, p, channel);
    EntriesDescend(s, p);
    HeldDescend(s);
    if r.result.Err? {
      TableStep(s, p, r.table, s.held, s.strong);
      assert n == s.(tables := s.tables[p := r.table]);
    } else {
      var (i, d) := Locate(s.channels, Get(t, channel).value.koid).value;
      ReceiveMoves(s, p, i, d, n);
    }
  }

  lemma InstalledFrom(t: Table, es: seq<OwnedEntry>, e: OwnedEntry) returns (e0: OwnedEntry)
    requires ValidTable(t) && |es| <= Room(t) && e in Install(t, es).entries && e !in t.entries
    ensures e0 in es && CapOf(e0) == CapOf(e)
  {
    InstallExact(t, es);
    assert e in Numbered(es, t.next);
    var k :| 0 <= k < |es| && Numbered(es, t.next)[k] == e;
    e0 := es[k];
  }

  lemma ReceiveMoves(s: System, p: nat, i: nat, d: End, n: System)
    requires Core(s) && p < |s.tables| && i < |s.channels| && s.channels[i].At(d).inbox != []
    requires var es := s.channels[i].At(d).inbox[0].transfers;
             && |es| <= Room(s.tables[p])
             && n == s.(tables := s.tables[p := Install(s.tables[p], es)], channels := Transfers.Popped(s.channels, i, d), got := n.got)
    ensures Core(n) && Inherits(s, n)
  {
    var t := s.tables[p];
    var es := s.channels[i].At(d).inbox[0].transfers;
    var u := Install(t, es);
    EntriesDescend(s, p);
    PoppedFacts(s.channels, i, d);
    InstallExact(t, es);
    forall l | 0 <= l < |s.strong|
      ensures Owners(n, l) == Owners(s, l)
    {
      TableUpdate(s.tables, p, u, l);
      ReceiveConserves(t, es, l);
    }
    forall e | Holds(n, e)
      ensures Descends(s, e)
    {
      InTablesUpdate(s.tables, p, u, e);
      if Holds(s, e) {
        SameDescends(s, e, e);
      } else if e !in t.entries {
        var e0 := InstalledFrom(t, es, e);
        SameDescends(s, e0, e);
      }
    }
    MoveStep(s, n);
  }

  lemma KernelSendKeeps(s: System, koid: nat, from: End, m: Outgoing)
    requires Core(s)
    ensures Core(StepKernelSend(s, koid, from, m)) && StepKernelSend(s, koid, from, m).strong == s.strong
    ensures Inherits(s, StepKernelSend(s, koid, from, m))
  {
    InheritsSame(s);
    var n := StepKernelSend(s, koid, from, m);
    match Locate(s.channels, koid)
    case None =>
    case Some((i, d)) =>
      if s.channels[i].At(Peer(from)).open {
        PushedFacts(s.channels, i, Peer(from), Message(m.header, m.bytes, m.handles, []));
        forall e | Holds(n, e)
          ensures Descends(s, e)
        {
          SameDescends(s, e, e);
        }
        MoveStep(s, n);
      }
  }

  lemma KernelReceiveKeeps(s: System, koid: nat, end: End)
    requires Core(s)
    ensures Core(StepKernelReceive(s, koid, end)) && StepKernelReceive(s, koid, end).strong == s.strong
    ensures Inherits(s, StepKernelReceive(s, koid, end))
  {
    InheritsSame(s);
    var n := StepKernelReceive(s, koid, end);
    match Locate(s.channels, koid)
    case None =>
    case Some((i, d)) =>
      if s.channels[i].At(end).inbox != [] {
        var es := s.channels[i].At(end).inbox[0].transfers;
        PoppedFacts(s.channels, i, end);
        forall l | 0 <= l < |s.strong|
          ensures Owners(n, l) == Owners(s, l)
        {
          CountConcat(s.held, es, l);
        }
        forall e | Holds(n, e)
          ensures Descends(s, e)
        {
          SameDescends(s, e, e);
        }
        MoveStep(s, n);
      }
  }

  // ---- Closing and reaping -------------------------------------------------------------

  /** Letting go keeps the invariant. */
  lemma ShedKeeps(s: System, cs: seq<Pair>, now: Counts)
    requires Core(s) && Sheds(s.channels, s.strong, cs, now)
    ensures var t := s.(channels := cs, strong := now); Core(t) && Inherits(s, t)
  {
    var t := s.(channels := cs, strong := now);
    forall i, d | 0 <= i < |cs|
      ensures GoodEndpoint(t, cs[i].At(d))
    {
      assert HasEnd(s.channels, cs[i].At(d).koid, cs[i].At(d).references);
      var j, f :| 0 <= j < |s.channels| && s.channels[j].At(f).koid == cs[i].At(d).koid
                  && s.channels[j].At(f).references == cs[i].At(d).references;
      assert GoodEndpoint(s, s.channels[j].At(f));
    }
    forall e | Holds(t, e)
      ensures Descends(s, e)
    {
      if InQueues(cs, e) {
        assert InQueues(s.channels, e);
      }
      SameDescends(s, e, e);
    }
    CoreKept(s, t);
  }

  lemma CloseKeeps(s: System, koid: nat)
    requires Core(s)
    ensures Core(StepClose(s, koid)) && Inherits(s, StepClose(s, koid))
  {
    InheritsSame(s);
    var r := CloseByKoid(s.channels, s.strong, koid);
    if r.Ok? {
      CloseSheds(s.channels, s.strong, koid);
      ShedKeeps(s, r.value.0, r.value.1);
    }
  }

  lemma ReapKeeps(s: System)
    requires Core(s)
    ensures Core(StepReap(s)) && Inherits(s, StepReap(s))
  {
    ReapSheds(s.channels, s.strong, 0);
    var r := Reap(s.channels, s.strong, 0);
    ShedKeeps(s, r.0, r.1);
  }

  // ---- Minting -------------------------------------------------------------------------

  /** Longer histories and skipped ids change nothing. */
  lemma PadKeeps(s: System, mints: seq<Mint>, nextKoid: nat)
    requires Core(s) && s.mints <= mints && s.nextKoid <= nextKoid
    ensures var t := s.(mints := mints, nextKoid := nextKoid); Core(t) && Inherits(s, t)
  {
    var t := s.(mints := mints, nextKoid := nextKoid);
    forall e | Holds(t, e)
      ensures Descends(s, e)
    {
      SameDescends(s, e, e);
    }
    CoreKept(s, t);
  }

  /** What a new entry in table `p` does to ownership. */
  lemma InsertFacts(s: System, p: nat, x: OwnedEntry, l: nat)
    requires p < |s.tables|
    ensures var ts := s.tables[p := Inserted(s.tables[p], x)];
            CountBags(TableBags(ts), l) == CountBags(TableBags(s.tables), l) + Count([x], l)
  {
    var t := s.tables[p];
    TableUpdate(s.tables, p, Inserted(t, x), l);
    CountConcat(t.entries, [Renumbered(x, t.next)], l);
    CountSingle(x, l);
    CountSingle(Renumbered(x, t.next), l);
  }

  lemma InsertHolds(s: System, t: System, p: nat, x: OwnedEntry, e: OwnedEntry)
    requires p < |s.tables| && t.tables == s.tables[p := Inserted(s.tables[p], x)]
    requires t.channels == s.channels && t.held == s.held && Holds(t, e)
    ensures Holds(s, e) || e == Renumbered(x, s.tables[p].next)
  {
    InTablesUpdate(s.tables, p, Inserted(s.tables[p], x), e);
    if e in s.tables[p].entries {
      assert InTables(s.tables, e);
    }
  }

  lemma PlainKeeps(s: System, p: nat, kind: ObjectKind, rights: Rights)
    requires Core(s) && p < |s.tables| && s.nextKoid < U64_MAX && kind !in {Channel, Port, DeviceCtx, Interrupt}
    ensures Core(StepPlain(s, p, kind, rights))
  {
    var t := StepPlain(s, p, kind, rights);
    if s.tables[p].next == 0 {
      PadKeeps(s, s.mints, t.nextKoid);
    } else {
      var x := PlainEntry(s.nextKoid, kind, rights);
      InsertRefinesMap(s.tables[p], x, 0);
      forall l | 0 <= l < |s.strong|
        ensures Owners(t, l) == Owners(s, l)
      {
        InsertFacts(s, p, x, l);
        CountSingle(x, l);
      }
      forall e | Holds(t, e)
        ensures Good(t, e)
      {
        InsertHolds(s, t, p, x, e);
        if Holds(s, e) {
          SameDescends(s, e, e);
          DescendantGood(s, t, e);
        } else {
          assert Mint(s.nextKoid, kind, rights) in t.mints;
        }
      }
      SameEndpoints(s, t);
    }
  }

  lemma MintHonest(s: System, p: nat, kind: ObjectKind, rights: Rights)
    requires Core(s) && p < |s.tables|
    ensures Honest(StepDevice(s, p, kind, rights))
  {
    var t := StepDevice(s, p, kind, rights);
    var n := |s.strong|;
    var x := NewEntry(s.nextKoid, kind, rights, n);
    NoOwnerBeyond(s, n);
    forall l | 0 <= l <= n
      ensures t.strong[l] == Owners(t, l)
    {
      InsertFacts(s, p, x, l);
      CountSingle(x, l);
    }
  }

  lemma MintGood(s: System, p: nat, kind: ObjectKind, rights: Rights, e: OwnedEntry)
    requires Core(s) && p < |s.tables| && s.nextKoid < U64_MAX && Holds(StepDevice(s, p, kind, rights), e)
    ensures Good(StepDevice(s, p, kind, rights), e)
  {
    var t := StepDevice(s, p, kind, rights);
    var x := NewEntry(s.nextKoid, kind, rights, |s.strong|);
    if s.tables[p].next != 0 {
      InsertHolds(s, t, p, x, e);
    }
    if Holds(s, e) {
      SameDescends(s, e, e);
      DescendantGood(s, t, e);
    } else {
      assert Mint(s.nextKoid, kind, rights) in t.mints;
    }
  }

  /** A fresh object with a lineage of its own. */
  lemma MintKeeps(s: System, p: nat, kind: ObjectKind, rights: Rights)
    requires Core(s) && p < |s.tables| && s.nextKoid < U64_MAX
    ensures Core(StepDevice(s, p, kind, rights))
  {
    var t := StepDevice(s, p, kind, rights);
    MintHonest(s, p, kind, rights);
    InsertRefinesOrSame(s, p, NewEntry(s.nextKoid, kind, rights, |s.strong|));
    forall e | Holds(t, e)
      ensures Good(t, e)
    {
      MintGood(s, p, kind, rights, e);
    }
    SameEndpoints(s, t);
  }

  lemma InsertRefinesOrSame(s: System, p: nat, x: OwnedEntry)
    requires Core(s) && p < |s.tables|
    ensures s.tables[p].next != 0 ==> ValidTable(Inserted(s.tables[p], x))
  {
    if s.tables[p].next != 0 {
      InsertRefinesMap(s.tables[p], x, 0);
    }
  }

  /** A new pair whose ids were never used by another. */
  lemma PairKeeps(s: System, p: Pair)
    requires Core(s) && p.left.inbox == [] && p.right.inbox == [] && p.left.koid != p.right.koid
    requires GoodEndpoint(s, p.left) && GoodEndpoint(s, p.right)
    requires forall i, d :: 0 <= i < |s.channels| ==> s.channels[i].At(d).koid != p.left.koid && s.channels[i].At(d).koid != p.right.koid
    ensures Core(s.(channels := s.channels + [p]))
  {
    var t := s.(channels := s.channels + [p]);
    assert Bag(p) == [];
    forall l | 0 <= l < |s.strong|
      ensures Owners(t, l) == Owners(s, l)
    {
      assert PairBags(t.channels) == PairBags(s.channels) + [[]];
      CountBagsConcat(PairBags(s.channels), [[]], l);
      var none: seq<seq<OwnedEntry>> := [[]];
      assert none[1..] == [];
    }
    forall e | Holds(t, e)
      ensures Descends(s, e)
    {
      NewPairQueues(s.channels, p, e);
      SameDescends(s, e, e);
    }
    forall i, d | 0 <= i < |t.channels|
      ensures GoodEndpoint(t, t.channels[i].At(d))
    {
      if i < |s.channels| {
        assert GoodEndpoint(s, s.channels[i].At(d));
      }
    }
    CoreKept(s, t);
  }

  lemma NewPairQueues(cs: seq<Pair>, p: Pair, e: OwnedEntry)
    requires p.left.inbox == [] && p.right.inbox == []
    ensures InQueues(cs + [p], e) ==> InQueues(cs, e)
  {
    if InQueues(cs + [p], e) {
      var i, d :| 0 <= i < |cs + [p]| && e in Queued((cs + [p])[i].At(d).inbox);
      if i < |cs| {
        assert e in Queued(cs[i].At(d).inbox);
      }
    }
  }

  lemma ChannelKeeps(s: System, p: nat)
    requires Core(s) && p < |s.tables| && s.nextKoid + 2 <= U64_MAX
    ensures Core(StepChannel(s, p))
  {
    var t := StepChannel(s, p);
    var t1 := StepDevice(s, p, Channel, CHANNEL_RIGHTS);
    MintKeeps(s, p, Channel, CHANNEL_RIGHTS);
    if s.tables[p].next == 0 {
      PadKeeps(t1, t.mints, t.nextKoid);
      assert s.tables[p := s.tables[p]] == s.tables;
      assert t == t1.(mints := t.mints, nextKoid := t.nextKoid);
    } else {
      var t2 := StepDevice(t1, p, Channel, CHANNEL_RIGHTS);
      MintKeeps(t1, p, Channel, CHANNEL_RIGHTS);
      if t1.tables[p].next == 0 {
        PadKeeps(t2, t.mints, t.nextKoid);
        assert t == t2.(mints := t.mints, nextKoid := t.nextKoid);
      } else {
        var pair := CreateChannel(s.tables[p], s.strong, s.nextKoid, s.nextKoid + 1).record.value;
        assert forall i, d :: 0 <= i < |s.channels| ==> GoodEndpoint(s, s.channels[i].At(d));
        PairKeeps(t2, pair);
        assert t == t2.(channels := t2.channels + [pair]);
      }
    }
  }

  lemma RootKeeps(s: System, p: nat)
    requires Core(s) && p < |s.tables| && s.nextKoid + 2 <= U64_MAX
    ensures Core(StepRoot(s, p))
  {
    var t := StepRoot(s, p);
    var t0 := s.(nextKoid := s.nextKoid + 1);
    PadKeeps(s, s.mints, s.nextKoid + 1);
    var t1 := StepDevice(t0, p, Channel, CHANNEL_RIGHTS);
    MintKeeps(t0, p, Channel, CHANNEL_RIGHTS);
    if s.tables[p].next == 0 {
      PadKeeps(t1, t.mints, t.nextKoid);
      assert s.tables[p := s.tables[p]] == s.tables;
      assert t == t1.(mints := t.mints, nextKoid := t.nextKoid);
    } else {
      var pair := CreateRoot(s.tables[p], s.strong, s.nextKoid, s.nextKoid + 1).record.value;
      assert forall i, d :: 0 <= i < |s.channels| ==> GoodEndpoint(s, s.channels[i].At(d));
      PairKeeps(t1, pair);
      assert t == t1.(channels := t1.channels + [pair]);
    }
  }

  lemma PortKeeps(s: System, p: nat)
    requires Core(s) && p < |s.tables| && s.nextKoid + 2 <= U64_MAX
    ensures Core(StepPort(s, p))
  {
    var t := StepPort(s, p);
    var t1 := StepDevice(s, p, Port, PORT_RIGHTS);
    MintKeeps(s, p, Port, PORT_RIGHTS);
    if s.tables[p].next == 0 {
      PadKeeps(t1, t.mints, t.nextKoid);
      assert s.tables[p := s.tables[p]] == s.tables;
      assert t == t1.(mints := t.mints, nextKoid := t.nextKoid);
    } else {
      InheritsSame(t1);
      forall e | Holds(t, e)
        ensures Holds(t1, e)
      {
      }
      forall l | 0 <= l < |t.strong|
        ensures Owners(t, l) == Owners(t1, l)
      {
      }
      CoreKept(t1, t);
    }
  }
}
