/** Theorems over every run of the capability system. */
module CapabilityRuns {
  import opened Objects
  import opened Channels
  import opened Transfers
  import opened Registry
  import opened CapabilitySystem
  import opened Shedding
  import opened Ownership

  // ---- The invariant holds in every run ------------------------------------------------

  /** Object ids have not run out for an operation that makes objects. */
  predicate IdsLeft(s: System, op: Op) {
    op.MintPlain? || op.MintDevice? || op.MakeChannel? || op.MakeRoot? || op.MakePort? ==> s.nextKoid + 2 <= U64_MAX
  }

  predicate IdsLeftThroughout(s: System, ops: seq<Op>)
    decreases |ops|
  {
    ops != [] ==> IdsLeft(s, ops[0]) && IdsLeftThroughout(Step(s, ops[0]), ops[1..])
  }

  lemma BootCore()
    ensures Core(boot)
  {
  }

  lemma NewProcessKeeps(s: System)
    requires Core(s)
    ensures Core(Step(s, NewProcess)) && Inherits(s, Step(s, NewProcess))
  {
    var t := Step(s, NewProcess);
    var none: seq<seq<OwnedEntry>> := [[]];
    assert TableBags(t.tables) == TableBags(s.tables) + none;
    forall l | 0 <= l < |s.strong|
      ensures Owners(t, l) == Owners(s, l)
    {
      CountBagsConcat(TableBags(s.tables), none, l);
      assert none[1..] == [];
    }
    forall e | Holds(t, e)
      ensures Descends(s, e)
    {
      if InTables(t.tables, e) {
        var p :| 0 <= p < |t.tables| && e in t.tables[p].entries;
        assert p < |s.tables| && e in s.tables[p].entries;
      }
      SameDescends(s, e, e);
    }
    CoreKept(s, t);
  }

  lemma {:induction false} LivePortsIn(ps: seq<PortRecord>, strong: Counts, p: PortRecord)
    ensures p in LivePorts(ps, strong) <==> p in ps && !PortUnreferenced(strong, p)
  {
    if ps != [] {
      LivePortsIn(ps[1..], strong, p);
    }
  }

  lemma TakePortsKeeps(s: System)
    requires Core(s)
    ensures Core(Step(s, TakePorts)) && Inherits(s, Step(s, TakePorts))
  {
    var t := Step(s, TakePorts);
    InheritsSame(s);
    forall e | Holds(t, e)
      ensures Holds(s, e)
    {
    }
    forall i | 0 <= i < |t.ports|
      ensures GoodPort(t, t.ports[i])
    {
      LivePortsIn(s.ports, s.strong, t.ports[i]);
      assert t.ports[i] in s.ports;
      var j :| 0 <= j < |s.ports| && s.ports[j] == t.ports[i];
      assert GoodPort(s, s.ports[j]);
    }
    CoreKept(s, t);
  }

  /** Operations that make no object. */
  predicate MakesNothing(op: Op) {
    !(op.MintPlain? || op.MintDevice? || op.MakeChannel? || op.MakeRoot? || op.MakePort?)
  }

  lemma StepCore(s: System, op: Op)
    requires Core(s) && IdsLeft(s, op)
    ensures Core(Step(s, op))
    ensures MakesNothing(op) ==> Inherits(s, Step(s, op))
  {
    if !MakesNothing(op) {
      MakeCore(s, op);
    } else if op.Send? || op.Receive? || op.KernelSend? || op.KernelReceive? {
      MailCore(s, op);
    } else {
      TableCore(s, op);
    }
  }

  lemma MakeCore(s: System, op: Op)
    requires Core(s) && IdsLeft(s, op) && !MakesNothing(op)
    ensures Core(Step(s, op))
  {
    match op
    case MintPlain(p, kind, rights) =>
      if p < |s.tables| && kind !in {Channel, Port, DeviceCtx, Interrupt} { PlainKeeps(s, p, kind, rights); }
    case MintDevice(p, kind, rights) =>
      if p < |s.tables| && kind in {DeviceCtx, Interrupt} { MintKeeps(s, p, kind, rights); }
    case MakeChannel(p) => if p < |s.tables| { ChannelKeeps(s, p); }
    case MakeRoot(p) => if p < |s.tables| { RootKeeps(s, p); }
    case MakePort(p) => if p < |s.tables| { PortKeeps(s, p); }
  }

  lemma MailCore(s: System, op: Op)
    requires Core(s) && (op.Send? || op.Receive? || op.KernelSend? || op.KernelReceive?)
    ensures Core(Step(s, op)) && Inherits(s, Step(s, op))
  {
    if op.KernelSend? {
      KernelSendKeeps(s, op.koid, op.from, op.m);
      assert Step(s, op) == StepKernelSend(s, op.koid, op.from, op.m);
    } else if op.KernelReceive? {
      KernelReceiveKeeps(s, op.koid, op.end);
      assert Step(s, op) == StepKernelReceive(s, op.koid, op.end);
    } else if op.p >= |s.tables| {
      InheritsSame(s);
    } else if op.Send? {
      SendKeeps(s, op.p, op.channel, op.m);
      assert Step(s, op) == StepSend(s, op.p, op.channel, op.m);
    } else {
      ReceiveKeeps(s, op.p, op.channel);
      assert Step(s, op) == StepReceive(s, op.p, op.channel);
    }
  }

  lemma TableCore(s: System, op: Op)
    requires Core(s) && MakesNothing(op) && !(op.Send? || op.Receive? || op.KernelSend? || op.KernelReceive?)
    ensures Core(Step(s, op)) && Inherits(s, Step(s, op))
  {
    InheritsSame(s);
    match op
    case NewProcess => NewProcessKeeps(s);
    case Duplicate(p, h, rights) => if p < |s.tables| { DuplicateKeeps(s, p, h, rights); }
    case Stage(p, q, h, transfer) => if p < |s.tables| && q < |s.tables| { StageKeeps(s, p, q, h, transfer); }
    case CloseHandle(p, h) => if p < |s.tables| { CloseHandleKeeps(s, p, h); }
    case Remove(p, h) => if p < |s.tables| { RemoveKeeps(s, p, h); }
    case Drain(p) => if p < |s.tables| { DrainKeeps(s, p); }
    case DropHeld(i) => if i < |s.held| { DropHeldKeeps(s, i); }
    case CloseKoid(koid) => CloseKeeps(s, koid);
    case ReapPairs => ReapKeeps(s);
    case TakePorts => TakePortsKeeps(s);
  }

  lemma {:induction false} RunCore(s: System, ops: seq<Op>)
    requires Core(s) && IdsLeftThroughout(s, ops)
    ensures Core(Run(s, ops))
    decreases |ops|
  {
    if ops != [] {
      StepCore(s, ops[0]);
      RunCore(Step(s, ops[0]), ops[1..]);
    }
  }

  /** In every run from boot, a lineage's strong count is the number of its owners in tables,
      mailboxes and in flight, and its observer reports "referenced" exactly when one of them
      exists. */
  lemma CountsAreOwners(ops: seq<Op>, l: nat)
    requires IdsLeftThroughout(boot, ops) && l < |Run(boot, ops).strong|
    ensures var s := Run(boot, ops);
            && s.strong[l] == Owners(s, l)
            && (Referenced(s.strong, l) <==> exists e :: Holds(s, e) && e.reference == Some(l))
  {
    BootCore();
    RunCore(boot, ops);
    var s := Run(boot, ops);
    if Owners(s, l) > 0 {
      var e := OwnerWitness(s, l);
    }
    if e :| Holds(s, e) && e.reference == Some(l) {
      HolderCounts(s, e, l);
    }
  }

  /** In every run from boot, whatever a process, a mailbox or the kernel holds was once
      minted with at least the rights it carries now. */
  lemma RightsNeverWiden(ops: seq<Op>, e: OwnedEntry)
    requires IdsLeftThroughout(boot, ops) && Holds(Run(boot, ops), e)
    ensures Minted(Run(boot, ops).mints, e)
  {
    BootCore();
    RunCore(boot, ops);
  }

  // ---- The objects' methods apply ------------------------------------------------------

  /** What the methods of `HandleTable` and `IpcRegistry` require of counts holds in every state
      of every run: counts cover every table and everything queued. */
  lemma MethodsApply(ops: seq<Op>, p: nat)
    requires IdsLeftThroughout(boot, ops) && p < |Run(boot, ops).tables|
    ensures var s := Run(boot, ops);
            && ValidTable(s.tables[p]) && Backs(s.strong, s.tables[p].entries)
            && QueueKnown(s.channels, s.strong) && QueueBacked(s.channels, s.strong)
  {
    BootCore();
    RunCore(boot, ops);
    TableBacked(Run(boot, ops), p);
    QueuesBacked(Run(boot, ops));
  }

  lemma TableBacked(s: System, p: nat)
    requires Core(s) && p < |s.tables|
    ensures Backs(s.strong, s.tables[p].entries)
  {
    forall e | e in s.tables[p].entries && e.reference.Some?
      ensures e.reference.value < |s.strong|
    {
      assert InTables(s.tables, e) && Holds(s, e) && Good(s, e);
    }
    forall l | 0 <= l < |s.strong|
      ensures Count(s.tables[p].entries, l) <= s.strong[l]
    {
      CountBagsSplit(TableBags(s.tables), p, l);
      assert s.strong[l] == Owners(s, l);
    }
  }

  lemma QueuesBacked(s: System)
    requires Core(s)
    ensures QueueKnown(s.channels, s.strong) && QueueBacked(s.channels, s.strong)
  {
    forall i, d, e | 0 <= i < |s.channels| && e in Queued(s.channels[i].At(d).inbox) && e.reference.Some?
      ensures e.reference.value < |s.strong|
    {
      assert InQueues(s.channels, e) && Holds(s, e) && Good(s, e);
    }
    forall l | 0 <= l < |s.strong|
      ensures CountBags(PairBags(s.channels), l) <= s.strong[l]
    {
      assert s.strong[l] == Owners(s, l);
    }
  }

  // ---- What changes a count ------------------------------------------------------------

  /** `h` in table `t` is an entry of lineage `l` holding `right`. */
  predicate Permits(t: Table, h: nat, l: nat, right: Rights) {
    Lookup(t, h).Some? && Lookup(t, h).value.reference == Some(l) && Contains(Lookup(t, h).value.entry.rights, right)
  }

  lemma NeverRaised(s: System, op: Op, l: nat)
    requires Core(s) && l < |s.strong| && !op.Duplicate? && !op.Stage?
    ensures l < |Step(s, op).strong| && Step(s, op).strong[l] <= s.strong[l]
    ensures Moves(op) ==> Step(s, op).strong[l] == s.strong[l]
  {
    if !MakesNothing(op) {
      MintSteady(s, op, l);
    } else if Moves(op) {
      MoveSteady(s, op, l);
    } else {
      match op
      case CloseKoid(koid) =>
        if CloseByKoid(s.channels, s.strong, koid).Ok? {
          CloseSheds(s.channels, s.strong, koid);
        }
      case ReapPairs => ReapSheds(s.channels, s.strong, 0);
      case _ =>
    }
  }

  /** Operations that move owners from one container to another. */
  predicate Moves(op: Op) {
    op.Send? || op.Receive? || op.KernelSend? || op.KernelReceive? || op.Remove? || op.Drain?
  }

  lemma MintSteady(s: System, op: Op, l: nat)
    requires l < |s.strong| && !MakesNothing(op)
    ensures l < |Step(s, op).strong| && Step(s, op).strong[l] == s.strong[l]
  {
  }

  lemma MoveSteady(s: System, op: Op, l: nat)
    requires l < |s.strong| && Moves(op)
    ensures Step(s, op).strong == s.strong
  {
  }

  /** Sending and receiving change no count, and only a duplicate or a staged grant raises
      one, by one, from an entry that carries the right for it. */
  lemma OnlyGrantsRaise(s: System, op: Op, l: nat)
    requires Core(s) && l < |s.strong|
    ensures l < |Step(s, op).strong|
    ensures Moves(op) ==> Step(s, op).strong[l] == s.strong[l]
    ensures Step(s, op).strong[l] > s.strong[l] ==>
              && Step(s, op).strong[l] == s.strong[l] + 1
              && (|| (op.Duplicate? && op.p < |s.tables| && Permits(s.tables[op.p], op.handle, l, DUPLICATE))
                  || (op.Stage? && op.p < |s.tables|
                      && Permits(s.tables[op.p], op.handle, l, if op.transfer then TRANSFER else DUPLICATE)))
  {
    if op.Duplicate? {
      if op.p < |s.tables| && Duplicated(s.tables[op.p], op.handle, op.rights).Ok? {
        CountSingle(Duplicated(s.tables[op.p], op.handle, op.rights).value, l);
      }
    } else if op.Stage? {
      if op.p < |s.tables| && op.target < |s.tables| && Staged(s.tables[op.p], s.tables[op.target], op.handle, op.transfer).Ok? {
        CountSingle(Staged(s.tables[op.p], s.tables[op.target], op.handle, op.transfer).value, l);
      }
    } else {
      NeverRaised(s, op, l);
    }
  }

  /** A move grant that is committed conserves every count. */
  lemma MoveConserves(s: System, p: nat, q: nat, h: nat)
    requires Core(s) && p < |s.tables| && q < |s.tables| && p != q
    requires Staged(s.tables[p], s.tables[q], h, true).Ok?
    ensures var t := Step(Step(s, Stage(p, q, h, true)), CloseHandle(p, h));
            && t.strong == s.strong
            && t.tables[p] == Removed(s.tables[p], h)
            && t.tables[q] == Inserted(s.tables[q], Lookup(s.tables[p], h).value)
  {
    var e := Lookup(s.tables[p], h).value;
    RetainRelease(s.strong, [e]);
  }

  /** A staged grant that is rolled back leaves every count and both tables' entries as they
      were. */
  lemma RollbackRestores(s: System, p: nat, q: nat, h: nat, transfer: bool)
    requires Core(s) && p < |s.tables| && q < |s.tables| && p != q
    requires Staged(s.tables[p], s.tables[q], h, transfer).Ok?
    ensures var t := Step(Step(s, Stage(p, q, h, transfer)), CloseHandle(q, s.tables[q].next));
            && t.strong == s.strong
            && t.tables[p] == s.tables[p] && t.tables[q].entries == s.tables[q].entries
  {
    var e := Lookup(s.tables[p], h).value;
    var n := s.tables[q].next;
    StageThenRollback(s.tables[q], e);
    InsertRefinesMap(s.tables[q], e, n);
    RenumberedRelease(s.strong, e, n);
    assert Step(s, Stage(p, q, h, transfer)) == Granted(s, q, e);
  }

  lemma RenumberedRelease(strong: Counts, e: OwnedEntry, n: nat)
    ensures Release(Retain(strong, [e]), [Renumbered(e, n)]) == strong
  {
    forall l | 0 <= l < |strong|
      ensures Count([Renumbered(e, n)], l) == Count([e], l)
    {
      CountSingle(e, l);
      CountSingle(Renumbered(e, n), l);
    }
  }

  // ---- Handles are never reissued ------------------------------------------------------

  /** From `t` to `u`, a number once issued keeps its entry or loses it for good, and a used-up
      number space stays used up. */
  ghost predicate Endures(t: Table, u: Table) {
    && (t.next == 0 ==> u.next == 0)
    && (forall h :: Issued(t, h) ==> Issued(u, h))
    && (forall h :: Issued(t, h) && Lookup(u, h).Some? ==> Lookup(u, h) == Lookup(t, h))
  }

  lemma InsertedEndures(t: Table, e: OwnedEntry)
    requires ValidTable(t) && t.next != 0
    ensures Endures(t, Inserted(t, e))
  {
    forall h | Issued(t, h)
      ensures Issued(Inserted(t, e), h) && Lookup(Inserted(t, e), h) == Lookup(t, h)
    {
      InsertRefinesMap(t, e, h);
    }
  }

  lemma RemovedEndures(t: Table, h: nat)
    requires ValidTable(t)
    ensures Endures(t, Removed(t, h))
  {
    forall x | Issued(t, x) && Lookup(Removed(t, h), x).Some?
      ensures Lookup(Removed(t, h), x) == Lookup(t, x)
    {
      RemoveRefinesMap(t, h, x);
    }
  }

  lemma FewerEndures(t: Table, es: seq<OwnedEntry>)
    requires ValidTable(t) && ValidTable(t.(entries := es)) && forall e :: e in es ==> e in t.entries
    ensures Endures(t, t.(entries := es))
  {
    var u := t.(entries := es);
    forall x | Lookup(u, x).Some?
      ensures Lookup(u, x) == Lookup(t, x)
    {
      var e := Lookup(u, x).value;
      var i :| 0 <= i < |t.entries| && t.entries[i] == e;
      LookupAt(t, i);
    }
  }

  lemma {:induction false} InstallEndures(t: Table, es: seq<OwnedEntry>)
    requires ValidTable(t) && |es| <= Room(t)
    ensures Endures(t, Install(t, es))
  {
    if es != [] {
      var before := es[..|es| - 1];
      InstallEndures(t, before);
      InstallExact(t, before);
      InsertedEndures(Install(t, before), es[|es| - 1]);
      assert Install(t, es) == Inserted(Install(t, before), es[|es| - 1]);
    }
  }

  lemma MintEndures(s: System, op: Op, p: nat)
    requires Core(s) && p < |s.tables| && !MakesNothing(op)
    ensures p < |Step(s, op).tables| && Endures(s.tables[p], Step(s, op).tables[p])
  {
    var t := s.tables[p];
    match op
    case MintPlain(q, kind, rights) => if q == p && t.next != 0 { InsertedEndures(t, PlainEntry(s.nextKoid, kind, rights)); }
    case MintDevice(q, kind, rights) => if q == p && t.next != 0 { InsertedEndures(t, NewEntry(s.nextKoid, kind, rights, |s.strong|)); }
    case _ => MakeEndures(s, op, p);
  }

  lemma MakeEndures(s: System, op: Op, p: nat)
    requires Core(s) && p < |s.tables| && (op.MakeChannel? || op.MakeRoot? || op.MakePort?)
    ensures p < |Step(s, op).tables| && Endures(s.tables[p], Step(s, op).tables[p])
  {
    var t := s.tables[p];
    match op
    case MakeChannel(q) => if q == p { ChannelEndures(s, p); }
    case MakeRoot(q) => if q == p && t.next != 0 { InsertedEndures(t, NewEntry(NextKoid(s.nextKoid), Channel, CHANNEL_RIGHTS, |s.strong|)); }
    case MakePort(q) => if q == p && t.next != 0 { InsertedEndures(t, NewEntry(s.nextKoid, Port, PORT_RIGHTS, |s.strong|)); }
  }

  lemma GrantEndures(s: System, op: Op, p: nat)
    requires Core(s) && p < |s.tables| && (op.Duplicate? || op.Stage?)
    ensures p < |Step(s, op).tables| && Endures(s.tables[p], Step(s, op).tables[p])
  {
    var t := s.tables[p];
    match op
    case Duplicate(q, h, rights) =>
      if q == p && Duplicated(t, h, rights).Ok? { InsertedEndures(t, Duplicated(t, h, rights).value); }
    case Stage(q, r, h, transfer) =>
      if q < |s.tables| && r == p && Staged(s.tables[q], t, h, transfer).Ok? { InsertedEndures(t, Staged(s.tables[q], t, h, transfer).value); }
  }

  lemma MailEndures(s: System, op: Op, p: nat)
    requires Core(s) && p < |s.tables| && (op.Send? || op.Receive?)
    ensures p < |Step(s, op).tables| && Endures(s.tables[p], Step(s, op).tables[p])
  {
    var t := s.tables[p];
    match op
    case Send(q, channel, m) => if q == p && Write(t, s.channels, channel, m).Ok? { SendEndures(t, m.handles); }
    case Receive(q, channel) => if q == p { ReceiveEndures(s, p, channel); }
  }

  /** Every step lets every table endure. */
  lemma StepEndures(s: System, op: Op, p: nat)
    requires Core(s) && p < |s.tables|
    ensures p < |Step(s, op).tables| && Endures(s.tables[p], Step(s, op).tables[p])
  {
    var t := s.tables[p];
    if !MakesNothing(op) {
      MintEndures(s, op, p);
    } else if op.Duplicate? || op.Stage? {
      GrantEndures(s, op, p);
    } else if op.Send? || op.Receive? {
      MailEndures(s, op, p);
    } else {
      match op
      case CloseHandle(q, h) => if q == p { RemovedEndures(t, h); }
      case Remove(q, h) => if q == p { RemovedEndures(t, h); }
      case _ =>
    }
  }

  lemma ChannelEndures(s: System, p: nat)
    requires Core(s) && p < |s.tables|
    ensures Endures(s.tables[p], StepChannel(s, p).tables[p])
  {
    var t := s.tables[p];
    if t.next != 0 {
      var e := NewEntry(s.nextKoid, Channel, CHANNEL_RIGHTS, |s.strong|);
      InsertedEndures(t, e);
      InsertRefinesMap(t, e, 0);
      var u := Inserted(t, e);
      if u.next != 0 {
        InsertedEndures(u, NewEntry(NextKoid(s.nextKoid), Channel, CHANNEL_RIGHTS, |s.strong| + 1));
      }
    }
  }

  lemma SendEndures(t: Table, handles: seq<nat>)
    requires ValidTable(t)
    ensures Endures(t, t.(entries := Without(t.entries, handles)))
  {
    WithoutValid(t, handles);
    forall e | e in Without(t.entries, handles)
      ensures e in t.entries
    {
      WithoutIn(t.entries, handles, e);
    }
    FewerEndures(t, Without(t.entries, handles));
  }

  lemma ReceiveEndures(s: System, p: nat, channel: nat)
    requires Core(s) && p < |s.tables|
    ensures Endures(s.tables[p], StepReceive(s, p, channel).tables[p])
  {
    var t := s.tables[p];
    var r := Read(t, s.channels, channel);
    if r.result.Ok? {
      var (i, d) := Locate(s.channels, Get(t, channel).value.koid).value;
      InstallEndures(t, s.channels[i].At(d).inbox[0].transfers);
    } else {
      assert Endures(t, t.(next := 0));
    }
  }

  /** Over a whole run: a handle closed is bad forever, a live one never changes what it
      names, and exhaustion is permanent. */
  lemma {:induction false} RunEndures(s: System, ops: seq<Op>, p: nat)
    requires Core(s) && IdsLeftThroughout(s, ops) && p < |s.tables|
    ensures p < |Run(s, ops).tables| && Endures(s.tables[p], Run(s, ops).tables[p])
    decreases |ops|
  {
    if ops != [] {
      var n := Step(s, ops[0]);
      StepCore(s, ops[0]);
      StepEndures(s, ops[0], p);
      RunEndures(n, ops[1..], p);
      EnduresThen(s.tables[p], n.tables[p], Run(s, ops).tables[p]);
    }
  }

  lemma EnduresThen(t: Table, u: Table, v: Table)
    requires Endures(t, u) && Endures(u, v)
    ensures Endures(t, v)
  {
  }
}
