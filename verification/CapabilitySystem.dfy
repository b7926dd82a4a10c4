/** Every process, mailbox and owner at once: the kernel's capability state as a value, and
    one step for each operation of kernel/src/object.rs and kernel/src/ipc.rs that touches it.
    The steps may come in any order, from any process. */
module CapabilitySystem {
  import opened Objects
  import opened Channels
  import opened Transfers
  import opened Registry
  import opened Bytes

  /** A record of a capability being made from nothing. */
  datatype Mint = Mint(koid: nat, kind: ObjectKind, rights: Rights)

  /** A capability apart from the number a table gave it. */
  datatype Cap = Cap(koid: nat, kind: ObjectKind, rights: Rights, reference: Option<nat>)

  /** What a message says, apart from the numbers of the handles it carries. */
  datatype Letter = Letter(ordinal: nat, flags: nat, bytes: seq<Byte>, caps: seq<Cap>)

  /** `held` are owners between containers: entries removed or drained from a table, and
      transfers of a message the kernel took from a root channel. `origin` gives the object
      each lineage was minted for; `mints`, `sent` and `got` are histories. */
  datatype System = System(
    tables: seq<Table>,
    channels: seq<Pair>,
    ports: seq<PortRecord>,
    held: seq<OwnedEntry>,
    strong: Counts,
    nextKoid: nat,
    origin: seq<Mint>,
    mints: seq<Mint>,
    sent: map<nat, seq<Letter>>,
    got: map<nat, seq<Letter>>)

  const boot := System([], [], [], [], [], 1, [], [], map[], map[])

  datatype Op =
    | NewProcess
    | MintPlain(p: nat, kind: ObjectKind, rights: Rights)
    | MintDevice(p: nat, kind: ObjectKind, rights: Rights)
    | MakeChannel(p: nat)
    | MakeRoot(p: nat)
    | MakePort(p: nat)
    | Duplicate(p: nat, handle: nat, rights: Rights)
    | Stage(p: nat, target: nat, handle: nat, transfer: bool)
    | CloseHandle(p: nat, handle: nat)
    | Remove(p: nat, handle: nat)
    | Drain(p: nat)
    | DropHeld(index: nat)
    | Send(p: nat, channel: nat, m: Outgoing)
    | Receive(p: nat, channel: nat)
    | KernelSend(koid: nat, from: End, m: Outgoing)
    | KernelReceive(koid: nat, end: End)
    | CloseKoid(koid: nat)
    | ReapPairs
    | TakePorts

  function CapOf(e: OwnedEntry): Cap {
    Cap(e.entry.koid, e.entry.kind, e.entry.rights, e.reference)
  }

  function Caps(es: seq<OwnedEntry>): (r: seq<Cap>)
    ensures |r| == |es|
  {
    seq(|es|, i requires 0 <= i < |es| => CapOf(es[i]))
  }

  function LetterOf(m: Message): Letter {
    Letter(m.header.ordinal, m.header.flags, m.bytes, Caps(m.transfers))
  }

  /** The capabilities that handles name in a table. */
  function Named(t: Table, handles: seq<nat>): seq<Cap> {
    if handles == [] then []
    else
      var last := Lookup(t, handles[|handles| - 1]);
      Named(t, handles[..|handles| - 1]) + if last.Some? then [CapOf(last.value)] else []
  }

  function Log(m: map<nat, seq<Letter>>, k: nat): seq<Letter> {
    if k in m then m[k] else []
  }

  function PlainEntry(koid: nat, kind: ObjectKind, rights: Rights): OwnedEntry {
    OwnedEntry(HandleEntry(0, koid, kind, rights), None)
  }

  // ---- Steps ---------------------------------------------------------------------------

  /** `insert` of a fresh object without a lineage. */
  function StepPlain(s: System, p: nat, kind: ObjectKind, rights: Rights): System
    requires p < |s.tables|
  {
    var next := s.(nextKoid := NextKoid(s.nextKoid));
    if s.tables[p].next == 0 then next
    else next.(tables := s.tables[p := Inserted(s.tables[p], PlainEntry(s.nextKoid, kind, rights))],
               mints := s.mints + [Mint(s.nextKoid, kind, rights)])
  }

  /** `insert_device_context` and `insert_interrupt` of a fresh object. */
  function StepDevice(s: System, p: nat, kind: ObjectKind, rights: Rights): System
    requires p < |s.tables|
  {
    var m := Mint(s.nextKoid, kind, rights);
    var next := s.(nextKoid := NextKoid(s.nextKoid), origin := s.origin + [m]);
    if s.tables[p].next == 0 then next.(strong := s.strong + [0])
    else next.(tables := s.tables[p := Inserted(s.tables[p], NewEntry(s.nextKoid, kind, rights, |s.strong|))],
               strong := s.strong + [1], mints := s.mints + [m])
  }

  function StepChannel(s: System, p: nat): System
    requires p < |s.tables|
  {
    var k0 := s.nextKoid;
    var k1 := NextKoid(k0);
    var c := CreateChannel(s.tables[p], s.strong, k0, k1);
    var m0, m1 := Mint(k0, Channel, CHANNEL_RIGHTS), Mint(k1, Channel, CHANNEL_RIGHTS);
    s.(tables := s.tables[p := c.table], strong := c.strong, nextKoid := NextKoid(k1),
       channels := s.channels + (if c.record.Some? then [c.record.value] else []),
       origin := s.origin + [m0, m1][..|c.strong| - |s.strong|],
       mints := s.mints + [m0, m1])
  }

  function StepRoot(s: System, p: nat): System
    requires p < |s.tables|
  {
    var k0 := s.nextKoid;
    var k1 := NextKoid(k0);
    var c := CreateRoot(s.tables[p], s.strong, k0, k1);
    var m := Mint(k1, Channel, CHANNEL_RIGHTS);
    s.(tables := s.tables[p := c.table], strong := c.strong, nextKoid := NextKoid(k1),
       channels := s.channels + (if c.record.Some? then [c.record.value] else []),
       origin := s.origin + [m], mints := s.mints + [m])
  }

  function StepPort(s: System, p: nat): System
    requires p < |s.tables|
  {
    var c := CreatePort(s.tables[p], s.strong, s.nextKoid);
    var m := Mint(s.nextKoid, Port, PORT_RIGHTS);
    s.(tables := s.tables[p := c.table], strong := c.strong, nextKoid := NextKoid(s.nextKoid),
       ports := s.ports + (if c.record.Some? then [c.record.value] else []),
       origin := s.origin + [m], mints := s.mints + [m])
  }

  /** Install one more owner `e` of an existing lineage in table `q`. */
  function Granted(s: System, q: nat, e: OwnedEntry): System
    requires q < |s.tables|
  {
    s.(tables := s.tables[q := Inserted(s.tables[q], e)], strong := Retain(s.strong, [e]))
  }

  function StepDuplicate(s: System, p: nat, h: nat, rights: Rights): System
    requires p < |s.tables|
  {
    match Duplicated(s.tables[p], h, rights)
    case Err(_) => s
    case Ok(e) => Granted(s, p, e)
  }

  function StepStage(s: System, p: nat, q: nat, h: nat, transfer: bool): System
    requires p < |s.tables| && q < |s.tables|
  {
    match Staged(s.tables[p], s.tables[q], h, transfer)
    case Err(_) => s
    case Ok(e) => Granted(s, q, e)
  }

  /** `close`; also `commit_grant` of a move (its source) and `rollback_grant` (its target). */
  function StepCloseHandle(s: System, p: nat, h: nat): System
    requires p < |s.tables|
  {
    match Lookup(s.tables[p], h)
    case None => s
    case Some(e) => s.(tables := s.tables[p := Removed(s.tables[p], h)], strong := Release(s.strong, [e]))
  }

  function StepRemove(s: System, p: nat, h: nat): System
    requires p < |s.tables|
  {
    match Lookup(s.tables[p], h)
    case None => s
    case Some(e) => s.(tables := s.tables[p := Removed(s.tables[p], h)], held := s.held + [e])
  }

  function StepDrain(s: System, p: nat): System
    requires p < |s.tables|
  {
    s.(tables := s.tables[p := s.tables[p].(entries := [])], held := s.held + s.tables[p].entries)
  }

  function StepDropHeld(s: System, i: nat): System
    requires i < |s.held|
  {
    s.(held := RemoveAt(s.held, i), strong := Release(s.strong, [s.held[i]]))
  }

  /** A send and, in the history, what the sender said, with what its own table gave then for
      the handles it named. */
  function StepSend(s: System, p: nat, channel: nat, m: Outgoing): System
    requires p < |s.tables|
  {
    var t := s.tables[p];
    match Write(t, s.channels, channel, m)
    case Err(_) => s
    case Ok((u, cs)) =>
      var (i, d) := Locate(s.channels, Get(t, channel).value.koid).value;
      var k := s.channels[i].At(Peer(d)).koid;
      var letter := Letter(m.header.ordinal, m.header.flags, m.bytes, Named(t, m.handles));
      s.(tables := s.tables[p := u], channels := cs, sent := s.sent[k := Log(s.sent, k) + [letter]])
  }

  /** A receive and, in the history, what the receiver was told, with what its own table gives
      now for the handles it was told. */
  function StepReceive(s: System, p: nat, channel: nat): System
    requires p < |s.tables|
  {
    var t := s.tables[p];
    var r := Read(t, s.channels, channel);
    var next := s.(tables := s.tables[p := r.table], channels := r.channels);
    if r.result.Err? then next
    else
      var (i, d) := Locate(s.channels, Get(t, channel).value.koid).value;
      var k, m := s.channels[i].At(d).koid, r.result.value;
      var letter := Letter(m.header.ordinal, m.header.flags, m.bytes, Named(r.table, m.handles));
      next.(got := s.got[k := Log(s.got, k) + [letter]])
  }

  /** The kernel writing to a pair it reaches by id. Its messages own nothing. */
  function StepKernelSend(s: System, koid: nat, from: End, m: Outgoing): System {
    match Locate(s.channels, koid)
    case None => s
    case Some((i, _)) =>
      var e := s.channels[i].At(Peer(from));
      if !e.open then s
      else
        var message := Message(m.header, m.bytes, m.handles, []);
        s.(channels := Pushed(s.channels, i, Peer(from), message),
           sent := s.sent[e.koid := Log(s.sent, e.koid) + [LetterOf(message)]])
  }

  /** The kernel reading from a pair it reaches by id; the message's owners are then held. */
  function StepKernelReceive(s: System, koid: nat, end: End): System {
    match Locate(s.channels, koid)
    case None => s
    case Some((i, _)) =>
      var e := s.channels[i].At(end);
      if e.inbox == [] then s
      else
        s.(channels := Transfers.Popped(s.channels, i, end), held := s.held + e.inbox[0].transfers,
           got := s.got[e.koid := Log(s.got, e.koid) + [LetterOf(e.inbox[0])]])
  }

  function StepClose(s: System, koid: nat): System {
    match CloseByKoid(s.channels, s.strong, koid)
    case Err(_) => s
    case Ok((cs, strong, _)) => s.(channels := cs, strong := strong)
  }

  function StepReap(s: System): System {
    var (cs, strong) := Reap(s.channels, s.strong, 0);
    s.(channels := cs, strong := strong)
  }

  /** One operation; a process that does not exist makes no step. */
  function Step(s: System, op: Op): System {
    match op
    case NewProcess => s.(tables := s.tables + [Table([], 1)])
    case MintPlain(p, kind, rights) =>
      if p < |s.tables| && kind !in {Channel, Port, DeviceCtx, Interrupt} then StepPlain(s, p, kind, rights) else s
    case MintDevice(p, kind, rights) =>
      if p < |s.tables| && kind in {DeviceCtx, Interrupt} then StepDevice(s, p, kind, rights) else s
    case MakeChannel(p) => if p < |s.tables| then StepChannel(s, p) else s
    case MakeRoot(p) => if p < |s.tables| then StepRoot(s, p) else s
    case MakePort(p) => if p < |s.tables| then StepPort(s, p) else s
    case Duplicate(p, h, rights) => if p < |s.tables| then StepDuplicate(s, p, h, rights) else s
    case Stage(p, q, h, transfer) =>
      if p < |s.tables| && q < |s.tables| && p != q then StepStage(s, p, q, h, transfer) else s
    case CloseHandle(p, h) => if p < |s.tables| then StepCloseHandle(s, p, h) else s
    case Remove(p, h) => if p < |s.tables| then StepRemove(s, p, h) else s
    case Drain(p) => if p < |s.tables| then StepDrain(s, p) else s
    case DropHeld(i) => if i < |s.held| then StepDropHeld(s, i) else s
    case Send(p, channel, m) => if p < |s.tables| then StepSend(s, p, channel, m) else s
    case Receive(p, channel) => if p < |s.tables| then StepReceive(s, p, channel) else s
    case KernelSend(koid, from, m) => StepKernelSend(s, koid, from, m)
    case KernelReceive(koid, end) => StepKernelReceive(s, koid, end)
    case CloseKoid(koid) => StepClose(s, koid)
    case ReapPairs => StepReap(s)
    case TakePorts => s.(ports := LivePorts(s.ports, s.strong))
  }

  function Run(s: System, ops: seq<Op>): System
    decreases |ops|
  {
    if ops == [] then s else Run(Step(s, ops[0]), ops[1..])
  }
}
