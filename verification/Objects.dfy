/** Kernel objects, rights, ownership lineages and per-process handle tables
    (kernel/src/object.rs).

    A capability's `Rc<()>` reference becomes a lineage number into a heap of strong
    counts that clone and drop maintain explicitly, so that "the count equals the number
    of owners" is something to prove and not a definition. */
module Objects {

  datatype Option<+T> = None | Some(value: T)

  datatype Result<+T, +E> = Ok(value: T) | Err(error: E)

  datatype ObjectKind =
    | Job | Process | Thread | Channel | Port | Vmo | Vmar | Event | Timer
    | Resource | Interrupt | IoMmu | DeviceCtx

  datatype ObjectError = BadHandle | WrongType | AccessDenied | TableFull

  /** A rights mask: bit i set means right i is held. */
  type Rights = bv32

  const DUPLICATE: Rights := 0x01
  const TRANSFER: Rights := 0x02
  const READ: Rights := 0x04
  const WRITE: Rights := 0x08
  const WAIT: Rights := 0x20

  predicate Contains(rights: Rights, needed: Rights) {
    rights & needed == needed
  }

  /** Nothing is always held, nothing else is held without rights, and each single right is held
      only by those that have it. */
  lemma ContainsSingles(all: Rights)
    ensures Contains(all, 0) && (Contains(0, all) ==> all == 0)
    ensures forall a, b :: a in {DUPLICATE, TRANSFER, READ, WRITE, WAIT} && b in {DUPLICATE, TRANSFER, READ, WRITE, WAIT} ==>
              (Contains(a, b) <==> a == b)
    ensures Contains(READ | WRITE, READ) && !Contains(READ, READ | WRITE)
  {
  }

  lemma ContainsTransitive(a: Rights, b: Rights, c: Rights)
    requires Contains(a, b) && Contains(b, c)
    ensures Contains(a, c)
  {
  }

  /** Metadata of a handle. Copying it does not create an owner. */
  datatype HandleEntry = HandleEntry(handle: nat, koid: nat, kind: ObjectKind, rights: Rights)

  /** An entry that owns one strong reference of its lineage, if it has one. */
  datatype OwnedEntry = OwnedEntry(entry: HandleEntry, reference: Option<nat>)

  // ---- Strong counts -------------------------------------------------------------------

  /** Strong count of every lineage ever minted, indexed by lineage number. */
  type Counts = seq<int>

  /** Number of entries of `es` that own lineage `l`. */
  function Count(es: seq<OwnedEntry>, l: nat): nat {
    if es == [] then 0
    else (if es[0].reference == Some(l) then 1 else 0) + Count(es[1..], l)
  }

  lemma CountConcat(a: seq<OwnedEntry>, b: seq<OwnedEntry>, l: nat)
    ensures Count(a + b, l) == Count(a, l) + Count(b, l)
  {
    if a == [] {
      assert a + b == b;
    } else {
      assert (a + b)[1..] == a[1..] + b;
      CountConcat(a[1..], b, l);
    }
  }

  /** Taking one entry out of a list takes out exactly its own lineage. */
  lemma CountRemoveAt(es: seq<OwnedEntry>, i: nat, l: nat)
    requires i < |es|
    ensures Count(es, l) == Count(es[..i] + es[i + 1..], l) + Count([es[i]], l)
  {
    assert es == es[..i] + ([es[i]] + es[i + 1..]);
    CountConcat(es[..i], [es[i]] + es[i + 1..], l);
    CountConcat([es[i]], es[i + 1..], l);
    CountConcat(es[..i], es[i + 1..], l);
  }

  lemma CountSingle(e: OwnedEntry, l: nat)
    ensures Count([e], l) == if e.reference == Some(l) then 1 else 0
  {
  }

  lemma CountPositive(es: seq<OwnedEntry>, e: OwnedEntry, l: nat)
    requires e in es && e.reference == Some(l)
    ensures Count(es, l) > 0
  {
    if es[0] != e {
      CountPositive(es[1..], e, l);
    }
  }

  lemma CountWitness(es: seq<OwnedEntry>, l: nat) returns (e: OwnedEntry)
    requires Count(es, l) > 0
    ensures e in es && e.reference == Some(l)
  {
    if es[0].reference == Some(l) {
      e := es[0];
    } else {
      e := CountWitness(es[1..], l);
    }
  }

  /** Owners of lineage `l` over a list of containers (tables, mailboxes). */
  function CountBags(bags: seq<seq<OwnedEntry>>, l: nat): nat {
    if bags == [] then 0 else Count(bags[0], l) + CountBags(bags[1..], l)
  }

  lemma CountBagsConcat(a: seq<seq<OwnedEntry>>, b: seq<seq<OwnedEntry>>, l: nat)
    ensures CountBags(a + b, l) == CountBags(a, l) + CountBags(b, l)
  {
    if a == [] {
      assert a + b == b;
    } else {
      assert (a + b)[1..] == a[1..] + b;
      CountBagsConcat(a[1..], b, l);
    }
  }

  /** One container's share of the owners, split from the rest. */
  lemma CountBagsSplit(bags: seq<seq<OwnedEntry>>, i: nat, l: nat)
    requires i < |bags|
    ensures CountBags(bags, l) == CountBags(bags[..i] + bags[i + 1..], l) + Count(bags[i], l)
  {
    assert bags == bags[..i] + ([bags[i]] + bags[i + 1..]);
    CountBagsConcat(bags[..i], [bags[i]] + bags[i + 1..], l);
    CountBagsConcat([bags[i]], bags[i + 1..], l);
    CountBagsConcat(bags[..i], bags[i + 1..], l);
    assert [bags[i]][1..] == [];
  }

  lemma CountBagsUpdate(bags: seq<seq<OwnedEntry>>, i: nat, b: seq<OwnedEntry>, l: nat)
    requires i < |bags|
    ensures CountBags(bags[i := b], l) == CountBags(bags, l) - Count(bags[i], l) + Count(b, l)
  {
    var u := bags[i := b];
    CountBagsSplit(bags, i, l);
    CountBagsSplit(u, i, l);
    assert u[..i] + u[i + 1..] == bags[..i] + bags[i + 1..];
  }

  /** The counts after every entry of `es` was cloned. */
  function Retain(strong: Counts, es: seq<OwnedEntry>): (r: Counts)
    ensures |r| == |strong|
  {
    seq(|strong|, l requires 0 <= l < |strong| => strong[l] + Count(es, l))
  }

  /** The counts after every entry of `es` was dropped. */
  function Release(strong: Counts, es: seq<OwnedEntry>): (r: Counts)
    ensures |r| == |strong|
  {
    seq(|strong|, l requires 0 <= l < |strong| => strong[l] - Count(es, l))
  }

  /** `HandleReferences::is_referenced`: some owner of the lineage is alive. */
  predicate Referenced(strong: Counts, l: nat) {
    l < |strong| && strong[l] != 0
  }

  /** The reference an entry names is a live one. */
  predicate Live(strong: Counts, e: OwnedEntry) {
    e.reference.Some? ==> e.reference.value < |strong| && strong[e.reference.value] > 0
  }

  /** Every entry of `es` really holds the strong reference it names. */
  ghost predicate Backs(strong: Counts, es: seq<OwnedEntry>) {
    && (forall e :: e in es && e.reference.Some? ==> e.reference.value < |strong|)
    && (forall l :: 0 <= l < |strong| ==> Count(es, l) <= strong[l])
  }

  lemma ReleaseConcat(strong: Counts, a: seq<OwnedEntry>, b: seq<OwnedEntry>)
    ensures Release(Release(strong, a), b) == Release(strong, a + b)
    ensures Retain(Retain(strong, a), b) == Retain(strong, a + b)
  {
    forall l | 0 <= l < |strong|
      ensures Count(a + b, l) == Count(a, l) + Count(b, l)
    {
      CountConcat(a, b, l);
    }
  }

  lemma RetainRelease(strong: Counts, es: seq<OwnedEntry>)
    ensures Release(Retain(strong, es), es) == strong
    ensures Retain(strong, []) == strong == Release(strong, [])
  {
  }

  /** The heap of reference counters shared by tables, messages and observers. */
  class RcHeap {
    var strong: Counts

    constructor ()
      ensures strong == []
    {
      strong := [];
    }

    /** `Rc::new(())`. */
    method Mint() returns (l: nat)
      modifies this
      ensures l == |old(strong)| && strong == old(strong) + [1]
    {
      l := |strong|;
      strong := strong + [1];
    }

    /** `Rc::clone` of the reference an entry carries. */
    method CloneOf(e: OwnedEntry)
      requires e.reference.Some? ==> e.reference.value < |strong|
      modifies this
      ensures strong == Retain(old(strong), [e])
    {
      if e.reference.Some? {
        strong := strong[e.reference.value := strong[e.reference.value] + 1];
      }
      forall l | 0 <= l < |strong|
        ensures strong[l] == Retain(old(strong), [e])[l]
      {
        CountSingle(e, l);
      }
    }

    /** Dropping an owned entry. The reference must be live. */
    method DropOne(e: OwnedEntry)
      requires Live(strong, e)
      modifies this
      ensures strong == Release(old(strong), [e])
    {
      if e.reference.Some? {
        strong := strong[e.reference.value := strong[e.reference.value] - 1];
      }
      forall l | 0 <= l < |strong|
        ensures strong[l] == Release(old(strong), [e])[l]
      {
        CountSingle(e, l);
      }
    }

    /** Dropping a vector of owned entries, front to back. */
    method DropAll(es: seq<OwnedEntry>)
      requires Backs(strong, es)
      modifies this
      ensures strong == Release(old(strong), es)
    {
      var i := 0;
      RetainRelease(strong, es);
      while i < |es|
        invariant 0 <= i <= |es|
        invariant strong == Release(old(strong), es[..i])
      {
        assert es == es[..i] + es[i..];
        forall l | 0 <= l < |strong|
          ensures Count(es, l) == Count(es[..i], l) + Count(es[i..], l)
        {
          CountConcat(es[..i], es[i..], l);
        }
        assert es[i] in es;
        DropOne(es[i]);
        ReleaseConcat(old(strong), es[..i], [es[i]]);
        assert es[..i + 1] == es[..i] + [es[i]];
        i := i + 1;
      }
      assert es[..i] == es;
    }
  }

  // ---- Object identities ---------------------------------------------------------------

  const U64_MAX: nat := 0xFFFF_FFFF_FFFF_FFFF

  /** `next_koid.saturating_add(1).max(1)`. */
  function NextKoid(k: nat): (r: nat)
    ensures k < U64_MAX ==> r > k
  {
    if k < U64_MAX then k + 1 else U64_MAX
  }

  /** The id the `n`-th call of `create` gives. */
  function KoidAt(n: nat): nat {
    if n == 0 then 1 else NextKoid(KoidAt(n - 1))
  }

  /** Ids count up from one and stay at the last one, so no two calls before that agree. */
  lemma {:induction false} KoidsCountUp(n: nat)
    ensures KoidAt(n) == if n + 1 <= U64_MAX then n + 1 else U64_MAX
  {
    if n > 0 {
      KoidsCountUp(n - 1);
    }
  }

  class ObjectManager {
    var nextKoid: nat

    constructor ()
      ensures nextKoid == 1
    {
      nextKoid := 1;
    }

    method Create() returns (koid: nat)
      modifies this
      ensures koid == old(nextKoid) && nextKoid == NextKoid(old(nextKoid))
    {
      koid := nextKoid;
      nextKoid := NextKoid(nextKoid);
    }
  }

  // ---- Handle tables -------------------------------------------------------------------

  const LAST_HANDLE: nat := 0xFFFF_FFFF

  /** A table's value: live entries in issue order, and the next number to issue
      (0 once the 32-bit space is used up). */
  datatype Table = Table(entries: seq<OwnedEntry>, next: nat)

  /** `h` has been given out at some time in the past. */
  predicate Issued(t: Table, h: nat) {
    0 < h <= LAST_HANDLE && (t.next == 0 || h < t.next)
  }

  ghost predicate Ascending(es: seq<OwnedEntry>) {
    forall i, j :: 0 <= i < j < |es| ==> es[i].entry.handle < es[j].entry.handle
  }

  ghost predicate ValidTable(t: Table) {
    && t.next <= LAST_HANDLE
    && Ascending(t.entries)
    && forall i :: 0 <= i < |t.entries| ==> Issued(t, t.entries[i].entry.handle)
  }

  /** Linear search, the reference for the table's binary search. */
  function PositionFrom(es: seq<OwnedEntry>, h: nat, i: nat): (r: Option<nat>)
    requires i <= |es|
    ensures r.Some? ==> i <= r.value < |es| && es[r.value].entry.handle == h
    ensures r.None? ==> forall j :: i <= j < |es| ==> es[j].entry.handle != h
    decreases |es| - i
  {
    if i == |es| then None
    else if es[i].entry.handle == h then Some(i)
    else PositionFrom(es, h, i + 1)
  }

  function Position(t: Table, h: nat): (r: Option<nat>)
    ensures r.Some? ==> r.value < |t.entries| && t.entries[r.value].entry.handle == h
  {
    if h == 0 then None else PositionFrom(t.entries, h, 0)
  }

  function Get(t: Table, h: nat): (r: Result<HandleEntry, ObjectError>)
    ensures r.Ok? ==> r.value.handle == h
  {
    match Position(t, h)
    case None => Err(BadHandle)
    case Some(i) => Ok(t.entries[i].entry)
  }

  function Require(t: Table, h: nat, kind: ObjectKind, rights: Rights): (r: Result<HandleEntry, ObjectError>)
    ensures r.Ok? ==> r.value.kind == kind && Contains(r.value.rights, rights) && Get(t, h) == r
  {
    match Get(t, h)
    case Err(e) => Err(e)
    case Ok(entry) =>
      if entry.kind != kind then Err(WrongType)
      else if !Contains(entry.rights, rights) then Err(AccessDenied)
      else Ok(entry)
  }

  function RemoveAt(es: seq<OwnedEntry>, i: nat): seq<OwnedEntry>
    requires i < |es|
  {
    es[..i] + es[i + 1..]
  }

  /** The table after `h` is closed; unchanged when `h` is not live. */
  function Removed(t: Table, h: nat): Table {
    match Position(t, h)
    case None => t
    case Some(i) => t.(entries := RemoveAt(t.entries, i))
  }

  function NextHandle(n: nat): nat {
    if n == LAST_HANDLE then 0 else n + 1
  }

  function Renumbered(e: OwnedEntry, h: nat): OwnedEntry {
    e.(entry := e.entry.(handle := h))
  }

  /** The table after `e` is installed under the next handle number. */
  function Inserted(t: Table, e: OwnedEntry): Table {
    Table(t.entries + [Renumbered(e, t.next)], NextHandle(t.next))
  }

  /** A table as the finite map it stands for. */
  function Lookup(t: Table, h: nat): (r: Option<OwnedEntry>)
    ensures r.Some? ==> r.value.entry.handle == h && r.value in t.entries
  {
    match Position(t, h)
    case None => None
    case Some(i) => Some(t.entries[i])
  }

  lemma LookupAt(t: Table, i: nat)
    requires ValidTable(t) && i < |t.entries|
    ensures Position(t, t.entries[i].entry.handle) == Some(i)
    ensures Lookup(t, t.entries[i].entry.handle) == Some(t.entries[i])
  {
    assert Issued(t, t.entries[i].entry.handle);
    var p := PositionFrom(t.entries, t.entries[i].entry.handle, 0);
  }

  /** Insertion adds one key, never issued before, and keeps every other binding. */
  lemma InsertRefinesMap(t: Table, e: OwnedEntry, h: nat)
    requires ValidTable(t) && t.next != 0
    ensures ValidTable(Inserted(t, e))
    ensures !Issued(t, t.next) && Lookup(t, t.next).None?
    ensures Issued(Inserted(t, e), h) <==> Issued(t, h) || h == t.next
    ensures Lookup(Inserted(t, e), h) == if h == t.next then Some(Renumbered(e, h)) else Lookup(t, h)
  {
    var u := Inserted(t, e);
    forall i | 0 <= i < |u.entries|
      ensures Issued(u, u.entries[i].entry.handle)
    {
      if i < |t.entries| {
        assert Issued(t, t.entries[i].entry.handle);
      }
    }
    if h == t.next {
      LookupAt(u, |t.entries|);
    } else if Lookup(t, h).Some? {
      var i := Position(t, h).value;
      assert u.entries[i] == t.entries[i];
      LookupAt(u, i);
    }
  }

  /** Where the entry at index `i` of a table with index `k` taken out came from. */
  function Origin(i: nat, k: nat): nat {
    if i < k then i else i + 1
  }

  lemma RemoveKeepsOrder(t: Table, h: nat)
    requires ValidTable(t)
    ensures ValidTable(Removed(t, h))
  {
    if Position(t, h).Some? {
      var k := Position(t, h).value;
      var u := Removed(t, h);
      forall i | 0 <= i < |u.entries|
        ensures Issued(u, u.entries[i].entry.handle)
      {
        assert Issued(t, t.entries[Origin(i, k)].entry.handle);
      }
      forall i, j | 0 <= i < j < |u.entries|
        ensures u.entries[i].entry.handle < u.entries[j].entry.handle
      {
        assert u.entries[i] == t.entries[Origin(i, k)] && u.entries[j] == t.entries[Origin(j, k)];
      }
    }
  }

  /** Closing removes one key and keeps every other binding and the issue counter. */
  lemma RemoveRefinesMap(t: Table, h: nat, x: nat)
    requires ValidTable(t)
    ensures ValidTable(Removed(t, h)) && Removed(t, h).next == t.next
    ensures Lookup(Removed(t, h), x) == if x == h then None else Lookup(t, x)
  {
    RemoveKeepsOrder(t, h);
    var u := Removed(t, h);
    if Position(t, h).Some? {
      var k := Position(t, h).value;
      if Lookup(u, x).Some? {
        var i := Position(u, x).value;
        LookupAt(t, Origin(i, k));
        LookupAt(t, k);
      } else if Lookup(t, x).Some? && x != h {
        var i := Position(t, x).value;
        LookupAt(u, if i < k then i else i - 1);
      }
    }
  }

  // ---- What each table operation decides -----------------------------------------------

  /** The entry `duplicate` installs, or why it refuses. */
  function Duplicated(t: Table, h: nat, rights: Rights): (r: Result<OwnedEntry, ObjectError>)
    ensures r.Ok? ==>
              && t.next != 0 && Lookup(t, h).Some? && r.value.reference == Lookup(t, h).value.reference
              && Contains(Lookup(t, h).value.entry.rights, DUPLICATE)
              && Contains(Lookup(t, h).value.entry.rights, r.value.entry.rights)
  {
    match Lookup(t, h)
    case None => Err(BadHandle)
    case Some(e) =>
      if !Contains(e.entry.rights, DUPLICATE) || !Contains(e.entry.rights, rights) then Err(AccessDenied)
      else if t.next == 0 then Err(TableFull)
      else Ok(e.(entry := e.entry.(rights := rights)))
  }

  /** The entry `stage_grant_to` installs in the target, or why it refuses. */
  function Staged(source: Table, target: Table, h: nat, transfer: bool): (r: Result<OwnedEntry, ObjectError>)
    ensures r.Ok? ==>
              && target.next != 0 && Lookup(source, h) == Some(r.value)
              && Contains(r.value.entry.rights, if transfer then TRANSFER else DUPLICATE)
  {
    match Lookup(source, h)
    case None => Err(BadHandle)
    case Some(e) =>
      if !Contains(e.entry.rights, if transfer then TRANSFER else DUPLICATE) then Err(AccessDenied)
      else if target.next == 0 then Err(TableFull)
      else Ok(e)
  }

  /** A grant staged in a target table and not yet committed in its source. */
  datatype Grant = Grant(source: nat, target: nat, transfer: bool)

  /** Rolling a staged grant back restores the target's entries. Only the handle number
      it used up stays used. */
  lemma StageThenRollback(target: Table, e: OwnedEntry)
    requires ValidTable(target) && target.next != 0
    ensures Removed(Inserted(target, e), target.next) == target.(next := NextHandle(target.next))
  {
    InsertRefinesMap(target, e, target.next);
    var u := Inserted(target, e);
    LookupAt(u, |target.entries|);
    assert RemoveAt(u.entries, |target.entries|) == target.entries;
  }
}
