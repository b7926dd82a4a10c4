/** The mutable handle table of kernel/src/object.rs, proved against the table values of
    module Objects. Every early return drops what Rust would drop on it. */
module HandleTables {
  import opened Objects

  class HandleTable {
    var entries: seq<OwnedEntry>
    var nextHandle: nat

    function View(): Table
      reads this
    {
      Table(entries, nextHandle)
    }

    ghost predicate Valid()
      reads this
    {
      ValidTable(View())
    }

    constructor ()
      ensures View() == Table([], 1) && Valid()
    {
      entries := [];
      nextHandle := 1;
    }

    /** `position`: binary search over the ascending entries agrees with the linear scan. */
    method FindPosition(handle: nat) returns (r: Option<nat>)
      requires Valid()
      ensures r == Position(View(), handle)
    {
      if handle == 0 {
        return None;
      }
      var lo, hi := 0, |entries|;
      while lo < hi
        invariant 0 <= lo <= hi <= |entries|
        invariant forall i :: 0 <= i < lo ==> entries[i].entry.handle < handle
        invariant forall i :: hi <= i < |entries| ==> handle < entries[i].entry.handle
      {
        var mid := (lo + hi) / 2;
        if entries[mid].entry.handle == handle {
          LookupAt(View(), mid);
          return Some(mid);
        } else if entries[mid].entry.handle < handle {
          lo := mid + 1;
        } else {
          hi := mid;
        }
      }
      r := None;
    }

    method GetEntry(handle: nat) returns (r: Result<HandleEntry, ObjectError>)
      requires Valid()
      ensures r == Get(View(), handle)
    {
      var i := FindPosition(handle);
      match i
      case None => r := Err(BadHandle);
      case Some(index) => r := Ok(entries[index].entry);
    }

    method RequireEntry(handle: nat, kind: ObjectKind, rights: Rights) returns (r: Result<HandleEntry, ObjectError>)
      requires Valid()
      ensures r == Require(View(), handle, kind, rights)
    {
      var got := GetEntry(handle);
      match got
      case Err(e) => r := Err(e);
      case Ok(entry) =>
        if entry.kind != kind {
          r := Err(WrongType);
        } else if !Contains(entry.rights, rights) {
          r := Err(AccessDenied);
        } else {
          r := Ok(entry);
        }
    }

    /** `insert_parts`, taking over the reference `e` owns. When the handle space is used up
        the entry is dropped, so its reference goes with it. */
    method InsertEntry(e: OwnedEntry, refs: RcHeap) returns (r: Result<nat, ObjectError>)
      requires Valid() && Live(refs.strong, e)
      modifies this, refs
      ensures Valid()
      ensures old(nextHandle) == 0 ==>
                r == Err(TableFull) && View() == old(View()) && refs.strong == Release(old(refs.strong), [e])
      ensures old(nextHandle) != 0 ==>
                r == Ok(old(nextHandle)) && View() == Inserted(old(View()), e) && refs.strong == old(refs.strong)
    {
      if nextHandle == 0 {
        refs.DropOne(e);
        return Err(TableFull);
      }
      InsertRefinesMap(View(), e, nextHandle);
      var handle := nextHandle;
      nextHandle := if nextHandle == LAST_HANDLE then 0 else nextHandle + 1;
      entries := entries + [Renumbered(e, handle)];
      r := Ok(handle);
    }

    /** `insert`: a plain object with no lineage. Device contexts and interrupts are refused. */
    method Insert(koid: nat, kind: ObjectKind, rights: Rights, refs: RcHeap) returns (r: Result<nat, ObjectError>)
      requires Valid()
      modifies this, refs
      ensures Valid() && refs.strong == old(refs.strong)
      ensures kind in {DeviceCtx, Interrupt} ==> r == Err(AccessDenied) && View() == old(View())
      ensures kind !in {DeviceCtx, Interrupt} ==>
                if old(nextHandle) == 0 then r == Err(TableFull) && View() == old(View())
                else r == Ok(old(nextHandle))
                     && View() == Inserted(old(View()), OwnedEntry(HandleEntry(0, koid, kind, rights), None))
    {
      if kind in {DeviceCtx, Interrupt} {
        return Err(AccessDenied);
      }
      var e := OwnedEntry(HandleEntry(0, koid, kind, rights), None);
      assert Release(refs.strong, [e]) == refs.strong by {
        forall l | 0 <= l < |refs.strong|
          ensures Count([e], l) == 0
        {
          CountSingle(e, l);
        }
      }
      r := InsertEntry(e, refs);
    }

    /** `insert_referenced`: install an object with a lineage of its own and return the
        observer of that lineage. A refused insertion leaves the new lineage unreferenced. */
    method InsertReferenced(koid: nat, kind: ObjectKind, rights: Rights, refs: RcHeap)
      returns (r: Result<(nat, nat), ObjectError>)
      requires Valid()
      modifies this, refs
      ensures Valid()
      ensures old(nextHandle) == 0 ==>
                r == Err(TableFull) && View() == old(View()) && refs.strong == old(refs.strong) + [0]
      ensures old(nextHandle) != 0 ==>
                && r == Ok((old(nextHandle), |old(refs.strong)|))
                && View() == Inserted(old(View()),
                                      OwnedEntry(HandleEntry(0, koid, kind, rights), Some(|old(refs.strong)|)))
                && refs.strong == old(refs.strong) + [1]
    {
      var lineage := refs.Mint();
      var e := OwnedEntry(HandleEntry(0, koid, kind, rights), Some(lineage));
      forall l | 0 <= l < |refs.strong|
        ensures Count([e], l) == if l == lineage then 1 else 0
      {
        CountSingle(e, l);
      }
      var inserted := InsertEntry(e, refs);
      match inserted
      case Err(error) => r := Err(error);
      case Ok(handle) => r := Ok((handle, lineage));
    }

    /** `remove`: the entry moves out with its reference. */
    method Remove(handle: nat) returns (r: Result<OwnedEntry, ObjectError>)
      requires Valid()
      modifies this
      ensures Valid() && View() == Removed(old(View()), handle)
      ensures match Lookup(old(View()), handle)
              case None => r == Err(BadHandle)
              case Some(e) => r == Ok(e)
    {
      RemoveKeepsOrder(View(), handle);
      var i := FindPosition(handle);
      match i
      case None => r := Err(BadHandle);
      case Some(index) =>
        r := Ok(entries[index]);
        entries := entries[..index] + entries[index + 1..];
    }

    /** `close`: remove and drop. */
    method Close(handle: nat, refs: RcHeap) returns (r: Result<(), ObjectError>)
      requires Valid() && Backs(refs.strong, entries)
      modifies this, refs
      ensures Valid() && View() == Removed(old(View()), handle)
      ensures match Lookup(old(View()), handle)
              case None => r == Err(BadHandle) && refs.strong == old(refs.strong)
              case Some(e) => r == Ok(()) && refs.strong == Release(old(refs.strong), [e])
      ensures Backs(refs.strong, entries)
    {
      var removed := Remove(handle);
      match removed
      case Err(e) => r := Err(e);
      case Ok(entry) =>
        ghost var es, k := old(entries), Position(old(View()), handle).value;
        forall l | 0 <= l < |refs.strong|
          ensures Count(es, l) == Count(entries, l) + Count([entry], l)
        {
          CountRemoveAt(es, k, l);
        }
        assert forall e :: e in entries ==> e in es;
        assert entry in es;
        if entry.reference.Some? {
          CountSingle(entry, entry.reference.value);
        }
        refs.DropOne(entry);
        r := Ok(());
    }

    method Drain() returns (drained: seq<OwnedEntry>)
      requires Valid()
      modifies this
      ensures Valid() && drained == old(entries) && View() == Table([], old(nextHandle))
    {
      drained := entries;
      entries := [];
    }

    /** `clone_entry`: another owner of the same lineage. */
    method CloneEntry(handle: nat, refs: RcHeap) returns (r: Result<OwnedEntry, ObjectError>)
      requires Valid() && Backs(refs.strong, entries)
      modifies refs
      ensures match Lookup(View(), handle)
              case None => r == Err(BadHandle) && refs.strong == old(refs.strong)
              case Some(e) => r == Ok(e) && refs.strong == Retain(old(refs.strong), [e])
    {
      var i := FindPosition(handle);
      match i
      case None => r := Err(BadHandle);
      case Some(index) =>
        refs.CloneOf(entries[index]);
        r := Ok(entries[index]);
    }

    method Duplicate(handle: nat, rights: Rights, refs: RcHeap) returns (r: Result<nat, ObjectError>)
      requires Valid() && Backs(refs.strong, entries)
      modifies this, refs
      ensures Valid()
      ensures match Duplicated(old(View()), handle, rights)
              case Err(e) => r == Err(e) && View() == old(View()) && refs.strong == old(refs.strong)
              case Ok(e) =>
                && r == Ok(old(nextHandle))
                && View() == Inserted(old(View()), e)
                && refs.strong == Retain(old(refs.strong), [e])
    {
      var got := GetEntry(handle);
      if got.Err? {
        return Err(got.error);
      }
      if !Contains(got.value.rights, DUPLICATE) || !Contains(got.value.rights, rights) {
        return Err(AccessDenied);
      }
      var cloned := CloneEntry(handle, refs);
      var owner := cloned.value.(entry := cloned.value.entry.(rights := rights));
      SameReference(refs.strong, cloned.value, owner);
      SameReference(old(refs.strong), cloned.value, owner);
      RetainRelease(old(refs.strong), [owner]);
      RetainedLive(old(refs.strong), entries, owner);
      r := InsertEntry(owner, refs);
    }

    method StageGrantTo(target: HandleTable, source: nat, transfer: bool, refs: RcHeap)
      returns (r: Result<Grant, ObjectError>)
      requires target != this && Valid() && target.Valid() && Backs(refs.strong, entries)
      modifies target, refs
      ensures target.Valid()
      ensures match Staged(View(), old(target.View()), source, transfer)
              case Err(e) => r == Err(e) && target.View() == old(target.View()) && refs.strong == old(refs.strong)
              case Ok(e) =>
                && r == Ok(Grant(source, old(target.nextHandle), transfer))
                && target.View() == Inserted(old(target.View()), e)
                && refs.strong == Retain(old(refs.strong), [e])
    {
      var got := GetEntry(source);
      if got.Err? {
        return Err(got.error);
      }
      if !Contains(got.value.rights, if transfer then TRANSFER else DUPLICATE) {
        return Err(AccessDenied);
      }
      var cloned := CloneEntry(source, refs);
      RetainRelease(old(refs.strong), [cloned.value]);
      RetainedLive(old(refs.strong), entries, cloned.value);
      var installed := target.InsertEntry(cloned.value, refs);
      match installed
      case Err(e) => r := Err(e);
      case Ok(h) => r := Ok(Grant(source, h, transfer));
    }

    method CommitGrant(grant: Grant, refs: RcHeap) returns (r: Result<(), ObjectError>)
      requires Valid() && Backs(refs.strong, entries)
      modifies this, refs
      ensures Valid()
      ensures !grant.transfer ==> r == Ok(()) && View() == old(View()) && refs.strong == old(refs.strong)
      ensures grant.transfer ==>
                && View() == Removed(old(View()), grant.source)
                && match Lookup(old(View()), grant.source)
                   case None => r == Err(BadHandle) && refs.strong == old(refs.strong)
                   case Some(e) => r == Ok(()) && refs.strong == Release(old(refs.strong), [e])
    {
      if !grant.transfer {
        return Ok(());
      }
      r := Close(grant.source, refs);
    }

    method RollbackGrant(grant: Grant, refs: RcHeap) returns (r: Result<(), ObjectError>)
      requires Valid() && Backs(refs.strong, entries)
      modifies this, refs
      ensures Valid() && View() == Removed(old(View()), grant.target)
      ensures match Lookup(old(View()), grant.target)
              case None => r == Err(BadHandle) && refs.strong == old(refs.strong)
              case Some(e) => r == Ok(()) && refs.strong == Release(old(refs.strong), [e])
    {
      r := Close(grant.target, refs);
    }
  }

  lemma SameReference(strong: Counts, a: OwnedEntry, b: OwnedEntry)
    requires a.reference == b.reference
    ensures Retain(strong, [a]) == Retain(strong, [b])
  {
    forall l | 0 <= l < |strong|
      ensures Count([a], l) == Count([b], l)
    {
      CountSingle(a, l);
      CountSingle(b, l);
    }
  }

  /** A fresh clone is live: its own count was just raised. */
  lemma RetainedLive(strong: Counts, es: seq<OwnedEntry>, e: OwnedEntry)
    requires Backs(strong, es)
    requires e.reference.Some? ==> e.reference.value < |strong|
    ensures Live(Retain(strong, [e]), e)
  {
    if e.reference.Some? {
      CountSingle(e, e.reference.value);
      assert Count(es, e.reference.value) <= strong[e.reference.value];
    }
  }
}
