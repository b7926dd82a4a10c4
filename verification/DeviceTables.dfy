/** The table pool over whole runs: many leases, many memory objects, any order
    (kernel/src/device_memory.rs). A page a lease never gives back stays leased for good. */
module DeviceTables {
  import opened Objects
  import opened DeviceMemory

  /** A memory object that was prepared and not committed yet, with the span it reserved. */
  datatype Ticket = Ticket(v: MemoryObject, span: Option<Span>)

  /** The pool, what each lease owns, and the memory objects prepared and issued so far. */
  datatype Tables = Tables(pool: Pool, leases: seq<seq<nat>>, prepared: seq<Ticket>, issued: seq<MemoryObject>)

  const boot := Tables(newPool, [], [], [])

  datatype Op =
    | NewLease
    | PrepareVmo(v: MemoryObject)
    | CommitVmo(ticket: nat)
    | Take(lease: nat, candidate: Option<nat>)
    | Store(lease: nat, page: nat, index: nat, word: nat)
    | Give(lease: nat, page: nat)

  /** What `commit_vmo` asserts. */
  predicate Asserted(frames: seq<Slot>, span: Option<Span>) {
    span.Some? ==> !Clashes(frames, span.value)
  }

  /** A commit whose assertion fails stops the kernel, and so does a store to or release of a
      page the lease does not own: no step. */
  function Step(s: Tables, op: Op): Tables {
    match op
    case NewLease => s.(leases := s.leases + [[]])
    case PrepareVmo(v) =>
      (match Prepare(s.pool.frames, v)
       case Err(_) => s
       case Ok(span) => s.(prepared := s.prepared + [Ticket(v, span)]))
    case CommitVmo(i) =>
      if i < |s.prepared| && Asserted(s.pool.frames, s.prepared[i].span) then
        s.(pool := Commit(s.pool, s.prepared[i].span), issued := s.issued + [s.prepared[i].v],
           prepared := s.prepared[..i] + s.prepared[i + 1..])
      else s
    case Take(i, candidate) =>
      if i >= |s.leases| then s
      else
        var (pool, owned, _) := Allocate(s.pool, s.leases[i], candidate);
        s.(pool := pool, leases := s.leases[i := owned])
    case Store(i, page, index, word) =>
      if i < |s.leases| && page in s.leases[i] && page in s.pool.memory && index < |s.pool.memory[page]|
      then s.(pool := Written(s.pool, page, index, word)) else s
    case Give(i, page) =>
      if i < |s.leases| && Place(s.leases[i], page, 0).Some? && FrameOf(s.pool.frames, page, 0).Some? then
        var (pool, owned) := Returned(s.pool, s.leases[i], page);
        s.(pool := pool, leases := s.leases[i := owned])
      else s
  }

  function Run(s: Tables, ops: seq<Op>): Tables
    decreases |ops|
  {
    if ops == [] then s else Run(Step(s, ops[0]), ops[1..])
  }

  // ---- The invariant -------------------------------------------------------------------

  ghost predicate GoodFrames(fs: seq<Slot>) {
    && (forall i :: 0 <= i < |fs| ==> fs[i].phys % PAGE_SIZE == 0 && fs[i].phys < FOUR_GIB)
    && (forall i, j :: 0 <= i < j < |fs| ==> fs[i].phys != fs[j].phys)
  }

  ghost predicate ClearOfExcluded(p: Pool) {
    forall i, j :: 0 <= i < |p.frames| && 0 <= j < |p.excluded| ==> !Overlap(p.excluded[j], Page(p.frames[i].phys))
  }

  ghost predicate Recorded(s: Tables) {
    forall i :: 0 <= i < |s.issued| ==>
      Reach(s.issued[i]).Ok? && (Reach(s.issued[i]).value.Some? ==> Reach(s.issued[i]).value.value in s.pool.excluded)
  }

  ghost predicate Reserved(s: Tables) {
    forall i :: 0 <= i < |s.prepared| ==> Reach(s.prepared[i].v) == Ok(s.prepared[i].span)
  }

  ghost predicate NoDuplicates(s: seq<nat>) {
    forall i, j :: 0 <= i < j < |s| ==> s[i] != s[j]
  }

  /** No page has two owners. */
  ghost predicate Exclusive(leases: seq<seq<nat>>) {
    && (forall i :: 0 <= i < |leases| ==> NoDuplicates(leases[i]))
    && (forall i, k, x :: 0 <= i < |leases| && 0 <= k < |leases| && x in leases[i] && x in leases[k] ==> i == k)
  }

  ghost predicate Leased(fs: seq<Slot>, page: nat) {
    exists i :: 0 <= i < |fs| && fs[i] == Slot(page, true)
  }

  ghost predicate OwnedSomewhere(leases: seq<seq<nat>>, page: nat) {
    exists i :: 0 <= i < |leases| && page in leases[i]
  }

  /** A frame is leased exactly when some lease owns it. */
  ghost predicate Accounted(s: Tables) {
    && (forall i, x :: 0 <= i < |s.leases| && x in s.leases[i] ==> Leased(s.pool.frames, x))
    && (forall i :: 0 <= i < |s.pool.frames| && s.pool.frames[i].leased ==> OwnedSomewhere(s.leases, s.pool.frames[i].phys))
  }

  /** Every frame is memory, and a free one is all zeros. */
  ghost predicate Clean(p: Pool) {
    forall i :: 0 <= i < |p.frames| ==>
      && p.frames[i].phys in p.memory && |p.memory[p.frames[i].phys]| == WORDS
      && (!p.frames[i].leased ==> p.memory[p.frames[i].phys] == Zeros())
  }

  ghost predicate Sound(s: Tables) {
    && GoodFrames(s.pool.frames) && ClearOfExcluded(s.pool) && Recorded(s) && Reserved(s)
    && Exclusive(s.leases) && Accounted(s) && Clean(s.pool)
  }

  // ---- Each step keeps it --------------------------------------------------------------

  /** The frame of an owned page. */
  lemma FrameIndex(s: Tables, k: nat, page: nat) returns (f: nat)
    requires Accounted(s) && k < |s.leases| && page in s.leases[k]
    ensures f < |s.pool.frames| && s.pool.frames[f] == Slot(page, true)
  {
    assert Leased(s.pool.frames, page);
    f :| 0 <= f < |s.pool.frames| && s.pool.frames[f] == Slot(page, true);
  }

  /** A free frame has no owner. */
  lemma FreeUnowned(s: Tables, i: nat)
    requires Sound(s) && i < |s.pool.frames| && !s.pool.frames[i].leased
    ensures !OwnedSomewhere(s.leases, s.pool.frames[i].phys)
  {
    forall k | 0 <= k < |s.leases|
      ensures s.pool.frames[i].phys !in s.leases[k]
    {
      if s.pool.frames[i].phys in s.leases[k] {
        var f := FrameIndex(s, k, s.pool.frames[i].phys);
      }
    }
  }

  /** Nor has a page that is no frame. */
  lemma StrangerUnowned(s: Tables, page: nat)
    requires Accounted(s) && FrameOf(s.pool.frames, page, 0).None?
    ensures !OwnedSomewhere(s.leases, page)
  {
    forall k | 0 <= k < |s.leases|
      ensures page !in s.leases[k]
    {
      if page in s.leases[k] {
        var f := FrameIndex(s, k, page);
      }
    }
  }

  /** Giving an unowned page to one lease. */
  lemma OwnerAdded(leases: seq<seq<nat>>, k: nat, page: nat)
    requires Exclusive(leases) && k < |leases| && !OwnedSomewhere(leases, page)
    ensures Exclusive(leases[k := leases[k] + [page]])
    ensures forall x :: OwnedSomewhere(leases[k := leases[k] + [page]], x) <==> OwnedSomewhere(leases, x) || x == page
  {
    var after := leases[k := leases[k] + [page]];
    forall x | OwnedSomewhere(leases, x) || x == page
      ensures OwnedSomewhere(after, x)
    {
      if x == page {
        assert page in after[k];
      } else {
        var i :| 0 <= i < |leases| && x in leases[i];
        assert x in after[i];
      }
    }
    forall x | OwnedSomewhere(after, x)
      ensures OwnedSomewhere(leases, x) || x == page
    {
      var i :| 0 <= i < |after| && x in after[i];
      assert x in leases[i] || x == page;
    }
    assert page !in leases[k];
  }

  lemma TakeFree(s: Tables, k: nat, i: nat)
    requires Sound(s) && k < |s.leases| && FirstFree(s.pool.frames, 0) == Some(i)
    ensures Sound(Step(s, Take(k, None)))
    ensures Step(s, Take(k, None)).pool.memory == s.pool.memory
  {
    var phys := s.pool.frames[i].phys;
    var t := Step(s, Take(k, None));
    FreeUnowned(s, i);
    OwnerAdded(s.leases, k, phys);
    forall j, x | 0 <= j < |t.leases| && x in t.leases[j]
      ensures Leased(t.pool.frames, x)
    {
      if x == phys {
        assert t.pool.frames[i] == Slot(phys, true);
      } else {
        var f := FrameIndex(s, j, x);
        assert t.pool.frames[f] == Slot(x, true);
      }
    }
  }

  lemma TakeNew(s: Tables, k: nat, phys: nat)
    requires Sound(s) && k < |s.leases| && FirstFree(s.pool.frames, 0) == None && Fits(s.pool, phys)
    ensures Sound(Step(s, Take(k, Some(phys))))
  {
    var t := Step(s, Take(k, Some(phys)));
    StrangerUnowned(s, phys);
    OwnerAdded(s.leases, k, phys);
    forall j, x | 0 <= j < |t.leases| && x in t.leases[j]
      ensures Leased(t.pool.frames, x)
    {
      if x == phys {
        assert t.pool.frames[|s.pool.frames|] == Slot(phys, true);
      } else {
        var f := FrameIndex(s, j, x);
        assert t.pool.frames[f] == Slot(x, true);
      }
    }
  }

  lemma TakeKeeps(s: Tables, k: nat, candidate: Option<nat>)
    requires Sound(s) && k < |s.leases|
    ensures Sound(Step(s, Take(k, candidate)))
  {
    var t := Step(s, Take(k, candidate));
    match FirstFree(s.pool.frames, 0)
    case Some(i) => TakeFree(s, k, i);
    case None =>
      assert s.leases[k := s.leases[k]] == s.leases;
      if candidate.Some? && Fits(s.pool, candidate.value) {
        TakeNew(s, k, candidate.value);
      }
  }

  lemma CommitKeeps(s: Tables, i: nat)
    requires Sound(s) && i < |s.prepared| && Asserted(s.pool.frames, s.prepared[i].span)
    ensures Sound(Step(s, CommitVmo(i)))
  {
    var t := Step(s, CommitVmo(i));
    if s.prepared[i].span.Some? {
      var span := s.prepared[i].span.value;
      assert t.pool.excluded[|s.pool.excluded|] == span;
      forall f | 0 <= f < |s.pool.frames|
        ensures !Overlap(span, Page(s.pool.frames[f].phys))
      {
      }
    }
  }

  lemma SwapRemovedElements(s: seq<nat>, i: nat)
    requires NoDuplicates(s) && i < |s|
    ensures NoDuplicates(SwapRemoved(s, i))
    ensures forall x :: x in SwapRemoved(s, i) <==> x in s && x != s[i]
  {
    var r, last := SwapRemoved(s, i), |s| - 1;
    assert forall j :: 0 <= j < last ==> r[j] == if j == i then s[last] else s[j];
    forall x | x in s && x != s[i]
      ensures x in r
    {
      var j :| 0 <= j < |s| && s[j] == x;
      assert r[if j == last then i else j] == x;
    }
  }

  lemma OwnerRemoved(leases: seq<seq<nat>>, k: nat, page: nat, rest: seq<nat>)
    requires Exclusive(leases) && k < |leases| && page in leases[k]
    requires NoDuplicates(rest) && forall x :: x in rest <==> x in leases[k] && x != page
    ensures Exclusive(leases[k := rest])
    ensures forall x :: OwnedSomewhere(leases[k := rest], x) <==> OwnedSomewhere(leases, x) && x != page
  {
    var after := leases[k := rest];
    forall x | OwnedSomewhere(leases, x) && x != page
      ensures OwnedSomewhere(after, x)
    {
      var i :| 0 <= i < |leases| && x in leases[i];
      assert x in after[i];
    }
    forall x | OwnedSomewhere(after, x)
      ensures OwnedSomewhere(leases, x) && x != page
    {
      var i :| 0 <= i < |after| && x in after[i];
      assert x in leases[i];
    }
  }

  /** Its owner can always give a page back: the pool has the frame, and it is leased. */
  lemma GivesBack(s: Tables, k: nat, page: nat)
    requires Sound(s) && k < |s.leases| && page in s.leases[k]
    ensures Place(s.leases[k], page, 0).Some?
    ensures FrameOf(s.pool.frames, page, 0).Some? && s.pool.frames[FrameOf(s.pool.frames, page, 0).value] == Slot(page, true)
  {
    var f := FrameIndex(s, k, page);
    var g := FrameOf(s.pool.frames, page, 0).value;
    assert g == f;
  }

  lemma GiveKeeps(s: Tables, k: nat, page: nat)
    requires Sound(s) && k < |s.leases| && page in s.leases[k]
    ensures Sound(Step(s, Give(k, page)))
  {
    GivesBack(s, k, page);
    var t := Step(s, Give(k, page));
    var at, g := Place(s.leases[k], page, 0).value, FrameOf(s.pool.frames, page, 0).value;
    SwapRemovedElements(s.leases[k], at);
    OwnerRemoved(s.leases, k, page, SwapRemoved(s.leases[k], at));
    forall j, x | 0 <= j < |t.leases| && x in t.leases[j]
      ensures Leased(t.pool.frames, x)
    {
      assert OwnedSomewhere(t.leases, x);
      var f := FrameIndex(s, j, x);
      assert t.pool.frames[f] == Slot(x, true);
    }
  }

  lemma StoreKeeps(s: Tables, op: Op)
    requires Sound(s) && op.Store? && op.lease < |s.leases| && op.page in s.leases[op.lease]
    ensures Sound(Step(s, op))
  {
    var f := FrameIndex(s, op.lease, op.page);
  }

  lemma StepKeeps(s: Tables, op: Op)
    requires Sound(s)
    ensures Sound(Step(s, op))
  {
    match op
    case NewLease =>
      var t := Step(s, op);
      forall x | OwnedSomewhere(s.leases, x)
        ensures OwnedSomewhere(t.leases, x)
      {
        var i :| 0 <= i < |s.leases| && x in s.leases[i];
        assert x in t.leases[i];
      }
    case PrepareVmo(v) =>
    case CommitVmo(i) => if i < |s.prepared| && Asserted(s.pool.frames, s.prepared[i].span) { CommitKeeps(s, i); }
    case Take(i, candidate) => if i < |s.leases| { TakeKeeps(s, i, candidate); }
    case Store(i, page, index, word) => if i < |s.leases| && page in s.leases[i] { StoreKeeps(s, op); }
    case Give(i, page) => if i < |s.leases| && page in s.leases[i] { GiveKeeps(s, i, page); }
  }

  /** Over any run the pool stays sound, whatever the page allocator offers. */
  lemma {:induction false} RunKeeps(s: Tables, ops: seq<Op>)
    requires Sound(s)
    ensures Sound(Run(s, ops))
    decreases |ops|
  {
    if ops != [] {
      StepKeeps(s, ops[0]);
      RunKeeps(Step(s, ops[0]), ops[1..]);
    }
  }

  // ---- What follows --------------------------------------------------------------------

  /** In any run, no frame of the pool, leased or free, shares a 2 MiB block with any device or
      DMA memory issued so far, nor a byte with any RAM issued so far. */
  lemma FramesApart(ops: seq<Op>, v: MemoryObject, frame: Slot)
    requires v in Run(boot, ops).issued && frame in Run(boot, ops).pool.frames
    ensures Apart(v, frame.phys)
  {
    var s := Run(boot, ops);
    RunKeeps(boot, ops);
    var i :| 0 <= i < |s.issued| && s.issued[i] == v;
    var f :| 0 <= f < |s.pool.frames| && s.pool.frames[f] == frame;
    if Reach(v).value.Some? {
      var j :| 0 <= j < |s.pool.excluded| && s.pool.excluded[j] == Reach(v).value.value;
      assert !Overlap(s.pool.excluded[j], Page(s.pool.frames[f].phys));
    }
    ReachApart(v, frame.phys);
  }

  /** Every page handed out reads all zero, is new to its lease and belongs to no other. */
  lemma TakesZeroedAlone(s: Tables, k: nat, candidate: Option<nat>)
    requires Sound(s) && k < |s.leases| && Allocate(s.pool, s.leases[k], candidate).2.Some?
    ensures var t := Step(s, Take(k, candidate));
            var page := Allocate(s.pool, s.leases[k], candidate).2.value;
            && !OwnedSomewhere(s.leases, page) && t.leases[k] == s.leases[k] + [page]
            && page in t.pool.memory && t.pool.memory[page] == Zeros()
  {
    match FirstFree(s.pool.frames, 0)
    case Some(i) => FreeUnowned(s, i);
    case None => StrangerUnowned(s, candidate.value);
  }

  /** The page allocator keeps its contract: what it offers is not a frame already in use. */
  ghost predicate Fresh(s: Tables, op: Op) {
    op.Take? && op.candidate.Some? ==> FrameOf(s.pool.frames, op.candidate.value, 0).None?
  }

  /** What a lease stored in a page it owns stays there until that lease itself acts on it. */
  lemma NobodyElseWrites(s: Tables, op: Op, k: nat, page: nat)
    requires Sound(s) && Fresh(s, op) && k < |s.leases| && page in s.leases[k]
    requires op.Store? || op.Give? ==> op.lease != k || op.page != page
    ensures var t := Step(s, op);
            page in t.leases[k] && page in t.pool.memory && page in s.pool.memory && t.pool.memory[page] == s.pool.memory[page]
  {
    var f := FrameIndex(s, k, page);
    if op.Give? && op.lease == k && op.page in s.leases[k] {
      GivesBack(s, k, op.page);
      SwapRemovedElements(s.leases[k], Place(s.leases[k], op.page, 0).value);
    }
  }

  /** The owner leaves the page alone. */
  predicate HandsOff(op: Op, k: nat, page: nat) {
    op.Store? || op.Give? ==> op.lease != k || op.page != page
  }

  ghost predicate LeftAlone(s: Tables, ops: seq<Op>, k: nat, page: nat)
    decreases |ops|
  {
    ops != [] ==> HandsOff(ops[0], k, page) && Fresh(s, ops[0]) && LeftAlone(Step(s, ops[0]), ops[1..], k, page)
  }

  /** So over any run in which its owner leaves a page alone, it keeps what was stored in it. */
  lemma {:induction false} RunLeavesPage(s: Tables, ops: seq<Op>, k: nat, page: nat)
    requires Sound(s) && k < |s.leases| && page in s.leases[k] && LeftAlone(s, ops, k, page)
    ensures var t := Run(s, ops);
            && k < |t.leases| && page in t.leases[k]
            && page in s.pool.memory && page in t.pool.memory && t.pool.memory[page] == s.pool.memory[page]
    decreases |ops|
  {
    if ops == [] {
      var f := FrameIndex(s, k, page);
    } else {
      NobodyElseWrites(s, ops[0], k, page);
      StepKeeps(s, ops[0]);
      RunLeavesPage(Step(s, ops[0]), ops[1..], k, page);
    }
  }

  // ---- Between prepare and commit ------------------------------------------------------

  /** An allocation that finds no free frame and takes on a candidate that meets the span. */
  ghost predicate Hits(s: Tables, op: Op, span: Span) {
    && op.Take? && op.lease < |s.leases| && FirstFree(s.pool.frames, 0).None?
    && op.candidate.Some? && Fits(s.pool, op.candidate.value) && Overlap(span, Page(op.candidate.value))
  }

  ghost predicate NeverHit(s: Tables, ops: seq<Op>, span: Span)
    decreases |ops|
  {
    ops != [] ==> !Hits(s, ops[0], span) && NeverHit(Step(s, ops[0]), ops[1..], span)
  }

  /** Frames stay where they are; one step takes on at most one more. */
  lemma FramesStay(s: Tables, op: Op)
    ensures var fs, gs := s.pool.frames, Step(s, op).pool.frames;
            && |fs| <= |gs| <= |fs| + 1
            && (forall i :: 0 <= i < |fs| ==> gs[i].phys == fs[i].phys)
            && (|gs| > |fs| ==> op.Take? && op.lease < |s.leases| && FirstFree(fs, 0).None? && op.candidate.Some?
                                && Fits(s.pool, op.candidate.value) && gs[|fs|].phys == op.candidate.value)
            && (op.Take? && op.lease < |s.leases| && FirstFree(fs, 0).None? && op.candidate.Some? && Fits(s.pool, op.candidate.value)
                ==> |gs| > |fs|)
  {
  }

  lemma StepClashes(s: Tables, op: Op, span: Span)
    ensures Clashes(Step(s, op).pool.frames, span) <==> Clashes(s.pool.frames, span) || Hits(s, op, span)
  {
    FramesStay(s, op);
    var fs, gs := s.pool.frames, Step(s, op).pool.frames;
    forall i | 0 <= i < |fs| && Overlap(span, Page(fs[i].phys))
      ensures Clashes(gs, span)
    {
      assert Overlap(span, Page(gs[i].phys));
    }
    if Hits(s, op, span) {
      assert Overlap(span, Page(gs[|fs|].phys));
    }
  }

  lemma {:induction false} ClashStays(s: Tables, ops: seq<Op>, span: Span)
    requires Clashes(s.pool.frames, span)
    ensures Clashes(Run(s, ops).pool.frames, span)
    decreases |ops|
  {
    if ops != [] {
      StepClashes(s, ops[0], span);
      ClashStays(Step(s, ops[0]), ops[1..], span);
    }
  }

  /** After a prepare, whatever happens before the commit, the commit's assertion holds exactly
      when no allocation on the way found the pool without a free frame and was offered a fitting
      page that meets the span. */
  lemma {:induction false} CommitAssertionIff(s: Tables, ops: seq<Op>, span: Span)
    requires !Clashes(s.pool.frames, span)
    ensures Asserted(Run(s, ops).pool.frames, Some(span)) <==> NeverHit(s, ops, span)
    decreases |ops|
  {
    if ops != [] {
      StepClashes(s, ops[0], span);
      if Hits(s, ops[0], span) {
        ClashStays(Step(s, ops[0]), ops[1..], span);
      } else {
        CommitAssertionIff(Step(s, ops[0]), ops[1..], span);
      }
    }
  }

  /** In a run from boot: an object prepared with a span can be committed after `ops` exactly
      then, and at once when nothing comes between. */
  lemma PreparedCommits(before: seq<Op>, v: MemoryObject, ops: seq<Op>)
    requires Prepare(Run(boot, before).pool.frames, v).Ok? && Reach(v).value.Some?
    ensures var s := Step(Run(boot, before), PrepareVmo(v));
            && s.prepared[|s.prepared| - 1] == Ticket(v, Reach(v).value)
            && (Asserted(Run(s, ops).pool.frames, Reach(v).value) <==> NeverHit(s, ops, Reach(v).value.value))
            && v in Step(s, CommitVmo(|s.prepared| - 1)).issued
  {
    CommitAssertionIff(Step(Run(boot, before), PrepareVmo(v)), ops, Reach(v).value.value);
  }

  /** With an allocation between them the assertion can fail. */
  lemma CommitAssertionCanFail()
    ensures var v := MemoryObject(Mmio(0x20_0000), PAGE_SIZE);
            var s := Step(Step(boot, NewLease), PrepareVmo(v));
            && s.prepared == [Ticket(v, Some(Span(0x20_0000, BLOCK)))]
            && !Asserted(Step(s, Take(0, Some(0x21_0000))).pool.frames, s.prepared[0].span)
  {
    var v := MemoryObject(Mmio(0x20_0000), PAGE_SIZE);
    var s := Step(Step(boot, NewLease), PrepareVmo(v));
    assert s.pool == newPool && s.leases == [[]] && FirstFree(s.pool.frames, 0) == None;
    assert Prepare([], v) == Ok(Some(Span(0x20_0000, BLOCK)));
    assert Fits(s.pool, 0x21_0000);
    StepClashes(s, Take(0, Some(0x21_0000)), Span(0x20_0000, BLOCK));
  }
}
