/** What each operation on the table pool answers and changes, said of frames, leases and words
    (kernel/src/device_memory.rs, `TablePool`, `TableLease`). */
module TableLaws {
  import opened Objects
  import opened DeviceMemory
  import opened DeviceTables

  // ---- Taking --------------------------------------------------------------------------

  /** Frame `i` is the first that is not leased. */
  ghost predicate FirstUnleased(frames: seq<Slot>, i: nat) {
    i < |frames| && !frames[i].leased && forall j :: 0 <= j < i ==> frames[j].leased
  }

  ghost predicate AllLeased(frames: seq<Slot>) {
    forall i :: 0 <= i < |frames| ==> frames[i].leased
  }

  /** A page the pool may take on: aligned, below 4 GiB, clear of everything excluded and not
      one of its frames. */
  ghost predicate Takable(p: Pool, phys: nat) {
    && phys % 4096 == 0 && phys < 0x1_0000_0000
    && (forall i :: 0 <= i < |p.excluded| ==> !Overlap(p.excluded[i], Span(phys, 4096)))
    && !exists i :: 0 <= i < |p.frames| && p.frames[i].phys == phys
  }

  /** Something is unleased, or nothing is and the candidate may be taken on. */
  ghost predicate Yields(p: Pool, candidate: Option<nat>) {
    !AllLeased(p.frames) || (candidate.Some? && Takable(p, candidate.value))
  }

  lemma FirstFreeIs(frames: seq<Slot>, i: nat)
    requires FirstUnleased(frames, i)
    ensures FirstFree(frames, 0) == Some(i)
  {
    assert FirstFree(frames, 0).Some?;
    FirstFreeIsFirst(frames, 0);
  }

  lemma SomeFree(frames: seq<Slot>) returns (i: nat)
    requires !AllLeased(frames)
    ensures FirstUnleased(frames, i)
  {
    i := FirstFree(frames, 0).value;
    FirstFreeIsFirst(frames, 0);
  }

  lemma {:induction false} FirstFreeIsFirst(frames: seq<Slot>, i: nat)
    requires i <= |frames| && FirstFree(frames, i).Some?
    ensures forall j :: i <= j < FirstFree(frames, i).value ==> frames[j].leased
    decreases |frames| - i
  {
    if frames[i].leased {
      FirstFreeIsFirst(frames, i + 1);
    }
  }

  /** A take of an unleased frame: the first one, whatever the allocator would offer. No word of
      memory changes. */
  lemma TakesFirst(s: Tables, k: nat, candidate: Option<nat>, i: nat)
    requires k < |s.leases| && FirstUnleased(s.pool.frames, i)
    ensures var phys := s.pool.frames[i].phys;
            && Allocate(s.pool, s.leases[k], candidate).2 == Some(phys)
            && Step(s, Take(k, candidate)) ==
               s.(pool := s.pool.(frames := s.pool.frames[i := Slot(phys, true)]), leases := s.leases[k := s.leases[k] + [phys]])
  {
    FirstFreeIs(s.pool.frames, i);
  }

  /** A take with every frame leased: the candidate, which reads zero from then on, becomes a
      leased frame exactly if it may be taken on. */
  lemma TakesCandidate(s: Tables, k: nat, candidate: Option<nat>)
    requires k < |s.leases| && AllLeased(s.pool.frames)
    ensures var page, t := Allocate(s.pool, s.leases[k], candidate).2, Step(s, Take(k, candidate));
            match candidate
            case None => page == None && t == s
            case Some(phys) =>
              var memory := s.pool.memory[phys := Zeros()];
              if Takable(s.pool, phys) then
                && page == Some(phys)
                && t == s.(pool := s.pool.(frames := s.pool.frames + [Slot(phys, true)], memory := memory),
                           leases := s.leases[k := s.leases[k] + [phys]])
              else page == None && t == s.(pool := s.pool.(memory := memory))
  {
    assert s.leases[k := s.leases[k]] == s.leases;
    assert FirstFree(s.pool.frames, 0).None?;
    if candidate.Some? {
      assert Fits(s.pool, candidate.value) <==> Takable(s.pool, candidate.value);
    }
  }

  /** A take yields a page exactly when some frame is unleased or the candidate may be taken on;
      the page goes to the end of what the lease owns. */
  lemma TakeYields(s: Tables, k: nat, candidate: Option<nat>)
    requires k < |s.leases|
    ensures var page, t := Allocate(s.pool, s.leases[k], candidate).2, Step(s, Take(k, candidate));
            && (page.Some? <==> Yields(s.pool, candidate))
            && t.leases == s.leases[k := if page.Some? then s.leases[k] + [page.value] else s.leases[k]]
            && t.issued == s.issued && t.prepared == s.prepared && t.pool.excluded == s.pool.excluded
  {
    if AllLeased(s.pool.frames) {
      TakesCandidate(s, k, candidate);
    } else {
      var i := SomeFree(s.pool.frames);
      TakesFirst(s, k, candidate, i);
    }
  }

  // ---- Giving back ---------------------------------------------------------------------

  /** The page's frame is unleased and all zeros, its lease has lost just that page, and no other
      frame, lease or word has changed. */
  lemma GiveIs(s: Tables, k: nat, page: nat)
    requires Sound(s) && k < |s.leases| && page in s.leases[k]
    ensures var t := Step(s, Give(k, page));
            && |t.pool.frames| == |s.pool.frames| && t.pool.excluded == s.pool.excluded && t.issued == s.issued && t.prepared == s.prepared
            && (forall i :: 0 <= i < |s.pool.frames| ==>
                  t.pool.frames[i] == if s.pool.frames[i].phys == page then Slot(page, false) else s.pool.frames[i])
            && t.pool.memory == s.pool.memory[page := Zeros()]
            && |t.leases| == |s.leases| && (forall j :: 0 <= j < |s.leases| && j != k ==> t.leases[j] == s.leases[j])
            && forall x :: x in t.leases[k] <==> x in s.leases[k] && x != page
  {
    GivesBack(s, k, page);
    SwapRemovedElements(s.leases[k], Place(s.leases[k], page, 0).value);
  }

  /** Nobody else can give it back. */
  lemma GiveByOthers(s: Tables, k: nat, page: nat)
    requires k < |s.leases| && page !in s.leases[k]
    ensures Step(s, Give(k, page)) == s
  {
  }

  /** So a page given back can be had again: the next take, by anyone, is of an unleased frame,
      and of this very page if it is the only one. */
  lemma GivenCanBeTaken(s: Tables, k: nat, page: nat, j: nat, candidate: Option<nat>)
    requires Sound(s) && k < |s.leases| && page in s.leases[k] && j < |s.leases|
    ensures var t := Step(s, Give(k, page));
            var got := Allocate(t.pool, t.leases[j], candidate).2;
            && got.Some? && Step(t, Take(j, candidate)).pool.memory == t.pool.memory
            && (exists i: nat :: FirstUnleased(t.pool.frames, i) && got == Some(t.pool.frames[i].phys))
            && (AllLeased(s.pool.frames) ==> got == Some(page))
  {
    var t := Step(s, Give(k, page));
    GiveIs(s, k, page);
    var f := FrameIndex(s, k, page);
    assert !t.pool.frames[f].leased;
    var i := SomeFree(t.pool.frames);
    TakesFirst(t, j, candidate, i);
    if AllLeased(s.pool.frames) {
      assert s.pool.frames[i].leased;
    }
  }

  // ---- Words ---------------------------------------------------------------------------

  /** A store by the owner changes that word and nothing else; by anyone else it is no step. */
  lemma StoreIs(s: Tables, k: nat, page: nat, index: nat, word: nat)
    requires Sound(s) && k < |s.leases|
    ensures var t := Step(s, Store(k, page, index, word));
            if page in s.leases[k] && index < 1024 then
              && t == s.(pool := s.pool.(memory := t.pool.memory)) && t.pool.memory.Keys == s.pool.memory.Keys
              && page in s.pool.memory && |t.pool.memory[page]| == |s.pool.memory[page]| == 1024
              && (forall x :: x in s.pool.memory && x != page ==> t.pool.memory[x] == s.pool.memory[x])
              && forall i :: 0 <= i < 1024 ==> t.pool.memory[page][i] == if i == index then word else s.pool.memory[page][i]
            else t == s
  {
    if page in s.leases[k] {
      var f := FrameIndex(s, k, page);
    }
  }

  // ---- Memory objects ------------------------------------------------------------------

  /** An object without a fixed place is always accepted. RAM is accepted exactly when it ends
      below 2^64 and meets no frame. */
  lemma PrepareAnswers(frames: seq<Slot>, v: MemoryObject)
    ensures v.backing.Anonymous? || v.backing.DmaPaged? ==> Prepare(frames, v) == Ok(None)
    ensures v.backing.PhysicalRam? ==>
              var span := Span(v.backing.base, v.len);
              && (Prepare(frames, v) == Ok(Some(span)) <==>
                    v.backing.base + v.len <= U64_MAX && forall i :: 0 <= i < |frames| ==> !Overlap(span, Page(frames[i].phys)))
              && (Prepare(frames, v).Err? ==> Prepare(frames, v) == Err(AccessDenied))
              && (Prepare(frames, v).Ok? ==> Prepare(frames, v) == Ok(Some(span)))
  {
  }

  /** Device and DMA memory is accepted exactly when, rounded out to whole 2 MiB blocks, it stays
      below 2^64 and no frame lies in one of its blocks; the span reserved is those blocks. */
  lemma PrepareBlocks(frames: seq<Slot>, v: MemoryObject)
    requires v.backing.Mmio? || v.backing.Dma?
    requires GoodFrames(frames)
    ensures var base, end := v.backing.base, v.backing.base + v.len;
            && (Prepare(frames, v).Ok? <==>
                  end + 0x1F_FFFF <= U64_MAX && forall i :: 0 <= i < |frames| ==> !Overlap(Span(base, v.len), Block(frames[i].phys)))
            && (Prepare(frames, v).Err? ==> Prepare(frames, v) == Err(AccessDenied))
            && (Prepare(frames, v).Ok? ==>
                  && Prepare(frames, v).value.Some?
                  && var span := Prepare(frames, v).value.value;
                     && span.start % 0x20_0000 == 0 && span.len % 0x20_0000 == 0
                     && span.start <= base < span.start + 0x20_0000 && end <= span.start + span.len < end + 0x20_0000)
  {
    if v.backing.base + v.len + (BLOCK - 1) <= U64_MAX {
      BlocksExact(frames, v);
    }
  }

  lemma BlocksExact(frames: seq<Slot>, v: MemoryObject)
    requires (v.backing.Mmio? || v.backing.Dma?) && GoodFrames(frames) && v.backing.base + v.len + (BLOCK - 1) <= U64_MAX
    ensures Prepare(frames, v).Ok? <==> forall i :: 0 <= i < |frames| ==> !Overlap(Span(v.backing.base, v.len), Block(frames[i].phys))
  {
    var d := MemoryObject(Dma(v.backing.base), v.len);
    DmaExclusionsExact(frames, d);
    assert Prepare(frames, v).Ok? <==> Prepare(frames, d).Ok?;
  }

  /** A commit adds the reserved span to what is excluded, the object to what is issued, and
      uses its ticket up. */
  lemma CommitIs(s: Tables, i: nat)
    requires i < |s.prepared| && Asserted(s.pool.frames, s.prepared[i].span)
    ensures var t := Step(s, CommitVmo(i));
            && t.pool.frames == s.pool.frames && t.pool.memory == s.pool.memory && t.leases == s.leases
            && t.issued == s.issued + [s.prepared[i].v]
            && t.pool.excluded == s.pool.excluded + (if s.prepared[i].span.Some? then [s.prepared[i].span.value] else [])
            && multiset(t.prepared) == multiset(s.prepared) - multiset{s.prepared[i]}
  {
    var t := Step(s, CommitVmo(i));
    assert s.prepared == s.prepared[..i] + [s.prepared[i]] + s.prepared[i + 1..];
    assert s.pool.excluded + [] == s.pool.excluded;
  }
}
