/** The table pool and its leases as the objects they are (kernel/src/device_memory.rs,
    `TablePool`, `TableLease`). A lease shares its pool with others. */
module TablePools {
  import opened Objects
  import opened DeviceMemory

  class TablePool {
    var frames: seq<Slot>
    var excluded: seq<Span>
    var memory: map<nat, seq<nat>>

    ghost function View(): Pool
      reads this
    {
      Pool(frames, excluded, memory)
    }

    constructor ()
      ensures View() == newPool
    {
      frames := [];
      excluded := [Span(FOUR_GIB, U64_MAX - FOUR_GIB)];
      memory := map[];
    }

    /** Whether some frame meets the span. */
    method AnyFrameMeets(span: Span) returns (r: bool)
      ensures r <==> Clashes(frames, span)
    {
      for i := 0 to |frames|
        invariant forall j :: 0 <= j < i ==> !Overlap(span, Page(frames[j].phys))
      {
        if Overlap(span, Page(frames[i].phys)) {
          return true;
        }
      }
      return false;
    }

    method PrepareVmo(v: MemoryObject) returns (r: Result<Option<Span>, ObjectError>)
      ensures r == Prepare(frames, v)
    {
      var reach := Reach(v);
      if reach.Err? || reach.value.None? {
        return reach;
      }
      var met := AnyFrameMeets(reach.value.value);
      return if met then Err(AccessDenied) else reach;
    }

    /** The source asserts what is required here. */
    method CommitVmo(span: Option<Span>)
      requires span.Some? ==> !Clashes(frames, span.value)
      modifies this`excluded
      ensures View() == Commit(old(View()), span)
    {
      if span.Some? {
        excluded := excluded + [span.value];
      }
    }

    /** Each block with a frame in it, once. */
    method DmaExclusions() returns (blocks: seq<Span>)
      ensures forall b :: b in blocks <==> exists i :: 0 <= i < |frames| && b == Block(frames[i].phys)
      ensures forall i, j :: 0 <= i < j < |blocks| ==> blocks[i] != blocks[j]
    {
      blocks := [];
      for i := 0 to |frames|
        invariant forall b :: b in blocks <==> exists j :: 0 <= j < i && b == Block(frames[j].phys)
        invariant forall j, k :: 0 <= j < k < |blocks| ==> blocks[j] != blocks[k]
      {
        var block := Block(frames[i].phys);
        if block !in blocks {
          blocks := blocks + [block];
        }
      }
    }

    method FindFree() returns (r: Option<nat>)
      ensures r == FirstFree(frames, 0)
    {
      var i := 0;
      while i < |frames|
        invariant 0 <= i <= |frames| && FirstFree(frames, 0) == FirstFree(frames, i)
      {
        if !frames[i].leased {
          return Some(i);
        }
        i := i + 1;
      }
      return None;
    }

    method FindFrame(page: nat) returns (r: Option<nat>)
      ensures r == FrameOf(frames, page, 0)
    {
      var i := 0;
      while i < |frames|
        invariant 0 <= i <= |frames| && FrameOf(frames, page, 0) == FrameOf(frames, page, i)
      {
        if frames[i].phys == page {
          return Some(i);
        }
        i := i + 1;
      }
      return None;
    }

    /** The checks on a page the allocator offers. */
    method Accepts(phys: nat) returns (r: bool)
      ensures r <==> Fits(View(), phys)
    {
      if phys % PAGE_SIZE != 0 || phys >= FOUR_GIB {
        return false;
      }
      for i := 0 to |excluded|
        invariant forall j :: 0 <= j < i ==> !Overlap(excluded[j], Page(phys))
      {
        if Overlap(excluded[i], Page(phys)) {
          return false;
        }
      }
      var known := FindFrame(phys);
      return known.None?;
    }
  }

  class TableLease {
    const pool: TablePool
    var owned: seq<nat>

    constructor (shared: TablePool)
      ensures pool == shared && owned == []
    {
      pool := shared;
      owned := [];
    }

    /** `candidate` is the page the page allocator offers, already zeroed. */
    method AllocatePage(candidate: Option<nat>) returns (page: Option<nat>)
      modifies this`owned, pool
      ensures (pool.View(), owned, page) == Allocate(old(pool.View()), old(owned), candidate)
    {
      var free := pool.FindFree();
      if free.Some? {
        var phys := pool.frames[free.value].phys;
        pool.frames := pool.frames[free.value := Slot(phys, true)];
        owned := owned + [phys];
        return Some(phys);
      }
      if candidate.None? {
        return None;
      }
      var phys := candidate.value;
      var accepted := pool.Accepts(phys);
      pool.memory := pool.memory[phys := Zeros()];
      if !accepted {
        return None;
      }
      pool.frames := pool.frames + [Slot(phys, true)];
      owned := owned + [phys];
      return Some(phys);
    }

    method Read(page: nat, index: nat) returns (word: nat)
      requires page in owned && index < WORDS && page in pool.memory && |pool.memory[page]| == WORDS
      ensures word == pool.memory[page][index]
    {
      word := pool.memory[page][index];
    }

    method Write(page: nat, index: nat, word: nat)
      requires page in owned && index < WORDS && page in pool.memory && |pool.memory[page]| == WORDS
      modifies pool`memory
      ensures pool.View() == Written(old(pool.View()), page, index, word)
    {
      var words: seq<nat> := pool.memory[page];
      pool.memory := pool.memory[page := words[index := word]];
    }

    /** A page the lease owns goes back, scrubbed first. */
    method ReleasePage(page: nat)
      requires page in owned && page in pool.memory && |pool.memory[page]| == WORDS
      requires FrameOf(pool.frames, page, 0).Some? && pool.frames[FrameOf(pool.frames, page, 0).value].leased
      modifies this`owned, pool
      ensures Place(old(owned), page, 0).Some?
      ensures (pool.View(), owned) == Returned(old(pool.View()), old(owned), page)
    {
      var i := 0;
      while owned[i] != page
        invariant 0 <= i < |owned| && Place(owned, page, 0) == Place(owned, page, i)
        invariant Place(owned, page, i).Some?
        decreases |owned| - i
      {
        i := i + 1;
      }
      for index := 0 to WORDS
        invariant pool.frames == old(pool.frames) && pool.excluded == old(pool.excluded) && owned == old(owned)
        invariant page in pool.memory && |pool.memory[page]| == WORDS
        invariant pool.memory == old(pool.memory)[page := pool.memory[page]]
        invariant forall k :: 0 <= k < index ==> pool.memory[page][k] == 0
      {
        Write(page, index, 0);
      }
      assert pool.memory[page] == Zeros();
      var found := pool.FindFrame(page);
      pool.frames := pool.frames[found.value := Slot(page, false)];
      owned := owned[i := owned[|owned| - 1]][..|owned| - 1];
    }
  }
}
