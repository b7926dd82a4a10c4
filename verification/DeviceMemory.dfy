/** The pool of private device page tables (kernel/src/device_memory.rs, `TablePool` and
    `TableLease`): which frames it may hold beside the memory objects it has seen issued, and
    who owns them. Physical memory is a map from page address to its 1024 words. */
module DeviceMemory {
  import opened Objects

  const PAGE_SIZE := 4096
  const BLOCK := 0x20_0000
  const FOUR_GIB := 0x1_0000_0000
  const WORDS := 1024

  /** Addresses `start` to `start + len`. */
  datatype Span = Span(start: nat, len: nat)
  datatype Slot = Slot(phys: nat, leased: bool)
  datatype Backing = PhysicalRam(base: nat) | Mmio(base: nat) | Dma(base: nat) | Anonymous | DmaPaged
  datatype MemoryObject = MemoryObject(backing: Backing, len: nat)
  datatype Pool = Pool(frames: seq<Slot>, excluded: seq<Span>, memory: map<nat, seq<nat>>)

  const newPool := Pool([], [Span(FOUR_GIB, U64_MAX - FOUR_GIB)], map[])

  /** Spans that meet; one that runs past the last address meets everything. */
  predicate Overlap(a: Span, b: Span) {
    a.start + a.len > U64_MAX || b.start + b.len > U64_MAX || (a.start < b.start + b.len && b.start < a.start + a.len)
  }

  /** Spans in range, neither of them empty, overlap exactly when they share an address. */
  lemma OverlapMeans(a: Span, b: Span)
    requires a.start + a.len <= U64_MAX && b.start + b.len <= U64_MAX && a.len > 0 && b.len > 0
    ensures Overlap(a, b) <==> exists x :: Inside(a, x) && Inside(b, x)
  {
    if Overlap(a, b) {
      var x := if a.start <= b.start then b.start else a.start;
      assert Inside(a, x) && Inside(b, x);
    }
  }

  predicate Inside(a: Span, x: int) {
    a.start <= x < a.start + a.len
  }

  function Page(phys: nat): Span {
    Span(phys, PAGE_SIZE)
  }

  function RoundDown(x: nat): (r: nat)
    ensures r <= x < r + BLOCK && r % BLOCK == 0
  {
    x - x % BLOCK
  }

  /** The addresses the CPU mapping of a memory object reaches: whole 2 MiB blocks for device
      and DMA memory, its own bytes for RAM, none for memory without a fixed place. */
  function Reach(v: MemoryObject): Result<Option<Span>, ObjectError> {
    match v.backing
    case Anonymous => Ok(None)
    case DmaPaged => Ok(None)
    case PhysicalRam(base) =>
      if base + v.len > U64_MAX then Err(AccessDenied) else Ok(Some(Span(base, v.len)))
    case _ =>
      var end := v.backing.base + v.len;
      if end > U64_MAX || end + (BLOCK - 1) > U64_MAX then Err(AccessDenied)
      else
        var start := RoundDown(v.backing.base);
        Ok(Some(Span(start, RoundDown(end + (BLOCK - 1)) - start)))
  }

  predicate Clashes(frames: seq<Slot>, span: Span) {
    exists i :: 0 <= i < |frames| && Overlap(span, Page(frames[i].phys))
  }

  /** `prepare_vmo`. */
  function Prepare(frames: seq<Slot>, v: MemoryObject): Result<Option<Span>, ObjectError> {
    match Reach(v)
    case Err(e) => Err(e)
    case Ok(None) => Ok(None)
    case Ok(Some(span)) => if Clashes(frames, span) then Err(AccessDenied) else Ok(Some(span))
  }

  /** `commit_vmo` of a span that passes its assertion. */
  function Commit(p: Pool, span: Option<Span>): Pool {
    match span
    case None => p
    case Some(r) => p.(excluded := p.excluded + [r])
  }

  function FirstFree(frames: seq<Slot>, i: nat): (r: Option<nat>)
    requires i <= |frames|
    ensures r.Some? ==> i <= r.value < |frames| && !frames[r.value].leased
    ensures r.None? ==> forall j :: i <= j < |frames| ==> frames[j].leased
    decreases |frames| - i
  {
    if i == |frames| then None else if !frames[i].leased then Some(i) else FirstFree(frames, i + 1)
  }

  function Zeros(): (r: seq<nat>)
    ensures |r| == WORDS && forall i :: 0 <= i < WORDS ==> r[i] == 0
  {
    seq(WORDS, i => 0)
  }

  /** A candidate page the pool may take. */
  predicate Fits(p: Pool, phys: nat) {
    && phys % PAGE_SIZE == 0 && phys < FOUR_GIB
    && (forall i :: 0 <= i < |p.excluded| ==> !Overlap(p.excluded[i], Page(phys)))
    && (forall i :: 0 <= i < |p.frames| ==> p.frames[i].phys != phys)
  }

  /** `TableLease::allocate`, where `candidate` is what the page allocator offers, zeroed, if
      it is asked. */
  function Allocate(p: Pool, owned: seq<nat>, candidate: Option<nat>): (Pool, seq<nat>, Option<nat>) {
    match FirstFree(p.frames, 0)
    case Some(i) =>
      var phys := p.frames[i].phys;
      (p.(frames := p.frames[i := Slot(phys, true)]), owned + [phys], Some(phys))
    case None =>
      match candidate
      case None => (p, owned, None)
      case Some(phys) =>
        var zeroed := p.(memory := p.memory[phys := Zeros()]);
        if !Fits(p, phys) then (zeroed, owned, None)
        else (zeroed.(frames := p.frames + [Slot(phys, true)]), owned + [phys], Some(phys))
  }

  function Written(p: Pool, page: nat, index: nat, word: nat): Pool
    requires page in p.memory && index < |p.memory[page]|
  {
    var words: seq<nat> := p.memory[page];
    p.(memory := p.memory[page := words[index := word]])
  }

  function FrameOf(frames: seq<Slot>, page: nat, i: nat): (r: Option<nat>)
    requires i <= |frames|
    ensures r.Some? ==> i <= r.value < |frames| && frames[r.value].phys == page
    ensures r.None? ==> forall j :: i <= j < |frames| ==> frames[j].phys != page
    decreases |frames| - i
  {
    if i == |frames| then None else if frames[i].phys == page then Some(i) else FrameOf(frames, page, i + 1)
  }

  /** `Vec::swap_remove`. */
  function SwapRemoved(s: seq<nat>, i: nat): (r: seq<nat>)
    requires i < |s|
    ensures |r| == |s| - 1
  {
    s[i := s[|s| - 1]][..|s| - 1]
  }

  function Place(owned: seq<nat>, page: nat, i: nat): (r: Option<nat>)
    requires i <= |owned|
    ensures r.Some? ==> i <= r.value < |owned| && owned[r.value] == page
    ensures r.None? ==> forall j :: i <= j < |owned| ==> owned[j] != page
    decreases |owned| - i
  {
    if i == |owned| then None else if owned[i] == page then Some(i) else Place(owned, page, i + 1)
  }

  /** `TableLease::release` of a page the lease owns. */
  function Returned(p: Pool, owned: seq<nat>, page: nat): (Pool, seq<nat>)
    requires Place(owned, page, 0).Some? && FrameOf(p.frames, page, 0).Some?
  {
    var i := FrameOf(p.frames, page, 0).value;
    (p.(frames := p.frames[i := Slot(page, false)], memory := p.memory[page := Zeros()]),
     SwapRemoved(owned, Place(owned, page, 0).value))
  }

  // ---- Frames beside memory objects ----------------------------------------------------

  /** The 2 MiB block that `dma_exclusions` reports for a frame. */
  function Block(phys: nat): Span {
    Span(RoundDown(phys), BLOCK)
  }

  /** A DMA object can be issued exactly when it avoids the blocks reported for the frames, so
      an allocator that honours `dma_exclusions` is never refused, and every block it skips
      was one it had to skip. */
  lemma DmaExclusionsExact(frames: seq<Slot>, v: MemoryObject)
    requires v.backing.Dma? && v.backing.base + v.len + (BLOCK - 1) <= U64_MAX
    requires forall i :: 0 <= i < |frames| ==> frames[i].phys % PAGE_SIZE == 0 && frames[i].phys < FOUR_GIB
    ensures Prepare(frames, v).Ok? <==>
            forall i :: 0 <= i < |frames| ==> !Overlap(Span(v.backing.base, v.len), Block(frames[i].phys))
  {
    forall i | 0 <= i < |frames|
      ensures Overlap(Reach(v).value.value, Page(frames[i].phys)) <==> Overlap(Span(v.backing.base, v.len), Block(frames[i].phys))
    {
      RoundingReaches(v.backing.base, v.backing.base + v.len, frames[i].phys);
    }
  }

  /** Rounding out to whole blocks reaches a page exactly when the block of the page is met. */
  lemma RoundingReaches(base: nat, end: nat, phys: nat)
    requires base <= end && phys % PAGE_SIZE == 0
    ensures RoundDown(base) < phys + PAGE_SIZE && phys < RoundDown(end + (BLOCK - 1)) <==>
            base < RoundDown(phys) + BLOCK && RoundDown(phys) < end
  {
    PageInBlock(phys);
    Multiples(RoundDown(base), RoundDown(phys));
    Multiples(RoundDown(phys), RoundDown(end + (BLOCK - 1)));
  }

  lemma PageInBlock(phys: nat)
    requires phys % PAGE_SIZE == 0
    ensures phys + PAGE_SIZE <= RoundDown(phys) + BLOCK
  {
    var b, k := phys / BLOCK, phys / PAGE_SIZE;
    assert RoundDown(phys) == 512 * PAGE_SIZE * b && phys == PAGE_SIZE * k;
    assert k < 512 * b + 512;
  }

  lemma Multiples(x: nat, y: nat)
    requires x % BLOCK == 0 && y % BLOCK == 0
    ensures x < y ==> x + BLOCK <= y
    ensures y < x ==> y + BLOCK <= x
  {
  }

  /** No byte of the page shares a block (for device and DMA memory) or a byte (for RAM) with
      the memory object. */
  ghost predicate Apart(v: MemoryObject, phys: nat) {
    forall x, y {:trigger x / BLOCK, y / BLOCK} ::
      !v.backing.Anonymous? && !v.backing.DmaPaged? && v.backing.base <= x < v.backing.base + v.len && phys <= y < phys + PAGE_SIZE ==>
        if v.backing.PhysicalRam? then x != y else x / BLOCK != y / BLOCK
  }

  lemma ReachApart(v: MemoryObject, phys: nat)
    requires Reach(v).Ok? && (Reach(v).value.Some? ==> !Overlap(Reach(v).value.value, Page(phys)))
    ensures Apart(v, phys)
  {
    if v.backing.Mmio? || v.backing.Dma? {
      forall x, y | v.backing.base <= x < v.backing.base + v.len && phys <= y < phys + PAGE_SIZE
        ensures x / BLOCK != y / BLOCK
      {
        BlocksInReach(v.backing.base, v.backing.base + v.len, x);
        var span := Reach(v).value.value;
        assert y < span.start || y >= span.start + span.len;
      }
    }
  }

  /** Rounding out covers the whole block of every byte. */
  lemma BlocksInReach(base: nat, end: nat, x: nat)
    requires base <= x < end
    ensures RoundDown(base) <= x / BLOCK * BLOCK && (x / BLOCK + 1) * BLOCK <= RoundDown(end + (BLOCK - 1))
  {
    var b := x / BLOCK * BLOCK;
    assert b % BLOCK == 0 && b <= x < b + BLOCK;
    Multiples(RoundDown(base), b);
    Multiples(b, RoundDown(end + (BLOCK - 1)));
  }
}
