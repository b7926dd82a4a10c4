/** The layout of a flattened devicetree blob (sections 5.2, 5.4 and 5.5 of the Devicetree
    Specification, release v0.4), and what the parser of imager/src/lib.rs reads from it: the
    properties of the root node, one after the other. */
module DeviceTreeBlob {
  import opened Bytes
  import opened Objects
  import opened DeviceTree

  type Word32 = v: nat | v < 0x1_0000_0000

  /** What a root node may hold before its children: `name` is the offset of the property's
      name in the strings block. */
  datatype Entry = Nop | Property(name: Word32, data: seq<Byte>)

  datatype Blob = Blob(version: Word32, bootCpuid: Word32, entries: seq<Entry>, strings: seq<Byte>)

  // ---- Layout --------------------------------------------------------------------------

  /** `n` rounded up to a multiple of four. */
  function Padded(n: nat): (r: nat)
    ensures n <= r < n + 4 && r % 4 == 0
  {
    (n + 3) / 4 * 4
  }

  function Size(e: Entry): (r: nat)
    ensures r % 4 == 0 && r >= 4
  {
    match e
    case Nop => 4
    case Property(_, data) => 12 + Padded(|data|)
  }

  predicate EntryAt(bytes: seq<Byte>, at: nat, e: Entry) {
    match e
    case Nop => ReadWord(bytes, at) == Ok(FDT_NOP)
    case Property(name, data) =>
      && ReadWord(bytes, at) == Ok(FDT_PROP) && ReadWord(bytes, at + 4) == Ok(|data|) && ReadWord(bytes, at + 8) == Ok(name)
      && at + 12 + |data| <= |bytes| && bytes[at + 12..at + 12 + |data|] == data
  }

  /** The entries lie one after the other from `at` to `stop`. */
  predicate EntriesAt(bytes: seq<Byte>, at: nat, es: seq<Entry>, stop: nat)
    decreases |es|
  {
    if es == [] then at == stop else EntryAt(bytes, at, es[0]) && EntriesAt(bytes, at + Size(es[0]), es[1..], stop)
  }

  /** A child, the end of the node, the end of the tree, or the end of the block. */
  predicate StopAt(bytes: seq<Byte>, at: nat, end: nat) {
    at == end || ReadWord(bytes, at) == Ok(FDT_BEGIN_NODE) || ReadWord(bytes, at) == Ok(FDT_END_NODE) || ReadWord(bytes, at) == Ok(FDT_END)
  }

  /** The entries of the root node at `at` end at `stop`. */
  predicate BodyAt(bytes: seq<Byte>, at: nat, end: nat, es: seq<Entry>, stop: nat) {
    at + 8 <= stop <= end && EntriesAt(bytes, at + 8, es, stop) && StopAt(bytes, stop, end)
  }

  /** A structure block that begins with an unnamed root node of these entries. */
  ghost predicate StructureAt(bytes: seq<Byte>, at: nat, end: nat, es: seq<Entry>) {
    && at % 4 == 0 && at + 8 <= end <= |bytes| && ReadWord(bytes, at) == Ok(FDT_BEGIN_NODE) && bytes[at + 4] == 0
    && exists stop :: BodyAt(bytes, at, end, es, stop)
  }

  /** The header is in order, and the strings block is where it says. */
  predicate Framed(bytes: seq<Byte>, b: Blob) {
    && HEADER_LEN <= |bytes| <= USIZE_MAX - 8 && Header(bytes, 0) == FDT_MAGIC && Header(bytes, 4) <= |bytes|
    && Header(bytes, 20) == b.version && Header(bytes, 28) == b.bootCpuid
    && Header(bytes, 8) + Header(bytes, 36) <= Header(bytes, 4)
    && Header(bytes, 12) + Header(bytes, 32) <= Header(bytes, 4)
    && bytes[Header(bytes, 12)..Header(bytes, 12) + Header(bytes, 32)] == b.strings
  }

  /** `bytes` is the blob, with its two blocks anywhere the header says. */
  ghost predicate Represents(bytes: seq<Byte>, b: Blob) {
    Framed(bytes, b) && StructureAt(bytes, Header(bytes, 8), Header(bytes, 8) + Header(bytes, 36), b.entries)
  }

  // ---- Meaning -------------------------------------------------------------------------

  function Understood(strings: seq<Byte>, e: Entry, f: Found): Result<Found, DtbError> {
    match e
    case Nop => Ok(f)
    case Property(name, data) =>
      match ReadString(strings, name)
      case Err(error) => Err(error)
      case Ok(called) => Noticed(called, data, f)
  }

  /** What the entries say, in order. */
  function Meaning(strings: seq<Byte>, es: seq<Entry>, f: Found): Result<Found, DtbError> {
    if es == [] then Ok(f)
    else
      match Understood(strings, es[0], f)
      case Err(e) => Err(e)
      case Ok(g) => Meaning(strings, es[1..], g)
  }

  lemma PaddingAligns(at: nat, n: nat)
    requires at % 4 == 0 && at + n + 3 <= USIZE_MAX
    ensures Align4(at + n) == Ok(at + Padded(n))
  {
  }

  lemma PropertyScans(bytes: seq<Byte>, strings: seq<Byte>, at: nat, end: nat, e: Entry, f: Found)
    requires e.Property? && EntryAt(bytes, at, e)
    requires at % 4 == 0 && at + 12 + |e.data| <= end <= |bytes| <= USIZE_MAX - 8
    ensures ScanProperty(bytes, strings, at + 4, end, f) ==
            match Understood(strings, e, f)
            case Err(error) => Err(error)
            case Ok(g) => Ok((g, at + Size(e)))
  {
    PaddingAligns(at + 12, |e.data|);
    assert CheckedEnd(at + 12, |e.data|, end) == Ok(at + 12 + |e.data|);
  }

  lemma EntryScans(bytes: seq<Byte>, strings: seq<Byte>, at: nat, end: nat, e: Entry, f: Found)
    requires EntryAt(bytes, at, e) && at % 4 == 0 && at + Size(e) <= end <= |bytes| <= USIZE_MAX - 8
    ensures Scan(bytes, strings, at, end, f) ==
            match Understood(strings, e, f)
            case Err(error) => Err(error)
            case Ok(g) => Scan(bytes, strings, at + Size(e), end, g)
  {
    if e.Property? {
      PropertyScans(bytes, strings, at, end, e, f);
    }
  }

  lemma {:induction false} EntriesEnd(bytes: seq<Byte>, at: nat, es: seq<Entry>, stop: nat)
    requires EntriesAt(bytes, at, es, stop)
    ensures at <= stop
    decreases |es|
  {
    if es != [] {
      EntriesEnd(bytes, at + Size(es[0]), es[1..], stop);
    }
  }

  /** The scan understands the entries one after the other and stops after the last. */
  lemma {:induction false} EntriesScan(bytes: seq<Byte>, strings: seq<Byte>, at: nat, end: nat, es: seq<Entry>, stop: nat, f: Found)
    requires at % 4 == 0 && stop <= end <= |bytes| <= USIZE_MAX - 8
    requires EntriesAt(bytes, at, es, stop) && StopAt(bytes, stop, end)
    ensures Scan(bytes, strings, at, end, f) == Meaning(strings, es, f)
    decreases |es|
  {
    if es == [] {
      StopScans(bytes, strings, at, end, f);
    } else {
      var next := at + Size(es[0]);
      EntriesEnd(bytes, next, es[1..], stop);
      var u := Understood(strings, es[0], f);
      if u.Ok? {
        EntriesScan(bytes, strings, next, end, es[1..], stop, u.value);
      }
      OneMoreScans(bytes, strings, at, end, es, f);
    }
  }

  lemma StopScans(bytes: seq<Byte>, strings: seq<Byte>, at: nat, end: nat, f: Found)
    requires at <= end <= |bytes| && StopAt(bytes, at, end)
    ensures Scan(bytes, strings, at, end, f) == Ok(f)
  {
  }

  lemma OneMoreScans(bytes: seq<Byte>, strings: seq<Byte>, at: nat, end: nat, es: seq<Entry>, f: Found)
    requires es != [] && EntryAt(bytes, at, es[0]) && at % 4 == 0 && at + Size(es[0]) <= end <= |bytes| <= USIZE_MAX - 8
    requires var u := Understood(strings, es[0], f);
             u.Ok? ==> Scan(bytes, strings, at + Size(es[0]), end, u.value) == Meaning(strings, es[1..], u.value)
    ensures Scan(bytes, strings, at, end, f) == Meaning(strings, es, f)
  {
    EntryScans(bytes, strings, at, end, es[0], f);
  }

  lemma EntersRoot(bytes: seq<Byte>, at: nat, end: nat)
    requires at % 4 == 0 && at + 8 <= end <= |bytes| <= USIZE_MAX - 8
    requires ReadWord(bytes, at) == Ok(FDT_BEGIN_NODE) && bytes[at + 4] == 0
    ensures EnterRoot(bytes, at, end) == Ok(at + 8)
  {
    var name := bytes[at + 4..end];
    assert name[0] == 0;
    assert FindNul(name, 0) == Some(0);
    PaddingAligns(at + 4, 1);
  }

  /** When the header is in order only the structure block matters. */
  lemma HeaderPasses(bytes: seq<Byte>, at: nat, size: nat, strings: nat, len: nat)
    requires HEADER_LEN <= |bytes| <= USIZE_MAX && Header(bytes, 0) == FDT_MAGIC && Header(bytes, 4) <= |bytes|
    requires Header(bytes, 8) == at && Header(bytes, 36) == size && at + size <= Header(bytes, 4)
    requires Header(bytes, 12) == strings && Header(bytes, 32) == len && strings + len <= Header(bytes, 4)
    ensures Parsed(bytes) == Summarised(bytes, at, at + size, bytes[strings..strings + len])
  {
  }

  /** The summary of a blob that says `f`. */
  function Said(total: nat, b: Blob, f: Result<Found, DtbError>): Result<Summary, DtbError> {
    match f
    case Err(e) => Err(e)
    case Ok(f) => Ok(Summary(total, b.version, b.bootCpuid, f.model, f.compatibles))
  }

  lemma RootSays(bytes: seq<Byte>, at: nat, end: nat, b: Blob)
    requires HEADER_LEN <= |bytes| <= USIZE_MAX - 8 && StructureAt(bytes, at, end, b.entries)
    requires Header(bytes, 20) == b.version && Header(bytes, 28) == b.bootCpuid
    ensures Summarised(bytes, at, end, b.strings) == Said(Header(bytes, 4), b, Meaning(b.strings, b.entries, Found(None, [])))
  {
    var stop :| BodyAt(bytes, at, end, b.entries, stop);
    EntersRoot(bytes, at, end);
    EntriesScan(bytes, b.strings, at + 8, end, b.entries, stop, Found(None, []));
  }

  /** Parsing a blob is understanding its root properties in order. */
  lemma ParsesMeaning(bytes: seq<Byte>, b: Blob)
    requires Represents(bytes, b)
    ensures Parsed(bytes) == Said(Header(bytes, 4), b, Meaning(b.strings, b.entries, Found(None, [])))
  {
    RootSays(bytes, Header(bytes, 8), Header(bytes, 8) + Header(bytes, 36), b);
    ParsedIs(bytes, b);
  }

  lemma ParsedIs(bytes: seq<Byte>, b: Blob)
    requires Framed(bytes, b)
    ensures Parsed(bytes) == Summarised(bytes, Header(bytes, 8), Header(bytes, 8) + Header(bytes, 36), b.strings)
  {
    HeaderPasses(bytes, Header(bytes, 8), Header(bytes, 36), Header(bytes, 12), Header(bytes, 32));
  }
}
