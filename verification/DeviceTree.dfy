/** The summary of a flattened devicetree blob (imager/src/lib.rs, `DtbSummary::parse` and its
    helpers), on values and as the cursor loop it is. `usize` has 64 bits; a `String` is a
    sequence of bytes that is valid UTF-8. */
module DeviceTree {
  import opened Bytes
  import opened Objects

  const USIZE_MAX := U64_MAX
  const HEADER_LEN := 40
  const FDT_MAGIC := 0xd00d_feed
  const FDT_BEGIN_NODE := 1
  const FDT_END_NODE := 2
  const FDT_PROP := 3
  const FDT_NOP := 4
  const FDT_END := 9

  type Text = seq<Byte>

  datatype DtbError =
    | TooSmall(actual: nat)
    | BadMagic(magic: nat)
    | Truncated(needed: nat, actual: nat)
    | InvalidOffset
    | MissingRootNode
    | InvalidStructureToken(token: nat)
    | InvalidString

  datatype Summary = Summary(totalSize: nat, version: nat, bootCpuid: nat, model: Option<Text>, compatibles: seq<Text>)

  /** The bytes of `name` are those of `word`. */
  predicate Spells(name: Text, word: string) {
    if word == "" then name == []
    else name != [] && name[0] == word[0] as int && Spells(name[1..], word[1..])
  }

  // ---- UTF-8 (section 4 of RFC 3629) ---------------------------------------------------

  predicate Tail(b: Byte) {
    0x80 <= b <= 0xBF
  }

  /** How many bytes the character at the front of `s` takes, 0 if it is malformed. */
  function CharLength(s: seq<Byte>): (r: nat)
    requires s != []
    ensures r <= |s|
  {
    var b := s[0];
    if b <= 0x7F then 1
    else if 0xC2 <= b <= 0xDF && |s| >= 2 && Tail(s[1]) then 2
    else if |s| >= 3 && Tail(s[2])
            && ((b == 0xE0 && 0xA0 <= s[1] <= 0xBF) || (0xE1 <= b <= 0xEC && Tail(s[1]))
                || (b == 0xED && 0x80 <= s[1] <= 0x9F) || (0xEE <= b <= 0xEF && Tail(s[1]))) then 3
    else if |s| >= 4 && Tail(s[2]) && Tail(s[3])
            && ((b == 0xF0 && 0x90 <= s[1] <= 0xBF) || (0xF1 <= b <= 0xF3 && Tail(s[1]))
                || (b == 0xF4 && 0x80 <= s[1] <= 0x8F)) then 4
    else 0
  }

  predicate ValidUtf8(s: seq<Byte>)
    decreases |s|
  {
    s == [] || (CharLength(s) != 0 && ValidUtf8(s[CharLength(s)..]))
  }

  // ---- Helpers -------------------------------------------------------------------------

  /** The number big-endian bytes stand for. */
  function Value(s: seq<Byte>): nat {
    if s == [] then 0 else 0x100 * Value(s[..|s| - 1]) + s[|s| - 1]
  }

  /** `read_be_u32`. */
  function ReadWord(bytes: seq<Byte>, offset: nat): Result<nat, DtbError> {
    var end := offset + 4;
    if end > USIZE_MAX then Err(InvalidOffset)
    else if end > |bytes| then Err(Truncated(end, |bytes|))
    else Ok(Value(bytes[offset..end]))
  }

  function CheckedEnd(start: nat, len: nat, limit: nat): (r: Result<nat, DtbError>)
    ensures r.Ok? ==> r.value == start + len <= limit
  {
    var end := start + len;
    if end > USIZE_MAX then Err(InvalidOffset) else if end > limit then Err(Truncated(end, limit)) else Ok(end)
  }

  function Align4(v: nat): (r: Result<nat, DtbError>)
    ensures r.Ok? ==> v <= r.value < v + 4 && r.value % 4 == 0
  {
    if v + 3 > USIZE_MAX then Err(InvalidOffset) else Ok((v + 3) / 4 * 4)
  }

  /** The first zero byte from `i` on. */
  function FindNul(s: seq<Byte>, i: nat): (r: Option<nat>)
    requires i <= |s|
    ensures r.Some? ==> i <= r.value < |s| && s[r.value] == 0 && forall j :: i <= j < r.value ==> s[j] != 0
    ensures r.None? ==> forall j :: i <= j < |s| ==> s[j] != 0
    decreases |s| - i
  {
    if i == |s| then None else if s[i] == 0 then Some(i) else FindNul(s, i + 1)
  }

  function NulTerminatedLen(bytes: seq<Byte>, start: nat, limit: nat): (r: Result<nat, DtbError>)
    ensures r.Ok? ==> start + r.value < limit <= |bytes|
  {
    if start >= limit || limit > |bytes| then Err(InvalidOffset)
    else
      match FindNul(bytes[start..limit], 0)
      case None => Err(InvalidOffset)
      case Some(n) => Ok(n)
  }

  function Decoded(s: seq<Byte>): Result<Text, DtbError> {
    if ValidUtf8(s) then Ok(s) else Err(InvalidString)
  }

  function ReadString(strings: seq<Byte>, offset: nat): Result<Text, DtbError> {
    if offset >= |strings| then Err(InvalidOffset)
    else
      match FindNul(strings[offset..], 0)
      case None => Err(InvalidOffset)
      case Some(n) => Decoded(strings[offset..offset + n])
  }

  function ReadCstr(data: seq<Byte>): Result<Text, DtbError> {
    match FindNul(data, 0)
    case None => Decoded(data)
    case Some(n) => Decoded(data[..n])
  }

  /** The pieces between zero bytes, empty ones left out. */
  function ReadList(data: seq<Byte>): Result<seq<Text>, DtbError>
    decreases |data|
  {
    match FindNul(data, 0)
    case None => if data == [] then Ok([]) else if ValidUtf8(data) then Ok([data]) else Err(InvalidString)
    case Some(n) =>
      if n == 0 then ReadList(data[1..])
      else if !ValidUtf8(data[..n]) then Err(InvalidString)
      else
        match ReadList(data[n + 1..])
        case Err(e) => Err(e)
        case Ok(rest) => Ok([data[..n]] + rest)
  }

  // ---- The root node -------------------------------------------------------------------

  /** What the scan has found so far. */
  datatype Found = Found(model: Option<Text>, compatibles: seq<Text>)

  /** One property: what it adds, and where the next token is. */
  function ScanProperty(bytes: seq<Byte>, strings: seq<Byte>, at: nat, end: nat, f: Found): (r: Result<(Found, nat), DtbError>)
    requires end <= |bytes|
    ensures r.Ok? ==> r.value.1 > at
  {
    match ReadWord(bytes, at)
    case Err(e) => Err(e)
    case Ok(len) =>
      match ReadWord(bytes, at + 4)
      case Err(e) => Err(e)
      case Ok(nameOffset) =>
        match CheckedEnd(at + 8, len, end)
        case Err(e) => Err(e)
        case Ok(dataEnd) =>
          match ReadString(strings, nameOffset)
          case Err(e) => Err(e)
          case Ok(name) =>
            match Noticed(name, bytes[at + 8..dataEnd], f)
            case Err(e) => Err(e)
            case Ok(g) =>
              match Align4(dataEnd)
              case Err(e) => Err(e)
              case Ok(next) => Ok((g, next))
  }

  function Noticed(name: Text, data: seq<Byte>, f: Found): Result<Found, DtbError> {
    if Spells(name, "model") then
      match ReadCstr(data)
      case Err(e) => Err(e)
      case Ok(text) => Ok(f.(model := Some(text)))
    else if Spells(name, "compatible") then
      match ReadList(data)
      case Err(e) => Err(e)
      case Ok(list) => Ok(f.(compatibles := list))
    else Ok(f)
  }

  /** The root node from `cursor` on. */
  function Scan(bytes: seq<Byte>, strings: seq<Byte>, cursor: nat, end: nat, f: Found): Result<Found, DtbError>
    requires end <= |bytes|
    decreases end - cursor
  {
    if cursor >= end then Ok(f)
    else
      match ReadWord(bytes, cursor)
      case Err(e) => Err(e)
      case Ok(token) =>
        if token == FDT_PROP then
          match ScanProperty(bytes, strings, cursor + 4, end, f)
          case Err(e) => Err(e)
          case Ok((g, next)) => Scan(bytes, strings, next, end, g)
        else if token == FDT_BEGIN_NODE || token == FDT_END_NODE || token == FDT_END then Ok(f)
        else if token == FDT_NOP then Scan(bytes, strings, cursor + 4, end, f)
        else Err(InvalidStructureToken(token))
  }

  /** Past the token and the empty name of the root node. */
  function EnterRoot(bytes: seq<Byte>, at: nat, end: nat): Result<nat, DtbError> {
    match ReadWord(bytes, at)
    case Err(e) => Err(e)
    case Ok(token) =>
      if token != FDT_BEGIN_NODE then Err(MissingRootNode)
      else
        match NulTerminatedLen(bytes, at + 4, end)
        case Err(e) => Err(e)
        case Ok(len) => if len != 0 then Err(MissingRootNode) else Align4(at + 5)
  }

  /** A word of the header of a blob long enough to have one. */
  function Header(bytes: seq<Byte>, offset: nat): nat
    requires |bytes| >= HEADER_LEN && offset + 4 <= HEADER_LEN
  {
    ReadWord(bytes, offset).value
  }

  /** The summary of a blob whose blocks are in range. */
  function Summarised(bytes: seq<Byte>, structure: nat, end: nat, strings: seq<Byte>): Result<Summary, DtbError>
    requires |bytes| >= HEADER_LEN && end <= |bytes|
  {
    match EnterRoot(bytes, structure, end)
    case Err(e) => Err(e)
    case Ok(cursor) =>
      match Scan(bytes, strings, cursor, end, Found(None, []))
      case Err(e) => Err(e)
      case Ok(f) => Ok(Summary(Header(bytes, 4), Header(bytes, 20), Header(bytes, 28), f.model, f.compatibles))
  }

  function Parsed(bytes: seq<Byte>): Result<Summary, DtbError> {
    if |bytes| < HEADER_LEN then Err(TooSmall(|bytes|))
    else if Header(bytes, 0) != FDT_MAGIC then Err(BadMagic(Header(bytes, 0)))
    else
      var total := Header(bytes, 4);
      if total > |bytes| then Err(Truncated(total, |bytes|))
      else
        match CheckedEnd(Header(bytes, 8), Header(bytes, 36), total)
        case Err(e) => Err(e)
        case Ok(structEnd) =>
          match CheckedEnd(Header(bytes, 12), Header(bytes, 32), total)
          case Err(e) => Err(e)
          case Ok(stringsEnd) => Summarised(bytes, Header(bytes, 8), structEnd, bytes[Header(bytes, 12)..stringsEnd])
  }
}
