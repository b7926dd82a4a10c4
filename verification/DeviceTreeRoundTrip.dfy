/** Encoding a root node's model and compatible strings and parsing them back
    (imager/src/lib.rs, `DtbSummary::parse`). */
module DeviceTreeRoundTrip {
  import opened Bytes
  import opened Objects
  import opened DeviceTree
  import opened DeviceTreeBlob

  // ---- An encoder ----------------------------------------------------------------------

  function Pow256(n: nat): nat {
    if n == 0 then 1 else 0x100 * Pow256(n - 1)
  }

  function BigEndian(v: nat, n: nat): (r: seq<Byte>)
    ensures |r| == n
  {
    if n == 0 then [] else BigEndian(v / 0x100, n - 1) + [v % 0x100]
  }

  lemma {:induction false} ValueBack(v: nat, n: nat)
    requires v < Pow256(n)
    ensures Value(BigEndian(v, n)) == v
  {
    if n > 0 {
      ValueBack(v / 0x100, n - 1);
      var r := BigEndian(v, n);
      assert r[..n - 1] == BigEndian(v / 0x100, n - 1);
    }
  }

  function Word(v: Word32): (r: seq<Byte>)
    ensures |r| == 4
  {
    BigEndian(v, 4)
  }

  lemma WordReads(bytes: seq<Byte>, at: nat, v: Word32)
    requires at + 4 <= |bytes| <= USIZE_MAX && bytes[at..at + 4] == Word(v)
    ensures ReadWord(bytes, at) == Ok(v)
  {
    assert Pow256(4) == 0x1_0000_0000;
    ValueBack(v, 4);
  }

  function Zeros(n: nat): (r: seq<Byte>)
    ensures |r| == n
  {
    seq(n, i => 0)
  }

  predicate Fits(e: Entry) {
    e.Property? ==> |e.data| < 0x1_0000_0000
  }

  predicate AllFit(es: seq<Entry>) {
    forall i :: 0 <= i < |es| ==> Fits(es[i])
  }

  function EncodedProperty(name: Word32, data: seq<Byte>): (r: seq<Byte>)
    requires Fits(Property(name, data))
    ensures |r| == Size(Property(name, data))
  {
    Word(FDT_PROP) + Word(|data|) + Word(name) + data + Zeros(Padded(|data|) - |data|)
  }

  function Encoded(e: Entry): (r: seq<Byte>)
    requires Fits(e)
    ensures |r| == Size(e)
  {
    match e
    case Nop => Word(FDT_NOP)
    case Property(name, data) => EncodedProperty(name, data)
  }

  function EncodedAll(es: seq<Entry>): seq<Byte>
    requires AllFit(es)
  {
    if es == [] then [] else Encoded(es[0]) + EncodedAll(es[1..])
  }

  /** Where the parts of a concatenation lie. */
  lemma Parts(bytes: seq<Byte>, at: nat, w: seq<Byte>, x: seq<Byte>, y: seq<Byte>, d: seq<Byte>, z: seq<Byte>)
    requires at + |w + x + y + d + z| <= |bytes| && bytes[at..at + |w + x + y + d + z|] == w + x + y + d + z
    requires |w| == |x| == |y| == 4
    ensures bytes[at..at + 4] == w && bytes[at + 4..at + 8] == x && bytes[at + 8..at + 12] == y
    ensures bytes[at + 12..at + 12 + |d|] == d
  {
    Two(bytes, at, w + x + y + d, z);
    Two(bytes, at, w + x + y, d);
    Two(bytes, at, w + x, y);
    Two(bytes, at, w, x);
  }

  lemma EntryIsThere(bytes: seq<Byte>, at: nat, e: Entry)
    requires Fits(e) && at + Size(e) <= |bytes| <= USIZE_MAX && bytes[at..at + Size(e)] == Encoded(e)
    ensures EntryAt(bytes, at, e)
  {
    match e
    case Nop => WordReads(bytes, at, FDT_NOP);
    case Property(name, data) =>
      Parts(bytes, at, Word(FDT_PROP), Word(|data|), Word(name), data, Zeros(Padded(|data|) - |data|));
      WordReads(bytes, at, FDT_PROP);
      WordReads(bytes, at + 4, |data|);
      WordReads(bytes, at + 8, name);
  }

  lemma Two(bytes: seq<Byte>, at: nat, a: seq<Byte>, b: seq<Byte>)
    requires at + |a + b| <= |bytes| && bytes[at..at + |a + b|] == a + b
    ensures bytes[at..at + |a|] == a && bytes[at + |a|..at + |a| + |b|] == b
  {
    assert bytes[at..at + |a + b|][..|a|] == bytes[at..at + |a|];
    assert bytes[at..at + |a + b|][|a|..] == bytes[at + |a|..at + |a| + |b|];
  }

  lemma TwoUpTo(bytes: seq<Byte>, at: nat, a: seq<Byte>, b: seq<Byte>, stop: nat)
    requires at <= stop <= |bytes| && bytes[at..stop] == a + b
    ensures at + |a| <= stop && bytes[at..at + |a|] == a && bytes[at + |a|..stop] == b
  {
    assert stop - at == |bytes[at..stop]| == |a| + |b|;
    Two(bytes, at, a, b);
  }

  lemma RestIsThere(bytes: seq<Byte>, at: nat, es: seq<Entry>, stop: nat)
    requires AllFit(es) && es != [] && at <= stop <= |bytes| <= USIZE_MAX && bytes[at..stop] == EncodedAll(es)
    ensures at + Size(es[0]) <= stop && bytes[at + Size(es[0])..stop] == EncodedAll(es[1..])
    ensures bytes[at..at + Size(es[0])] == Encoded(es[0])
  {
    TwoUpTo(bytes, at, Encoded(es[0]), EncodedAll(es[1..]), stop);
  }

  lemma {:induction false} EntriesAreThere(bytes: seq<Byte>, at: nat, es: seq<Entry>, stop: nat)
    requires AllFit(es) && at <= stop <= |bytes| <= USIZE_MAX && bytes[at..stop] == EncodedAll(es)
    ensures EntriesAt(bytes, at, es, stop)
    decreases |es|
  {
    if es == [] {
      assert |bytes[at..stop]| == 0;
    } else {
      var next, rest := at + Size(es[0]), es[1..];
      RestIsThere(bytes, at, es, stop);
      EntriesAreThere(bytes, next, rest, stop);
      EntriesNext(bytes, at, es, stop);
    }
  }

  lemma EntriesNext(bytes: seq<Byte>, at: nat, es: seq<Entry>, stop: nat)
    requires es != [] && Fits(es[0]) && at + Size(es[0]) <= |bytes| <= USIZE_MAX
    requires bytes[at..at + Size(es[0])] == Encoded(es[0]) && EntriesAt(bytes, at + Size(es[0]), es[1..], stop)
    ensures EntriesAt(bytes, at, es, stop)
  {
    EntryIsThere(bytes, at, es[0]);
  }

  // ---- Whole blobs ---------------------------------------------------------------------

  function Words(vs: seq<Word32>): (r: seq<Byte>)
    ensures |r| == 4 * |vs|
  {
    if vs == [] then [] else Word(vs[0]) + Words(vs[1..])
  }

  lemma {:induction false} WordsRead(bytes: seq<Byte>, at: nat, vs: seq<Word32>, k: nat)
    requires at + 4 * |vs| <= |bytes| <= USIZE_MAX && bytes[at..at + 4 * |vs|] == Words(vs) && k < |vs|
    ensures ReadWord(bytes, at + 4 * k) == Ok(vs[k])
    decreases k
  {
    Two(bytes, at, Word(vs[0]), Words(vs[1..]));
    if k == 0 {
      WordReads(bytes, at, vs[0]);
    } else {
      WordsRead(bytes, at + 4, vs[1..], k - 1);
    }
  }

  /** An unnamed root node of these entries and no children. */
  function Structure(es: seq<Entry>): seq<Byte>
    requires AllFit(es)
  {
    Word(FDT_BEGIN_NODE) + Zeros(4) + EncodedAll(es) + Word(FDT_END_NODE) + Word(FDT_END)
  }

  predicate Encodable(b: Blob) {
    AllFit(b.entries) && HEADER_LEN + |Structure(b.entries)| + |b.strings| < 0x1_0000_0000
  }

  function HeaderOf(b: Blob, n: nat, m: nat): (r: seq<Word32>)
    requires HEADER_LEN + n + m < 0x1_0000_0000
    ensures |r| == 10
  {
    [FDT_MAGIC, HEADER_LEN + n + m, HEADER_LEN, HEADER_LEN + n, 0, b.version, 0, b.bootCpuid, m, n]
  }

  /** Header, structure block, strings block, one after the other. */
  function Encode(b: Blob): (r: seq<Byte>)
    requires Encodable(b)
    ensures |r| == HEADER_LEN + |Structure(b.entries)| + |b.strings|
  {
    (Words(HeaderOf(b, |Structure(b.entries)|, |b.strings|)) + Structure(b.entries)) + b.strings
  }

  lemma RootIsThere(bytes: seq<Byte>, at: nat, w: seq<Byte>, z: seq<Byte>, body: seq<Byte>, x: seq<Byte>, y: seq<Byte>)
    requires |w| == |z| == |x| == |y| == 4
    requires at + |w + z + body + x + y| <= |bytes| && bytes[at..at + |w + z + body + x + y|] == w + z + body + x + y
    ensures var stop := at + 8 + |body|;
            bytes[at..at + 4] == w && bytes[at + 4..at + 8] == z && bytes[at + 8..stop] == body && bytes[stop..stop + 4] == x
  {
    Two(bytes, at, w + z + body + x, y);
    Two(bytes, at, w + z + body, x);
    Two(bytes, at, w + z, body);
    Two(bytes, at, w, z);
  }

  lemma StructureIsThere(bytes: seq<Byte>, at: nat, end: nat, es: seq<Entry>)
    requires AllFit(es) && at % 4 == 0 && at <= end <= |bytes| <= USIZE_MAX && bytes[at..end] == Structure(es)
    ensures StructureAt(bytes, at, end, es)
  {
    var body := EncodedAll(es);
    var stop := at + 8 + |body|;
    RootIsThere(bytes, at, Word(FDT_BEGIN_NODE), Zeros(4), body, Word(FDT_END_NODE), Word(FDT_END));
    WordReads(bytes, at, FDT_BEGIN_NODE);
    WordReads(bytes, stop, FDT_END_NODE);
    assert bytes[at + 4..at + 8][0] == Zeros(4)[0];
    EntriesAreThere(bytes, at + 8, es, stop);
    StructureIs(bytes, at, end, es, stop);
  }

  lemma StructureIs(bytes: seq<Byte>, at: nat, end: nat, es: seq<Entry>, stop: nat)
    requires at % 4 == 0 && at + 8 <= stop <= end <= |bytes| && ReadWord(bytes, at) == Ok(FDT_BEGIN_NODE) && bytes[at + 4] == 0
    requires EntriesAt(bytes, at + 8, es, stop) && ReadWord(bytes, stop) == Ok(FDT_END_NODE)
    ensures StructureAt(bytes, at, end, es)
  {
    assert BodyAt(bytes, at, end, es, stop);
  }

  /** The header fields of bytes that begin with these ten words. */
  ghost predicate Headed(r: seq<Byte>, b: Blob, n: nat, m: nat) {
    && HEADER_LEN <= |r| && Header(r, 0) == FDT_MAGIC && Header(r, 4) == HEADER_LEN + n + m && Header(r, 8) == HEADER_LEN
    && Header(r, 12) == HEADER_LEN + n && Header(r, 20) == b.version && Header(r, 28) == b.bootCpuid
    && Header(r, 32) == m && Header(r, 36) == n
  }

  lemma HeaderReads(r: seq<Byte>, b: Blob, n: nat, m: nat)
    requires HEADER_LEN + n + m < 0x1_0000_0000 && HEADER_LEN <= |r| <= USIZE_MAX && r[0..40] == Words(HeaderOf(b, n, m))
    ensures Headed(r, b, n, m)
  {
    HeaderWords(r, HeaderOf(b, n, m));
  }

  lemma HeaderWords(r: seq<Byte>, ws: seq<Word32>)
    requires |ws| == 10 && 40 <= |r| <= USIZE_MAX && r[0..40] == Words(ws)
    ensures Header(r, 0) == ws[0] && Header(r, 4) == ws[1] && Header(r, 8) == ws[2] && Header(r, 12) == ws[3]
    ensures Header(r, 20) == ws[5] && Header(r, 28) == ws[7] && Header(r, 32) == ws[8] && Header(r, 36) == ws[9]
  {
    WordsRead(r, 0, ws, 0);
    WordsRead(r, 0, ws, 1);
    WordsRead(r, 0, ws, 2);
    WordsRead(r, 0, ws, 3);
    WordsRead(r, 0, ws, 5);
    WordsRead(r, 0, ws, 7);
    WordsRead(r, 0, ws, 8);
    WordsRead(r, 0, ws, 9);
  }

  lemma BlocksIn(h: seq<Byte>, s: seq<Byte>, t: seq<Byte>)
    ensures var r := h + s + t; r[0..|h|] == h && r[|h|..|h| + |s|] == s && r[|h| + |s|..|h| + |s| + |t|] == t
  {
  }

  lemma RepresentsBy(r: seq<Byte>, b: Blob, n: nat)
    requires Headed(r, b, n, |b.strings|) && |r| == HEADER_LEN + n + |b.strings| < 0x1_0000_0000
    requires StructureAt(r, HEADER_LEN, HEADER_LEN + n, b.entries) && r[HEADER_LEN + n..HEADER_LEN + n + |b.strings|] == b.strings
    ensures Represents(r, b) && Header(r, 4) == |r|
  {
  }

  lemma EncodeRepresents(b: Blob)
    requires Encodable(b)
    ensures Represents(Encode(b), b) && Header(Encode(b), 4) == |Encode(b)|
  {
    EncodeLies(b);
    var r, n := Encode(b), |Structure(b.entries)|;
    EncodeHeaded(r, b, n);
    StructureIsThere(r, HEADER_LEN, HEADER_LEN + n, b.entries);
    RepresentsBy(r, b, n);
  }

  lemma EncodeLies(b: Blob)
    requires Encodable(b)
    ensures var r, n := Encode(b), |Structure(b.entries)|;
            && r[0..HEADER_LEN] == Words(HeaderOf(b, n, |b.strings|))
            && r[HEADER_LEN..HEADER_LEN + n] == Structure(b.entries)
            && r[HEADER_LEN + n..HEADER_LEN + n + |b.strings|] == b.strings
  {
    var n := |Structure(b.entries)|;
    BlocksIn(Words(HeaderOf(b, n, |b.strings|)), Structure(b.entries), b.strings);
  }

  lemma EncodeHeaded(r: seq<Byte>, b: Blob, n: nat)
    requires HEADER_LEN + n + |b.strings| < 0x1_0000_0000 && |r| == HEADER_LEN + n + |b.strings|
    requires r[0..HEADER_LEN] == Words(HeaderOf(b, n, |b.strings|))
    ensures Headed(r, b, n, |b.strings|)
  {
    HeaderReads(r, b, n, |b.strings|);
  }

  // ---- Model and compatible ------------------------------------------------------------

  /** What an entry is meant to say. */
  datatype Item =
    | Gap
    | Model(called: Text, text: Text)
    | Compatible(called: Text, list: seq<Text>)
    | Other(called: Text, data: seq<Byte>)

  function Listed(list: seq<Text>): seq<Byte> {
    if list == [] then [] else list[0] + [0] + Listed(list[1..])
  }

  predicate Plain(text: Text) {
    ValidUtf8(text) && 0 !in text
  }

  ghost predicate AllPlain(list: seq<Text>) {
    forall i :: 0 <= i < |list| ==> list[i] != [] && Plain(list[i])
  }

  /** `called` and a zero byte are in the strings block at `name`. */
  predicate NameAt(strings: seq<Byte>, name: nat, called: Text) {
    name + |called| < |strings| && strings[name..name + |called| + 1] == called + [0] && Plain(called)
  }

  /** The entry says what is meant. */
  ghost predicate Tells(strings: seq<Byte>, e: Entry, item: Item) {
    if item.Gap? then e.Nop?
    else
      && e.Property? && NameAt(strings, e.name, item.called)
      && match item
         case Model(called, text) => Spells(called, "model") && e.data == text + [0] && Plain(text)
         case Compatible(called, list) => Spells(called, "compatible") && e.data == Listed(list) && AllPlain(list)
         case Other(called, data) => !Spells(called, "model") && !Spells(called, "compatible") && e.data == data
  }

  function Noted(item: Item, f: Found): Found {
    match item
    case Model(_, text) => f.(model := Some(text))
    case Compatible(_, list) => f.(compatibles := list)
    case _ => f
  }

  /** The last model and the last list, after what was found before. */
  function Last(items: seq<Item>, f: Found): Found {
    if items == [] then f else Last(items[1..], Noted(items[0], f))
  }

  /** Item `m` is a model and no later one is. */
  predicate FinalModel(items: seq<Item>, m: nat) {
    m < |items| && items[m].Model? && forall i :: m < i < |items| ==> !items[i].Model?
  }

  predicate FinalList(items: seq<Item>, m: nat) {
    m < |items| && items[m].Compatible? && forall i :: m < i < |items| ==> !items[i].Compatible?
  }

  /** The model found is that of the greatest index that has one, and so is the list; what no
      item has is as before. */
  lemma {:induction false} LastIsFinal(items: seq<Item>, f: Found, m: nat)
    ensures FinalModel(items, m) ==> Last(items, f).model == Some(items[m].text)
    ensures FinalList(items, m) ==> Last(items, f).compatibles == items[m].list
    ensures (forall i :: 0 <= i < |items| ==> !items[i].Model?) ==> Last(items, f).model == f.model
    ensures (forall i :: 0 <= i < |items| ==> !items[i].Compatible?) ==> Last(items, f).compatibles == f.compatibles
  {
    if items != [] {
      LastIsFinal(items[1..], Noted(items[0], f), if m == 0 then 0 else m - 1);
    }
  }

  lemma NulAfter(a: Text, b: seq<Byte>)
    requires 0 !in a
    ensures FindNul(a + [0] + b, 0) == Some(|a|)
  {
    var s := a + [0] + b;
    assert s[|a|] == 0;
    assert forall j :: 0 <= j < |a| ==> s[j] == a[j];
  }

  lemma NameReads(strings: seq<Byte>, name: nat, called: Text)
    requires NameAt(strings, name, called)
    ensures ReadString(strings, name) == Ok(called)
  {
    var rest := strings[name + |called| + 1..];
    assert strings[name..] == strings[name..name + |called| + 1] + rest;
    NulAfter(called, rest);
    assert strings[name..name + |called|] == (called + [0])[..|called|];
  }

  lemma {:induction false} ListReads(list: seq<Text>)
    requires AllPlain(list)
    ensures ReadList(Listed(list)) == Ok(list)
  {
    if list != [] {
      var s, rest := list[0], Listed(list[1..]);
      ListReads(list[1..]);
      NulAfter(s, rest);
      assert Listed(list)[..|s|] == s && Listed(list)[|s| + 1..] == rest;
      assert [list[0]] + list[1..] == list;
    }
  }

  lemma TextReads(text: Text)
    requires Plain(text)
    ensures ReadCstr(text + [0]) == Ok(text)
  {
    NulAfter(text, []);
    assert text + [0] + [] == text + [0] && (text + [0])[..|text|] == text;
  }

  lemma EntryTells(strings: seq<Byte>, e: Entry, item: Item, f: Found)
    requires Tells(strings, e, item)
    ensures Understood(strings, e, f) == Ok(Noted(item, f))
  {
    if !item.Gap? {
      NameReads(strings, e.name, item.called);
      match item
      case Model(_, text) => TextReads(text);
      case Compatible(called, list) =>
        ListReads(list);
        OneName(called);
      case Other(_, _) =>
    }
  }

  lemma OneName(called: Text)
    ensures !(Spells(called, "model") && Spells(called, "compatible"))
  {
  }

  ghost predicate AllTell(strings: seq<Byte>, es: seq<Entry>, items: seq<Item>) {
    |es| == |items| && forall i :: 0 <= i < |es| ==> Tells(strings, es[i], items[i])
  }

  lemma {:induction false} EntriesTell(strings: seq<Byte>, es: seq<Entry>, items: seq<Item>, f: Found)
    requires AllTell(strings, es, items)
    ensures Meaning(strings, es, f) == Ok(Last(items, f))
    decreases |es|
  {
    if es != [] {
      EntryTells(strings, es[0], items[0], f);
      EntriesTell(strings, es[1..], items[1..], Noted(items[0], f));
    }
  }

  /** Parsing any blob with an unnamed root node gives back its header fields, its last model
      and its last list of compatible strings, whatever other properties and gaps there are. */
  lemma ParsesBack(bytes: seq<Byte>, b: Blob, items: seq<Item>)
    requires Represents(bytes, b) && AllTell(b.strings, b.entries, items)
    ensures var f := Last(items, Found(None, []));
            Parsed(bytes) == Ok(Summary(Header(bytes, 4), b.version, b.bootCpuid, f.model, f.compatibles))
  {
    ParsesMeaning(bytes, b);
    EntriesTell(b.strings, b.entries, items, Found(None, []));
  }

  /** In particular what was just encoded. */
  lemma RoundTrip(b: Blob, items: seq<Item>)
    requires Encodable(b) && AllTell(b.strings, b.entries, items)
    ensures var f := Last(items, Found(None, []));
            Parsed(Encode(b)) == Ok(Summary(|Encode(b)|, b.version, b.bootCpuid, f.model, f.compatibles))
  {
    EncodeRepresents(b);
    ParsesBack(Encode(b), b, items);
  }
}
