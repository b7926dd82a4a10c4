/** What the devicetree parser refuses, and with which error (imager/src/lib.rs,
    `DtbSummary::parse` and its helpers), said of the bytes of the blob. */
module DeviceTreeErrors {
  import opened Bytes
  import opened Objects
  import opened DeviceTree
  import opened DeviceTreeBlob

  // ---- The header ----------------------------------------------------------------------

  /** The four bytes at `at` as a number, most significant first. */
  function Big(bytes: seq<Byte>, at: nat): nat
    requires at + 4 <= |bytes|
  {
    0x100_0000 * (bytes[at] as int) + 0x1_0000 * (bytes[at + 1] as int) + 0x100 * (bytes[at + 2] as int) + (bytes[at + 3] as int)
  }

  lemma WordIsBig(bytes: seq<Byte>, at: nat)
    requires at + 4 <= |bytes| <= USIZE_MAX
    ensures ReadWord(bytes, at) == Ok(Big(bytes, at))
  {
    var w := bytes[at..at + 4];
    assert w[..3][..2][..1][..0] == [];
    assert Value(w[..1]) == w[0] && Value(w[..2]) == 0x100 * Value(w[..1]) + w[1] && Value(w[..3]) == 0x100 * Value(w[..2]) + w[2] by {
      assert w[..1][..0] == [] && w[..2][..1] == w[..1] && w[..3][..2] == w[..2];
    }
  }

  /** An error that can only come from the structure block. */
  predicate Inner(e: DtbError) {
    !e.TooSmall? && !e.BadMagic?
  }

  lemma {:induction false} ListInner(data: seq<Byte>)
    ensures ReadList(data).Err? ==> ReadList(data).error == InvalidString
    decreases |data|
  {
    var n := FindNul(data, 0);
    if n.Some? {
      ListInner(data[n.value + 1..]);
    }
  }

  lemma PropertyInner(bytes: seq<Byte>, strings: seq<Byte>, at: nat, end: nat, f: Found)
    requires end <= |bytes|
    ensures var r := ScanProperty(bytes, strings, at, end, f); r.Err? ==> Inner(r.error)
  {
    var len := ReadWord(bytes, at);
    if len.Ok? && CheckedEnd(at + 8, len.value, end).Ok? {
      ListInner(bytes[at + 8..at + 8 + len.value]);
    }
  }

  lemma {:induction false} ScanInner(bytes: seq<Byte>, strings: seq<Byte>, cursor: nat, end: nat, f: Found)
    requires end <= |bytes|
    ensures var r := Scan(bytes, strings, cursor, end, f); r.Err? ==> Inner(r.error)
    decreases end - cursor
  {
    if cursor < end {
      var token := ReadWord(bytes, cursor);
      if token == Ok(FDT_PROP) {
        PropertyInner(bytes, strings, cursor + 4, end, f);
        var p := ScanProperty(bytes, strings, cursor + 4, end, f);
        if p.Ok? {
          ScanInner(bytes, strings, p.value.1, end, p.value.0);
        }
      } else if token == Ok(FDT_NOP) {
        ScanInner(bytes, strings, cursor + 4, end, f);
      }
    }
  }

  /** The blocks the header names lie within the size it names, and that within the bytes. */
  predicate InFrame(bytes: seq<Byte>) {
    && |bytes| >= 40 && Big(bytes, 0) == 0xd00d_feed && Big(bytes, 4) <= |bytes|
    && Big(bytes, 8) + Big(bytes, 36) <= Big(bytes, 4) && Big(bytes, 12) + Big(bytes, 32) <= Big(bytes, 4)
  }

  lemma HeaderIsBig(bytes: seq<Byte>)
    requires 40 <= |bytes| <= USIZE_MAX
    ensures Header(bytes, 0) == Big(bytes, 0) && Header(bytes, 4) == Big(bytes, 4) && Header(bytes, 8) == Big(bytes, 8)
    ensures Header(bytes, 12) == Big(bytes, 12) && Header(bytes, 32) == Big(bytes, 32) && Header(bytes, 36) == Big(bytes, 36)
  {
    WordIsBig(bytes, 0);
    WordIsBig(bytes, 4);
    WordIsBig(bytes, 8);
    WordIsBig(bytes, 12);
    WordIsBig(bytes, 32);
    WordIsBig(bytes, 36);
  }

  /** Fewer than 40 bytes are too small; then the magic number counts, then the total size, then
      the structure block, then the strings block. */
  lemma HeaderAnswers(bytes: seq<Byte>)
    requires |bytes| <= USIZE_MAX
    ensures var r := Parsed(bytes);
            && ((r.Err? && r.error.TooSmall?) <==> |bytes| < 40) && (|bytes| < 40 ==> r == Err(TooSmall(|bytes|)))
            && ((r.Err? && r.error.BadMagic?) <==> |bytes| >= 40 && Big(bytes, 0) != 0xd00d_feed)
            && (|bytes| >= 40 ==>
                  if Big(bytes, 0) != 0xd00d_feed then r == Err(BadMagic(Big(bytes, 0)))
                  else if Big(bytes, 4) > |bytes| then r == Err(Truncated(Big(bytes, 4), |bytes|))
                  else if Big(bytes, 8) + Big(bytes, 36) > Big(bytes, 4) then r == Err(Truncated(Big(bytes, 8) + Big(bytes, 36), Big(bytes, 4)))
                  else if Big(bytes, 12) + Big(bytes, 32) > Big(bytes, 4) then r == Err(Truncated(Big(bytes, 12) + Big(bytes, 32), Big(bytes, 4)))
                  else InFrame(bytes))
  {
    if |bytes| >= 40 {
      HeaderIsBig(bytes);
      if InFrame(bytes) {
        FramedInner(bytes);
      }
    }
  }

  /** Then only the structure block, from `at` to `end`, and the strings matter. */
  lemma FramedIs(bytes: seq<Byte>) returns (at: nat, end: nat, strings: seq<Byte>)
    requires |bytes| <= USIZE_MAX && InFrame(bytes)
    ensures at == Big(bytes, 8) && end == at + Big(bytes, 36) <= |bytes|
    ensures strings == bytes[Big(bytes, 12)..Big(bytes, 12) + Big(bytes, 32)]
    ensures Parsed(bytes) == Summarised(bytes, at, end, strings)
  {
    HeaderIsBig(bytes);
    at, end, strings := Big(bytes, 8), Big(bytes, 8) + Big(bytes, 36), bytes[Big(bytes, 12)..Big(bytes, 12) + Big(bytes, 32)];
    HeaderPasses(bytes, at, Big(bytes, 36), Big(bytes, 12), Big(bytes, 32));
  }

  ghost predicate InnerOnly(r: Result<Summary, DtbError>) {
    r.Err? ==> Inner(r.error)
  }

  lemma FramedInner(bytes: seq<Byte>)
    requires |bytes| <= USIZE_MAX && InFrame(bytes)
    ensures InnerOnly(Parsed(bytes))
  {
    var at, end, strings := FramedIs(bytes);
    SummaryInner(bytes, at, end, strings);
    SameInner(Parsed(bytes), Summarised(bytes, at, end, strings));
  }

  lemma SameInner(r: Result<Summary, DtbError>, q: Result<Summary, DtbError>)
    requires r == q && InnerOnly(q)
    ensures InnerOnly(r)
  {
  }

  lemma SummaryInner(bytes: seq<Byte>, at: nat, end: nat, strings: seq<Byte>)
    requires |bytes| >= 40 && end <= |bytes|
    ensures InnerOnly(Summarised(bytes, at, end, strings))
  {
    var cursor := EnterRoot(bytes, at, end);
    if cursor.Ok? {
      ScanInner(bytes, strings, cursor.value, end, Found(None, []));
    }
  }

  // ---- The root node -------------------------------------------------------------------

  /** A structure block from `at` to `end` that does not begin with a node, or whose first node
      has a name, has no root node; a name that does not end in the block is out of range. */
  lemma RootAnswers(bytes: seq<Byte>, at: nat, end: nat, strings: seq<Byte>)
    requires 40 <= |bytes| <= USIZE_MAX - 8 && at <= end <= |bytes|
    ensures var r := Summarised(bytes, at, end, strings);
            && (at + 4 > |bytes| ==> r == Err(Truncated(at + 4, |bytes|)))
            && (at + 4 <= |bytes| && Big(bytes, at) != 1 ==> r == Err(MissingRootNode))
            && (at + 4 <= |bytes| && Big(bytes, at) == 1 && (at + 4 >= end || 0 !in bytes[at + 4..end]) ==> r == Err(InvalidOffset))
            && (at + 4 < end && Big(bytes, at) == 1 && 0 in bytes[at + 4..end] && bytes[at + 4] != 0 ==> r == Err(MissingRootNode))
  {
    if at + 4 <= |bytes| {
      WordIsBig(bytes, at);
      if at + 4 < end {
        assert bytes[at + 4..end][0] == bytes[at + 4];
      }
    }
  }

  // ---- Entries -------------------------------------------------------------------------

  /** What entries come to that are followed by something the parser refuses with `bad`: the
      first of them it does not understand, or else that. */
  function Spoiled(m: Result<Found, DtbError>, bad: DtbError): Result<Found, DtbError> {
    match m
    case Err(e) => Err(e)
    case Ok(_) => Err(bad)
  }

  ghost predicate Refuses(bytes: seq<Byte>, strings: seq<Byte>, at: nat, end: nat, bad: DtbError)
    requires end <= |bytes|
  {
    forall f :: Scan(bytes, strings, at, end, f) == Err(bad)
  }

  lemma EntriesHead(bytes: seq<Byte>, at: nat, es: seq<Entry>, stop: nat)
    requires es != [] && at % 4 == 0 && EntriesAt(bytes, at, es, stop)
    ensures EntryAt(bytes, at, es[0]) && EntriesAt(bytes, at + Size(es[0]), es[1..], stop)
    ensures at + Size(es[0]) <= stop && (at + Size(es[0])) % 4 == 0
  {
    EntriesEnd(bytes, at + Size(es[0]), es[1..], stop);
  }

  lemma {:induction false} EntriesSpoil(bytes: seq<Byte>, strings: seq<Byte>, at: nat, end: nat, es: seq<Entry>, stop: nat, f: Found, bad: DtbError)
    requires at % 4 == 0 && stop <= end <= |bytes| <= USIZE_MAX - 8
    requires EntriesAt(bytes, at, es, stop) && Refuses(bytes, strings, stop, end, bad)
    ensures Scan(bytes, strings, at, end, f) == Spoiled(Meaning(strings, es, f), bad)
    decreases |es|
  {
    if es != [] {
      EntriesHead(bytes, at, es, stop);
      var u := Understood(strings, es[0], f);
      if u.Ok? {
        EntriesSpoil(bytes, strings, at + Size(es[0]), end, es[1..], stop, u.value, bad);
      }
      OneMoreSpoils(bytes, strings, at, end, es, f, bad);
    }
  }

  lemma OneMoreSpoils(bytes: seq<Byte>, strings: seq<Byte>, at: nat, end: nat, es: seq<Entry>, f: Found, bad: DtbError)
    requires es != [] && EntryAt(bytes, at, es[0]) && at % 4 == 0 && at + Size(es[0]) <= end <= |bytes| <= USIZE_MAX - 8
    requires var u := Understood(strings, es[0], f);
             u.Ok? ==> Scan(bytes, strings, at + Size(es[0]), end, u.value) == Spoiled(Meaning(strings, es[1..], u.value), bad)
    ensures Scan(bytes, strings, at, end, f) == Spoiled(Meaning(strings, es, f), bad)
  {
    EntryScans(bytes, strings, at, end, es[0], f);
  }

  /** A token that is none of the five is refused by name, and so is a block that ends within a
      token. */
  lemma BadToken(bytes: seq<Byte>, strings: seq<Byte>, at: nat, end: nat)
    requires at < end <= |bytes| <= USIZE_MAX - 8
    ensures at + 4 > |bytes| ==> Refuses(bytes, strings, at, end, Truncated(at + 4, |bytes|))
    ensures at + 4 <= |bytes| && Big(bytes, at) !in {1, 2, 3, 4, 9} ==> Refuses(bytes, strings, at, end, InvalidStructureToken(Big(bytes, at)))
  {
    if at + 4 <= |bytes| {
      WordIsBig(bytes, at);
    }
  }

  /** A gap is four bytes long; the start or the end of a node and the end of the tree end the
      root properties. */
  lemma TokenAnswers(bytes: seq<Byte>, strings: seq<Byte>, at: nat, end: nat, f: Found)
    requires at < end && at + 4 <= |bytes| <= USIZE_MAX - 8 && end <= |bytes|
    ensures Big(bytes, at) == 4 ==> Scan(bytes, strings, at, end, f) == Scan(bytes, strings, at + 4, end, f)
    ensures Big(bytes, at) in {1, 2, 9} ==> Scan(bytes, strings, at, end, f) == Ok(f)
  {
    WordIsBig(bytes, at);
  }

  /** A property whose data would pass the end of the block is refused with both ends. */
  lemma FarProperty(bytes: seq<Byte>, strings: seq<Byte>, at: nat, end: nat)
    requires at < end && at + 12 <= |bytes| && end <= |bytes| <= USIZE_MAX - 8
    requires Big(bytes, at) == 3 && end < at + 12 + Big(bytes, at + 4) <= USIZE_MAX
    ensures Refuses(bytes, strings, at, end, Truncated(at + 12 + Big(bytes, at + 4), end))
  {
    WordIsBig(bytes, at);
    WordIsBig(bytes, at + 4);
    WordIsBig(bytes, at + 8);
  }

  predicate FailsAs(r: Result<Summary, DtbError>, m: Result<Found, DtbError>) {
    r.Err? && m == Err(r.error)
  }

  /** So a structure block whose root entries are followed by something refused is refused with
      that, or with the error of the first entry that is not understood. */
  lemma SpoiledSummary(bytes: seq<Byte>, at: nat, end: nat, strings: seq<Byte>, es: seq<Entry>, stop: nat, bad: DtbError)
    requires 40 <= |bytes| <= USIZE_MAX - 8 && at % 4 == 0 && at + 8 <= stop <= end <= |bytes|
    requires Big(bytes, at) == 1 && bytes[at + 4] == 0 && EntriesAt(bytes, at + 8, es, stop) && Refuses(bytes, strings, stop, end, bad)
    ensures FailsAs(Summarised(bytes, at, end, strings), Spoiled(Meaning(strings, es, Found(None, [])), bad))
  {
    WordIsBig(bytes, at);
    EntersRoot(bytes, at, end);
    EntriesSpoil(bytes, strings, at + 8, end, es, stop, Found(None, []), bad);
  }

  // ---- Text ----------------------------------------------------------------------------

  /** A name is a word exactly when it has its letters, no fewer and no more. */
  lemma {:induction false} SpellsIs(name: Text, word: string)
    ensures Spells(name, word) <==> |name| == |word| && forall i :: 0 <= i < |name| ==> name[i] == word[i] as int
    decreases |word|
  {
    if word != "" && name != [] {
      SpellsIs(name[1..], word[1..]);
      assert forall i :: 1 <= i < |name| ==> name[i] == name[1..][i - 1];
      assert forall i :: 1 <= i < |word| ==> word[i] == word[1..][i - 1];
    }
  }

  lemma NulAt(a: Text, b: seq<Byte>)
    requires 0 !in a
    ensures FindNul(a + [0] + b, 0) == Some(|a|) && FindNul(a, 0) == None
  {
    var s := a + [0] + b;
    assert s[|a|] == 0 && forall j :: 0 <= j < |a| ==> s[j] == a[j];
  }

  /** A name is what lies before the next zero byte; it is refused when it starts outside the
      strings, does not end, or is not text. */
  lemma NameAnswers(before: seq<Byte>, name: Text, after: seq<Byte>)
    requires 0 !in name
    ensures ReadString(before + (name + [0] + after), |before|) == if ValidUtf8(name) then Ok(name) else Err(InvalidString)
    ensures ReadString(before + name, |before|) == Err(InvalidOffset)
    ensures forall offset: nat :: offset >= |before| ==> ReadString(before, offset) == Err(InvalidOffset)
  {
    NulAt(name, after);
    var s := before + (name + [0] + after);
    assert s[|before|..] == name + [0] + after && s[|before|..|before| + |name|] == name;
    assert (before + name)[|before|..] == name;
  }

  /** A model is what lies before the first zero byte, or everything. */
  lemma ModelAnswers(a: Text, b: seq<Byte>)
    requires 0 !in a
    ensures ReadCstr(a + [0] + b) == ReadCstr(a) == if ValidUtf8(a) then Ok(a) else Err(InvalidString)
  {
    NulAt(a, b);
    assert (a + [0] + b)[..|a|] == a;
  }

  /** Pieces with a zero byte between each and the next. */
  function Joined(pieces: seq<Text>): seq<Byte>
    requires pieces != []
  {
    if |pieces| == 1 then pieces[0] else pieces[0] + [0] + Joined(pieces[1..])
  }

  function NonEmpty(pieces: seq<Text>): seq<Text> {
    if pieces == [] then [] else (if pieces[0] == [] then [] else [pieces[0]]) + NonEmpty(pieces[1..])
  }

  /** A list is the pieces between zero bytes, empty ones left out; it is refused exactly when one
      of them is not text. */
  lemma {:induction false} ListAnswers(pieces: seq<Text>)
    requires pieces != [] && forall i :: 0 <= i < |pieces| ==> 0 !in pieces[i]
    ensures ReadList(Joined(pieces)) ==
            if forall i :: 0 <= i < |pieces| ==> ValidUtf8(pieces[i]) then Ok(NonEmpty(pieces)) else Err(InvalidString)
  {
    var p, rest := pieces[0], pieces[1..];
    if rest == [] {
      assert pieces == [p] && ValidUtf8(pieces[0]) == ValidUtf8(p);
      NulAt(p, []);
      assert NonEmpty(pieces) == if p == [] then [] else [p];
    } else {
      NulAt(p, Joined(rest));
      var all := Joined(pieces);
      assert all[..|p|] == p && all[|p| + 1..] == Joined(rest);
      ListAnswers(rest);
      assert p == [] ==> NonEmpty(pieces) == NonEmpty(rest);
      assert forall i :: 1 <= i < |pieces| ==> pieces[i] == rest[i - 1];
    }
  }
}
