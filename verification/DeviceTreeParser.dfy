/** The parser as it runs: a cursor that moves through the structure block
    (imager/src/lib.rs, `DtbSummary::parse`). Every access is in range for every input, and
    the cursor moves on at every turn. */
module DeviceTreeParser {
  import opened Bytes
  import opened Objects
  import opened DeviceTree

  method PositionOfNul(s: seq<Byte>) returns (r: Option<nat>)
    ensures r == FindNul(s, 0)
  {
    var i := 0;
    while i < |s|
      invariant 0 <= i <= |s| && FindNul(s, 0) == FindNul(s, i)
    {
      if s[i] == 0 {
        return Some(i);
      }
      i := i + 1;
    }
    return None;
  }

  /** `r` after the strings found before it. */
  function After(found: seq<Text>, r: Result<seq<Text>, DtbError>): Result<seq<Text>, DtbError> {
    match r
    case Err(e) => Err(e)
    case Ok(list) => Ok(found + list)
  }

  method ReadStrings(data: seq<Byte>) returns (r: Result<seq<Text>, DtbError>)
    ensures r == ReadList(data)
  {
    var strings: seq<Text> := [];
    var rest := data;
    assert ReadList(data).Ok? ==> [] + ReadList(data).value == ReadList(data).value;
    while true
      invariant After(strings, ReadList(rest)) == ReadList(data)
      decreases |rest|
    {
      var n := PositionOfNul(rest);
      var raw := if n.Some? then rest[..n.value] else rest;
      if raw != [] {
        if !ValidUtf8(raw) {
          return Err(InvalidString);
        }
        Regroup(strings, raw, rest);
        strings := strings + [raw];
      }
      if n.None? {
        assert strings + [] == strings;
        return Ok(strings);
      }
      rest := rest[n.value + 1..];
    }
  }

  lemma Regroup(strings: seq<Text>, raw: Text, rest: seq<Byte>)
    requires raw != [] && ValidUtf8(raw) && raw == (if FindNul(rest, 0).Some? then rest[..FindNul(rest, 0).value] else rest)
    ensures After(strings, ReadList(rest)) ==
            if FindNul(rest, 0).Some? then After(strings + [raw], ReadList(rest[FindNul(rest, 0).value + 1..])) else Ok(strings + [raw])
  {
    var n := FindNul(rest, 0);
    if n.Some? && ReadList(rest[n.value + 1..]).Ok? {
      var more := ReadList(rest[n.value + 1..]).value;
      assert strings + ([raw] + more) == strings + [raw] + more;
    }
  }

  /** One property at `at`: what has been found with it, and where to go on. */
  method ReadProperty(bytes: seq<Byte>, strings: seq<Byte>, at: nat, end: nat, found: Found)
    returns (r: Result<(Found, nat), DtbError>)
    requires end <= |bytes|
    ensures r == ScanProperty(bytes, strings, at, end, found)
  {
    var cursor := at;
    var len := ReadWord(bytes, cursor);
    if len.Err? {
      return Err(len.error);
    }
    cursor := cursor + 4;
    var nameOffset := ReadWord(bytes, cursor);
    if nameOffset.Err? {
      return Err(nameOffset.error);
    }
    cursor := cursor + 4;
    var dataEnd := CheckedEnd(cursor, len.value, end);
    if dataEnd.Err? {
      return Err(dataEnd.error);
    }
    var name := ReadString(strings, nameOffset.value);
    if name.Err? {
      return Err(name.error);
    }
    var data := bytes[cursor..dataEnd.value];
    var now := found;
    if Spells(name.value, "model") {
      var text := ReadCstr(data);
      if text.Err? {
        return Err(text.error);
      }
      now := now.(model := Some(text.value));
    } else if Spells(name.value, "compatible") {
      var list := ReadStrings(data);
      if list.Err? {
        return Err(list.error);
      }
      now := now.(compatibles := list.value);
    }
    var next := Align4(dataEnd.value);
    if next.Err? {
      return Err(next.error);
    }
    return Ok((now, next.value));
  }

  method ScanRoot(bytes: seq<Byte>, strings: seq<Byte>, start: nat, end: nat) returns (r: Result<Found, DtbError>)
    requires end <= |bytes|
    ensures r == Scan(bytes, strings, start, end, Found(None, []))
  {
    var cursor := start;
    var found := Found(None, []);
    while cursor < end
      invariant Scan(bytes, strings, cursor, end, found) == Scan(bytes, strings, start, end, Found(None, []))
      decreases end - cursor
    {
      var token := ReadWord(bytes, cursor);
      if token.Err? {
        return Err(token.error);
      }
      cursor := cursor + 4;
      if token.value == FDT_PROP {
        var property := ReadProperty(bytes, strings, cursor, end, found);
        if property.Err? {
          return Err(property.error);
        }
        found, cursor := property.value.0, property.value.1;
      } else if token.value == FDT_BEGIN_NODE || token.value == FDT_END_NODE || token.value == FDT_END {
        return Ok(found);
      } else if token.value != FDT_NOP {
        return Err(InvalidStructureToken(token.value));
      }
    }
    return Ok(found);
  }

  method Parse(bytes: seq<Byte>) returns (r: Result<Summary, DtbError>)
    ensures r == Parsed(bytes)
  {
    if |bytes| < HEADER_LEN {
      return Err(TooSmall(|bytes|));
    }
    if Header(bytes, 0) != FDT_MAGIC {
      return Err(BadMagic(Header(bytes, 0)));
    }
    var total := Header(bytes, 4);
    if total > |bytes| {
      return Err(Truncated(total, |bytes|));
    }
    var structEnd := CheckedEnd(Header(bytes, 8), Header(bytes, 36), total);
    if structEnd.Err? {
      return Err(structEnd.error);
    }
    var stringsEnd := CheckedEnd(Header(bytes, 12), Header(bytes, 32), total);
    if stringsEnd.Err? {
      return Err(stringsEnd.error);
    }
    var strings := bytes[Header(bytes, 12)..stringsEnd.value];
    var cursor := EnterRoot(bytes, Header(bytes, 8), structEnd.value);
    if cursor.Err? {
      return Err(cursor.error);
    }
    var found := ScanRoot(bytes, strings, cursor.value, structEnd.value);
    if found.Err? {
      return Err(found.error);
    }
    return Ok(Summary(total, Header(bytes, 20), Header(bytes, 28), found.value.model, found.value.compatibles));
  }
}
