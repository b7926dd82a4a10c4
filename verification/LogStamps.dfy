/** The stamp in front of every kernel log line (kernel/src/kmsg.rs, `format_stamp`). */
module LogStamps {
  import opened Bytes
  import opened Division

  const ZERO: Byte := 48
  const SPACE: Byte := 32
  const STAMP_BYTES := 15

  function Pow10(w: nat): (r: nat)
    ensures r > 0
  {
    if w == 0 then 1 else 10 * Pow10(w - 1)
  }

  function Digit(v: nat): Byte {
    ZERO + v % 10
  }

  function Spaces(w: nat): (r: seq<Byte>)
    ensures |r| == w
  {
    seq(w, i => SPACE)
  }

  /** The last `w` digits of `v`. */
  function Digits(v: nat, w: nat): (r: seq<Byte>)
    ensures |r| == w
  {
    if w == 0 then [] else Digits(v / 10, w - 1) + [Digit(v)]
  }

  /** The last `w` digits of `v`, blank to the left of the first one that counts. */
  function Padded(v: nat, w: nat): (r: seq<Byte>)
    ensures |r| == w
  {
    if w == 0 then [] else (if v / 10 == 0 then Spaces(w - 1) else Padded(v / 10, w - 1)) + [Digit(v)]
  }

  /** `[sssss.uuuuuu] ` */
  function Stamp(ns: nat): (r: seq<Byte>)
    ensures |r| == STAMP_BYTES
  {
    [91] + Padded(ns / 1_000_000_000, 5) + [46] + Digits(ns % 1_000_000_000 / 1000, 6) + [93, 32]
  }

  /** The loops of `format_stamp`, digit by digit from the right. */
  method FormatStamp(ns: nat, out: array<Byte>) returns (len: nat)
    requires out.Length == 16
    modifies out
    ensures len == STAMP_BYTES && out[..len] == Stamp(ns)
  {
    var digits := WriteSeconds(ns / 1_000_000_000);
    WriteMicros(ns % 1_000_000_000 / 1000, out);
    forall i | 0 <= i < 5 {
      out[1 + i] := digits[i];
    }
    out[0], out[6], out[13], out[14] := 91, 46, 93, 32;
    len := 15;
    assert out[..15] == [out[0]] + out[1..6] + [out[6]] + out[7..13] + [out[13], out[14]];
    assert out[1..6] == digits[..];
  }

  method WriteMicros(micros: nat, out: array<Byte>)
    requires out.Length == 16
    modifies out
    ensures out[7..13] == Digits(micros, 6)
  {
    var value: nat := micros;
    var index := 13;
    while index > 7
      invariant 7 <= index <= 13
      invariant Digits(value, index - 7) + out[index..13] == Digits(micros, 6)
    {
      index := index - 1;
      out[index] := Digit(value);
      assert out[index..13] == [Digit(value)] + out[index + 1..13];
      value := value / 10;
    }
  }

  method WriteSeconds(secs: nat) returns (digits: array<Byte>)
    ensures fresh(digits) && digits.Length == 5 && digits[..] == Padded(secs, 5)
  {
    digits := new Byte[5](i => SPACE);
    var value: nat := secs;
    var index := 5;
    while index > 0
      invariant 0 <= index <= 5 && digits.Length == 5
      invariant digits[..index] == Spaces(index)
      invariant Padded(value, index) + digits[index..] == Padded(secs, 5)
    {
      ghost var head, tail := digits[..index - 1], digits[index..];
      index := index - 1;
      digits[index] := Digit(value);
      assert digits[..index] == head == Spaces(index);
      assert digits[index + 1..] == tail;
      assert digits[index..] == [Digit(value)] + tail;
      if value / 10 == 0 {
        assert digits[..] == digits[..index] + digits[index..];
        break;
      }
      value := value / 10;
    }
    assert index == 0 ==> digits[..] == digits[0..];
  }

  // ---- What a stamp says ---------------------------------------------------------------

  /** A number as read, a blank counting for nothing. */
  function Number(s: seq<Byte>): int {
    if s == [] then 0
    else 10 * Number(s[..|s| - 1]) + (if s[|s| - 1] == SPACE then 0 else s[|s| - 1] - ZERO)
  }

  function Microseconds(stamp: seq<Byte>): int
    requires |stamp| == STAMP_BYTES
  {
    Number(stamp[1..6]) * 1_000_000 + Number(stamp[7..13])
  }

  lemma NumberNext(s: seq<Byte>, v: nat)
    ensures Number(s + [Digit(v)]) == 10 * Number(s) + v % 10
  {
    assert (s + [Digit(v)])[..|s|] == s;
  }

  lemma {:induction false} SpacesNumber(w: nat)
    ensures Number(Spaces(w)) == 0
  {
    if w > 0 {
      SpacesNumber(w - 1);
      assert Spaces(w)[..w - 1] == Spaces(w - 1);
    }
  }

  lemma ModNext(v: nat, p: nat)
    requires p > 0
    ensures 10 * (v / 10 % p) + v % 10 == v % (10 * p)
  {
    var q, r := v / 10 / p, v / 10 % p;
    assert v == 10 * (p * q + r) + v % 10 == (10 * p) * q + (10 * r + v % 10);
    DivIs(v, 10 * p, q, 10 * r + v % 10);
  }

  lemma {:induction false} DigitsNumber(v: nat, w: nat)
    ensures Number(Digits(v, w)) == v % Pow10(w)
  {
    if w > 0 {
      DigitsNumber(v / 10, w - 1);
      NumberNext(Digits(v / 10, w - 1), v);
      ModNext(v, Pow10(w - 1));
    }
  }

  lemma {:induction false} PaddedNumber(v: nat, w: nat)
    ensures Number(Padded(v, w)) == v % Pow10(w)
  {
    if w > 0 {
      if v / 10 == 0 {
        SpacesNumber(w - 1);
        NumberNext(Spaces(w - 1), v);
      } else {
        PaddedNumber(v / 10, w - 1);
        NumberNext(Padded(v / 10, w - 1), v);
      }
      ModNext(v, Pow10(w - 1));
    }
  }

  lemma MicrosSplit(ns: nat)
    ensures var secs, micros := ns / 1_000_000_000, ns % 1_000_000_000 / 1000;
            && micros % 1_000_000 == micros
            && secs % 100_000 * 1_000_000 + micros == ns / 1000 % 100_000_000_000
  {
    var secs, micros := ns / 1_000_000_000, ns % 1_000_000_000 / 1000;
    assert ns / 1000 == secs * 1_000_000 + micros;
    DivIs(ns / 1000, 100_000_000_000, secs / 100_000, secs % 100_000 * 1_000_000 + micros);
  }

  /** A stamp reads back as the time in microseconds, modulo its eleven digits. */
  lemma StampReads(ns: nat)
    ensures Microseconds(Stamp(ns)) == ns / 1000 % 100_000_000_000
  {
    var secs, micros := ns / 1_000_000_000, ns % 1_000_000_000 / 1000;
    assert Stamp(ns)[1..6] == Padded(secs, 5) && Stamp(ns)[7..13] == Digits(micros, 6);
    PaddedNumber(secs, 5);
    DigitsNumber(micros, 6);
    assert Pow10(5) == 100_000 && Pow10(6) == 1_000_000;
    MicrosSplit(ns);
  }

  lemma DivDiv(v: nat, p: nat)
    requires p > 0
    ensures v / 10 / p == v / (10 * p)
  {
    var q, r := v / 10 / p, v / 10 % p;
    assert v == 10 * (p * q + r) + v % 10 == (10 * p) * q + (10 * r + v % 10);
    DivIs(v, 10 * p, q, 10 * r + v % 10);
  }

  /** A place is blank exactly when the number ends to its right; the last place never is. */
  lemma {:induction false} PaddedBlank(v: nat, w: nat, k: nat)
    requires k < w
    ensures Padded(v, w)[k] == SPACE <==> k < w - 1 && v / Pow10(w - 1 - k) == 0
  {
    if k < w - 1 {
      DivDiv(v, Pow10(w - 2 - k));
      if v / 10 != 0 {
        PaddedBlank(v / 10, w - 1, k);
      }
    }
  }

  /** `[`, five places for the seconds, blank before their first digit, `.`, six digits, `]` and a
      blank. */
  lemma StampShape(ns: nat, k: nat)
    requires k < STAMP_BYTES
    ensures var b := Stamp(ns)[k];
            match k
            case 0 => b == '[' as int
            case 6 => b == '.' as int
            case 13 => b == ']' as int
            case 14 => b == ' ' as int
            case _ =>
              if 7 <= k then '0' as int <= b <= '9' as int
              else (b == ' ' as int <==> k < 5 && ns / 1_000_000_000 / Pow10(5 - k) == 0) && (b == ' ' as int || '0' as int <= b <= '9' as int)
  {
    var secs, micros := ns / 1_000_000_000, ns % 1_000_000_000 / 1000;
    if 1 <= k < 6 {
      PaddedBlank(secs, 5, k - 1);
      PaddedPlain(secs, 5, k - 1);
      assert Stamp(ns)[k] == Padded(secs, 5)[k - 1];
    } else if 7 <= k < 13 {
      DigitsPlain(micros, 6, k - 7);
      assert Stamp(ns)[k] == Digits(micros, 6)[k - 7];
    }
  }

  /** A stamp is one line: it has no line feed. */
  lemma {:induction false} PaddedPlain(v: nat, w: nat, k: nat)
    requires k < w
    ensures Padded(v, w)[k] == SPACE || ZERO <= Padded(v, w)[k] <= ZERO + 9
  {
    if k < w - 1 && v / 10 != 0 {
      PaddedPlain(v / 10, w - 1, k);
    }
  }

  lemma {:induction false} DigitsPlain(v: nat, w: nat, k: nat)
    requires k < w
    ensures ZERO <= Digits(v, w)[k] <= ZERO + 9
  {
    if k < w - 1 {
      DigitsPlain(v / 10, w - 1, k);
    }
  }

  lemma StampHasNoLineFeed(ns: nat)
    ensures 10 !in Stamp(ns)
  {
    var secs, micros := ns / 1_000_000_000, ns % 1_000_000_000 / 1000;
    forall k | 0 <= k < 5
      ensures Padded(secs, 5)[k] != 10
    {
      PaddedPlain(secs, 5, k);
    }
    forall k | 0 <= k < 6
      ensures Digits(micros, 6)[k] != 10
    {
      DigitsPlain(micros, 6, k);
    }
  }
}
