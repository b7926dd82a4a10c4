/** The strict-priority ready queue (kernel/src/sched.rs, `PriorityClass`): a two-level bitmap
    over 256 FIFOs, refining the plain array of FIFOs. */
module ReadyQueues {
  import opened Objects

  const PRIORITY_LEVELS := 256

  // ---- Machine words: naturals below 2^64, their bitwise operators bit by bit ----------

  function Pow2(k: nat): (r: nat)
    ensures r > 0
  {
    if k == 0 then 1 else 2 * Pow2(k - 1)
  }

  predicate Word(w: nat) {
    w < Pow2(64)
  }

  predicate Bit(w: nat, b: nat) {
    if b == 0 then w % 2 == 1 else Bit(w / 2, b - 1)
  }

  function Or(v: nat, w: nat): nat {
    if v == 0 then w else 2 * Or(v / 2, w / 2) + (if v % 2 == 1 || w % 2 == 1 then 1 else 0)
  }

  /** `v & !w`. */
  function AndNot(v: nat, w: nat): nat {
    if v == 0 then 0 else 2 * AndNot(v / 2, w / 2) + (if v % 2 == 1 && w % 2 == 0 then 1 else 0)
  }

  function TrailingZeros(w: nat): (r: nat)
    requires w != 0
    ensures Bit(w, r) && forall c :: 0 <= c < r ==> !Bit(w, c)
  {
    if w % 2 == 1 then 0 else TrailingZeros(w / 2) + 1
  }

  lemma ZeroBit(b: nat)
    ensures !Bit(0, b)
  {
  }

  lemma {:induction false} PowBit(k: nat, b: nat)
    ensures Bit(Pow2(k), b) <==> b == k
  {
    if k == 0 {
      if b != 0 {
        ZeroBit(b - 1);
      }
    } else if b != 0 {
      PowBit(k - 1, b - 1);
    }
  }

  lemma {:induction false} OrBit(v: nat, w: nat, b: nat)
    ensures Bit(Or(v, w), b) <==> Bit(v, b) || Bit(w, b)
    decreases b
  {
    if v == 0 {
      ZeroBit(b);
    } else if b > 0 {
      OrBit(v / 2, w / 2, b - 1);
    }
  }

  lemma {:induction false} AndNotBit(v: nat, w: nat, b: nat)
    ensures Bit(AndNot(v, w), b) <==> Bit(v, b) && !Bit(w, b)
    decreases b
  {
    if v == 0 {
      ZeroBit(b);
    } else if b > 0 {
      AndNotBit(v / 2, w / 2, b - 1);
    }
  }

  lemma {:induction false} BitsBelow(w: nat, k: nat)
    ensures w < Pow2(k) <==> forall b :: b >= k ==> !Bit(w, b)
    decreases k, w
  {
    if k > 0 {
      BitsBelow(w / 2, k - 1);
      if w < Pow2(k) {
        forall b | b >= k
          ensures !Bit(w, b)
        {
          assert !Bit(w / 2, b - 1);
        }
      } else {
        var c :| c >= k - 1 && Bit(w / 2, c);
        assert Bit(w, c + 1);
        assert exists b :: b >= k && Bit(w, b);
      }
    } else if w == 0 {
      forall b: nat
        ensures !Bit(w, b)
      {
        ZeroBit(b);
      }
    } else {
      var b := TrailingZeros(w);
      assert Bit(w, b);
      assert exists c :: c >= k && Bit(w, c);
    }
  }

  lemma SetBit(w: nat, k: nat, b: nat)
    ensures Bit(Or(w, Pow2(k)), b) <==> b == k || Bit(w, b)
  {
    OrBit(w, Pow2(k), b);
    PowBit(k, b);
  }

  lemma ClearBit(w: nat, k: nat, b: nat)
    ensures Bit(AndNot(w, Pow2(k)), b) <==> b != k && Bit(w, b)
  {
    AndNotBit(w, Pow2(k), b);
    PowBit(k, b);
  }

  lemma SetWord(w: nat, k: nat)
    requires Word(w) && k < 64
    ensures Word(Or(w, Pow2(k))) && Or(w, Pow2(k)) != 0
  {
    BitsBelow(w, 64);
    forall b | b >= 64
      ensures !Bit(Or(w, Pow2(k)), b)
    {
      SetBit(w, k, b);
    }
    BitsBelow(Or(w, Pow2(k)), 64);
    SetBit(w, k, k);
    ZeroBit(k);
  }

  lemma ClearWord(w: nat, k: nat)
    requires Word(w)
    ensures Word(AndNot(w, Pow2(k)))
  {
    BitsBelow(w, 64);
    forall b | b >= 64
      ensures !Bit(AndNot(w, Pow2(k)), b)
    {
      ClearBit(w, k, b);
    }
    BitsBelow(AndNot(w, Pow2(k)), 64);
  }

  lemma LowestInWord(w: nat)
    requires Word(w) && w != 0
    ensures TrailingZeros(w) < 64
  {
    BitsBelow(w, 64);
    assert forall b :: b >= 64 ==> !Bit(w, b);
    assert !Bit(w, TrailingZeros(w)) || TrailingZeros(w) < 64;
  }

  // ---- The plain array of FIFOs --------------------------------------------------------

  /** The most urgent level from `i` on with a thread in it. */
  function TopFrom(q: seq<seq<nat>>, i: nat): (r: Option<nat>)
    requires i <= |q|
    ensures r.Some? ==> i <= r.value < |q| && q[r.value] != [] && forall j :: i <= j < r.value ==> q[j] == []
    ensures r.None? ==> forall j :: i <= j < |q| ==> q[j] == []
    decreases |q| - i
  {
    if i == |q| then None else if q[i] != [] then Some(i) else TopFrom(q, i + 1)
  }

  function Top(q: seq<seq<nat>>): (r: Option<nat>)
    ensures r.Some? ==> r.value < |q| && q[r.value] != [] && forall j :: 0 <= j < r.value ==> q[j] == []
    ensures r.None? ==> forall j :: 0 <= j < |q| ==> q[j] == []
  {
    TopFrom(q, 0)
  }

  /** Being the lowest nonempty level determines `Top`. */
  lemma TopIs(q: seq<seq<nat>>, level: nat)
    requires level < |q| && q[level] != [] && forall j :: 0 <= j < level ==> q[j] == []
    ensures Top(q) == Some(level)
  {
    assert q[level] != [];
  }

  function Enqueued(q: seq<seq<nat>>, t: nat, prio: nat): seq<seq<nat>>
    requires prio < |q|
  {
    q[prio := q[prio] + [t]]
  }

  function FirstOf(s: seq<nat>, t: nat): (r: Option<nat>)
    ensures r.Some? ==> r.value < |s| && s[r.value] == t && t !in s[..r.value]
    ensures r.None? ==> t !in s
  {
    if s == [] then None
    else if s[0] == t then Some(0)
    else
      match FirstOf(s[1..], t)
      case None => None
      case Some(i) => Some(i + 1)
  }

  function Dequeued(q: seq<seq<nat>>, t: nat, prio: nat): seq<seq<nat>>
    requires prio < |q|
  {
    match FirstOf(q[prio], t)
    case None => q
    case Some(i) => q[prio := q[prio][..i] + q[prio][i + 1..]]
  }

  function Picked(q: seq<seq<nat>>): seq<seq<nat>> {
    match Top(q)
    case None => q
    case Some(level) => q[level := q[level][1..]]
  }

  function Total(q: seq<seq<nat>>): nat {
    if q == [] then 0 else |q[0]| + Total(q[1..])
  }

  lemma {:induction false} TotalUpdate(q: seq<seq<nat>>, i: nat, s: seq<nat>)
    requires i < |q|
    ensures Total(q[i := s]) == Total(q) - |q[i]| + |s|
  {
    var u := q[i := s];
    if i == 0 {
      assert u[1..] == q[1..];
    } else {
      TotalUpdate(q[1..], i - 1, s);
      assert u[1..] == q[1..][i - 1 := s];
    }
  }

  lemma {:induction false} TotalEmpty(q: seq<seq<nat>>)
    requires forall i :: 0 <= i < |q| ==> q[i] == []
    ensures Total(q) == 0
  {
    if q != [] {
      TotalEmpty(q[1..]);
    }
  }

  // ---- The bitmap ----------------------------------------------------------------------

  /** Bit `w` of the summary marks a nonzero word. */
  ghost predicate Summarises(summary: nat, words: seq<nat>)
    requires |words| == 4
  {
    && (forall w :: 0 <= w < 4 ==> (Bit(summary, w) <==> words[w] != 0))
    && (forall w :: w >= 4 ==> !Bit(summary, w))
  }

  /** Bit `b` of word `w` marks a nonempty level `64 * w + b`. */
  ghost predicate Marks(words: seq<nat>, q: seq<seq<nat>>)
    requires |words| == 4 && |q| == PRIORITY_LEVELS
  {
    && (forall w :: 0 <= w < 4 ==> Word(words[w]))
    && forall level :: 0 <= level < 256 ==> (Bit(words[level / 64], level % 64) <==> q[level] != [])
  }

  lemma TopLevelIs(summary: nat, words: seq<nat>, q: seq<seq<nat>>)
    requires |words| == 4 && |q| == PRIORITY_LEVELS && Summarises(summary, words) && Marks(words, q)
    ensures summary == 0 ==> Top(q) == None
    ensures summary != 0 ==>
              var w := TrailingZeros(summary);
              w < 4 && words[w] != 0 && Top(q) == Some(w * 64 + TrailingZeros(words[w]))
  {
    if summary == 0 {
      if Top(q).Some? {
        var level := Top(q).value;
        ZeroBit(level / 64);
        ZeroBit(level % 64);
      }
    } else {
      var w := TrailingZeros(summary);
      var b := TrailingZeros(words[w]);
      LowestInWord(words[w]);
      var level := w * 64 + b;
      assert level / 64 == w && level % 64 == b;
      forall j | 0 <= j < level
        ensures q[j] == []
      {
        if j / 64 < w {
          assert !Bit(summary, j / 64);
          ZeroBit(j % 64);
        } else {
          assert j / 64 == w && j % 64 < b;
        }
      }
      TopIs(q, level);
    }
  }

  lemma SetMarks(summary: nat, words: seq<nat>, q: seq<seq<nat>>, level: nat, s: seq<nat>)
    requires |words| == 4 && |q| == PRIORITY_LEVELS && Summarises(summary, words) && Marks(words, q)
    requires level < 256 && s != []
    ensures var w, b := level / 64, level % 64;
            var word := Or(words[w], Pow2(b));
            Summarises(Or(summary, Pow2(w)), words[w := word]) && Marks(words[w := word], q[level := s])
  {
    var w, b := level / 64, level % 64;
    var word := Or(words[w], Pow2(b));
    SetWord(words[w], b);
    forall v: nat
      ensures Bit(Or(summary, Pow2(w)), v) <==> v == w || Bit(summary, v)
    {
      SetBit(summary, w, v);
    }
    forall l | 0 <= l < 256
      ensures Bit(words[w := word][l / 64], l % 64) <==> q[level := s][l] != []
    {
      SetBit(words[w], b, l % 64);
    }
  }

  lemma ClearMarks(summary: nat, words: seq<nat>, q: seq<seq<nat>>, level: nat)
    requires |words| == 4 && |q| == PRIORITY_LEVELS && Summarises(summary, words) && Marks(words, q)
    requires level < 256
    ensures var w, b := level / 64, level % 64;
            var word := AndNot(words[w], Pow2(b));
            && Summarises(if word == 0 then AndNot(summary, Pow2(w)) else summary, words[w := word])
            && Marks(words[w := word], q[level := []])
  {
    var w, b := level / 64, level % 64;
    var word := AndNot(words[w], Pow2(b));
    forall v: nat
      ensures Bit(AndNot(summary, Pow2(w)), v) <==> v != w && Bit(summary, v)
    {
      ClearBit(summary, w, v);
    }
    ClearWord(words[w], b);
    if word != 0 {
      var c := TrailingZeros(word);
      ClearBit(words[w], b, c);
      ZeroBit(c);
    }
    forall l | 0 <= l < 256
      ensures Bit(words[w := word][l / 64], l % 64) <==> q[level := []][l] != []
    {
      ClearBit(words[w], b, l % 64);
    }
  }

  class PriorityClass {
    var summary: nat
    const words: array<nat>
    var queues: seq<seq<nat>>
    var len: nat

    ghost predicate Valid()
      reads this, words
    {
      && words.Length == 4 && |queues| == PRIORITY_LEVELS
      && Summarises(summary, words[..]) && Marks(words[..], queues)
      && len == Total(queues)
    }

    constructor ()
      ensures Valid() && fresh(words)
      ensures queues == seq(PRIORITY_LEVELS, i => [])
    {
      words := new nat[4](i => 0);
      summary := 0;
      queues := seq(PRIORITY_LEVELS, i => []);
      len := 0;
      new;
      assert forall w :: 0 <= w < 4 ==> words[..][w] == 0;
      forall b: nat
        ensures !Bit(0, b)
      {
        ZeroBit(b);
      }
      TotalEmpty(queues);
    }

    method MarkLevel(level: nat)
      requires words.Length == 4 && level < 256
      modifies this`summary, words
      ensures var w, b := level / 64, level % 64;
              words[..] == old(words[..])[w := Or(old(words[w]), Pow2(b))] && summary == Or(old(summary), Pow2(w))
    {
      var w, b := level / 64, level % 64;
      words[w] := Or(words[w], Pow2(b));
      summary := Or(summary, Pow2(w));
    }

    method UnmarkLevel(level: nat)
      requires words.Length == 4 && level < 256
      modifies this`summary, words
      ensures var w, b := level / 64, level % 64;
              var word := AndNot(old(words[w]), Pow2(b));
              && words[..] == old(words[..])[w := word]
              && summary == if word == 0 then AndNot(old(summary), Pow2(w)) else old(summary)
    {
      var w, b := level / 64, level % 64;
      words[w] := AndNot(words[w], Pow2(b));
      if words[w] == 0 {
        summary := AndNot(summary, Pow2(w));
      }
    }

    /** Two `trailing_zeros` find the most urgent nonempty level. */
    method TopLevel() returns (r: Option<nat>)
      requires Valid()
      ensures r == Top(queues)
    {
      TopLevelIs(summary, words[..], queues);
      if summary == 0 {
        return None;
      }
      var w := TrailingZeros(summary);
      var b := TrailingZeros(words[w]);
      return Some(w * 64 + b);
    }

    method PeekTop() returns (r: Option<nat>)
      requires Valid()
      ensures r == Top(queues)
    {
      r := TopLevel();
    }

    method IsEmpty() returns (r: bool)
      requires Valid()
      ensures r <==> len == 0
    {
      TopLevelIs(summary, words[..], queues);
      r := summary == 0;
      if r {
        TotalEmpty(queues);
      } else {
        var level := Top(queues).value;
        TotalUpdate(queues, level, []);
      }
    }

    method Enqueue(t: nat, prio: nat)
      requires Valid() && prio < 256
      modifies this, words
      ensures Valid() && queues == Enqueued(old(queues), t, prio)
    {
      SetMarks(summary, words[..], queues, prio, queues[prio] + [t]);
      TotalUpdate(queues, prio, queues[prio] + [t]);
      queues := queues[prio := queues[prio] + [t]];
      MarkLevel(prio);
      len := len + 1;
    }

    /** `VecDeque::iter().position`. */
    method FindIn(q: seq<nat>, t: nat) returns (r: Option<nat>)
      ensures r == FirstOf(q, t)
    {
      var i := 0;
      while i < |q|
        invariant 0 <= i <= |q|
        invariant FirstOf(q, t) == match FirstOf(q[i..], t) case None => None case Some(j) => Some(i + j)
      {
        if q[i] == t {
          return Some(i);
        }
        assert q[i..][1..] == q[i + 1..];
        i := i + 1;
      }
      return None;
    }

    method Dequeue(t: nat, prio: nat) returns (found: bool)
      requires Valid() && prio < 256
      modifies this, words
      ensures Valid() && queues == Dequeued(old(queues), t, prio) && (found <==> t in old(queues)[prio])
    {
      var position := FindIn(queues[prio], t);
      if position.None? {
        return false;
      }
      var i := position.value;
      var rest := queues[prio][..i] + queues[prio][i + 1..];
      Replace(prio, rest);
      len := len - 1;
      return true;
    }

    /** Put `rest` at a level that is not empty, and unmark the level if `rest` is. */
    method Replace(level: nat, rest: seq<nat>)
      requires Valid() && level < 256 && queues[level] != []
      modifies this`queues, this`summary, words
      ensures words.Length == 4 && queues == old(queues)[level := rest] && |queues| == PRIORITY_LEVELS
      ensures Summarises(summary, words[..]) && Marks(words[..], queues)
      ensures Total(queues) == len - |old(queues)[level]| + |rest|
    {
      TotalUpdate(queues, level, rest);
      ClearMarks(summary, words[..], queues, level);
      queues := queues[level := rest];
      if queues[level] == [] {
        UnmarkLevel(level);
      } else {
        MarksSame(words[..], old(queues), level, rest);
      }
    }

    method PickNext() returns (r: Option<nat>)
      requires Valid()
      modifies this, words
      ensures Valid() && queues == Picked(old(queues))
      ensures r == match Top(old(queues)) case None => None case Some(level) => Some(old(queues)[level][0])
    {
      var top := TopLevel();
      if top.None? {
        return None;
      }
      var level := top.value;
      r := Some(queues[level][0]);
      Replace(level, queues[level][1..]);
      len := len - 1;
    }
  }

  lemma MarksSame(words: seq<nat>, q: seq<seq<nat>>, level: nat, s: seq<nat>)
    requires |words| == 4 && |q| == PRIORITY_LEVELS && Marks(words, q)
    requires level < 256 && q[level] != [] && s != []
    ensures Marks(words, q[level := s])
  {
  }
}
