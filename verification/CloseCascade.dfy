/** What closing a channel endpoint does to the whole registry (kernel/src/ipc.rs,
    `close_by_koid`), for every registry in which strong counts are honest and lineages and
    ids agree; and exactly when its final reap takes an endpoint's last owner away. */
module CloseCascade {
  import opened Objects
  import opened Channels

  /** Each count is the owners outside the registry plus those queued in it. */
  ghost predicate Backed(cs: seq<Pair>, strong: Counts, outside: seq<nat>) {
    && |outside| == |strong|
    && forall l :: 0 <= l < |strong| ==> strong[l] == outside[l] + CountBags(PairBags(cs), l)
  }

  /** Queued entries own an endpoint's lineage exactly when they are channel capabilities
      naming that endpoint. */
  ghost predicate Tied(cs: seq<Pair>) {
    forall i, d, j, f, e :: 0 <= i < |cs| && 0 <= j < |cs| && e in Queued(cs[i].At(d).inbox) && cs[j].At(f).references.Some? ==>
      (e.reference == cs[j].At(f).references <==> e.entry.kind == Channel && e.entry.koid == cs[j].At(f).koid)
  }

  ghost predicate Tracked(cs: seq<Pair>, strong: Counts) {
    forall i, d :: 0 <= i < |cs| && cs[i].At(d).references.Some? ==> cs[i].At(d).references.value < |strong|
  }

  /** No closed endpoint holds a queued channel capability. */
  ghost predicate Quiet(cs: seq<Pair>) {
    forall i, d :: 0 <= i < |cs| && !cs[i].At(d).open ==> Carried(Queued(cs[i].At(d).inbox)) == []
  }

  ghost predicate Sound(cs: seq<Pair>, strong: Counts, outside: seq<nat>) {
    Unique(cs) && Backed(cs, strong, outside) && Tied(cs) && Tracked(cs, strong)
  }

  /** `k` was carried, as a channel capability, in the mailbox of an endpoint of `closed`. */
  ghost predicate CarriedBy(cs: seq<Pair>, closed: seq<nat>, k: nat) {
    exists i, d, e :: 0 <= i < |cs| && cs[i].At(d).koid in closed && e in Queued(cs[i].At(d).inbox)
                      && e.entry.kind == Channel && e.entry.koid == k
  }

  /** The peers to signal, read off the initial registry and the order of closing alone: the
      peer of each closed endpoint that was open and not closed earlier in this call. */
  ghost function PeerSignals(cs: seq<Pair>, closed: seq<nat>): seq<nat> {
    if closed == [] then []
    else
      var before := closed[..|closed| - 1];
      PeerSignals(cs, before) +
      match Locate(cs, closed[|closed| - 1])
      case None => []
      case Some((i, d)) =>
        var peer := cs[i].At(Peer(d));
        if peer.open && peer.koid !in before then [peer.koid] else []
  }

  /** How an endpoint looks once it is among `closed`. */
  function After(e: Endpoint, closed: seq<nat>): Endpoint {
    if e.koid in closed then e.(open := false, inbox := []) else e
  }

  // The loop invariant of the cascade started by closing the unowned endpoint `arg` of the
  // registry `cs`, in five parts.

  /** Exactly the endpoints of `closed` changed, to closed and empty. */
  ghost predicate Looks(cs: seq<Pair>, s: Closing) {
    |s.channels| == |cs| && forall i, d :: 0 <= i < |cs| ==> s.channels[i].At(d) == After(cs[i].At(d), s.closed)
  }

  /** Counts are honest and only fell. */
  ghost predicate Counted(strong: Counts, outside: seq<nat>, s: Closing) {
    && Backed(s.channels, s.strong, outside)
    && |s.strong| == |strong| && (forall l :: 0 <= l < |strong| ==> s.strong[l] <= strong[l])
  }

  /** An endpoint that lost its last owner and is still open is on the worklist. `due` is an
      id just popped and not yet judged (-1 for none). */
  ghost predicate Listed(cs: seq<Pair>, strong: Counts, s: Closing, due: int) {
    forall i, d :: 0 <= i < |cs| && cs[i].At(d).open && cs[i].At(d).koid !in s.closed && Owned(strong, cs[i].At(d)) && !Owned(s.strong, cs[i].At(d))
      ==> cs[i].At(d).koid in s.carried || cs[i].At(d).koid == due
  }

  /** A closed endpoint has no owner, and lost its last one during this call unless it is
      the one the call is about. */
  ghost predicate Judged(cs: seq<Pair>, strong: Counts, arg: nat, s: Closing) {
    forall i, d :: 0 <= i < |cs| && cs[i].At(d).koid in s.closed ==>
      && LastOwner(s.strong, cs[i].At(d))
      && (cs[i].At(d).koid == arg || (cs[i].At(d).open && Owned(strong, cs[i].At(d))))
  }

  /** Nothing is closed twice, and each endpoint was carried by one closed before it. */
  ghost predicate Chained(cs: seq<Pair>, arg: nat, closed: seq<nat>) {
    && (closed != [] ==> closed[0] == arg)
    && (forall i, j :: 0 <= i < j < |closed| ==> closed[i] != closed[j])
    && (forall j :: 0 < j < |closed| ==> CarriedBy(cs, closed[..j], closed[j]))
  }

  ghost predicate Traced(cs: seq<Pair>, arg: nat, s: Closing) {
    && Chained(cs, arg, s.closed)
    && (forall k :: k in s.carried ==> CarriedBy(cs, s.closed, k))
    && s.signals == PeerSignals(cs, s.closed)
  }

  ghost predicate Going(cs: seq<Pair>, strong: Counts, outside: seq<nat>, arg: nat, s: Closing, due: int) {
    Looks(cs, s) && Counted(strong, outside, s) && Listed(cs, strong, s, due) && Judged(cs, strong, arg, s) && Traced(cs, arg, s)
  }

  /** Dropping a mailbox lowers a lineage only by its queued owners, so the counts stay
      honest and no count rises. */
  lemma DrainBacked(cs: seq<Pair>, strong: Counts, outside: seq<nat>, i: nat, d: End, e: Endpoint)
    requires Backed(cs, strong, outside) && i < |cs| && e.inbox == []
    ensures Backed(cs[i := cs[i].With(d, e)], Release(strong, Queued(cs[i].At(d).inbox)), outside)
    ensures forall l :: 0 <= l < |strong| ==> Release(strong, Queued(cs[i].At(d).inbox))[l] <= strong[l]
  {
    var u := cs[i := cs[i].With(d, e)];
    var r := Release(strong, Queued(cs[i].At(d).inbox));
    forall l | 0 <= l < |strong|
      ensures r[l] == outside[l] + CountBags(PairBags(u), l)
    {
      BagUpdate(cs, i, cs[i].With(d, e), l);
      BagCount(cs[i], d, l);
      BagCount(cs[i].With(d, e), d, l);
    }
  }

  /** An endpoint that loses its last owner when a mailbox is dropped was carried in it. */
  lemma LostWasCarried(cs: seq<Pair>, strong: Counts, i: nat, d: End, j: nat, f: End)
    requires Tied(cs) && i < |cs| && j < |cs|
    requires Owned(strong, cs[j].At(f)) && !Owned(Release(strong, Queued(cs[i].At(d).inbox)), cs[j].At(f))
    ensures cs[j].At(f).koid in Carried(Queued(cs[i].At(d).inbox))
  {
    var l := cs[j].At(f).references.value;
    var e := CountWitness(Queued(cs[i].At(d).inbox), l);
    CarriedHas(Queued(cs[i].At(d).inbox), e);
  }

  lemma StartGoing(cs: seq<Pair>, strong: Counts, outside: seq<nat>, arg: nat)
    requires Backed(cs, strong, outside)
    ensures Going(cs, strong, outside, arg, Closing(cs, strong, [], [], []), -1)
  {
  }

  lemma CarriedByMore(cs: seq<Pair>, closed: seq<nat>, more: seq<nat>, k: nat)
    requires CarriedBy(cs, closed, k) && closed <= more
    ensures CarriedBy(cs, more, k)
  {
    var i, d, e :| 0 <= i < |cs| && cs[i].At(d).koid in closed && e in Queued(cs[i].At(d).inbox)
                   && e.entry.kind == Channel && e.entry.koid == k;
    assert cs[i].At(d).koid in more;
  }

  /** The endpoint at `(i, d)` of `cs` is next to be closed. */
  ghost predicate Next(cs: seq<Pair>, strong: Counts, arg: nat, s: Closing, i: nat, d: End) {
    && i < |cs| && LastOwner(s.strong, cs[i].At(d)) && cs[i].At(d).koid !in s.closed
    && if s.closed == [] then cs[i].At(d).koid == arg
       else cs[i].At(d).open && Owned(strong, cs[i].At(d)) && CarriedBy(cs, s.closed, cs[i].At(d).koid)
  }

  lemma CloseEndLooks(cs: seq<Pair>, s: Closing, i: nat, d: End)
    requires Unique(cs) && Looks(cs, s) && i < |cs| && cs[i].At(d).koid !in s.closed
    requires LastOwner(s.strong, cs[i].At(d))
    ensures Looks(cs, CloseEnd(s, i, d))
  {
    var t := CloseEnd(s, i, d);
    forall j, f | 0 <= j < |cs|
      ensures t.channels[j].At(f) == After(cs[j].At(f), t.closed)
    {
      assert s.channels[j].At(f) == After(cs[j].At(f), s.closed);
      if (j, f) != (i, d) {
        assert cs[j].At(f).koid != cs[i].At(d).koid;
        assert t.channels[j].At(f) == s.channels[j].At(f);
      }
    }
  }

  lemma CloseEndCounted(cs: seq<Pair>, strong: Counts, outside: seq<nat>, s: Closing, i: nat, d: End)
    requires Looks(cs, s) && Counted(strong, outside, s) && i < |cs| && cs[i].At(d).koid !in s.closed
    requires LastOwner(s.strong, cs[i].At(d))
    ensures Counted(strong, outside, CloseEnd(s, i, d))
  {
    var e := s.channels[i].At(d);
    assert e == After(cs[i].At(d), s.closed);
    DrainBacked(s.channels, s.strong, outside, i, d, e.(open := false, inbox := []));
  }

  /** Endpoints that lose their last owner in this turn are on the worklist after it. */
  lemma CloseEndListed(cs: seq<Pair>, strong: Counts, s: Closing, i: nat, d: End)
    requires Unique(cs) && Tied(cs) && Looks(cs, s) && i < |cs| && cs[i].At(d).koid !in s.closed
    requires LastOwner(s.strong, cs[i].At(d)) && Listed(cs, strong, s, cs[i].At(d).koid)
    ensures Listed(cs, strong, CloseEnd(s, i, d), -1)
  {
    var t := CloseEnd(s, i, d);
    assert s.channels[i].At(d) == cs[i].At(d);
    forall j, f | 0 <= j < |cs| && cs[j].At(f).open && cs[j].At(f).koid !in t.closed && Owned(strong, cs[j].At(f)) && !Owned(t.strong, cs[j].At(f))
      ensures cs[j].At(f).koid in t.carried
    {
      assert cs[j].At(f).koid !in s.closed;
      assert cs[j].At(f).koid != cs[i].At(d).koid;
      if Owned(s.strong, cs[j].At(f)) {
        LostWasCarried(cs, s.strong, i, d, j, f);
      }
    }
  }

  lemma CloseEndJudged(cs: seq<Pair>, strong: Counts, outside: seq<nat>, arg: nat, s: Closing, i: nat, d: End)
    requires Unique(cs) && Tracked(cs, strong) && Looks(cs, s) && Judged(cs, strong, arg, s) && Next(cs, strong, arg, s, i, d)
    requires Counted(strong, outside, s) && Counted(strong, outside, CloseEnd(s, i, d))
    ensures Judged(cs, strong, arg, CloseEnd(s, i, d))
  {
    var t := CloseEnd(s, i, d);
    forall j, f | 0 <= j < |cs| && cs[j].At(f).koid in t.closed
      ensures LastOwner(t.strong, cs[j].At(f))
      ensures cs[j].At(f).koid == arg || (cs[j].At(f).open && Owned(strong, cs[j].At(f)))
    {
      var l := cs[j].At(f).references.value;
      assert LastOwner(s.strong, cs[j].At(f));
      assert 0 <= t.strong[l] <= s.strong[l];
    }
  }

  lemma ChainedMore(cs: seq<Pair>, arg: nat, closed: seq<nat>, k: nat)
    requires Chained(cs, arg, closed) && k !in closed
    requires if closed == [] then k == arg else CarriedBy(cs, closed, k)
    ensures Chained(cs, arg, closed + [k])
  {
    var more := closed + [k];
    assert closed[..|closed|] == closed;
    forall j | 0 < j < |more|
      ensures CarriedBy(cs, more[..j], more[j])
    {
      assert more[..j] == closed[..j];
    }
  }

  /** The worklist after a close holds only ids carried by closed endpoints. */
  lemma CarriedAfter(cs: seq<Pair>, s: Closing, i: nat, d: End)
    requires i < |cs| && forall k :: k in s.carried ==> CarriedBy(cs, s.closed, k)
    ensures forall k :: k in s.carried + Carried(Queued(cs[i].At(d).inbox)) ==> CarriedBy(cs, s.closed + [cs[i].At(d).koid], k)
  {
    var closed := s.closed + [cs[i].At(d).koid];
    forall k | k in s.carried + Carried(Queued(cs[i].At(d).inbox))
      ensures CarriedBy(cs, closed, k)
    {
      if k in s.carried {
        CarriedByMore(cs, s.closed, closed, k);
      } else {
        var w := CarriedFrom(Queued(cs[i].At(d).inbox), k);
        assert cs[i].At(d).koid in closed;
      }
    }
  }

  lemma CloseEndTraced(cs: seq<Pair>, strong: Counts, arg: nat, s: Closing, i: nat, d: End)
    requires Unique(cs) && Looks(cs, s) && Traced(cs, arg, s) && Next(cs, strong, arg, s, i, d)
    ensures Traced(cs, arg, CloseEnd(s, i, d))
  {
    var t := CloseEnd(s, i, d);
    assert s.channels[i].At(d) == cs[i].At(d) && s.channels[i].At(Peer(d)) == After(cs[i].At(Peer(d)), s.closed);
    ChainedMore(cs, arg, s.closed, cs[i].At(d).koid);
    CarriedAfter(cs, s, i, d);
    assert t.signals == PeerSignals(cs, t.closed) by {
      LocateAt(cs, i, d);
      assert t.closed[..|t.closed| - 1] == s.closed;
    }
  }

  /** Closing the next endpoint keeps the invariant. */
  lemma CloseEndGoing(cs: seq<Pair>, strong: Counts, outside: seq<nat>, arg: nat, s: Closing, i: nat, d: End)
    requires Sound(cs, strong, outside) && Next(cs, strong, arg, s, i, d)
    requires Going(cs, strong, outside, arg, s, cs[i].At(d).koid)
    ensures Going(cs, strong, outside, arg, CloseEnd(s, i, d), -1)
  {
    CloseEndLooks(cs, s, i, d);
    CloseEndCounted(cs, strong, outside, s, i, d);
    CloseEndListed(cs, strong, s, i, d);
    CloseEndJudged(cs, strong, outside, arg, s, i, d);
    CloseEndTraced(cs, strong, arg, s, i, d);
  }

  /** A carried endpoint with an observer had an owner when the call began: the queued
      capability itself. */
  lemma CarriedWasOwned(cs: seq<Pair>, strong: Counts, outside: seq<nat>, closed: seq<nat>, i: nat, d: End)
    requires Sound(cs, strong, outside) && i < |cs| && cs[i].At(d).references.Some?
    requires CarriedBy(cs, closed, cs[i].At(d).koid)
    ensures Owned(strong, cs[i].At(d))
  {
    var j, f, e :| 0 <= j < |cs| && cs[j].At(f).koid in closed && e in Queued(cs[j].At(f).inbox)
                   && e.entry.kind == Channel && e.entry.koid == cs[i].At(d).koid;
    var l := cs[i].At(d).references.value;
    assert e.reference == Some(l);
    QueuedCounts(cs, j, f, e, l);
  }

  /** The state with its last worklist id popped. */
  function Popped(s: Closing): Closing
    requires s.carried != []
  {
    s.(carried := s.carried[..|s.carried| - 1])
  }

  lemma PopGoing(cs: seq<Pair>, strong: Counts, outside: seq<nat>, arg: nat, s: Closing)
    requires Going(cs, strong, outside, arg, s, -1) && s.carried != []
    ensures Going(cs, strong, outside, arg, Popped(s), s.carried[|s.carried| - 1])
  {
    PopListed(cs, strong, s);
    PopTraced(cs, arg, s);
  }

  lemma PopListed(cs: seq<Pair>, strong: Counts, s: Closing)
    requires Listed(cs, strong, s, -1) && s.carried != []
    ensures Listed(cs, strong, Popped(s), s.carried[|s.carried| - 1])
  {
    assert s.carried == Popped(s).carried + [s.carried[|s.carried| - 1]];
  }

  lemma PopTraced(cs: seq<Pair>, arg: nat, s: Closing)
    requires Traced(cs, arg, s) && s.carried != []
    ensures Traced(cs, arg, Popped(s))
  {
  }

  /** A popped id whose endpoint is gone, closed or still owned needs nothing. */
  lemma SkipGoing(cs: seq<Pair>, strong: Counts, outside: seq<nat>, arg: nat, s: Closing, due: nat)
    requires Going(cs, strong, outside, arg, s, due)
    requires forall i, d :: 0 <= i < |cs| && cs[i].At(d).koid == due ==>
                              !cs[i].At(d).open || due in s.closed || !LastOwner(s.strong, cs[i].At(d))
    ensures Going(cs, strong, outside, arg, s, -1)
  {
  }

  lemma StepGoing(cs: seq<Pair>, strong: Counts, outside: seq<nat>, arg: nat, s: Closing)
    requires Sound(cs, strong, outside) && Going(cs, strong, outside, arg, s, -1)
    requires s.carried != [] && s.closed != []
    ensures Going(cs, strong, outside, arg, CascadeStep(s), -1)
    ensures s.closed <= CascadeStep(s).closed
  {
    var k := s.carried[|s.carried| - 1];
    PopGoing(cs, strong, outside, arg, s);
    SameShape(cs, s);
    match Locate(s.channels, k)
    case None =>
      SkipGoing(cs, strong, outside, arg, Popped(s), k);
    case Some((i, d)) =>
      assert s.channels[i].At(d) == After(cs[i].At(d), s.closed);
      if s.channels[i].At(d).open && LastOwner(s.strong, s.channels[i].At(d)) {
        CarriedWasOwned(cs, strong, outside, s.closed, i, d);
        CloseEndGoing(cs, strong, outside, arg, Popped(s), i, d);
      } else {
        SkipGoing(cs, strong, outside, arg, Popped(s), k);
      }
  }

  /** Closing endpoints leaves every id where it was. */
  lemma SameShape(cs: seq<Pair>, s: Closing)
    requires Looks(cs, s)
    ensures forall i, d :: 0 <= i < |cs| ==> s.channels[i].At(d).koid == cs[i].At(d).koid
    ensures forall i, d :: 0 <= i < |cs| ==> s.channels[i].At(d).references == cs[i].At(d).references
    ensures Unique(cs) ==> Unique(s.channels)
  {
    forall i, d | 0 <= i < |cs|
      ensures s.channels[i].At(d).koid == cs[i].At(d).koid && s.channels[i].At(d).references == cs[i].At(d).references
    {
      assert s.channels[i].At(d) == After(cs[i].At(d), s.closed);
    }
  }

  lemma CascadeGoing(cs: seq<Pair>, strong: Counts, outside: seq<nat>, arg: nat, s: Closing)
    requires Sound(cs, strong, outside) && Going(cs, strong, outside, arg, s, -1) && s.closed != []
    ensures Going(cs, strong, outside, arg, Cascade(s), -1)
    ensures Cascade(s).carried == [] && s.closed <= Cascade(s).closed
    decreases Pending(s.channels) + |s.carried|
  {
    if s.carried != [] {
      CascadeStepMeasure(s);
      StepGoing(cs, strong, outside, arg, s);
      CascadeGoing(cs, strong, outside, arg, CascadeStep(s));
    }
  }

  // ---- The cascade, exactly ------------------------------------------------------------

  /** What the cascade made of endpoint `e`: untouched unless closed; closed and emptied
      when its last owner is gone; closed with its mailbox kept otherwise. */
  function Settled(e: Endpoint, s: Closing): Endpoint {
    if e.koid !in s.closed then e
    else if LastOwner(s.strong, e) then e.(open := false, inbox := [])
    else e.(open := false)
  }

  ghost predicate AllSettled(cs: seq<Pair>, s: Closing) {
    |s.channels| == |cs| && forall i, d :: 0 <= i < |cs| ==> s.channels[i].At(d) == Settled(cs[i].At(d), s)
  }

  /** An endpoint was closed iff it is the one at `(a, b)`, or it was open, had an owner
      before the call and has none now. */
  ghost predicate ClosedExactly(cs: seq<Pair>, strong: Counts, a: nat, b: End, s: Closing) {
    forall i, d :: 0 <= i < |cs| ==>
      (cs[i].At(d).koid in s.closed <==>
       (i, d) == (a, b) || (cs[i].At(d).open && Owned(strong, cs[i].At(d)) && LastOwner(s.strong, cs[i].At(d))))
  }

  ghost predicate OnlyFell(strong: Counts, now: Counts) {
    |now| == |strong| && forall l :: 0 <= l < |strong| ==> now[l] <= strong[l]
  }

  /** Closing an endpoint closes it and exactly those open endpoints that lost their last
      owner on the way, each carried by one closed before it; every other endpoint keeps its
      flag and its mailbox; the peers to signal are those still open at their turn. */
  lemma CascadeExact(cs: seq<Pair>, strong: Counts, outside: seq<nat>, a: nat, b: End)
    requires Sound(cs, strong, outside) && a < |cs|
    ensures var s := Cascaded(cs, strong, a, b);
            && AllSettled(cs, s)
            && ClosedExactly(cs, strong, a, b, s)
            && Chained(cs, cs[a].At(b).koid, s.closed)
            && s.signals == PeerSignals(cs, s.closed)
            && Backed(s.channels, s.strong, outside)
            && OnlyFell(strong, s.strong)
  {
    var start := Closing(cs, strong, [], [], []);
    var arg := cs[a].At(b).koid;
    if LastOwner(strong, cs[a].At(b)) {
      StartGoing(cs, strong, outside, arg);
      assert Listed(cs, strong, start, arg);
      CloseEndGoing(cs, strong, outside, arg, start, a, b);
      CascadeGoing(cs, strong, outside, arg, CloseEnd(start, a, b));
      Exactly(cs, strong, outside, a, b, Cascaded(cs, strong, a, b));
    } else {
      SingleClose(cs, strong, outside, a, b);
    }
  }

  lemma Exactly(cs: seq<Pair>, strong: Counts, outside: seq<nat>, a: nat, b: End, s: Closing)
    requires Sound(cs, strong, outside) && a < |cs|
    requires Going(cs, strong, outside, cs[a].At(b).koid, s, -1) && s.carried == [] && s.closed != []
    ensures AllSettled(cs, s) && ClosedExactly(cs, strong, a, b, s)
  {
    forall i, d | 0 <= i < |cs|
      ensures s.channels[i].At(d) == Settled(cs[i].At(d), s)
      ensures cs[i].At(d).koid in s.closed <==>
              (i, d) == (a, b) || (cs[i].At(d).open && Owned(strong, cs[i].At(d)) && LastOwner(s.strong, cs[i].At(d)))
    {
      assert s.channels[i].At(d) == After(cs[i].At(d), s.closed);
      assert cs[a].At(b).koid in s.closed;
    }
  }

  /** Closing a handle of an endpoint that has other owners only clears its open flag. */
  lemma SingleClose(cs: seq<Pair>, strong: Counts, outside: seq<nat>, a: nat, b: End)
    requires Sound(cs, strong, outside) && a < |cs| && !LastOwner(strong, cs[a].At(b))
    ensures var s := Cascaded(cs, strong, a, b);
            && s.strong == strong && s.closed == [cs[a].At(b).koid]
            && AllSettled(cs, s)
            && ClosedExactly(cs, strong, a, b, s)
            && Chained(cs, cs[a].At(b).koid, s.closed)
            && s.signals == PeerSignals(cs, s.closed)
            && Backed(s.channels, s.strong, outside)
            && OnlyFell(strong, s.strong)
  {
    SingleStep(cs, strong, a, b);
    var s := Cascaded(cs, strong, a, b);
    SingleSettled(cs, a, b, s);
    SingleSignals(cs, a, b, s);
    FlagKeepsBacked(cs, strong, outside, a, s.channels[a]);
  }

  lemma SingleStep(cs: seq<Pair>, strong: Counts, a: nat, b: End)
    requires a < |cs| && !LastOwner(strong, cs[a].At(b))
    ensures var s := Cascaded(cs, strong, a, b);
            && s.strong == strong && s.closed == [cs[a].At(b).koid] && s.carried == []
            && s.channels == cs[a := cs[a].With(b, cs[a].At(b).(open := false))]
            && s.signals == (if cs[a].At(Peer(b)).open then [cs[a].At(Peer(b)).koid] else [])
  {
    RetainRelease(strong, []);
    var s := CloseEnd(Closing(cs, strong, [], [], []), a, b);
    assert s.carried == [];
  }

  lemma SingleSettled(cs: seq<Pair>, a: nat, b: End, s: Closing)
    requires Unique(cs) && a < |cs| && !LastOwner(s.strong, cs[a].At(b)) && s.closed == [cs[a].At(b).koid]
    requires s.channels == cs[a := cs[a].With(b, cs[a].At(b).(open := false))]
    ensures AllSettled(cs, s)
    ensures ClosedExactly(cs, s.strong, a, b, s)
  {
    forall i, d | 0 <= i < |cs|
      ensures s.channels[i].At(d) == Settled(cs[i].At(d), s)
    {
      assert (i, d) != (a, b) ==> cs[i].At(d).koid != cs[a].At(b).koid;
    }
  }

  lemma SingleSignals(cs: seq<Pair>, a: nat, b: End, s: Closing)
    requires Unique(cs) && a < |cs| && s.closed == [cs[a].At(b).koid]
    requires s.signals == if cs[a].At(Peer(b)).open then [cs[a].At(Peer(b)).koid] else []
    ensures s.signals == PeerSignals(cs, s.closed)
  {
    LocateAt(cs, a, b);
    assert s.closed[..0] == [];
  }

  /** Backing depends on mailboxes only, not on open flags. */
  lemma FlagKeepsBacked(cs: seq<Pair>, strong: Counts, outside: seq<nat>, i: nat, p: Pair)
    requires Backed(cs, strong, outside) && i < |cs|
    requires p.left.inbox == cs[i].left.inbox && p.right.inbox == cs[i].right.inbox
    ensures Backed(cs[i := p], strong, outside)
  {
    assert PairBags(cs[i := p]) == PairBags(cs);
  }

  // ---- The reap ------------------------------------------------------------------------

  function Kept(cs: seq<Pair>, strong: Counts): seq<Pair> {
    if cs == [] then []
    else (if Dead(strong, cs[0]) then [] else [cs[0]]) + Kept(cs[1..], strong)
  }

  /** Two counts that agree on which endpoints of `cs` have an owner. */
  ghost predicate Agree(cs: seq<Pair>, x: Counts, y: Counts) {
    forall i, d :: 0 <= i < |cs| ==> (LastOwner(x, cs[i].At(d)) <==> LastOwner(y, cs[i].At(d)))
  }

  /** Owners of lineage `l` queued in the pairs that are dead by the counts `strong`. */
  function DeadOwners(cs: seq<Pair>, strong: Counts, l: nat): nat {
    if cs == [] then 0
    else (if Dead(strong, cs[0]) then Count(Bag(cs[0]), l) else 0) + DeadOwners(cs[1..], strong, l)
  }

  /** Every owned endpoint has an owner that is not queued in a dead pair. */
  ghost predicate Spares(cs: seq<Pair>, strong: Counts) {
    forall i, d :: 0 <= i < |cs| && Owned(strong, cs[i].At(d)) ==>
      DeadOwners(cs, strong, cs[i].At(d).references.value) < strong[cs[i].At(d).references.value]
  }

  /** The counts cover everything queued, so none is negative. */
  ghost predicate Covers(cs: seq<Pair>, strong: Counts) {
    forall l :: 0 <= l < |strong| ==> CountBags(PairBags(cs), l) <= strong[l]
  }

  lemma CoversWithout(cs: seq<Pair>, strong: Counts, i: nat)
    requires Covers(cs, strong) && i < |cs|
    ensures Covers(cs[..i] + cs[i + 1..], Release(strong, Bag(cs[i])))
  {
    forall l | 0 <= l < |strong|
      ensures CountBags(PairBags(cs[..i] + cs[i + 1..]), l) <= Release(strong, Bag(cs[i]))[l]
    {
      BagRemove(cs, i, l);
    }
  }

  lemma {:induction false} DeadOwnersQueued(cs: seq<Pair>, strong: Counts, l: nat)
    ensures DeadOwners(cs, strong, l) <= CountBags(PairBags(cs), l)
  {
    if cs != [] {
      DeadOwnersQueued(cs[1..], strong, l);
      assert PairBags(cs)[1..] == PairBags(cs[1..]);
    }
  }

  lemma DeadStays(strong: Counts, now: Counts, p: Pair)
    requires OnlyFell(strong, now) && Dead(strong, p) && forall l :: 0 <= l < |now| ==> now[l] >= 0
    ensures Dead(now, p)
  {
    assert forall d :: LastOwner(strong, p.At(d)) ==> LastOwner(now, p.At(d));
    assert LastOwner(strong, p.At(Left)) && LastOwner(strong, p.At(Right));
  }

  /** The reap takes at least the owners queued in the pairs that were dead to begin with, and
      counts only fall. */
  lemma {:induction false} ReapTakes(cs: seq<Pair>, strong: Counts, now: Counts, i: nat, l: nat)
    requires OnlyFell(strong, now) && Covers(cs, now) && i <= |cs| && l < |strong|
    ensures |Reap(cs, now, i).1| == |strong| && 0 <= Reap(cs, now, i).1[l] <= now[l] - DeadOwners(cs[i..], strong, l)
    decreases |cs| - i
  {
    if i < |cs| {
      assert cs[i..][1..] == cs[i + 1..];
      if Dead(now, cs[i]) {
        var u := cs[..i] + cs[i + 1..];
        assert u[i..] == cs[i + 1..];
        CoversWithout(cs, now, i);
        ReapTakes(u, strong, Release(now, Bag(cs[i])), i, l);
      } else {
        if Dead(strong, cs[i]) {
          DeadStays(strong, now, cs[i]);
        }
        ReapTakes(cs, strong, now, i + 1, l);
      }
    }
  }

  /** `now` is what `strong` becomes once the dead pairs of `all` ahead of `rest` are gone. */
  ghost predicate Ahead(all: seq<Pair>, strong: Counts, rest: seq<Pair>, now: Counts) {
    && |now| == |strong|
    && (forall l :: 0 <= l < |strong| ==> now[l] - DeadOwners(rest, strong, l) == strong[l] - DeadOwners(all, strong, l))
    && (forall l :: 0 <= l < |strong| ==> DeadOwners(all, strong, l) <= strong[l] && now[l] <= strong[l])
    && (forall p :: p in rest ==> p in all)
  }

  /** While every owned endpoint is spared, the dead pairs are those of the start. */
  lemma SparedSame(all: seq<Pair>, strong: Counts, rest: seq<Pair>, now: Counts)
    requires Spares(all, strong) && Ahead(all, strong, rest, now)
    ensures Agree(all, strong, now)
  {
    forall i, d | 0 <= i < |all|
      ensures LastOwner(strong, all[i].At(d)) <==> LastOwner(now, all[i].At(d))
    {
      if all[i].At(d).references.Some? && all[i].At(d).references.value < |strong| {
        var l := all[i].At(d).references.value;
        assert now[l] == strong[l] - DeadOwners(all, strong, l) + DeadOwners(rest, strong, l);
      }
    }
  }

  lemma AgreeOnDead(all: seq<Pair>, x: Counts, y: Counts, i: nat)
    requires Agree(all, x, y) && i < |all|
    ensures Dead(x, all[i]) <==> Dead(y, all[i])
  {
    assert LastOwner(x, all[i].At(Left)) <==> LastOwner(y, all[i].At(Left));
    assert LastOwner(x, all[i].At(Right)) <==> LastOwner(y, all[i].At(Right));
  }

  lemma DeadAsBefore(all: seq<Pair>, strong: Counts, rest: seq<Pair>, now: Counts)
    requires Spares(all, strong) && Ahead(all, strong, rest, now) && rest != []
    ensures Dead(now, rest[0]) <==> Dead(strong, rest[0])
  {
    SparedSame(all, strong, rest, now);
    assert rest[0] in all;
    var j :| 0 <= j < |all| && all[j] == rest[0];
    AgreeOnDead(all, strong, now, j);
  }

  lemma AheadNext(all: seq<Pair>, strong: Counts, rest: seq<Pair>, now: Counts)
    requires Ahead(all, strong, rest, now) && rest != []
    ensures Dead(strong, rest[0]) ==> Ahead(all, strong, rest[1..], Release(now, Bag(rest[0])))
    ensures !Dead(strong, rest[0]) ==> Ahead(all, strong, rest[1..], now)
  {
  }

  lemma PrefixSuffix(cs: seq<Pair>, i: nat)
    requires i < |cs|
    ensures cs[..i + 1] == cs[..i] + [cs[i]]
    ensures var u := cs[..i] + cs[i + 1..]; u[i..] == cs[i + 1..] && u[..i] == cs[..i]
  {
  }

  /** Then the reap is the filter that drops the dead pairs, whatever their order. */
  lemma {:induction false} ReapFilters(all: seq<Pair>, strong: Counts, cs: seq<Pair>, now: Counts, i: nat)
    requires Spares(all, strong) && i <= |cs| && Ahead(all, strong, cs[i..], now)
    ensures Reap(cs, now, i).0 == cs[..i] + Kept(cs[i..], strong)
    ensures Ahead(all, strong, [], Reap(cs, now, i).1)
    decreases |cs| - i
  {
    if i == |cs| {
      assert cs[..i] == cs;
    } else {
      var rest := cs[i..];
      assert rest[0] == cs[i] && rest[1..] == cs[i + 1..];
      DeadAsBefore(all, strong, rest, now);
      AheadNext(all, strong, rest, now);
      PrefixSuffix(cs, i);
      if Dead(now, cs[i]) {
        var u := cs[..i] + cs[i + 1..];
        ReapFilters(all, strong, u, Release(now, Bag(cs[i])), i);
      } else {
        ReapFilters(all, strong, cs, now, i + 1);
      }
    }
  }

  lemma StartsAhead(cs: seq<Pair>, strong: Counts)
    requires Covers(cs, strong)
    ensures Ahead(cs, strong, cs, strong)
  {
    forall l | 0 <= l < |strong|
      ensures DeadOwners(cs, strong, l) <= strong[l]
    {
      DeadOwnersQueued(cs, strong, l);
    }
  }

  /** The reap takes no endpoint's last owner away exactly when every owned endpoint has an
      owner that is not queued in a dead pair; it is then the plain filter. */
  lemma ReapOrphansIff(cs: seq<Pair>, strong: Counts)
    requires Covers(cs, strong)
    ensures Agree(cs, strong, Reap(cs, strong, 0).1) <==> Spares(cs, strong)
    ensures Spares(cs, strong) ==> Reap(cs, strong, 0).0 == Kept(cs, strong)
  {
    assert cs[0..] == cs;
    if Spares(cs, strong) {
      StartsAhead(cs, strong);
      ReapFilters(cs, strong, cs, strong, 0);
      SparedSame(cs, strong, [], Reap(cs, strong, 0).1);
    } else {
      var i, d :| 0 <= i < |cs| && Owned(strong, cs[i].At(d)) &&
        DeadOwners(cs, strong, cs[i].At(d).references.value) >= strong[cs[i].At(d).references.value];
      ReapTakes(cs, strong, strong, 0, cs[i].At(d).references.value);
      assert LastOwner(Reap(cs, strong, 0).1, cs[i].At(d));
    }
  }

  /** In any case what is left was there, and what is gone has no owner. */
  lemma {:induction false} ReapRemoves(cs: seq<Pair>, now: Counts, i: nat, p: Pair)
    requires Covers(cs, now) && i <= |cs|
    ensures p in Reap(cs, now, i).0 ==> p in cs
    ensures OnlyFell(now, Reap(cs, now, i).1) && forall l :: 0 <= l < |now| ==> Reap(cs, now, i).1[l] >= 0
    ensures p in cs && p !in Reap(cs, now, i).0 ==> Dead(Reap(cs, now, i).1, p)
    decreases |cs| - i
  {
    if i < |cs| {
      if Dead(now, cs[i]) {
        var u, mid := cs[..i] + cs[i + 1..], Release(now, Bag(cs[i]));
        CoversWithout(cs, now, i);
        ReapRemoves(u, mid, i, p);
        assert p in cs ==> p in u || p == cs[i];
        DeadStays(now, Reap(cs, now, i).1, cs[i]);
      } else {
        ReapRemoves(cs, now, i + 1, p);
      }
    }
  }

  /** What the cascade leaves queued was queued before, under the same ids. */
  lemma SettledTied(cs: seq<Pair>, s: Closing)
    requires Tied(cs) && AllSettled(cs, s)
    ensures Tied(s.channels)
  {
    forall i, d, j, f, e | 0 <= i < |cs| && 0 <= j < |cs| && e in Queued(s.channels[i].At(d).inbox) && s.channels[j].At(f).references.Some?
      ensures e.reference == s.channels[j].At(f).references <==> e.entry.kind == Channel && e.entry.koid == s.channels[j].At(f).koid
    {
      assert s.channels[i].At(d) == Settled(cs[i].At(d), s) && s.channels[j].At(f) == Settled(cs[j].At(f), s);
      assert e in Queued(cs[i].At(d).inbox);
    }
  }

  /** An endpoint the reap took the last owner from. Nobody closes it or is told. */
  predicate Orphaned(s: Closing, counts: Counts, e: Endpoint) {
    Owned(s.strong, e) && LastOwner(counts, e)
  }

  /** `close_by_koid`: the cascade above, then the reap. It orphans no endpoint exactly when the
      cascade leaves every owned endpoint an owner outside the pairs then dead; in that case
      exactly the pairs with two closed, unowned ends are gone. */
  lemma CloseExact(cs: seq<Pair>, strong: Counts, outside: seq<nat>, a: nat, b: End)
    requires Sound(cs, strong, outside) && a < |cs|
    ensures var s := Cascaded(cs, strong, a, b);
            var r := CloseByKoid(cs, strong, cs[a].At(b).koid);
            && r.Ok? && r.value.2 == s.signals
            && AllSettled(cs, s) && ClosedExactly(cs, strong, a, b, s) && OnlyFell(strong, s.strong)
            && Backed(s.channels, s.strong, outside)
            && ((forall i, d :: 0 <= i < |cs| ==> !Orphaned(s, r.value.1, cs[i].At(d))) <==> Spares(s.channels, s.strong))
            && (Spares(s.channels, s.strong) ==> r.value.0 == Kept(s.channels, s.strong))
  {
    var s := Cascaded(cs, strong, a, b);
    CascadeExact(cs, strong, outside, a, b);
    LocateAt(cs, a, b);
    ReapOrphansIff(s.channels, s.strong);
    AgreeIsNoOrphan(cs, s, Reap(s.channels, s.strong, 0).1);
  }

  lemma AgreeIsNoOrphan(cs: seq<Pair>, s: Closing, counts: Counts)
    requires AllSettled(cs, s) && Covers(s.channels, s.strong) && counts == Reap(s.channels, s.strong, 0).1
    ensures Agree(s.channels, s.strong, counts) <==> forall i, d :: 0 <= i < |cs| ==> !Orphaned(s, counts, cs[i].At(d))
  {
    forall i, d | 0 <= i < |cs|
      ensures Orphaned(s, counts, cs[i].At(d)) <==> !(LastOwner(s.strong, s.channels[i].At(d)) <==> LastOwner(counts, s.channels[i].At(d)))
    {
      assert s.channels[i].At(d) == Settled(cs[i].At(d), s);
      ReapRemoves(s.channels, s.strong, 0, s.channels[i]);
    }
  }

  function FindEnd(cs: seq<Pair>, koid: nat): Option<Endpoint> {
    match Locate(cs, koid)
    case None => None
    case Some((i, d)) => Some(cs[i].At(d))
  }

  /** What became of endpoint `e`, given what is `found` under its id in the end. */
  ghost predicate Outcome(e: Endpoint, named: bool, strong: Counts, s: Closing, counts: Counts, found: Option<Endpoint>) {
    // the endpoint named, if unowned, and each open one that lost its last owner, unless it
    // lost that to the reap, is closed and empty or gone
    && ((named && LastOwner(strong, e)) || (e.open && Owned(strong, e) && LastOwner(counts, e) && !Orphaned(s, counts, e)) ==>
          found.None? || found == Some(e.(open := false, inbox := [])))
    // one that lost its last owner to the reap stays as it was, and was not closed
    && (e.open && Orphaned(s, counts, e) && !named ==> e.koid !in s.closed && found == Some(e))
    // every other endpoint that is owned or kept by the kernel is untouched
    && (!named && !LastOwner(counts, e) ==> found == Some(e))
  }

  lemma OutcomeFrom(e: Endpoint, named: bool, strong: Counts, s: Closing, counts: Counts, found: Option<Endpoint>)
    requires OnlyFell(strong, s.strong) && OnlyFell(s.strong, counts) && forall l :: 0 <= l < |counts| ==> counts[l] >= 0
    requires e.koid in s.closed <==> named || (e.open && Owned(strong, e) && LastOwner(s.strong, e))
    requires match found case None => LastOwner(counts, e) && !Settled(e, s).open case Some(f) => f == Settled(e, s)
    ensures Outcome(e, named, strong, s, counts, found)
  {
    if e.references.Some? && e.references.value < |strong| {
      var l := e.references.value;
      assert 0 <= counts[l] <= s.strong[l] <= strong[l];
    }
  }

  /** Endpoint by endpoint in the final registry. */
  lemma CloseOutcome(cs: seq<Pair>, strong: Counts, outside: seq<nat>, a: nat, b: End, i: nat, d: End)
    requires Sound(cs, strong, outside) && a < |cs| && i < |cs|
    ensures var r := CloseByKoid(cs, strong, cs[a].At(b).koid);
            && r.Ok?
            && Outcome(cs[i].At(d), (i, d) == (a, b), strong, Cascaded(cs, strong, a, b), r.value.1, FindEnd(r.value.0, cs[i].At(d).koid))
  {
    CascadeExact(cs, strong, outside, a, b);
    var s := Cascaded(cs, strong, a, b);
    var (fin, counts) := Reap(s.channels, s.strong, 0);
    var e := cs[i].At(d);
    LocateAt(cs, a, b);
    assert s.channels[i].At(d) == Settled(e, s);
    FoundAsSettled(cs, s, i, d);
    ReapRemoves(s.channels, s.strong, 0, s.channels[i]);
    assert Locate(fin, e.koid).None? ==> LastOwner(counts, s.channels[i].At(d)) && !s.channels[i].At(d).open;
    OutcomeFrom(e, (i, d) == (a, b), strong, s, counts, FindEnd(fin, e.koid));
  }

  /** An endpoint is found under its own id as the cascade left it, or its pair was dead. */
  lemma FoundAsSettled(cs: seq<Pair>, s: Closing, i: nat, d: End)
    requires Unique(cs) && AllSettled(cs, s) && Covers(s.channels, s.strong) && i < |cs|
    ensures var (fin, counts) := Reap(s.channels, s.strong, 0);
            match Locate(fin, cs[i].At(d).koid)
            case None => Dead(counts, s.channels[i])
            case Some((j, f)) => fin[j].At(f) == s.channels[i].At(d)
  {
    var fin := Reap(s.channels, s.strong, 0).0;
    ReapRemoves(s.channels, s.strong, 0, s.channels[i]);
    assert s.channels[i].At(d) == Settled(cs[i].At(d), s);
    match Locate(fin, cs[i].At(d).koid)
    case None =>
    case Some((j, f)) =>
      ReapRemoves(s.channels, s.strong, 0, fin[j]);
      assert fin[j] in fin;
      var m :| 0 <= m < |s.channels| && s.channels[m] == fin[j];
      assert s.channels[m].At(f) == Settled(cs[m].At(f), s);
  }

  // ---- When no endpoint is orphaned ----------------------------------------------------

  /** The mailboxes of dead pairs own no endpoint: they carry no channel capability. */
  lemma {:induction false} SilentOwnsNone(all: seq<Pair>, strong: Counts, cs: seq<Pair>, j: nat, f: End)
    requires Tied(all) && j < |all| && all[j].At(f).references.Some? && forall p :: p in cs ==> p in all
    requires forall i, d :: 0 <= i < |all| && Dead(strong, all[i]) ==> Carried(Queued(all[i].At(d).inbox)) == []
    ensures DeadOwners(cs, strong, all[j].At(f).references.value) == 0
  {
    if cs != [] {
      SilentOwnsNone(all, strong, cs[1..], j, f);
      var l := all[j].At(f).references.value;
      if Dead(strong, cs[0]) && Count(Bag(cs[0]), l) > 0 {
        assert cs[0] in all;
        var i :| 0 <= i < |all| && all[i] == cs[0];
        var e := CountWitness(Bag(all[i]), l);
        var d := if e in Queued(all[i].left.inbox) then Left else Right;
        assert e in Queued(all[i].At(d).inbox);
        CarriedHas(Queued(all[i].At(d).inbox), e);
      }
    }
  }

  /** A dead pair was closed by the cascade, and drained, or closed and quiet before. */
  lemma DeadIsQuiet(cs: seq<Pair>, s: Closing, i: nat, d: End)
    requires Quiet(cs) && AllSettled(cs, s) && i < |cs| && Dead(s.strong, s.channels[i])
    ensures Carried(Queued(s.channels[i].At(d).inbox)) == []
  {
    var e := cs[i].At(d);
    assert s.channels[i].At(d) == Settled(e, s);
    if e.koid !in s.closed {
      assert !e.open;
    }
  }

  /** From a registry whose closed endpoints hold no queued channel capability, none is. */
  lemma QuietSpares(cs: seq<Pair>, strong: Counts, outside: seq<nat>, a: nat, b: End)
    requires Sound(cs, strong, outside) && Quiet(cs) && a < |cs|
    ensures var s := Cascaded(cs, strong, a, b); Spares(s.channels, s.strong)
  {
    var s := Cascaded(cs, strong, a, b);
    CascadeExact(cs, strong, outside, a, b);
    SettledTied(cs, s);
    forall i, d | 0 <= i < |cs| && Dead(s.strong, s.channels[i])
      ensures Carried(Queued(s.channels[i].At(d).inbox)) == []
    {
      DeadIsQuiet(cs, s, i, d);
    }
    forall i, d | 0 <= i < |s.channels| && Owned(s.strong, s.channels[i].At(d))
      ensures DeadOwners(s.channels, s.strong, s.channels[i].At(d).references.value) == 0
    {
      SilentOwnsNone(s.channels, s.strong, s.channels, i, d);
    }
  }
}
