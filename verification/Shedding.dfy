/** Closing and reaping only ever let go: counts fall by exactly the queued owners dropped,
    nothing new is queued, and a pair disappears only when nobody owns either end. This needs
    no assumption about the registry. */
module Shedding {
  import opened Objects
  import opened Channels

  ghost predicate HasEnd(cs: seq<Pair>, koid: nat, references: Option<nat>) {
    exists i, d :: 0 <= i < |cs| && cs[i].At(d).koid == koid && cs[i].At(d).references == references
  }

  ghost predicate InQueues(cs: seq<Pair>, e: OwnedEntry) {
    exists i, d :: 0 <= i < |cs| && e in Queued(cs[i].At(d).inbox)
  }

  ghost predicate Gone(now: Counts, e: Endpoint) {
    e.references.Some? && (e.references.value >= |now| || now[e.references.value] <= 0)
  }

  /** From registry `cs` with counts `strong` to `ds` with counts `now`. */
  ghost predicate Sheds(cs: seq<Pair>, strong: Counts, ds: seq<Pair>, now: Counts) {
    && |now| == |strong|
    && (forall l :: 0 <= l < |strong| ==>
          now[l] <= strong[l] && strong[l] - now[l] == CountBags(PairBags(cs), l) - CountBags(PairBags(ds), l))
    && (forall e :: InQueues(ds, e) ==> InQueues(cs, e))
    && (forall j, f :: 0 <= j < |ds| ==> HasEnd(cs, ds[j].At(f).koid, ds[j].At(f).references))
    && (forall i, d :: 0 <= i < |cs| ==> HasEnd(ds, cs[i].At(d).koid, cs[i].At(d).references) || Gone(now, cs[i].At(d)))
    && (Unique(cs) ==> Unique(ds))
  }

  lemma ShedsSame(cs: seq<Pair>, strong: Counts)
    ensures Sheds(cs, strong, cs, strong)
  {
    EndsPresent(cs);
  }

  lemma EndsPresent(cs: seq<Pair>)
    ensures forall i, d :: 0 <= i < |cs| ==> HasEnd(cs, cs[i].At(d).koid, cs[i].At(d).references)
  {
  }

  lemma ShedsThen(cs: seq<Pair>, strong: Counts, ds: seq<Pair>, mid: Counts, fs: seq<Pair>, now: Counts)
    requires Sheds(cs, strong, ds, mid) && Sheds(ds, mid, fs, now)
    ensures Sheds(cs, strong, fs, now)
  {
    forall j, f | 0 <= j < |fs|
      ensures HasEnd(cs, fs[j].At(f).koid, fs[j].At(f).references)
    {
      assert HasEnd(ds, fs[j].At(f).koid, fs[j].At(f).references);
      var i, d :| 0 <= i < |ds| && ds[i].At(d).koid == fs[j].At(f).koid && ds[i].At(d).references == fs[j].At(f).references;
    }
    forall i, d | 0 <= i < |cs|
      ensures HasEnd(fs, cs[i].At(d).koid, cs[i].At(d).references) || Gone(now, cs[i].At(d))
    {
      if !Gone(now, cs[i].At(d)) {
        assert !Gone(mid, cs[i].At(d));
        assert HasEnd(ds, cs[i].At(d).koid, cs[i].At(d).references);
        var j, f :| 0 <= j < |ds| && ds[j].At(f).koid == cs[i].At(d).koid && ds[j].At(f).references == cs[i].At(d).references;
        assert !Gone(now, ds[j].At(f));
      }
    }
  }

  /** Changing flags and emptying mailboxes in place. */
  lemma CloseEndSheds(s: Closing, i: nat, d: End)
    requires i < |s.channels|
    ensures Sheds(s.channels, s.strong, CloseEnd(s, i, d).channels, CloseEnd(s, i, d).strong)
  {
    var cs, ds := s.channels, CloseEnd(s, i, d).channels;
    forall j, f | 0 <= j < |cs|
      ensures ds[j].At(f).koid == cs[j].At(f).koid && ds[j].At(f).references == cs[j].At(f).references
      ensures forall e :: e in Queued(ds[j].At(f).inbox) ==> e in Queued(cs[j].At(f).inbox)
    {
    }
    forall l | 0 <= l < |s.strong|
      ensures CountBags(PairBags(ds), l) == CountBags(PairBags(cs), l) - (s.strong[l] - CloseEnd(s, i, d).strong[l])
    {
      BagUpdate(cs, i, ds[i], l);
      BagCount(cs[i], d, l);
      BagCount(ds[i], d, l);
    }
    InPlace(cs, s.strong, ds, CloseEnd(s, i, d).strong);
  }

  lemma InPlace(cs: seq<Pair>, strong: Counts, ds: seq<Pair>, now: Counts)
    requires |cs| == |ds| && |now| == |strong|
    requires forall j, f :: 0 <= j < |cs| ==> ds[j].At(f).koid == cs[j].At(f).koid && ds[j].At(f).references == cs[j].At(f).references
    requires forall j, f, e :: 0 <= j < |cs| && e in Queued(ds[j].At(f).inbox) ==> e in Queued(cs[j].At(f).inbox)
    requires forall l :: 0 <= l < |strong| ==>
               now[l] <= strong[l] && strong[l] - now[l] == CountBags(PairBags(cs), l) - CountBags(PairBags(ds), l)
    ensures Sheds(cs, strong, ds, now)
  {
    forall j, f | 0 <= j < |cs|
      ensures HasEnd(cs, ds[j].At(f).koid, ds[j].At(f).references) && HasEnd(ds, cs[j].At(f).koid, cs[j].At(f).references)
    {
    }
    forall e | InQueues(ds, e)
      ensures InQueues(cs, e)
    {
      var j, f :| 0 <= j < |ds| && e in Queued(ds[j].At(f).inbox);
      assert e in Queued(cs[j].At(f).inbox);
    }
  }

  lemma {:induction false} CascadeSheds(s: Closing)
    ensures Sheds(s.channels, s.strong, Cascade(s).channels, Cascade(s).strong)
    decreases Pending(s.channels) + |s.carried|
  {
    if s.carried == [] {
      ShedsSame(s.channels, s.strong);
    } else {
      CascadeStepMeasure(s);
      var n := CascadeStep(s);
      assert Sheds(s.channels, s.strong, n.channels, n.strong) by {
        ShedsSame(s.channels, s.strong);
        match Locate(s.channels, s.carried[|s.carried| - 1])
        case None =>
        case Some((i, d)) => CloseEndSheds(s.(carried := s.carried[..|s.carried| - 1]), i, d);
      }
      CascadeSheds(n);
      ShedsThen(s.channels, s.strong, n.channels, n.strong, Cascade(s).channels, Cascade(s).strong);
    }
  }

  /** Removing a dead pair. */
  lemma ReapOneSheds(cs: seq<Pair>, strong: Counts, i: nat)
    requires i < |cs| && Dead(strong, cs[i])
    ensures Sheds(cs, strong, cs[..i] + cs[i + 1..], Release(strong, Bag(cs[i])))
  {
    var ds, now := cs[..i] + cs[i + 1..], Release(strong, Bag(cs[i]));
    forall l | 0 <= l < |strong|
      ensures now[l] <= strong[l] && strong[l] - now[l] == CountBags(PairBags(cs), l) - CountBags(PairBags(ds), l)
    {
      BagRemove(cs, i, l);
    }
    forall j | 0 <= j < |ds|
      ensures ds[j] == cs[if j < i then j else j + 1]
    {
    }
    forall e | InQueues(ds, e)
      ensures InQueues(cs, e)
    {
      var j, f :| 0 <= j < |ds| && e in Queued(ds[j].At(f).inbox);
      assert e in Queued(cs[if j < i then j else j + 1].At(f).inbox);
    }
    forall j, f | 0 <= j < |ds|
      ensures HasEnd(cs, ds[j].At(f).koid, ds[j].At(f).references)
    {
      assert ds[j].At(f) == cs[if j < i then j else j + 1].At(f);
    }
    forall j, f | 0 <= j < |cs|
      ensures HasEnd(ds, cs[j].At(f).koid, cs[j].At(f).references) || Gone(now, cs[j].At(f))
    {
      if j == i {
        assert LastOwner(strong, cs[i].At(f));
      } else {
        assert cs[j].At(f) == ds[if j < i then j else j - 1].At(f);
      }
    }
  }

  lemma {:induction false} ReapSheds(cs: seq<Pair>, strong: Counts, i: nat)
    requires i <= |cs|
    ensures Sheds(cs, strong, Reap(cs, strong, i).0, Reap(cs, strong, i).1)
    decreases |cs| - i
  {
    if i == |cs| {
      ShedsSame(cs, strong);
    } else if Dead(strong, cs[i]) {
      ReapOneSheds(cs, strong, i);
      var ds, mid := cs[..i] + cs[i + 1..], Release(strong, Bag(cs[i]));
      ReapSheds(ds, mid, i);
      ShedsThen(cs, strong, ds, mid, Reap(cs, strong, i).0, Reap(cs, strong, i).1);
    } else {
      ReapSheds(cs, strong, i + 1);
    }
  }

  lemma CloseSheds(cs: seq<Pair>, strong: Counts, koid: nat)
    requires CloseByKoid(cs, strong, koid).Ok?
    ensures var r := CloseByKoid(cs, strong, koid).value; Sheds(cs, strong, r.0, r.1)
  {
    var (i, d) := Locate(cs, koid).value;
    var start := Closing(cs, strong, [], [], []);
    var first := CloseEnd(start, i, d);
    var s := Cascade(first);
    CloseEndSheds(start, i, d);
    CascadeSheds(first);
    ShedsThen(cs, strong, first.channels, first.strong, s.channels, s.strong);
    ReapSheds(s.channels, s.strong, 0);
    ShedsThen(cs, strong, s.channels, s.strong, Reap(s.channels, s.strong, 0).0, Reap(s.channels, s.strong, 0).1);
  }
}
