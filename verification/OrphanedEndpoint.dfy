/** A run that leaves an endpoint open without an owner and tells nobody (kernel/src/ipc.rs,
    `close_by_koid`, `reap_unowned_channels`): one process, three channels, thirteen operations,
    none of them out of the ordinary. */
module OrphanedEndpoint {
  import opened Objects
  import opened Channels
  import opened Transfers
  import opened Registry
  import opened CapabilitySystem
  import opened CapabilityRuns

  /** The three channels have the ids 1 to 6; the owner of id `k` is counted by lineage `k - 1`. */
  function Cap(h: nat, k: nat): OwnedEntry
    requires k > 0
  {
    OwnedEntry(HandleEntry(h, k, Channel, CHANNEL_RIGHTS), Some(k - 1))
  }

  function Fresh(k: nat): Endpoint
    requires k > 0
  {
    Endpoint(k, [], true, Some(k - 1))
  }

  function Carrying(handle: nat, k: nat): Message
    requires k > 0
  {
    Message(Header(0, 0, 0, 0), [], [handle], [Cap(handle, k)])
  }

  function Asking(handle: nat): Outgoing {
    Outgoing(Header(0, 0, 0, 0), [], [handle])
  }

  /** The process's table, the registry and the counts. */
  ghost predicate Stands(s: System, entries: seq<OwnedEntry>, next: nat, cs: seq<Pair>, strong: Counts) {
    s.tables == [Table(entries, next)] && s.channels == cs && s.strong == strong
  }

  // ---- One operation at a time ---------------------------------------------------------

  lemma Makes(s: System, es: seq<OwnedEntry>, cs: seq<Pair>, strong: Counts, k: nat)
    requires Stands(s, es, k, cs, strong) && s.nextKoid == k && 0 < k < 10 && |strong| == k - 1
    ensures var t := Step(s, MakeChannel(0));
            && Stands(t, es + [Cap(k, k), Cap(k + 1, k + 1)], k + 2, cs + [Pair(Fresh(k), Fresh(k + 1))], strong + [1, 1])
            && t.nextKoid == k + 2
  {
    assert strong + [1] + [1] == strong + [1, 1];
    assert es + [Cap(k, k)] + [Cap(k + 1, k + 1)] == es + [Cap(k, k), Cap(k + 1, k + 1)];
  }

  lemma Drops(s: System, es: seq<OwnedEntry>, next: nat, cs: seq<Pair>, strong: Counts, i: nat, k: nat)
    requires Stands(s, es, next, cs, strong) && ValidTable(Table(es, next)) && i < |es| && 0 < k <= |strong|
    requires es[i] == Cap(es[i].entry.handle, k)
    ensures Stands(Step(s, CloseHandle(0, es[i].entry.handle)), RemoveAt(es, i), next, cs, strong[k - 1 := strong[k - 1] - 1])
  {
    LookupAt(Table(es, next), i);
    assert Release(strong, [es[i]]) == strong[k - 1 := strong[k - 1] - 1] by {
      forall l | 0 <= l < |strong|
        ensures Count([es[i]], l) == if l == k - 1 then 1 else 0
      {
        CountSingle(es[i], l);
      }
    }
  }

  /** Sending entry `j` through entry `i`, whose endpoint is end `d` of pair `c`. */
  lemma Sends(s: System, es: seq<OwnedEntry>, next: nat, cs: seq<Pair>, strong: Counts, i: nat, j: nat, c: nat, d: End, k: nat)
    requires Stands(s, es, next, cs, strong) && ValidTable(Table(es, next)) && i < |es| && j < |es| && k > 0
    requires es[i].entry.koid > 0 && es[i] == Cap(es[i].entry.handle, es[i].entry.koid) && es[j] == Cap(es[j].entry.handle, k)
    requires Unique(cs) && c < |cs| && cs[c].At(d).koid == es[i].entry.koid && cs[c].At(Peer(d)).open
    ensures Stands(Step(s, Send(0, es[i].entry.handle, Asking(es[j].entry.handle))), RemoveAt(es, j), next,
                   Pushed(cs, c, Peer(d), Carrying(es[j].entry.handle, k)), strong)
  {
    var t := Table(es, next);
    var handle := es[j].entry.handle;
    LookupAt(t, i);
    LookupAt(t, j);
    LocateAt(cs, c, d);
    WithoutOne(es, j);
    HoldsRights();
    assert [handle][..0] == [];
    assert Collect(t, [handle], 1) == Ok([]);
    assert [es[j]] + [] == [es[j]];
    assert Collect(t, [handle], 0) == Ok([es[j]]);
  }

  lemma HoldsRights()
    ensures Contains(CHANNEL_RIGHTS, WRITE) && Contains(CHANNEL_RIGHTS, TRANSFER) && Contains(CHANNEL_RIGHTS, DUPLICATE)
    ensures Contains(CHANNEL_RIGHTS, CHANNEL_RIGHTS)
  {
  }

  lemma Duplicates(s: System, es: seq<OwnedEntry>, next: nat, cs: seq<Pair>, strong: Counts, i: nat, k: nat)
    requires Stands(s, es, next, cs, strong) && ValidTable(Table(es, next)) && 0 < next < LAST_HANDLE
    requires i < |es| && 0 < k <= |strong| && es[i] == Cap(es[i].entry.handle, k)
    ensures Stands(Step(s, Duplicate(0, es[i].entry.handle, CHANNEL_RIGHTS)), es + [Cap(next, k)], next + 1, cs,
                   strong[k - 1 := strong[k - 1] + 1])
  {
    LookupAt(Table(es, next), i);
    HoldsRights();
    assert Retain(strong, [es[i]]) == strong[k - 1 := strong[k - 1] + 1] by {
      forall l | 0 <= l < |strong|
        ensures Count([es[i]], l) == if l == k - 1 then 1 else 0
      {
        CountSingle(es[i], l);
      }
    }
  }

  // ---- The closes ----------------------------------------------------------------------

  /** The three pairs with these mailboxes and flags at the ends 1, 2 and 6. */
  function Pairs(one: Endpoint, two: Endpoint, six: Endpoint): (r: seq<Pair>)
    requires one.koid == 1 && two.koid == 2 && six.koid == 6
    ensures |r| == 3 && Unique(r)
  {
    [Pair(one, two), Pair(Fresh(3), Fresh(4)), Pair(Fresh(5), six)]
  }

  /** End 1 with endpoint 3 queued. */
  function Loaded(open: bool): Endpoint {
    Endpoint(1, [Carrying(3, 3)], open, Some(0))
  }

  /** End 6 with endpoint 1 queued. */
  const full := Endpoint(6, [Carrying(1, 1)], true, Some(5))

  function Shut(k: nat): Endpoint
    requires k > 0
  {
    Endpoint(k, [], false, Some(k - 1))
  }

  lemma QueuedOne(handle: nat, k: nat)
    requires k > 0
    ensures Queued([Carrying(handle, k)]) == [Cap(handle, k)] && Carried([Cap(handle, k)]) == [k]
  {
    assert [Carrying(handle, k)][1..] == [] && [Cap(handle, k)][1..] == [];
  }

  lemma {:induction false} ReapNone(cs: seq<Pair>, strong: Counts, i: nat)
    requires i <= |cs| && forall j :: i <= j < |cs| ==> !Dead(strong, cs[j])
    ensures Reap(cs, strong, i) == (cs, strong)
    decreases |cs| - i
  {
    if i < |cs| {
      ReapNone(cs, strong, i + 1);
    }
  }

  /** Closing a handle of end 1, which has another owner, only clears its flag. */
  lemma ClosesOne()
    ensures var r := CloseByKoid(Pairs(Loaded(true), Fresh(2), Fresh(6)), [1, 1, 1, 1, 1, 1], 1);
            r.Ok? && r.value.0 == Pairs(Loaded(false), Fresh(2), Fresh(6)) && r.value.1 == [1, 1, 1, 1, 1, 1]
  {
    var cs, strong := Pairs(Loaded(true), Fresh(2), Fresh(6)), [1, 1, 1, 1, 1, 1];
    LocateAt(cs, 0, Left);
    var s := CloseEnd(Closing(cs, strong, [], [], []), 0, Left);
    assert s.strong == strong && s.carried == [];
    assert s.channels == Pairs(Loaded(false), Fresh(2), Fresh(6));
    ReapNone(s.channels, strong, 0);
  }

  /** Closing the last handle of end 6 drops the message with end 1's last owner; end 1 is
      closed already, so its mailbox stays. */
  lemma ClosesSix()
    ensures var r := CloseByKoid(Pairs(Loaded(false), Fresh(2), full), [1, 1, 1, 1, 1, 0], 6);
            r.Ok? && r.value.0 == Pairs(Loaded(false), Fresh(2), Shut(6)) && r.value.1 == [0, 1, 1, 1, 1, 0]
  {
    var cs, strong := Pairs(Loaded(false), Fresh(2), full), [1, 1, 1, 1, 1, 0];
    LocateAt(cs, 2, Right);
    QueuedOne(1, 1);
    var s := CloseEnd(Closing(cs, strong, [], [], []), 2, Right);
    OneReleased(strong, 1, 1);
    assert s.strong == [0, 1, 1, 1, 1, 0] && s.carried == [1];
    assert s.channels == Pairs(Loaded(false), Fresh(2), Shut(6));
    LocateAt(s.channels, 0, Left);
    var t := CascadeStep(s);
    assert t == s.(carried := []);
    assert Cascade(s) == Cascade(t) == t;
    ReapNone(t.channels, t.strong, 0);
  }

  lemma OneReleased(strong: Counts, handle: nat, k: nat)
    requires 0 < k <= |strong|
    ensures Release(strong, [Cap(handle, k)]) == strong[k - 1 := strong[k - 1] - 1]
  {
    forall l | 0 <= l < |strong|
      ensures Count([Cap(handle, k)], l) == if l == k - 1 then 1 else 0
    {
      CountSingle(Cap(handle, k), l);
    }
  }

  /** Closing the last handle of end 2 makes the first pair dead. The reap drops it and with it
      the message that holds the last owner of end 3. No peer is signalled. */
  lemma ClosesTwo()
    ensures CloseByKoid(Pairs(Loaded(false), Fresh(2), Shut(6)), [0, 0, 1, 1, 1, 0], 2) ==
            Ok(([Pair(Fresh(3), Fresh(4)), Pair(Fresh(5), Shut(6))], [0, 0, 0, 1, 1, 0], []))
  {
    var cs, strong := Pairs(Loaded(false), Fresh(2), Shut(6)), [0, 0, 1, 1, 1, 0];
    LocateAt(cs, 0, Right);
    RetainRelease(strong, []);
    var s := CloseEnd(Closing(cs, strong, [], [], []), 0, Right);
    assert s.strong == strong && s.carried == [] && s.signals == [];
    assert s.channels == Pairs(Loaded(false), Shut(2), Shut(6));
    ReapsFirst();
  }

  lemma ReapsFirst()
    ensures Reap(Pairs(Loaded(false), Shut(2), Shut(6)), [0, 0, 1, 1, 1, 0], 0) ==
            ([Pair(Fresh(3), Fresh(4)), Pair(Fresh(5), Shut(6))], [0, 0, 0, 1, 1, 0])
  {
    var cs, strong := Pairs(Loaded(false), Shut(2), Shut(6)), [0, 0, 1, 1, 1, 0];
    QueuedOne(3, 3);
    OneReleased(strong, 3, 3);
    assert Bag(cs[0]) == [Cap(3, 3)];
    var rest := [Pair(Fresh(3), Fresh(4)), Pair(Fresh(5), Shut(6))];
    assert cs[..0] + cs[1..] == rest;
    assert Dead(strong, cs[0]);
    assert Release(strong, [Cap(3, 3)]) == [0, 0, 0, 1, 1, 0];
    ReapNone(rest, [0, 0, 0, 1, 1, 0], 0);
  }

  // ---- The run -------------------------------------------------------------------------

  function Opening(): seq<Op> {
    [NewProcess, MakeChannel(0), MakeChannel(0), MakeChannel(0)]
  }

  function Marking(): seq<Op> {
    [Send(0, 2, Asking(3)), Duplicate(0, 1, CHANNEL_RIGHTS), CloseHandle(0, 7), CloseKoid(1)]
  }

  function Arming(): seq<Op> {
    [Send(0, 5, Asking(1)), CloseHandle(0, 6), CloseKoid(6), CloseHandle(0, 2)]
  }

  lemma {:induction false} RunConcat(s: System, a: seq<Op>, b: seq<Op>)
    ensures Run(s, a + b) == Run(Run(s, a), b)
    decreases |a|
  {
    if a == [] {
      assert a + b == b;
    } else {
      assert (a + b)[0] == a[0] && (a + b)[1..] == a[1..] + b;
      RunConcat(Step(s, a[0]), a[1..], b);
    }
  }

  lemma RunsOne(s: System, a: Op)
    ensures Run(s, [a]) == Step(s, a)
  {
    assert Run(Step(s, a), []) == Step(s, a);
  }

  lemma RunsTwo(s: System, a: Op, b: Op)
    ensures Run(s, [a, b]) == Step(Step(s, a), b)
  {
    assert [a, b] == [a] + [b];
    RunConcat(s, [a], [b]);
    RunsOne(s, a);
    RunsOne(Step(s, a), b);
  }

  lemma RunsFour(s: System, a: Op, b: Op, c: Op, d: Op)
    ensures Run(s, [a, b, c, d]) == Step(Step(Step(Step(s, a), b), c), d)
  {
    assert [a, b, c, d] == [a, b] + [c, d];
    RunConcat(s, [a, b], [c, d]);
    RunsTwo(s, a, b);
    RunsTwo(Step(Step(s, a), b), c, d);
  }

  /** The table entries, in the order in which they come and go. */
  function Two(): seq<OwnedEntry> { [Cap(1, 1), Cap(2, 2)] }
  function Four(): seq<OwnedEntry> { [Cap(1, 1), Cap(2, 2), Cap(3, 3), Cap(4, 4)] }
  function Six(): seq<OwnedEntry> { [Cap(1, 1), Cap(2, 2), Cap(3, 3), Cap(4, 4), Cap(5, 5), Cap(6, 6)] }
  function Five(): seq<OwnedEntry> { [Cap(1, 1), Cap(2, 2), Cap(4, 4), Cap(5, 5), Cap(6, 6)] }
  function Doubled(): seq<OwnedEntry> { [Cap(1, 1), Cap(2, 2), Cap(4, 4), Cap(5, 5), Cap(6, 6), Cap(7, 1)] }
  function Later(): seq<OwnedEntry> { [Cap(2, 2), Cap(4, 4), Cap(5, 5), Cap(6, 6)] }
  function Fewer(): seq<OwnedEntry> { [Cap(2, 2), Cap(4, 4), Cap(5, 5)] }
  function Rest(): seq<OwnedEntry> { [Cap(4, 4), Cap(5, 5)] }

  lemma MakesFirst(s: System)
    requires Stands(s, [], 1, [], []) && s.nextKoid == 1
    ensures Stands(Step(s, MakeChannel(0)), Two(), 3, [Pair(Fresh(1), Fresh(2))], [1, 1]) && Step(s, MakeChannel(0)).nextKoid == 3
  {
    Makes(s, [], [], [], 1);
    assert [] + Two() == Two();
  }

  lemma MakesSecond(s: System)
    requires Stands(s, Two(), 3, [Pair(Fresh(1), Fresh(2))], [1, 1]) && s.nextKoid == 3
    ensures Stands(Step(s, MakeChannel(0)), Four(), 5, [Pair(Fresh(1), Fresh(2)), Pair(Fresh(3), Fresh(4))], [1, 1, 1, 1])
    ensures Step(s, MakeChannel(0)).nextKoid == 5
  {
    Makes(s, Two(), [Pair(Fresh(1), Fresh(2))], [1, 1], 3);
    assert Two() + [Cap(3, 3), Cap(4, 4)] == Four();
  }

  lemma MakesThird(s: System)
    requires Stands(s, Four(), 5, [Pair(Fresh(1), Fresh(2)), Pair(Fresh(3), Fresh(4))], [1, 1, 1, 1]) && s.nextKoid == 5
    ensures Stands(Step(s, MakeChannel(0)), Six(), 7, Pairs(Fresh(1), Fresh(2), Fresh(6)), [1, 1, 1, 1, 1, 1])
  {
    Makes(s, Four(), [Pair(Fresh(1), Fresh(2)), Pair(Fresh(3), Fresh(4))], [1, 1, 1, 1], 5);
    assert Four() + [Cap(5, 5), Cap(6, 6)] == Six();
  }

  lemma Loads(cs: seq<Pair>, i: nat, d: End, m: Message)
    requires i < |cs| && cs[i].At(d).inbox == []
    ensures Pushed(cs, i, d, m) == cs[i := cs[i].With(d, cs[i].At(d).(inbox := [m]))]
  {
    assert cs[i].At(d).inbox + [m] == [m];
  }

  lemma SendsThree(s: System)
    requires Stands(s, Six(), 7, Pairs(Fresh(1), Fresh(2), Fresh(6)), [1, 1, 1, 1, 1, 1])
    ensures Stands(Step(s, Send(0, 2, Asking(3))), Five(), 7, Pairs(Loaded(true), Fresh(2), Fresh(6)), [1, 1, 1, 1, 1, 1])
  {
    var cs := Pairs(Fresh(1), Fresh(2), Fresh(6));
    Sends(s, Six(), 7, cs, [1, 1, 1, 1, 1, 1], 1, 2, 0, Right, 3);
    assert RemoveAt(Six(), 2) == Five();
    Loads(cs, 0, Left, Carrying(3, 3));
  }

  lemma DuplicatesOne(s: System, cs: seq<Pair>)
    requires Stands(s, Five(), 7, cs, [1, 1, 1, 1, 1, 1])
    ensures Stands(Step(s, Duplicate(0, 1, CHANNEL_RIGHTS)), Doubled(), 8, cs, [2, 1, 1, 1, 1, 1])
  {
    Duplicates(s, Five(), 7, cs, [1, 1, 1, 1, 1, 1], 0, 1);
    assert Five() + [Cap(7, 1)] == Doubled();
  }

  lemma DoubledLess()
    ensures ValidTable(Table(Doubled(), 8)) && |Doubled()| == 6 && Doubled()[5] == Cap(7, 1) && RemoveAt(Doubled(), 5) == Five()
  {
  }

  lemma DropsDouble(s: System, cs: seq<Pair>)
    requires Stands(s, Doubled(), 8, cs, [2, 1, 1, 1, 1, 1])
    ensures Stands(Step(s, CloseHandle(0, 7)), Five(), 8, cs, [1, 1, 1, 1, 1, 1])
  {
    DoubledLess();
    Drops(s, Doubled(), 8, cs, [2, 1, 1, 1, 1, 1], 5, 1);
  }

  lemma SendsOne(s: System)
    requires Stands(s, Five(), 8, Pairs(Loaded(false), Fresh(2), Fresh(6)), [1, 1, 1, 1, 1, 1])
    ensures Stands(Step(s, Send(0, 5, Asking(1))), Later(), 8, Pairs(Loaded(false), Fresh(2), full), [1, 1, 1, 1, 1, 1])
  {
    var cs := Pairs(Loaded(false), Fresh(2), Fresh(6));
    Sends(s, Five(), 8, cs, [1, 1, 1, 1, 1, 1], 3, 0, 2, Left, 1);
    assert RemoveAt(Five(), 0) == Later();
    Loads(cs, 2, Right, Carrying(1, 1));
  }

  lemma DropsSix(s: System, cs: seq<Pair>)
    requires Stands(s, Later(), 8, cs, [1, 1, 1, 1, 1, 1])
    ensures Stands(Step(s, CloseHandle(0, 6)), Fewer(), 8, cs, [1, 1, 1, 1, 1, 0])
  {
    Drops(s, Later(), 8, cs, [1, 1, 1, 1, 1, 1], 3, 6);
    assert RemoveAt(Later(), 3) == Fewer();
  }

  lemma FewerLess()
    ensures ValidTable(Table(Fewer(), 8)) && |Fewer()| > 0 && Fewer()[0] == Cap(2, 2) && RemoveAt(Fewer(), 0) == Rest()
  {
  }

  lemma DropsTwo(s: System, cs: seq<Pair>)
    requires Stands(s, Fewer(), 8, cs, [0, 1, 1, 1, 1, 0])
    ensures Stands(Step(s, CloseHandle(0, 2)), Rest(), 8, cs, [0, 0, 1, 1, 1, 0])
  {
    FewerLess();
    assert [0, 1, 1, 1, 1, 0][1 := 0] == [0, 0, 1, 1, 1, 0];
    Drops(s, Fewer(), 8, cs, [0, 1, 1, 1, 1, 0], 0, 2);
  }

  lemma Closes(s: System, es: seq<OwnedEntry>, next: nat, cs: seq<Pair>, strong: Counts, koid: nat, ds: seq<Pair>, now: Counts)
    requires Stands(s, es, next, cs, strong)
    requires var r := CloseByKoid(cs, strong, koid); r.Ok? && r.value.0 == ds && r.value.1 == now
    ensures Stands(Step(s, CloseKoid(koid)), es, next, ds, now)
  {
  }

  /** Three channels, all six handles in the table. */
  lemma Opens(s: System)
    requires s == boot
    ensures Stands(Run(s, Opening()), Six(), 7, Pairs(Fresh(1), Fresh(2), Fresh(6)), [1, 1, 1, 1, 1, 1])
  {
    RunsFour(s, NewProcess, MakeChannel(0), MakeChannel(0), MakeChannel(0));
    var s1 := Step(s, NewProcess);
    assert Stands(s1, [], 1, [], []) && s1.nextKoid == 1;
    MakesFirst(s1);
    var s2 := Step(s1, MakeChannel(0));
    MakesSecond(s2);
    MakesThird(Step(s2, MakeChannel(0)));
  }

  /** End 3 is sent to end 1, and one of two handles of end 1 is closed. */
  lemma Marks(s: System)
    requires Stands(s, Six(), 7, Pairs(Fresh(1), Fresh(2), Fresh(6)), [1, 1, 1, 1, 1, 1])
    ensures Stands(Run(s, Marking()), Five(), 8, Pairs(Loaded(false), Fresh(2), Fresh(6)), [1, 1, 1, 1, 1, 1])
  {
    RunsFour(s, Send(0, 2, Asking(3)), Duplicate(0, 1, CHANNEL_RIGHTS), CloseHandle(0, 7), CloseKoid(1));
    SendsThree(s);
    var s1 := Step(s, Send(0, 2, Asking(3)));
    DuplicatesOne(s1, Pairs(Loaded(true), Fresh(2), Fresh(6)));
    var s2 := Step(s1, Duplicate(0, 1, CHANNEL_RIGHTS));
    DropsDouble(s2, Pairs(Loaded(true), Fresh(2), Fresh(6)));
    ClosesOne();
    Closes(Step(s2, CloseHandle(0, 7)), Five(), 8, Pairs(Loaded(true), Fresh(2), Fresh(6)), [1, 1, 1, 1, 1, 1], 1,
           Pairs(Loaded(false), Fresh(2), Fresh(6)), [1, 1, 1, 1, 1, 1]);
  }

  /** The other handle of end 1 is sent to end 6, end 6 is closed, and the handle of end 2. */
  lemma Arms(s: System)
    requires Stands(s, Five(), 8, Pairs(Loaded(false), Fresh(2), Fresh(6)), [1, 1, 1, 1, 1, 1])
    ensures Stands(Run(s, Arming()), Rest(), 8, Pairs(Loaded(false), Fresh(2), Shut(6)), [0, 0, 1, 1, 1, 0])
  {
    RunsFour(s, Send(0, 5, Asking(1)), CloseHandle(0, 6), CloseKoid(6), CloseHandle(0, 2));
    SendsOne(s);
    var s1 := Step(s, Send(0, 5, Asking(1)));
    DropsSix(s1, Pairs(Loaded(false), Fresh(2), full));
    var s2 := Step(s1, CloseHandle(0, 6));
    ClosesSix();
    Closes(s2, Fewer(), 8, Pairs(Loaded(false), Fresh(2), full), [1, 1, 1, 1, 1, 0], 6,
           Pairs(Loaded(false), Fresh(2), Shut(6)), [0, 1, 1, 1, 1, 0]);
    DropsTwo(Step(s2, CloseKoid(6)), Pairs(Loaded(false), Fresh(2), Shut(6)));
  }

  function Ops(): seq<Op> {
    Opening() + Marking() + Arming()
  }

  /** After this run end 3 is open and owned; closing end 2 then takes its last owner, leaves it
      open and signals nobody. */
  lemma RunOrphans()
    ensures var s := Run(boot, Ops());
            var r := CloseByKoid(s.channels, s.strong, 2);
            && Locate(s.channels, 3) == Some((1, Left)) && s.channels[1].left == Fresh(3) && Owned(s.strong, Fresh(3))
            && r.Ok? && r.value.2 == []
            && Locate(r.value.0, 3) == Some((0, Left)) && r.value.0[0].left == Fresh(3) && LastOwner(r.value.1, Fresh(3))
  {
    OpsReach();
    ClosesTwo();
    LocateAt(Pairs(Loaded(false), Fresh(2), Shut(6)), 1, Left);
  }

  lemma OpsReach()
    ensures Stands(Run(boot, Ops()), Rest(), 8, Pairs(Loaded(false), Fresh(2), Shut(6)), [0, 0, 1, 1, 1, 0])
  {
    RunConcat(boot, Opening() + Marking(), Arming());
    RunConcat(boot, Opening(), Marking());
    Opens(boot);
    Marks(Run(boot, Opening()));
    Arms(Run(Run(boot, Opening()), Marking()));
  }
}
