/**
 * Flooding stops: every delivery of a message strictly lowers a potential of its uuid, in any
 * network of C++ and Python servers, under any configuration and any delivery order.
 */
module Termination {
  import opened Wrappers
  import opened Messages
  import opened Routing
  import opened Network
  import C = UuidCache

  /** A message can make this many deliveries by itself, not counting what it triggers at new servers. */
  function MsgWeight(m: ExtClrMsg): nat { if m.ringTtl > 0 then m.ringTtl + 1 else 1 }

  function PacketsWeight(ps: seq<Packet>, uuid: int): nat {
    if ps == [] then 0
    else (if ps[0].msg.uuid == uuid then MsgWeight(ps[0].msg) else 0) + PacketsWeight(ps[1..], uuid)
  }

  /** The weight a server puts in flight when it starts its rings. */
  function RingsWeight(rings: seq<Ring>): nat {
    if rings == [] then 0
    else (if rings[0].length > 1 then rings[0].length else 1) + RingsWeight(rings[1..])
  }

  /** The most messages a server puts in flight when it floods. */
  function FloodWeight(cfg: Config): nat {
    |cfg.reachable| + (if cfg.plugin == Python && |cfg.rings| > 1 then |cfg.rings| else 1)
  }

  function ServerWeight(cfg: Config, c: Caches, uuid: int): nat {
    (if uuid in c.stale then 0 else RingsWeight(cfg.rings)) + (if uuid in c.flooded then 0 else FloodWeight(cfg))
  }

  function ServersWeight(cfgs: seq<Config>, caches: seq<Caches>, uuid: int): nat
    requires |caches| == |cfgs|
  {
    if cfgs == [] then 0
    else ServerWeight(cfgs[0], caches[0], uuid) + ServersWeight(cfgs[1..], caches[1..], uuid)
  }

  function Potential(cfgs: seq<Config>, n: Net, uuid: int): nat
    requires Shaped(cfgs, n)
  {
    ServersWeight(cfgs, n.caches, uuid) + PacketsWeight(n.inflight, uuid)
  }

  // ----- sums -----

  lemma {:induction false} PacketsConcat(a: seq<Packet>, b: seq<Packet>, uuid: int)
    ensures PacketsWeight(a + b, uuid) == PacketsWeight(a, uuid) + PacketsWeight(b, uuid)
  {
    if a == [] {
      assert a + b == b;
    } else {
      PacketsConcat(a[1..], b, uuid);
      assert (a + b)[1..] == a[1..] + b;
    }
  }

  lemma PacketsRemove(ps: seq<Packet>, i: nat, uuid: int)
    requires i < |ps|
    ensures PacketsWeight(ps, uuid)
         == PacketsWeight(RemoveAt(ps, i), uuid) + if ps[i].msg.uuid == uuid then MsgWeight(ps[i].msg) else 0
  {
    assert ps == ps[..i] + ([ps[i]] + ps[i + 1..]);
    PacketsConcat(ps[..i], [ps[i]] + ps[i + 1..], uuid);
    PacketsConcat([ps[i]], ps[i + 1..], uuid);
    PacketsConcat(ps[..i], ps[i + 1..], uuid);
  }

  lemma {:induction false} ServersUpdate(cfgs: seq<Config>, caches: seq<Caches>, j: nat, c: Caches, uuid: int)
    requires |caches| == |cfgs| && j < |cfgs|
    ensures ServersWeight(cfgs, caches[j := c], uuid) + ServerWeight(cfgs[j], caches[j], uuid)
         == ServersWeight(cfgs, caches, uuid) + ServerWeight(cfgs[j], c, uuid)
  {
    if j == 0 {
      assert caches[j := c][1..] == caches[1..];
    } else {
      ServersUpdate(cfgs[1..], caches[1..], j - 1, c, uuid);
      assert caches[j := c][1..] == caches[1..][j - 1 := c];
    }
  }

  /** Messages of another uuid weigh nothing. */
  lemma {:induction false} OtherUuid(ps: seq<Packet>, uuid: int)
    requires forall p :: p in ps ==> p.msg.uuid != uuid
    ensures PacketsWeight(ps, uuid) == 0
  {
    if ps != [] {
      OtherUuid(ps[1..], uuid);
    }
  }

  // ----- what one step sends -----

  /** No send carries a positive time-to-live. */
  ghost predicate Light(sends: seq<Send>) {
    forall i :: 0 <= i < |sends| && sends[i].ToServer? ==> sends[i].msg.ringTtl <= 0
  }

  lemma {:induction false} LightWeight(sends: seq<Send>, uuid: int)
    requires Light(sends)
    ensures PacketsWeight(Arrivals(sends), uuid) <= |sends|
  {
    if sends != [] {
      LightWeight(sends[1..], uuid);
      if sends[0].ToServer? {
        var first := Packet(sends[0].dst, sends[0].msg);
        assert Arrivals(sends) == [first] + Arrivals(sends[1..]);
      } else {
        assert Arrivals(sends) == Arrivals(sends[1..]);
      }
    }
  }

  lemma {:induction false} RingSendsWeight(rings: seq<Ring>, m: ExtClrMsg, from: nat, uuid: int)
    requires from <= |rings|
    ensures PacketsWeight(Arrivals(RingSends(rings, m)[from..]), uuid) <= RingsWeight(rings[from..])
    decreases |rings| - from
  {
    if from < |rings| {
      RingSendsWeight(rings, m, from + 1, uuid);
      var sends := RingSends(rings, m)[from..];
      assert sends[1..] == RingSends(rings, m)[from + 1..];
      assert rings[from..][1..] == rings[from + 1..];
      var first := RingMsg(rings, m, from);
      assert sends[0] == first;
      assert Arrivals(sends) == [Packet(first.dst, first.msg)] + Arrivals(sends[1..]);
    }
  }

  lemma {:induction false} PicksBound(reach: seq<Reachable>, skip: seq<string>, factor: int, acc: Picks)
    ensures var p := Pick(reach, skip, factor, acc); p.Some? ==> |p.value.dsts| <= |acc.dsts| + |reach|
  {
    if reach != [] {
      if reach[0].name in skip {
        PicksBound(reach[1..], skip, factor, acc);
      } else if reach[0].members != [] {
        PicksBound(reach[1..], skip, factor, AddPick(acc, reach[0]));
      }
    }
  }

  lemma ForwardWeight(cfg: Config, m: ExtClrMsg)
    requires m.ringTtl <= 0 && ForwardSends(cfg, m).Some?
    ensures Light(ForwardSends(cfg, m).value) && |ForwardSends(cfg, m).value| <= FloodWeight(cfg)
  {
    PicksBound(cfg.reachable, SkipList(cfg, m), cfg.floodingFactor, NoPicks);
  }

  lemma ExitWeight(exits: seq<Send>, sends: seq<Send>)
    requires exits == [] || (|exits| == 1 && exits[0].ToClient?)
    ensures Arrivals(exits + sends) == Arrivals(sends)
  {
    if exits == [] {
      assert exits + sends == sends;
    } else {
      assert (exits + sends)[1..] == sends;
    }
  }

  lemma FloodSendsWeight(cfg: Config, c: Caches, m: ExtClrMsg)
    requires m.ringTtl <= 0 && !Flood(cfg, c, m).Undefined?
    ensures PacketsWeight(Arrivals(Flood(cfg, c, m).sends), m.uuid) <= FloodWeight(cfg)
  {
    var exits := ExitSends(cfg, m);
    var o := Flood(cfg, c, m);
    if m.body.to in cfg.committeeClients && cfg.rings != [] {
      var ring := RingAt(cfg, m.ringIdx);
      var sends := if ring.Some? then [ToServer(ring.value.next, m)] else [];
      assert o.sends == exits + sends;
      ExitWeight(exits, sends);
      LightWeight(sends, m.uuid);
    } else {
      var f := ForwardSends(cfg, m);
      var sends := if f.Some? then f.value else [];
      assert o.sends == exits + sends;
      ExitWeight(exits, sends);
      if f.Some? {
        ForwardWeight(cfg, m);
        LightWeight(sends, m.uuid);
      }
    }
  }

  // ----- one delivery -----

  /** Handling a message pays for everything it sends, and for itself. */
  lemma ProcessLowers(cfg: Config, c: Caches, m: ExtClrMsg, uuids: set<int>)
    requires Remembers(c, uuids) && m.uuid in uuids && m.uuid != UNSET_UUID && |uuids| <= Capacity(cfg)
    requires !Process(cfg, c, m).Undefined?
    ensures var o := Process(cfg, c, m);
            PacketsWeight(Arrivals(o.sends), m.uuid) + ServerWeight(cfg, o.caches, m.uuid)
              < MsgWeight(m) + ServerWeight(cfg, c, m.uuid)
  {
    AddsFit(cfg, c, m.uuid, uuids);
    var o := Process(cfg, c, m);
    if Consumed(cfg, m) {
    } else if !m.IsRingTtlSet() && cfg.rings != [] {
      if m.uuid !in c.stale {
        RingSendsWeight(cfg.rings, m, 0, m.uuid);
        assert RingSends(cfg.rings, m)[0..] == RingSends(cfg.rings, m);
        assert cfg.rings[0..] == cfg.rings;
      }
    } else if m.ringTtl > 0 {
      var ring := RingAt(cfg, m.ringIdx);
      if ring.Some? {
        var passed := m.(ringTtl := m.ringTtl - 1);
        assert Arrivals(o.sends) == [Packet(ring.value.next, passed)];
        assert PacketsWeight(Arrivals(o.sends), m.uuid) == MsgWeight(passed) + PacketsWeight([], m.uuid);
      }
    } else if m.uuid !in c.flooded {
      FloodSendsWeight(cfg, Caches(Store(c.stale, m.uuid), Store(c.flooded, m.uuid)), m);
    }
  }

  /** Another uuid's message changes nothing for this one. */
  lemma ProcessKeeps(cfg: Config, c: Caches, m: ExtClrMsg, uuids: set<int>, uuid: int)
    requires Remembers(c, uuids) && Known(m.uuid, uuids) && |uuids| <= Capacity(cfg)
    requires !Process(cfg, c, m).Undefined? && m.uuid != uuid
    ensures var o := Process(cfg, c, m);
            PacketsWeight(Arrivals(o.sends), uuid) == 0 && ServerWeight(cfg, o.caches, uuid) == ServerWeight(cfg, c, uuid)
  {
    CachesGrow(cfg, c, m, uuids);
    SendsVersions(cfg, c, m);
    var o := Process(cfg, c, m);
    ArrivalsFromSends(o.sends);
    OtherUuid(Arrivals(o.sends), uuid);
  }

  predicate Delivers(n: Net, a: Action, uuid: int) {
    a.Deliver? && a.index < |n.inflight| && n.inflight[a.index].msg.uuid == uuid
  }

  function Injected(a: Action, uuid: int): nat {
    if a.Inject? then PacketsWeight([a.packet], uuid) else 0
  }

  lemma StepLowers(cfgs: seq<Config>, n: Net, a: Action, uuids: set<int>, uuid: int)
    requires Roomy(cfgs, n, uuids) && Enabled(cfgs, n, a)
    requires uuid != UNSET_UUID && (a.Inject? ==> Known(a.packet.msg.uuid, uuids))
    ensures Potential(cfgs, Exec(cfgs, n, a), uuid) + (if Delivers(n, a, uuid) then 1 else 0)
         <= Potential(cfgs, n, uuid) + Injected(a, uuid)
  {
    match a
    case Inject(p) =>
      PacketsConcat(n.inflight, [p], uuid);
    case Deliver(i) =>
      var p := n.inflight[i];
      var rest := RemoveAt(n.inflight, i);
      PacketsRemove(n.inflight, i, uuid);
      var l := Lookup(cfgs, p.dst);
      if l.Some? {
        var j := l.value;
        var o := Process(cfgs[j], n.caches[j], p.msg);
        PacketsConcat(rest, Arrivals(o.sends), uuid);
        ServersUpdate(cfgs, n.caches, j, o.caches, uuid);
        if p.msg.uuid == uuid {
          ProcessLowers(cfgs[j], n.caches[j], p.msg, uuids);
        } else {
          ProcessKeeps(cfgs[j], n.caches[j], p.msg, uuids, uuid);
        }
      }
  }

  // ----- whole runs -----

  function Deliveries(cfgs: seq<Config>, n: Net, run: seq<Action>, uuid: int): nat
    requires Shaped(cfgs, n) && IsRun(cfgs, n, run)
    decreases |run|
  {
    if run == [] then 0
    else (if Delivers(n, run[0], uuid) then 1 else 0) + Deliveries(cfgs, Exec(cfgs, n, run[0]), run[1..], uuid)
  }

  function InjectedWeight(run: seq<Action>, uuid: int): nat {
    if run == [] then 0 else Injected(run[0], uuid) + InjectedWeight(run[1..], uuid)
  }

  /** However messages are delivered, one uuid is delivered no more often than its potential allows. */
  lemma {:induction false} DeliveriesBounded(cfgs: seq<Config>, n: Net, run: seq<Action>, uuids: set<int>, uuid: int)
    requires Roomy(cfgs, n, uuids) && IsRun(cfgs, n, run) && Carries(run, uuids) && uuid != UNSET_UUID
    ensures Deliveries(cfgs, n, run, uuid) + Potential(cfgs, End(cfgs, n, run), uuid)
         <= Potential(cfgs, n, uuid) + InjectedWeight(run, uuid)
    ensures Roomy(cfgs, End(cfgs, n, run), uuids)
    decreases |run|
  {
    if run != [] {
      assert run[0] in run;
      StepLowers(cfgs, n, run[0], uuids, uuid);
      RoomyStep(cfgs, n, run[0], uuids);
      DeliveriesBounded(cfgs, Exec(cfgs, n, run[0]), run[1..], uuids, uuid);
    }
  }

  // ----- the unset uuid -----

  ghost predicate Quiet(run: seq<Action>) {
    forall a :: a in run ==> a.Deliver?
  }

  ghost predicate StopsWithin(cfgs: seq<Config>, n: Net, uuid: int, bound: nat)
    requires Shaped(cfgs, n)
  {
    forall run: seq<Action> :: IsRun(cfgs, n, run) && Quiet(run) ==> Deliveries(cfgs, n, run, uuid) <= bound
  }

  /** Every network with room for the traffic in it runs out of messages of this uuid. */
  ghost predicate AlwaysStops(uuid: int) {
    forall cfgs: seq<Config>, n: Net, uuids: set<int> ::
      Roomy(cfgs, n, uuids) ==> exists bound: nat :: StopsWithin(cfgs, n, uuid, bound)
  }

  lemma {:induction false} QuietInjectsNothing(run: seq<Action>, uuid: int)
    requires Quiet(run)
    ensures InjectedWeight(run, uuid) == 0
  {
    if run != [] {
      assert run[0] in run;
      QuietInjectsNothing(run[1..], uuid);
    }
  }

  lemma PotentialBounds(cfgs: seq<Config>, n: Net, uuids: set<int>, uuid: int)
    requires Roomy(cfgs, n, uuids) && uuid != UNSET_UUID
    ensures StopsWithin(cfgs, n, uuid, Potential(cfgs, n, uuid))
  {
    forall run: seq<Action> | IsRun(cfgs, n, run) && Quiet(run)
      ensures Deliveries(cfgs, n, run, uuid) <= Potential(cfgs, n, uuid)
    {
      QuietInjectsNothing(run, uuid);
      DeliveriesBounded(cfgs, n, run, uuids, uuid);
    }
  }

  /** A committee of one server whose single ring leads back to itself. */
  const Loner := Config("s", Cpp, "k", {}, {"c"}, [], [Ring(1, "s")], 2, 1, 1)

  /** A message for one of its clients whose uuid was never set. */
  function Unset(ttl: int): Net {
    Net([Caches([], [])],
        [Packet("s", ExtClrMsg(ClrMsg("hello", "a", "c", 0, 0, 0), UNSET_UUID, ttl, 0, MsgClient, [], []))])
  }

  lemma UnsetStep(ttl: int)
    requires ttl == 0 || ttl == UNSET_RING_TTL
    ensures Enabled([Loner], Unset(ttl), Deliver(0))
    ensures Exec([Loner], Unset(ttl), Deliver(0)) == Unset(0)
    ensures Delivers(Unset(ttl), Deliver(0), UNSET_UUID)
  {
    var m := Unset(ttl).inflight[0].msg;
    var looping := Unset(0).inflight[0];
    assert Lookup([Loner], "s") == Some(0);
    assert RingSends(Loner.rings, m) == [ToServer("s", m.(ringTtl := 0))];
    assert Process(Loner, Caches([], []), m) == Done(Caches([], []), [ToServer("s", looping.msg)]);
    assert Arrivals([ToServer("s", looping.msg)]) == [looping];
    assert RemoveAt(Unset(ttl).inflight, 0) + [looping] == [looping];
  }

  /** It goes round for ever: there are runs with any number of deliveries. */
  lemma {:induction false} UnsetNeverStops(ttl: int, times: nat) returns (run: seq<Action>)
    requires ttl == 0 || ttl == UNSET_RING_TTL
    ensures IsRun([Loner], Unset(ttl), run) && Quiet(run)
    ensures Deliveries([Loner], Unset(ttl), run, UNSET_UUID) == times
    decreases times
  {
    if times == 0 {
      run := [];
    } else {
      UnsetStep(ttl);
      var rest := UnsetNeverStops(0, times - 1);
      run := [Deliver(0)] + rest;
      assert run[1..] == rest;
    }
  }

  /** Flooding of a uuid is certain to stop exactly when the uuid is not the unset one. */
  lemma StopsExactlyWhenSet(uuid: int)
    ensures AlwaysStops(uuid) <==> uuid != UNSET_UUID
  {
    if uuid != UNSET_UUID {
      forall cfgs: seq<Config>, n: Net, uuids: set<int> | Roomy(cfgs, n, uuids)
        ensures exists bound: nat :: StopsWithin(cfgs, n, uuid, bound)
      {
        PotentialBounds(cfgs, n, uuids, uuid);
      }
    } else {
      assert Roomy([Loner], Unset(UNSET_RING_TTL), {});
      if AlwaysStops(uuid) {
        var bound: nat :| StopsWithin([Loner], Unset(UNSET_RING_TTL), uuid, bound);
        var run := UnsetNeverStops(UNSET_RING_TTL, bound + 1);
        assert false;
      }
    }
  }
}
