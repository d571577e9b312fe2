/**
 * A network of servers and the messages in flight between them. Any message in flight may be
 * delivered next, and new messages may enter at any time; C++ and Python servers may be mixed.
 */
module Network {
  import opened Wrappers
  import opened Messages
  import opened Routing
  import C = UuidCache

  datatype Packet = Packet(dst: string, msg: ExtClrMsg)

  /** `caches[j]` belongs to the j-th server; `inflight` is a bag, its order means nothing. */
  datatype Net = Net(caches: seq<Caches>, inflight: seq<Packet>)

  datatype Action = Inject(packet: Packet) | Deliver(index: nat)

  /** The position of the server with this name. */
  function Lookup(cfgs: seq<Config>, name: string): (r: Option<nat>)
    ensures r.Some? ==> r.value < |cfgs| && cfgs[r.value].name == name
    ensures r.None? ==> forall j :: 0 <= j < |cfgs| ==> cfgs[j].name != name
  {
    if cfgs == [] then None
    else if cfgs[|cfgs| - 1].name == name then Some(|cfgs| - 1)
    else Lookup(cfgs[..|cfgs| - 1], name)
  }

  /** The packets among the sends of one step that travel to other servers. */
  function Arrivals(sends: seq<Send>): seq<Packet> {
    if sends == [] then []
    else (match sends[0]
          case ToServer(dst, msg) => [Packet(dst, msg)]
          case ToClient(_, _) => []) + Arrivals(sends[1..])
  }

  predicate Shaped(cfgs: seq<Config>, n: Net) {
    |n.caches| == |cfgs|
  }

  /** What happens at the receiver of a packet; a packet for an unknown name is lost. */
  function Reception(cfgs: seq<Config>, n: Net, p: Packet): Option<Outcome>
    requires Shaped(cfgs, n)
  {
    match Lookup(cfgs, p.dst)
    case None => None
    case Some(j) => Some(Process(cfgs[j], n.caches[j], p.msg))
  }

  predicate Enabled(cfgs: seq<Config>, n: Net, a: Action)
    requires Shaped(cfgs, n)
  {
    a.Deliver? ==>
      && a.index < |n.inflight|
      && (var r := Reception(cfgs, n, n.inflight[a.index]); r.Some? ==> !r.value.Undefined?)
  }

  function Exec(cfgs: seq<Config>, n: Net, a: Action): (n': Net)
    requires Shaped(cfgs, n) && Enabled(cfgs, n, a)
    ensures Shaped(cfgs, n')
  {
    match a
    case Inject(p) => n.(inflight := n.inflight + [p])
    case Deliver(i) =>
      var p := n.inflight[i];
      var rest := RemoveAt(n.inflight, i);
      match Lookup(cfgs, p.dst)
      case None => n.(inflight := rest)
      case Some(j) =>
        var o := Process(cfgs[j], n.caches[j], p.msg);
        Net(n.caches[j := o.caches], rest + Arrivals(o.sends))
  }

  predicate IsRun(cfgs: seq<Config>, n: Net, run: seq<Action>)
    requires Shaped(cfgs, n)
    decreases |run|
  {
    run == [] || (Enabled(cfgs, n, run[0]) && IsRun(cfgs, Exec(cfgs, n, run[0]), run[1..]))
  }

  function End(cfgs: seq<Config>, n: Net, run: seq<Action>): (n': Net)
    requires Shaped(cfgs, n) && IsRun(cfgs, n, run)
    ensures Shaped(cfgs, n')
    decreases |run|
  {
    if run == [] then n else End(cfgs, Exec(cfgs, n, run[0]), run[1..])
  }

  // ----- caches that never have to forget -----

  ghost predicate Remembers(c: Caches, uuids: set<int>) {
    && Distinct(c.stale) && AllIn(c.stale, uuids)
    && Distinct(c.flooded) && AllIn(c.flooded, uuids)
  }

  /** One of the uuids in use; the unset uuid is never stored and takes no room. */
  predicate Known(uuid: int, uuids: set<int>) {
    uuid in uuids || uuid == UNSET_UUID
  }

  /** All traffic carries uuids of a set that fits every server's caches. */
  ghost predicate Roomy(cfgs: seq<Config>, n: Net, uuids: set<int>) {
    && Shaped(cfgs, n)
    && UNSET_UUID !in uuids
    && (forall j :: 0 <= j < |cfgs| ==> |uuids| <= Capacity(cfgs[j]))
    && (forall j :: 0 <= j < |cfgs| ==> Remembers(n.caches[j], uuids))
    && (forall p :: p in n.inflight ==> Known(p.msg.uuid, uuids))
  }

  predicate Carries(run: seq<Action>, uuids: set<int>) {
    forall a :: a in run && a.Inject? ==> Known(a.packet.msg.uuid, uuids)
  }

  function Store(s: seq<int>, uuid: int): seq<int> {
    if uuid == UNSET_UUID then s else C.Push(s, uuid)
  }

  /** The two adds of a server whose caches have room: a plain duplicate-free append. */
  lemma AddsFit(cfg: Config, c: Caches, uuid: int, uuids: set<int>)
    requires Remembers(c, uuids) && Known(uuid, uuids) && |uuids| <= Capacity(cfg)
    ensures AddStale(cfg, c.stale, uuid) == Some(Store(c.stale, uuid))
    ensures AddFlooded(cfg, c.flooded, uuid) == Some(Store(c.flooded, uuid))
    ensures Remembers(Caches(Store(c.stale, uuid), Store(c.flooded, uuid)), uuids)
  {
    DistinctFits(c.stale, uuids);
    DistinctFits(c.flooded, uuids);
  }

  /** Every message a step sends to another server is a version of the one received. */
  ghost predicate VersionsOf(sends: seq<Send>, m: ExtClrMsg) {
    forall i :: 0 <= i < |sends| && sends[i].ToServer? ==> sends[i].msg.uuid == m.uuid && sends[i].msg.body == m.body
  }

  lemma ForwardsVersions(cfg: Config, m: ExtClrMsg)
    ensures var f := ForwardSends(cfg, m); f.Some? ==> VersionsOf(f.value, m)
  {
  }

  lemma FloodVersions(cfg: Config, c: Caches, m: ExtClrMsg)
    ensures var o := Flood(cfg, c, m); !o.Undefined? ==> VersionsOf(o.sends, m)
  {
    ForwardsVersions(cfg, m);
  }

  lemma SendsVersions(cfg: Config, c: Caches, m: ExtClrMsg)
    requires !Process(cfg, c, m).Undefined?
    ensures VersionsOf(Process(cfg, c, m).sends, m)
  {
    var stale := AddStale(cfg, c.stale, m.uuid);
    var flooded := AddFlooded(cfg, c.flooded, m.uuid);
    if stale.Some? && flooded.Some? {
      FloodVersions(cfg, Caches(stale.value, flooded.value), m);
    }
  }

  lemma FloodKeepsCaches(cfg: Config, c: Caches, m: ExtClrMsg)
    ensures !Flood(cfg, c, m).Undefined? ==> Flood(cfg, c, m).caches == c
  {
  }

  predicate Grown(c: Caches, c': Caches, uuid: int) {
    && (c'.stale == c.stale || c'.stale == Store(c.stale, uuid))
    && (c'.flooded == c.flooded || c'.flooded == Store(c.flooded, uuid))
  }

  lemma StartRingCaches(cfg: Config, c: Caches, m: ExtClrMsg, stale: seq<int>)
    requires AddStale(cfg, c.stale, m.uuid) == Some(stale)
    ensures var o := StartRing(cfg, c, m); o.Done? && (o.caches == c || o.caches == c.(stale := stale))
  {
  }

  lemma HandleRingCaches(cfg: Config, c: Caches, m: ExtClrMsg, stale: seq<int>, flooded: seq<int>)
    requires AddStale(cfg, c.stale, m.uuid) == Some(stale) && AddFlooded(cfg, c.flooded, m.uuid) == Some(flooded)
    ensures var o := HandleRing(cfg, c, m);
      !o.Undefined? ==> o.caches == c.(stale := stale) || o.caches == Caches(stale, flooded)
  {
    if m.ringTtl > 0 {
    } else if m.uuid in c.flooded {
    } else {
      FloodKeepsCaches(cfg, Caches(stale, flooded), m);
      assert HandleRing(cfg, c, m) == Flood(cfg, Caches(stale, flooded), m);
    }
  }

  /** One step's effect on the caches, in terms of membership. */
  lemma CachesGrow(cfg: Config, c: Caches, m: ExtClrMsg, uuids: set<int>)
    requires Remembers(c, uuids) && Known(m.uuid, uuids) && |uuids| <= Capacity(cfg)
    requires !Process(cfg, c, m).Undefined?
    ensures var c' := Process(cfg, c, m).caches; Remembers(c', uuids) && Grown(c, c', m.uuid)
  {
    AddsFit(cfg, c, m.uuid, uuids);
    StartRingCaches(cfg, c, m, Store(c.stale, m.uuid));
    HandleRingCaches(cfg, c, m, Store(c.stale, m.uuid), Store(c.flooded, m.uuid));
    assert Grown(c, Process(cfg, c, m).caches, m.uuid);
  }

  lemma {:induction false} ArrivalsFromSends(sends: seq<Send>)
    ensures forall p :: p in Arrivals(sends) <==> ToServer(p.dst, p.msg) in sends
  {
    if sends != [] {
      ArrivalsFromSends(sends[1..]);
      assert sends == [sends[0]] + sends[1..];
    }
  }

  lemma {:induction false} ArrivalsConcat(a: seq<Send>, b: seq<Send>)
    ensures Arrivals(a + b) == Arrivals(a) + Arrivals(b)
  {
    if a == [] {
      assert a + b == b;
    } else {
      ArrivalsConcat(a[1..], b);
      assert (a + b)[1..] == a[1..] + b;
    }
  }

  lemma RoomyStep(cfgs: seq<Config>, n: Net, a: Action, uuids: set<int>)
    requires Roomy(cfgs, n, uuids) && Enabled(cfgs, n, a)
    requires a.Inject? ==> Known(a.packet.msg.uuid, uuids)
    ensures Roomy(cfgs, Exec(cfgs, n, a), uuids)
  {
    if a.Deliver? {
      var p := n.inflight[a.index];
      var l := Lookup(cfgs, p.dst);
      if l.Some? {
        var o := Process(cfgs[l.value], n.caches[l.value], p.msg);
        CachesGrow(cfgs[l.value], n.caches[l.value], p.msg, uuids);
        SendsVersions(cfgs[l.value], n.caches[l.value], p.msg);
        ArrivalsFromSends(o.sends);
      }
    }
  }
}
