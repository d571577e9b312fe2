/**
 * Travel between committees: in a soundly configured network no server ever fails on a message,
 * and no message comes back to a committee it has been to.
 */
module Committees {
  import opened Wrappers
  import opened Messages
  import opened Routing
  import opened Network
  import opened Delivery

  /** The committee of the server with this name. */
  function CommitteeOf(cfgs: seq<Config>, name: string): Option<string> {
    match Lookup(cfgs, name)
    case None => None
    case Some(j) => Some(cfgs[j].committee)
  }

  function AllCommittees(cfgs: seq<Config>): set<string> {
    set c | c in cfgs :: c.committee
  }

  /** Rings stay in the committee, whose members have equally many; a reachable committee is another one and has a known member. */
  ghost predicate Sound(cfgs: seq<Config>) {
    forall j :: 0 <= j < |cfgs| ==> SoundServer(cfgs, cfgs[j])
  }

  ghost predicate SoundServer(cfgs: seq<Config>, cfg: Config) {
    && (forall i :: 0 <= i < |cfg.rings| ==>
          var next := Lookup(cfgs, cfg.rings[i].next);
          next.Some? && cfgs[next.value].committee == cfg.committee && |cfgs[next.value].rings| == |cfg.rings|)
    && (forall i :: 0 <= i < |cfg.reachable| ==>
          && cfg.reachable[i].name != cfg.committee
          && cfg.reachable[i].members != []
          && CommitteeOf(cfgs, cfg.reachable[i].members[0]) == Some(cfg.reachable[i].name))
  }

  /** A packet on its way to a server: its ring exists there, and a new message has not been to this committee. */
  ghost predicate Sane(cfgs: seq<Config>, p: Packet) {
    var j := Lookup(cfgs, p.dst);
    && Distinct(p.msg.visited)
    && AllIn(p.msg.visited, AllCommittees(cfgs))
    && (j.Some? && p.msg.IsRingTtlSet() ==> 0 <= p.msg.ringIdx < |cfgs[j.value].rings|)
    && (j.Some? && !p.msg.IsRingTtlSet() ==> cfgs[j.value].committee !in p.msg.visited)
  }

  // ----- the chosen committees -----

  /** The picked destinations are first members of committees outside `skip`. */
  ghost predicate PickedFrom(reach: seq<Reachable>, skip: seq<string>, dst: string) {
    exists i :: 0 <= i < |reach| && reach[i].name !in skip && reach[i].members != [] && reach[i].members[0] == dst
  }

  lemma {:induction false} PickFrom(reach: seq<Reachable>, skip: seq<string>, factor: int, acc: Picks)
    requires Pick(reach, skip, factor, acc).Some?
    ensures forall d :: d in Pick(reach, skip, factor, acc).value.dsts ==> d in acc.dsts || PickedFrom(reach, skip, d)
  {
    if reach != [] {
      var rest := reach[1..];
      var acc' := if reach[0].name in skip then acc else AddPick(acc, reach[0]);
      if Pick(reach, skip, factor, acc) == Pick(rest, skip, factor, acc') {
        PickFrom(rest, skip, factor, acc');
        forall d | PickedFrom(rest, skip, d) ensures PickedFrom(reach, skip, d) {
          var i :| 0 <= i < |rest| && rest[i].name !in skip && rest[i].members != [] && rest[i].members[0] == d;
          assert reach[i + 1] == rest[i];
        }
      }
      if acc' != acc {
        assert PickedFrom(reach, skip, reach[0].members[0]) by { assert reach[0] == reach[0]; }
      }
    }
  }

  lemma {:induction false} PickDefined(reach: seq<Reachable>, skip: seq<string>, factor: int, acc: Picks)
    requires forall i :: 0 <= i < |reach| ==> reach[i].members != []
    ensures Pick(reach, skip, factor, acc).Some?
  {
    if reach != [] {
      if reach[0].name in skip {
        PickDefined(reach[1..], skip, factor, acc);
      } else {
        PickDefined(reach[1..], skip, factor, AddPick(acc, reach[0]));
      }
    }
  }

  // ----- one step -----

  /** The committees a message has been to, the one it is being delivered to included. */
  function Trail(cfgs: seq<Config>, p: Packet, committee: string): set<string> {
    (set c | c in p.msg.visited) + {committee}
  }

  /**
   * What a send of a server may look like: it stays on a ring of its committee and keeps the
   * trail, or it goes to a committee that is not on the trail.
   */
  ghost predicate Legal(cfgs: seq<Config>, cfg: Config, m: ExtClrMsg, q: Packet) {
    var there := CommitteeOf(cfgs, q.dst);
    && Sane(cfgs, q)
    && there.Some?
    && (there.value == cfg.committee ==> q.msg.visited == m.visited || q.msg.visited == Visit(m.visited, cfg.committee))
    && (there.value != cfg.committee ==>
          && q.msg.visited == Visit(m.visited, cfg.committee)
          && there.value !in q.msg.visited
          && (cfg.plugin == Cpp ==> there.value !in m.sent))
  }

  lemma VisitSane(cfgs: seq<Config>, cfg: Config, visited: seq<string>)
    requires cfg in cfgs && Distinct(visited) && AllIn(visited, AllCommittees(cfgs))
    ensures Distinct(Visit(visited, cfg.committee)) && AllIn(Visit(visited, cfg.committee), AllCommittees(cfgs))
  {
  }

  /** A copy sent along one of the server's rings. */
  lemma RingSendLegal(cfgs: seq<Config>, cfg: Config, m: ExtClrMsg, i: nat, ringMsg: ExtClrMsg)
    requires Sound(cfgs) && SoundServer(cfgs, cfg) && cfg in cfgs && i < |cfg.rings|
    requires Distinct(m.visited) && AllIn(m.visited, AllCommittees(cfgs))
    requires ringMsg.visited == m.visited || (ringMsg.visited == Visit(m.visited, cfg.committee) && ringMsg.IsRingTtlSet())
    requires ringMsg.IsRingTtlSet() ==> 0 <= ringMsg.ringIdx < |cfg.rings|
    requires !ringMsg.IsRingTtlSet() ==> cfg.committee !in m.visited
    ensures Legal(cfgs, cfg, m, Packet(cfg.rings[i].next, ringMsg))
  {
    VisitSane(cfgs, cfg, m.visited);
  }

  lemma IntercomLegal(cfgs: seq<Config>, cfg: Config, m: ExtClrMsg, dst: string)
    requires SoundServer(cfgs, cfg) && cfg in cfgs && PickedFrom(cfg.reachable, SkipList(cfg, m), dst)
    requires Distinct(m.visited) && AllIn(m.visited, AllCommittees(cfgs))
    ensures Legal(cfgs, cfg, m, Packet(dst, Intercom(cfg, m)))
  {
    VisitSane(cfgs, cfg, m.visited);
    var i :| 0 <= i < |cfg.reachable| && cfg.reachable[i].name !in SkipList(cfg, m)
             && cfg.reachable[i].members != [] && cfg.reachable[i].members[0] == dst;
    assert CommitteeOf(cfgs, dst) == Some(cfg.reachable[i].name);
  }

  ghost predicate AllLegal(cfgs: seq<Config>, cfg: Config, m: ExtClrMsg, sends: seq<Send>) {
    forall i :: 0 <= i < |sends| && sends[i].ToServer? ==> Legal(cfgs, cfg, m, Packet(sends[i].dst, sends[i].msg))
  }

  lemma ForwardLegal(cfgs: seq<Config>, cfg: Config, m: ExtClrMsg)
    requires Sound(cfgs) && SoundServer(cfgs, cfg) && cfg in cfgs
    requires Distinct(m.visited) && AllIn(m.visited, AllCommittees(cfgs))
    requires cfg.rings != [] ==> m.IsRingTtlSet() && 0 <= m.ringIdx < |cfg.rings|
    ensures ForwardSends(cfg, m).Some? && AllLegal(cfgs, cfg, m, ForwardSends(cfg, m).value)
  {
    PickDefined(cfg.reachable, SkipList(cfg, m), cfg.floodingFactor, NoPicks);
    PickFrom(cfg.reachable, SkipList(cfg, m), cfg.floodingFactor, NoPicks);
    var picks := Picked(cfg, m).value;
    forall d | d in picks.dsts ensures Legal(cfgs, cfg, m, Packet(d, Intercom(cfg, m))) {
      IntercomLegal(cfgs, cfg, m, d);
    }
    forall i | 0 <= i < |cfg.rings| ensures Legal(cfgs, cfg, m, Packet(cfg.rings[i].next, Passed(cfg, m, picks))) {
      RingSendLegal(cfgs, cfg, m, i, Passed(cfg, m, picks));
    }
    var a, b := SendAll(picks.dsts, Intercom(cfg, m)), PassSends(cfg, m, picks);
    assert AllLegal(cfgs, cfg, m, a);
    assert AllLegal(cfgs, cfg, m, b);
  }

  lemma FloodLegal(cfgs: seq<Config>, cfg: Config, c: Caches, m: ExtClrMsg)
    requires Sound(cfgs) && SoundServer(cfgs, cfg) && cfg in cfgs
    requires Distinct(m.visited) && AllIn(m.visited, AllCommittees(cfgs))
    requires cfg.rings != [] ==> m.IsRingTtlSet() && 0 <= m.ringIdx < |cfg.rings|
    ensures Flood(cfg, c, m).Done? && AllLegal(cfgs, cfg, m, Flood(cfg, c, m).sends)
  {
    if m.body.to in cfg.committeeClients && cfg.rings != [] {
      RingSendLegal(cfgs, cfg, m, m.ringIdx, m);
    } else {
      ForwardLegal(cfgs, cfg, m);
    }
  }

  /** A server handles a sane message without failing, unless a cache overruns, and sends only sane ones. */
  lemma ProcessLegal(cfgs: seq<Config>, j: nat, c: Caches, m: ExtClrMsg)
    requires Sound(cfgs) && j < |cfgs|
    requires Distinct(m.visited) && AllIn(m.visited, AllCommittees(cfgs))
    requires m.IsRingTtlSet() ==> 0 <= m.ringIdx < |cfgs[j].rings|
    requires !m.IsRingTtlSet() ==> cfgs[j].committee !in m.visited
    requires AddStale(cfgs[j], c.stale, m.uuid).Some? && AddFlooded(cfgs[j], c.flooded, m.uuid).Some?
    ensures Process(cfgs[j], c, m).Done? && AllLegal(cfgs, cfgs[j], m, Process(cfgs[j], c, m).sends)
  {
    var cfg := cfgs[j];
    assert SoundServer(cfgs, cfg) && cfg in cfgs;
    if !Consumed(cfg, m) {
      if !m.IsRingTtlSet() && cfg.rings != [] {
        forall i | 0 <= i < |cfg.rings|
          ensures Legal(cfgs, cfg, m, Packet(RingMsg(cfg.rings, m, i).dst, RingMsg(cfg.rings, m, i).msg))
        {
          RingSendLegal(cfgs, cfg, m, i, RingMsg(cfg.rings, m, i).msg);
        }
      } else if m.ringTtl > 0 {
        RingSendLegal(cfgs, cfg, m, m.ringIdx, m.(ringTtl := m.ringTtl - 1));
      } else {
        var c' := Caches(AddStale(cfg, c.stale, m.uuid).value, AddFlooded(cfg, c.flooded, m.uuid).value);
        FloodLegal(cfgs, cfg, c', m);
      }
    }
  }

  // ----- whole runs: no server ever fails -----

  ghost predicate AllSane(cfgs: seq<Config>, n: Net) {
    forall i :: 0 <= i < |n.inflight| ==> Sane(cfgs, n.inflight[i])
  }

  /** Messages enter as new ones that have been nowhere yet. */
  ghost predicate EntersFresh(run: seq<Action>) {
    forall a :: a in run && a.Inject? ==> !a.packet.msg.IsRingTtlSet() && a.packet.msg.visited == []
  }

  lemma ArrivalsSane(cfgs: seq<Config>, cfg: Config, m: ExtClrMsg, sends: seq<Send>)
    requires AllLegal(cfgs, cfg, m, sends)
    ensures forall k :: 0 <= k < |Arrivals(sends)| ==> Sane(cfgs, Arrivals(sends)[k])
  {
    ArrivalsFromSends(sends);
    forall k | 0 <= k < |Arrivals(sends)| ensures Sane(cfgs, Arrivals(sends)[k]) {
      var q := Arrivals(sends)[k];
      assert q in Arrivals(sends);
    }
  }

  lemma SaneStep(cfgs: seq<Config>, n: Net, a: Action, uuids: set<int>)
    requires Sound(cfgs) && Roomy(cfgs, n, uuids) && AllSane(cfgs, n)
    requires match a
             case Inject(p) => !p.msg.IsRingTtlSet() && p.msg.visited == []
             case Deliver(i) => i < |n.inflight|
    ensures a.Deliver? ==> var o := Reception(cfgs, n, n.inflight[a.index]); o.None? || o.value.Done?
    ensures Enabled(cfgs, n, a) && AllSane(cfgs, Exec(cfgs, n, a))
  {
    if a.Deliver? {
      var p := n.inflight[a.index];
      assert p in n.inflight;
      var l := Lookup(cfgs, p.dst);
      if l.Some? {
        var j := l.value;
        AddsFit(cfgs[j], n.caches[j], p.msg.uuid, uuids);
        ProcessLegal(cfgs, j, n.caches[j], p.msg);
        var o := Process(cfgs[j], n.caches[j], p.msg);
        ArrivalsSane(cfgs, cfgs[j], p.msg, o.sends);
      }
    }
  }

  /**
   * In every run of a soundly configured network every message in flight stays sane and can be
   * delivered next, and its receiver returns normally: no out_of_range, nothing undefined.
   */
  lemma {:induction false} NeverFails(cfgs: seq<Config>, n: Net, run: seq<Action>, uuids: set<int>, i: nat)
    requires Sound(cfgs) && Roomy(cfgs, n, uuids) && AllSane(cfgs, n)
    requires IsRun(cfgs, n, run) && Carries(run, uuids) && EntersFresh(run)
    requires i < |End(cfgs, n, run).inflight|
    ensures Sane(cfgs, End(cfgs, n, run).inflight[i])
    ensures var n' := End(cfgs, n, run);
            var o := Reception(cfgs, n', n'.inflight[i]);
            o.None? || o.value.Done?
    decreases |run|
  {
    if run == [] {
      SaneStep(cfgs, n, Deliver(i), uuids);
    } else {
      assert run[0] in run;
      SaneStep(cfgs, n, run[0], uuids);
      RoomyStep(cfgs, n, run[0], uuids);
      NeverFails(cfgs, Exec(cfgs, n, run[0]), run[1..], uuids, i);
    }
  }

  // ----- causal paths -----

  /** Handling packet p at its receiver, whatever its caches hold, can send packet q. */
  ghost predicate Causes(cfgs: seq<Config>, p: Packet, q: Packet) {
    var j := Lookup(cfgs, p.dst);
    j.Some? && exists c: Caches ::
      && AddStale(cfgs[j.value], c.stale, p.msg.uuid).Some?
      && AddFlooded(cfgs[j.value], c.flooded, p.msg.uuid).Some?
      && Process(cfgs[j.value], c, p.msg).Done?
      && q in Arrivals(Process(cfgs[j.value], c, p.msg).sends)
  }

  ghost predicate IsPath(cfgs: seq<Config>, path: seq<Packet>) {
    forall i :: 0 <= i < |path| - 1 ==> Causes(cfgs, path[i], path[i + 1])
  }

  /** How often the path crosses from one committee to another. */
  function Crossings(cfgs: seq<Config>, path: seq<Packet>): nat {
    if |path| < 2 then 0
    else (if CommitteeOf(cfgs, path[0].dst) != CommitteeOf(cfgs, path[1].dst) then 1 else 0) + Crossings(cfgs, path[1..])
  }

  lemma CauseLegal(cfgs: seq<Config>, p: Packet, q: Packet)
    requires Sound(cfgs) && Sane(cfgs, p) && Causes(cfgs, p, q)
    ensures Legal(cfgs, cfgs[Lookup(cfgs, p.dst).value], p.msg, q)
  {
    var j := Lookup(cfgs, p.dst).value;
    var c: Caches :|
      && AddStale(cfgs[j], c.stale, p.msg.uuid).Some?
      && AddFlooded(cfgs[j], c.flooded, p.msg.uuid).Some?
      && Process(cfgs[j], c, p.msg).Done?
      && q in Arrivals(Process(cfgs[j], c, p.msg).sends);
    ProcessLegal(cfgs, j, c, p.msg);
    ArrivalsFromSends(Process(cfgs[j], c, p.msg).sends);
  }

  /** Crossing to another committee adds exactly one name to the trail; staying adds none. */
  lemma TrailStep(cfgs: seq<Config>, p: Packet, q: Packet)
    requires Sound(cfgs) && Sane(cfgs, p) && Causes(cfgs, p, q)
    ensures Sane(cfgs, q) && CommitteeOf(cfgs, p.dst).Some? && CommitteeOf(cfgs, q.dst).Some?
    ensures var here, there := CommitteeOf(cfgs, p.dst).value, CommitteeOf(cfgs, q.dst).value;
            var before, after := Trail(cfgs, p, here), Trail(cfgs, q, there);
            if here == there then after == before else there !in before && after == before + {there}
  {
    CauseLegal(cfgs, p, q);
  }

  lemma {:induction false} TrailGrows(cfgs: seq<Config>, path: seq<Packet>)
    requires Sound(cfgs) && IsPath(cfgs, path) && path != [] && Sane(cfgs, path[0])
    requires CommitteeOf(cfgs, path[|path| - 1].dst).Some?
    ensures CommitteeOf(cfgs, path[0].dst).Some?
    ensures var first, last := path[0], path[|path| - 1];
            |Trail(cfgs, last, CommitteeOf(cfgs, last.dst).value)|
              == |Trail(cfgs, first, CommitteeOf(cfgs, first.dst).value)| + Crossings(cfgs, path)
    ensures Sane(cfgs, path[|path| - 1])
  {
    if |path| > 1 {
      TrailStep(cfgs, path[0], path[1]);
      var rest := path[1..];
      forall i | 0 <= i < |rest| - 1 ensures Causes(cfgs, rest[i], rest[i + 1]) {
        assert Causes(cfgs, path[i + 1], path[i + 2]);
      }
      TrailGrows(cfgs, rest);
    }
  }

  lemma SubsetSize<T>(a: set<T>, b: set<T>)
    requires a <= b
    ensures |a| <= |b|
  {
    assert b == a + (b - a);
  }

  /** On any causal path, however long, a message crosses between committees fewer times than there are committees. */
  lemma FewCrossings(cfgs: seq<Config>, path: seq<Packet>)
    requires Sound(cfgs) && IsPath(cfgs, path) && path != [] && Sane(cfgs, path[0])
    requires CommitteeOf(cfgs, path[|path| - 1].dst).Some?
    ensures Crossings(cfgs, path) < |AllCommittees(cfgs)|
    ensures Distinct(path[|path| - 1].msg.visited)
  {
    TrailGrows(cfgs, path);
    TrailSize(cfgs, path[|path| - 1]);
    TrailSize(cfgs, path[0]);
  }

  /** A trail holds at least the committee it ends in, and only committees there are. */
  lemma TrailSize(cfgs: seq<Config>, p: Packet)
    requires Sane(cfgs, p) && CommitteeOf(cfgs, p.dst).Some?
    ensures 0 < |Trail(cfgs, p, CommitteeOf(cfgs, p.dst).value)| <= |AllCommittees(cfgs)|
  {
    var here := CommitteeOf(cfgs, p.dst).value;
    var trail := Trail(cfgs, p, here);
    assert here in trail;
    forall c | c in p.msg.visited ensures c in AllCommittees(cfgs) {
      var i :| 0 <= i < |p.msg.visited| && p.msg.visited[i] == c;
    }
    SubsetSize(trail, AllCommittees(cfgs));
  }
}
