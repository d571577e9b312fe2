/**
 * Delivery in one committee: when a message has entered and nothing of it is in flight any more,
 * every member has flooded it and every exit server has handed it to the client exactly once.
 */
module Delivery {
  import opened Wrappers
  import opened Messages
  import opened Routing
  import opened Network
  import opened AtMostOnce

  predicate DistinctNames(cfgs: seq<Config>) {
    forall i, j :: 0 <= i < j < |cfgs| ==> cfgs[i].name != cfgs[j].name
  }

  predicate Within(ring: seq<nat>, size: nat) {
    forall i :: 0 <= i < |ring| ==> ring[i] < size
  }

  function Next(ring: seq<nat>, i: nat): nat
    requires i < |ring|
  {
    if i + 1 < |ring| then i + 1 else 0
  }

  predicate IsMember(cfgs: seq<Config>, ring: seq<nat>, name: string)
    requires Within(ring, |cfgs|)
  {
    exists i :: 0 <= i < |ring| && cfgs[ring[i]].name == name
  }

  /** One ring of this length, and a client of the committee. */
  predicate Serves(cfg: Config, length: nat, next: string, client: string) {
    cfg.rings == [Ring(length, next)] && length > 0 && client in cfg.committeeClients && client != cfg.name
  }

  /** `ring` lists a committee whose members share one ring, a single cycle, and all know the client. */
  ghost predicate RingCommittee(cfgs: seq<Config>, ring: seq<nat>, client: string) {
    && DistinctNames(cfgs) && Distinct(ring) && ring != []
    && Within(ring, |cfgs|)
    && (forall i :: 0 <= i < |ring| ==> Serves(cfgs[ring[i]], |ring|, cfgs[ring[Next(ring, i)]].name, client))
    && (forall k, r :: 0 <= k < |cfgs| && k !in ring && r in cfgs[k].rings ==> !IsMember(cfgs, ring, r.next))
  }

  lemma {:induction false} LookupFinds(cfgs: seq<Config>, j: nat)
    requires DistinctNames(cfgs) && j < |cfgs|
    ensures Lookup(cfgs, cfgs[j].name) == Some(j)
  {
  }

  /** A message for the client that is on its way inside the committee carries the only ring's index. */
  predicate Addressed(m: ExtClrMsg, client: string) {
    m.body.to == client && m.body.text != ""
  }

  predicate OnRing(m: ExtClrMsg) {
    m.IsRingTtlSet() && m.ringIdx == 0
  }

  /** A copy whose lap is over. */
  predicate LapOver(m: ExtClrMsg) {
    OnRing(m) && m.ringTtl <= 0
  }

  /** Messages of the uuid may enter anywhere, but only as new ones. */
  predicate EntersNew(run: seq<Action>, uuid: int, client: string) {
    forall a :: a in run && a.Inject? && a.packet.msg.uuid == uuid ==>
      Addressed(a.packet.msg, client) && !a.packet.msg.IsRingTtlSet()
  }

  ghost predicate OnItsWay(n: Net, name: string, uuid: int, over: bool) {
    exists p :: p in n.inflight && p.dst == name && p.msg.uuid == uuid && OnRing(p.msg) && (over ==> LapOver(p.msg))
  }

  ghost predicate Travelling(cfgs: seq<Config>, ring: seq<nat>, n: Net, uuid: int)
    requires Within(ring, |cfgs|)
  {
    exists i :: 0 <= i < |ring| && OnItsWay(n, cfgs[ring[i]].name, uuid, false)
  }

  ghost predicate WellAddressed(cfgs: seq<Config>, ring: seq<nat>, n: Net, uuid: int, client: string)
    requires Within(ring, |cfgs|)
  {
    forall p :: p in n.inflight && p.msg.uuid == uuid ==>
      Addressed(p.msg, client) && (IsMember(cfgs, ring, p.dst) && p.msg.IsRingTtlSet() ==> OnRing(p.msg))
  }

  /** A flooded member's successor is flooded or has a finished copy on its way. */
  ghost predicate Chained(cfgs: seq<Config>, ring: seq<nat>, n: Net, uuid: int)
    requires Shaped(cfgs, n) && Within(ring, |cfgs|)
  {
    forall i :: 0 <= i < |ring| && uuid in n.caches[ring[i]].flooded ==>
      || uuid in n.caches[ring[Next(ring, i)]].flooded
      || OnItsWay(n, cfgs[ring[Next(ring, i)]].name, uuid, true)
  }

  ghost predicate SomeFlooded(ring: seq<nat>, n: Net, uuid: int)
    requires Within(ring, |n.caches|)
  {
    exists i :: 0 <= i < |ring| && uuid in n.caches[ring[i]].flooded
  }

  ghost predicate SomeStale(ring: seq<nat>, n: Net, uuid: int)
    requires Within(ring, |n.caches|)
  {
    exists i :: 0 <= i < |ring| && uuid in n.caches[ring[i]].stale
  }

  ghost predicate Inv(cfgs: seq<Config>, ring: seq<nat>, n: Net, uuids: set<int>, uuid: int, client: string) {
    && RingCommittee(cfgs, ring, client) && Roomy(cfgs, n, uuids) && uuid != UNSET_UUID
    && WellAddressed(cfgs, ring, n, uuid, client)
    && Chained(cfgs, ring, n, uuid)
    && (SomeStale(ring, n, uuid) ==> SomeFlooded(ring, n, uuid) || Travelling(cfgs, ring, n, uuid))
  }

  // ----- one step at a member -----

  /** A member passes every message on to its successor, unless it has seen or flooded it before. */
  lemma MemberHandles(cfg: Config, c: Caches, m: ExtClrMsg, uuids: set<int>, next: string, length: nat, client: string)
    requires Serves(cfg, length, next, client)
    requires Remembers(c, uuids) && m.uuid in uuids && m.uuid != UNSET_UUID && |uuids| <= Capacity(cfg)
    requires Addressed(m, client) && (m.IsRingTtlSet() ==> OnRing(m))
    ensures var o := Process(cfg, c, m);
            && o.Done?
            && o.caches.stale == Store(c.stale, m.uuid)
            && (if !m.IsRingTtlSet() then
                  && o.caches.flooded == c.flooded
                  && Arrivals(o.sends) == if m.uuid in c.stale then [] else [Packet(next, m.(ringTtl := length - 1, ringIdx := 0))]
                else if m.ringTtl > 0 then
                  && o.caches.flooded == c.flooded
                  && Arrivals(o.sends) == [Packet(next, m.(ringTtl := m.ringTtl - 1))]
                else
                  && o.caches.flooded == Store(c.flooded, m.uuid)
                  && Arrivals(o.sends) == if m.uuid in c.flooded then [] else [Packet(next, m)])
  {
    AddsFit(cfg, c, m.uuid, uuids);
    var o := Process(cfg, c, m);
    if !m.IsRingTtlSet() {
      assert RingSends(cfg.rings, m) == [RingMsg(cfg.rings, m, 0)];
    } else if m.ringTtl <= 0 && m.uuid !in c.flooded {
      var exits := ExitSends(cfg, m);
      ArrivalsConcat(exits, [ToServer(next, m)]);
    }
  }

  /** Sends to this member start afresh. */
  predicate NewFor(sends: seq<Send>, member: string) {
    forall i :: 0 <= i < |sends| && sends[i].ToServer? && sends[i].dst == member ==> !sends[i].msg.IsRingTtlSet()
  }

  lemma ForwardsNew(cfg: Config, m: ExtClrMsg, member: string)
    requires forall r :: r in cfg.rings ==> r.next != member
    ensures var f := ForwardSends(cfg, m); f.Some? ==> NewFor(f.value, member)
  {
  }

  lemma FloodsNew(cfg: Config, c: Caches, m: ExtClrMsg, member: string)
    requires forall r :: r in cfg.rings ==> r.next != member
    ensures var o := Flood(cfg, c, m); !o.Undefined? ==> NewFor(o.sends, member)
  {
    ForwardsNew(cfg, m, member);
  }

  lemma ProcessNew(cfg: Config, c: Caches, m: ExtClrMsg, member: string)
    requires !Process(cfg, c, m).Undefined?
    requires forall r :: r in cfg.rings ==> r.next != member
    ensures NewFor(Process(cfg, c, m).sends, member)
  {
    var stale, flooded := AddStale(cfg, c.stale, m.uuid), AddFlooded(cfg, c.flooded, m.uuid);
    if stale.Some? && flooded.Some? {
      FloodsNew(cfg, Caches(stale.value, flooded.value), m, member);
    }
  }

  /** A server outside the committee reaches members with new messages only. */
  lemma OutsiderSends(cfg: Config, c: Caches, m: ExtClrMsg, member: string)
    requires !Process(cfg, c, m).Undefined?
    requires forall r :: r in cfg.rings ==> r.next != member
    ensures forall p :: p in Arrivals(Process(cfg, c, m).sends) && p.dst == member ==> !p.msg.IsRingTtlSet()
  {
    var sends := Process(cfg, c, m).sends;
    ArrivalsFromSends(sends);
    ProcessNew(cfg, c, m, member);
    forall p | p in Arrivals(sends) && p.dst == member ensures !p.msg.IsRingTtlSet() {
      var i :| 0 <= i < |sends| && sends[i] == ToServer(p.dst, p.msg);
    }
  }

  // ----- one step of the network -----

  lemma StaysInFlight(cfgs: seq<Config>, n: Net, a: Action, q: Packet)
    requires Shaped(cfgs, n) && Enabled(cfgs, n, a) && q in n.inflight
    requires a.Deliver? ==> q != n.inflight[a.index]
    ensures q in Exec(cfgs, n, a).inflight
  {
    if a.Deliver? {
      var k :| 0 <= k < |n.inflight| && n.inflight[k] == q;
      var rest := RemoveAt(n.inflight, a.index);
      assert rest[if k < a.index then k else k - 1] == q;
    }
  }

  lemma KeepsOnItsWay(cfgs: seq<Config>, n: Net, a: Action, name: string, uuid: int, over: bool)
    requires Shaped(cfgs, n) && Enabled(cfgs, n, a) && OnItsWay(n, name, uuid, over)
    requires a.Deliver? ==> var m := n.inflight[a.index];
               m.dst != name || m.msg.uuid != uuid || !OnRing(m.msg) || (over && !LapOver(m.msg))
    ensures OnItsWay(Exec(cfgs, n, a), name, uuid, over)
  {
    var q :| q in n.inflight && q.dst == name && q.msg.uuid == uuid && OnRing(q.msg) && (over ==> LapOver(q.msg));
    StaysInFlight(cfgs, n, a, q);
  }

  /** The step hands no message of this uuid to a member. */
  predicate Elsewhere(cfgs: seq<Config>, ring: seq<nat>, n: Net, a: Action, uuid: int)
    requires Within(ring, |cfgs|)
  {
    a.Deliver? && a.index < |n.inflight| ==>
      n.inflight[a.index].msg.uuid != uuid || !IsMember(cfgs, ring, n.inflight[a.index].dst)
  }

  lemma ElsewhereKeepsMembers(cfgs: seq<Config>, ring: seq<nat>, n: Net, a: Action, uuids: set<int>, uuid: int)
    requires Roomy(cfgs, n, uuids) && Enabled(cfgs, n, a) && uuid != UNSET_UUID
    requires Within(ring, |cfgs|) && Elsewhere(cfgs, ring, n, a, uuid)
    ensures var n' := Exec(cfgs, n, a);
            forall i :: 0 <= i < |ring| ==>
              && (uuid in n'.caches[ring[i]].stale <==> uuid in n.caches[ring[i]].stale)
              && (uuid in n'.caches[ring[i]].flooded <==> uuid in n.caches[ring[i]].flooded)
  {
    if a.Deliver? {
      var p := n.inflight[a.index];
      var l := Lookup(cfgs, p.dst);
      if l.Some? {
        CachesGrow(cfgs[l.value], n.caches[l.value], p.msg, uuids);
      }
    }
  }

  lemma ElsewhereKeepsInv(cfgs: seq<Config>, ring: seq<nat>, n: Net, a: Action, uuids: set<int>, uuid: int, client: string)
    requires Inv(cfgs, ring, n, uuids, uuid, client) && Enabled(cfgs, n, a) && Elsewhere(cfgs, ring, n, a, uuid)
    ensures var n' := Exec(cfgs, n, a);
            && Chained(cfgs, ring, n', uuid)
            && (SomeStale(ring, n', uuid) ==> SomeFlooded(ring, n', uuid) || Travelling(cfgs, ring, n', uuid))
  {
    var n' := Exec(cfgs, n, a);
    ElsewhereKeepsMembers(cfgs, ring, n, a, uuids, uuid);
    forall i, over | 0 <= i < |ring| && OnItsWay(n, cfgs[ring[i]].name, uuid, over)
      ensures OnItsWay(n', cfgs[ring[i]].name, uuid, over)
    {
      assert IsMember(cfgs, ring, cfgs[ring[i]].name);
      KeepsOnItsWay(cfgs, n, a, cfgs[ring[i]].name, uuid, over);
    }
    if SomeStale(ring, n', uuid) {
      assert SomeStale(ring, n, uuid);
      if SomeFlooded(ring, n, uuid) {
        assert SomeFlooded(ring, n', uuid);
      }
    }
  }

  /** The delivery of a message of this uuid to the i-th member. */
  predicate ToMember(cfgs: seq<Config>, ring: seq<nat>, n: Net, a: Action, uuid: int, i: nat) {
    && i < |ring| && ring[i] < |cfgs| && a.Deliver? && a.index < |n.inflight|
    && n.inflight[a.index].msg.uuid == uuid && n.inflight[a.index].dst == cfgs[ring[i]].name
  }

  lemma ExecAt(cfgs: seq<Config>, n: Net, a: Action, j: nat)
    requires Shaped(cfgs, n) && a.Deliver? && a.index < |n.inflight| && Lookup(cfgs, n.inflight[a.index].dst) == Some(j)
    requires Process(cfgs[j], n.caches[j], n.inflight[a.index].msg).Done?
    ensures Enabled(cfgs, n, a)
    ensures var o := Process(cfgs[j], n.caches[j], n.inflight[a.index].msg);
            Exec(cfgs, n, a) == Net(n.caches[j := o.caches], RemoveAt(n.inflight, a.index) + Arrivals(o.sends))
  {
  }

  lemma ArrivesOnItsWay(before: seq<Packet>, arrived: seq<Packet>, caches: seq<Caches>)
    ensures arrived != [] && OnRing(arrived[0].msg) ==>
              OnItsWay(Net(caches, before + arrived), arrived[0].dst, arrived[0].msg.uuid, LapOver(arrived[0].msg))
  {
    if arrived != [] {
      assert arrived[0] in before + arrived;
    }
  }

  /** What is new in the network after a delivery to a member. */
  ghost predicate StepsOn(n: Net, n': Net, m: ExtClrMsg, j: nat, next: string)
    requires j < |n.caches| == |n'.caches|
  {
    && (forall k :: 0 <= k < |n.caches| && k != j ==> n'.caches[k] == n.caches[k])
    && m.uuid in n'.caches[j].stale
    && (m.uuid in n'.caches[j].flooded <==> m.uuid in n.caches[j].flooded || LapOver(m))
    && (LapOver(m) && m.uuid !in n.caches[j].flooded ==> OnItsWay(n', next, m.uuid, true))
    && (!LapOver(m) && (OnRing(m) || m.uuid !in n.caches[j].stale) ==> OnItsWay(n', next, m.uuid, false))
  }

  /** The same facts about any network that holds the new caches and the new arrivals. */
  lemma HandledStepsOn(n: Net, n': Net, m: ExtClrMsg, j: nat, next: string, c': Caches, before: seq<Packet>, arrived: seq<Packet>)
    requires j < |n.caches| && n' == Net(n.caches[j := c'], before + arrived)
    requires m.uuid != UNSET_UUID && c'.stale == Store(n.caches[j].stale, m.uuid)
    requires m.IsRingTtlSet() ==> OnRing(m)
    requires c'.flooded == if LapOver(m) then Store(n.caches[j].flooded, m.uuid) else n.caches[j].flooded
    requires if LapOver(m) then m.uuid !in n.caches[j].flooded ==> arrived == [Packet(next, m)]
             else OnRing(m) || m.uuid !in n.caches[j].stale ==>
               exists q :: arrived == [q] && q.dst == next && q.msg.uuid == m.uuid && OnRing(q.msg)
    ensures StepsOn(n, n', m, j, next)
  {
    ArrivesOnItsWay(before, arrived, n.caches[j := c']);
  }

  lemma ServerStepsOn(cfgs: seq<Config>, n: Net, a: Action, j: nat, uuids: set<int>, next: string, length: nat, client: string)
    requires Shaped(cfgs, n) && a.Deliver? && a.index < |n.inflight| && Lookup(cfgs, n.inflight[a.index].dst) == Some(j)
    requires Serves(cfgs[j], length, next, client)
    requires var m := n.inflight[a.index].msg;
             && Remembers(n.caches[j], uuids) && m.uuid in uuids && m.uuid != UNSET_UUID && |uuids| <= Capacity(cfgs[j])
             && Addressed(m, client) && (m.IsRingTtlSet() ==> OnRing(m))
    ensures Enabled(cfgs, n, a)
    ensures StepsOn(n, Exec(cfgs, n, a), n.inflight[a.index].msg, j, next)
  {
    var m := n.inflight[a.index].msg;
    MemberHandles(cfgs[j], n.caches[j], m, uuids, next, length, client);
    ExecAt(cfgs, n, a, j);
    var o := Process(cfgs[j], n.caches[j], m);
    HandledStepsOn(n, Exec(cfgs, n, a), m, j, next, o.caches, RemoveAt(n.inflight, a.index), Arrivals(o.sends));
  }

  lemma MemberStep(cfgs: seq<Config>, ring: seq<nat>, n: Net, a: Action, uuids: set<int>, uuid: int, client: string, i: nat)
    requires Inv(cfgs, ring, n, uuids, uuid, client) && ToMember(cfgs, ring, n, a, uuid, i)
    ensures Enabled(cfgs, n, a)
    ensures StepsOn(n, Exec(cfgs, n, a), n.inflight[a.index].msg, ring[i], cfgs[ring[Next(ring, i)]].name)
  {
    var p := n.inflight[a.index];
    assert p in n.inflight && IsMember(cfgs, ring, p.dst);
    LookupFinds(cfgs, ring[i]);
    ServerStepsOn(cfgs, n, a, ring[i], uuids, cfgs[ring[Next(ring, i)]].name, |ring|, client);
  }

  lemma MemberStepChained(cfgs: seq<Config>, ring: seq<nat>, n: Net, a: Action, uuids: set<int>, uuid: int, client: string, i: nat)
    requires Inv(cfgs, ring, n, uuids, uuid, client) && ToMember(cfgs, ring, n, a, uuid, i)
    ensures Enabled(cfgs, n, a) && Chained(cfgs, ring, Exec(cfgs, n, a), uuid)
  {
    MemberStep(cfgs, ring, n, a, uuids, uuid, client, i);
    var n' := Exec(cfgs, n, a);
    var m := n.inflight[a.index].msg;
    forall k | 0 <= k < |ring| && uuid in n'.caches[ring[k]].flooded
      ensures uuid in n'.caches[ring[Next(ring, k)]].flooded || OnItsWay(n', cfgs[ring[Next(ring, k)]].name, uuid, true)
    {
      var next := Next(ring, k);
      if k == i && uuid !in n.caches[ring[i]].flooded {
      } else if next == i {
        // Its predecessor's copy may be the one just delivered; then the member itself is flooded now.
        if !LapOver(m) && OnItsWay(n, cfgs[ring[i]].name, uuid, true) {
          KeepsOnItsWay(cfgs, n, a, cfgs[ring[i]].name, uuid, true);
        }
      } else if uuid !in n.caches[ring[next]].flooded {
        assert OnItsWay(n, cfgs[ring[next]].name, uuid, true);
        KeepsOnItsWay(cfgs, n, a, cfgs[ring[next]].name, uuid, true);
      }
    }
  }

  lemma MemberStepEntered(cfgs: seq<Config>, ring: seq<nat>, n: Net, a: Action, uuids: set<int>, uuid: int, client: string, i: nat)
    requires Inv(cfgs, ring, n, uuids, uuid, client) && ToMember(cfgs, ring, n, a, uuid, i)
    ensures Enabled(cfgs, n, a)
    ensures SomeFlooded(ring, Exec(cfgs, n, a), uuid) || Travelling(cfgs, ring, Exec(cfgs, n, a), uuid)
  {
    MemberStep(cfgs, ring, n, a, uuids, uuid, client, i);
    var n' := Exec(cfgs, n, a);
    var m := n.inflight[a.index].msg;
    if LapOver(m) {
      assert uuid in n'.caches[ring[i]].flooded;
    } else if OnRing(m) || uuid !in n.caches[ring[i]].stale {
      assert OnItsWay(n', cfgs[ring[Next(ring, i)]].name, uuid, false);
    } else if SomeFlooded(ring, n, uuid) {
      var k :| 0 <= k < |ring| && uuid in n.caches[ring[k]].flooded;
      assert uuid in n'.caches[ring[k]].flooded;
    } else {
      assert SomeStale(ring, n, uuid);
      var k :| 0 <= k < |ring| && OnItsWay(n, cfgs[ring[k]].name, uuid, false);
      KeepsOnItsWay(cfgs, n, a, cfgs[ring[k]].name, uuid, false);
    }
  }

  lemma AddressedStep(cfgs: seq<Config>, ring: seq<nat>, n: Net, a: Action, uuids: set<int>, uuid: int, client: string)
    requires Inv(cfgs, ring, n, uuids, uuid, client) && Enabled(cfgs, n, a)
    requires a.Inject? && a.packet.msg.uuid == uuid ==> Addressed(a.packet.msg, client) && !a.packet.msg.IsRingTtlSet()
    ensures WellAddressed(cfgs, ring, Exec(cfgs, n, a), uuid, client)
  {
    if a.Deliver? {
      var p := n.inflight[a.index];
      assert p in n.inflight;
      var l := Lookup(cfgs, p.dst);
      if l.Some? {
        var j := l.value;
        var o := Process(cfgs[j], n.caches[j], p.msg);
        SendsVersions(cfgs[j], n.caches[j], p.msg);
        ArrivalsFromSends(o.sends);
        forall q | q in Arrivals(o.sends) && q.msg.uuid == uuid
          ensures Addressed(q.msg, client) && (IsMember(cfgs, ring, q.dst) && q.msg.IsRingTtlSet() ==> OnRing(q.msg))
        {
          assert q.msg.body == p.msg.body;
          if j in ring {
            var i :| 0 <= i < |ring| && ring[i] == j;
            MemberHandles(cfgs[j], n.caches[j], p.msg, uuids, cfgs[ring[Next(ring, i)]].name, |ring|, client);
          } else if IsMember(cfgs, ring, q.dst) {
            OutsiderSends(cfgs[j], n.caches[j], p.msg, q.dst);
          }
        }
      }
    }
  }

  lemma InvStep(cfgs: seq<Config>, ring: seq<nat>, n: Net, a: Action, uuids: set<int>, uuid: int, client: string)
    requires Inv(cfgs, ring, n, uuids, uuid, client) && Enabled(cfgs, n, a)
    requires a.Inject? ==> Known(a.packet.msg.uuid, uuids)
    requires a.Inject? && a.packet.msg.uuid == uuid ==> Addressed(a.packet.msg, client) && !a.packet.msg.IsRingTtlSet()
    ensures Inv(cfgs, ring, Exec(cfgs, n, a), uuids, uuid, client)
  {
    RoomyStep(cfgs, n, a, uuids);
    AddressedStep(cfgs, ring, n, a, uuids, uuid, client);
    if Elsewhere(cfgs, ring, n, a, uuid) {
      ElsewhereKeepsInv(cfgs, ring, n, a, uuids, uuid, client);
    } else {
      var i :| 0 <= i < |ring| && cfgs[ring[i]].name == n.inflight[a.index].dst;
      MemberStepChained(cfgs, ring, n, a, uuids, uuid, client, i);
      MemberStepEntered(cfgs, ring, n, a, uuids, uuid, client, i);
    }
  }

  lemma {:induction false} InvRun(
    cfgs: seq<Config>, ring: seq<nat>, n: Net, run: seq<Action>, uuids: set<int>, uuid: int, client: string)
    requires Inv(cfgs, ring, n, uuids, uuid, client) && IsRun(cfgs, n, run)
    requires Carries(run, uuids) && EntersNew(run, uuid, client)
    ensures Inv(cfgs, ring, End(cfgs, n, run), uuids, uuid, client)
    decreases |run|
  {
    if run != [] {
      assert run[0] in run;
      InvStep(cfgs, ring, n, run[0], uuids, uuid, client);
      InvRun(cfgs, ring, Exec(cfgs, n, run[0]), run[1..], uuids, uuid, client);
    }
  }

  // ----- quiescence -----

  ghost predicate Quiescent(cfgs: seq<Config>, ring: seq<nat>, n: Net, uuid: int)
    requires Within(ring, |cfgs|)
  {
    forall p :: p in n.inflight && p.msg.uuid == uuid ==> !IsMember(cfgs, ring, p.dst)
  }

  /** Round the cycle from a flooded member, as far as another one later in the list. */
  lemma {:induction false} FloodedOnwards(cfgs: seq<Config>, ring: seq<nat>, n: Net, uuid: int, from: nat, to: nat)
    requires Shaped(cfgs, n) && Within(ring, |cfgs|)
    requires Chained(cfgs, ring, n, uuid) && Quiescent(cfgs, ring, n, uuid)
    requires from < |ring| && from <= to < |ring| && uuid in n.caches[ring[from]].flooded
    ensures uuid in n.caches[ring[to]].flooded
    decreases |ring| - from
  {
    if from < to {
      assert IsMember(cfgs, ring, cfgs[ring[Next(ring, from)]].name);
      FloodedOnwards(cfgs, ring, n, uuid, from + 1, to);
    }
  }

  lemma AllFlooded(cfgs: seq<Config>, ring: seq<nat>, n: Net, uuid: int, i: nat)
    requires Shaped(cfgs, n) && Within(ring, |cfgs|)
    requires Chained(cfgs, ring, n, uuid) && Quiescent(cfgs, ring, n, uuid)
    requires SomeFlooded(ring, n, uuid) || Travelling(cfgs, ring, n, uuid)
    requires i < |ring|
    ensures uuid in n.caches[ring[i]].flooded
  {
    assert forall k :: 0 <= k < |ring| ==> IsMember(cfgs, ring, cfgs[ring[k]].name);
    var start :| 0 <= start < |ring| && uuid in n.caches[ring[start]].flooded;
    FloodedOnwards(cfgs, ring, n, uuid, start, |ring| - 1);
    assert Next(ring, |ring| - 1) == 0;
    FloodedOnwards(cfgs, ring, n, uuid, 0, i);
  }

  /** Nothing of this uuid has been seen by the committee or is in flight. */
  ghost predicate Untouched(ring: seq<nat>, n: Net, uuid: int)
    requires Within(ring, |n.caches|)
  {
    && (forall i :: 0 <= i < |ring| ==> uuid !in n.caches[ring[i]].stale && uuid !in n.caches[ring[i]].flooded)
    && (forall p :: p in n.inflight ==> p.msg.uuid != uuid)
  }

  /**
   * Whatever else happens in the network: once a message of the uuid has reached the committee
   * and none is left on its way to a member, all members have flooded it, and over the whole run
   * every member at which the client exits handed it, a body that entered under this uuid, to this
   * client and no other, exactly once; all other members handed nothing to any client.
   */
  lemma DeliveredAtQuiescence(
    cfgs: seq<Config>, ring: seq<nat>, n: Net, run: seq<Action>, uuids: set<int>, uuid: int, client: string, i: nat)
    requires RingCommittee(cfgs, ring, client) && Roomy(cfgs, n, uuids) && uuid != UNSET_UUID && i < |ring|
    requires Untouched(ring, n, uuid) && IsRun(cfgs, n, run)
    requires Carries(run, uuids) && EntersNew(run, uuid, client)
    requires Quiescent(cfgs, ring, End(cfgs, n, run), uuid) && SomeStale(ring, End(cfgs, n, run), uuid)
    ensures uuid in End(cfgs, n, run).caches[ring[i]].flooded
    ensures
      var handed := Tallied(cfgs, n, run, ring[i], uuid).handed;
      if client in cfgs[ring[i]].exitClients then HandsOver(n, run, uuid, client, handed) else handed == []
  {
    InvRun(cfgs, ring, n, run, uuids, uuid, client);
    AllFlooded(cfgs, ring, End(cfgs, n, run), uuid, i);
    RoomyHandlesOnly(cfgs, n, run, ring[i], uuids);
    RunTally(cfgs, n, run, uuids, ring[i], uuid, client);
  }

  /** When one body enters under the uuid, that very body is what each exit server hands to the client. */
  lemma DeliveredIntact(
    cfgs: seq<Config>, ring: seq<nat>, n: Net, run: seq<Action>, uuids: set<int>, uuid: int, body: ClrMsg, i: nat)
    requires RingCommittee(cfgs, ring, body.to) && Roomy(cfgs, n, uuids) && uuid != UNSET_UUID && i < |ring|
    requires Untouched(ring, n, uuid) && IsRun(cfgs, n, run)
    requires Carries(run, uuids) && EntersNew(run, uuid, body.to)
    requires forall clr :: Enters(n, run, uuid, clr) ==> clr == body
    requires Quiescent(cfgs, ring, End(cfgs, n, run), uuid) && SomeStale(ring, End(cfgs, n, run), uuid)
    ensures Tallied(cfgs, n, run, ring[i], uuid).handed
         == if body.to in cfgs[ring[i]].exitClients then [ToClient(body.to, body)] else []
  {
    DeliveredAtQuiescence(cfgs, ring, n, run, uuids, uuid, body.to, i);
  }
}
