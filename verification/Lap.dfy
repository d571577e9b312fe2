/** A lap of a ring message: round a cycle of servers and back to where it started. */
module Lap {
  import opened Wrappers
  import opened Messages
  import opened Routing
  import opened Network
  import opened AtMostOnce
  import opened Delivery

  /** `ring` lists servers whose r-th ring is the same cycle through all of them. */
  ghost predicate CyclicRing(cfgs: seq<Config>, ring: seq<nat>, r: nat) {
    && DistinctNames(cfgs) && Distinct(ring) && ring != [] && Within(ring, |cfgs|)
    && (forall i :: 0 <= i < |ring| ==> LeadsOn(cfgs, ring, r, i))
  }

  /** The r-th ring of the i-th server leads to the server after it. */
  predicate LeadsOn(cfgs: seq<Config>, ring: seq<nat>, r: nat, i: nat)
    requires i < |ring| && Within(ring, |cfgs|)
  {
    r < |cfgs[ring[i]].rings| && cfgs[ring[i]].rings[r] == Ring(|ring|, cfgs[ring[Next(ring, i)]].name)
  }

  /** The position k hops on from position i. */
  function Ahead(size: nat, i: nat, k: nat): (p: nat)
    requires i < size && k <= size
    ensures p < size && (0 < k < size ==> p != i)
    ensures k == size ==> p == i
  {
    if i + k < size then i + k else i + k - size
  }

  lemma AheadNext(ring: seq<nat>, i: nat, k: nat)
    requires i < |ring| && k < |ring|
    ensures Next(ring, Ahead(|ring|, i, k)) == Ahead(|ring|, i, k + 1)
  {
  }

  /** The packet on its k-th hop after the server at position i started the lap. */
  function Hop(cfgs: seq<Config>, ring: seq<nat>, r: nat, i: nat, m: ExtClrMsg, k: nat): Packet
    requires Within(ring, |cfgs|) && i < |ring| && 1 <= k <= |ring|
  {
    Packet(cfgs[ring[Ahead(|ring|, i, k)]].name, m.(ringTtl := |ring| - k, ringIdx := r))
  }

  /** Starting the rings puts the first hop in flight. */
  lemma LapStarts(cfgs: seq<Config>, ring: seq<nat>, r: nat, i: nat, c: Caches, m: ExtClrMsg)
    requires CyclicRing(cfgs, ring, r) && i < |ring|
    requires !m.IsRingTtlSet() && !Consumed(cfgs[ring[i]], m) && m.uuid !in c.stale
    requires !Process(cfgs[ring[i]], c, m).Undefined?
    ensures var hop := Hop(cfgs, ring, r, i, m, 1);
            var o := Process(cfgs[ring[i]], c, m);
            r < |o.sends| == |cfgs[ring[i]].rings| && o.sends[r] == ToServer(hop.dst, hop.msg)
  {
    AheadNext(ring, i, 0);
    assert LeadsOn(cfgs, ring, r, i);
    assert RingSends(cfgs[ring[i]].rings, m)[r] == RingMsg(cfgs[ring[i]].rings, m, r);
  }

  /** A message with hops left is marked stale and handed to the next server, and that is all. */
  lemma HandsOn(cfg: Config, c: Caches, m: ExtClrMsg, uuids: set<int>)
    requires m.ringTtl > 0 && 0 <= m.ringIdx < |cfg.rings| && !Consumed(cfg, m)
    requires Remembers(c, uuids) && m.uuid in uuids && m.uuid != UNSET_UUID && |uuids| <= Capacity(cfg)
    ensures Process(cfg, c, m) == Done(
              c.(stale := Store(c.stale, m.uuid)),
              [ToServer(cfg.rings[m.ringIdx].next, m.(ringTtl := m.ringTtl - 1))])
  {
    AddsFit(cfg, c, m.uuid, uuids);
  }

  /** The k-th hop is in flight at this index. */
  ghost predicate InFlight(n: Net, p: Packet, at: nat) {
    at < |n.inflight| && n.inflight[at] == p
  }

  /** Every member that the lap has passed marked the message stale. */
  ghost predicate Passed(ring: seq<nat>, n: Net, i: nat, k: nat, uuid: int)
    requires Within(ring, |n.caches|) && i < |ring| && k <= |ring|
  {
    forall h :: 1 <= h < k ==> uuid in n.caches[ring[Ahead(|ring|, i, h)]].stale
  }

  /** One delivery at server j that hands the message on. */
  lemma HandsOnInNet(cfgs: seq<Config>, n: Net, at: nat, j: nat, uuids: set<int>)
    requires DistinctNames(cfgs) && Roomy(cfgs, n, uuids) && j < |cfgs| && at < |n.inflight|
    requires var p := n.inflight[at];
             && p.dst == cfgs[j].name && p.msg.ringTtl > 0 && 0 <= p.msg.ringIdx < |cfgs[j].rings|
             && p.msg.uuid in uuids && !Consumed(cfgs[j], p.msg)
    ensures Enabled(cfgs, n, Deliver(at))
    ensures var m := n.inflight[at].msg;
            Exec(cfgs, n, Deliver(at)) == Net(
              n.caches[j := n.caches[j].(stale := Store(n.caches[j].stale, m.uuid))],
              RemoveAt(n.inflight, at) + [Packet(cfgs[j].rings[m.ringIdx].next, m.(ringTtl := m.ringTtl - 1))])
  {
    var m := n.inflight[at].msg;
    LookupFinds(cfgs, j);
    HandsOn(cfgs[j], n.caches[j], m, uuids);
    var next := Packet(cfgs[j].rings[m.ringIdx].next, m.(ringTtl := m.ringTtl - 1));
    assert Arrivals([ToServer(next.dst, next.msg)]) == [next];
  }

  /** Nobody on the ring swallows the message. */
  predicate Unconsumed(cfgs: seq<Config>, ring: seq<nat>, m: ExtClrMsg)
    requires Within(ring, |cfgs|)
  {
    forall i :: 0 <= i < |ring| ==> cfgs[ring[i]].name != m.body.to && m.body.text != ""
  }

  lemma LapHop(cfgs: seq<Config>, ring: seq<nat>, r: nat, i: nat, n: Net, m: ExtClrMsg, k: nat, at: nat, uuids: set<int>)
    requires CyclicRing(cfgs, ring, r) && Roomy(cfgs, n, uuids) && i < |ring| && 1 <= k < |ring|
    requires InFlight(n, Hop(cfgs, ring, r, i, m, k), at) && Passed(ring, n, i, k, m.uuid)
    requires m.uuid in uuids && Unconsumed(cfgs, ring, m)
    ensures Enabled(cfgs, n, Deliver(at))
    ensures var n' := Exec(cfgs, n, Deliver(at));
            InFlight(n', Hop(cfgs, ring, r, i, m, k + 1), |n.inflight| - 1) && Passed(ring, n', i, k + 1, m.uuid)
  {
    var j := ring[Ahead(|ring|, i, k)];
    AheadNext(ring, i, k);
    assert LeadsOn(cfgs, ring, r, Ahead(|ring|, i, k));
    assert cfgs[j].rings[r] == Ring(|ring|, cfgs[ring[Ahead(|ring|, i, k + 1)]].name);
    HandsOnInNet(cfgs, n, at, j, uuids);
    var n' := Exec(cfgs, n, Deliver(at));
    forall h | 1 <= h < k + 1 ensures m.uuid in n'.caches[ring[Ahead(|ring|, i, h)]].stale {
      if h < k {
        assert m.uuid in n.caches[ring[Ahead(|ring|, i, h)]].stale;
      }
    }
  }

  /**
   * A lap closes: delivering the copy from hop k on, hop by hop, brings it after exactly
   * |ring| - k deliveries back to the server that started it, with nothing left of its
   * time-to-live, its ring index unchanged, and all other members having marked it stale.
   */
  lemma {:induction false} LapCloses(
    cfgs: seq<Config>, ring: seq<nat>, r: nat, i: nat, n: Net, m: ExtClrMsg, k: nat, at: nat, uuids: set<int>)
    returns (run: seq<Action>, back: nat)
    requires CyclicRing(cfgs, ring, r) && Roomy(cfgs, n, uuids) && i < |ring| && 1 <= k <= |ring|
    requires InFlight(n, Hop(cfgs, ring, r, i, m, k), at) && Passed(ring, n, i, k, m.uuid)
    requires m.uuid in uuids && Unconsumed(cfgs, ring, m)
    ensures |run| == |ring| - k && IsRun(cfgs, n, run)
    ensures var n' := End(cfgs, n, run);
            && InFlight(n', Packet(cfgs[ring[i]].name, m.(ringTtl := 0, ringIdx := r)), back)
            && Passed(ring, n', i, |ring|, m.uuid)
    decreases |ring| - k
  {
    if k == |ring| {
      run, back := [], at;
    } else {
      LapHop(cfgs, ring, r, i, n, m, k, at, uuids);
      RoomyStep(cfgs, n, Deliver(at), uuids);
      var rest;
      rest, back := LapCloses(cfgs, ring, r, i, Exec(cfgs, n, Deliver(at)), m, k + 1, |n.inflight| - 1, uuids);
      run := [Deliver(at)] + rest;
      assert run[1..] == rest;
    }
  }

  // ----- in every run -----

  predicate Hands(n: Net, a: Action, p: Packet) {
    a.Deliver? && a.index < |n.inflight| && n.inflight[a.index] == p
  }

  /** The packet is delivered in the course of this run. */
  predicate HandledIn(cfgs: seq<Config>, n: Net, run: seq<Action>, p: Packet)
    requires Shaped(cfgs, n) && IsRun(cfgs, n, run)
    decreases |run|
  {
    run != [] && (Hands(n, run[0], p) || HandledIn(cfgs, Exec(cfgs, n, run[0]), run[1..], p))
  }

  /** The lap has got to some hop from the k-th on, and has left all members before it stale. */
  ghost predicate UnderWay(cfgs: seq<Config>, ring: seq<nat>, r: nat, i: nat, n: Net, m: ExtClrMsg, k: nat)
    requires Within(ring, |cfgs|) && Shaped(cfgs, n) && i < |ring| && 1 <= k
  {
    exists h: nat :: k <= h <= |ring| && Hop(cfgs, ring, r, i, m, h) in n.inflight && Passed(ring, n, i, h, m.uuid)
  }

  /** All other members are stale, and the lap has ended at the server that started it. */
  ghost predicate Ended(ring: seq<nat>, i: nat, n: Net, uuid: int)
    requires Within(ring, |n.caches|) && i < |ring|
  {
    Passed(ring, n, i, |ring|, uuid) && uuid in n.caches[ring[i]].flooded
  }

  /** What has become of a lap at its k-th hop by the end of a run. */
  ghost predicate Fate(cfgs: seq<Config>, ring: seq<nat>, r: nat, i: nat, n: Net, m: ExtClrMsg, k: nat, run: seq<Action>)
    requires Within(ring, |cfgs|) && Shaped(cfgs, n) && i < |ring| && 1 <= k && IsRun(cfgs, n, run)
  {
    || UnderWay(cfgs, ring, r, i, End(cfgs, n, run), m, k)
    || (HandledIn(cfgs, n, run, Hop(cfgs, ring, r, i, m, |ring|)) && Ended(ring, i, End(cfgs, n, run), m.uuid))
  }

  lemma FateOfRest(cfgs: seq<Config>, ring: seq<nat>, r: nat, i: nat, n: Net, m: ExtClrMsg, k: nat, h: nat, run: seq<Action>)
    requires Within(ring, |cfgs|) && Shaped(cfgs, n) && i < |ring| && 1 <= k <= h && IsRun(cfgs, n, run) && run != []
    requires Fate(cfgs, ring, r, i, Exec(cfgs, n, run[0]), m, h, run[1..])
    ensures Fate(cfgs, ring, r, i, n, m, k, run)
  {
  }

  /** The lap is at its k-th hop. */
  ghost predicate AtHop(cfgs: seq<Config>, ring: seq<nat>, r: nat, i: nat, n: Net, m: ExtClrMsg, k: nat)
    requires Within(ring, |cfgs|) && Shaped(cfgs, n) && i < |ring| && 1 <= k <= |ring|
  {
    Hop(cfgs, ring, r, i, m, k) in n.inflight && Passed(ring, n, i, k, m.uuid)
  }

  /** A step leaves the lap where it is, takes it one hop on, or closes it. */
  lemma LapStep(cfgs: seq<Config>, ring: seq<nat>, r: nat, i: nat, n: Net, m: ExtClrMsg, k: nat, a: Action, uuids: set<int>)
    requires CyclicRing(cfgs, ring, r) && Roomy(cfgs, n, uuids) && i < |ring| && 1 <= k <= |ring|
    requires AtHop(cfgs, ring, r, i, n, m, k) && m.uuid in uuids && Unconsumed(cfgs, ring, m) && Enabled(cfgs, n, a)
    ensures
      var n' := Exec(cfgs, n, a);
      if !Hands(n, a, Hop(cfgs, ring, r, i, m, k)) then AtHop(cfgs, ring, r, i, n', m, k)
      else if k < |ring| then AtHop(cfgs, ring, r, i, n', m, k + 1)
      else Ended(ring, i, n', m.uuid)
  {
    if !Hands(n, a, Hop(cfgs, ring, r, i, m, k)) {
      StaysInFlight(cfgs, n, a, Hop(cfgs, ring, r, i, m, k));
      PassedStays(cfgs, ring, n, a, uuids, i, k, m.uuid);
    } else if k < |ring| {
      LapHop(cfgs, ring, r, i, n, m, k, a.index, uuids);
    } else {
      ClosingHop(cfgs, ring, r, i, n, m, a, uuids);
    }
  }

  lemma RoomyFits(cfgs: seq<Config>, n: Net, a: Action, uuids: set<int>, j: nat)
    requires Roomy(cfgs, n, uuids) && j < |cfgs|
    ensures Fits(cfgs[j], n.caches[j], uuids) && HandlesKnown(cfgs, n, a, j, uuids)
  {
    if a.Deliver? && a.index < |n.inflight| {
      assert n.inflight[a.index] in n.inflight;
    }
  }

  lemma PassedStays(cfgs: seq<Config>, ring: seq<nat>, n: Net, a: Action, uuids: set<int>, i: nat, k: nat, uuid: int)
    requires Roomy(cfgs, n, uuids) && Enabled(cfgs, n, a) && Within(ring, |cfgs|) && i < |ring| && k <= |ring|
    requires uuid != UNSET_UUID && Passed(ring, n, i, k, uuid)
    ensures Passed(ring, Exec(cfgs, n, a), i, k, uuid)
  {
    forall h | 1 <= h < k ensures uuid in Exec(cfgs, n, a).caches[ring[Ahead(|ring|, i, h)]].stale {
      var j := ring[Ahead(|ring|, i, h)];
      RoomyFits(cfgs, n, a, uuids, j);
      StepMarks(cfgs, n, a, uuids, j, uuid);
    }
  }

  lemma EndedStays(cfgs: seq<Config>, ring: seq<nat>, n: Net, a: Action, uuids: set<int>, i: nat, uuid: int)
    requires Roomy(cfgs, n, uuids) && Enabled(cfgs, n, a) && Within(ring, |cfgs|) && i < |ring|
    requires uuid != UNSET_UUID && Ended(ring, i, n, uuid)
    ensures Ended(ring, i, Exec(cfgs, n, a), uuid)
  {
    PassedStays(cfgs, ring, n, a, uuids, i, |ring|, uuid);
    RoomyFits(cfgs, n, a, uuids, ring[i]);
    StepMarks(cfgs, n, a, uuids, ring[i], uuid);
  }

  lemma {:induction false} EndedForGood(cfgs: seq<Config>, ring: seq<nat>, n: Net, run: seq<Action>, uuids: set<int>, i: nat, uuid: int)
    requires Roomy(cfgs, n, uuids) && IsRun(cfgs, n, run) && Carries(run, uuids) && Within(ring, |cfgs|) && i < |ring|
    requires uuid != UNSET_UUID && Ended(ring, i, n, uuid)
    ensures Ended(ring, i, End(cfgs, n, run), uuid)
    decreases |run|
  {
    if run != [] {
      assert run[0] in run;
      RoomyStep(cfgs, n, run[0], uuids);
      EndedStays(cfgs, ring, n, run[0], uuids, i, uuid);
      EndedForGood(cfgs, ring, Exec(cfgs, n, run[0]), run[1..], uuids, i, uuid);
    }
  }

  /** The closing hop ends the lap at the starter, which has flooded the message then. */
  lemma ClosingHop(cfgs: seq<Config>, ring: seq<nat>, r: nat, i: nat, n: Net, m: ExtClrMsg, a: Action, uuids: set<int>)
    requires CyclicRing(cfgs, ring, r) && Roomy(cfgs, n, uuids) && i < |ring| && Enabled(cfgs, n, a)
    requires Hands(n, a, Hop(cfgs, ring, r, i, m, |ring|)) && Passed(ring, n, i, |ring|, m.uuid)
    requires m.uuid in uuids && Unconsumed(cfgs, ring, m)
    ensures Ended(ring, i, Exec(cfgs, n, a), m.uuid)
  {
    PassedStays(cfgs, ring, n, a, uuids, i, |ring|, m.uuid);
    LookupFinds(cfgs, ring[i]);
    RoomyFits(cfgs, n, a, uuids, ring[i]);
    StepMarks(cfgs, n, a, uuids, ring[i], m.uuid);
    assert Handles(cfgs, n, a, ring[i], m.uuid);
  }

  /** A run that starts with the delivery of the last hop. */
  lemma FateSealed(cfgs: seq<Config>, ring: seq<nat>, r: nat, i: nat, n: Net, m: ExtClrMsg, k: nat, run: seq<Action>, uuids: set<int>)
    requires Within(ring, |cfgs|) && Roomy(cfgs, n, uuids) && i < |ring| && 1 <= k && m.uuid != UNSET_UUID
    requires IsRun(cfgs, n, run) && Carries(run, uuids) && run != []
    requires Hands(n, run[0], Hop(cfgs, ring, r, i, m, |ring|)) && Ended(ring, i, Exec(cfgs, n, run[0]), m.uuid)
    ensures Fate(cfgs, ring, r, i, n, m, k, run)
  {
    assert run[0] in run;
    RoomyStep(cfgs, n, run[0], uuids);
    EndedForGood(cfgs, ring, Exec(cfgs, n, run[0]), run[1..], uuids, i, m.uuid);
    assert HandledIn(cfgs, n, run, Hop(cfgs, ring, r, i, m, |ring|));
  }

  /**
   * Whatever else is delivered and injected: a lap at its k-th hop is, at the end of any run, either
   * still under way from there or has closed, its last hop having been delivered to its starter,
   * which has flooded the message, and all other members having marked it stale.
   */
  lemma {:induction false} LapInEveryRun(
    cfgs: seq<Config>, ring: seq<nat>, r: nat, i: nat, n: Net, m: ExtClrMsg, k: nat, run: seq<Action>, uuids: set<int>)
    requires CyclicRing(cfgs, ring, r) && Roomy(cfgs, n, uuids) && i < |ring| && 1 <= k <= |ring|
    requires AtHop(cfgs, ring, r, i, n, m, k) && m.uuid in uuids && Unconsumed(cfgs, ring, m)
    requires IsRun(cfgs, n, run) && Carries(run, uuids)
    ensures Fate(cfgs, ring, r, i, n, m, k, run)
    decreases |run|
  {
    if run != [] {
      var a := run[0];
      var n' := Exec(cfgs, n, a);
      assert a in run;
      RoomyStep(cfgs, n, a, uuids);
      LapStep(cfgs, ring, r, i, n, m, k, a, uuids);
      var handed := Hands(n, a, Hop(cfgs, ring, r, i, m, k));
      if handed && k == |ring| {
        FateSealed(cfgs, ring, r, i, n, m, k, run, uuids);
      } else {
        var h := if handed then k + 1 else k;
        LapInEveryRun(cfgs, ring, r, i, n', m, h, run[1..], uuids);
        FateOfRest(cfgs, ring, r, i, n, m, k, h, run);
      }
    } else {
      assert UnderWay(cfgs, ring, r, i, n, m, k);
    }
  }

  /** A server that is handed a new message starts a lap on each of its cyclic rings. */
  lemma LapBegins(cfgs: seq<Config>, ring: seq<nat>, r: nat, i: nat, n: Net, at: nat, uuids: set<int>)
    requires CyclicRing(cfgs, ring, r) && Roomy(cfgs, n, uuids) && i < |ring| && at < |n.inflight|
    requires var p := n.inflight[at];
      && p.dst == cfgs[ring[i]].name && !p.msg.IsRingTtlSet() && p.msg.uuid !in n.caches[ring[i]].stale
      && Unconsumed(cfgs, ring, p.msg)
    requires Enabled(cfgs, n, Deliver(at))
    ensures Hop(cfgs, ring, r, i, n.inflight[at].msg, 1) in Exec(cfgs, n, Deliver(at)).inflight
  {
    var p := n.inflight[at];
    LookupFinds(cfgs, ring[i]);
    LapStarts(cfgs, ring, r, i, n.caches[ring[i]], p.msg);
    var sends := Process(cfgs[ring[i]], n.caches[ring[i]], p.msg).sends;
    var hop := Hop(cfgs, ring, r, i, p.msg, 1);
    ArrivalsFromSends(sends);
    assert sends[r] in sends;
    assert hop in Arrivals(sends);
  }

  /** Every lap that is started has closed in every run by the time none of its messages is in flight. */
  lemma StartedLapsClose(
    cfgs: seq<Config>, ring: seq<nat>, r: nat, i: nat, n: Net, at: nat, run: seq<Action>, uuids: set<int>)
    requires CyclicRing(cfgs, ring, r) && Roomy(cfgs, n, uuids) && i < |ring| && at < |n.inflight|
    requires var p := n.inflight[at];
      && p.dst == cfgs[ring[i]].name && !p.msg.IsRingTtlSet() && p.msg.uuid !in n.caches[ring[i]].stale
      && p.msg.uuid in uuids && Unconsumed(cfgs, ring, p.msg)
    requires Enabled(cfgs, n, Deliver(at))
    requires IsRun(cfgs, Exec(cfgs, n, Deliver(at)), run) && Carries(run, uuids)
    requires forall q :: q in End(cfgs, Exec(cfgs, n, Deliver(at)), run).inflight ==> q.msg.uuid != n.inflight[at].msg.uuid
    ensures
      var m := n.inflight[at].msg;
      var n' := Exec(cfgs, n, Deliver(at));
      && HandledIn(cfgs, n', run, Hop(cfgs, ring, r, i, m, |ring|))
      && Ended(ring, i, End(cfgs, n', run), m.uuid)
  {
    var m := n.inflight[at].msg;
    var n' := Exec(cfgs, n, Deliver(at));
    LapBegins(cfgs, ring, r, i, n, at, uuids);
    RoomyStep(cfgs, n, Deliver(at), uuids);
    LapInEveryRun(cfgs, ring, r, i, n', m, 1, run, uuids);
  }
}
