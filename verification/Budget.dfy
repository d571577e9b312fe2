/**
 * The flooding factor: how many committees one C++ server contacts, and how many the whole
 * chain of ring copies that starts from one message contacts.
 */
module Budget {
  import opened Wrappers
  import opened Messages
  import opened Routing
  import opened Network
  import opened Delivery

  /** The reachable committees that are not to be skipped, in order. */
  function Available(reach: seq<Reachable>, skip: seq<string>): seq<Reachable> {
    if reach == [] then []
    else if reach[0].name in skip then Available(reach[1..], skip)
    else [reach[0]] + Available(reach[1..], skip)
  }

  function Names(reach: seq<Reachable>): (names: seq<string>)
    ensures |names| == |reach|
  {
    seq(|reach|, i requires 0 <= i < |reach| => reach[i].name)
  }

  function Firsts(reach: seq<Reachable>): (members: seq<string>)
    requires Manned(reach)
    ensures |members| == |reach|
  {
    seq(|reach|, i requires 0 <= i < |reach| => reach[i].members[0])
  }

  predicate Manned(reach: seq<Reachable>) {
    forall i :: 0 <= i < |reach| ==> reach[i].members != []
  }

  /** Distinct committees reached through distinct members. */
  predicate WellReached(reach: seq<Reachable>) {
    Manned(reach) && Distinct(Names(reach)) && Distinct(Firsts(reach))
  }

  /** The first `factor` of a list, or all of it when the factor means full flooding. */
  function Quota(factor: int, size: nat): nat {
    if 0 < factor < size then factor else size
  }

  lemma WellReachedTail(reach: seq<Reachable>)
    requires WellReached(reach) && reach != []
    ensures WellReached(reach[1..])
    ensures forall r :: r in reach[1..] ==> r.name != reach[0].name && r.members != [] && r.members[0] != reach[0].members[0]
  {
    var tail := reach[1..];
    assert forall i :: 0 <= i < |tail| ==> Names(tail)[i] == Names(reach)[i + 1] && Firsts(tail)[i] == Firsts(reach)[i + 1];
    forall r | r in tail ensures r.name != reach[0].name && r.members != [] && r.members[0] != reach[0].members[0] {
      var k :| 0 <= k < |tail| && tail[k] == r;
      assert Names(reach)[0] != Names(reach)[k + 1] && Firsts(reach)[0] != Firsts(reach)[k + 1];
    }
  }

  lemma {:induction false} AvailableWithin(reach: seq<Reachable>, skip: seq<string>)
    requires WellReached(reach)
    ensures WellReached(Available(reach, skip))
    ensures forall r :: r in Available(reach, skip) ==> r in reach && r.name !in skip
  {
    if reach != [] {
      var tail := Available(reach[1..], skip);
      WellReachedTail(reach);
      AvailableWithin(reach[1..], skip);
      if reach[0].name !in skip {
        FirstsOfCons(reach[0], tail);
        forall i | 0 <= i < |tail| ensures reach[0].name != tail[i].name && reach[0].members[0] != tail[i].members[0] {
          assert tail[i] in tail;
        }
      }
    }
  }

  /** The committees taken with this much room left; no room limit when it is not positive. */
  function Taken(reach: seq<Reachable>, skip: seq<string>, room: int): seq<Reachable> {
    if reach == [] then []
    else if reach[0].name in skip then Taken(reach[1..], skip, room)
    else if room == 1 then [reach[0]]
    else [reach[0]] + Taken(reach[1..], skip, if room > 0 then room - 1 else room)
  }

  lemma {:induction false} TakenIsPrefix(reach: seq<Reachable>, skip: seq<string>, room: int)
    ensures Taken(reach, skip, room) == Available(reach, skip)[..Quota(room, |Available(reach, skip)|)]
  {
    if reach != [] {
      var less := if room > 0 then room - 1 else room;
      TakenIsPrefix(reach[1..], skip, if reach[0].name in skip then room else less);
    }
  }

  lemma {:induction false} TakenWithin(reach: seq<Reachable>, skip: seq<string>, room: int)
    ensures forall r :: r in Taken(reach, skip, room) ==> r in reach
  {
    if reach != [] {
      TakenWithin(reach[1..], skip, if reach[0].name in skip then room else if room > 0 then room - 1 else room);
    }
  }

  lemma FirstsOfCons(r: Reachable, tail: seq<Reachable>)
    requires r.members != [] && Manned(tail)
    ensures Manned([r] + tail)
    ensures Names([r] + tail) == [r.name] + Names(tail)
    ensures Firsts([r] + tail) == [r.members[0]] + Firsts(tail)
  {
  }

  lemma MannedTaken(reach: seq<Reachable>, skip: seq<string>, room: int)
    requires Manned(reach)
    ensures Manned(Taken(reach, skip, room))
  {
    TakenWithin(reach, skip, room);
    var t := Taken(reach, skip, room);
    forall i | 0 <= i < |t| ensures t[i].members != [] {
      assert t[i] in t;
    }
  }

  /** The loop over the committees, with its early exit, takes exactly these. */
  lemma {:induction false} PickTakes(reach: seq<Reachable>, skip: seq<string>, factor: int, acc: Picks)
    requires WellReached(reach) && (factor > 0 ==> |acc.dsts| < factor)
    requires forall i :: 0 <= i < |reach| ==> reach[i].members[0] !in acc.dsts
    ensures var t := Taken(reach, skip, if factor > 0 then factor - |acc.dsts| else 0);
            Manned(t) && Pick(reach, skip, factor, acc) == Some(Picks(acc.committees + Names(t), acc.dsts + Firsts(t)))
  {
    var room := if factor > 0 then factor - |acc.dsts| else 0;
    var t := Taken(reach, skip, room);
    MannedTaken(reach, skip, room);
    if reach == [] {
      assert acc.committees + Names(t) == acc.committees && acc.dsts + Firsts(t) == acc.dsts;
    } else {
      WellReachedTail(reach);
      forall i | 0 <= i < |reach[1..]| ensures reach[1..][i].members[0] !in acc.dsts + [reach[0].members[0]] {
        assert reach[1..][i] in reach[1..] && reach[1..][i] == reach[i + 1];
      }
      if reach[0].name in skip {
        PickTakes(reach[1..], skip, factor, acc);
      } else {
        var acc' := AddPick(acc, reach[0]);
        var tail := t[1..];
        assert t == [reach[0]] + tail;
        FirstsOfCons(reach[0], tail);
        assert acc'.committees + Names(tail) == acc.committees + Names(t);
        assert acc'.dsts + Firsts(tail) == acc.dsts + Firsts(t);
        if room == 1 {
          assert tail == [] && Names(tail) == [] && Firsts(tail) == [];
          assert acc' == Picks(acc.committees + Names(t), acc.dsts + Firsts(t));
        } else {
          PickTakes(reach[1..], skip, factor, acc');
        }
      }
    }
  }

  // ----- one server -----

  /** What this server finds to forward to. */
  function Candidates(cfg: Config, m: ExtClrMsg): seq<Reachable> {
    Available(cfg.reachable, SkipList(cfg, m))
  }

  /** The committees this server contacts when the message ends its lap here. */
  function Contacted(cfg: Config, m: ExtClrMsg): seq<string> {
    if m.body.to in cfg.committeeClients && cfg.rings != [] then []
    else Names(Candidates(cfg, m))[..Quota(cfg.floodingFactor, |Candidates(cfg, m)|)]
  }

  /** The copy that goes on along a ring, if any. */
  function Onward(cfg: Config, m: ExtClrMsg): Option<ExtClrMsg> {
    if cfg.rings == [] then None
    else if m.body.to in cfg.committeeClients then Some(m)
    else if cfg.floodingFactor <= 0 || |Contacted(cfg, m)| + |m.sent| < cfg.floodingFactor then
      Some(m.(visited := Visit(m.visited, cfg.committee), sent := m.sent + Contacted(cfg, m)))
    else None
  }

  /** Contacted and Onward are what the routing code does: one send per committee, and the ring copy. */
  lemma FloodSendsExactly(cfg: Config, c: Caches, m: ExtClrMsg)
    requires cfg.plugin == Cpp && WellReached(cfg.reachable)
    requires 0 <= m.ringIdx < |cfg.rings| || cfg.rings == []
    ensures var taken := Candidates(cfg, m)[..|Contacted(cfg, m)|];
            var ring := if m.body.to in cfg.committeeClients then m.ringIdx else 0;
            && Manned(taken) && Names(taken) == Contacted(cfg, m)
            && Flood(cfg, c, m) == Done(c,
                 ExitSends(cfg, m) + (SendAll(Firsts(taken), Intercom(cfg, m))
                 + if Onward(cfg, m).Some? then [ToServer(cfg.rings[ring].next, Onward(cfg, m).value)] else []))
  {
    var cand := Candidates(cfg, m);
    var taken := cand[..|Contacted(cfg, m)|];
    AvailableWithin(cfg.reachable, SkipList(cfg, m));
    assert Names(taken) == Contacted(cfg, m);
    if m.body.to in cfg.committeeClients && cfg.rings != [] {
      assert SendAll(Firsts(taken), Intercom(cfg, m)) == [];
    } else {
      PickTakes(cfg.reachable, SkipList(cfg, m), cfg.floodingFactor, NoPicks);
      TakenIsPrefix(cfg.reachable, SkipList(cfg, m), if cfg.floodingFactor > 0 then cfg.floodingFactor else 0);
      var picks := Picked(cfg, m).value;
      assert picks.committees == Names(taken) && picks.dsts == Firsts(taken);
    }
  }

  lemma ContactedFresh(cfg: Config, m: ExtClrMsg)
    requires cfg.plugin == Cpp && WellReached(cfg.reachable) && Distinct(m.sent)
    ensures Distinct(m.sent + Contacted(cfg, m))
    ensures forall c :: c in Contacted(cfg, m) ==> c !in m.visited && c !in m.sent
  {
    var cand := Candidates(cfg, m);
    AvailableWithin(cfg.reachable, SkipList(cfg, m));
    forall i | 0 <= i < |cand| ensures Names(cand)[i] !in m.visited && Names(cand)[i] !in m.sent {
      assert cand[i] in cand;
    }
  }

  /**
   * After this server the chain has contacted at most the flooding factor exactly when it had
   * contacted none before, or the candidates found here fit in what was left of the factor.
   */
  lemma WithinFactorWhen(cfg: Config, m: ExtClrMsg)
    requires cfg.plugin == Cpp && cfg.floodingFactor > 0 && |m.sent| < cfg.floodingFactor
    requires m.body.to !in cfg.committeeClients
    ensures |m.sent| + |Contacted(cfg, m)| <= cfg.floodingFactor
       <==> m.sent == [] || |m.sent| + |Candidates(cfg, m)| <= cfg.floodingFactor
  {
    assert |Contacted(cfg, m)| == Quota(cfg.floodingFactor, |Candidates(cfg, m)|);
  }

  // ----- the whole chain -----

  /** All committees contacted along a chain of servers that hand on the ring copy. */
  function Lineage(servers: seq<Config>, m: ExtClrMsg): seq<string> {
    if servers == [] then []
    else
      var next := Onward(servers[0], m);
      Contacted(servers[0], m) + (if next.Some? then Lineage(servers[1..], next.value) else [])
  }

  /** The ring copy that the last server of the chain sends on, if it gets that far. */
  function Carried(servers: seq<Config>, m: ExtClrMsg): Option<ExtClrMsg> {
    if servers == [] then Some(m)
    else
      var next := Onward(servers[0], m);
      if next.Some? then Carried(servers[1..], next.value) else None
  }

  ghost predicate SameFactor(servers: seq<Config>, f: nat) {
    forall i :: 0 <= i < |servers| ==>
      servers[i].plugin == Cpp && servers[i].floodingFactor == f && WellReached(servers[i].reachable)
  }

  /** A ring copy records exactly what has been contacted so far, and stays under the factor. */
  lemma OnwardRecords(cfg: Config, m: ExtClrMsg)
    requires |m.sent| < cfg.floodingFactor && Onward(cfg, m).Some?
    ensures Onward(cfg, m).value.sent == m.sent + Contacted(cfg, m)
    ensures |Onward(cfg, m).value.sent| < cfg.floodingFactor
  {
  }

  lemma ContactedBound(cfg: Config, m: ExtClrMsg)
    requires cfg.floodingFactor > 0
    ensures |Contacted(cfg, m)| <= cfg.floodingFactor
  {
  }

  /** A chain of servers with flooding factor f contacts at most 2f - 1 committees. */
  lemma {:induction false} LineageBudget(servers: seq<Config>, m: ExtClrMsg, f: nat)
    requires f > 0 && |m.sent| < f && SameFactor(servers, f)
    ensures |m.sent| + |Lineage(servers, m)| <= 2 * f - 1
  {
    if servers != [] {
      ContactedBound(servers[0], m);
      if Onward(servers[0], m).Some? {
        OnwardRecords(servers[0], m);
        LineageBudget(servers[1..], Onward(servers[0], m).value, f);
      }
    }
  }

  /** It contacts none twice; a ring copy still travelling names exactly those contacted, fewer than f. */
  lemma {:induction false} LineageNames(servers: seq<Config>, m: ExtClrMsg, f: nat)
    requires f > 0 && |m.sent| < f && SameFactor(servers, f) && Distinct(m.sent)
    ensures Distinct(m.sent + Lineage(servers, m))
    ensures var c := Carried(servers, m);
            c.Some? ==> c.value.sent == m.sent + Lineage(servers, m) && |c.value.sent| < f
  {
    if servers == [] {
      assert m.sent + Lineage(servers, m) == m.sent;
    } else {
      var here := Contacted(servers[0], m);
      ContactedFresh(servers[0], m);
      var next := Onward(servers[0], m);
      if next.Some? {
        OnwardRecords(servers[0], m);
        LineageNames(servers[1..], next.value, f);
        var later := Lineage(servers[1..], next.value);
        assert m.sent + (here + later) == next.value.sent + later;
      } else {
        assert here + [] == here;
      }
    }
  }

  // ----- every message in flight -----

  predicate UnderFactor(m: ExtClrMsg, f: nat) { |m.sent| < f && Distinct(m.sent) }

  ghost predicate AllUnderFactor(sends: seq<Send>, f: nat) {
    forall i :: 0 <= i < |sends| && sends[i].ToServer? ==> UnderFactor(sends[i].msg, f)
  }

  /** Copies to other committees start with an empty list; a ring copy goes on only while the factor is not used up. */
  lemma ForwardsUnderFactor(cfg: Config, m: ExtClrMsg, f: nat)
    requires cfg.plugin == Cpp && cfg.floodingFactor == f > 0 && WellReached(cfg.reachable) && UnderFactor(m, f)
    ensures ForwardSends(cfg, m).Some? && AllUnderFactor(ForwardSends(cfg, m).value, f)
  {
    PickedNew(cfg, m);
  }

  /** One member is picked for each committee, and only for committees that the message does not list. */
  lemma PickedNew(cfg: Config, m: ExtClrMsg)
    requires cfg.plugin == Cpp && cfg.floodingFactor > 0 && WellReached(cfg.reachable) && Distinct(m.sent)
    ensures Picked(cfg, m).Some?
    ensures var picks := Picked(cfg, m).value;
      |picks.committees| == |picks.dsts| && Distinct(m.sent + picks.committees)
  {
    var cand := Candidates(cfg, m);
    var taken := cand[..Quota(cfg.floodingFactor, |cand|)];
    PickTakes(cfg.reachable, SkipList(cfg, m), cfg.floodingFactor, NoPicks);
    TakenIsPrefix(cfg.reachable, SkipList(cfg, m), cfg.floodingFactor);
    AvailableWithin(cfg.reachable, SkipList(cfg, m));
    var picks := Picked(cfg, m).value;
    assert picks.committees == Names(taken) && picks.dsts == Firsts(taken);
    forall c | c in Names(cand) ensures c !in m.sent {
      var i :| 0 <= i < |cand| && Names(cand)[i] == c;
      assert cand[i] in cand;
    }
    FrontApart(m.sent, Names(cand), |taken|);
    assert Names(taken) == Names(cand)[..|taken|];
  }

  lemma FrontApart(listed: seq<string>, names: seq<string>, n: nat)
    requires Distinct(listed) && Distinct(names) && n <= |names| && forall c :: c in names ==> c !in listed
    ensures Distinct(listed + names[..n])
  {
    forall i | 0 <= i < n ensures names[i] !in listed {
    }
  }

  lemma ProcessUnderFactor(cfg: Config, c: Caches, m: ExtClrMsg, f: nat)
    requires cfg.plugin == Cpp && cfg.floodingFactor == f > 0 && WellReached(cfg.reachable) && UnderFactor(m, f)
    requires !Process(cfg, c, m).Undefined?
    ensures AllUnderFactor(Process(cfg, c, m).sends, f)
  {
    ForwardsUnderFactor(cfg, m, f);
    var stale, flooded := AddStale(cfg, c.stale, m.uuid), AddFlooded(cfg, c.flooded, m.uuid);
    if stale.Some? && flooded.Some? {
      FloodUnderFactor(cfg, Caches(stale.value, flooded.value), m, f);
    }
  }

  lemma FloodUnderFactor(cfg: Config, c: Caches, m: ExtClrMsg, f: nat)
    requires cfg.plugin == Cpp && UnderFactor(m, f)
    requires ForwardSends(cfg, m).Some? && AllUnderFactor(ForwardSends(cfg, m).value, f)
    ensures var o := Flood(cfg, c, m); !o.Undefined? ==> AllUnderFactor(o.sends, f)
  {
  }

  ghost predicate EntersUnderFactor(run: seq<Action>, f: nat) {
    forall a :: a in run && a.Inject? ==> UnderFactor(a.packet.msg, f)
  }

  /** In every run of C++ servers with factor f, every message in flight lists fewer than f committees, none twice. */
  lemma {:induction false} StaysUnderFactor(cfgs: seq<Config>, n: Net, run: seq<Action>, f: nat, p: Packet)
    requires f > 0 && SameFactor(cfgs, f) && Shaped(cfgs, n) && IsRun(cfgs, n, run) && EntersUnderFactor(run, f)
    requires forall q :: q in n.inflight ==> UnderFactor(q.msg, f)
    requires p in End(cfgs, n, run).inflight
    ensures UnderFactor(p.msg, f)
    decreases |run|
  {
    if run != [] {
      assert run[0] in run;
      forall q | q in Exec(cfgs, n, run[0]).inflight ensures UnderFactor(q.msg, f) {
        StepUnderFactor(cfgs, n, run[0], f, q);
      }
      StaysUnderFactor(cfgs, Exec(cfgs, n, run[0]), run[1..], f, p);
    }
  }

  lemma StepUnderFactor(cfgs: seq<Config>, n: Net, a: Action, f: nat, q: Packet)
    requires f > 0 && SameFactor(cfgs, f) && Shaped(cfgs, n) && Enabled(cfgs, n, a)
    requires a.Inject? ==> UnderFactor(a.packet.msg, f)
    requires forall p :: p in n.inflight ==> UnderFactor(p.msg, f)
    requires q in Exec(cfgs, n, a).inflight
    ensures UnderFactor(q.msg, f)
  {
    if a.Deliver? && q !in n.inflight {
      var p := n.inflight[a.index];
      assert p in n.inflight;
      var j := Lookup(cfgs, p.dst).value;
      var sends := Process(cfgs[j], n.caches[j], p.msg).sends;
      ProcessUnderFactor(cfgs[j], n.caches[j], p.msg, f);
      ArrivalsFromSends(sends);
      assert q in Arrivals(sends);
      var i :| 0 <= i < |sends| && sends[i] == ToServer(q.dst, q.msg);
    }
  }

  /** Two servers of one committee with factor 2: the first reaches one other committee, the second two more. */
  const First := Config("n1", Cpp, "k", {}, {}, [Reachable("a", ["a1"])], [Ring(2, "n2")], 2, 10, 10)
  const Second := Config("n2", Cpp, "k", {}, {}, [Reachable("b", ["b1"]), Reachable("c", ["c1"])], [Ring(2, "n1")], 2, 10, 10)

  /** The bound is met: with factor 2 a chain can contact three committees, one more than the factor. */
  lemma FactorExceeded(m: ExtClrMsg)
    requires m.sent == [] && m.visited == []
    ensures |Lineage([First, Second], m)| == 3
  {
    assert SkipList(First, m) == [] && First.reachable[1..] == [];
    assert Available(First.reachable, []) == [First.reachable[0]] + Available(First.reachable[1..], []);
    assert Candidates(First, m) == [Reachable("a", ["a1"])];
    assert Contacted(First, m) == ["a"];
    var next := Onward(First, m).value;
    assert next.sent == ["a"] && next.visited == ["k"];
    assert SkipList(Second, next) == ["k", "a"];
    assert Available(Second.reachable[1..], ["k", "a"]) == [Reachable("c", ["c1"])];
    assert Candidates(Second, next) == Second.reachable;
    assert Contacted(Second, next) == ["b", "c"];
    assert [First, Second][1..] == [Second];
  }
}
