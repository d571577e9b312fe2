/**
 * Chains of ring copies: servers that, one after the other, contact other committees and hand the
 * message on. When such a chain stays within the flooding factor, and how it sits in the network.
 */
module Chain {
  import opened Wrappers
  import opened Messages
  import opened Routing
  import opened Network
  import opened Delivery
  import opened Committees
  import opened Budget

  // ----- what the configurations offer -----

  /** The server keeps messages to this client in its own committee. */
  predicate KeepsInside(s: Config, to: string) { to in s.committeeClients && s.rings != [] }

  function Elements(s: seq<string>): set<string> { set c | c in s }

  lemma ElementsConcat(a: seq<string>, b: seq<string>)
    ensures Elements(a + b) == Elements(a) + Elements(b)
  {
  }

  lemma ElementsVisit(visited: seq<string>, committee: string)
    ensures Elements(Visit(visited, committee)) == Elements(visited) + {committee}
  {
    ElementsConcat(visited, [committee]);
  }

  function NamesOf(reach: seq<Reachable>): set<string> { set r | r in reach :: r.name }

  /**
   * Read off the configurations alone: going along the chain, from a message that has been to `been`
   * and with `offered` the committees that the servers so far could reach, no server may take what is
   * offered past the factor, unless nothing was offered before it. The chain ends at a server
   * without a ring, and as soon as the factor is used up.
   */
  predicate StaysWithin(servers: seq<Config>, to: string, been: set<string>, offered: set<string>, f: nat) {
    if servers == [] then true
    else if KeepsInside(servers[0], to) then StaysWithin(servers[1..], to, been, offered, f)
    else
      var all := offered + (NamesOf(servers[0].reachable) - been);
      && (offered != {} ==> |all| <= f)
      && (servers[0].rings != [] && |all| < f ==> StaysWithin(servers[1..], to, been + {servers[0].committee}, all, f))
  }

  // ----- candidates as sets -----

  lemma {:induction false} AvailableNames(reach: seq<Reachable>, skip: seq<string>)
    ensures NamesOf(Available(reach, skip)) == NamesOf(reach) - Elements(skip)
  {
    if reach != [] {
      AvailableNames(reach[1..], skip);
      var rest := Available(reach[1..], skip);
      assert NamesOf(reach) == {reach[0].name} + NamesOf(reach[1..]) by {
        assert reach == [reach[0]] + reach[1..];
      }
      assert NamesOf([reach[0]] + rest) == {reach[0].name} + NamesOf(rest) by {
        assert forall r :: r in [reach[0]] + rest <==> r == reach[0] || r in rest;
      }
    }
  }

  lemma NamesAsSet(reach: seq<Reachable>)
    ensures Elements(Names(reach)) == NamesOf(reach)
  {
    forall c ensures c in Names(reach) <==> c in NamesOf(reach) {
      if c in Names(reach) {
        var i :| 0 <= i < |reach| && Names(reach)[i] == c;
        assert reach[i] in reach;
      }
      if c in NamesOf(reach) {
        var r :| r in reach && r.name == c;
        var i :| 0 <= i < |reach| && reach[i] == r;
        assert Names(reach)[i] == c;
      }
    }
  }

  /** A message that has been to `been` and whose chain has contacted `sent`. */
  ghost predicate Bears(m: ExtClrMsg, been: set<string>, sent: set<string>) {
    && Elements(m.visited) == been
    && Elements(m.sent) == sent
    && Distinct(m.sent)
    && |m.sent| == |sent|
  }

  lemma CandidatesCount(cfg: Config, m: ExtClrMsg, been: set<string>, sent: set<string>)
    requires cfg.plugin == Cpp && WellReached(cfg.reachable) && Bears(m, been, sent)
    ensures Elements(Names(Candidates(cfg, m))) == NamesOf(cfg.reachable) - been - sent
    ensures |sent| + |Candidates(cfg, m)| == |sent + (NamesOf(cfg.reachable) - been)|
  {
    var cand := Candidates(cfg, m);
    AvailableWithin(cfg.reachable, SkipList(cfg, m));
    AvailableNames(cfg.reachable, SkipList(cfg, m));
    NamesAsSet(cand);
    var left := NamesOf(cfg.reachable) - been - sent;
    assert NamesOf(cand) == left;
    DistinctSize(Names(cand));
    assert sent + (NamesOf(cfg.reachable) - been) == sent + left && sent * left == {};
  }

  /** One server: how far its contacts and its ring copy go. */
  lemma OneServer(cfg: Config, m: ExtClrMsg, been: set<string>, sent: set<string>, f: nat)
    requires cfg.plugin == Cpp && cfg.floodingFactor == f && WellReached(cfg.reachable) && Bears(m, been, sent) && |sent| < f
    requires !KeepsInside(cfg, m.body.to)
    ensures var all := sent + (NamesOf(cfg.reachable) - been);
      && |m.sent| + |Contacted(cfg, m)| == (if |all| - |sent| > f then |sent| + f else |all|)
      && (Onward(cfg, m).Some? <==> cfg.rings != [] && |all| < f)
      && (Onward(cfg, m).Some? ==> Bears(Onward(cfg, m).value, been + {cfg.committee}, all))
  {
    CandidatesCount(cfg, m, been, sent);
    if Onward(cfg, m).Some? {
      HandedOn(cfg, m, been, sent);
    }
  }

  lemma HandedOn(cfg: Config, m: ExtClrMsg, been: set<string>, sent: set<string>)
    requires cfg.plugin == Cpp && WellReached(cfg.reachable) && Bears(m, been, sent)
    requires !KeepsInside(cfg, m.body.to) && Onward(cfg, m).Some? && Contacted(cfg, m) == Names(Candidates(cfg, m))
    ensures Bears(Onward(cfg, m).value, been + {cfg.committee}, sent + (NamesOf(cfg.reachable) - been))
  {
    CandidatesCount(cfg, m, been, sent);
    ContactedFresh(cfg, m);
    ElementsConcat(m.sent, Contacted(cfg, m));
    ElementsVisit(m.visited, cfg.committee);
    DistinctSize(m.sent + Contacted(cfg, m));
    assert sent + (NamesOf(cfg.reachable) - been - sent) == sent + (NamesOf(cfg.reachable) - been);
  }

  // ----- the whole chain -----

  lemma {:induction false} LineageWithin(servers: seq<Config>, m: ExtClrMsg, been: set<string>, sent: set<string>, f: nat)
    requires SameFactor(servers, f) && Bears(m, been, sent) && |sent| < f
    ensures |sent| + |Lineage(servers, m)| <= f <==> StaysWithin(servers, m.body.to, been, sent, f)
    decreases servers
  {
    if servers != [] {
      var s := servers[0];
      if KeepsInside(s, m.body.to) {
        assert Contacted(s, m) == [] && Onward(s, m) == Some(m);
        LineageWithin(servers[1..], m, been, sent, f);
      } else {
        OneServer(s, m, been, sent, f);
        if Onward(s, m).Some? {
          LineageWithin(servers[1..], Onward(s, m).value, been + {s.committee}, sent + (NamesOf(s.reachable) - been), f);
        }
      }
    }
  }

  /** The chain that starts from a message contacts at most f committees exactly when the configurations keep it within the factor. */
  lemma ChainWithinFactorWhen(servers: seq<Config>, m: ExtClrMsg, f: nat)
    requires f > 0 && SameFactor(servers, f) && m.sent == []
    ensures |Lineage(servers, m)| <= f <==> StaysWithin(servers, m.body.to, Elements(m.visited), {}, f)
  {
    assert Elements(m.sent) == {};
    LineageWithin(servers, m, Elements(m.visited), {}, f);
  }

  // ----- chains in the network -----

  /** The ring copy a server hands on, as a packet. */
  function RingCopy(s: Config, m: ExtClrMsg): Option<Packet> {
    if Onward(s, m).None? then None
    else
      var ring := if m.body.to in s.committeeClients then m.ringIdx else 0;
      if 0 <= ring < |s.rings| then Some(Packet(s.rings[ring].next, Onward(s, m).value)) else None
  }

  /** The message ends its lap at this server, which can read its ring index. */
  predicate EndsLap(s: Config, m: ExtClrMsg) {
    && s.plugin == Cpp && WellReached(s.reachable)
    && m.IsRingTtlSet() && m.ringTtl <= 0 && (0 <= m.ringIdx < |s.rings| || s.rings == [])
    && !Consumed(s, m)
  }

  /** What a server sends at the end of a lap. */
  function FloodList(s: Config, m: ExtClrMsg): seq<Send>
    requires EndsLap(s, m)
  {
    FloodSendsExactly(s, Caches([], []), m);
    ExitSends(s, m)
    + (SendAll(Firsts(Candidates(s, m)[..|Contacted(s, m)|]), Intercom(s, m))
       + if RingCopy(s, m).Some? then [ToServer(RingCopy(s, m).value.dst, RingCopy(s, m).value.msg)] else [])
  }

  lemma FloodsFromEmpty(s: Config, m: ExtClrMsg) returns (c: Caches)
    requires EndsLap(s, m)
    ensures AddStale(s, [], m.uuid).Some? && AddFlooded(s, [], m.uuid).Some?
    ensures Process(s, Caches([], []), m) == Flood(s, c, m) == Done(c, FloodList(s, m))
  {
    c := Caches(AddStale(s, [], m.uuid).value, AddFlooded(s, [], m.uuid).value);
    FloodSendsExactly(s, c, m);
  }

  lemma SentIsCaused(cfgs: seq<Config>, p: Packet, j: nat, q: Packet)
    requires Lookup(cfgs, p.dst) == Some(j) && EndsLap(cfgs[j], p.msg)
    requires ToServer(q.dst, q.msg) in FloodList(cfgs[j], p.msg)
    ensures Causes(cfgs, p, q)
  {
    var c := FloodsFromEmpty(cfgs[j], p.msg);
    ArrivalsFromSends(FloodList(cfgs[j], p.msg));
    assert q in Arrivals(Process(cfgs[j], Caches([], []), p.msg).sends);
  }

  /** In the network, the ring copy a server hands on is caused by the packet that ended its lap there. */
  lemma RingCopyIsCaused(cfgs: seq<Config>, p: Packet, j: nat)
    requires Lookup(cfgs, p.dst) == Some(j) && EndsLap(cfgs[j], p.msg)
    ensures Onward(cfgs[j], p.msg).Some? ==> RingCopy(cfgs[j], p.msg).Some?
    ensures RingCopy(cfgs[j], p.msg).Some? ==> Causes(cfgs, p, RingCopy(cfgs[j], p.msg).value)
  {
    if RingCopy(cfgs[j], p.msg).Some? {
      var sends := FloodList(cfgs[j], p.msg);
      var q := RingCopy(cfgs[j], p.msg).value;
      assert sends[|sends| - 1] == ToServer(q.dst, q.msg);
      SentIsCaused(cfgs, p, j, q);
    }
  }

  /** So are the copies to the first members of the committees it contacts. */
  lemma ContactsAreCaused(cfgs: seq<Config>, p: Packet, j: nat, t: nat)
    requires Lookup(cfgs, p.dst) == Some(j) && EndsLap(cfgs[j], p.msg) && t < |Contacted(cfgs[j], p.msg)|
    ensures
      && t < |Candidates(cfgs[j], p.msg)| && Candidates(cfgs[j], p.msg)[t].members != []
      && Candidates(cfgs[j], p.msg)[t].name == Contacted(cfgs[j], p.msg)[t]
      && Causes(cfgs, p, Packet(Candidates(cfgs[j], p.msg)[t].members[0], Intercom(cfgs[j], p.msg)))
  {
    var s, m := cfgs[j], p.msg;
    FloodSendsExactly(s, Caches([], []), m);
    var taken := Candidates(s, m)[..|Contacted(s, m)|];
    assert Names(taken)[t] == Contacted(s, m)[t] && taken[t] == Candidates(s, m)[t];
    var q := Packet(Firsts(taken)[t], Intercom(s, m));
    InTheMiddle(ExitSends(s, m), SendAll(Firsts(taken), Intercom(s, m)), FloodList(s, m), t);
    SentIsCaused(cfgs, p, j, q);
  }

  lemma InTheMiddle(a: seq<Send>, b: seq<Send>, all: seq<Send>, t: nat)
    requires a + b <= all && t < |b|
    ensures b[t] in all
  {
    assert all[|a| + t] == (a + b)[|a| + t] == b[t];
  }

  /** The i-th packet ends its lap at the i-th server. */
  predicate EndsAt(cfgs: seq<Config>, servers: seq<Config>, path: seq<Packet>, i: nat)
    requires i < |path| == |servers|
  {
    var j := Lookup(cfgs, path[i].dst);
    j.Some? && cfgs[j.value] == servers[i] && EndsLap(servers[i], path[i].msg)
  }

  /** Packets handed on along a chain: each ends its lap at the next server, which hands on the following one. */
  predicate HandedAlong(cfgs: seq<Config>, servers: seq<Config>, path: seq<Packet>) {
    && |path| == |servers|
    && (forall i :: 0 <= i < |path| ==> EndsAt(cfgs, servers, path, i))
    && (forall i :: 0 < i < |path| ==> RingCopy(servers[i - 1], path[i - 1].msg) == Some(path[i]))
  }

  /** Packets handed on along a chain form a causal path. */
  lemma ChainIsPath(cfgs: seq<Config>, servers: seq<Config>, path: seq<Packet>)
    requires HandedAlong(cfgs, servers, path)
    ensures IsPath(cfgs, path)
  {
    forall i | 0 <= i < |path| - 1 ensures Causes(cfgs, path[i], path[i + 1]) {
      assert EndsAt(cfgs, servers, path, i);
      assert RingCopy(servers[i], path[i].msg) == Some(path[i + 1]);
      RingCopyIsCaused(cfgs, path[i], Lookup(cfgs, path[i].dst).value);
    }
  }

  /** Each packet of such a path is the copy that the chain carries to its server. */
  lemma {:induction false} PathIsCarried(cfgs: seq<Config>, servers: seq<Config>, path: seq<Packet>, n: nat)
    requires HandedAlong(cfgs, servers, path) && n < |path|
    ensures Carried(servers[..n], path[0].msg) == Some(path[n].msg)
  {
    if n == 0 {
      assert servers[..n] == [];
    } else {
      PathIsCarried(cfgs, servers, path, n - 1);
      CarriedSnoc(servers[..n - 1], servers[n - 1], path[0].msg);
      assert servers[..n] == servers[..n - 1] + [servers[n - 1]];
      assert RingCopy(servers[n - 1], path[n - 1].msg) == Some(path[n]);
    }
  }

  lemma {:induction false} CarriedSnoc(servers: seq<Config>, s: Config, m: ExtClrMsg)
    ensures var c := Carried(servers, m);
      Carried(servers + [s], m) == if c.None? then None else Onward(s, c.value)
  {
    if servers == [] {
      assert servers + [s] == [s] && [s][1..] == [];
    } else {
      assert (servers + [s])[1..] == servers[1..] + [s];
      var next := Onward(servers[0], m);
      if next.Some? {
        CarriedSnoc(servers[1..], s, next.value);
      }
    }
  }
}
