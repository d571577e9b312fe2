/**
 * Over any run, a server starts its rings for a uuid at most once, and it makes the flood
 * decision and hands the message to its recipient exactly when its flooded cache gains the uuid.
 */
module AtMostOnce {
  import opened Wrappers
  import opened Messages
  import opened Routing
  import opened Network

  /** Server j handles the message of this action, and its uuid is `uuid`. */
  predicate Handles(cfgs: seq<Config>, n: Net, a: Action, j: nat, uuid: int)
    requires Shaped(cfgs, n)
  {
    && a.Deliver? && a.index < |n.inflight| && j < |cfgs|
    && Lookup(cfgs, n.inflight[a.index].dst) == Some(j)
    && n.inflight[a.index].msg.uuid == uuid
    && !Consumed(cfgs[j], n.inflight[a.index].msg)
  }

  /** The message is new from outside and goes out on the rings. */
  predicate StartsRings(cfgs: seq<Config>, n: Net, a: Action, j: nat, uuid: int)
    requires Shaped(cfgs, n)
  {
    && Handles(cfgs, n, a, j, uuid)
    && !n.inflight[a.index].msg.IsRingTtlSet() && cfgs[j].rings != []
    && uuid !in n.caches[j].stale
  }

  /** The message ends its lap here for the first time. */
  predicate DecidesToFlood(cfgs: seq<Config>, n: Net, a: Action, j: nat, uuid: int)
    requires Shaped(cfgs, n)
  {
    && Handles(cfgs, n, a, j, uuid)
    && (n.inflight[a.index].msg.IsRingTtlSet() || cfgs[j].rings == [])
    && n.inflight[a.index].msg.ringTtl <= 0
    && uuid !in n.caches[j].flooded
  }

  /** The messages for clients among the sends of one step. */
  function ClientSends(sends: seq<Send>): seq<Send> {
    if sends == [] then [] else (if sends[0].ToClient? then [sends[0]] else []) + ClientSends(sends[1..])
  }

  /** What server j hands to clients, to whichever and whatever, when it handles this uuid in this step. */
  function Handed(cfgs: seq<Config>, n: Net, a: Action, j: nat, uuid: int): seq<Send>
    requires Shaped(cfgs, n) && Enabled(cfgs, n, a)
  {
    if Handles(cfgs, n, a, j, uuid) then
      ClientSends(Process(cfgs[j], n.caches[j], n.inflight[a.index].msg).sends)
    else []
  }

  datatype Tally = Tally(starts: nat, decisions: nat, handed: seq<Send>)

  function Tallied(cfgs: seq<Config>, n: Net, run: seq<Action>, j: nat, uuid: int): Tally
    requires Shaped(cfgs, n) && IsRun(cfgs, n, run)
    decreases |run|
  {
    if run == [] then Tally(0, 0, [])
    else
      var rest := Tallied(cfgs, Exec(cfgs, n, run[0]), run[1..], j, uuid);
      Tally((if StartsRings(cfgs, n, run[0], j, uuid) then 1 else 0) + rest.starts,
            (if DecidesToFlood(cfgs, n, run[0], j, uuid) then 1 else 0) + rest.decisions,
            Handed(cfgs, n, run[0], j, uuid) + rest.handed)
  }

  // ----- one server's traffic -----

  /** This server's caches have room for these uuids and hold no others. */
  ghost predicate Fits(cfg: Config, c: Caches, uuids: set<int>) {
    UNSET_UUID !in uuids && |uuids| <= Capacity(cfg) && Remembers(c, uuids)
  }

  /** If this action delivers to server j, then a message with one of these uuids. */
  predicate HandlesKnown(cfgs: seq<Config>, n: Net, a: Action, j: nat, uuids: set<int>) {
    a.Deliver? && a.index < |n.inflight| && Lookup(cfgs, n.inflight[a.index].dst) == Some(j) ==>
      Known(n.inflight[a.index].msg.uuid, uuids)
  }

  /** All that server j handles in the run has one of these uuids; other servers' traffic is free. */
  predicate HandlesOnly(cfgs: seq<Config>, n: Net, run: seq<Action>, j: nat, uuids: set<int>)
    requires Shaped(cfgs, n) && IsRun(cfgs, n, run)
    decreases |run|
  {
    run == [] || (HandlesKnown(cfgs, n, run[0], j, uuids) && HandlesOnly(cfgs, Exec(cfgs, n, run[0]), run[1..], j, uuids))
  }

  lemma StepFits(cfgs: seq<Config>, n: Net, a: Action, j: nat, uuids: set<int>)
    requires Shaped(cfgs, n) && Enabled(cfgs, n, a) && j < |cfgs|
    requires Fits(cfgs[j], n.caches[j], uuids) && HandlesKnown(cfgs, n, a, j, uuids)
    ensures Fits(cfgs[j], Exec(cfgs, n, a).caches[j], uuids)
  {
    if a.Deliver? && Lookup(cfgs, n.inflight[a.index].dst) == Some(j) {
      CachesGrow(cfgs[j], n.caches[j], n.inflight[a.index].msg, uuids);
    }
  }

  /** When all traffic fits every server, it fits each. */
  lemma {:induction false} RoomyHandlesOnly(cfgs: seq<Config>, n: Net, run: seq<Action>, j: nat, uuids: set<int>)
    requires Roomy(cfgs, n, uuids) && IsRun(cfgs, n, run) && Carries(run, uuids) && j < |cfgs|
    ensures Fits(cfgs[j], n.caches[j], uuids) && HandlesOnly(cfgs, n, run, j, uuids)
    decreases |run|
  {
    if run != [] {
      var a := run[0];
      assert a in run;
      if a.Deliver? {
        assert n.inflight[a.index] in n.inflight;
      }
      RoomyStep(cfgs, n, a, uuids);
      RoomyHandlesOnly(cfgs, Exec(cfgs, n, a), run[1..], j, uuids);
    }
  }

  // ----- one step -----

  /** A ring start makes the uuid stale, a flood decision makes it flooded; nothing else floods it. */
  lemma StepMarks(cfgs: seq<Config>, n: Net, a: Action, uuids: set<int>, j: nat, uuid: int)
    requires Shaped(cfgs, n) && Enabled(cfgs, n, a) && j < |cfgs| && uuid != UNSET_UUID
    requires Fits(cfgs[j], n.caches[j], uuids) && HandlesKnown(cfgs, n, a, j, uuids)
    ensures var n' := Exec(cfgs, n, a);
            && (uuid in n.caches[j].stale ==> uuid in n'.caches[j].stale)
            && (StartsRings(cfgs, n, a, j, uuid) ==> uuid in n'.caches[j].stale)
            && (uuid in n'.caches[j].flooded <==> uuid in n.caches[j].flooded || DecidesToFlood(cfgs, n, a, j, uuid))
  {
    if a.Deliver? {
      var p := n.inflight[a.index];
      var l := Lookup(cfgs, p.dst);
      if l == Some(j) {
        AddsFit(cfgs[j], n.caches[j], p.msg.uuid, uuids);
        CachesGrow(cfgs[j], n.caches[j], p.msg, uuids);
      }
    }
  }

  lemma {:induction false} NoClients(sends: seq<Send>)
    requires forall i :: 0 <= i < |sends| ==> sends[i].ToServer?
    ensures ClientSends(sends) == []
  {
    if sends != [] {
      NoClients(sends[1..]);
    }
  }

  lemma {:induction false} ClientsConcat(a: seq<Send>, b: seq<Send>)
    ensures ClientSends(a + b) == ClientSends(a) + ClientSends(b)
  {
    if a == [] {
      assert a + b == b;
    } else {
      ClientsConcat(a[1..], b);
      assert (a + b)[1..] == a[1..] + b;
    }
  }

  /** After the exit clients, a flood sends to servers only. */
  lemma FloodTail(cfg: Config, c: Caches, m: ExtClrMsg) returns (rest: seq<Send>)
    requires !Flood(cfg, c, m).Undefined?
    ensures Flood(cfg, c, m).sends == ExitSends(cfg, m) + rest
    ensures forall i :: 0 <= i < |rest| ==> rest[i].ToServer?
  {
    if Flood(cfg, c, m).Thrown? {
      rest := [];
    } else if m.body.to in cfg.committeeClients && cfg.rings != [] {
      rest := [ToServer(RingAt(cfg, m.ringIdx).value.next, m)];
    } else {
      rest := ForwardSends(cfg, m).value;
    }
  }

  /** A flood hands the message's body to the recipient it names, if that one exits here, and nothing to anyone else. */
  lemma FloodExits(cfg: Config, c: Caches, m: ExtClrMsg)
    requires !Flood(cfg, c, m).Undefined?
    ensures ClientSends(Flood(cfg, c, m).sends)
         == if m.body.to in cfg.exitClients then [ToClient(m.body.to, m.body)] else []
  {
    var exits := ExitSends(cfg, m);
    var rest := FloodTail(cfg, c, m);
    ClientsConcat(exits, rest);
    NoClients(rest);
    assert exits != [] ==> exits[1..] == [];
  }

  /** Whoever does not decide to flood sends to servers only. */
  lemma OnlyServersUnlessFlooding(cfg: Config, c: Caches, m: ExtClrMsg, uuids: set<int>)
    requires Remembers(c, uuids) && Known(m.uuid, uuids) && |uuids| <= Capacity(cfg)
    requires !Process(cfg, c, m).Undefined?
    requires Consumed(cfg, m) || (!m.IsRingTtlSet() && cfg.rings != []) || m.ringTtl > 0 || m.uuid in c.flooded
    ensures ClientSends(Process(cfg, c, m).sends) == []
  {
    AddsFit(cfg, c, m.uuid, uuids);
    NoClients(Process(cfg, c, m).sends);
  }

  /** A step hands the message's body to its recipient exactly when it decides to flood and the recipient exits here. */
  lemma StepExits(cfgs: seq<Config>, n: Net, a: Action, uuids: set<int>, j: nat, uuid: int)
    requires Shaped(cfgs, n) && Enabled(cfgs, n, a) && j < |cfgs| && uuid != UNSET_UUID
    requires Fits(cfgs[j], n.caches[j], uuids) && HandlesKnown(cfgs, n, a, j, uuids)
    ensures Handed(cfgs, n, a, j, uuid) ==
      if DecidesToFlood(cfgs, n, a, j, uuid) && n.inflight[a.index].msg.body.to in cfgs[j].exitClients
      then [ToClient(n.inflight[a.index].msg.body.to, n.inflight[a.index].msg.body)] else []
  {
    if Handles(cfgs, n, a, j, uuid) {
      var m := n.inflight[a.index].msg;
      assert n.inflight[a.index] in n.inflight;
      var c := n.caches[j];
      AddsFit(cfgs[j], c, uuid, uuids);
      if DecidesToFlood(cfgs, n, a, j, uuid) {
        FloodExits(cfgs[j], Caches(Store(c.stale, uuid), Store(c.flooded, uuid)), m);
      } else {
        OnlyServersUnlessFlooding(cfgs[j], c, m, uuids);
      }
    }
  }

  // ----- whole runs -----

  /** This body is that of a message of the uuid, present or injected later. */
  ghost predicate Enters(n: Net, run: seq<Action>, uuid: int, clr: ClrMsg) {
    || (exists p :: p in n.inflight && p.msg.uuid == uuid && p.msg.body == clr)
    || (exists a :: a in run && a.Inject? && a.packet.msg.uuid == uuid && a.packet.msg.body == clr)
  }

  /** Every message of this uuid is for this client. */
  ghost predicate AllFor(n: Net, run: seq<Action>, uuid: int, client: string) {
    forall clr :: Enters(n, run, uuid, clr) ==> clr.to == client
  }

  /** No step makes up a body. */
  lemma EntersBefore(cfgs: seq<Config>, n: Net, run: seq<Action>, uuid: int, clr: ClrMsg)
    requires Shaped(cfgs, n) && run != [] && Enabled(cfgs, n, run[0])
    requires Enters(Exec(cfgs, n, run[0]), run[1..], uuid, clr)
    ensures Enters(n, run, uuid, clr)
  {
    var a, n' := run[0], Exec(cfgs, n, run[0]);
    assert a in run;
    if q :| q in n'.inflight && q.msg.uuid == uuid && q.msg.body == clr {
      if a.Deliver? && q !in n.inflight {
        var p := n.inflight[a.index];
        assert p in n.inflight;
        var j := Lookup(cfgs, p.dst).value;
        var o := Process(cfgs[j], n.caches[j], p.msg);
        SendsVersions(cfgs[j], n.caches[j], p.msg);
        ArrivalsFromSends(o.sends);
        assert q in Arrivals(o.sends);
      }
    } else {
      var b :| b in run[1..] && b.Inject? && b.packet.msg.uuid == uuid && b.packet.msg.body == clr;
      assert b in run;
    }
  }

  /** What a server may hand out over a run in which it makes one flood decision: one body that entered, to its recipient. */
  ghost predicate HandsOver(n: Net, run: seq<Action>, uuid: int, client: string, handed: seq<Send>) {
    |handed| == 1 && handed[0].ToClient? && handed[0].client == client && Enters(n, run, uuid, handed[0].clr)
  }

  /**
   * The counts of a whole run, from what the server's caches held before and hold after it, and all
   * that it hands to clients: nothing, or one body that entered under the uuid, to the client that
   * body names. Only the distinct uuids that this server handles have to fit its caches.
   */
  lemma {:induction false} RunTally(
    cfgs: seq<Config>, n: Net, run: seq<Action>, uuids: set<int>, j: nat, uuid: int, client: string)
    requires Shaped(cfgs, n) && IsRun(cfgs, n, run) && j < |cfgs|
    requires Fits(cfgs[j], n.caches[j], uuids) && HandlesOnly(cfgs, n, run, j, uuids)
    requires uuid != UNSET_UUID && AllFor(n, run, uuid, client)
    ensures var t := Tallied(cfgs, n, run, j, uuid);
            var floods := uuid !in n.caches[j].flooded && uuid in End(cfgs, n, run).caches[j].flooded;
            && t.starts <= (if uuid in n.caches[j].stale then 0 else 1)
            && t.decisions == (if floods then 1 else 0)
            && (if floods && client in cfgs[j].exitClients then HandsOver(n, run, uuid, client, t.handed) else t.handed == [])
    ensures uuid in n.caches[j].flooded ==> uuid in End(cfgs, n, run).caches[j].flooded
    decreases |run|
  {
    if run != [] {
      var a, n' := run[0], Exec(cfgs, n, run[0]);
      assert a in run;
      StepMarks(cfgs, n, a, uuids, j, uuid);
      StepExits(cfgs, n, a, uuids, j, uuid);
      StepFits(cfgs, n, a, j, uuids);
      forall clr | Enters(n', run[1..], uuid, clr) ensures Enters(n, run, uuid, clr) {
        EntersBefore(cfgs, n, run, uuid, clr);
      }
      if Handles(cfgs, n, a, j, uuid) {
        assert n.inflight[a.index] in n.inflight;
        assert Enters(n, run, uuid, n.inflight[a.index].msg.body);
      }
      RunTally(cfgs, n', run[1..], uuids, j, uuid, client);
    }
  }
}
