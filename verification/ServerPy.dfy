/** The routing code of the Python server plugin (PluginNMTwoSixServerPy.py), proved against Routing.Route. */
module ServerPluginPy {
  import opened Wrappers
  import opened Messages
  import opened Routing

  class ServerPy {
    const cfg: Config
    var staleUuids: seq<int>
    var floodedUuids: seq<int>
    var outbox: seq<Send>

    constructor (cfg: Config)
      ensures this.cfg == cfg && Contents() == Caches([], []) && outbox == []
    {
      this.cfg := cfg;
      staleUuids, floodedUuids, outbox := [], [], [];
    }

    function Contents(): Caches
      reads this
    {
      Caches(staleUuids, floodedUuids)
    }

    method SendMsg(dst: string, msg: MessageObject)
      modifies this`outbox
      ensures outbox == old(outbox) + [ToServer(dst, msg.Value())]
    {
      outbox := outbox + [ToServer(dst, msg.Value())];
    }

    /** `self.uuids[trimAmount:]`, followed by an add to the ordered set. */
    method AddTrimmed(uuids: seq<int>, uuid: int) returns (r: seq<int>)
      requires cfg.plugin == Python
      ensures AddStale(cfg, uuids, uuid) == AddFlooded(cfg, uuids, uuid) == Some(r)
    {
      r := uuids;
      if |r| > cfg.maxStale {
        var trimAmount := if cfg.maxStale / 10 > 1 then cfg.maxStale / 10 else 1;
        r := if trimAmount <= |r| then r[trimAmount..] else [];
      }
      if uuid != UNSET_UUID && uuid !in r {
        r := r + [uuid];
      }
    }

    method RouteMsg(msg: MessageObject) returns (status: Status)
      requires cfg.plugin == Python
      modifies this, msg
      ensures Matches(old(Route(cfg, Contents(), msg.Value())), status, Contents(), old(outbox), outbox)
    {
      if msg.ringTtl == UNSET_RING_TTL && |cfg.rings| > 0 {
        status := StartRingMsg(msg);
      } else {
        status := HandleRingMsg(msg);
      }
    }

    method StartRingMsg(msg: MessageObject) returns (status: Status)
      requires cfg.plugin == Python
      requires msg.ringTtl == UNSET_RING_TTL
      modifies this
      ensures Matches(old(StartRing(cfg, Contents(), msg.Value())), status, Contents(), old(outbox), outbox)
    {
      if msg.uuid in staleUuids {
        return Returned;
      }
      staleUuids := AddTrimmed(staleUuids, msg.uuid);
      SendToRings(msg);
      status := Returned;
    }

    method SendToRings(msg: MessageObject)
      modifies this`outbox
      ensures outbox == old(outbox) + if msg.ringTtl == UNSET_RING_TTL then RingSends(cfg.rings, msg.Value()) else []
    {
      if msg.ringTtl != UNSET_RING_TTL {
        return;
      }
      var idx := 0;
      while idx < |cfg.rings|
        invariant 0 <= idx <= |cfg.rings|
        invariant outbox == old(outbox) + RingSends(cfg.rings, msg.Value())[..idx]
      {
        var ringMsg := msg.Copy();
        ringMsg.ringTtl := cfg.rings[idx].length - 1;
        ringMsg.ringIdx := idx;
        SendMsg(cfg.rings[idx].next, ringMsg);
        idx := idx + 1;
      }
    }

    method HandleRingMsg(msg: MessageObject) returns (status: Status)
      requires cfg.plugin == Python
      modifies this, msg
      ensures Matches(old(HandleRing(cfg, Contents(), msg.Value())), status, Contents(), old(outbox), outbox)
    {
      staleUuids := AddTrimmed(staleUuids, msg.uuid);
      if msg.ringTtl > 0 {
        msg.DecRingTtl();
        var ring := RingAt(cfg, msg.ringIdx);
        if ring.None? {
          return OutOfRange;
        }
        SendMsg(ring.value.next, msg);
      } else if msg.uuid !in floodedUuids {
        floodedUuids := AddTrimmed(floodedUuids, msg.uuid);
        status := EndOfLap(msg);
        return;
      }
      status := Returned;
    }

    method EndOfLap(msg: MessageObject) returns (status: Status)
      requires cfg.plugin == Python
      modifies this`outbox, msg`committeesSent
      ensures Matches(old(Flood(cfg, Contents(), msg.Value())), status, Contents(), old(outbox), outbox)
    {
      ghost var m, before := msg.Value(), outbox;
      var dstClient := msg.body.to;
      if dstClient in cfg.exitClients {
        outbox := outbox + [ToClient(dstClient, msg.body)];
      }
      assert outbox == before + ExitSends(cfg, m);
      if dstClient in cfg.committeeClients && |cfg.rings| > 0 {
        var ring := RingAt(cfg, msg.ringIdx);
        if ring.None? {
          return OutOfRange;
        }
        SendMsg(ring.value.next, msg);
        status := Returned;
      } else {
        var ok := ForwardToNewCommittees(msg);
        status := if ok then Returned else OutOfRange;
      }
    }

    /** The copy that goes to other committees. */
    method IntercomCopy(msg: MessageObject) returns (intercomMsg: MessageObject)
      ensures fresh(intercomMsg) && intercomMsg.Value() == Intercom(cfg, msg.Value())
    {
      intercomMsg := msg.Copy();
      intercomMsg.ringTtl := UNSET_RING_TTL;
      if cfg.committee !in intercomMsg.committeesVisited {
        intercomMsg.committeesVisited := intercomMsg.committeesVisited + [cfg.committee];
      }
      intercomMsg.committeesSent := [];
    }

    method ForwardToNewCommittees(msg: MessageObject) returns (ok: bool)
      requires cfg.plugin == Python
      modifies this`outbox, msg`committeesSent
      ensures var f := old(ForwardSends(cfg, msg.Value()));
              ok == f.Some? && outbox == old(outbox) + if f.Some? then f.value else []
    {
      ghost var m := msg.Value();
      var intercomMsg := IntercomCopy(msg);
      var intercomDsts;
      ghost var chosen;
      ok, intercomDsts, chosen := ChooseCommittees(msg, intercomMsg);
      if !ok {
        return;
      }
      assert msg.Value() == Passed(cfg, m, Picks(chosen, intercomDsts));
      SendToAll(intercomDsts, intercomMsg);
      if cfg.floodingFactor <= 0 || |intercomDsts| < cfg.floodingFactor {
        PassOnRings(msg);
      }
    }

    /** The loop over the reachable committees; it consults the copy's lists and records into the original's. */
    method ChooseCommittees(msg: MessageObject, intercomMsg: MessageObject)
      returns (ok: bool, intercomDsts: seq<string>, ghost chosen: seq<string>)
      requires intercomMsg != msg && intercomMsg.committeesSent == []
      modifies msg`committeesSent
      ensures var p := Pick(cfg.reachable, intercomMsg.committeesVisited, cfg.floodingFactor, NoPicks);
              ok == p.Some? && (ok ==> p.value == Picks(chosen, intercomDsts))
      ensures msg.committeesSent == old(msg.committeesSent) + chosen
    {
      intercomDsts, chosen := [], [];
      var i := 0;
      while i < |cfg.reachable|
        invariant 0 <= i <= |cfg.reachable|
        invariant Pick(cfg.reachable, intercomMsg.committeesVisited, cfg.floodingFactor, NoPicks)
               == Pick(cfg.reachable[i..], intercomMsg.committeesVisited, cfg.floodingFactor, Picks(chosen, intercomDsts))
        invariant msg.committeesSent == old(msg.committeesSent) + chosen
      {
        var committee := cfg.reachable[i];
        if !(committee.name in intercomMsg.committeesVisited || committee.name in intercomMsg.committeesSent) {
          if committee.members == [] {
            return false, intercomDsts, chosen;
          }
          intercomDsts := if committee.members[0] in intercomDsts then intercomDsts else intercomDsts + [committee.members[0]];
          msg.committeesSent := msg.committeesSent + [committee.name];
          chosen := chosen + [committee.name];
          if cfg.floodingFactor > 0 && |intercomDsts| >= cfg.floodingFactor {
            return true, intercomDsts, chosen;
          }
        }
        i := i + 1;
      }
      ok := true;
    }

    method SendToAll(dsts: seq<string>, msg: MessageObject)
      modifies this`outbox
      ensures outbox == old(outbox) + SendAll(dsts, msg.Value())
    {
      var k := 0;
      while k < |dsts|
        invariant 0 <= k <= |dsts|
        invariant outbox == old(outbox) + SendAll(dsts, msg.Value())[..k]
      {
        SendMsg(dsts[k], msg);
        k := k + 1;
      }
    }

    method PassOnRings(msg: MessageObject)
      modifies this`outbox
      ensures outbox == old(outbox) + RingPasses(cfg.rings, msg.Value())
    {
      var r := 0;
      while r < |cfg.rings|
        invariant 0 <= r <= |cfg.rings|
        invariant outbox == old(outbox) + RingPasses(cfg.rings, msg.Value())[..r]
      {
        SendMsg(cfg.rings[r].next, msg);
        r := r + 1;
      }
    }
  }
}
