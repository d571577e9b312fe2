/** The routing code of the C++ server plugin (PluginNMTwoSixServerCpp.cpp), proved against Routing.Route. */
module ServerPluginCpp {
  import opened Wrappers
  import opened Messages
  import opened Routing
  import C = UuidCache

  class ServerCpp {
    const cfg: Config
    var staleUuids: seq<int>
    var floodedUuids: seq<int>
    /** Everything handed to the SDK for sending, oldest first. */
    var outbox: seq<Send>

    constructor (cfg: Config)
      ensures this.cfg == cfg && Contents() == Caches([], []) && outbox == []
    {
      this.cfg := cfg;
      staleUuids, floodedUuids, outbox := [], [], [];
    }

    function Contents(): Caches
      reads this
    {
      Caches(staleUuids, floodedUuids)
    }

    method SendMsg(dst: string, msg: MessageObject)
      modifies this`outbox
      ensures outbox == old(outbox) + [ToServer(dst, msg.Value())]
    {
      outbox := outbox + [ToServer(dst, msg.Value())];
    }

    method AddStaleUuid(uuid: int) returns (defined: bool)
      requires cfg.plugin == Cpp
      modifies this`staleUuids
      ensures var a := AddStale(cfg, old(staleUuids), uuid);
              defined == a.Some? && (defined ==> staleUuids == a.value)
    {
      if |staleUuids| > cfg.maxStale {
        var trimEnd := C.Int32(cfg.maxStale / 10 + 1);
        if !(0 <= trimEnd <= |staleUuids|) {
          return false;
        }
        staleUuids := staleUuids[trimEnd..];
      }
      if uuid != UNSET_UUID && uuid !in staleUuids {
        staleUuids := staleUuids + [uuid];
      }
      defined := true;
    }

    method AddFloodedUuid(uuid: int) returns (defined: bool)
      requires cfg.plugin == Cpp
      modifies this`floodedUuids
      ensures var a := AddFlooded(cfg, old(floodedUuids), uuid);
              defined == a.Some? && (defined ==> floodedUuids == a.value)
    {
      if |floodedUuids| > cfg.maxFlooded {
        var trimEnd := C.Int32(cfg.maxStale / 10 + 1);
        if !(0 <= trimEnd <= |floodedUuids|) {
          return false;
        }
        floodedUuids := floodedUuids[trimEnd..];
      }
      if uuid != UNSET_UUID && uuid !in floodedUuids {
        floodedUuids := floodedUuids + [uuid];
      }
      defined := true;
    }

    method RouteMsg(msg: MessageObject) returns (status: Status)
      requires cfg.plugin == Cpp
      modifies this, msg
      ensures Matches(old(Route(cfg, Contents(), msg.Value())), status, Contents(), old(outbox), outbox)
    {
      if msg.ringTtl == UNSET_RING_TTL && |cfg.rings| > 0 {
        status := StartRingMsg(msg);
      } else {
        status := HandleRingMsg(msg);
      }
    }

    method StartRingMsg(msg: MessageObject) returns (status: Status)
      requires cfg.plugin == Cpp
      requires msg.ringTtl == UNSET_RING_TTL
      modifies this
      ensures Matches(old(StartRing(cfg, Contents(), msg.Value())), status, Contents(), old(outbox), outbox)
    {
      if msg.uuid in staleUuids {
        return Returned;
      }
      var defined := AddStaleUuid(msg.uuid);
      if !defined {
        return UndefinedBehaviour;
      }
      SendToRings(msg);
      status := Returned;
    }

    method SendToRings(msg: MessageObject)
      modifies this`outbox
      ensures outbox == old(outbox) + if msg.ringTtl == UNSET_RING_TTL then RingSends(cfg.rings, msg.Value()) else []
    {
      if msg.ringTtl != UNSET_RING_TTL {
        return;
      }
      var idx := 0;
      while idx < |cfg.rings|
        invariant 0 <= idx <= |cfg.rings|
        invariant outbox == old(outbox) + RingSends(cfg.rings, msg.Value())[..idx]
      {
        var ringMsg := msg.Copy();
        ringMsg.ringTtl := cfg.rings[idx].length - 1;
        ringMsg.ringIdx := idx;
        SendMsg(cfg.rings[idx].next, ringMsg);
        idx := idx + 1;
      }
    }

    method HandleRingMsg(msg: MessageObject) returns (status: Status)
      requires cfg.plugin == Cpp
      modifies this, msg
      ensures Matches(old(HandleRing(cfg, Contents(), msg.Value())), status, Contents(), old(outbox), outbox)
    {
      var defined := AddStaleUuid(msg.uuid);
      if !defined {
        return UndefinedBehaviour;
      }
      if msg.ringTtl > 0 {
        msg.DecRingTtl();
        if !(0 <= msg.ringIdx < |cfg.rings|) {
          return OutOfRange;
        }
        SendMsg(cfg.rings[msg.ringIdx].next, msg);
      } else if msg.uuid !in floodedUuids {
        defined := AddFloodedUuid(msg.uuid);
        if !defined {
          return UndefinedBehaviour;
        }
        status := EndOfLap(msg);
        return;
      }
      status := Returned;
    }

    method EndOfLap(msg: MessageObject) returns (status: Status)
      requires cfg.plugin == Cpp
      modifies this`outbox, msg
      ensures Matches(old(Flood(cfg, Contents(), msg.Value())), status, Contents(), old(outbox), outbox)
    {
      ghost var m, before := msg.Value(), outbox;
      var dstClient := msg.body.to;
      if dstClient in cfg.exitClients {
        outbox := outbox + [ToClient(dstClient, msg.body)];
      }
      assert outbox == before + ExitSends(cfg, m);
      if dstClient in cfg.committeeClients && |cfg.rings| > 0 {
        if !(0 <= msg.ringIdx < |cfg.rings|) {
          return UndefinedBehaviour;
        }
        SendMsg(cfg.rings[msg.ringIdx].next, msg);
      } else {
        var defined := ForwardToNewCommittees(msg);
        if !defined {
          return UndefinedBehaviour;
        }
      }
      status := Returned;
    }

    /** Notes the own committee in the message, and makes the copy that goes to other committees. */
    method MarkAndCopy(msg: MessageObject) returns (intercomMsg: MessageObject)
      modifies msg`committeesVisited
      ensures msg.Value() == old(msg.Value()).(visited := Visit(old(msg.committeesVisited), cfg.committee))
      ensures fresh(intercomMsg) && intercomMsg.Value() == Intercom(cfg, old(msg.Value()))
    {
      if cfg.committee !in msg.committeesVisited {
        msg.committeesVisited := msg.committeesVisited + [cfg.committee];
      }
      intercomMsg := msg.Copy();
      intercomMsg.ringTtl := UNSET_RING_TTL;
      intercomMsg.committeesSent := [];
    }

    method ForwardToNewCommittees(msg: MessageObject) returns (defined: bool)
      requires cfg.plugin == Cpp
      modifies this`outbox, msg
      ensures var f := old(ForwardSends(cfg, msg.Value()));
              defined == f.Some? && (defined ==> outbox == old(outbox) + f.value)
    {
      ghost var m := msg.Value();
      var visited := msg.committeesVisited;
      var intercomMsg := MarkAndCopy(msg);
      var sent := msg.committeesSent;
      var intercomDsts;
      ghost var chosen;
      defined, intercomDsts, chosen := ChooseCommittees(msg, visited, sent);
      if !defined {
        return;
      }
      assert msg.Value() == Passed(cfg, m, Picks(chosen, intercomDsts));
      SendToAll(intercomDsts, intercomMsg);
      if cfg.floodingFactor <= 0 || |intercomDsts| + |sent| < cfg.floodingFactor {
        if |cfg.rings| > 0 {
          SendMsg(cfg.rings[0].next, msg);
        }
      }
    }

    /** The loop over the reachable committees, which also records them in the message. */
    method ChooseCommittees(msg: MessageObject, visited: seq<string>, sent: seq<string>)
      returns (defined: bool, intercomDsts: seq<string>, ghost chosen: seq<string>)
      modifies msg`committeesSent
      ensures var p := Pick(cfg.reachable, visited + sent, cfg.floodingFactor, NoPicks);
              defined == p.Some? && (defined ==> p.value == Picks(chosen, intercomDsts))
      ensures msg.committeesSent == old(msg.committeesSent) + chosen
    {
      intercomDsts, chosen := [], [];
      var i := 0;
      while i < |cfg.reachable|
        invariant 0 <= i <= |cfg.reachable|
        invariant Pick(cfg.reachable, visited + sent, cfg.floodingFactor, NoPicks)
               == Pick(cfg.reachable[i..], visited + sent, cfg.floodingFactor, Picks(chosen, intercomDsts))
        invariant msg.committeesSent == old(msg.committeesSent) + chosen
      {
        var committee := cfg.reachable[i];
        if !(committee.name in visited || committee.name in sent) {
          if committee.members == [] {
            return false, intercomDsts, chosen;
          }
          intercomDsts := if committee.members[0] in intercomDsts then intercomDsts else intercomDsts + [committee.members[0]];
          msg.committeesSent := msg.committeesSent + [committee.name];
          chosen := chosen + [committee.name];
          if cfg.floodingFactor > 0 && |intercomDsts| >= cfg.floodingFactor {
            return true, intercomDsts, chosen;
          }
        }
        i := i + 1;
      }
      defined := true;
    }

    method SendToAll(dsts: seq<string>, msg: MessageObject)
      modifies this`outbox
      ensures outbox == old(outbox) + SendAll(dsts, msg.Value())
    {
      var k := 0;
      while k < |dsts|
        invariant 0 <= k <= |dsts|
        invariant outbox == old(outbox) + SendAll(dsts, msg.Value())[..k]
      {
        SendMsg(dsts[k], msg);
        k := k + 1;
      }
    }
  }
}
