/**
 * The connection table of the Go comms plugin (CommsPlugin.go). Several connection IDs share one
 * connection; opening takes two critical sections with the lock released in between. Each method
 * below is one critical section, so a run of the plugin is any sequence of their calls.
 */
module CommsConnections {

  datatype LinkType = Send | Recv | Bidi

  class CommsConn {
    const linkId: string
    const linkType: LinkType
    var connectionIds: set<string>
    /** How often Close was called; the stop channel has room for one. */
    var closes: nat

    constructor (newConnectionId: string, linkType: LinkType, linkId: string)
      ensures connectionIds == {newConnectionId} && closes == 0
      ensures this.linkId == linkId && this.linkType == linkType
    {
      connectionIds, closes := {newConnectionId}, 0;
      this.linkId, this.linkType := linkId, linkType;
    }

    /** An empty ID is refused. */
    method AddConnectionId(connectionId: string) returns (count: nat)
      modifies this`connectionIds
      ensures connectionIds == old(connectionIds) + if connectionId != "" then {connectionId} else {}
      ensures count == |connectionIds|
    {
      if connectionId != "" {
        connectionIds := connectionIds + {connectionId};
      }
      count := |connectionIds|;
    }

    method RemoveConnectionId(connectionId: string) returns (count: nat)
      modifies this`connectionIds
      ensures connectionIds == old(connectionIds) - {connectionId} && count == |connectionIds|
      ensures count == 0 <==> connectionIds == {}
    {
      connectionIds := connectionIds - {connectionId};
      count := |connectionIds|;
    }

    method Close()
      modifies this`closes
      ensures closes == old(closes) + 1
    {
      closes := closes + 1;
    }
  }

  class Plugin {
    var connections: map<string, CommsConn>
    /** Links that exist, with the channel each belongs to. */
    var linkProperties: map<string, string>
    /** For each known channel, whether its status is anything but unavailable. */
    var channelStatuses: map<string, bool>
    /** Connections that a thread has built in OpenConnection but not yet put into the table. */
    var pending: map<string, CommsConn>
    /** Every connection ever built, and every connection ID ever generated. */
    ghost var all: set<CommsConn>
    ghost var generated: set<string>

    /** An entry's connection lists the entry's ID. */
    ghost predicate TableListed()
      reads this, all
    {
      forall id :: id in connections ==>
        && connections[id] in all && id in connections[id].connectionIds && id in generated && id !in pending
        && id != ""
    }

    ghost predicate PendingAlone()
      reads this, all
    {
      forall id :: id in pending ==>
        && pending[id] in all && pending[id].connectionIds == {id} && id in generated && id != ""
    }

    /** Every ID a connection lists leads back to it. */
    ghost predicate ListedBack()
      reads this, all
    {
      forall c, id :: c in all && id in c.connectionIds ==>
        (id in connections && connections[id] == c) || (id in pending && pending[id] == c)
    }

    /** A connection has been closed once if its last ID is gone, and never otherwise. */
    ghost predicate ClosedOnce()
      reads this, all
    {
      forall c :: c in all ==> c.closes == if c.connectionIds == {} then 1 else 0
    }

    ghost predicate Valid()
      reads this, all
    {
      TableListed() && PendingAlone() && ListedBack() && ClosedOnce()
    }

    constructor (channelStatuses: map<string, bool>)
      ensures Valid() && connections == map[] && pending == map[] && all == {} && generated == {}
      ensures linkProperties == map[] && this.channelStatuses == channelStatuses
    {
      connections, pending, linkProperties := map[], map[], map[];
      this.channelStatuses := channelStatuses;
      all, generated := {}, {};
    }

    predicate Reusable(id: string, linkType: LinkType, linkId: string)
      reads this`connections
    {
      id in connections && connections[id].linkId == linkId && connections[id].linkType == linkType
    }

    /** The search through the table, in the map's arbitrary order. */
    method FindReusable(linkType: LinkType, linkId: string) returns (found: bool, id: string)
      ensures found ==> Reusable(id, linkType, linkId)
      ensures !found ==> forall k :: k in connections ==> connections[k].linkId != linkId || connections[k].linkType != linkType
    {
      var rest := connections.Keys;
      while rest != {}
        invariant rest <= connections.Keys
        invariant forall k :: k in connections && k !in rest ==>
          connections[k].linkId != linkId || connections[k].linkType != linkType
        decreases rest
      {
        id :| id in rest;
        if connections[id].linkId == linkId && connections[id].linkType == linkType {
          return true, id;
        }
        rest := rest - {id};
      }
      found, id := false, "";
    }

    /** Adds an ID to the connection of an entry and enters it under the new ID too. */
    method Share(id: string, newConnectionId: string)
      requires Valid() && id in connections && newConnectionId !in generated && newConnectionId != ""
      modifies this`connections, this`generated, connections[id]
      ensures Valid() && generated == old(generated) + {newConnectionId}
      ensures connections == old(connections)[newConnectionId := old(connections)[id]]
      ensures var shared := old(connections)[id]; shared.connectionIds == old(shared.connectionIds) + {newConnectionId}
    {
      var connection := connections[id];
      var _ := connection.AddConnectionId(newConnectionId);
      connections := connections[newConnectionId := connection];
      generated := generated + {newConnectionId};
    }

    /**
     * First section of OpenConnection: share an open connection of the same link and type, if the
     * table has one. A connection found for sharing has not been closed.
     */
    method ReuseConnection(newConnectionId: string, linkType: LinkType, linkId: string)
      returns (found: bool, id: string)
      requires Valid() && newConnectionId !in generated && newConnectionId != ""
      modifies this`connections, this`generated, all
      ensures Valid() && generated == old(generated) + {newConnectionId}
      ensures found ==> old(Reusable(id, linkType, linkId))
      ensures !found ==> forall k :: k in old(connections) ==>
        old(connections)[k].linkId != linkId || old(connections)[k].linkType != linkType
      ensures found ==>
        var shared := old(connections)[id];
        && shared.closes == 0
        && connections == old(connections)[newConnectionId := shared]
        && shared.connectionIds == old(shared.connectionIds) + {newConnectionId}
      ensures !found ==> connections == old(connections)
      ensures forall c :: c in all && !(found && c == old(connections)[id]) ==> unchanged(c)
    {
      found, id := FindReusable(linkType, linkId);
      if found {
        Share(id, newConnectionId);
      } else {
        generated := generated + {newConnectionId};
      }
    }

    /** Between the sections, without the lock: a new connection of its own for the thread. */
    method BuildConnection(newConnectionId: string, linkType: LinkType, linkId: string)
      requires Valid() && newConnectionId in generated && newConnectionId != ""
      requires newConnectionId !in connections && newConnectionId !in pending
      modifies this`pending, this`all
      ensures Valid()
      ensures pending.Keys == old(pending.Keys) + {newConnectionId}
      ensures forall id :: id in old(pending) ==> pending[id] == old(pending)[id]
      ensures fresh(pending[newConnectionId]) && all == old(all) + {pending[newConnectionId]}
      ensures pending[newConnectionId].linkId == linkId && pending[newConnectionId].linkType == linkType
    {
      var connection := new CommsConn(newConnectionId, linkType, linkId);
      pending := pending[newConnectionId := connection];
      all := all + {connection};
    }

    /** Second section of OpenConnection. */
    method PublishConnection(newConnectionId: string)
      requires Valid() && newConnectionId in pending
      modifies this`connections, this`pending
      ensures Valid()
      ensures connections == old(connections)[newConnectionId := old(pending)[newConnectionId]]
      ensures pending == old(pending) - {newConnectionId}
    {
      connections := connections[newConnectionId := pending[newConnectionId]];
      pending := pending - {newConnectionId};
    }

    /** The connection is shut down exactly when this was its last ID. */
    method CloseConnection(connectionId: string) returns (ok: bool)
      requires Valid()
      modifies this`connections, all
      ensures Valid()
      ensures ok == (connectionId in old(connections)) && connections == old(connections) - {connectionId}
      ensures ok ==>
        var c := old(connections)[connectionId];
        && c.connectionIds == old(c.connectionIds) - {connectionId}
        && c.closes == (if c.connectionIds == {} then 1 else 0)
      ensures forall c :: c in all && !(ok && c == old(connections)[connectionId]) ==> unchanged(c)
    {
      if connectionId !in connections {
        return false;
      }
      var connection := connections[connectionId];
      var left := connection.RemoveConnectionId(connectionId);
      if left == 0 {
        connection.Close();
      }
      connections := connections - {connectionId};
      ok := true;
    }

    /** What creating or loading a link enters. */
    method AddLink(linkId: string, channelGid: string)
      requires Valid()
      modifies this`linkProperties
      ensures Valid() && linkProperties == old(linkProperties)[linkId := channelGid]
    {
      linkProperties := linkProperties[linkId := channelGid];
    }

    /** The table entries whose connection is not on this link. */
    ghost function OffLink(linkId: string): map<string, CommsConn>
      reads this
    {
      map id | id in connections && connections[id].linkId != linkId :: connections[id]
    }

    /** Closes every connection on the link, each exactly once, and forgets the link. */
    method DestroyLink(linkId: string) returns (ok: bool)
      requires Valid()
      modifies this`connections, this`linkProperties, all
      ensures Valid()
      ensures ok == (linkId in old(linkProperties)) && linkProperties == old(linkProperties) - {linkId}
      ensures connections == if ok then old(OffLink(linkId)) else old(connections)
      ensures forall c :: c in all ==>
        if ok && c in old(connections.Values) && c.linkId == linkId then c.connectionIds == {} && c.closes == 1
        else c.connectionIds == old(c.connectionIds) && c.closes == old(c.closes)
    {
      if linkId !in linkProperties {
        return false;
      }
      var rest := connections.Keys;
      while rest != {}
        invariant Valid() && linkProperties == old(linkProperties)
        invariant rest <= connections.Keys <= old(connections.Keys)
        invariant forall id :: id in connections ==> connections[id] == old(connections)[id]
        invariant forall id :: id in old(connections) ==>
          (id in connections <==> id in rest || old(connections)[id].linkId != linkId)
        invariant forall c :: c in all && c.linkId != linkId ==>
          c.connectionIds == old(c.connectionIds) && c.closes == old(c.closes)
        invariant forall c :: c in all && c !in old(connections.Values) ==>
          c.connectionIds == old(c.connectionIds) && c.closes == old(c.closes)
        decreases rest
      {
        var id :| id in rest;
        if connections[id].linkId == linkId {
          var _ := CloseConnection(id);
        }
        rest := rest - {id};
      }
      assert connections == old(OffLink(linkId));
      forall c | c in all && c in old(connections.Values) && c.linkId == linkId ensures c.connectionIds == {} {
        NoneListed(c, linkId);
      }
      linkProperties := linkProperties - {linkId};
      ok := true;
    }

    /** A connection without an entry in the table that was published before lists nothing. */
    lemma NoneListed(c: CommsConn, linkId: string)
      requires Valid() && c in all && c.linkId == linkId
      requires forall id :: id in connections ==> connections[id].linkId != linkId
      requires forall id :: id in pending ==> pending[id] != c
      ensures c.connectionIds == {}
    {
      assert forall id :: id in c.connectionIds ==> id in connections && connections[id] == c;
    }

    predicate OnChannel(linkId: string, channelGid: string)
      reads this
    {
      linkId in linkProperties && linkProperties[linkId] == channelGid
    }

    /**
     * Deactivating an available channel leaves no link of the channel and no connection on such a
     * link; one that is unavailable already loses nothing, and an unknown one is an error.
     */
    method DeactivateChannel(channelGid: string) returns (ok: bool)
      requires Valid()
      modifies this`connections, this`linkProperties, this`channelStatuses, all
      ensures Valid() && ok == (channelGid in old(channelStatuses))
      ensures channelStatuses == if ok then old(channelStatuses)[channelGid := false] else old(channelStatuses)
      ensures !(ok && old(channelStatuses)[channelGid]) ==>
        connections == old(connections) && linkProperties == old(linkProperties) && forall c :: c in all ==> unchanged(c)
      ensures ok && old(channelStatuses)[channelGid] ==>
        && (forall l :: l in linkProperties <==> l in old(linkProperties) && !old(OnChannel(l, channelGid)))
        && (forall id :: id in connections <==>
              id in old(connections) && !old(OnChannel(connections[id].linkId, channelGid)))
        && (forall id :: id in connections ==> connections[id] == old(connections)[id])
    {
      if channelGid !in channelStatuses {
        return false;
      }
      var wasAvailable := channelStatuses[channelGid];
      channelStatuses := channelStatuses[channelGid := false];
      if !wasAvailable {
        return true;
      }
      DestroyChannelLinks(channelGid);
      ok := true;
    }

    /** The loop over the links of a channel. */
    method DestroyChannelLinks(channelGid: string)
      requires Valid()
      modifies this`connections, this`linkProperties, all
      ensures Valid()
      ensures forall l :: l in linkProperties <==> l in old(linkProperties) && !old(OnChannel(l, channelGid))
      ensures forall id :: id in connections <==>
        id in old(connections) && !old(OnChannel(connections[id].linkId, channelGid))
      ensures forall id :: id in connections ==> connections[id] == old(connections)[id]
    {
      var doomed := set l | l in linkProperties && linkProperties[l] == channelGid;
      var linkIdsToDestroy := doomed;
      while linkIdsToDestroy != {}
        invariant Valid() && linkIdsToDestroy <= doomed
        invariant linkProperties.Keys == old(linkProperties.Keys) - (doomed - linkIdsToDestroy)
        invariant forall id :: id in connections ==> id in old(connections) && connections[id] == old(connections)[id]
        invariant forall id :: id in old(connections) ==>
          (id in connections <==> old(connections)[id].linkId !in doomed - linkIdsToDestroy)
        decreases linkIdsToDestroy
      {
        var linkId :| linkId in linkIdsToDestroy;
        var _ := DestroyLink(linkId);
        linkIdsToDestroy := linkIdsToDestroy - {linkId};
      }
    }
  }

  // ----- every interleaving -----

  /** A critical section that some thread executes next, or a change of the links. */
  datatype Section =
    | Reuse(newConnectionId: string, linkType: LinkType, linkId: string)
    | Build(newConnectionId: string)
    | Publish(newConnectionId: string)
    | Close(connectionId: string)
    | Link(linkId: string, channelGid: string)
    | Destroy(linkId: string)
    | Deactivate(channelGid: string)

  /** What a thread asks for under an ID: the direction and the link of the connection to open. */
  datatype Wish = Wish(linkType: LinkType, linkId: string)

  /**
   * What there is between two sections: the links with their channels, the table, the connections
   * built and not yet published, and the wishes of the threads whose search has failed.
   */
  datatype Moment = Moment(
    links: map<string, string>, table: map<string, CommsConn>, built: map<string, CommsConn>, searching: map<string, Wish>)

  predicate Grants(c: CommsConn, w: Wish) { c.linkType == w.linkType && c.linkId == w.linkId }

  predicate Shareable(table: map<string, CommsConn>, w: Wish) {
    exists id :: id in table && Grants(table[id], w)
  }

  /** What a section does. */
  ghost predicate Happens(t: Moment, e: Section, t': Moment) {
    match e
    case Reuse(id, linkType, linkId) => Searches(t, id, Wish(linkType, linkId), t')
    case Build(id) =>
      if id in t.searching then
        && id in t'.built && Grants(t'.built[id], t.searching[id])
        && t' == t.(built := t.built[id := t'.built[id]], searching := t.searching - {id})
      else t' == t
    case Publish(id) =>
      if id in t.built then t' == t.(table := t.table[id := t.built[id]], built := t.built - {id}) else t' == t
    case Close(id) => t' == t.(table := t.table - {id})
    case Link(linkId, channelGid) => t' == t.(links := t.links[linkId := channelGid])
    case Destroy(linkId) =>
      && t' == t.(links := t.links - {linkId}, table := t'.table)
      && (forall id :: id in t'.table <==> id in t.table && (linkId in t.links ==> t.table[id].linkId != linkId))
      && (forall id :: id in t'.table ==> t'.table[id] == t.table[id])
    case Deactivate(channelGid) =>
      && t' == t.(links := t'.links, table := t'.table)
      && (forall id :: id in t'.table ==> id in t.table && t'.table[id] == t.table[id])
  }

  /** A search that succeeds shares a connection found; one that fails leaves the wish. */
  ghost predicate Searches(t: Moment, id: string, w: Wish, t': Moment) {
    if Shareable(t.table, w) then
      exists k :: k in t.table && Grants(t.table[k], w) && t' == t.(table := t.table[id := t.table[k]])
    else t' == t.(searching := t.searching[id := w])
  }

  ghost predicate IsCourse(script: seq<Section>, course: seq<Moment>) {
    && |course| == |script| + 1
    && course[0] == Moment(map[], map[], map[], map[])
    && forall k :: 0 <= k < |script| ==> Happens(course[k], script[k], course[k + 1])
  }

  /** IDs are generated once each and are never empty. */
  predicate FreshIds(script: seq<Section>) {
    && (forall i :: 0 <= i < |script| && script[i].Reuse? ==> script[i].newConnectionId != "")
    && (forall i, j :: 0 <= i < j < |script| && script[i].Reuse? && script[j].Reuse? ==>
          script[i].newConnectionId != script[j].newConnectionId)
  }

  /** No ID is in two of the three places. */
  predicate Apart(t: Moment) {
    && (forall id :: id in t.searching ==> id !in t.table && id !in t.built && id != "")
    && (forall id :: id in t.built ==> id !in t.table)
  }

  ghost predicate Reflects(plugin: Plugin, searching: map<string, Wish>, t: Moment)
    reads plugin
  {
    t == Moment(plugin.linkProperties, plugin.connections, plugin.pending, searching) && Apart(t)
  }

  /** Runs one section; a thread builds what it searched for, and publishes what it has built. */
  method Execute(plugin: Plugin, searching: map<string, Wish>, e: Section, ghost t: Moment)
    returns (searching': map<string, Wish>, ghost t': Moment)
    requires plugin.Valid() && Reflects(plugin, searching, t)
    requires forall id :: id in searching ==> id in plugin.generated
    requires e.Reuse? ==> e.newConnectionId !in plugin.generated && e.newConnectionId != ""
    modifies plugin, plugin.all
    ensures plugin.Valid() && fresh(plugin.all - old(plugin.all)) && Reflects(plugin, searching', t')
    ensures forall id :: id in searching' ==> id in plugin.generated
    ensures plugin.generated == old(plugin.generated) + if e.Reuse? then {e.newConnectionId} else {}
    ensures Happens(t, e, t')
  {
    searching' := searching;
    match e {
      case Reuse(id, linkType, linkId) =>
        var found, _ := plugin.ReuseConnection(id, linkType, linkId);
        if !found {
          searching' := searching[id := Wish(linkType, linkId)];
        }
      case Build(id) =>
        if id in searching {
          plugin.BuildConnection(id, searching[id].linkType, searching[id].linkId);
          searching' := searching - {id};
        }
      case Publish(id) =>
        if id in plugin.pending {
          plugin.PublishConnection(id);
        }
      case Close(id) =>
        var _ := plugin.CloseConnection(id);
      case Link(linkId, channelGid) =>
        plugin.AddLink(linkId, channelGid);
      case Destroy(linkId) =>
        var _ := plugin.DestroyLink(linkId);
      case Deactivate(channelGid) =>
        var _ := plugin.DeactivateChannel(channelGid);
    }
    t' := Moment(plugin.linkProperties, plugin.connections, plugin.pending, searching');
  }

  /**
   * Threads interleave their sections in any order, and links come and go in between. All through
   * the run, every connection has been closed once if its last ID is gone, and not at all before
   * that. `course` is what the run goes through.
   */
  method Interleave(channelStatuses: map<string, bool>, script: seq<Section>)
    returns (plugin: Plugin, ghost course: seq<Moment>)
    requires FreshIds(script)
    ensures fresh(plugin) && plugin.Valid()
    ensures forall c :: c in plugin.all ==> c.closes <= 1 && (c.closes == 1 <==> c.connectionIds == {})
    ensures forall id :: id in plugin.connections ==> plugin.connections[id].closes == 0
    ensures IsCourse(script, course)
    ensures course[|script|].table == plugin.connections && course[|script|].links == plugin.linkProperties
  {
    plugin := new Plugin(channelStatuses);
    var searching: map<string, Wish> := map[];
    course := [Moment(map[], map[], map[], map[])];
    var i := 0;
    while i < |script|
      invariant 0 <= i <= |script|
      invariant fresh(plugin) && fresh(plugin.all) && plugin.Valid()
      invariant |course| == i + 1 && Reflects(plugin, searching, course[i])
      invariant IsCourse(script[..i], course)
      invariant forall id :: id in searching ==> id in plugin.generated
      invariant forall id :: id in plugin.generated ==> exists k :: 0 <= k < i && script[k].Reuse? && script[k].newConnectionId == id
    {
      assert script[i].Reuse? ==> script[i].newConnectionId !in plugin.generated;
      ghost var t;
      searching, t := Execute(plugin, searching, script[i], course[i]);
      CourseGoesOn(script, i, course, t);
      course := course + [t];
      i := i + 1;
    }
    assert script[..i] == script;
  }

  lemma CourseGoesOn(script: seq<Section>, i: nat, course: seq<Moment>, t: Moment)
    requires i < |script| && IsCourse(script[..i], course) && Happens(course[i], script[i], t)
    ensures IsCourse(script[..i + 1], course + [t])
  {
    var longer := course + [t];
    forall k | 0 <= k < i + 1 ensures Happens(longer[k], script[..i + 1][k], longer[k + 1]) {
      assert k < i ==> Happens(course[k], script[..i][k], course[k + 1]);
    }
  }

  // ----- what an ID leads to -----

  /** One of the first `n` sections asked for this under this ID. */
  predicate AskedFor(script: seq<Section>, n: nat, id: string, w: Wish) {
    exists i :: 0 <= i < n && i < |script| && script[i] == Reuse(id, w.linkType, w.linkId)
  }

  predicate LeadToWishes(script: seq<Section>, n: nat, conns: map<string, CommsConn>) {
    forall id :: id in conns ==> AskedFor(script, n, id, Wish(conns[id].linkType, conns[id].linkId))
  }

  predicate AsAsked(script: seq<Section>, n: nat, t: Moment) {
    && LeadToWishes(script, n, t.table) && LeadToWishes(script, n, t.built)
    && forall id :: id in t.searching ==> AskedFor(script, n, id, t.searching[id])
  }

  lemma AskedForLater(script: seq<Section>, n: nat, id: string, w: Wish)
    requires AskedFor(script, n, id, w)
    ensures AskedFor(script, n + 1, id, w)
  {
    var i :| 0 <= i < n && i < |script| && script[i] == Reuse(id, w.linkType, w.linkId);
    assert i < n + 1;
  }

  lemma AsAskedLater(script: seq<Section>, n: nat, t: Moment)
    requires AsAsked(script, n, t)
    ensures AsAsked(script, n + 1, t)
  {
    forall id, w | AskedFor(script, n, id, w) ensures AskedFor(script, n + 1, id, w) {
      AskedForLater(script, n, id, w);
    }
  }

  lemma StepAsAsked(script: seq<Section>, n: nat, t: Moment, e: Section, t': Moment)
    requires AsAsked(script, n, t) && Happens(t, e, t')
    requires e.Reuse? ==> AskedFor(script, n, e.newConnectionId, Wish(e.linkType, e.linkId))
    ensures AsAsked(script, n, t')
  {
  }

  /** In every run, an ID in the table or about to be published leads to a connection of the link and direction it was asked for. */
  lemma {:induction false} AlwaysAsAsked(script: seq<Section>, course: seq<Moment>, n: nat)
    requires IsCourse(script, course) && n <= |script|
    ensures AsAsked(script, n, course[n])
  {
    if n > 0 {
      var k := n - 1;
      AlwaysAsAsked(script, course, k);
      AsAskedLater(script, k, course[k]);
      var e := script[k];
      if e.Reuse? {
        assert script[k] == Reuse(e.newConnectionId, e.linkType, e.linkId);
      }
      assert Happens(course[k], e, course[k + 1]);
      StepAsAsked(script, n, course[k], e, course[n]);
    }
  }

  /** As IDs are generated once, each leads nowhere else. */
  lemma LeadsNowhereElse(script: seq<Section>, course: seq<Moment>, n: nat, i: nat)
    requires IsCourse(script, course) && FreshIds(script) && n <= |script| && i < |script| && script[i].Reuse?
    ensures var id := script[i].newConnectionId;
      id in course[n].table ==> Grants(course[n].table[id], Wish(script[i].linkType, script[i].linkId))
  {
    AlwaysAsAsked(script, course, n);
  }

  /** Destroying a link that exists leaves no ID in the table that was ever asked for on this link. */
  lemma DestroyedLeavesNone(script: seq<Section>, course: seq<Moment>, k: nat, i: nat)
    requires IsCourse(script, course) && FreshIds(script) && k < |script|
    requires script[k].Destroy? && script[k].linkId in course[k].links
    requires i < |script| && script[i].Reuse? && script[i].linkId == script[k].linkId
    ensures script[i].newConnectionId !in course[k + 1].table
  {
    LeadsNowhereElse(script, course, k + 1, i);
    assert Happens(course[k], script[k], course[k + 1]);
  }

  /** An opening shares the connection of an earlier one on the same link and direction, while that one is in the table. */
  lemma SecondOpeningShares(script: seq<Section>, course: seq<Moment>, i: nat, k: nat) returns (with: string)
    requires IsCourse(script, course) && FreshIds(script) && i < k < |script| && script[i].Reuse? && script[k].Reuse?
    requires script[i].linkType == script[k].linkType && script[i].linkId == script[k].linkId
    requires script[i].newConnectionId in course[k].table
    ensures with in course[k].table && AskedFor(script, k, with, Wish(script[k].linkType, script[k].linkId))
    ensures course[k + 1] == course[k].(table := course[k].table[script[k].newConnectionId := course[k].table[with]])
  {
    var t, id, w := course[k], script[i].newConnectionId, Wish(script[k].linkType, script[k].linkId);
    AlwaysAsAsked(script, course, k);
    LeadsNowhereElse(script, course, k, i);
    assert Shareable(t.table, w);
    assert Happens(t, script[k], course[k + 1]);
    with :| with in t.table && Grants(t.table[with], w)
            && course[k + 1] == t.(table := t.table[script[k].newConnectionId := t.table[with]]);
  }
}
