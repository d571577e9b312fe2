/**
 * The tables that say which connection leads to which personas and back (handleConnectionOpened
 * and handleConnectionClosed of PluginNMTwoSix.cpp), and when they agree.
 */
module ConnectionTables {
  import opened Wrappers
  import opened Personas
  import opened Ranking

  datatype Opening = Opening(personas: seq<string>, kind: LinkKind)

  datatype Tables = Tables(
    opening: map<int, Opening>,
    receiving: set<string>,
    forward: map<string, seq<string>>,
    reverse: map<string, seq<Conn>>)

  /** This node's side of the comparators, and the type of every persona it knows. */
  datatype Config = Config(node: Node, known: map<string, PersonaType>)

  datatype Response = PluginOk | PluginError | UndefinedBehaviour

  /** The type of a group of personas; None when one is unknown or the types are mixed. */
  function GroupType(cfg: Config, personas: seq<string>, soFar: PersonaType): Option<PersonaType> {
    if personas == [] then Some(soFar)
    else if personas[0] !in cfg.known then None
    else if soFar != PUndef && soFar != cfg.known[personas[0]] then None
    else GroupType(cfg, personas[1..], cfg.known[personas[0]])
  }

  function ListAt(reverse: map<string, seq<Conn>>, key: string): seq<Conn> {
    if key in reverse then reverse[key] else []
  }

  // ----- what the two handlers do -----

  predicate Receives(kind: LinkKind) { kind == LtRecv || kind == LtBidi }
  predicate Sends(kind: LinkKind) { kind == LtSend || kind == LtBidi }

  /** The tables after a connection opened, up to the order std::sort gives tied connections. */
  ghost predicate Opened(cfg: Config, t: Tables, handle: int, conn: string, props: LinkProps, t': Tables, r: Response) {
    if handle !in t.opening then t' == t && r == PluginOk
    else
      var o := t.opening[handle];
      var t1 := t.(opening := t.opening - {handle},
                   receiving := if Receives(o.kind) then t.receiving + {conn} else t.receiving);
      if !Sends(o.kind) || o.personas == [] then t' == t1 && r == PluginOk
      else Filed(cfg, t1.(forward := t1.forward[conn := o.personas]), o.personas, Conn(conn, props), t', r)
  }

  ghost predicate Filed(cfg: Config, t: Tables, personas: seq<string>, conn: Conn, t': Tables, r: Response) {
    var key := Key(personas);
    match GroupType(cfg, personas, PUndef)
    case None => t' == t && r == PluginError
    case Some(recipient) =>
      && r == PluginOk
      && t' == t.(reverse := t.reverse[key := ListAt(t'.reverse, key)])
      && RankedArrangement(cfg.node, recipient, ListAt(t'.reverse, key), ListAt(t.reverse, key) + [conn])
  }

  /** The first connection of a list with this ID; the length of the list when there is none. */
  function FindConn(s: seq<Conn>, conn: string): (i: nat)
    ensures i <= |s| && (i < |s| ==> s[i].id == conn) && forall j :: 0 <= j < i ==> s[j].id != conn
  {
    if s == [] then 0 else if s[0].id == conn then 0 else 1 + FindConn(s[1..], conn)
  }

  function EraseFirst(links: seq<string>, link: string): seq<string> {
    if links == [] then [] else if links[0] == link then links[1..] else [links[0]] + EraseFirst(links[1..], link)
  }

  /** The candidate links without those that a listed connection already uses. */
  function Unused(links: seq<string>, conns: seq<Conn>, linkOf: string -> string): seq<string>
    decreases conns
  {
    if conns == [] then links else Unused(EraseFirst(links, linkOf(conns[0].id)), conns[1..], linkOf)
  }

  /** What the SDK says during a close: candidate links, their properties, the link under a connection. */
  datatype Environment = Environment(
    bootstrap: bool,
    links: seq<string> -> seq<string>,
    props: string -> LinkProps,
    linkOf: string -> string,
    handle: int)

  /** Which link is opened instead, if any, and for which personas. */
  datatype Replacement = Replacement(link: string, opening: Opening)

  function Reopened(t: Tables, handle: int, opening: Opening): Tables {
    if handle in t.opening then t else t.(opening := t.opening[handle := opening])
  }

  ghost predicate Closed(cfg: Config, t: Tables, conn: string, link: string, env: Environment,
                         t': Tables, r: Response, replacement: Option<Replacement>) {
    if conn in t.receiving then
      var t1 := t.(receiving := t.receiving - {conn});
      if env.bootstrap then t' == t1 && r == PluginOk && replacement == None
      else t' == Reopened(t1, env.handle, Opening([], LtRecv)) && r == PluginOk
           && replacement == Some(Replacement(link, Opening([], LtRecv)))
    else if conn !in t.forward then t' == t && r == PluginOk && replacement == None
    else
      var personas := t.forward[conn];
      var t1 := t.(forward := t.forward - {conn});
      if env.bootstrap || Key(personas) !in t.reverse then t' == t1 && r == PluginOk && replacement == None
      else
        var list := t.reverse[Key(personas)];
        var at := FindConn(list, conn);
        if at == |list| then r == UndefinedBehaviour
        else Replaced(cfg, t1.(reverse := t.reverse[Key(personas) := RemoveAt(list, at)]), personas, env, t', r, replacement)
  }

  ghost predicate Replaced(cfg: Config, t: Tables, personas: seq<string>, env: Environment,
                           t': Tables, r: Response, replacement: Option<Replacement>) {
    match GroupType(cfg, personas, PUndef)
    case None => t' == t && r == PluginError && replacement == None
    case Some(recipient) =>
      && r == PluginOk
      && exists best ::
        && Preferred(cfg.node, recipient, Unused(env.links(personas), ListAt(t.reverse, Key(personas)), env.linkOf), env.props, best)
        && if best == "" then t' == t && replacement == None
           else t' == Reopened(t, env.handle, Opening(personas, LtSend)) && replacement == Some(Replacement(best, Opening(personas, LtSend)))
  }

  class Connections {
    const cfg: Config
    var openingConnections: map<int, Opening>
    var recvConnections: set<string>
    var connectionToUuids: map<string, seq<string>>
    var uuidToConnections: map<string, seq<Conn>>

    function State(): Tables
      reads this
    {
      Tables(openingConnections, recvConnections, connectionToUuids, uuidToConnections)
    }

    constructor (cfg: Config)
      ensures this.cfg == cfg && State() == Tables(map[], {}, map[], map[])
    {
      this.cfg := cfg;
      openingConnections, recvConnections, connectionToUuids, uuidToConnections := map[], {}, map[], map[];
    }

    /** The loop over the group, which stops at the first unknown or differing persona. */
    method TypeOfGroup(personas: seq<string>) returns (r: Option<PersonaType>)
      ensures r == GroupType(cfg, personas, PUndef)
    {
      var personaType := PUndef;
      var i := 0;
      while i < |personas|
        invariant 0 <= i <= |personas|
        invariant GroupType(cfg, personas, PUndef) == GroupType(cfg, personas[i..], personaType)
      {
        if personas[i] !in cfg.known {
          return None;
        }
        if personaType != PUndef && personaType != cfg.known[personas[i]] {
          return None;
        }
        personaType := cfg.known[personas[i]];
        i := i + 1;
      }
      r := Some(personaType);
    }

    method HandleConnectionOpened(handle: int, connId: string, properties: LinkProps) returns (r: Response)
      modifies this
      ensures Opened(cfg, old(State()), handle, connId, properties, State(), r)
    {
      if handle !in openingConnections {
        return PluginOk;
      }
      var uuidList := openingConnections[handle].personas;
      var connType := openingConnections[handle].kind;
      openingConnections := openingConnections - {handle};
      if Receives(connType) {
        recvConnections := recvConnections + {connId};
      }
      if Sends(connType) && uuidList != [] {
        connectionToUuids := connectionToUuids[connId := uuidList];
        r := FileConnection(uuidList, Conn(connId, properties));
        return;
      }
      r := PluginOk;
    }

    /** The part of the handler that finds the group's type and files the connection under its key. */
    method FileConnection(uuidList: seq<string>, conn: Conn) returns (r: Response)
      modifies this`uuidToConnections
      ensures Filed(cfg, old(State()), uuidList, conn, State(), r)
    {
      var uuidStr := PersonasToString(uuidList);
      var personaType := TypeOfGroup(uuidList);
      if personaType.None? {
        return PluginError;
      }
      if uuidStr !in uuidToConnections {
        uuidToConnections := uuidToConnections[uuidStr := []];
      }
      var ranked := InsertConnection(cfg.node, personaType.value, uuidToConnections[uuidStr], conn.id, conn.props);
      uuidToConnections := uuidToConnections[uuidStr := ranked];
      r := PluginOk;
    }

    method DropUsedLinks(links: seq<string>, conns: seq<Conn>, linkOf: string -> string) returns (potential: seq<string>)
      ensures potential == Unused(links, conns, linkOf)
    {
      potential := links;
      var i := 0;
      while i < |conns|
        invariant 0 <= i <= |conns|
        invariant Unused(potential, conns[i..], linkOf) == Unused(links, conns, linkOf)
      {
        potential := EraseFirst(potential, linkOf(conns[i].id));
        i := i + 1;
      }
    }

    method HandleConnectionClosed(connId: string, closedLink: string, env: Environment)
      returns (r: Response, replacement: Option<Replacement>)
      modifies this
      ensures Closed(cfg, old(State()), connId, closedLink, env, State(), r, replacement)
    {
      if connId in recvConnections {
        recvConnections := recvConnections - {connId};
        if env.bootstrap {
          return PluginOk, None;
        }
        OpenConnection(env.handle, Opening([], LtRecv));
        return PluginOk, Some(Replacement(closedLink, Opening([], LtRecv)));
      }
      if connId !in connectionToUuids {
        return PluginOk, None;
      }
      var uuidList := connectionToUuids[connId];
      connectionToUuids := connectionToUuids - {connId};
      if env.bootstrap {
        return PluginOk, None;
      }
      var uuidStr := PersonasToString(uuidList);
      if uuidStr !in uuidToConnections {
        return PluginOk, None;
      }
      var at := FindConn(uuidToConnections[uuidStr], connId);
      if at == |uuidToConnections[uuidStr]| {
        return UndefinedBehaviour, None;
      }
      uuidToConnections := uuidToConnections[uuidStr := RemoveAt(uuidToConnections[uuidStr], at)];
      r, replacement := ReplaceConnection(uuidList, uuidStr, env);
    }

    method OpenConnection(handle: int, opening: Opening)
      modifies this`openingConnections
      ensures State() == Reopened(old(State()), handle, opening)
    {
      if handle !in openingConnections {
        openingConnections := openingConnections[handle := opening];
      }
    }

    /** The part of the handler that selects a replacement for a closed send connection. */
    method ReplaceConnection(uuidList: seq<string>, uuidStr: string, env: Environment)
      returns (r: Response, replacement: Option<Replacement>)
      requires uuidStr == Key(uuidList) && uuidStr in uuidToConnections
      modifies this`openingConnections
      ensures Replaced(cfg, old(State()), uuidList, env, State(), r, replacement)
    {
      var potentialLinks := DropUsedLinks(env.links(uuidList), uuidToConnections[uuidStr], env.linkOf);
      var personaType := TypeOfGroup(uuidList);
      if personaType.None? {
        return PluginError, None;
      }
      var link := PreferredLink(cfg.node, personaType.value, potentialLinks, env.props);
      assert potentialLinks == Unused(env.links(uuidList), ListAt(old(State()).reverse, Key(uuidList)), env.linkOf);
      if link == "" {
        return PluginOk, None;
      }
      OpenConnection(env.handle, Opening(uuidList, LtSend));
      return PluginOk, Some(Replacement(link, Opening(uuidList, LtSend)));
    }
  }

  // ----- the replacement is not in use -----

  lemma {:induction false} EraseFirstMembers(links: seq<string>, link: string)
    requires Distinct(links)
    ensures Distinct(EraseFirst(links, link))
    ensures forall l :: l in EraseFirst(links, link) <==> l in links && l != link
  {
    if links != [] {
      assert links == [links[0]] + links[1..] && links[0] !in links[1..];
      if links[0] != link {
        EraseFirstMembers(links[1..], link);
        assert links[0] !in EraseFirst(links[1..], link);
      }
    }
  }

  lemma {:induction false} UnusedMembers(links: seq<string>, conns: seq<Conn>, linkOf: string -> string)
    requires Distinct(links)
    ensures forall l :: l in Unused(links, conns, linkOf) <==>
      l in links && forall c :: c in conns ==> linkOf(c.id) != l
    decreases conns
  {
    if conns != [] {
      EraseFirstMembers(links, linkOf(conns[0].id));
      UnusedMembers(EraseFirst(links, linkOf(conns[0].id)), conns[1..], linkOf);
      assert conns == [conns[0]] + conns[1..];
    }
  }

  /**
   * The link opened in place of a closed send connection is a candidate that no remaining
   * connection to the same personas uses, and no unused candidate is preferred to it.
   */
  lemma ReplacementIsBestUnused(cfg: Config, t: Tables, personas: seq<string>, env: Environment,
                                t': Tables, r: Response, replacement: Option<Replacement>, other: string)
    requires Distinct(env.links(personas))
    requires Replaced(cfg, t, personas, env, t', r, replacement) && replacement.Some?
    ensures
      var conns := ListAt(t.reverse, Key(personas));
      var link := replacement.value.link;
      && link in env.links(personas)
      && (forall c :: c in conns ==> env.linkOf(c.id) != link)
      && (other in env.links(personas) && (forall c :: c in conns ==> env.linkOf(c.id) != other) ==>
            !Prefers(cfg.node, GroupType(cfg, personas, PUndef).value, env.props(other), env.props(link)))
  {
    UnusedMembers(env.links(personas), ListAt(t.reverse, Key(personas)), env.linkOf);
  }

  /** The opening is entered under its handle, unless the handle is in use. */
  ghost predicate Awaits(before: map<int, Opening>, after: map<int, Opening>, handle: int, opening: Opening) {
    && (forall h :: h in after <==> h in before || h == handle)
    && (forall h :: h in before ==> after[h] == before[h])
    && (handle !in before ==> after[handle] == opening)
  }

  /** A link that some connection of the list uses, or of which nothing is known. */
  predicate Unfit(conns: seq<Conn>, env: Environment, link: string) {
    (exists c :: c in conns && env.linkOf(c.id) == link) || env.props(link).connectionType == CtUndef
  }

  /**
   * A closed send connection is replaced exactly if some candidate is known and unused; then a link
   * to the same personas is being opened.
   */
  lemma ReplacedWhen(cfg: Config, t: Tables, personas: seq<string>, env: Environment,
                     t': Tables, r: Response, replacement: Option<Replacement>)
    requires Distinct(env.links(personas)) && "" !in env.links(personas)
    requires Replaced(cfg, t, personas, env, t', r, replacement) && r == PluginOk
    ensures replacement.None? <==>
      forall l :: l in env.links(personas) ==> Unfit(ListAt(t.reverse, Key(personas)), env, l)
    ensures replacement.None? ==> t' == t
    ensures replacement.Some? ==>
      && replacement.value.opening == Opening(personas, LtSend)
      && Awaits(t.opening, t'.opening, env.handle, Opening(personas, LtSend))
      && t' == t.(opening := t'.opening)
  {
    var conns := ListAt(t.reverse, Key(personas));
    var unused := Unused(env.links(personas), conns, env.linkOf);
    UnusedMembers(env.links(personas), conns, env.linkOf);
    var recipient := GroupType(cfg, personas, PUndef).value;
    forall l ensures l in unused && env.props(l).connectionType != CtUndef <==> l in env.links(personas) && !Unfit(conns, env, l) {
    }
    var best :| Preferred(cfg.node, recipient, unused, env.props, best)
      && if best == "" then t' == t && replacement == None
         else t' == Reopened(t, env.handle, Opening(personas, LtSend)) && replacement == Some(Replacement(best, Opening(personas, LtSend)));
    if AllUndef(unused, env.props) {
      assert forall l :: l in unused ==> env.props(l).connectionType == CtUndef;
    } else {
      var k :| 0 <= k < |unused| && env.props(unused[k]).connectionType != CtUndef;
      assert unused[k] in unused && best in unused;
    }
  }

  /** What an opened connection changes: one opening less, and the new connection in the roles that its kind gives it. */
  lemma OpenedMeans(cfg: Config, t: Tables, handle: int, conn: string, props: LinkProps, t': Tables, r: Response, other: string)
    requires Opened(cfg, t, handle, conn, props, t', r)
    ensures t'.opening == t.opening - {handle}
    ensures other in t'.receiving <==>
      other in t.receiving || (other == conn && handle in t.opening && t.opening[handle].kind in {LtRecv, LtBidi})
    ensures
      if handle in t.opening && t.opening[handle].kind in {LtSend, LtBidi} && t.opening[handle].personas != []
      then t'.forward == t.forward[conn := t.opening[handle].personas]
      else t'.forward == t.forward && t'.reverse == t.reverse && r == PluginOk
    ensures handle !in t.opening || other != Key(t.opening[handle].personas) ==> ListAt(t'.reverse, other) == ListAt(t.reverse, other)
  {
    if handle !in t.opening {
      assert t.opening - {handle} == t.opening;
    }
  }

  /** A receiving connection that closes is opened again on its own link, unless it was for bootstrapping. */
  lemma ClosedReceivingMeans(cfg: Config, t: Tables, conn: string, link: string, env: Environment,
                             t': Tables, r: Response, replacement: Option<Replacement>)
    requires Closed(cfg, t, conn, link, env, t', r, replacement) && conn in t.receiving
    ensures r == PluginOk && t' == t.(receiving := t'.receiving, opening := t'.opening)
    ensures forall c :: c in t'.receiving <==> c in t.receiving && c != conn
    ensures env.bootstrap ==> replacement == None && t'.opening == t.opening
    ensures !env.bootstrap ==>
      && replacement == Some(Replacement(link, Opening([], LtRecv)))
      && Awaits(t.opening, t'.opening, env.handle, Opening([], LtRecv))
  {
  }

  /** Of a bootstrap connection only its own record goes, and an unknown connection changes nothing. */
  lemma ClosedOtherMeans(cfg: Config, t: Tables, conn: string, link: string, env: Environment,
                         t': Tables, r: Response, replacement: Option<Replacement>)
    requires Closed(cfg, t, conn, link, env, t', r, replacement) && conn !in t.receiving
    requires env.bootstrap || conn !in t.forward
    ensures r == PluginOk && replacement == None
    ensures t' == t.(forward := t.forward - {conn})
  {
    if conn !in t.forward {
      assert t.forward - {conn} == t.forward;
    }
  }

  /** Once the replacement is open it stands in for the connection that closed: it receives, or it leads to the same personas. */
  lemma ReplacementTakesOver(cfg: Config, t: Tables, conn: string, link: string, env: Environment, t': Tables, r: Response,
                             replacement: Option<Replacement>, again: string, props: LinkProps, t'': Tables, r'': Response)
    requires Closed(cfg, t, conn, link, env, t', r, replacement) && r == PluginOk && replacement.Some?
    requires env.handle !in t.opening && Opened(cfg, t', env.handle, again, props, t'', r'')
    ensures t''.opening == t.opening
    ensures conn in t.receiving ==>
      t''.receiving == t.receiving - {conn} + {again} && t''.forward == t.forward && t''.reverse == t.reverse
    ensures conn !in t.receiving ==>
      && conn in t.forward && t''.receiving == t.receiving
      && (t.forward[conn] != [] ==> t''.forward == (t.forward - {conn})[again := t.forward[conn]])
  {
    OpenedMeans(cfg, t', env.handle, again, props, t'', r'', conn);
    assert (t.opening[env.handle := replacement.value.opening]) - {env.handle} == t.opening;
    if conn in t.receiving {
      ClosedReceivingMeans(cfg, t, conn, link, env, t', r, replacement);
    }
  }

  // ----- when the tables agree -----

  /** All personas are known and of this one type. */
  predicate AllOfType(cfg: Config, personas: seq<string>, ty: PersonaType) {
    forall i :: 0 <= i < |personas| ==> personas[i] in cfg.known && cfg.known[personas[i]] == ty
  }

  ghost predicate Usable(cfg: Config, personas: seq<string>) {
    personas != [] && AllPlain(personas) && exists ty :: AllOfType(cfg, personas, ty)
  }

  lemma {:induction false} GroupTypeOf(cfg: Config, personas: seq<string>, ty: PersonaType, soFar: PersonaType)
    requires AllOfType(cfg, personas, ty) && (soFar == PUndef || soFar == ty)
    ensures GroupType(cfg, personas, soFar) == Some(if personas == [] then soFar else ty)
  {
    if personas != [] {
      GroupTypeOf(cfg, personas[1..], ty, ty);
    }
  }

  lemma UsableHasType(cfg: Config, personas: seq<string>) returns (ty: PersonaType)
    requires Usable(cfg, personas)
    ensures AllOfType(cfg, personas, ty) && GroupType(cfg, personas, PUndef) == Some(ty)
  {
    ty :| AllOfType(cfg, personas, ty);
    GroupTypeOf(cfg, personas, ty, PUndef);
  }

  /** Groups filed under one key have one type. */
  lemma SameKeySameType(cfg: Config, a: seq<string>, b: seq<string>)
    requires Usable(cfg, a) && Usable(cfg, b) && Key(a) == Key(b)
    ensures GroupType(cfg, a, PUndef) == GroupType(cfg, b, PUndef)
  {
    KeyIdentifies(a, b);
    var ty := UsableHasType(cfg, a);
    var other := UsableHasType(cfg, b);
    assert a[0] in multiset(b);
    var i :| 0 <= i < |b| && b[i] == a[0];
  }

  predicate DistinctIds(s: seq<Conn>) {
    forall i, j :: 0 <= i < j < |s| ==> s[i].id != s[j].id
  }

  predicate Lists(s: seq<Conn>, conn: string) {
    exists i :: 0 <= i < |s| && s[i].id == conn
  }

  /** The entry of a connection in the forward table. */
  ghost predicate GoodEntry(cfg: Config, t: Tables, conn: string)
    requires conn in t.forward
  {
    var personas := t.forward[conn];
    && Usable(cfg, personas)
    && Lists(ListAt(t.reverse, Key(personas)), conn)
    && GroupType(cfg, personas, PUndef).Some?
    && Ranked(cfg.node, GroupType(cfg, personas, PUndef).value, ListAt(t.reverse, Key(personas)))
  }

  /** The list under one key of the reverse table. */
  ghost predicate GoodList(t: Tables, key: string) {
    var s := ListAt(t.reverse, key);
    && DistinctIds(s)
    && forall i :: 0 <= i < |s| ==> s[i].id in t.forward && Key(t.forward[s[i].id]) == key
  }

  ghost predicate OpeningsUsable(cfg: Config, t: Tables) {
    forall h :: h in t.opening ==> t.opening[h].personas == [] || Usable(cfg, t.opening[h].personas)
  }

  ghost predicate Agree(cfg: Config, t: Tables) {
    && (forall conn :: conn in t.forward ==> GoodEntry(cfg, t, conn))
    && (forall key :: key in t.reverse ==> GoodList(t, key))
    && OpeningsUsable(cfg, t)
  }

  /** Agreeing tables are mutually inverse, hold each connection once, and keep their lists ranked. */
  lemma AgreeMeans(cfg: Config, t: Tables, conn: string, key: string)
    requires Agree(cfg, t)
    ensures Lists(ListAt(t.reverse, key), conn) <==> conn in t.forward && Key(t.forward[conn]) == key
    ensures DistinctIds(ListAt(t.reverse, key))
    ensures conn in t.forward ==>
      var recipient := GroupType(cfg, t.forward[conn], PUndef);
      recipient.Some? && Ranked(cfg.node, recipient.value, ListAt(t.reverse, Key(t.forward[conn])))
  {
    if key in t.reverse {
      assert GoodList(t, key);
    }
    if conn in t.forward {
      assert GoodEntry(cfg, t, conn);
    }
  }

  // ----- both handlers keep the agreement -----

  lemma ArrangementLists(node: Node, recipient: PersonaType, s: seq<Conn>, t: seq<Conn>, x: Conn, conn: string)
    requires RankedArrangement(node, recipient, s, t + [x])
    ensures Lists(s, conn) <==> Lists(t, conn) || conn == x.id
  {
    if Lists(s, conn) {
      var i :| 0 <= i < |s| && s[i].id == conn;
      assert s[i] in multiset(t + [x]);
      var j :| 0 <= j < |t + [x]| && (t + [x])[j] == s[i];
      assert j < |t| ==> t[j].id == conn;
    }
    if Lists(t, conn) || conn == x.id {
      var j := |t|;
      if conn != x.id {
        j :| 0 <= j < |t| && t[j].id == conn;
      }
      assert (t + [x])[j] in multiset(s);
      var i :| 0 <= i < |s| && s[i] == (t + [x])[j];
    }
  }

  lemma WithoutOne(s: seq<Conn>, k: nat)
    requires DistinctIds(s) && k < |s|
    ensures DistinctIds(RemoveAt(s, k))
    ensures forall c :: c in RemoveAt(s, k) ==> c in s && c.id != s[k].id
  {
    var r := RemoveAt(s, k);
    forall c | c in r ensures c in s && c.id != s[k].id {
      var i :| 0 <= i < |r| && r[i] == c;
      assert c == s[if i < k then i else i + 1];
    }
  }

  lemma TakeAlong(s: seq<Conn>, t: seq<Conn>) returns (k: nat, rest: seq<Conn>)
    requires multiset(s) == multiset(t) && s != []
    ensures k < |t| && t[k] == s[0] && rest == RemoveAt(t, k) && multiset(s[1..]) == multiset(rest)
  {
    SameMembers(s, t);
    assert s[0] in t;
    k :| 0 <= k < |t| && t[k] == s[0];
    rest := RemoveAt(t, k);
    TakeOut(s, 0);
    TakeOut(t, k);
    assert RemoveAt(s, 0) == s[1..];
  }

  lemma {:induction false} DistinctIdsPermuted(s: seq<Conn>, t: seq<Conn>)
    requires multiset(s) == multiset(t) && DistinctIds(t)
    ensures DistinctIds(s)
    decreases |s|
  {
    if s != [] {
      var k, rest := TakeAlong(s, t);
      WithoutOne(t, k);
      DistinctIdsPermuted(s[1..], rest);
      SameMembers(s[1..], rest);
      forall j | 0 <= j < |s[1..]| ensures s[1..][j].id != s[0].id {
        assert s[1..][j] in s[1..];
      }
      assert s == [s[0]] + s[1..];
    }
  }

  lemma OtherEntries(cfg: Config, t: Tables, t': Tables, key: string, conn: string)
    requires conn in t.forward && conn in t'.forward && t.forward[conn] == t'.forward[conn]
    requires GoodEntry(cfg, t, conn) && Key(t.forward[conn]) != key
    requires forall k :: k != key ==> ListAt(t'.reverse, k) == ListAt(t.reverse, k)
    ensures GoodEntry(cfg, t', conn)
  {
  }

  lemma FiledEntry(cfg: Config, t: Tables, personas: seq<string>, ty: PersonaType, conn: Conn, t': Tables, c: string)
    requires Agree(cfg, t) && conn.id !in t.forward && Usable(cfg, personas)
    requires GroupType(cfg, personas, PUndef) == Some(ty)
    requires t'.forward == t.forward[conn.id := personas] && c in t'.forward
    requires forall k :: k != Key(personas) ==> ListAt(t'.reverse, k) == ListAt(t.reverse, k)
    requires RankedArrangement(cfg.node, ty, ListAt(t'.reverse, Key(personas)), ListAt(t.reverse, Key(personas)) + [conn])
    ensures GoodEntry(cfg, t', c)
  {
    ArrangementLists(cfg.node, ty, ListAt(t'.reverse, Key(personas)), ListAt(t.reverse, Key(personas)), conn, c);
    if c != conn.id {
      assert GoodEntry(cfg, t, c);
      if Key(t.forward[c]) == Key(personas) {
        SameKeySameType(cfg, t.forward[c], personas);
      } else {
        OtherEntries(cfg, t, t', Key(personas), c);
      }
    }
  }

  /** Filing a connection with a fresh ID under usable personas keeps the tables in agreement. */
  lemma FiledAgrees(cfg: Config, t: Tables, personas: seq<string>, conn: Conn, t': Tables, r: Response)
    requires Agree(cfg, t) && conn.id !in t.forward && Usable(cfg, personas)
    requires Filed(cfg, t.(forward := t.forward[conn.id := personas]), personas, conn, t', r)
    ensures Agree(cfg, t')
  {
    var key := Key(personas);
    var ty := UsableHasType(cfg, personas);
    FiledList(cfg, t, personas, conn, t');
    forall c | c in t'.forward ensures GoodEntry(cfg, t', c) {
      FiledEntry(cfg, t, personas, ty, conn, t', c);
    }
    forall k | k in t'.reverse ensures GoodList(t', k) {
      if k != key {
        assert GoodList(t, k);
      }
    }
  }

  lemma FiledList(cfg: Config, t: Tables, personas: seq<string>, conn: Conn, t': Tables)
    requires Agree(cfg, t) && conn.id !in t.forward && t'.forward == t.forward[conn.id := personas]
    requires multiset(ListAt(t'.reverse, Key(personas))) == multiset(ListAt(t.reverse, Key(personas)) + [conn])
    ensures GoodList(t', Key(personas))
  {
    var key := Key(personas);
    var before, after := ListAt(t.reverse, key), ListAt(t'.reverse, key);
    assert GoodList(t, key);
    AppendedDistinct(before, conn);
    DistinctIdsPermuted(after, before + [conn]);
    SameMembers(after, before + [conn]);
    forall i | 0 <= i < |after| ensures after[i].id in t'.forward && Key(t'.forward[after[i].id]) == key {
      assert after[i] in after;
      if after[i] != conn {
        assert after[i] in before;
      }
    }
  }

  lemma AppendedDistinct(s: seq<Conn>, conn: Conn)
    requires DistinctIds(s) && forall i :: 0 <= i < |s| ==> s[i].id != conn.id
    ensures DistinctIds(s + [conn])
  {
  }

  lemma OpenedAgrees(cfg: Config, t: Tables, handle: int, conn: string, props: LinkProps, t': Tables, r: Response)
    requires Agree(cfg, t) && conn !in t.forward
    requires Opened(cfg, t, handle, conn, props, t', r)
    ensures Agree(cfg, t')
  {
    if handle in t.opening {
      var o := t.opening[handle];
      var t1 := t.(opening := t.opening - {handle},
                   receiving := if Receives(o.kind) then t.receiving + {conn} else t.receiving);
      assert Agree(cfg, t1) by {
        assert forall c :: c in t.forward ==> GoodEntry(cfg, t, c) ==> GoodEntry(cfg, t1, c);
        assert forall k :: k in t.reverse ==> GoodList(t, k) ==> GoodList(t1, k);
      }
      if Sends(o.kind) && o.personas != [] {
        FiledAgrees(cfg, t1, o.personas, Conn(conn, props), t', r);
      }
    }
  }

  lemma FindConnFinds(s: seq<Conn>, conn: string)
    ensures FindConn(s, conn) < |s| <==> Lists(s, conn)
  {
  }

  lemma RemovedRanked(s: seq<Conn>, k: nat, node: Node, recipient: PersonaType)
    requires Ranked(node, recipient, s) && k < |s|
    ensures Ranked(node, recipient, RemoveAt(s, k))
  {
    var r := RemoveAt(s, k);
    forall i, j | 0 <= i < j < |r| ensures !Prefers(node, recipient, r[j].props, r[i].props) {
      assert r[i] == s[if i < k then i else i + 1] && r[j] == s[if j < k then j else j + 1];
    }
  }

  lemma RemovedLists(s: seq<Conn>, k: nat, c: string)
    requires DistinctIds(s) && k < |s|
    ensures Lists(RemoveAt(s, k), c) <==> Lists(s, c) && c != s[k].id
  {
    WithoutOne(s, k);
    var r := RemoveAt(s, k);
    if Lists(r, c) {
      var i :| 0 <= i < |r| && r[i].id == c;
      assert r[i] in r;
    }
    if Lists(s, c) && c != s[k].id {
      var i :| 0 <= i < |s| && s[i].id == c;
      if i < k {
        assert r[i].id == c;
      } else {
        assert r[i - 1].id == c;
      }
    }
  }

  function Unfiled(t: Tables, conn: string, key: string, at: nat): Tables
    requires at < |ListAt(t.reverse, key)|
  {
    t.(forward := t.forward - {conn}, reverse := t.reverse[key := RemoveAt(ListAt(t.reverse, key), at)])
  }

  lemma UnfiledEntry(cfg: Config, t: Tables, conn: string, key: string, at: nat, c: string)
    requires conn in t.forward && GoodEntry(cfg, t, conn) && key == Key(t.forward[conn])
    requires GoodList(t, key) && at < |ListAt(t.reverse, key)| && ListAt(t.reverse, key)[at].id == conn
    requires c in t.forward && c != conn && GoodEntry(cfg, t, c)
    ensures GoodEntry(cfg, Unfiled(t, conn, key, at), c)
  {
    if Key(t.forward[c]) == key {
      SameKeySameType(cfg, t.forward[c], t.forward[conn]);
      RemovedLists(t.reverse[key], at, c);
      RemovedRanked(t.reverse[key], at, cfg.node, GroupType(cfg, t.forward[conn], PUndef).value);
    } else {
      OtherEntries(cfg, t, Unfiled(t, conn, key, at), key, c);
    }
  }

  lemma UnfiledList(t: Tables, conn: string, key: string, at: nat, k: string)
    requires conn in t.forward && key == Key(t.forward[conn])
    requires GoodList(t, key) && at < |ListAt(t.reverse, key)| && ListAt(t.reverse, key)[at].id == conn
    requires GoodList(t, k)
    ensures GoodList(Unfiled(t, conn, key, at), k)
  {
    if k == key {
      WithoutOne(t.reverse[key], at);
      var r := RemoveAt(t.reverse[key], at);
      assert forall i :: 0 <= i < |r| ==> r[i] in r;
    }
  }

  /** Taking a connection out of both tables keeps them in agreement. */
  lemma UnfiledAgrees(cfg: Config, t: Tables, conn: string)
    requires Agree(cfg, t) && conn in t.forward
    ensures
      var key := Key(t.forward[conn]);
      var at := FindConn(ListAt(t.reverse, key), conn);
      && key in t.reverse
      && at < |ListAt(t.reverse, key)|
      && Agree(cfg, Unfiled(t, conn, key, at))
  {
    var key := Key(t.forward[conn]);
    var at := FindConn(ListAt(t.reverse, key), conn);
    assert GoodEntry(cfg, t, conn);
    FindConnFinds(ListAt(t.reverse, key), conn);
    assert GoodList(t, key);
    forall c | c in t.forward && c != conn ensures GoodEntry(cfg, Unfiled(t, conn, key, at), c) {
      assert GoodEntry(cfg, t, c);
      UnfiledEntry(cfg, t, conn, key, at, c);
    }
    forall k | k in t.reverse ensures GoodList(Unfiled(t, conn, key, at), k) {
      UnfiledList(t, conn, key, at, k);
    }
  }

  lemma ReopenedAgrees(cfg: Config, t: Tables, handle: int, opening: Opening)
    requires Agree(cfg, t) && (opening.personas == [] || Usable(cfg, opening.personas))
    ensures Agree(cfg, Reopened(t, handle, opening))
  {
    var t' := Reopened(t, handle, opening);
    assert forall c :: c in t.forward ==> GoodEntry(cfg, t, c) ==> GoodEntry(cfg, t', c);
    assert forall k :: k in t.reverse ==> GoodList(t, k) ==> GoodList(t', k);
  }

  lemma ReceivingIrrelevant(cfg: Config, t: Tables, receiving: set<string>)
    requires Agree(cfg, t)
    ensures Agree(cfg, t.(receiving := receiving))
  {
    var t' := t.(receiving := receiving);
    assert forall c :: c in t.forward ==> GoodEntry(cfg, t, c) ==> GoodEntry(cfg, t', c);
    assert forall k :: k in t.reverse ==> GoodList(t, k) ==> GoodList(t', k);
  }

  /** A send connection that closes is taken out of both tables. */
  lemma ClosedUnfiles(cfg: Config, t: Tables, conn: string, link: string, env: Environment,
                      t': Tables, r: Response, replacement: Option<Replacement>)
    requires Agree(cfg, t) && !env.bootstrap && conn in t.forward && conn !in t.receiving
    requires Closed(cfg, t, conn, link, env, t', r, replacement)
    ensures
      var key := Key(t.forward[conn]);
      var at := FindConn(ListAt(t.reverse, key), conn);
      && key in t.reverse
      && at < |t.reverse[key]|
      && r == PluginOk
      && (t' == Unfiled(t, conn, key, at) || t' == Reopened(Unfiled(t, conn, key, at), env.handle, Opening(t.forward[conn], LtSend)))
  {
    assert GoodEntry(cfg, t, conn);
    UnfiledAgrees(cfg, t, conn);
  }

  lemma ClosedAgrees(cfg: Config, t: Tables, conn: string, link: string, env: Environment,
                     t': Tables, r: Response, replacement: Option<Replacement>)
    requires Agree(cfg, t) && !env.bootstrap
    requires Closed(cfg, t, conn, link, env, t', r, replacement)
    ensures Agree(cfg, t') && r == PluginOk
  {
    if conn in t.receiving {
      ReceivingIrrelevant(cfg, t, t.receiving - {conn});
      ReopenedAgrees(cfg, t.(receiving := t.receiving - {conn}), env.handle, Opening([], LtRecv));
    } else if conn in t.forward {
      ClosedUnfiles(cfg, t, conn, link, env, t', r, replacement);
      UnfiledAgrees(cfg, t, conn);
      assert GoodEntry(cfg, t, conn);
      var key := Key(t.forward[conn]);
      ReopenedAgrees(cfg, Unfiled(t, conn, key, FindConn(ListAt(t.reverse, key), conn)), env.handle, Opening(t.forward[conn], LtSend));
    }
  }

  // ----- runs -----

  datatype Event =
    | RequestEvent(handle: int, opening: Opening)
    | OpenEvent(handle: int, conn: string, props: LinkProps)
    | CloseEvent(conn: string, link: string, env: Environment)

  ghost predicate Step(cfg: Config, t: Tables, e: Event, t': Tables) {
    match e
    case RequestEvent(handle, opening) => t' == Reopened(t, handle, opening)
    case OpenEvent(handle, conn, props) => exists r :: Opened(cfg, t, handle, conn, props, t', r)
    case CloseEvent(conn, link, env) => exists r, replacement :: Closed(cfg, t, conn, link, env, t', r, replacement)
  }

  /** A request names known personas of one type, an ID is not in use when it opens, no connection is a bootstrap one. */
  ghost predicate Ordinary(cfg: Config, t: Tables, e: Event) {
    match e
    case RequestEvent(_, opening) => opening.personas == [] || Usable(cfg, opening.personas)
    case OpenEvent(_, conn, _) => conn !in t.forward
    case CloseEvent(_, _, env) => !env.bootstrap
  }

  ghost predicate IsHistory(cfg: Config, events: seq<Event>, states: seq<Tables>) {
    && |states| == |events| + 1
    && states[0] == Tables(map[], {}, map[], map[])
    && forall k :: 0 <= k < |events| ==> Step(cfg, states[k], events[k], states[k + 1]) && Ordinary(cfg, states[k], events[k])
  }

  /** In every state of every ordinary history the two tables agree. */
  lemma {:induction false} AlwaysAgree(cfg: Config, events: seq<Event>, states: seq<Tables>, k: nat)
    requires IsHistory(cfg, events, states) && k < |states|
    ensures Agree(cfg, states[k])
  {
    if k > 0 {
      AlwaysAgree(cfg, events, states, k - 1);
      var t, t' := states[k - 1], states[k];
      assert Step(cfg, t, events[k - 1], t') && Ordinary(cfg, t, events[k - 1]);
      match events[k - 1] {
        case RequestEvent(handle, opening) =>
          ReopenedAgrees(cfg, t, handle, opening);
        case OpenEvent(handle, conn, props) =>
          var r :| Opened(cfg, t, handle, conn, props, t', r);
          OpenedAgrees(cfg, t, handle, conn, props, t', r);
        case CloseEvent(conn, link, env) =>
          var r, replacement :| Closed(cfg, t, conn, link, env, t', r, replacement);
          ClosedAgrees(cfg, t, conn, link, env, t', r, replacement);
      }
    }
  }

  // ----- where the code departs from this -----

  /** Every persona is known, and once one of a proper type has come all later ones are of that type. */
  predicate Compatible(cfg: Config, personas: seq<string>) {
    && (forall i :: 0 <= i < |personas| ==> personas[i] in cfg.known)
    && (forall i, j :: 0 <= i < j < |personas| ==>
          cfg.known[personas[i]] == PUndef || cfg.known[personas[j]] == cfg.known[personas[i]])
  }

  /** The loop over a group succeeds exactly when the types of its personas are compatible with what it has seen. */
  lemma {:induction false} GroupTypeWhen(cfg: Config, personas: seq<string>, soFar: PersonaType)
    ensures GroupType(cfg, personas, soFar).Some? <==>
      Compatible(cfg, personas)
      && (soFar != PUndef ==> forall i :: 0 <= i < |personas| ==> cfg.known[personas[i]] == soFar)
  {
    if personas != [] && personas[0] in cfg.known {
      var rest := personas[1..];
      GroupTypeWhen(cfg, rest, cfg.known[personas[0]]);
      if Compatible(cfg, personas) {
        assert forall i :: 0 <= i < |rest| ==> rest[i] == personas[i + 1];
      }
      if Compatible(cfg, rest) {
        assert forall i :: 0 < i < |personas| ==> personas[i] == rest[i - 1];
      }
    }
  }

  /** Among personas of proper types, compatible means known and of one type. */
  lemma CompatibleMeansOneType(cfg: Config, personas: seq<string>)
    requires forall i :: 0 <= i < |personas| && personas[i] in cfg.known ==> cfg.known[personas[i]] != PUndef
    ensures Compatible(cfg, personas) <==> exists ty :: AllOfType(cfg, personas, ty)
  {
    if Compatible(cfg, personas) {
      assert AllOfType(cfg, personas, if personas == [] then PUndef else cfg.known[personas[0]]);
    }
  }

  /** With a persona of undefined type the order of the list decides, although the key does not show it. */
  lemma OrderDecides(cfg: Config, u: string, s: string)
    requires u in cfg.known && s in cfg.known && cfg.known[u] == PUndef && cfg.known[s] != PUndef
    ensures GroupType(cfg, [u, s], PUndef).Some? && GroupType(cfg, [s, u], PUndef).None?
    ensures Key([u, s]) == Key([s, u])
  {
    GroupTypeWhen(cfg, [u, s], PUndef);
    GroupTypeWhen(cfg, [s, u], PUndef);
    assert !Compatible(cfg, [s, u]) by {
      assert cfg.known[[s, u][0]] != cfg.known[[s, u][1]];
    }
    KeyIgnoresOrder([u, s], [s, u]);
  }

  /**
   * A send connection is entered into the forward table in any case, but into the reverse table
   * exactly when the types of its personas are compatible; the error return leaves half an entry.
   */
  lemma FiledBothWaysWhen(cfg: Config, t: Tables, handle: int, conn: string, props: LinkProps, t': Tables, r: Response)
    requires Opened(cfg, t, handle, conn, props, t', r)
    requires handle in t.opening && Sends(t.opening[handle].kind) && t.opening[handle].personas != []
    requires forall key :: key in t.reverse ==> !Lists(t.reverse[key], conn)
    ensures conn in t'.forward && t'.forward[conn] == t.opening[handle].personas
    ensures Lists(ListAt(t'.reverse, Key(t'.forward[conn])), conn) <==> r == PluginOk
    ensures r == PluginOk <==> Compatible(cfg, t.opening[handle].personas)
  {
    GroupTypeWhen(cfg, t.opening[handle].personas, PUndef);
    var personas := t.opening[handle].personas;
    var before := ListAt(t.reverse, Key(personas));
    var recipient := GroupType(cfg, personas, PUndef);
    if recipient.Some? {
      ArrangementLists(cfg.node, recipient.value, ListAt(t'.reverse, Key(personas)), before, Conn(conn, props), conn);
    }
  }

  /**
   * A connection that closes leaves the tables exactly when it was not also a receiving one: a
   * bidirectional connection stays in the list of connections to its personas.
   */
  lemma ForgottenWhen(cfg: Config, t: Tables, conn: string, link: string, env: Environment,
                      t': Tables, r: Response, replacement: Option<Replacement>)
    requires Agree(cfg, t) && !env.bootstrap && conn in t.forward
    requires Closed(cfg, t, conn, link, env, t', r, replacement)
    ensures conn !in t'.forward <==> conn !in t.receiving
    ensures Lists(ListAt(t'.reverse, Key(t.forward[conn])), conn) <==> conn in t.receiving
  {
    if conn !in t.receiving {
      ClosedUnfiles(cfg, t, conn, link, env, t', r, replacement);
      var list := t.reverse[Key(t.forward[conn])];
      assert GoodList(t, Key(t.forward[conn]));
      RemovedLists(list, FindConn(list, conn), conn);
    } else {
      assert GoodEntry(cfg, t, conn);
    }
  }
}
