/**
 * Which side of a link a node takes (determineLinkSide and verifyChannelIsSupported of
 * LinkWizard.cpp): the channel has to suit all peers at once.
 */
module LinkSides {
  import opened Wrappers

  datatype LinkSide = LsUndef | LsCreator | LsLoader | LsBoth
  datatype LinkType = LtUndef | LtSend | LtRecv | LtBidi
  datatype LinkDirection = LdUndef | LdCreatorToLoader | LdLoaderToCreator | LdBidi
  datatype ConnectionType = CtUndef | CtDirect | CtIndirect | CtMixed | CtLocal

  datatype Channel = Channel(
    connectionType: ConnectionType, multicast: bool, direction: LinkDirection,
    roleSide: LinkSide, maxLinks: int, links: nat)

  /** What is asked for: the kind of link, one peer or several, and the side this node would like. */
  datatype Wish = Wish(linkType: LinkType, unicast: bool, anyClients: bool, side: LinkSide)

  function DetermineLinkSide(linkType: LinkType, direction: LinkDirection, ours: LinkSide, theirs: LinkSide): LinkSide {
    if linkType == LtUndef || direction == LdUndef || ours == LsUndef || theirs == LsUndef then LsUndef
    else if linkType == LtBidi && direction != LdBidi then LsUndef
    else if
      && (ours == LsCreator || ours == LsBoth)
      && (theirs == LsLoader || theirs == LsBoth)
      && (direction == LdBidi
          || (linkType == LtSend && direction == LdCreatorToLoader)
          || (linkType == LtRecv && direction == LdLoaderToCreator))
    then LsCreator
    else if
      && (ours == LsLoader || ours == LsBoth)
      && (theirs == LsCreator || theirs == LsBoth)
      && ((linkType == LtSend && direction == LdLoaderToCreator)
          || (linkType == LtRecv && direction == LdCreatorToLoader))
    then LsLoader
    else LsUndef
  }

  /** The checks on the channel itself. */
  predicate ChannelSuits(c: Channel, w: Wish) {
    && c.connectionType != CtLocal
    && c.links < c.maxLinks
    && (w.unicast || c.multicast)
    && (w.linkType == LtBidi ==> c.direction == LdBidi)
    && (w.anyClients ==> c.connectionType == CtIndirect)
    && (c.roleSide == LsBoth || w.side == LsBoth || c.roleSide == w.side)
  }

  /** Side `side` works towards this peer. */
  predicate Works(c: Channel, w: Wish, peers: map<string, LinkSide>, uuid: string, side: LinkSide) {
    uuid in peers && side != LsUndef && DetermineLinkSide(w.linkType, c.direction, w.side, peers[uuid]) == side
  }

  /** Side `side` works towards every peer. */
  predicate WorksForAll(c: Channel, w: Wish, uuids: seq<string>, peers: map<string, LinkSide>, side: LinkSide) {
    forall i :: 0 <= i < |uuids| ==> Works(c, w, peers, uuids[i], side)
  }

  datatype Verdict = Verdict(valid: bool, side: LinkSide)

  /**
   * `peers` says for every peer that supports the channel which side its role allows. The channel
   * is usable exactly when it suits and one side works towards all peers; then that is the side chosen.
   */
  method VerifyChannelIsSupported(ours: Option<Channel>, w: Wish, uuidList: seq<string>, peers: map<string, LinkSide>)
    returns (v: Verdict)
    ensures v.valid <==>
      && ours.Some?
      && ours.value.connectionType != CtLocal && ours.value.links < ours.value.maxLinks
      && (!w.unicast ==> ours.value.multicast)
      && (w.linkType == LtBidi ==> ours.value.direction == LdBidi)
      && (w.anyClients ==> ours.value.connectionType == CtIndirect)
      && (Allows(ours.value.roleSide, w.side) || w.side == LsBoth)
      && exists side :: WorksForAll(ours.value, w, uuidList, peers, side)
    ensures v.valid && uuidList != [] ==> v.side != LsUndef && WorksForAll(ours.value, w, uuidList, peers, v.side)
    ensures v.valid && uuidList == [] ==> v.side == LsUndef
    ensures !v.valid ==> v.side == LsUndef
  {
    var no := Verdict(false, LsUndef);
    if ours.None? {
      return no;
    }
    var channel := ours.value;
    if channel.connectionType == CtLocal {
      return no;
    }
    if channel.links >= channel.maxLinks {
      return no;
    }
    if !w.unicast && !channel.multicast {
      return no;
    }
    if w.linkType == LtBidi && channel.direction != LdBidi {
      return no;
    }
    if w.anyClients && channel.connectionType != CtIndirect {
      return no;
    }
    if channel.roleSide != LsBoth && w.side != LsBoth && channel.roleSide != w.side {
      return no;
    }
    var chosen := LsUndef;
    var i := 0;
    while i < |uuidList|
      invariant 0 <= i <= |uuidList|
      invariant i == 0 ==> chosen == LsUndef
      invariant i > 0 ==> chosen != LsUndef
      invariant forall k :: 0 <= k < i ==> Works(channel, w, peers, uuidList[k], chosen)
    {
      if uuidList[i] !in peers {
        NoSide(channel, w, uuidList, peers, i);
        return no;
      }
      var side := DetermineLinkSide(w.linkType, channel.direction, w.side, peers[uuidList[i]]);
      if side == LsUndef {
        NoSide(channel, w, uuidList, peers, i);
        return no;
      } else if chosen != LsUndef && chosen != side {
        forall s ensures !WorksForAll(channel, w, uuidList, peers, s) {
          assert Works(channel, w, peers, uuidList[0], chosen);
          assert !(Works(channel, w, peers, uuidList[0], s) && Works(channel, w, peers, uuidList[i], s));
        }
        return no;
      }
      chosen := side;
      i := i + 1;
    }
    assert WorksForAll(channel, w, uuidList, peers, chosen);
    v := Verdict(true, chosen);
  }

  lemma NoSide(c: Channel, w: Wish, uuids: seq<string>, peers: map<string, LinkSide>, i: nat)
    requires i < |uuids|
    requires uuids[i] !in peers || DetermineLinkSide(w.linkType, c.direction, w.side, peers[uuids[i]]) == LsUndef
    ensures forall side :: !WorksForAll(c, w, uuids, peers, side)
  {
    forall side ensures !WorksForAll(c, w, uuids, peers, side) {
      assert !Works(c, w, peers, uuids[i], side);
    }
  }

  // ----- what a side is good for -----

  predicate Allows(role: LinkSide, side: LinkSide) { role == LsBoth || role == side }

  function Opposite(side: LinkSide): LinkSide {
    match side case LsCreator => LsLoader case LsLoader => LsCreator case LsUndef => LsUndef case LsBoth => LsBoth
  }

  /** Data can flow from this side of a link to the other. */
  predicate FlowsFrom(side: LinkSide, direction: LinkDirection) {
    || direction == LdBidi
    || (side == LsCreator && direction == LdCreatorToLoader)
    || (side == LsLoader && direction == LdLoaderToCreator)
  }

  /** Both roles permit it, and data flows as the link type needs it: from this side to send, to it to receive. */
  predicate Fits(linkType: LinkType, direction: LinkDirection, ours: LinkSide, theirs: LinkSide, side: LinkSide) {
    && Allows(ours, side) && Allows(theirs, Opposite(side)) && direction != LdUndef
    && match linkType
       case LtUndef => false
       case LtSend => FlowsFrom(side, direction)
       case LtRecv => FlowsFrom(Opposite(side), direction)
       case LtBidi => direction == LdBidi
  }

  /** The side determined: the creator's where that fits, else the loader's where that fits, but never the loader's of a bidirectional channel. */
  lemma SideDetermined(linkType: LinkType, direction: LinkDirection, ours: LinkSide, theirs: LinkSide)
    ensures
      var side := DetermineLinkSide(linkType, direction, ours, theirs);
      && (side == LsCreator <==> Fits(linkType, direction, ours, theirs, LsCreator))
      && (side == LsLoader <==> Fits(linkType, direction, ours, theirs, LsLoader) && direction != LdBidi)
      && side != LsBoth
  {
  }

  /** A side is found whenever one fits. */
  predicate FindsSide(linkType: LinkType, direction: LinkDirection, ours: LinkSide, theirs: LinkSide) {
    (exists side :: side != LsUndef && side != LsBoth && Fits(linkType, direction, ours, theirs, side))
      ==> DetermineLinkSide(linkType, direction, ours, theirs) != LsUndef
  }

  /** It is not for a node that could only load a bidirectional channel which its peer could create. */
  lemma FindsSideWhen(linkType: LinkType, direction: LinkDirection, ours: LinkSide, theirs: LinkSide)
    ensures FindsSide(linkType, direction, ours, theirs) <==>
      !(linkType != LtUndef && direction == LdBidi
        && Allows(ours, LsLoader) && Allows(theirs, LsCreator)
        && !(Allows(ours, LsCreator) && Allows(theirs, LsLoader)))
  {
    SideDetermined(linkType, direction, ours, theirs);
    if linkType != LtUndef && direction == LdBidi && Allows(ours, LsLoader) && Allows(theirs, LsCreator) {
      assert Fits(linkType, direction, ours, theirs, LsLoader);
    }
  }

  function Reverse(linkType: LinkType): LinkType {
    match linkType case LtSend => LtRecv case LtRecv => LtSend case LtUndef => LtUndef case LtBidi => LtBidi
  }

  /** On a channel with one direction the two ends come to opposite sides. */
  lemma EndsAgree(linkType: LinkType, direction: LinkDirection, ours: LinkSide, theirs: LinkSide)
    requires direction != LdBidi
    ensures DetermineLinkSide(Reverse(linkType), direction, theirs, ours)
         == Opposite(DetermineLinkSide(linkType, direction, ours, theirs))
  {
  }

  // ----- the side and this node's own role -----

  predicate Chosen(c: Channel, w: Wish, uuids: seq<string>, peers: map<string, LinkSide>, side: LinkSide) {
    uuids != [] && ChannelSuits(c, w) && WorksForAll(c, w, uuids, peers, side)
  }

  /** Whatever the peers and the rest of the channel, a side chosen is one that this node's role allows. */
  ghost predicate StaysInRole(role: LinkSide, wish: LinkSide) {
    forall c: Channel, w: Wish, uuids, peers, side ::
      c.roleSide == role && w.side == wish && Chosen(c, w, uuids, peers, side) ==> Allows(role, side)
  }

  /**
   * The side is chosen from the one wished for, not from the role: a node that does not care
   * (LS_BOTH) may be given a side its role rules out. Otherwise the role is respected.
   */
  lemma StaysInRoleWhen(role: LinkSide, wish: LinkSide)
    ensures StaysInRole(role, wish) <==> role == LsBoth || wish != LsBoth
  {
    if role == LsBoth || wish != LsBoth {
      forall c: Channel, w: Wish, uuids, peers, side
        | c.roleSide == role && w.side == wish && Chosen(c, w, uuids, peers, side)
        ensures Allows(role, side)
      {
        assert Works(c, w, peers, uuids[0], side);
      }
    } else {
      var side := if role == LsCreator then LsLoader else LsCreator;
      var c := Channel(CtIndirect, true, LdCreatorToLoader, role, 1, 0);
      var w := Wish(if side == LsCreator then LtSend else LtRecv, true, false, wish);
      var peers := map["peer" := LsBoth];
      assert Works(c, w, peers, "peer", side);
      assert Chosen(c, w, ["peer"], peers, side) && !Allows(role, side);
    }
  }
}
