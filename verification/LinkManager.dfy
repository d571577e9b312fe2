/**
 * The link profiles of a node (LinkManager.cpp): one list per channel, and two tables that hold
 * iterators into these lists while links are pending and while they are up. A list entry keeps
 * its place in memory for life; here that is a node number which is never given out twice.
 */
module LinkManager {
  import opened Wrappers

  datatype Profile = Profile(addresses: seq<string>, personas: seq<string>, role: string)

  datatype Entry = Entry(node: nat, profile: Profile)

  datatype Manager = Manager(
    profiles: map<string, seq<Entry>>,
    pendingCreate: map<int, Profile>,
    pending: map<int, nat>,
    live: map<string, nat>,
    nextNode: nat)

  datatype LinkStatus = LinkCreated | LinkLoaded | LinkDestroyed | LinkOther

  // ----- what the operations do -----

  function ListOf(m: Manager, channel: string): seq<Entry> {
    if channel in m.profiles then m.profiles[channel] else []
  }

  /** Pushes a profile to the front of its channel's list. */
  function Added(m: Manager, channel: string, p: Profile): Manager {
    m.(profiles := m.profiles[channel := [Entry(m.nextNode, p)] + ListOf(m, channel)], nextNode := m.nextNode + 1)
  }

  /** A link asked for by address; `answer` is the SDK's handle, if it accepted. */
  function AskedFor(m: Manager, channel: string, p: Profile, answer: Option<int>): Manager {
    var m1 := Added(m, channel, p);
    if answer.Some? then m1.(pending := m1.pending[answer.value := m.nextNode]) else m1
  }

  /** A link to be created whose address is not known yet. */
  function CreateAsked(m: Manager, p: Profile, answer: Option<int>): Manager {
    if answer.Some? then m.(pendingCreate := m.pendingCreate[answer.value := p]) else m
  }

  /** Where a list holds a node; its length when it does not. */
  function Find(s: seq<Entry>, node: nat): (i: nat)
    ensures i <= |s| && (i < |s| ==> s[i].node == node)
    ensures forall j :: 0 <= j < i ==> s[j].node != node
  {
    if s == [] then 0 else if s[0].node == node then 0 else 1 + Find(s[1..], node)
  }

  /** Erasing an iterator that does not point into this channel's list is undefined. */
  function Erased(m: Manager, channel: string, node: nat): Option<Manager> {
    var at := Find(ListOf(m, channel), node);
    if at == |ListOf(m, channel)| then None
    else Some(m.(profiles := m.profiles[channel := RemoveAt(ListOf(m, channel), at)]))
  }

  function CameUp(m: Manager, handle: int, link: string): Manager {
    if handle in m.pending
    then m.(live := m.live[link := m.pending[handle]], pending := m.pending - {handle})
    else m
  }

  function Destroyed(m: Manager, handle: int, link: string, channel: string): Option<Manager> {
    var m1 := m.(pendingCreate := m.pendingCreate - {handle}, pending := m.pending - {handle});
    if link !in m.live then Some(m1)
    else
      match Erased(m1, channel, m.live[link])
      case None => None
      case Some(m2) => Some(m2.(live := m2.live - {link}))
  }

  /** onLinkStatusChanged; None stands for undefined behaviour. */
  function StatusChanged(m: Manager, handle: int, link: string, status: LinkStatus, channel: string, address: string): Option<Manager> {
    match status
    case LinkCreated =>
      if handle in m.pendingCreate then
        var p := m.pendingCreate[handle];
        var m1 := Added(m, channel, p.(addresses := [address]));
        Some(m1.(live := m1.live[link := m.nextNode], pendingCreate := m1.pendingCreate - {handle}))
      else Some(CameUp(m, handle, link))
    case LinkLoaded => Some(CameUp(m, handle, link))
    case LinkDestroyed => Destroyed(m, handle, link, channel)
    case LinkOther => Some(m)
  }

  predicate KnownRole(p: Profile) { p.role == "creator" || p.role == "loader" }

  /** The SDK's answer for the entry at a position; none is given past the end of the script. */
  function AnswerAt(answers: seq<Option<int>>, i: nat): Option<int> {
    if i < |answers| then answers[i] else None
  }

  /** The loop of initStaticLinks from position `i` on: it stops at the first refusal. */
  function InitFrom(list: seq<Entry>, i: nat, answers: seq<Option<int>>, pending: map<int, nat>): map<int, nat>
    decreases |list| - i
  {
    if i >= |list| then pending
    else if !KnownRole(list[i].profile) then InitFrom(list, i + 1, answers, pending)
    else if AnswerAt(answers, i).None? then pending
    else InitFrom(list, i + 1, answers, pending[answers[i].value := list[i].node])
  }

  predicate NoneRefused(list: seq<Entry>, answers: seq<Option<int>>) {
    forall i :: 0 <= i < |list| && KnownRole(list[i].profile) ==> AnswerAt(answers, i).Some?
  }

  function Initialized(m: Manager, channel: string, answers: seq<Option<int>>): Manager {
    m.(pending := InitFrom(ListOf(m, channel), 0, answers, m.pending))
  }

  // ----- the code -----

  class Links {
    var linkProfiles: map<string, seq<Entry>>
    var pendingCreateLinks: map<int, Profile>
    var pendingLinks: map<int, nat>
    var linkIdToProfileIter: map<string, nat>
    var nextNode: nat

    function Value(): Manager
      reads this
    {
      Manager(linkProfiles, pendingCreateLinks, pendingLinks, linkIdToProfileIter, nextNode)
    }

    /** The profiles read from the configuration. */
    constructor (linkProfiles: map<string, seq<Entry>>, nextNode: nat)
      ensures Value() == Manager(linkProfiles, map[], map[], map[], nextNode)
    {
      this.linkProfiles, this.nextNode := linkProfiles, nextNode;
      pendingCreateLinks, pendingLinks, linkIdToProfileIter := map[], map[], map[];
    }

    method AddLinkProfile(channelGid: string, p: Profile) returns (iter: nat)
      modifies this`linkProfiles, this`nextNode
      ensures Value() == Added(old(Value()), channelGid, p) && iter == old(nextNode)
    {
      if channelGid !in linkProfiles {
        linkProfiles := linkProfiles[channelGid := []];
      }
      iter := nextNode;
      nextNode := nextNode + 1;
      linkProfiles := linkProfiles[channelGid := [Entry(iter, p)] + linkProfiles[channelGid]];
    }

    /** createLinkFromAddress, loadLinkAddress and loadLinkAddresses of a new profile. */
    method RequestLink(channelGid: string, p: Profile, answer: Option<int>)
      modifies this
      ensures Value() == AskedFor(old(Value()), channelGid, p, answer)
    {
      var iter := AddLinkProfile(channelGid, p);
      if answer.Some? {
        pendingLinks := pendingLinks[answer.value := iter];
      }
    }

    method CreateLink(p: Profile, answer: Option<int>)
      modifies this`pendingCreateLinks
      ensures Value() == CreateAsked(old(Value()), p, answer)
    {
      if answer.Some? {
        pendingCreateLinks := pendingCreateLinks[answer.value := p];
      }
    }

    method RemoveLinkProfile(channelGid: string, linkId: string) returns (defined: bool)
      modifies this`linkProfiles, this`linkIdToProfileIter
      ensures linkId !in old(linkIdToProfileIter) ==> defined && Value() == old(Value())
      ensures linkId in old(linkIdToProfileIter) ==>
        var e := Erased(old(Value()), channelGid, old(linkIdToProfileIter)[linkId]);
        defined == e.Some? && (defined ==> Value() == e.value.(live := e.value.live - {linkId}))
    {
      if linkId in linkIdToProfileIter {
        var list := if channelGid in linkProfiles then linkProfiles[channelGid] else [];
        var at := Find(list, linkIdToProfileIter[linkId]);
        if at == |list| {
          return false;
        }
        linkProfiles := linkProfiles[channelGid := RemoveAt(list, at)];
        linkIdToProfileIter := linkIdToProfileIter - {linkId};
      }
      defined := true;
    }

    method OnLinkStatusChanged(handle: int, linkId: string, status: LinkStatus, channelGid: string, linkAddress: string)
      returns (defined: bool)
      modifies this
      ensures
        var after := StatusChanged(old(Value()), handle, linkId, status, channelGid, linkAddress);
        defined == after.Some? && (defined ==> Value() == after.value)
    {
      defined := true;
      if status == LinkCreated {
        if handle in pendingCreateLinks {
          var pending := pendingCreateLinks[handle];
          var iter := AddLinkProfile(channelGid, pending.(addresses := [linkAddress]));
          linkIdToProfileIter := linkIdToProfileIter[linkId := iter];
          pendingCreateLinks := pendingCreateLinks - {handle};
        } else {
          MoveToLive(handle, linkId);
        }
      } else if status == LinkLoaded {
        MoveToLive(handle, linkId);
      } else if status == LinkDestroyed {
        defined := RemoveLinkProfile(channelGid, linkId);
        pendingCreateLinks := pendingCreateLinks - {handle};
        pendingLinks := pendingLinks - {handle};
      }
    }

    method MoveToLive(handle: int, linkId: string)
      modifies this`linkIdToProfileIter, this`pendingLinks
      ensures Value() == CameUp(old(Value()), handle, linkId)
    {
      if handle in pendingLinks {
        linkIdToProfileIter := linkIdToProfileIter[linkId := pendingLinks[handle]];
        pendingLinks := pendingLinks - {handle};
      }
    }

    method InitStaticLinks(channelGid: string, answers: seq<Option<int>>) returns (ok: bool)
      modifies this`pendingLinks
      ensures Value() == Initialized(old(Value()), channelGid, answers)
      ensures ok <==> NoneRefused(ListOf(old(Value()), channelGid), answers)
    {
      if channelGid !in linkProfiles {
        return true;
      }
      var list := linkProfiles[channelGid];
      var i := 0;
      while i < |list|
        invariant 0 <= i <= |list|
        invariant InitFrom(list, i, answers, pendingLinks) == InitFrom(list, 0, answers, old(pendingLinks))
        invariant forall k :: 0 <= k < i && KnownRole(list[k].profile) ==> AnswerAt(answers, k).Some?
      {
        if list[i].profile.role == "creator" || list[i].profile.role == "loader" {
          var response := AnswerAt(answers, i);
          if response.None? {
            return false;
          }
          pendingLinks := pendingLinks[response.value := list[i].node];
        }
        i := i + 1;
      }
      ok := true;
    }
  }

  // ----- the iterators -----

  /** The manager, with the channel each handle was asked for and each link came up on. */
  datatype World = World(m: Manager, askedOn: map<int, string>, upOn: map<string, string>)

  predicate Holds(s: seq<Entry>, node: nat) {
    exists i :: 0 <= i < |s| && s[i].node == node
  }

  predicate At(m: Manager, channel: string, node: nat) { Holds(ListOf(m, channel), node) }

  predicate DistinctNodes(s: seq<Entry>) {
    forall i, j :: 0 <= i < j < |s| ==> s[i].node != s[j].node
  }

  /** No node number occurs twice, in one list or in two. */
  ghost predicate NodesUnique(m: Manager) {
    && (forall c, node: nat :: At(m, c, node) ==> node < m.nextNode)
    && (forall c, d, node: nat :: At(m, c, node) && At(m, d, node) ==> c == d)
    && (forall c :: c in m.profiles ==> DistinctNodes(m.profiles[c]))
  }

  /** No two stored iterators point to the same entry. */
  ghost predicate Unshared(m: Manager) {
    && (forall h, g :: h in m.pending && g in m.pending && h != g ==> m.pending[h] != m.pending[g])
    && (forall l, k :: l in m.live && k in m.live && l != k ==> m.live[l] != m.live[k])
    && (forall h, l :: h in m.pending && l in m.live ==> m.pending[h] != m.live[l])
  }

  /** Every stored iterator points into the list of the channel its link belongs to. */
  ghost predicate Anchored(w: World) {
    && (forall h :: h in w.m.pending ==> h in w.askedOn && At(w.m, w.askedOn[h], w.m.pending[h]))
    && (forall l :: l in w.m.live ==> l in w.upOn && At(w.m, w.upOn[l], w.m.live[l]))
  }

  ghost predicate Sound(w: World) { NodesUnique(w.m) && Unshared(w.m) && Anchored(w) }

  datatype Event =
    | Ask(channel: string, profile: Profile, answer: Option<int>)
    | Create(profile: Profile, answer: Option<int>)
    | Status(handle: int, link: string, status: LinkStatus, channel: string, address: string)
    | Available(channel: string, answers: seq<Option<int>>)

  predicate Unused(m: Manager, handle: int) { handle !in m.pending && handle !in m.pendingCreate }

  predicate Distinguished(answers: seq<Option<int>>) {
    forall i, j :: 0 <= i < j < |answers| && answers[i].Some? && answers[j].Some? ==> answers[i].value != answers[j].value
  }

  /** No stored iterator points into this list. */
  ghost predicate Idle(m: Manager, s: seq<Entry>) {
    && (forall h :: h in m.pending ==> !Holds(s, m.pending[h]))
    && (forall l :: l in m.live ==> !Holds(s, m.live[l]))
  }

  /**
   * What the SDK keeps to: handles and link IDs are fresh, a link comes up and goes down on the
   * channel it was asked for, and a channel comes up when none of its profiles is in use.
   */
  ghost predicate Regular(w: World, e: Event) {
    match e
    case Ask(channel, _, answer) => answer.Some? ==> Unused(w.m, answer.value)
    case Create(_, answer) => answer.Some? ==> Unused(w.m, answer.value)
    case Status(handle, link, status, channel, _) =>
      && (status == LinkCreated || status == LinkLoaded ==>
            link !in w.m.live && (handle in w.m.pending && handle in w.askedOn ==> w.askedOn[handle] == channel))
      && (status == LinkDestroyed && link in w.m.live && link in w.upOn ==> w.upOn[link] == channel)
    case Available(channel, answers) =>
      && Idle(w.m, ListOf(w.m, channel))
      && Distinguished(answers)
      && forall i :: 0 <= i < |answers| && answers[i].Some? ==> Unused(w.m, answers[i].value)
  }

  /** Notes for every handle given out in an event the channel it is for. */
  function Noted(askedOn: map<int, string>, answers: seq<Option<int>>, channel: string): map<int, string> {
    if answers == [] then askedOn
    else
      var before := Noted(askedOn, answers[..|answers| - 1], channel);
      var last := answers[|answers| - 1];
      if last.Some? then before[last.value := channel] else before
  }

  function Exec(w: World, e: Event): Option<World> {
    match e
    case Ask(channel, profile, answer) =>
      Some(w.(m := AskedFor(w.m, channel, profile, answer), askedOn := Noted(w.askedOn, [answer], channel)))
    case Create(profile, answer) => Some(w.(m := CreateAsked(w.m, profile, answer)))
    case Status(handle, link, status, channel, address) =>
      (match StatusChanged(w.m, handle, link, status, channel, address)
       case None => None
       case Some(m') => Some(w.(m := m', upOn := if status == LinkCreated || status == LinkLoaded then w.upOn[link := channel] else w.upOn)))
    case Available(channel, answers) =>
      Some(w.(m := Initialized(w.m, channel, answers), askedOn := Noted(w.askedOn, answers, channel)))
  }

  // ----- every step keeps them sound -----

  lemma HoldsFront(e: Entry, s: seq<Entry>, node: nat)
    ensures Holds([e] + s, node) <==> e.node == node || Holds(s, node)
  {
    if Holds([e] + s, node) {
      var i :| 0 <= i < |[e] + s| && ([e] + s)[i].node == node;
      assert i > 0 ==> s[i - 1].node == node;
    }
    if e.node == node {
      assert ([e] + s)[0].node == node;
    } else if Holds(s, node) {
      var i :| 0 <= i < |s| && s[i].node == node;
      assert ([e] + s)[i + 1].node == node;
    }
  }

  lemma AddedAt(m: Manager, channel: string, p: Profile, c: string, node: nat)
    ensures At(Added(m, channel, p), c, node) <==> At(m, c, node) || (c == channel && node == m.nextNode)
  {
    HoldsFront(Entry(m.nextNode, p), ListOf(m, channel), node);
  }

  lemma AddedNodes(m: Manager, channel: string, p: Profile)
    requires NodesUnique(m)
    ensures NodesUnique(Added(m, channel, p))
  {
    forall c, node: nat ensures At(Added(m, channel, p), c, node) <==> At(m, c, node) || (c == channel && node == m.nextNode) {
      AddedAt(m, channel, p, c, node);
    }
    var s := ListOf(m, channel);
    forall i | 0 <= i < |s| ensures s[i].node < m.nextNode {
      assert At(m, channel, s[i].node);
    }
  }

  /** A new entry, which no stored iterator points to yet. */
  lemma AddedSound(w: World, channel: string, p: Profile)
    requires Sound(w)
    ensures Sound(w.(m := Added(w.m, channel, p)))
    ensures At(Added(w.m, channel, p), channel, w.m.nextNode) && Unreferenced(w.m, w.m.nextNode)
  {
    AddedNodes(w.m, channel, p);
    forall c, node: nat ensures At(Added(w.m, channel, p), c, node) <==> At(w.m, c, node) || (c == channel && node == w.m.nextNode) {
      AddedAt(w.m, channel, p, c, node);
    }
  }

  /** Fewer stored iterators into the same lists. */
  lemma FewerSound(w: World, m': Manager)
    requires Sound(w) && m'.profiles == w.m.profiles && m'.nextNode == w.m.nextNode
    requires forall h :: h in m'.pending ==> h in w.m.pending && m'.pending[h] == w.m.pending[h]
    requires forall l :: l in m'.live ==> l in w.m.live && m'.live[l] == w.m.live[l]
    ensures Sound(w.(m := m'))
  {
    assert forall c, n: nat :: At(m', c, n) <==> At(w.m, c, n);
  }

  ghost predicate Unreferenced(m: Manager, node: nat) {
    && (forall h :: h in m.pending ==> m.pending[h] != node)
    && (forall l :: l in m.live ==> m.live[l] != node)
  }

  lemma LiveSound(w: World, link: string, node: nat, channel: string)
    requires Sound(w) && link !in w.m.live && At(w.m, channel, node) && Unreferenced(w.m, node)
    ensures Sound(w.(m := w.m.(live := w.m.live[link := node]), upOn := w.upOn[link := channel]))
  {
    var w' := w.(m := w.m.(live := w.m.live[link := node]), upOn := w.upOn[link := channel]);
    assert forall c, n: nat :: At(w.m, c, n) <==> At(w'.m, c, n);
  }

  lemma PendingSound(w: World, handle: int, node: nat, channel: string)
    requires Sound(w) && handle !in w.m.pending && At(w.m, channel, node) && Unreferenced(w.m, node)
    ensures Sound(w.(m := w.m.(pending := w.m.pending[handle := node]), askedOn := w.askedOn[handle := channel]))
  {
    var w' := w.(m := w.m.(pending := w.m.pending[handle := node]), askedOn := w.askedOn[handle := channel]);
    assert forall c, n: nat :: At(w.m, c, n) <==> At(w'.m, c, n);
  }

  lemma NotedOne(askedOn: map<int, string>, answer: Option<int>, channel: string)
    ensures Noted(askedOn, [answer], channel) == if answer.Some? then askedOn[answer.value := channel] else askedOn
  {
    assert [answer][..0] == [];
  }

  lemma AskSound(w: World, e: Event)
    requires Sound(w) && e.Ask? && Regular(w, e)
    ensures Exec(w, e).Some? && Sound(Exec(w, e).value)
  {
    AddedSound(w, e.channel, e.profile);
    NotedOne(w.askedOn, e.answer, e.channel);
    if e.answer.Some? {
      PendingSound(w.(m := Added(w.m, e.channel, e.profile)), e.answer.value, w.m.nextNode, e.channel);
    }
  }

  lemma CreatedSound(w: World, e: Event)
    requires Sound(w) && e.Status? && e.status == LinkCreated && e.handle in w.m.pendingCreate && Regular(w, e)
    ensures Exec(w, e).Some? && Sound(Exec(w, e).value)
  {
    var p := w.m.pendingCreate[e.handle].(addresses := [e.address]);
    AddedSound(w, e.channel, p);
    var w1 := w.(m := Added(w.m, e.channel, p));
    LiveSound(w1, e.link, w.m.nextNode, e.channel);
    var w2 := w1.(m := w1.m.(live := w1.m.live[e.link := w.m.nextNode]), upOn := w1.upOn[e.link := e.channel]);
    FewerSound(w2, w2.m.(pendingCreate := w2.m.pendingCreate - {e.handle}));
  }

  lemma CameUpSound(w: World, handle: int, link: string, channel: string)
    requires Sound(w) && link !in w.m.live
    requires handle in w.m.pending && handle in w.askedOn ==> w.askedOn[handle] == channel
    ensures Sound(w.(m := CameUp(w.m, handle, link), upOn := w.upOn[link := channel]))
  {
    if handle in w.m.pending {
      var m1 := w.m.(pending := w.m.pending - {handle});
      FewerSound(w, m1);
      LiveSound(w.(m := m1), link, w.m.pending[handle], channel);
    }
  }

  lemma FindFinds(s: seq<Entry>, node: nat)
    ensures Find(s, node) < |s| <==> Holds(s, node)
  {
  }

  lemma RemovedHolds(s: seq<Entry>, at: nat, node: nat)
    requires at < |s| && DistinctNodes(s)
    ensures Holds(RemoveAt(s, at), node) <==> Holds(s, node) && node != s[at].node
    ensures DistinctNodes(RemoveAt(s, at))
  {
    var r := RemoveAt(s, at);
    assert forall i :: 0 <= i < |r| ==> r[i] == s[if i < at then i else i + 1];
    if Holds(s, node) && node != s[at].node {
      var i :| 0 <= i < |s| && s[i].node == node;
      if i < at {
        assert r[i].node == node;
      } else {
        assert r[i - 1].node == node;
      }
    }
  }

  lemma ErasedAt(m: Manager, channel: string, node: nat, c: string, n: nat)
    requires NodesUnique(m) && At(m, channel, node)
    ensures Erased(m, channel, node).Some?
    ensures At(Erased(m, channel, node).value, c, n) <==> At(m, c, n) && n != node
  {
    FindFinds(ListOf(m, channel), node);
    RemovedHolds(ListOf(m, channel), Find(ListOf(m, channel), node), n);
    assert At(m, c, node) ==> c == channel;
    if c == channel {
      assert ListOf(Erased(m, channel, node).value, c) == RemoveAt(ListOf(m, channel), Find(ListOf(m, channel), node));
    } else {
      assert ListOf(Erased(m, channel, node).value, c) == ListOf(m, c);
    }
  }

  /** Erasing an entry leaves every iterator to another entry in place. */
  lemma ErasedSound(w: World, channel: string, node: nat)
    requires Sound(w) && At(w.m, channel, node) && Unreferenced(w.m, node)
    ensures Erased(w.m, channel, node).Some?
    ensures Sound(w.(m := Erased(w.m, channel, node).value))
  {
    ErasedAt(w.m, channel, node, channel, node);
    forall c, n: nat ensures At(Erased(w.m, channel, node).value, c, n) <==> At(w.m, c, n) && n != node {
      ErasedAt(w.m, channel, node, c, n);
    }
    RemovedHolds(ListOf(w.m, channel), Find(ListOf(w.m, channel), node), node);
  }

  lemma DestroyedSound(w: World, e: Event)
    requires Sound(w) && e.Status? && e.status == LinkDestroyed && Regular(w, e)
    ensures Exec(w, e).Some? && Sound(Exec(w, e).value)
  {
    var m1 := w.m.(pendingCreate := w.m.pendingCreate - {e.handle}, pending := w.m.pending - {e.handle});
    if e.link !in w.m.live {
      FewerSound(w, m1);
    } else {
      var node := w.m.live[e.link];
      var m2 := m1.(live := m1.live - {e.link});
      FewerSound(w, m2);
      assert At(m2, e.channel, node) && Unreferenced(m2, node) by {
        assert At(w.m, e.channel, node);
      }
      ErasedSound(w.(m := m2), e.channel, node);
      ErasedOnly(m1, m2, e.channel, node);
    }
  }

  lemma ErasedOnly(m1: Manager, m2: Manager, channel: string, node: nat)
    requires m2 == m1.(live := m2.live)
    ensures var e1, e2 := Erased(m1, channel, node), Erased(m2, channel, node);
      (e1.Some? <==> e2.Some?) && (e1.Some? ==> e1.value.(live := m2.live) == e2.value)
  {
  }

  // ----- static links -----

  /** All handles the loop has entered point, each to its own entry, into the list; others are as before. */
  lemma {:induction false} InitFromFills(list: seq<Entry>, i: nat, answers: seq<Option<int>>, pending: map<int, nat>, h: int)
    requires Distinguished(answers) && i <= |list|
    ensures
      var after := InitFrom(list, i, answers, pending);
      && (h in pending && (forall j :: i <= j < |answers| ==> answers[j] != Some(h)) ==> h in after && after[h] == pending[h])
      && (h in after ==>
            || (h in pending && after[h] == pending[h])
            || exists j :: i <= j < |list| && j < |answers| && answers[j] == Some(h) && after[h] == list[j].node)
    decreases |list| - i
  {
    if i < |list| {
      if !KnownRole(list[i].profile) {
        InitFromFills(list, i + 1, answers, pending, h);
      } else if AnswerAt(answers, i).Some? {
        var pending' := pending[answers[i].value := list[i].node];
        InitFromFills(list, i + 1, answers, pending', h);
      }
    }
  }

  lemma {:induction false} NotedAs(askedOn: map<int, string>, answers: seq<Option<int>>, channel: string, h: int)
    ensures var after := Noted(askedOn, answers, channel);
      if Some(h) in answers then h in after && after[h] == channel
      else (h in after <==> h in askedOn) && (h in after ==> after[h] == askedOn[h])
  {
    if answers != [] {
      NotedAs(askedOn, answers[..|answers| - 1], channel, h);
      assert answers == answers[..|answers| - 1] + [answers[|answers| - 1]];
    }
  }

  /** The position whose answer gave out a handle that the loop entered. */
  lemma EnteredAt(w: World, e: Event, h: int) returns (j: nat)
    requires e.Available? && Regular(w, e) && h !in w.m.pending && h in Exec(w, e).value.m.pending
    ensures j < |ListOf(w.m, e.channel)| && j < |e.answers| && e.answers[j] == Some(h)
    ensures Exec(w, e).value.m.pending[h] == ListOf(w.m, e.channel)[j].node
    ensures At(w.m, e.channel, ListOf(w.m, e.channel)[j].node)
  {
    var list := ListOf(w.m, e.channel);
    InitFromFills(list, 0, e.answers, w.m.pending, h);
    j :| 0 <= j < |list| && j < |e.answers| && e.answers[j] == Some(h) && Exec(w, e).value.m.pending[h] == list[j].node;
  }

  lemma KeptByInit(w: World, e: Event, h: int)
    requires e.Available? && Regular(w, e) && h in w.m.pending
    ensures var w' := Exec(w, e).value;
      && h in w'.m.pending && w'.m.pending[h] == w.m.pending[h]
      && (h in w.askedOn ==> h in w'.askedOn && w'.askedOn[h] == w.askedOn[h])
  {
    InitFromFills(ListOf(w.m, e.channel), 0, e.answers, w.m.pending, h);
    NotedAs(w.askedOn, e.answers, e.channel, h);
  }

  lemma AvailableSound(w: World, e: Event)
    requires Sound(w) && e.Available? && Regular(w, e)
    ensures Sound(Exec(w, e).value)
  {
    var w' := Exec(w, e).value;
    assert forall c, n: nat :: At(w'.m, c, n) <==> At(w.m, c, n);
    forall h | h in w'.m.pending ensures h in w'.askedOn && At(w'.m, w'.askedOn[h], w'.m.pending[h]) {
      if h in w.m.pending {
        KeptByInit(w, e, h);
      } else {
        var j := EnteredAt(w, e, h);
        NotedAs(w.askedOn, e.answers, e.channel, h);
      }
    }
    forall h, l | h in w'.m.pending && l in w'.m.live ensures w'.m.pending[h] != w'.m.live[l] {
      PendingApartFromLive(w, e, h, l);
    }
    forall h, g | h in w'.m.pending && g in w'.m.pending && h != g ensures w'.m.pending[h] != w'.m.pending[g] {
      PendingApart(w, e, h, g);
    }
  }

  lemma PendingApartFromLive(w: World, e: Event, h: int, l: string)
    requires Sound(w) && e.Available? && Regular(w, e)
    requires h in Exec(w, e).value.m.pending && l in w.m.live
    ensures Exec(w, e).value.m.pending[h] != w.m.live[l]
  {
    if h in w.m.pending {
      KeptByInit(w, e, h);
    } else {
      var j := EnteredAt(w, e, h);
    }
  }

  lemma PendingApart(w: World, e: Event, h: int, g: int)
    requires Sound(w) && e.Available? && Regular(w, e) && h != g
    requires h in Exec(w, e).value.m.pending && g in Exec(w, e).value.m.pending
    ensures Exec(w, e).value.m.pending[h] != Exec(w, e).value.m.pending[g]
  {
    if h in w.m.pending {
      KeptByInit(w, e, h);
    }
    if g in w.m.pending {
      KeptByInit(w, e, g);
    }
    if h !in w.m.pending {
      var i := EnteredAt(w, e, h);
      if g !in w.m.pending {
        var j := EnteredAt(w, e, g);
        assert i != j;
        assert DistinctNodes(ListOf(w.m, e.channel));
      }
    } else if g !in w.m.pending {
      var j := EnteredAt(w, e, g);
    }
  }

  // ----- whole runs -----

  lemma StepSound(w: World, e: Event)
    requires Sound(w) && Regular(w, e)
    ensures Exec(w, e).Some? && Sound(Exec(w, e).value)
  {
    match e {
      case Ask(channel, profile, answer) => AskSound(w, e);
      case Create(profile, answer) =>
        FewerSound(w, Exec(w, e).value.m);
      case Available(channel, answers) => AvailableSound(w, e);
      case Status(handle, link, status, channel, address) =>
        match status {
          case LinkCreated =>
            if handle in w.m.pendingCreate {
              CreatedSound(w, e);
            } else {
              CameUpSound(w, handle, link, channel);
            }
          case LinkLoaded => CameUpSound(w, handle, link, channel);
          case LinkDestroyed => DestroyedSound(w, e);
          case LinkOther =>
        }
    }
  }

  /** The SDK keeps to its side for as long as the run is defined. */
  ghost predicate IsRegularRun(w: World, events: seq<Event>)
    decreases events
  {
    events == [] ||
    (Regular(w, events[0]) && (Exec(w, events[0]).Some? ==> IsRegularRun(Exec(w, events[0]).value, events[1..])))
  }

  function Run(w: World, events: seq<Event>): Option<World>
    decreases events
  {
    if events == [] then Some(w)
    else if Exec(w, events[0]).None? then None
    else Run(Exec(w, events[0]).value, events[1..])
  }

  /** The lists read from the configuration, each entry in its own place, before any link is asked for. */
  ghost predicate Fresh(w: World) {
    NodesUnique(w.m) && w.m.pendingCreate == map[] && w.m.pending == map[] && w.m.live == map[]
  }

  lemma {:induction false} SoundRun(w: World, events: seq<Event>)
    requires Sound(w) && IsRegularRun(w, events)
    ensures Run(w, events).Some? && Sound(Run(w, events).value)
    decreases events
  {
    if events != [] {
      StepSound(w, events[0]);
      SoundRun(Exec(w, events[0]).value, events[1..]);
    }
  }

  /**
   * Every regular run from a fresh configuration stays defined, and all stored iterators stay
   * valid, apart, and in their own channel's list.
   */
  lemma IteratorsNeverDangle(w: World, events: seq<Event>)
    requires Fresh(w) && IsRegularRun(w, events)
    ensures Run(w, events).Some? && Sound(Run(w, events).value)
  {
    assert Sound(w);
    SoundRun(w, events);
  }

  /**
   * Destroying a link that is up is defined exactly when the SDK names the channel the link came
   * up on; then exactly the link's own profile goes, and all other lists stay as they are.
   */
  lemma DestroyRemovesOwnProfile(w: World, handle: int, link: string, channel: string, address: string)
    requires Sound(w) && link in w.m.live
    ensures
      var after := StatusChanged(w.m, handle, link, LinkDestroyed, channel, address);
      var own := w.upOn[link];
      var at := Find(ListOf(w.m, own), w.m.live[link]);
      && (after.Some? <==> channel == own)
      && at < |ListOf(w.m, own)|
      && (after.Some? ==>
            && after.value.profiles == w.m.profiles[own := RemoveAt(ListOf(w.m, own), at)]
            && after.value.live == w.m.live - {link})
  {
    var node, own := w.m.live[link], w.upOn[link];
    assert At(w.m, own, node);
    FindFinds(ListOf(w.m, own), node);
    ErasedWhen(w.m, channel, own, node);
    SameLists(w.m, w.m.(pendingCreate := w.m.pendingCreate - {handle}, pending := w.m.pending - {handle}), channel, node);
  }

  lemma ErasedWhen(m: Manager, channel: string, own: string, node: nat)
    requires NodesUnique(m) && At(m, own, node)
    ensures Erased(m, channel, node).Some? <==> channel == own
  {
    FindFinds(ListOf(m, channel), node);
    assert At(m, channel, node) <==> channel == own;
  }

  lemma SameLists(m: Manager, n: Manager, channel: string, node: nat)
    requires m.profiles == n.profiles
    ensures Erased(m, channel, node).Some? <==> Erased(n, channel, node).Some?
    ensures Erased(m, channel, node).Some? ==> Erased(n, channel, node).value.profiles == Erased(m, channel, node).value.profiles
  {
  }
}
