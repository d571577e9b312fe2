/**
 * The new node's and the committee members' side of bootstrapping (BootstrapManager.cpp): links
 * are created asynchronously, reported in messages when all of a request have come up, and the
 * bootstrap link is given up once nothing is left to create.
 */
module BootstrapTarget {
  import opened Wrappers

  datatype Kind = LoadRequest | CreateResponse

  /** A message that reports created links. */
  datatype LinkMsg = LinkMsg(
    kind: Kind, bootstrapHandle: int, messageHandle: nat, persona: string,
    addresses: seq<string>, channels: seq<string>)

  datatype Create = Create(outstanding: seq<int>, dest: string, message: LinkMsg)

  datatype Sent = Package(dest: string, connId: string) | Report(dest: string, message: LinkMsg) | Destroy(dest: string)

  datatype State = State(
    counter: nat,
    introducer: string,
    handle: int,
    committee: seq<string>,
    connection: string,
    creates: seq<Create>,
    toUpdate: map<int, seq<string>>,
    sent: seq<Sent>)

  const START := State(1, "", 0, [], "", [], map[], [])

  // ----- which channels a link is created on -----

  datatype ChannelInfo = ChannelInfo(indirect: bool, bidirectional: bool, mayCreate: bool)

  /** One channel looked at: what the SDK knows of it, whether it is full, and its answer to createLink. */
  datatype Offer = Offer(info: Option<ChannelInfo>, full: bool, answer: Option<int>)

  /** The new node skips bidirectional channels, a committee member does not. */
  predicate Eligible(o: Offer, kind: Kind) {
    && o.info.Some?
    && o.info.value.indirect
    && (kind == LoadRequest ==> !o.info.value.bidirectional)
    && o.info.value.mayCreate
    && !o.full
  }

  function Accepted(offers: seq<Offer>, kind: Kind): seq<int> {
    if offers == [] then []
    else
      var before := Accepted(offers[..|offers| - 1], kind);
      var o := offers[|offers| - 1];
      if Eligible(o, kind) && o.answer.Some? then before + [o.answer.value] else before
  }

  /** The handles of the link creations accepted for each committee member. */
  function HandlesOf(offers: nat -> seq<Offer>): nat -> seq<int> {
    (i: nat) => Accepted(offers(i), LoadRequest)
  }

  // ----- what the handlers do -----

  /** The request record of a committee member; none when no link creation was accepted. */
  function Registered(m: LinkMsg, dest: string, handles: seq<int>): seq<Create> {
    if handles == [] then [] else [Create(handles, dest, m)]
  }

  function LoadMsg(s: State, com: string, messageHandle: nat): LinkMsg {
    LinkMsg(LoadRequest, s.handle, messageHandle, com, [], [])
  }

  /** The request records for the first `n` committee members. */
  function Requested(s: State, handles: nat -> seq<int>, n: nat): seq<Create>
    requires n <= |s.committee|
  {
    if n == 0 then [] else Requested(s, handles, n - 1) + RequestFor(s, handles, n - 1)
  }

  function RequestFor(s: State, handles: nat -> seq<int>, k: nat): seq<Create>
    requires k < |s.committee|
  {
    Registered(LoadMsg(s, s.committee[k], s.counter + k), s.introducer, handles(k))
  }

  lemma RequestedNext(s: State, handles: nat -> seq<int>, k: nat)
    requires k < |s.committee|
    ensures Requested(s, handles, k + 1) == Requested(s, handles, k) + RequestFor(s, handles, k)
  {
  }

  function DestroyIfComplete(s: State): State {
    if s.creates == [] && s.connection != "" then s.(sent := s.sent + [Destroy(s.introducer)]) else s
  }

  function Opened(s: State, connId: string, handles: nat -> seq<int>): State {
    DestroyIfComplete(s.(
      counter := s.counter + |s.committee|,
      connection := connId,
      creates := s.creates + Requested(s, handles, |s.committee|),
      sent := s.sent + [Package(s.introducer, connId)]))
  }

  datatype Link = Link(id: string, address: string, channel: string)

  /** The first request that waits for this handle; the number of requests when none does. */
  function Waiting(creates: seq<Create>, handle: int): (i: nat)
    ensures i <= |creates| && (i < |creates| ==> handle in creates[i].outstanding)
    ensures forall j :: 0 <= j < i ==> handle !in creates[j].outstanding
  {
    if creates == [] then 0 else if handle in creates[0].outstanding then 0 else 1 + Waiting(creates[1..], handle)
  }

  function FirstIndex(s: seq<int>, x: int): (i: nat)
    requires x in s
    ensures i < |s| && s[i] == x
  {
    if s[0] == x then 0 else 1 + FirstIndex(s[1..], x)
  }

  /** A request after one of its links came up, or failed to. */
  function Reported(c: Create, handle: int, link: Option<Link>): Create
    requires handle in c.outstanding
  {
    var m := if link.None? then c.message
             else c.message.(addresses := c.message.addresses + [link.value.address],
                             channels := c.message.channels + [link.value.channel]);
    c.(outstanding := RemoveAt(c.outstanding, FirstIndex(c.outstanding, handle)), message := m)
  }

  function ToUpdate(toUpdate: map<int, seq<string>>, m: LinkMsg, link: Option<Link>): map<int, seq<string>> {
    if link.None? || m.kind != CreateResponse then toUpdate
    else toUpdate[m.bootstrapHandle := (if m.bootstrapHandle in toUpdate then toUpdate[m.bootstrapHandle] else []) + [link.value.id]]
  }

  /** What a link status does to the requests; `link` is None unless the status was LINK_CREATED. */
  function Noted(s: State, handle: int, link: Option<Link>): State {
    var i := Waiting(s.creates, handle);
    if i == |s.creates| then s
    else
      var c := Reported(s.creates[i], handle, link);
      var s1 := s.(toUpdate := ToUpdate(s.toUpdate, c.message, link));
      if c.outstanding == []
      then s1.(sent := s.sent + [Report(c.dest, c.message)], creates := RemoveAt(s.creates, i))
      else s1.(creates := s.creates[i := c])
  }

  function StatusChanged(s: State, handle: int, link: Option<Link>): State {
    DestroyIfComplete(Noted(s, handle, link))
  }

  function CreateRequested(s: State, uuid: string, bootstrapHandle: int, messageHandle: nat, sender: string, offers: seq<Offer>): State {
    s.(creates := s.creates
      + Registered(LinkMsg(CreateResponse, bootstrapHandle, messageHandle, uuid, [], []), sender, Accepted(offers, CreateResponse)))
  }

  function ConnectionClosed(s: State, connId: string): State {
    if s.introducer != "" && connId == s.connection then s.(connection := "", introducer := "", committee := []) else s
  }

  // ----- the code -----

  class Target {
    const uuid: string
    var messageCounter: nat
    var bootstrapIntroducer: string
    var bootstrapHandle: int
    var bootstrapEntranceCommittee: seq<string>
    var bootstrapConnectionId: string
    var outstandingCreateLinks: seq<Create>
    var linksToUpdate: map<int, seq<string>>
    /** Packages and messages handed to the plugin for sending. */
    var sent: seq<Sent>

    function Value(): State
      reads this
    {
      State(messageCounter, bootstrapIntroducer, bootstrapHandle, bootstrapEntranceCommittee,
            bootstrapConnectionId, outstandingCreateLinks, linksToUpdate, sent)
    }

    constructor (uuid: string)
      ensures this.uuid == uuid && Value() == START
    {
      this.uuid := uuid;
      messageCounter, bootstrapHandle := 1, 0;
      bootstrapIntroducer, bootstrapConnectionId, bootstrapEntranceCommittee := "", "", [];
      outstandingCreateLinks, linksToUpdate, sent := [], map[], [];
    }

    method OnBootstrapStart(introducer: string, entranceCommittee: seq<string>, handle: int)
      modifies this
      ensures Value() == old(Value()).(introducer := introducer, handle := handle, committee := entranceCommittee)
    {
      bootstrapIntroducer := introducer;
      bootstrapHandle := handle;
      bootstrapEntranceCommittee := entranceCommittee;
    }

    /** The loop over the channels of one request. */
    method CreateLinks(kind: Kind, offers: seq<Offer>) returns (outstanding: seq<int>)
      ensures outstanding == Accepted(offers, kind)
    {
      outstanding := [];
      var i := 0;
      while i < |offers|
        invariant 0 <= i <= |offers|
        invariant outstanding == Accepted(offers[..i], kind)
      {
        assert offers[..i + 1][..i] == offers[..i];
        var o := offers[i];
        if o.info.None? {
        } else if !o.info.value.indirect || (kind == LoadRequest && o.info.value.bidirectional) {
        } else if !o.info.value.mayCreate {
        } else if o.full {
        } else if o.answer.Some? {
          outstanding := outstanding + [o.answer.value];
        }
        i := i + 1;
      }
      assert offers[..i] == offers;
    }

    /** The request for links to one committee member. */
    method RequestLinks(com: string, offers: seq<Offer>)
      modifies this`messageCounter, this`outstandingCreateLinks
      ensures messageCounter == old(messageCounter) + 1
      ensures outstandingCreateLinks == old(outstandingCreateLinks)
        + Registered(LoadMsg(old(Value()), com, old(messageCounter)), bootstrapIntroducer, Accepted(offers, LoadRequest))
    {
      var message := LinkMsg(LoadRequest, bootstrapHandle, messageCounter, com, [], []);
      messageCounter := messageCounter + 1;
      var outstanding := CreateLinks(LoadRequest, offers);
      if outstanding != [] {
        outstandingCreateLinks := outstandingCreateLinks + [Create(outstanding, bootstrapIntroducer, message)];
      }
    }

    /** The loop over the committee; `s` is the state as the connection opened. */
    method RequestFromAll(offers: nat -> seq<Offer>, ghost s: State)
      requires s.introducer == bootstrapIntroducer && s.handle == bootstrapHandle
      requires s.committee == bootstrapEntranceCommittee && s.counter == messageCounter
      modifies this`messageCounter, this`outstandingCreateLinks
      ensures messageCounter == s.counter + |s.committee|
      ensures outstandingCreateLinks == old(outstandingCreateLinks) + Requested(s, HandlesOf(offers), |s.committee|)
    {
      var i := 0;
      while i < |bootstrapEntranceCommittee|
        invariant 0 <= i <= |bootstrapEntranceCommittee|
        invariant messageCounter == s.counter + i
        invariant outstandingCreateLinks == old(outstandingCreateLinks) + Requested(s, HandlesOf(offers), i)
      {
        RequestedNext(s, HandlesOf(offers), i);
        RequestLinks(bootstrapEntranceCommittee[i], offers(i));
        i := i + 1;
      }
    }

    method HandleBootstrapConnectionOpened(connId: string, offers: nat -> seq<Offer>)
      modifies this
      ensures Value() == Opened(old(Value()), connId, HandlesOf(offers))
    {
      sent := sent + [Package(bootstrapIntroducer, connId)];
      RequestFromAll(offers, old(Value()));
      bootstrapConnectionId := connId;
      DestroyBootstrapLinkIfComplete();
    }

    method DestroyBootstrapLinkIfComplete()
      modifies this`sent
      ensures Value() == DestroyIfComplete(old(Value()))
    {
      if outstandingCreateLinks == [] && bootstrapConnectionId != "" {
        sent := sent + [Destroy(bootstrapIntroducer)];
      }
    }

    method HandleLinkCreateRequest(requestHandle: int, messageHandle: nat, sender: string, offers: seq<Offer>)
      modifies this`outstandingCreateLinks
      ensures Value() == CreateRequested(old(Value()), uuid, requestHandle, messageHandle, sender, offers)
    {
      var outstanding := CreateLinks(CreateResponse, offers);
      if outstanding != [] {
        outstandingCreateLinks := outstandingCreateLinks
          + [Create(outstanding, sender, LinkMsg(CreateResponse, requestHandle, messageHandle, uuid, [], []))];
      }
    }

    method OnLinkStatusChanged(handle: int, link: Option<Link>)
      modifies this
      ensures Value() == StatusChanged(old(Value()), handle, link)
    {
      CheckCreates(handle, link);
      DestroyBootstrapLinkIfComplete();
    }

    /** The loop over the outstanding requests. */
    method CheckCreates(handle: int, link: Option<Link>)
      modifies this
      ensures Value() == Noted(old(Value()), handle, link)
    {
      var it := 0;
      while it < |outstandingCreateLinks|
        invariant 0 <= it <= |outstandingCreateLinks|
        invariant Value() == old(Value())
        invariant Waiting(outstandingCreateLinks, handle) == it + Waiting(outstandingCreateLinks[it..], handle)
      {
        var create := outstandingCreateLinks[it];
        if handle in create.outstanding {
          var message := create.message;
          var outstanding := RemoveAt(create.outstanding, FirstIndex(create.outstanding, handle));
          if link.Some? {
            message := message.(addresses := message.addresses + [link.value.address]);
            message := message.(channels := message.channels + [link.value.channel]);
            if message.kind == CreateResponse {
              var ids := if message.bootstrapHandle in linksToUpdate then linksToUpdate[message.bootstrapHandle] else [];
              linksToUpdate := linksToUpdate[message.bootstrapHandle := ids + [link.value.id]];
            }
          }
          if outstanding == [] {
            sent := sent + [Report(create.dest, message)];
            outstandingCreateLinks := RemoveAt(outstandingCreateLinks, it);
          } else {
            outstandingCreateLinks := outstandingCreateLinks[it := Create(outstanding, create.dest, message)];
          }
          return;
        }
        it := it + 1;
      }
    }

    method OnConnectionClosed(connId: string)
      modifies this
      ensures Value() == ConnectionClosed(old(Value()), connId)
    {
      if bootstrapIntroducer != "" && connId == bootstrapConnectionId {
        bootstrapConnectionId, bootstrapIntroducer, bootstrapEntranceCommittee := "", "", [];
      }
    }
  }

  // ----- runs -----

  datatype Event =
    | Start(introducer: string, committee: seq<string>, handle: int)
    | Open(connId: string, offers: nat -> seq<Offer>)
    | Status(handle: int, link: Option<Link>)
    | CreateRequest(uuid: string, bootstrapHandle: int, messageHandle: nat, sender: string, channels: seq<Offer>)
    | Closed(connId: string)

  function Exec(s: State, e: Event): State {
    match e
    case Start(introducer, committee, handle) => s.(introducer := introducer, handle := handle, committee := committee)
    case Open(connId, offers) => Opened(s, connId, HandlesOf(offers))
    case Status(handle, link) => StatusChanged(s, handle, link)
    case CreateRequest(uuid, bootstrapHandle, messageHandle, sender, channels) =>
      CreateRequested(s, uuid, bootstrapHandle, messageHandle, sender, channels)
    case Closed(connId) => ConnectionClosed(s, connId)
  }

  ghost function Run(s: State, events: seq<Event>): State {
    if events == [] then s else Exec(Run(s, events[..|events| - 1]), events[|events| - 1])
  }

  // ----- the order of the messages -----

  /** An observer of the messages of one bootstrap; reports of committee work do not concern it. */
  datatype Stage = Idle | Introduced | Done | Wrong

  function Observe(stage: Stage, m: Sent): Stage {
    match m
    case Package(_, _) => if stage == Idle then Introduced else Wrong
    case Report(_, msg) => if msg.kind == CreateResponse || stage == Introduced then stage else Wrong
    case Destroy(_) => if stage == Introduced || stage == Done then Done else Wrong
  }

  function StageOf(sent: seq<Sent>): Stage {
    if sent == [] then Idle else Observe(StageOf(sent[..|sent| - 1]), sent[|sent| - 1])
  }

  predicate IsLoad(m: Sent) { m.Report? && m.message.kind == LoadRequest }

  predicate HasPackage(sent: seq<Sent>) {
    exists i :: 0 <= i < |sent| && sent[i].Package?
  }

  /** What it means that the observer has seen nothing wrong. */
  lemma {:induction false} StageMeans(sent: seq<Sent>)
    ensures StageOf(sent) == Idle ==> forall i :: 0 <= i < |sent| ==> sent[i].Report? && !IsLoad(sent[i])
    ensures StageOf(sent) == Introduced ==> forall i :: 0 <= i < |sent| ==> !sent[i].Destroy?
    ensures StageOf(sent) == Introduced || StageOf(sent) == Done ==> HasPackage(sent)
    ensures StageOf(sent) != Wrong ==> forall i, j :: 0 <= i < j < |sent| ==>
      !(sent[j].Package? && (sent[i].Package? || IsLoad(sent[i]) || sent[i].Destroy?))
    ensures StageOf(sent) != Wrong ==> forall i, j :: 0 <= i < j < |sent| ==> !(sent[i].Destroy? && IsLoad(sent[j]))
  {
    if sent != [] {
      var front := sent[..|sent| - 1];
      StageMeans(front);
      assert sent == front + [sent[|sent| - 1]];
      assert forall i :: 0 <= i < |front| ==> front[i].Package? ==> sent[i].Package?;
    }
  }

  /** Message handles of the load requests still being worked on. */
  function Pending(creates: seq<Create>): seq<nat> {
    if creates == [] then []
    else
      var before := Pending(creates[..|creates| - 1]);
      var m := creates[|creates| - 1].message;
      if m.kind == LoadRequest then before + [m.messageHandle] else before
  }

  /** Message handles of the load requests sent. */
  function Loads(sent: seq<Sent>): seq<nat> {
    if sent == [] then []
    else
      var before := Loads(sent[..|sent| - 1]);
      var m := sent[|sent| - 1];
      if IsLoad(m) then before + [m.message.messageHandle] else before
  }

  lemma {:induction false} PendingConcat(a: seq<Create>, b: seq<Create>)
    ensures Pending(a + b) == Pending(a) + Pending(b)
  {
    if b == [] {
      assert a + b == a;
    } else {
      PendingConcat(a, b[..|b| - 1]);
      assert (a + b)[..|a + b| - 1] == a + b[..|b| - 1];
    }
  }

  lemma PendingMiddle(a: seq<Create>, x: Create, b: seq<Create>)
    ensures Pending(a + [x] + b) == Pending(a) + Pending([x]) + Pending(b)
    ensures Pending(a + b) == Pending(a) + Pending(b)
  {
    PendingConcat(a + [x], b);
    PendingConcat(a, [x]);
    PendingConcat(a, b);
  }

  lemma PendingUpdate(creates: seq<Create>, i: nat, c: Create)
    requires i < |creates| && c.message.kind == creates[i].message.kind && c.message.messageHandle == creates[i].message.messageHandle
    ensures Pending(creates[i := c]) == Pending(creates)
  {
    var a, b := Cut(creates, i);
    assert creates[i := c] == a + [c] + b;
    PendingMiddle(a, creates[i], b);
    PendingMiddle(a, c, b);
    assert [c][..0] == [] && [creates[i]][..0] == [];
    assert Pending([c]) == Pending([creates[i]]);
  }

  lemma CountApart(a: seq<nat>, x: seq<nat>, b: seq<nat>)
    ensures multiset(a + x + b) == multiset(a + b) + multiset(x)
  {
  }

  lemma PendingTaken(a: seq<Create>, x: Create, b: seq<Create>)
    ensures multiset(Pending(a + [x] + b)) == multiset(Pending(a + b)) + multiset(Pending([x]))
    ensures Pending(a + [x] + b) == [] ==> Pending(a + b) == [] && Pending([x]) == []
  {
    PendingMiddle(a, x, b);
    CountApart(Pending(a), Pending([x]), Pending(b));
  }

  lemma PendingRemove(creates: seq<Create>, i: nat)
    requires i < |creates|
    ensures multiset(Pending(creates)) == multiset(Pending(RemoveAt(creates, i))) + multiset(Pending([creates[i]]))
    ensures Pending(creates) == [] ==> Pending(RemoveAt(creates, i)) == [] && Pending([creates[i]]) == []
  {
    var a, b := Cut(creates, i);
    PendingTaken(a, creates[i], b);
  }

  // ----- before the bootstrap connection opens -----

  ghost predicate NotYet(s: State) {
    s.connection == "" && StageOf(s.sent) == Idle && Pending(s.creates) == [] && Loads(s.sent) == []
  }

  predicate NoOpen(events: seq<Event>) {
    forall k :: 0 <= k < |events| ==> !events[k].Open?
  }

  // ----- afterwards -----

  /** The observer is content, nothing is pending after a Destroy, and the requests `load` are sent or pending, each once. */
  ghost predicate InOrder(sent: seq<Sent>, creates: seq<Create>, load: seq<nat>) {
    && (StageOf(sent) == Introduced || StageOf(sent) == Done)
    && (StageOf(sent) == Done ==> Pending(creates) == [])
    && multiset(Loads(sent)) + multiset(Pending(creates)) == multiset(load)
  }

  /** What holds between events: in particular Destroy was sent as soon as nothing was left to create. */
  ghost predicate Underway(s: State, load: seq<nat>) {
    && InOrder(s.sent, s.creates, load)
    && (s.connection != "" && s.creates == [] ==> StageOf(s.sent) == Done)
  }

  lemma DestroyKeeps(s: State, load: seq<nat>)
    requires InOrder(s.sent, s.creates, load)
    ensures Underway(DestroyIfComplete(s), load)
  {
    var s' := DestroyIfComplete(s);
    assert s'.sent == s.sent || s'.sent[..|s.sent|] == s.sent;
  }

  /** A request that is complete moves from the pending ones to the sent ones. */
  lemma CompletedKeeps(sent: seq<Sent>, creates: seq<Create>, load: seq<nat>, i: nat, dest: string, m: LinkMsg)
    requires InOrder(sent, creates, load) && i < |creates|
    requires m.kind == creates[i].message.kind && m.messageHandle == creates[i].message.messageHandle
    ensures InOrder(sent + [Report(dest, m)], RemoveAt(creates, i), load)
  {
    PendingRemove(creates, i);
    assert [creates[i]][..0] == [];
    assert (sent + [Report(dest, m)])[..|sent|] == sent;
    if m.kind == LoadRequest {
      assert Pending([creates[i]]) == [m.messageHandle];
      assert multiset(Loads(sent + [Report(dest, m)])) == multiset(Loads(sent)) + multiset{m.messageHandle};
    }
  }

  lemma NotedKeeps(s: State, handle: int, link: Option<Link>, load: seq<nat>)
    requires InOrder(s.sent, s.creates, load)
    ensures InOrder(Noted(s, handle, link).sent, Noted(s, handle, link).creates, load)
  {
    var i := Waiting(s.creates, handle);
    if i < |s.creates| {
      var c := Reported(s.creates[i], handle, link);
      if c.outstanding == [] {
        CompletedKeeps(s.sent, s.creates, load, i, c.dest, c.message);
      } else {
        PendingUpdate(s.creates, i, c);
      }
    }
  }

  lemma StatusKeeps(s: State, handle: int, link: Option<Link>, load: seq<nat>)
    requires Underway(s, load)
    ensures Underway(StatusChanged(s, handle, link), load)
  {
    NotedKeeps(s, handle, link, load);
    DestroyKeeps(Noted(s, handle, link), load);
  }

  /** Message handles of the committee members for whom at least one link creation was accepted. */
  function Members(s: State, handles: nat -> seq<int>, n: nat): seq<nat>
    requires n <= |s.committee|
  {
    if n == 0 then [] else Members(s, handles, n - 1) + MemberFor(s, handles, n - 1)
  }

  function MemberFor(s: State, handles: nat -> seq<int>, k: nat): seq<nat>
    requires k < |s.committee|
  {
    if handles(k) != [] then [s.counter + k] else []
  }

  /** `h` is the message handle of a committee member for whom a link creation was accepted. */
  predicate Asked(s: State, handles: nat -> seq<int>, h: int) {
    s.counter <= h < s.counter + |s.committee| && handles(h - s.counter) != []
  }

  lemma {:induction false} MembersAre(s: State, handles: nat -> seq<int>, n: nat)
    requires n <= |s.committee|
    ensures forall h :: h in Members(s, handles, n) <==> h < s.counter + n && Asked(s, handles, h)
  {
    if n > 0 {
      MembersAre(s, handles, n - 1);
      var last := s.counter + n - 1;
      assert Asked(s, handles, last) <==> handles(n - 1) != [];
    }
  }

  lemma {:induction false} MembersDistinct(s: State, handles: nat -> seq<int>, n: nat)
    requires n <= |s.committee|
    ensures Distinct(Members(s, handles, n))
  {
    if n > 0 {
      MembersDistinct(s, handles, n - 1);
      MembersAre(s, handles, n - 1);
      assert s.counter + n - 1 !in Members(s, handles, n - 1);
    }
  }

  lemma RequestForPending(s: State, handles: nat -> seq<int>, k: nat)
    requires k < |s.committee|
    ensures Pending(RequestFor(s, handles, k)) == MemberFor(s, handles, k)
  {
    var r := RequestFor(s, handles, k);
    if r != [] {
      assert r[..0] == [];
    }
  }

  lemma PendingOf(a: seq<Create>, b: seq<Create>, m: seq<nat>, n: seq<nat>)
    requires Pending(a) == m && Pending(b) == n
    ensures Pending(a + b) == m + n
  {
    PendingConcat(a, b);
  }

  lemma {:induction false} RequestedPending(s: State, handles: nat -> seq<int>, n: nat)
    requires n <= |s.committee|
    ensures Pending(Requested(s, handles, n)) == Members(s, handles, n)
  {
    if n == 0 {
      assert Requested(s, handles, n) == [] && Members(s, handles, n) == [];
    } else {
      var k := n - 1;
      RequestedPending(s, handles, k);
      RequestForPending(s, handles, k);
      RequestedNext(s, handles, k);
      PendingOf(Requested(s, handles, k), RequestFor(s, handles, k), Members(s, handles, k), MemberFor(s, handles, k));
    }
  }

  /** The package has just been sent, and the requests are registered. */
  lemma PackageSent(sent: seq<Sent>, package: Sent, creates: seq<Create>, requested: seq<Create>, load: seq<nat>)
    requires StageOf(sent) == Idle && Loads(sent) == [] && Pending(creates) == [] && package.Package?
    requires Pending(requested) == load
    ensures InOrder(sent + [package], creates + requested, load)
  {
    PendingOf(creates, requested, [], load);
    assert (sent + [package])[..|sent|] == sent;
  }

  lemma OpenBegins(s: State, connId: string, handles: nat -> seq<int>)
    requires NotYet(s)
    ensures Underway(Opened(s, connId, handles), Members(s, handles, |s.committee|))
  {
    var requested := Requested(s, handles, |s.committee|);
    var sent := s.sent + [Package(s.introducer, connId)];
    RequestedPending(s, handles, |s.committee|);
    PackageSent(s.sent, Package(s.introducer, connId), s.creates, requested, Members(s, handles, |s.committee|));
    DestroyKeeps(s.(counter := s.counter + |s.committee|, connection := connId,
                    creates := s.creates + requested, sent := sent),
                 Members(s, handles, |s.committee|));
  }

  lemma CommitteeWorkKeeps(s: State, uuid: string, bootstrapHandle: int, messageHandle: nat, sender: string, offers: seq<Offer>)
    ensures Pending(CreateRequested(s, uuid, bootstrapHandle, messageHandle, sender, offers).creates) == Pending(s.creates)
  {
    var s' := CreateRequested(s, uuid, bootstrapHandle, messageHandle, sender, offers);
    if s'.creates != s.creates {
      assert s'.creates[..|s.creates|] == s.creates;
    }
  }

  lemma NotYetStep(s: State, e: Event)
    requires NotYet(s) && !e.Open?
    ensures NotYet(Exec(s, e))
  {
    match e {
      case CreateRequest(uuid, bootstrapHandle, messageHandle, sender, channels) =>
        CommitteeWorkKeeps(s, uuid, bootstrapHandle, messageHandle, sender, channels);
      case Status(handle, link) =>
        var i := Waiting(s.creates, handle);
        if i < |s.creates| {
          NotYetStatus(s, handle, link, i);
        }
      case _ =>
    }
  }

  lemma NotYetStatus(s: State, handle: int, link: Option<Link>, i: nat)
    requires NotYet(s) && i == Waiting(s.creates, handle) < |s.creates|
    ensures NotYet(StatusChanged(s, handle, link))
  {
    var s' := Noted(s, handle, link);
    var c := Reported(s.creates[i], handle, link);
    PendingRemove(s.creates, i);
    PendingUpdate(s.creates, i, c);
    assert [s.creates[i]][..0] == [];
    if c.outstanding == [] {
      assert s'.sent[..|s.sent|] == s.sent;
    }
  }

  lemma UnderwayStep(s: State, e: Event, load: seq<nat>)
    requires Underway(s, load) && !e.Open?
    ensures Underway(Exec(s, e), load)
  {
    match e {
      case CreateRequest(uuid, bootstrapHandle, messageHandle, sender, channels) =>
        CommitteeWorkKeeps(s, uuid, bootstrapHandle, messageHandle, sender, channels);
      case Status(handle, link) =>
        StatusKeeps(s, handle, link, load);
      case _ =>
    }
  }

  lemma {:induction false} NotYetRun(events: seq<Event>)
    requires NoOpen(events)
    ensures NotYet(Run(START, events))
  {
    if events != [] {
      NotYetRun(events[..|events| - 1]);
      NotYetStep(Run(START, events[..|events| - 1]), events[|events| - 1]);
    }
  }

  /** The bootstrap connection opens once, in event `k`. */
  predicate OpensOnce(events: seq<Event>, k: nat) {
    k < |events| && events[k].Open? && forall i :: 0 <= i < |events| && i != k ==> !events[i].Open?
  }

  /** Message handles of the load requests that have to be sent. */
  ghost function ToSend(events: seq<Event>, k: nat): seq<nat>
    requires OpensOnce(events, k)
  {
    var s := Run(START, events[..k]);
    Members(s, HandlesOf(events[k].offers), |s.committee|)
  }

  lemma {:induction false} UnderwayRun(events: seq<Event>, k: nat)
    requires OpensOnce(events, k)
    ensures Underway(Run(START, events), ToSend(events, k))
    decreases |events|
  {
    var front, e := events[..|events| - 1], events[|events| - 1];
    if k == |events| - 1 {
      assert events[..k] == front;
      NotYetRun(front);
      OpenBegins(Run(START, front), e.connId, HandlesOf(e.offers));
    } else {
      assert front[..k] == events[..k] && front[k] == events[k];
      assert OpensOnce(front, k) && !e.Open?;
      UnderwayRun(front, k);
      UnderwayStep(Run(START, front), e, ToSend(front, k));
    }
  }

  lemma {:induction false} LoadAt(sent: seq<Sent>, i: nat) returns (at: nat)
    requires i < |sent| && IsLoad(sent[i])
    ensures at < |Loads(sent)| && Loads(sent)[at] == sent[i].message.messageHandle
    ensures at == |Loads(sent[..i])|
    decreases |sent|
  {
    if i == |sent| - 1 {
      at := |Loads(sent[..i])|;
    } else {
      assert sent[..|sent| - 1][..i] == sent[..i];
      at := LoadAt(sent[..|sent| - 1], i);
    }
  }

  lemma {:induction false} FewerLoads(sent: seq<Sent>, i: nat, j: nat)
    requires i < j <= |sent| && IsLoad(sent[i])
    ensures |Loads(sent[..i])| < |Loads(sent[..j])|
    decreases j
  {
    assert sent[..j][..j - 1] == sent[..j - 1];
    if i < j - 1 {
      FewerLoads(sent, i, j - 1);
    }
  }

  lemma DistinctPart(part: seq<nat>, whole: seq<nat>, i: nat, j: nat)
    requires Distinct(whole) && multiset(part) <= multiset(whole) && i < j < |part|
    ensures part[i] != part[j]
  {
    OccursOnce(whole, part[i]);
    if part[i] == part[j] {
      OccursTwice(part, i, j);
    }
  }

  /**
   * In every run in which the bootstrap connection opens once: the package precedes everything
   * else said about the bootstrap, no load request follows a request to destroy the link, no two
   * load requests answer for the same committee member, and when the bootstrap connection is up
   * with nothing left to create, destruction has been requested and every load request is sent.
   */
  lemma TargetOrder(events: seq<Event>, k: nat, i: nat, j: nat)
    requires OpensOnce(events, k)
    ensures HasPackage(Run(START, events).sent)
    ensures var s := Run(START, events);
      && (i < j < |s.sent| ==>
            && (s.sent[j].Package? ==> !s.sent[i].Package? && !IsLoad(s.sent[i]) && !s.sent[i].Destroy?)
            && !(s.sent[i].Destroy? && IsLoad(s.sent[j]))
            && (IsLoad(s.sent[i]) && IsLoad(s.sent[j]) ==> s.sent[i].message.messageHandle != s.sent[j].message.messageHandle))
    ensures var s := Run(START, events);
      s.connection != "" && s.creates == [] ==> StageOf(s.sent) == Done && multiset(Loads(s.sent)) == multiset(ToSend(events, k))
  {
    UnderwayRun(events, k);
    var s := Run(START, events);
    StageMeans(s.sent);
    if i < j < |s.sent| && IsLoad(s.sent[i]) && IsLoad(s.sent[j]) {
      LoadsApart(s, ToSend(events, k), events, k, i, j);
    }
  }

  lemma LoadsApart(s: State, load: seq<nat>, events: seq<Event>, k: nat, i: nat, j: nat)
    requires OpensOnce(events, k) && load == ToSend(events, k) && Underway(s, load)
    requires i < j < |s.sent| && IsLoad(s.sent[i]) && IsLoad(s.sent[j])
    ensures s.sent[i].message.messageHandle != s.sent[j].message.messageHandle
  {
    var before := Run(START, events[..k]);
    MembersDistinct(before, HandlesOf(events[k].offers), |before.committee|);
    var at := LoadAt(s.sent, i);
    var to := LoadAt(s.sent, j);
    FewerLoads(s.sent, i, j);
    DistinctPart(Loads(s.sent), load, at, to);
  }

  // ----- what the reports say -----

  /** Address and channel of every link that came up. */
  ghost function Made(events: seq<Event>): set<(string, string)> {
    if events == [] then {} else Made(events[..|events| - 1]) + MadeBy(events[|events| - 1])
  }

  function MadeBy(e: Event): set<(string, string)> {
    if e.Status? && e.link.Some? then {(e.link.value.address, e.link.value.channel)} else {}
  }

  /** Addresses and channels of a report pair up into links that came up. */
  predicate Paired(m: LinkMsg, made: set<(string, string)>) {
    && |m.addresses| == |m.channels|
    && forall i :: 0 <= i < |m.addresses| ==> (m.addresses[i], m.channels[i]) in made
  }

  /** `m` is being put together or has been sent. */
  ghost predicate Held(s: State, m: LinkMsg) {
    (exists c :: c in s.creates && c.message == m) || (exists r :: r in s.sent && r.Report? && r.message == m)
  }

  /** A link status changes at most the message of the request that waited for it. */
  lemma NotedHolds(s: State, handle: int, link: Option<Link>, m: LinkMsg)
    requires Held(Noted(s, handle, link), m)
    ensures
      var i := Waiting(s.creates, handle);
      Held(s, m) || (i < |s.creates| && m == Reported(s.creates[i], handle, link).message)
  {
    var i := Waiting(s.creates, handle);
    if i < |s.creates| {
      var c := Reported(s.creates[i], handle, link);
      var s' := Noted(s, handle, link);
      RemainingMembers(s.creates, i);
      if r :| r in s'.sent && r.Report? && r.message == m {
        assert r in s.sent || r == Report(c.dest, c.message);
      } else {
        var b :| b in s'.creates && b.message == m;
        assert b in s.creates || b == c;
      }
    }
  }

  lemma RemainingMembers(creates: seq<Create>, i: nat)
    requires i < |creates|
    ensures forall c :: c in RemoveAt(creates, i) ==> c in creates
  {
    var r := RemoveAt(creates, i);
    assert forall x :: 0 <= x < |r| ==> r[x] == creates[if x < i then x else x + 1];
  }

  ghost predicate AllPaired(s: State, made: set<(string, string)>) {
    forall m :: Held(s, m) ==> Paired(m, made)
  }

  lemma ReportedPaired(c: Create, handle: int, link: Option<Link>, made: set<(string, string)>)
    requires Paired(c.message, made) && handle in c.outstanding
    requires link.Some? ==> (link.value.address, link.value.channel) in made
    ensures Paired(Reported(c, handle, link).message, made)
  {
  }

  lemma {:induction false} RequestedEmpty(s: State, handles: nat -> seq<int>, n: nat, c: Create)
    requires n <= |s.committee| && c in Requested(s, handles, n)
    ensures var m := c.message;
      && m.addresses == [] && m.channels == [] && m.kind == LoadRequest
      && s.counter <= m.messageHandle < s.counter + n && m.persona == s.committee[m.messageHandle - s.counter]
  {
    if n > 0 && c in Requested(s, handles, n - 1) {
      RequestedEmpty(s, handles, n - 1, c);
    }
  }

  lemma StatusPaired(s: State, e: Event, made: set<(string, string)>, m: LinkMsg)
    requires AllPaired(s, made) && e.Status? && Held(Exec(s, e), m)
    ensures Paired(m, made + MadeBy(e))
  {
    assert Held(Noted(s, e.handle, e.link), m);
    NotedHolds(s, e.handle, e.link, m);
    if Held(s, m) {
      assert Paired(m, made);
    } else {
      var c := s.creates[Waiting(s.creates, e.handle)];
      assert Held(s, c.message) && Paired(c.message, made);
      ReportedPaired(c, e.handle, e.link, made + MadeBy(e));
    }
  }

  /** A message that an event other than a status brings up is still empty. */
  lemma NewIsEmpty(s: State, e: Event, m: LinkMsg)
    requires !e.Status? && Held(Exec(s, e), m) && !Held(s, m)
    ensures m.addresses == [] && m.channels == []
  {
    var c :| c in Exec(s, e).creates && c.message == m;
    assert c !in s.creates;
    if e.Open? {
      RequestedEmpty(s, HandlesOf(e.offers), |s.committee|, c);
    }
  }

  lemma PairedStep(s: State, e: Event, made: set<(string, string)>, m: LinkMsg)
    requires AllPaired(s, made) && Held(Exec(s, e), m)
    ensures Paired(m, made + MadeBy(e))
  {
    if e.Status? {
      StatusPaired(s, e, made, m);
    } else if Held(s, m) {
      assert Paired(m, made);
    } else {
      NewIsEmpty(s, e, m);
    }
  }

  /** In every run whatsoever, reports pair each address with the channel of the same link. */
  lemma {:induction false} AlwaysPaired(events: seq<Event>)
    ensures AllPaired(Run(START, events), Made(events))
  {
    if events != [] {
      AlwaysPaired(events[..|events| - 1]);
      forall m | Held(Run(START, events), m) ensures Paired(m, Made(events)) {
        PairedStep(Run(START, events[..|events| - 1]), events[|events| - 1], Made(events[..|events| - 1]), m);
      }
    }
  }

  /** A load request carries the persona of the committee member its handle was given out for. */
  predicate ForMember(m: LinkMsg, base: nat, committee: seq<string>) {
    m.kind == LoadRequest ==>
      base <= m.messageHandle < base + |committee| && m.persona == committee[m.messageHandle - base]
  }

  ghost predicate AllForMembers(s: State, base: nat, committee: seq<string>) {
    forall m :: Held(s, m) ==> ForMember(m, base, committee)
  }

  lemma MembersStep(s: State, e: Event, base: nat, committee: seq<string>)
    requires AllForMembers(s, base, committee) && !e.Open?
    ensures AllForMembers(Exec(s, e), base, committee)
  {
    forall m | Held(Exec(s, e), m) ensures ForMember(m, base, committee) {
      if e.Status? {
        assert Held(Noted(s, e.handle, e.link), m);
        NotedHolds(s, e.handle, e.link, m);
        var i := Waiting(s.creates, e.handle);
        if !Held(s, m) {
          assert Held(s, s.creates[i].message);
        }
      }
    }
  }

  lemma MembersOpen(s: State, connId: string, handles: nat -> seq<int>)
    requires AllForMembers(s, s.counter, [])
    ensures AllForMembers(Opened(s, connId, handles), s.counter, s.committee)
  {
    var s' := Opened(s, connId, handles);
    forall m | Held(s', m) ensures ForMember(m, s.counter, s.committee) {
      if Held(s, m) {
        assert ForMember(m, s.counter, []);
      } else {
        var c :| c in s'.creates && c.message == m;
        RequestedEmpty(s, handles, |s.committee|, c);
      }
    }
  }

  lemma {:induction false} NoLoadsBefore(events: seq<Event>, base: nat)
    requires NoOpen(events)
    ensures AllForMembers(Run(START, events), base, [])
  {
    if events != [] {
      NoLoadsBefore(events[..|events| - 1], base);
      MembersStep(Run(START, events[..|events| - 1]), events[|events| - 1], base, []);
    }
  }

  lemma {:induction false} MembersRun(events: seq<Event>, k: nat)
    requires OpensOnce(events, k)
    ensures var s := Run(START, events[..k]); AllForMembers(Run(START, events), s.counter, s.committee)
    decreases |events|
  {
    var front, e := events[..|events| - 1], events[|events| - 1];
    if k == |events| - 1 {
      assert events[..k] == front;
      NoLoadsBefore(front, Run(START, front).counter);
      MembersOpen(Run(START, front), e.connId, HandlesOf(e.offers));
    } else {
      assert front[..k] == events[..k] && front[k] == events[k];
      assert OpensOnce(front, k) && !e.Open?;
      MembersRun(front, k);
      var s := Run(START, events[..k]);
      MembersStep(Run(START, front), e, s.counter, s.committee);
    }
  }

  /** With distinct committee members, each is named in at most one load request. */
  lemma OneLoadPerMember(events: seq<Event>, k: nat, i: nat, j: nat)
    requires OpensOnce(events, k) && Distinct(Run(START, events[..k]).committee)
    requires var sent := Run(START, events).sent; i < j < |sent| && IsLoad(sent[i]) && IsLoad(sent[j])
    ensures var sent := Run(START, events).sent;
      sent[i].message.persona != sent[j].message.persona && sent[i].message.persona in Run(START, events[..k]).committee
  {
    TargetOrder(events, k, i, j);
    MembersRun(events, k);
    var s := Run(START, events);
    assert Held(s, s.sent[i].message) && Held(s, s.sent[j].message);
  }
}
