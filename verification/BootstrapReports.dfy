/**
 * What the reports of created links say (onLinkStatusChanged of BootstrapManager.cpp), told from
 * the events alone: when a report goes out, and which links it lists in which order.
 */
module BootstrapReports {
  import opened Wrappers
  import opened BootstrapTarget

  // ----- which channels a request asks for -----

  /** A link is created on a channel that is known, indirect, may be created by this node and is not full; a new node takes no bidirectional one. */
  predicate Takes(offers: seq<Offer>, kind: Kind, i: nat) {
    && i < |offers| && offers[i].answer.Some?
    && match offers[i].info
       case None => false
       case Some(info) => info.indirect && info.mayCreate && !offers[i].full && (info.bidirectional ==> kind == CreateResponse)
  }

  /** The handles of a request are the SDK's answers for exactly these channels, in order. */
  lemma {:induction false} AcceptedAre(offers: seq<Offer>, kind: Kind) returns (at: seq<nat>)
    ensures forall i :: i in at <==> Takes(offers, kind, i)
    ensures forall x, y :: 0 <= x < y < |at| ==> at[x] < at[y]
    ensures |Accepted(offers, kind)| == |at|
    ensures forall x :: 0 <= x < |at| ==> at[x] < |offers| && offers[at[x]].answer == Some(Accepted(offers, kind)[x])
  {
    if offers == [] {
      at := [];
    } else {
      var last := |offers| - 1;
      var before := AcceptedAre(offers[..last], kind);
      forall i: nat ensures Takes(offers, kind, i) <==> Takes(offers[..last], kind, i) || (i == last && Takes(offers, kind, last)) {
      }
      forall x | 0 <= x < |before| ensures before[x] < last {
        assert before[x] in before;
      }
      at := before + if Takes(offers, kind, last) then [last] else [];
    }
  }

  // ----- requests and their handles -----

  /** Where a request comes from: the event, and in the opening of the bootstrap connection the committee member. */
  datatype Origin = Origin(event: nat, member: nat)

  predicate AtEvent(events: seq<Event>, o: Origin) {
    o.event < |events| && (events[o.event].Open? || (events[o.event].CreateRequest? && o.member == 0))
  }

  /** The handles of the link creations accepted for the request. */
  function HandlesAt(events: seq<Event>, o: Origin): seq<int>
    requires AtEvent(events, o)
  {
    match events[o.event]
    case Open(_, offers) => Accepted(offers(o.member), LoadRequest)
    case CreateRequest(_, _, _, _, channels) => Accepted(channels, CreateResponse)
    case _ => []
  }

  ghost predicate IsOrigin(events: seq<Event>, o: Origin) {
    && AtEvent(events, o) && HandlesAt(events, o) != []
    && (events[o.event].Open? ==> o.member < |Run(START, events[..o.event]).committee|)
  }

  /** The message that is to report the links of a request, without them. */
  ghost function Blank(events: seq<Event>, o: Origin): LinkMsg
    requires IsOrigin(events, o)
  {
    var s, e := Run(START, events[..o.event]), events[o.event];
    if e.CreateRequest? then LinkMsg(CreateResponse, e.bootstrapHandle, e.messageHandle, e.uuid, [], [])
    else LinkMsg(LoadRequest, s.handle, s.counter + o.member, s.committee[o.member], [], [])
  }

  /** Who asked for the links. */
  ghost function Asker(events: seq<Event>, o: Origin): string
    requires IsOrigin(events, o)
  {
    if events[o.event].CreateRequest? then events[o.event].sender else Run(START, events[..o.event]).introducer
  }

  /** The SDK gives out every handle of a link creation once. */
  ghost predicate FreshLinkHandles(events: seq<Event>) {
    && (forall o :: IsOrigin(events, o) ==> Distinct(HandlesAt(events, o)))
    && (forall o, p, h :: IsOrigin(events, o) && IsOrigin(events, p) && h in HandlesAt(events, o) && h in HandlesAt(events, p) ==> o == p)
  }

  // ----- statuses -----

  /** A status for this handle arrives from event `from` on and before event `n`. */
  predicate HasStatus(events: seq<Event>, from: nat, n: nat, h: int) {
    exists t :: from <= t < n && t < |events| && events[t].Status? && events[t].handle == h
  }

  /** The links that came up for these handles, in the order of their statuses; only a handle's first status counts. */
  function Came(events: seq<Event>, from: nat, n: nat, handles: seq<int>): seq<Link>
    requires n <= |events|
  {
    if n <= from then []
    else
      var e := events[n - 1];
      Came(events, from, n - 1, handles)
      + if e.Status? && e.handle in handles && !HasStatus(events, from, n - 1, e.handle) && e.link.Some? then [e.link.value] else []
  }

  function Addresses(links: seq<Link>): seq<string> { seq(|links|, i requires 0 <= i < |links| => links[i].address) }

  function Channels(links: seq<Link>): seq<string> { seq(|links|, i requires 0 <= i < |links| => links[i].channel) }

  /** Event `n` is the status that the request has been waiting for last. */
  ghost predicate Finishes(events: seq<Event>, o: Origin, n: nat) {
    && IsOrigin(events, o) && o.event < n < |events| && events[n].Status?
    && events[n].handle in HandlesAt(events, o)
    && !HasStatus(events, o.event + 1, n, events[n].handle)
    && forall h :: h in HandlesAt(events, o) && h != events[n].handle ==> HasStatus(events, o.event + 1, n, h)
  }

  /** The report of the links that came up for the request before event `n`. */
  ghost function ReportOf(events: seq<Event>, o: Origin, n: nat): Sent
    requires IsOrigin(events, o) && n <= |events|
  {
    var links := Came(events, o.event + 1, n, HandlesAt(events, o));
    Report(Asker(events, o), Blank(events, o).(addresses := Addresses(links), channels := Channels(links)))
  }

  function Reports(sent: seq<Sent>): seq<Sent> {
    if sent == [] then []
    else Reports(sent[..|sent| - 1]) + if sent[|sent| - 1].Report? then [sent[|sent| - 1]] else []
  }

  // ----- what is still awaited -----

  lemma StatusNext(events: seq<Event>, from: nat, n: nat, h: int)
    requires n < |events|
    ensures HasStatus(events, from, n + 1, h) <==>
      HasStatus(events, from, n, h) || (from <= n && events[n].Status? && events[n].handle == h)
  {
    if from <= n && events[n].Status? && events[n].handle == h {
      assert HasStatus(events, from, n + 1, h);
    }
    if HasStatus(events, from, n, h) {
      var t :| from <= t < n && t < |events| && events[t].Status? && events[t].handle == h;
      assert HasStatus(events, from, n + 1, h);
    }
  }

  function Struck(left: seq<int>, h: int): seq<int> {
    if h in left then RemoveAt(left, FirstIndex(left, h)) else left
  }

  lemma StruckMembers(left: seq<int>, h: int)
    requires Distinct(left)
    ensures Distinct(Struck(left, h))
    ensures forall x :: x in Struck(left, h) <==> x in left && x != h
    ensures Struck(left, h) == [] <==> left == [] || left == [h]
  {
    if h in left {
      var k, r := FirstIndex(left, h), Struck(left, h);
      forall x | x in left && x != h ensures x in r {
        var i :| 0 <= i < |left| && left[i] == x;
        assert r[if i < k then i else i - 1] == x;
      }
    }
  }

  /** The handles without a status yet. */
  function Awaited(events: seq<Event>, from: nat, n: nat, handles: seq<int>): seq<int>
    requires n <= |events|
  {
    if n <= from then handles
    else
      var left := Awaited(events, from, n - 1, handles);
      if events[n - 1].Status? then Struck(left, events[n - 1].handle) else left
  }

  lemma {:induction false} AwaitedMembers(events: seq<Event>, from: nat, n: nat, handles: seq<int>)
    requires n <= |events| && Distinct(handles)
    ensures Distinct(Awaited(events, from, n, handles))
    ensures forall h :: h in Awaited(events, from, n, handles) <==> h in handles && !HasStatus(events, from, n, h)
  {
    if n > from {
      AwaitedMembers(events, from, n - 1, handles);
      forall h ensures HasStatus(events, from, n, h) <==>
        HasStatus(events, from, n - 1, h) || (events[n - 1].Status? && events[n - 1].handle == h)
      {
        StatusNext(events, from, n - 1, h);
      }
      if events[n - 1].Status? {
        StruckMembers(Awaited(events, from, n - 1, handles), events[n - 1].handle);
      }
    }
  }

  // ----- a request over time -----

  ghost function Left(events: seq<Event>, o: Origin, n: nat): seq<int>
    requires IsOrigin(events, o) && n <= |events|
  {
    Awaited(events, o.event + 1, n, HandlesAt(events, o))
  }

  /** The request before event `n`. */
  ghost function RequestAt(events: seq<Event>, o: Origin, n: nat): Create
    requires IsOrigin(events, o) && n <= |events|
  {
    Create(Left(events, o, n), Asker(events, o), ReportOf(events, o, n).message)
  }

  /** The request has been made and waits for something. */
  ghost predicate Live(events: seq<Event>, o: Origin, n: nat) {
    IsOrigin(events, o) && o.event < n <= |events| && Left(events, o, n) != []
  }

  lemma LeftMembers(events: seq<Event>, o: Origin, n: nat)
    requires FreshLinkHandles(events) && IsOrigin(events, o) && n <= |events|
    ensures Distinct(Left(events, o, n))
    ensures forall h :: h in Left(events, o, n) <==> h in HandlesAt(events, o) && !HasStatus(events, o.event + 1, n, h)
  {
    AwaitedMembers(events, o.event + 1, n, HandlesAt(events, o));
  }

  lemma OnlyOne(left: seq<int>, h: int)
    requires Distinct(left) && h in left && forall x :: x in left ==> x == h
    ensures left == [h]
  {
    forall j | 0 <= j < |left| ensures left[j] == h {
      assert left[j] in left;
    }
    DistinctFits(left, {h});
  }

  lemma FinishesMeans(events: seq<Event>, o: Origin, n: nat)
    requires FreshLinkHandles(events) && IsOrigin(events, o) && o.event < n < |events| && events[n].Status?
    ensures Finishes(events, o, n) <==> Left(events, o, n) == [events[n].handle]
  {
    LeftMembers(events, o, n);
    var left, h := Left(events, o, n), events[n].handle;
    if Finishes(events, o, n) {
      assert h in left;
      OnlyOne(left, h);
    }
    if left == [h] {
      assert h in left;
    }
  }

  /** The next event changes a request only if it is a status for a handle still awaited. */
  lemma RequestNext(events: seq<Event>, o: Origin, n: nat)
    requires FreshLinkHandles(events) && IsOrigin(events, o) && o.event < n < |events|
    ensures
      var c, c' := RequestAt(events, o, n), RequestAt(events, o, n + 1);
      c' == if events[n].Status? && events[n].handle in c.outstanding then Reported(c, events[n].handle, events[n].link) else c
  {
    LeftMembers(events, o, n);
    var links := Came(events, o.event + 1, n, HandlesAt(events, o));
    if events[n].Status? && events[n].link.Some? {
      assert Addresses(links + [events[n].link.value]) == Addresses(links) + [events[n].link.value.address];
      assert Channels(links + [events[n].link.value]) == Channels(links) + [events[n].link.value.channel];
    }
  }

  lemma RequestNew(events: seq<Event>, o: Origin)
    requires IsOrigin(events, o)
    ensures RequestAt(events, o, o.event + 1) == Create(HandlesAt(events, o), Asker(events, o), Blank(events, o))
  {
  }

  // ----- all requests over a run -----

  lemma RunNext(events: seq<Event>, n: nat)
    requires n < |events|
    ensures Run(START, events[..n + 1]) == Exec(Run(START, events[..n]), events[n])
  {
    assert events[..n + 1][..n] == events[..n];
  }

  ghost predicate ComesFrom(events: seq<Event>, n: nat, c: Create, o: Origin) {
    Live(events, o, n) && c == RequestAt(events, o, n)
  }

  ghost predicate Accounted(events: seq<Event>, n: nat, c: Create) {
    exists o :: ComesFrom(events, n, c, o)
  }

  ghost predicate OnRecord(events: seq<Event>, n: nat, creates: seq<Create>, o: Origin) {
    Live(events, o, n) ==> RequestAt(events, o, n) in creates
  }

  predicate Apart(creates: seq<Create>) {
    forall x, y, h :: 0 <= x < y < |creates| && h in creates[x].outstanding ==> h !in creates[y].outstanding
  }

  /** The requests on record are those that still wait for something, each once. */
  ghost predicate Tracked(events: seq<Event>, n: nat, creates: seq<Create>) {
    && (forall c :: c in creates ==> Accounted(events, n, c))
    && (forall o :: OnRecord(events, n, creates, o))
    && Apart(creates)
  }

  lemma ApartWithout(creates: seq<Create>, i: nat)
    requires Apart(creates) && i < |creates|
    ensures Apart(RemoveAt(creates, i))
    ensures forall c :: c in RemoveAt(creates, i) ==> c in creates
    ensures forall c :: c in creates && c != creates[i] ==> c in RemoveAt(creates, i)
  {
    var r := RemoveAt(creates, i);
    assert forall x :: 0 <= x < |r| ==> r[x] == creates[if x < i then x else x + 1];
    forall c | c in creates && c != creates[i] ensures c in r {
      var x :| 0 <= x < |creates| && creates[x] == c;
      assert r[if x < i then x else x - 1] == c;
    }
  }

  /** What a status does to the requests on record. */
  function Updated(creates: seq<Create>, handle: int, link: Option<Link>): seq<Create> {
    var i := Waiting(creates, handle);
    if i == |creates| then creates
    else
      var c := Reported(creates[i], handle, link);
      if c.outstanding == [] then RemoveAt(creates, i) else creates[i := c]
  }

  lemma StillApart(creates: seq<Create>, handle: int, link: Option<Link>)
    requires Apart(creates)
    ensures Apart(Updated(creates, handle, link))
  {
    var i := Waiting(creates, handle);
    if i < |creates| {
      ApartWithout(creates, i);
      assert forall h :: h in Reported(creates[i], handle, link).outstanding ==> h in creates[i].outstanding;
    }
  }

  /** Which requests a status changes, and which it leaves alone. */
  lemma UpdatedMembers(creates: seq<Create>, handle: int, link: Option<Link>, c: Create)
    requires Apart(creates)
    ensures c in creates && handle !in c.outstanding ==> c in Updated(creates, handle, link)
    ensures c in creates && handle in c.outstanding && Reported(c, handle, link).outstanding != [] ==>
      Reported(c, handle, link) in Updated(creates, handle, link)
    ensures c in Updated(creates, handle, link) ==>
      || (c in creates && handle !in c.outstanding)
      || (c.outstanding != [] && exists b :: b in creates && handle in b.outstanding && c == Reported(b, handle, link))
  {
    var i := Waiting(creates, handle);
    if i < |creates| {
      var c', updated := Reported(creates[i], handle, link), Updated(creates, handle, link);
      ApartWithout(creates, i);
      assert creates[i] in creates;
      forall x | 0 <= x < |creates| && x != i ensures handle !in creates[x].outstanding {
      }
      if c in creates {
        var x :| 0 <= x < |creates| && creates[x] == c;
        if c'.outstanding != [] {
          assert updated[x] == if x == i then c' else c;
        }
      }
      if c in updated && c'.outstanding == [] {
        var x :| 0 <= x < |updated| && updated[x] == c;
        assert c == creates[if x < i then x else x + 1];
      }
    }
  }

  lemma UpdatedAccounted(events: seq<Event>, n: nat, creates: seq<Create>, m: nat, c: Create)
    requires FreshLinkHandles(events) && n < |events| && events[n].Status? && Tracked(events, n, creates) && m == n + 1
    requires c in Updated(creates, events[n].handle, events[n].link)
    ensures Accounted(events, m, c)
  {
    var h, link := events[n].handle, events[n].link;
    UpdatedMembers(creates, h, link, c);
    var b :| b in creates && (if h in b.outstanding then c.outstanding != [] && c == Reported(b, h, link) else c == b);
    assert Accounted(events, n, b);
    var o :| ComesFrom(events, n, b, o);
    RequestNext(events, o, n);
    assert ComesFrom(events, m, c, o);
  }

  lemma LiveBefore(events: seq<Event>, n: nat, o: Origin)
    requires n < |events| && Live(events, o, n + 1) && o.event != n
    ensures Live(events, o, n)
  {
  }

  lemma LiveStaysOn(events: seq<Event>, n: nat, creates: seq<Create>, m: nat, o: Origin)
    requires FreshLinkHandles(events) && n < |events| && events[n].Status? && Tracked(events, n, creates) && m == n + 1
    ensures OnRecord(events, m, Updated(creates, events[n].handle, events[n].link), o)
  {
    if Live(events, o, m) {
      LiveBefore(events, n, o);
      RequestNext(events, o, n);
      assert OnRecord(events, n, creates, o);
      assert RequestAt(events, o, m).outstanding != [];
      UpdatedMembers(creates, events[n].handle, events[n].link, RequestAt(events, o, n));
    }
  }

  lemma StatusTracks(events: seq<Event>, n: nat, creates: seq<Create>, m: nat)
    requires FreshLinkHandles(events) && n < |events| && events[n].Status? && Tracked(events, n, creates) && m == n + 1
    ensures Tracked(events, m, Updated(creates, events[n].handle, events[n].link))
  {
    var updated := Updated(creates, events[n].handle, events[n].link);
    StillApart(creates, events[n].handle, events[n].link);
    forall c | c in updated ensures Accounted(events, m, c) {
      UpdatedAccounted(events, n, creates, m, c);
    }
    forall o ensures OnRecord(events, m, updated, o) {
      LiveStaysOn(events, n, creates, m, o);
    }
  }

  // ----- new requests -----

  /** The requests that an event registers. */
  ghost function Registers(events: seq<Event>, n: nat): seq<Create>
    requires n < |events|
  {
    var s := Run(START, events[..n]);
    match events[n]
    case Open(_, offers) => Requested(s, HandlesOf(offers), |s.committee|)
    case CreateRequest(uuid, bootstrapHandle, messageHandle, sender, channels) =>
      Registered(LinkMsg(CreateResponse, bootstrapHandle, messageHandle, uuid, [], []), sender, Accepted(channels, CreateResponse))
    case _ => []
  }

  /** The request made at an origin, as it is registered. */
  ghost function NewRequest(events: seq<Event>, o: Origin): Create
    requires IsOrigin(events, o)
  {
    Create(HandlesAt(events, o), Asker(events, o), Blank(events, o))
  }

  ghost predicate MadeFor(events: seq<Event>, n: nat, c: Create, i: nat) {
    IsOrigin(events, Origin(n, i)) && c == NewRequest(events, Origin(n, i))
  }

  ghost predicate MadeForOneBefore(events: seq<Event>, n: nat, c: Create, k: nat) {
    exists i: nat :: i < k && MadeFor(events, n, c, i)
  }

  /** One request for each of the first `k` origins in the event, all apart. */
  ghost predicate MadeForAll(events: seq<Event>, n: nat, created: seq<Create>, k: nat) {
    && (forall c :: c in created <==> MadeForOneBefore(events, n, c, k))
    && Apart(created)
  }

  lemma MadeForNext(events: seq<Event>, n: nat, c: Create, k: nat)
    ensures MadeForOneBefore(events, n, c, k + 1) <==> MadeForOneBefore(events, n, c, k) || MadeFor(events, n, c, k)
  {
    if MadeForOneBefore(events, n, c, k) {
      var i: nat :| i < k && MadeFor(events, n, c, i);
      assert i < k + 1;
    }
    if MadeFor(events, n, c, k) {
      assert k < k + 1;
    }
  }

  lemma MadeForOneMore(events: seq<Event>, n: nat, created: seq<Create>, k: nat, m: nat)
    requires FreshLinkHandles(events) && MadeForAll(events, n, created, k) && m == k + 1
    ensures MadeForAll(events, n, created + if IsOrigin(events, Origin(n, k)) then [NewRequest(events, Origin(n, k))] else [], m)
  {
    var more := if IsOrigin(events, Origin(n, k)) then [NewRequest(events, Origin(n, k))] else [];
    forall c ensures c in created + more <==> MadeForOneBefore(events, n, c, m) {
      MadeForNext(events, n, c, k);
    }
    forall c, d, h | c in created && d in more && h in c.outstanding ensures h !in d.outstanding {
      assert MadeForOneBefore(events, n, c, k);
      var i: nat :| i < k && MadeFor(events, n, c, i);
    }
    ApartAppend(created, more);
  }

  /** The request of the k-th committee member, if there is one. */
  lemma MemberRequest(events: seq<Event>, n: nat, s: State, k: nat)
    requires n < |events| && events[n].Open? && s == Run(START, events[..n]) && k < |s.committee|
    ensures RequestFor(s, HandlesOf(events[n].offers), k)
         == if IsOrigin(events, Origin(n, k)) then [NewRequest(events, Origin(n, k))] else []
  {
  }

  lemma {:induction false} RequestedFrom(events: seq<Event>, n: nat, s: State, k: nat)
    requires FreshLinkHandles(events) && n < |events| && events[n].Open? && s == Run(START, events[..n]) && k <= |s.committee|
    ensures MadeForAll(events, n, Requested(s, HandlesOf(events[n].offers), k), k)
  {
    var handles := HandlesOf(events[n].offers);
    if k > 0 {
      var j := k - 1;
      RequestedFrom(events, n, s, j);
      MemberRequest(events, n, s, j);
      RequestedNext(s, handles, j);
      MadeForOneMore(events, n, Requested(s, handles, j), j, k);
    }
  }

  /** What an event registers are the requests made there. */
  lemma RegistersAll(events: seq<Event>, n: nat) returns (k: nat)
    requires FreshLinkHandles(events) && n < |events|
    ensures MadeForAll(events, n, Registers(events, n), k)
    ensures forall i: nat :: IsOrigin(events, Origin(n, i)) ==> i < k
  {
    k := 0;
    var e := events[n];
    if e.Open? {
      k := |Run(START, events[..n]).committee|;
      RequestedFrom(events, n, Run(START, events[..n]), k);
    } else if e.CreateRequest? {
      k := 1;
      MadeForOneMore(events, n, [], 0, 1);
    }
  }

  lemma ApartAppend(a: seq<Create>, b: seq<Create>)
    requires Apart(a) && Apart(b)
    requires forall c, d, h :: c in a && d in b && h in c.outstanding ==> h !in d.outstanding
    ensures Apart(a + b)
  {
  }

  lemma NewAccounted(events: seq<Event>, n: nat, creates: seq<Create>, m: nat, c: Create)
    requires FreshLinkHandles(events) && n < |events| && !events[n].Status? && Tracked(events, n, creates) && m == n + 1
    requires c in creates + Registers(events, n)
    ensures Accounted(events, m, c)
  {
    if c in creates {
      assert Accounted(events, n, c);
      var o :| ComesFrom(events, n, c, o);
      RequestNext(events, o, n);
      assert ComesFrom(events, m, c, o);
    } else {
      var k := RegistersAll(events, n);
      var i: nat :| i < k && MadeFor(events, n, c, i);
      RequestNew(events, Origin(n, i));
      assert ComesFrom(events, m, c, Origin(n, i));
    }
  }

  lemma NewOnRecord(events: seq<Event>, n: nat, creates: seq<Create>, m: nat, o: Origin)
    requires FreshLinkHandles(events) && n < |events| && !events[n].Status? && Tracked(events, n, creates) && m == n + 1
    ensures OnRecord(events, m, creates + Registers(events, n), o)
  {
    if Live(events, o, m) {
      if o.event < n {
        LiveBefore(events, n, o);
        RequestNext(events, o, n);
        assert OnRecord(events, n, creates, o);
      } else {
        var k := RegistersAll(events, n);
        RequestNew(events, o);
        assert MadeFor(events, n, NewRequest(events, o), o.member);
        assert MadeForOneBefore(events, n, NewRequest(events, o), k);
      }
    }
  }

  /** Old requests wait for handles given out before, new ones for those given out now. */
  lemma NewApart(events: seq<Event>, n: nat, creates: seq<Create>)
    requires FreshLinkHandles(events) && n < |events| && Tracked(events, n, creates)
    ensures Apart(creates + Registers(events, n))
  {
    var k := RegistersAll(events, n);
    forall c, d, h | c in creates && d in Registers(events, n) && h in c.outstanding ensures h !in d.outstanding {
      assert Accounted(events, n, c) && MadeForOneBefore(events, n, d, k);
      var o :| ComesFrom(events, n, c, o);
      var i: nat :| i < k && MadeFor(events, n, d, i);
      LeftMembers(events, o, n);
    }
    ApartAppend(creates, Registers(events, n));
  }

  lemma OthersTrack(events: seq<Event>, n: nat, creates: seq<Create>, m: nat)
    requires FreshLinkHandles(events) && n < |events| && !events[n].Status? && Tracked(events, n, creates) && m == n + 1
    ensures Tracked(events, m, creates + Registers(events, n))
  {
    NewApart(events, n, creates);
    forall c | c in creates + Registers(events, n) ensures Accounted(events, m, c) {
      NewAccounted(events, n, creates, m, c);
    }
    forall o ensures OnRecord(events, m, creates + Registers(events, n), o) {
      NewOnRecord(events, n, creates, m, o);
    }
  }

  // ----- every run -----

  lemma ExecCreates(events: seq<Event>, n: nat)
    requires n < |events|
    ensures
      var s, e := Run(START, events[..n]), events[n];
      Exec(s, e).creates == if e.Status? then Updated(s.creates, e.handle, e.link) else s.creates + Registers(events, n)
  {
  }

  lemma {:induction false} AlwaysTracked(events: seq<Event>, n: nat)
    requires FreshLinkHandles(events) && n <= |events|
    ensures Tracked(events, n, Run(START, events[..n]).creates)
  {
    if n == 0 {
      assert events[..0] == [];
    } else {
      AlwaysTracked(events, n - 1);
      RunNext(events, n - 1);
      ExecCreates(events, n - 1);
      if events[n - 1].Status? {
        StatusTracks(events, n - 1, Run(START, events[..n - 1]).creates, n);
      } else {
        OthersTrack(events, n - 1, Run(START, events[..n - 1]).creates, n);
      }
    }
  }

  // ----- the reports -----

  lemma ReportsAppend(sent: seq<Sent>, m: Sent)
    ensures Reports(sent + [m]) == Reports(sent) + if m.Report? then [m] else []
  {
    assert (sent + [m])[..|sent|] == sent;
  }

  lemma DestroyReportsNothing(s: State)
    ensures Reports(DestroyIfComplete(s).sent) == Reports(s.sent)
  {
    ReportsAppend(s.sent, Destroy(s.introducer));
  }

  /** The report that a status sends, if any: that of the first request waiting for the handle. */
  function ReportNow(s: State, handle: int, link: Option<Link>): seq<Sent> {
    var i := Waiting(s.creates, handle);
    if i == |s.creates| then []
    else
      var c := Reported(s.creates[i], handle, link);
      if c.outstanding == [] then [Report(c.dest, c.message)] else []
  }

  lemma NotedReports(s: State, handle: int, link: Option<Link>)
    ensures Reports(Noted(s, handle, link).sent) == Reports(s.sent) + ReportNow(s, handle, link)
  {
    var i := Waiting(s.creates, handle);
    if i < |s.creates| {
      var c := Reported(s.creates[i], handle, link);
      ReportsAppend(s.sent, Report(c.dest, c.message));
    }
  }

  lemma ExecReports(s: State, e: Event)
    ensures Reports(Exec(s, e).sent) == Reports(s.sent) + if e.Status? then ReportNow(s, e.handle, e.link) else []
  {
    match e {
      case Open(connId, offers) =>
        ReportsAppend(s.sent, Package(s.introducer, connId));
        DestroyReportsNothing(s.(counter := s.counter + |s.committee|, connection := connId,
                                 creates := s.creates + Requested(s, HandlesOf(offers), |s.committee|),
                                 sent := s.sent + [Package(s.introducer, connId)]));
      case Status(handle, link) =>
        NotedReports(s, handle, link);
        DestroyReportsNothing(Noted(s, handle, link));
      case _ =>
    }
  }

  /** Whoever still awaits the handle of a status is the request found for it. */
  lemma FoundForHandle(events: seq<Event>, n: nat, o: Origin)
    requires FreshLinkHandles(events) && IsOrigin(events, o) && o.event < n < |events| && events[n].Status?
    requires events[n].handle in HandlesAt(events, o) && !HasStatus(events, o.event + 1, n, events[n].handle)
    ensures
      var s := Run(START, events[..n]);
      var i := Waiting(s.creates, events[n].handle);
      i < |s.creates| && s.creates[i] == RequestAt(events, o, n)
  {
    var s, h := Run(START, events[..n]), events[n].handle;
    AlwaysTracked(events, n);
    LeftMembers(events, o, n);
    assert OnRecord(events, n, s.creates, o);
    var x :| 0 <= x < |s.creates| && s.creates[x] == RequestAt(events, o, n);
    var i := Waiting(s.creates, h);
    assert h in s.creates[x].outstanding && h in s.creates[i].outstanding;
    assert Apart(s.creates);
  }

  /** Conversely, a request found for it does await it. */
  lemma FoundAwaits(events: seq<Event>, n: nat) returns (o: Origin)
    requires FreshLinkHandles(events) && n < |events| && events[n].Status?
    requires
      var s := Run(START, events[..n]);
      Waiting(s.creates, events[n].handle) < |s.creates|
    ensures IsOrigin(events, o) && o.event < n
    ensures events[n].handle in HandlesAt(events, o) && !HasStatus(events, o.event + 1, n, events[n].handle)
  {
    var s := Run(START, events[..n]);
    var c := s.creates[Waiting(s.creates, events[n].handle)];
    AlwaysTracked(events, n);
    assert c in s.creates && Accounted(events, n, c);
    o :| ComesFrom(events, n, c, o);
    LeftMembers(events, o, n);
  }

  /** The report that a status sends: that of the request it finishes. */
  lemma ReportOfFinished(events: seq<Event>, n: nat, o: Origin)
    requires FreshLinkHandles(events) && n < |events| && events[n].Status?
    ensures
      var now := ReportNow(Run(START, events[..n]), events[n].handle, events[n].link);
      && (Finishes(events, o, n) ==> now == [ReportOf(events, o, n + 1)])
      && ((forall p :: !Finishes(events, p, n)) ==> now == [])
  {
    var s, e := Run(START, events[..n]), events[n];
    if Finishes(events, o, n) {
      FoundForHandle(events, n, o);
      FinishesMeans(events, o, n);
      RequestNext(events, o, n);
      StruckMembers(Left(events, o, n), e.handle);
    } else if Waiting(s.creates, e.handle) < |s.creates| {
      var p := FoundAwaits(events, n);
      FoundForHandle(events, n, p);
      FinishesMeans(events, p, n);
      LeftMembers(events, p, n);
      StruckMembers(Left(events, p, n), e.handle);
    }
  }

  /**
   * In every run in which the SDK gives out each handle once: when event `n` is the status that a
   * request has been waiting for last, then, and only then, the links that came up for the request's
   * handles since it was made are reported to who asked, all of them, each once, in the order of
   * their statuses, with nothing reported besides.
   */
  lemma ReportedWhenFinished(events: seq<Event>, n: nat, o: Origin)
    requires FreshLinkHandles(events) && n < |events|
    ensures
      var before, after := Reports(Run(START, events[..n]).sent), Reports(Run(START, events[..n + 1]).sent);
      && (Finishes(events, o, n) ==> after == before + [ReportOf(events, o, n + 1)])
      && ((forall p :: !Finishes(events, p, n)) ==> after == before)
  {
    RunNext(events, n);
    ExecReports(Run(START, events[..n]), events[n]);
    if events[n].Status? {
      ReportOfFinished(events, n, o);
    }
  }

  // ----- everything an event sends -----

  ghost predicate NothingLeft(events: seq<Event>, m: nat) {
    forall o :: !Live(events, o, m)
  }

  /** An opening or a link status, with the connection up and no request waiting for anything any more. */
  ghost predicate LeavesNothing(events: seq<Event>, n: nat) {
    && n < |events| && (events[n].Open? || events[n].Status?)
    && Run(START, events[..n + 1]).connection != ""
    && NothingLeft(events, n + 1)
  }

  lemma NothingLive(events: seq<Event>, m: nat)
    requires FreshLinkHandles(events) && m <= |events|
    ensures Run(START, events[..m]).creates == [] <==> NothingLeft(events, m)
  {
    AlwaysTracked(events, m);
    var creates := Run(START, events[..m]).creates;
    if creates != [] {
      assert creates[0] in creates && Accounted(events, m, creates[0]);
      var o :| ComesFrom(events, m, creates[0], o);
    }
    if o :| Live(events, o, m) {
      assert OnRecord(events, m, creates, o);
    }
  }

  lemma ExecSends(s: State, e: Event)
    ensures
      var s' := Exec(s, e);
      s'.sent == s.sent
        + (if e.Open? then [Package(s.introducer, e.connId)] else [])
        + (if e.Status? then ReportNow(s, e.handle, e.link) else [])
        + (if (e.Open? || e.Status?) && s'.connection != "" && s'.creates == [] then [Destroy(s.introducer)] else [])
  {
  }

  /**
   * In every run, an event sends the package if it opens the bootstrap connection, the report that it
   * finishes, and the request to destroy the link if it leaves nothing to wait for; nothing else, and
   * package and request go to the introducer.
   */
  lemma EventSends(events: seq<Event>, n: nat, o: Origin) returns (report: seq<Sent>)
    requires FreshLinkHandles(events) && n < |events|
    ensures Finishes(events, o, n) ==> report == [ReportOf(events, o, n + 1)]
    ensures (forall p :: !Finishes(events, p, n)) ==> report == []
    ensures
      var s, e := Run(START, events[..n]), events[n];
      Run(START, events[..n + 1]).sent == s.sent
        + (if e.Open? then [Package(s.introducer, e.connId)] else [])
        + report
        + (if LeavesNothing(events, n) then [Destroy(s.introducer)] else [])
  {
    var s, e := Run(START, events[..n]), events[n];
    RunNext(events, n);
    ExecSends(s, e);
    NothingLive(events, n + 1);
    report := if e.Status? then ReportNow(s, e.handle, e.link) else [];
    if e.Status? {
      ReportOfFinished(events, n, o);
    }
  }

  // ----- links to be updated later -----

  /** Event `n` brings up a link for a committee member's answer. */
  ghost predicate BringsUp(events: seq<Event>, o: Origin, n: nat) {
    && IsOrigin(events, o) && events[o.event].CreateRequest? && o.event < n < |events|
    && events[n].Status? && events[n].link.Some?
    && events[n].handle in HandlesAt(events, o) && !HasStatus(events, o.event + 1, n, events[n].handle)
  }

  lemma NotedUpdates(s: State, handle: int, link: Option<Link>)
    ensures
      var i := Waiting(s.creates, handle);
      Noted(s, handle, link).toUpdate ==
        if i == |s.creates| then s.toUpdate else ToUpdate(s.toUpdate, s.creates[i].message, link)
  {
    var i := Waiting(s.creates, handle);
    if i < |s.creates| {
      var m := Reported(s.creates[i], handle, link).message;
      assert m.kind == s.creates[i].message.kind && m.bootstrapHandle == s.creates[i].message.bootstrapHandle;
    }
  }

  lemma ExecUpdates(s: State, e: Event)
    ensures
      var s' := Exec(s, e);
      if !e.Status? || Waiting(s.creates, e.handle) == |s.creates| then s'.toUpdate == s.toUpdate
      else s'.toUpdate == ToUpdate(s.toUpdate, s.creates[Waiting(s.creates, e.handle)].message, e.link)
  {
    if e.Status? {
      NotedUpdates(s, e.handle, e.link);
      assert Exec(s, e).toUpdate == Noted(s, e.handle, e.link).toUpdate;
    }
  }

  /** In every run, the links kept for a bootstrap are those brought up for answers to it, in order. */
  lemma KeptForUpdate(events: seq<Event>, n: nat, o: Origin)
    requires FreshLinkHandles(events) && n < |events|
    ensures
      var before, after := Run(START, events[..n]).toUpdate, Run(START, events[..n + 1]).toUpdate;
      && ((forall p :: !BringsUp(events, p, n)) ==> after == before)
      && (BringsUp(events, o, n) ==>
            var b := events[o.event].bootstrapHandle;
            after == before[b := (if b in before then before[b] else []) + [events[n].link.value.id]])
  {
    var s, e := Run(START, events[..n]), events[n];
    RunNext(events, n);
    ExecUpdates(s, e);
    if BringsUp(events, o, n) {
      FoundForHandle(events, n, o);
    } else if e.Status? && Waiting(s.creates, e.handle) < |s.creates| {
      var p := FoundAwaits(events, n);
      FoundForHandle(events, n, p);
      assert !BringsUp(events, p, n) ==> ToUpdate(s.toUpdate, Blank(events, p), e.link) == s.toUpdate;
    }
  }

  // ----- whose bootstrap it is -----

  /** Who introduces this node, under which handle, to whom, and over which connection. */
  datatype Setting = Setting(introducer: string, handle: int, committee: seq<string>, connection: string)

  /** The setting after an event: set by a start and an opening, cleared when the bootstrap connection closes. */
  function SettingNext(t: Setting, e: Event): Setting {
    match e
    case Start(introducer, committee, handle) => Setting(introducer, handle, committee, t.connection)
    case Open(connId, _) => t.(connection := connId)
    case Closed(connId) => if t.introducer != "" && t.connection == connId then Setting("", t.handle, [], "") else t
    case _ => t
  }

  /** The setting, and the number of messages asked for so far. */
  lemma SettingFollows(s: State, e: Event)
    ensures
      var s' := Exec(s, e);
      && Setting(s'.introducer, s'.handle, s'.committee, s'.connection)
         == SettingNext(Setting(s.introducer, s.handle, s.committee, s.connection), e)
      && s'.counter == s.counter + if e.Open? then |s.committee| else 0
  {
  }

  predicate NoNewOpening(events: seq<Event>, from: nat) {
    forall i :: from <= i < |events| ==> !events[i].Open?
  }

  lemma {:induction false} StaysDown(events: seq<Event>, k: nat, n: nat)
    requires k < n <= |events| && events[k].Closed? && NoNewOpening(events, k)
    requires Run(START, events[..k]).introducer != "" && Run(START, events[..k]).connection == events[k].connId
    ensures Run(START, events[..n]).connection == ""
    decreases n
  {
    RunNext(events, n - 1);
    SettingFollows(Run(START, events[..n - 1]), events[n - 1]);
    if n - 1 > k {
      StaysDown(events, k, n - 1);
    }
  }

  lemma NoDestroySent(s: State, e: Event)
    requires !e.Open? && Exec(s, e).connection == ""
    ensures forall m :: m in Exec(s, e).sent && m.Destroy? ==> m in s.sent
  {
    ExecSends(s, e);
  }

  /** Once the bootstrap connection has closed and until another opens, nothing asks for the link's destruction. */
  lemma {:induction false} QuietAfterClosing(events: seq<Event>, k: nat, n: nat)
    requires k < n <= |events| && events[k].Closed? && NoNewOpening(events, k)
    requires Run(START, events[..k]).introducer != "" && Run(START, events[..k]).connection == events[k].connId
    ensures forall m :: m in Run(START, events[..n]).sent && m.Destroy? ==> m in Run(START, events[..k]).sent
    decreases n
  {
    StaysDown(events, k, n);
    RunNext(events, n - 1);
    NoDestroySent(Run(START, events[..n - 1]), events[n - 1]);
    if n - 1 > k {
      QuietAfterClosing(events, k, n - 1);
    }
  }
}
