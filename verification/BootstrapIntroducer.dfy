/**
 * The introducer's side of bootstrapping (BootstrapManager.cpp): it asks every committee member
 * for links, collects their answers, and writes the new node's configuration when the last one is
 * in. Several bootstraps run at once and are told apart by message handles.
 */
module BootstrapIntroducer {
  import opened Wrappers

  datatype LinkInfo = LinkInfo(address: string, channel: string, persona: string)

  datatype Record = Record(
    sdkHandle: int,
    bootstrapHandle: int,
    outstanding: seq<nat>,
    receivedLinks: seq<LinkInfo>,
    bootstrapLinkId: string,
    openHandle: Option<int>,
    connectionId: string)

  /** A link create request to a committee member, or its answer. */
  datatype Request = Request(dest: string, bootstrapHandle: int, messageHandle: nat)
  datatype Answer = Answer(messageHandle: nat, persona: string, addresses: seq<string>, channels: seq<string>)

  /** A configuration handed over to a new node. */
  datatype Written = Written(sdkHandle: int, bootstrapHandle: int, links: seq<LinkInfo>)

  datatype State = State(counter: nat, records: seq<Record>, written: seq<Written>, sent: seq<Request>)

  const START := State(1, [], [], [])

  // ----- what the handlers do -----

  function Handles(from: nat, n: nat): (h: seq<nat>)
    ensures |h| == n
    ensures forall i :: 0 <= i < n ==> h[i] == from + i
  {
    if n == 0 then [] else Handles(from, n - 1) + [from + n - 1]
  }

  function Requests(committee: seq<string>, bootstrapHandle: int, from: nat): (r: seq<Request>)
    ensures |r| == |committee|
  {
    seq(|committee|, i requires 0 <= i < |committee| => Request(committee[i], bootstrapHandle, from + i))
  }

  function Prepared(s: State, blank: Record, committee: seq<string>): State {
    s.(counter := s.counter + |committee|,
       records := s.records + [blank.(outstanding := Handles(s.counter, |committee|))],
       sent := s.sent + Requests(committee, blank.bootstrapHandle, s.counter))
  }

  /** Addresses and channels of an answer, paired up; none when their numbers differ. */
  function Links(a: Answer): (links: seq<LinkInfo>)
    ensures |links| == if |a.addresses| == |a.channels| then |a.channels| else 0
  {
    if |a.addresses| != |a.channels| then []
    else seq(|a.channels|, i requires 0 <= i < |a.channels| => LinkInfo(a.addresses[i], a.channels[i], a.persona))
  }

  function IndexOf(s: seq<nat>, x: nat): (i: nat)
    ensures i <= |s| && (i < |s| <==> x in s)
    ensures i < |s| ==> s[i] == x
    ensures forall j :: 0 <= j < i ==> s[j] != x
  {
    if s == [] then 0 else if s[0] == x then 0 else 1 + IndexOf(s[1..], x)
  }

  function Without(s: seq<nat>, x: nat): seq<nat>
    requires x in s
  {
    RemoveAt(s, IndexOf(s, x))
  }

  /** The record whose outstanding handles contain `handle`; the number of records when there is none. */
  function Holder(records: seq<Record>, handle: nat): (i: nat)
    ensures i <= |records|
    ensures i < |records| ==> handle in records[i].outstanding
    ensures forall j :: 0 <= j < i ==> handle !in records[j].outstanding
  {
    if records == [] then 0 else if handle in records[0].outstanding then 0 else 1 + Holder(records[1..], handle)
  }

  function Answered(r: Record, a: Answer): Record
    requires a.messageHandle in r.outstanding
  {
    r.(outstanding := Without(r.outstanding, a.messageHandle), receivedLinks := r.receivedLinks + Links(a))
  }

  function Config(r: Record): Written { Written(r.sdkHandle, r.bootstrapHandle, r.receivedLinks) }

  function Responded(s: State, a: Answer): State {
    var i := Holder(s.records, a.messageHandle);
    if i == |s.records| then s
    else
      var r := Answered(s.records[i], a);
      s.(records := s.records[i := r], written := if r.outstanding == [] then s.written + [Config(r)] else s.written)
  }

  /** The first record of a bootstrap. */
  function BySdkHandle(records: seq<Record>, sdkHandle: int): (i: nat)
    ensures i <= |records|
    ensures i < |records| ==> records[i].sdkHandle == sdkHandle
  {
    if records == [] then 0 else if records[0].sdkHandle == sdkHandle then 0 else 1 + BySdkHandle(records[1..], sdkHandle)
  }

  /** A cancelled bootstrap is forgotten at once unless its connection has to be closed first. */
  function Finished(s: State, sdkHandle: int, cancelled: bool): State {
    var i := BySdkHandle(s.records, sdkHandle);
    if i < |s.records| && cancelled && s.records[i].connectionId == ""
    then s.(records := RemoveAt(s.records, i)) else s
  }

  /** The first record that waits for this connection to open or owns it. */
  function ByConnection(records: seq<Record>, handle: int, connId: string): (i: nat)
    ensures i <= |records|
  {
    if records == [] then 0
    else if records[0].openHandle == Some(handle) || records[0].connectionId == connId then 0
    else 1 + ByConnection(records[1..], handle, connId)
  }

  datatype ConnectionStatus = ConnOpen | ConnClosed | ConnOther

  function ConnectionChanged(s: State, handle: int, connId: string, status: ConnectionStatus): State {
    var i := ByConnection(s.records, handle, connId);
    if i == |s.records| then s
    else if s.records[i].openHandle == Some(handle) then
      if status == ConnOpen then s.(records := s.records[i := s.records[i].(connectionId := connId)]) else s
    else if status == ConnClosed then s.(records := RemoveAt(s.records, i))
    else s
  }

  // ----- the code -----

  class Introducer {
    var messageCounter: nat
    var outstandingBootstraps: seq<Record>
    /** Requests sent and configurations written, oldest first. */
    var sent: seq<Request>
    var written: seq<Written>

    function Value(): State
      reads this
    {
      State(messageCounter, outstandingBootstraps, written, sent)
    }

    constructor ()
      ensures Value() == START
    {
      messageCounter, outstandingBootstraps, sent, written := 1, [], [], [];
    }

    /** One request to each committee member, in order, under consecutive handles. */
    method OnPrepareToBootstrap(sdkHandle: int, bootstrapHandle: int, linkId: string, openHandle: Option<int>,
                                ownLink: LinkInfo, entranceCommittee: seq<string>)
      modifies this
      ensures Value() == Prepared(old(Value()),
        Record(sdkHandle, bootstrapHandle, [], [ownLink], linkId, openHandle, ""), entranceCommittee)
    {
      var requests := Record(sdkHandle, bootstrapHandle, [], [ownLink], linkId, openHandle, "");
      var i := 0;
      while i < |entranceCommittee|
        invariant 0 <= i <= |entranceCommittee|
        invariant messageCounter == old(messageCounter) + i
        invariant requests ==
          Record(sdkHandle, bootstrapHandle, Handles(old(messageCounter), i), [ownLink], linkId, openHandle, "")
        invariant sent == old(sent) + Requests(entranceCommittee, bootstrapHandle, old(messageCounter))[..i]
        invariant unchanged(`outstandingBootstraps) && unchanged(`written)
      {
        var messageHandle := messageCounter;
        messageCounter := messageCounter + 1;
        requests := requests.(outstanding := requests.outstanding + [messageHandle]);
        sent := sent + [Request(entranceCommittee[i], bootstrapHandle, messageHandle)];
        i := i + 1;
      }
      outstandingBootstraps := outstandingBootstraps + [requests];
    }

    method HandleLinkCreateResponse(bMsg: Answer) returns (found: bool)
      modifies this`outstandingBootstraps, this`written
      ensures Value() == Responded(old(Value()), bMsg)
      ensures found == (Holder(old(outstandingBootstraps), bMsg.messageHandle) < |old(outstandingBootstraps)|)
    {
      var it := 0;
      while it < |outstandingBootstraps|
        invariant 0 <= it <= |outstandingBootstraps|
        invariant Holder(outstandingBootstraps, bMsg.messageHandle)
               == it + Holder(outstandingBootstraps[it..], bMsg.messageHandle)
        invariant Value() == old(Value())
      {
        var record := outstandingBootstraps[it];
        var it2 := IndexOf(record.outstanding, bMsg.messageHandle);
        if it2 < |record.outstanding| {
          record := record.(outstanding := RemoveAt(record.outstanding, it2));
          if |bMsg.addresses| == |bMsg.channels| {
            var links := PairUp(bMsg);
            record := record.(receivedLinks := record.receivedLinks + links);
          } else {
            assert record.receivedLinks + Links(bMsg) == record.receivedLinks;
          }
          outstandingBootstraps := outstandingBootstraps[it := record];
          if record.outstanding == [] {
            written := written + [Config(record)];
          }
          return true;
        }
        it := it + 1;
      }
      found := false;
    }

    method PairUp(bMsg: Answer) returns (links: seq<LinkInfo>)
      requires |bMsg.addresses| == |bMsg.channels|
      ensures links == Links(bMsg)
    {
      links := [];
      var i := 0;
      while i < |bMsg.channels|
        invariant 0 <= i <= |bMsg.channels|
        invariant links == Links(bMsg)[..i]
      {
        links := links + [LinkInfo(bMsg.addresses[i], bMsg.channels[i], bMsg.persona)];
        i := i + 1;
      }
    }

    method OnBootstrapFinished(sdkHandle: int, cancelled: bool)
      modifies this`outstandingBootstraps
      ensures Value() == Finished(old(Value()), sdkHandle, cancelled)
    {
      var it := BySdkHandle(outstandingBootstraps, sdkHandle);
      if it < |outstandingBootstraps| {
        if cancelled {
          if outstandingBootstraps[it].connectionId != "" {
            // the connection is closed; its closed event erases the record
          } else {
            outstandingBootstraps := RemoveAt(outstandingBootstraps, it);
          }
        }
      }
    }

    method OnConnectionStatusChanged(handle: int, connId: string, status: ConnectionStatus)
      modifies this`outstandingBootstraps
      ensures Value() == ConnectionChanged(old(Value()), handle, connId, status)
    {
      var it := 0;
      while it < |outstandingBootstraps|
        invariant 0 <= it <= |outstandingBootstraps|
        invariant ByConnection(outstandingBootstraps, handle, connId)
               == it + ByConnection(outstandingBootstraps[it..], handle, connId)
        invariant Value() == old(Value())
      {
        var record := outstandingBootstraps[it];
        if record.openHandle == Some(handle) {
          if status == ConnOpen {
            outstandingBootstraps := outstandingBootstraps[it := record.(connectionId := connId)];
          }
          return;
        } else if record.connectionId == connId {
          if status == ConnClosed {
            outstandingBootstraps := RemoveAt(outstandingBootstraps, it);
          }
          return;
        }
        it := it + 1;
      }
    }
  }

  // ----- runs -----

  datatype Event =
    | Prepare(blank: Record, committee: seq<string>)
    | Respond(answer: Answer)
    | Finish(sdkHandle: int, cancelled: bool)
    | Connection(handle: int, connId: string, status: ConnectionStatus)

  function Exec(s: State, e: Event): State {
    match e
    case Prepare(blank, committee) => Prepared(s, blank, committee)
    case Respond(answer) => Responded(s, answer)
    case Finish(sdkHandle, cancelled) => Finished(s, sdkHandle, cancelled)
    case Connection(handle, connId, status) => ConnectionChanged(s, handle, connId, status)
  }

  function Run(s: State, events: seq<Event>): State {
    if events == [] then s else Exec(Run(s, events[..|events| - 1]), events[|events| - 1])
  }

  /** Outstanding handles, of all bootstraps together, are distinct and below the counter. */
  ghost predicate HandlesApart(s: State) {
    && (forall i :: 0 <= i < |s.records| ==> Distinct(s.records[i].outstanding))
    && (forall i, h :: 0 <= i < |s.records| && h in s.records[i].outstanding ==> h < s.counter)
    && (forall i, j, h :: 0 <= i < |s.records| && 0 <= j < |s.records| && i != j ==>
          !(h in s.records[i].outstanding && h in s.records[j].outstanding))
  }

  lemma WithoutMembers(s: seq<nat>, x: nat)
    requires Distinct(s) && x in s
    ensures Distinct(Without(s, x))
    ensures forall y :: y in Without(s, x) <==> y in s && y != x
  {
    var k := IndexOf(s, x);
    var r := Without(s, x);
    forall y ensures y in r <==> y in s && y != x {
      if y in s && y != x {
        var i :| 0 <= i < |s| && s[i] == y;
        assert r[if i < k then i else i - 1] == y;
      }
    }
  }

  lemma RemovalKeepsApart(s: State, i: nat)
    requires HandlesApart(s) && i < |s.records|
    ensures HandlesApart(s.(records := RemoveAt(s.records, i)))
  {
    var r := RemoveAt(s.records, i);
    assert forall j :: 0 <= j < |r| ==> r[j] == s.records[if j < i then j else j + 1];
  }

  lemma ExecKeepsApart(s: State, e: Event)
    requires HandlesApart(s)
    ensures HandlesApart(Exec(s, e))
  {
    match e {
      case Prepare(blank, committee) =>
        PreparedApart(s, blank, committee);
      case Respond(answer) =>
        var i := Holder(s.records, answer.messageHandle);
        if i < |s.records| {
          WithoutMembers(s.records[i].outstanding, answer.messageHandle);
          FewerKeepsApart(s, i, Answered(s.records[i], answer));
        }
      case Finish(sdkHandle, cancelled) =>
        var i := BySdkHandle(s.records, sdkHandle);
        if i < |s.records| {
          RemovalKeepsApart(s, i);
        }
      case Connection(handle, connId, status) =>
        var i := ByConnection(s.records, handle, connId);
        if i < |s.records| {
          RemovalKeepsApart(s, i);
          FewerKeepsApart(s, i, s.records[i].(connectionId := connId));
        }
    }
  }

  lemma PreparedApart(s: State, blank: Record, committee: seq<string>)
    requires HandlesApart(s)
    ensures HandlesApart(Prepared(s, blank, committee))
  {
    var r := Prepared(s, blank, committee).records;
    assert forall i :: 0 <= i < |s.records| ==> r[i] == s.records[i];
    assert forall h :: h in r[|s.records|].outstanding ==> s.counter <= h < s.counter + |committee|;
  }

  lemma FewerKeepsApart(s: State, i: nat, r: Record)
    requires HandlesApart(s) && i < |s.records| && Distinct(r.outstanding)
    requires forall h :: h in r.outstanding ==> h in s.records[i].outstanding
    ensures HandlesApart(s.(records := s.records[i := r]))
  {
  }

  /** Over every run, whatever answers arrive. */
  lemma {:induction false} AlwaysApart(events: seq<Event>)
    ensures HandlesApart(Run(START, events))
  {
    if events != [] {
      AlwaysApart(events[..|events| - 1]);
      ExecKeepsApart(Run(START, events[..|events| - 1]), events[|events| - 1]);
    }
  }

  // ----- each bootstrap on its own -----

  /** What matters of a record for its completion. */
  datatype Progress = Progress(sdkHandle: int, bootstrapHandle: int, outstanding: seq<nat>, received: seq<LinkInfo>, written: seq<Written>)

  function ProgressOf(r: Record, written: seq<Written>): Progress {
    Progress(r.sdkHandle, r.bootstrapHandle, r.outstanding, r.receivedLinks, written)
  }

  function SoloStep(p: Progress, e: Event): Progress {
    if e.Respond? && e.answer.messageHandle in p.outstanding then
      var left := Without(p.outstanding, e.answer.messageHandle);
      var received := p.received + Links(e.answer);
      p.(outstanding := left, received := received,
         written := if left == [] then p.written + [Written(p.sdkHandle, p.bootstrapHandle, received)] else p.written)
    else p
  }

  /** One bootstrap that sees all answers as if there were no other. */
  function Solo(p: Progress, events: seq<Event>): Progress {
    if events == [] then p else SoloStep(Solo(p, events[..|events| - 1]), events[|events| - 1])
  }

  /** The configurations written for one bootstrap. */
  function WrittenFor(written: seq<Written>, sdkHandle: int): seq<Written> {
    if written == [] then []
    else
      var before := WrittenFor(written[..|written| - 1], sdkHandle);
      var last := written[|written| - 1];
      if last.sdkHandle == sdkHandle then before + [last] else before
  }

  /**
   * A bootstrap that is still recorded has got exactly as far as it would alone; one that was
   * dropped had at most those configurations written.
   */
  ghost predicate GotAsFar(s: State, p: Progress) {
    && (forall i :: 0 <= i < |s.records| && s.records[i].sdkHandle == p.sdkHandle ==>
          ProgressOf(s.records[i], WrittenFor(s.written, p.sdkHandle)) == p)
    && WrittenFor(s.written, p.sdkHandle) <= p.written
  }

  predicate DistinctBootstraps(records: seq<Record>) {
    forall i, j :: 0 <= i < j < |records| ==> records[i].sdkHandle != records[j].sdkHandle
  }

  lemma RespondMatchesSolo(s: State, p: Progress, e: Event)
    requires HandlesApart(s) && DistinctBootstraps(s.records) && GotAsFar(s, p) && e.Respond?
    ensures GotAsFar(Exec(s, e), SoloStep(p, e)) && DistinctBootstraps(Exec(s, e).records)
  {
    var s' := Exec(s, e);
    var k := Holder(s.records, e.answer.messageHandle);
    if k < |s.records| {
      assert s'.written == s.written || s'.written[..|s.written|] == s.written;
    }
  }

  lemma RemovalMatchesSolo(s: State, p: Progress, at: nat)
    requires DistinctBootstraps(s.records) && GotAsFar(s, p) && at < |s.records|
    ensures GotAsFar(s.(records := RemoveAt(s.records, at)), p)
    ensures DistinctBootstraps(RemoveAt(s.records, at))
  {
    var r := RemoveAt(s.records, at);
    assert forall j :: 0 <= j < |r| ==> r[j] == s.records[if j < at then j else j + 1];
  }

  lemma ExecMatchesSolo(s: State, p: Progress, e: Event)
    requires HandlesApart(s) && DistinctBootstraps(s.records) && GotAsFar(s, p)
    requires e.Prepare? ==> e.blank.sdkHandle != p.sdkHandle && Unseen(s, e.blank.sdkHandle)
    ensures GotAsFar(Exec(s, e), SoloStep(p, e)) && DistinctBootstraps(Exec(s, e).records)
  {
    match e {
      case Prepare(blank, committee) =>
      case Respond(answer) =>
        RespondMatchesSolo(s, p, e);
      case Finish(sdkHandle, cancelled) =>
        var i := BySdkHandle(s.records, sdkHandle);
        if i < |s.records| {
          RemovalMatchesSolo(s, p, i);
        }
      case Connection(handle, connId, status) =>
        var i := ByConnection(s.records, handle, connId);
        if i < |s.records| {
          RemovalMatchesSolo(s, p, i);
        }
    }
  }

  predicate Unseen(s: State, sdkHandle: int) {
    forall i :: 0 <= i < |s.records| ==> s.records[i].sdkHandle != sdkHandle
  }

  /** The SDK never reuses the handle of a prepareToBootstrap call. */
  predicate FreshHandles(events: seq<Event>) {
    forall k, l :: 0 <= k < l < |events| && events[k].Prepare? && events[l].Prepare? ==>
      events[k].blank.sdkHandle != events[l].blank.sdkHandle
  }

  /** Whatever is recorded or written belongs to a bootstrap that was prepared. */
  lemma {:induction false} Origins(events: seq<Event>, sdkHandle: int)
    requires forall k :: 0 <= k < |events| && events[k].Prepare? ==> events[k].blank.sdkHandle != sdkHandle
    ensures Unseen(Run(START, events), sdkHandle)
    ensures WrittenFor(Run(START, events).written, sdkHandle) == []
  {
    if events != [] {
      var front, e := events[..|events| - 1], events[|events| - 1];
      Origins(front, sdkHandle);
      var s, s' := Run(START, front), Run(START, events);
      assert e == events[|events| - 1];
      assert s'.written == s.written || s'.written[..|s.written|] == s.written;
    }
  }

  /** The progress of a bootstrap right after it was prepared in state `s`. */
  function Begun(s: State, e: Event): Progress
    requires e.Prepare?
  {
    Progress(e.blank.sdkHandle, e.blank.bootstrapHandle, Handles(s.counter, |e.committee|), e.blank.receivedLinks, [])
  }

  lemma BegunAsFar(s: State, e: Event)
    requires e.Prepare? && Unseen(s, e.blank.sdkHandle) && DistinctBootstraps(s.records)
    requires WrittenFor(s.written, e.blank.sdkHandle) == []
    ensures GotAsFar(Exec(s, e), Begun(s, e)) && DistinctBootstraps(Exec(s, e).records)
  {
  }

  lemma {:induction false} AlwaysDistinct(events: seq<Event>)
    requires FreshHandles(events)
    ensures DistinctBootstraps(Run(START, events).records)
  {
    if events != [] {
      var front, e := events[..|events| - 1], events[|events| - 1];
      AlwaysDistinct(front);
      AlwaysApart(front);
      var s := Run(START, front);
      if e.Prepare? {
        assert e == events[|events| - 1];
        Origins(front, e.blank.sdkHandle);
        BegunAsFar(s, e);
      } else {
        RecordsKeepHandles(s, e);
      }
    }
  }

  lemma RecordsKeepHandles(s: State, e: Event)
    requires DistinctBootstraps(s.records) && !e.Prepare?
    ensures DistinctBootstraps(Exec(s, e).records)
  {
    if e.Finish? && BySdkHandle(s.records, e.sdkHandle) < |s.records| {
      RemovalKeepsDistinct(s.records, BySdkHandle(s.records, e.sdkHandle));
    }
    if e.Connection? && ByConnection(s.records, e.handle, e.connId) < |s.records| {
      RemovalKeepsDistinct(s.records, ByConnection(s.records, e.handle, e.connId));
    }
  }

  lemma RemovalKeepsDistinct(records: seq<Record>, at: nat)
    requires DistinctBootstraps(records) && at < |records|
    ensures DistinctBootstraps(RemoveAt(records, at))
  {
    var r := RemoveAt(records, at);
    assert forall j :: 0 <= j < |r| ==> r[j] == records[if j < at then j else j + 1];
  }

  /** Concurrent bootstraps do not disturb each other: each proceeds as it would alone. */
  lemma {:induction false} RunsAsIfAlone(events: seq<Event>, k: nat)
    requires FreshHandles(events) && k < |events| && events[k].Prepare?
    ensures GotAsFar(Run(START, events), Solo(Begun(Run(START, events[..k]), events[k]), events[k + 1..]))
    decreases |events|
  {
    var front, e := events[..|events| - 1], events[|events| - 1];
    var s := Run(START, front);
    AlwaysDistinct(front);
    if k == |events| - 1 {
      assert front == events[..k] && events[k + 1..] == [];
      Origins(front, e.blank.sdkHandle);
      BegunAsFar(s, e);
    } else {
      assert front[k] == events[k] && front[..k] == events[..k];
      RunsAsIfAlone(front, k);
      AlwaysApart(front);
      var later := events[k + 1..];
      assert later[..|later| - 1] == front[k + 1..] && later[|later| - 1] == e;
      if e.Prepare? {
        Origins(front, e.blank.sdkHandle);
        assert events[k].blank.sdkHandle != events[|events| - 1].blank.sdkHandle;
      }
      var p := Begun(Run(START, events[..k]), events[k]);
      SoloKeepsName(p, front[k + 1..]);
      ExecMatchesSolo(s, Solo(p, front[k + 1..]), e);
    }
  }

  lemma {:induction false} SoloKeepsName(p: Progress, events: seq<Event>)
    ensures Solo(p, events).sdkHandle == p.sdkHandle && Solo(p, events).bootstrapHandle == p.bootstrapHandle
  {
    if events != [] {
      SoloKeepsName(p, events[..|events| - 1]);
    }
  }

  // ----- when a bootstrap is complete -----

  predicate AnsweredIn(events: seq<Event>, handle: nat) {
    exists k :: 0 <= k < |events| && events[k].Respond? && events[k].answer.messageHandle == handle
  }

  /** The event at this position is the first answer to one of these handles. */
  predicate IsFirstAnswer(events: seq<Event>, handles: seq<nat>, k: nat) {
    && k < |events| && events[k].Respond? && events[k].answer.messageHandle in handles
    && forall j :: 0 <= j < k && events[j].Respond? ==> events[j].answer.messageHandle != events[k].answer.messageHandle
  }

  /** A place in an answer: the event, and the position in its lists. */
  datatype Place = Place(event: nat, position: nat)

  /** The places of the links that count: those of first answers with as many addresses as channels. */
  predicate Counts(events: seq<Event>, handles: seq<nat>, p: Place) {
    && IsFirstAnswer(events, handles, p.event)
    && |events[p.event].answer.addresses| == |events[p.event].answer.channels|
    && p.position < |events[p.event].answer.channels|
  }

  /** The link at a place. */
  function LinkAt(events: seq<Event>, p: Place): LinkInfo
    requires p.event < |events| && events[p.event].Respond?
    requires p.position < |events[p.event].answer.addresses| && p.position < |events[p.event].answer.channels|
  {
    var a := events[p.event].answer;
    LinkInfo(a.addresses[p.position], a.channels[p.position], a.persona)
  }

  predicate Earlier(p: Place, q: Place) {
    p.event < q.event || (p.event == q.event && p.position < q.position)
  }

  /** All places that count, each once and in order. */
  ghost predicate AreThePlaces(events: seq<Event>, handles: seq<nat>, places: seq<Place>) {
    && (forall p :: p in places <==> Counts(events, handles, p))
    && (forall i, j :: 0 <= i < j < |places| ==> Earlier(places[i], places[j]))
  }

  /** The places in one event. */
  function PlacesIn(events: seq<Event>, handles: seq<nat>, k: nat): seq<Place> {
    if IsFirstAnswer(events, handles, k) && |events[k].answer.addresses| == |events[k].answer.channels|
    then seq(|events[k].answer.channels|, i requires 0 <= i < |events[k].answer.channels| => Place(k, i)) else []
  }

  /** The places, collected event by event. */
  function Places(events: seq<Event>, handles: seq<nat>): seq<Place> {
    if events == [] then []
    else Places(events[..|events| - 1], handles) + PlacesIn(events, handles, |events| - 1)
  }

  lemma PlacesInAre(events: seq<Event>, handles: seq<nat>, k: nat)
    ensures var here := PlacesIn(events, handles, k);
      && (forall p :: p in here <==> p.event == k && Counts(events, handles, p))
      && (forall i, j :: 0 <= i < j < |here| ==> Earlier(here[i], here[j]))
  {
    var here := PlacesIn(events, handles, k);
    forall p: Place | p.event == k && Counts(events, handles, p) ensures p in here {
      assert here[p.position] == p;
    }
  }

  lemma OrderedAppend(front: seq<Place>, here: seq<Place>, k: nat)
    requires forall i, j :: 0 <= i < j < |front| ==> Earlier(front[i], front[j])
    requires forall i, j :: 0 <= i < j < |here| ==> Earlier(here[i], here[j])
    requires forall i :: 0 <= i < |front| ==> front[i].event < k
    requires forall i :: 0 <= i < |here| ==> here[i].event == k
    ensures var all := front + here; forall i, j :: 0 <= i < j < |all| ==> Earlier(all[i], all[j])
  {
  }

  lemma {:induction false} PlacesAreAll(events: seq<Event>, handles: seq<nat>)
    ensures AreThePlaces(events, handles, Places(events, handles))
  {
    if events != [] {
      var k := |events| - 1;
      var front, here := Places(events[..k], handles), PlacesIn(events, handles, k);
      PlacesAreAll(events[..k], handles);
      PlacesInAre(events, handles, k);
      forall i | 0 <= i < |front| ensures front[i].event < k {
        assert front[i] in front;
      }
      forall i | 0 <= i < |here| ensures here[i].event == k {
        assert here[i] in here;
      }
      OrderedAppend(front, here, k);
      forall p: Place ensures p in front + here <==> Counts(events, handles, p) {
        CountsInFront(events, handles, p);
      }
    }
  }

  lemma CountsInFront(events: seq<Event>, handles: seq<nat>, p: Place)
    requires events != []
    ensures Counts(events[..|events| - 1], handles, p) <==> p.event < |events| - 1 && Counts(events, handles, p)
  {
    var front := events[..|events| - 1];
    assert forall k :: 0 <= k < |front| ==> front[k] == events[k];
  }

  predicate AllCount(events: seq<Event>, handles: seq<nat>, places: seq<Place>) {
    forall i :: 0 <= i < |places| ==> Counts(events, handles, places[i])
  }

  function LinksAt(events: seq<Event>, handles: seq<nat>, places: seq<Place>): (links: seq<LinkInfo>)
    requires AllCount(events, handles, places)
    ensures |links| == |places|
    ensures forall i :: 0 <= i < |places| ==> links[i] == LinkAt(events, places[i])
  {
    seq(|places|, i requires 0 <= i < |places| => LinkAt(events, places[i]))
  }

  lemma PlacesCount(events: seq<Event>, handles: seq<nat>)
    ensures AllCount(events, handles, Places(events, handles))
  {
    PlacesAreAll(events, handles);
    var places := Places(events, handles);
    forall i | 0 <= i < |places| ensures Counts(events, handles, places[i]) {
      assert places[i] in places;
    }
  }

  /** The links of the first answer to each handle, in the order the answers came. */
  function FirstAnswers(events: seq<Event>, handles: seq<nat>): seq<LinkInfo> {
    PlacesCount(events, handles);
    LinksAt(events, handles, Places(events, handles))
  }

  /** The same places give the same links in a longer run. */
  lemma LinksInFront(events: seq<Event>, handles: seq<nat>, places: seq<Place>)
    requires events != [] && AllCount(events[..|events| - 1], handles, places)
    ensures AllCount(events, handles, places)
    ensures LinksAt(events, handles, places) == LinksAt(events[..|events| - 1], handles, places)
  {
    forall i | 0 <= i < |places| ensures Counts(events, handles, places[i]) {
      CountsInFront(events, handles, places[i]);
    }
  }

  lemma LinksInEvent(events: seq<Event>, handles: seq<nat>, k: nat)
    requires IsFirstAnswer(events, handles, k)
    ensures AllCount(events, handles, PlacesIn(events, handles, k))
    ensures LinksAt(events, handles, PlacesIn(events, handles, k)) == Links(events[k].answer)
  {
  }

  lemma LinksConcat(events: seq<Event>, handles: seq<nat>, a: seq<Place>, b: seq<Place>)
    requires AllCount(events, handles, a) && AllCount(events, handles, b)
    ensures AllCount(events, handles, a + b)
    ensures LinksAt(events, handles, a + b) == LinksAt(events, handles, a) + LinksAt(events, handles, b)
  {
  }

  lemma FirstMeansUnanswered(events: seq<Event>, handles: seq<nat>)
    requires events != []
    ensures
      var front, e := events[..|events| - 1], events[|events| - 1];
      IsFirstAnswer(events, handles, |events| - 1) <==>
        e.Respond? && e.answer.messageHandle in handles && !AnsweredIn(front, e.answer.messageHandle)
  {
    var front, e := events[..|events| - 1], events[|events| - 1];
    assert forall j :: 0 <= j < |front| ==> front[j] == events[j];
  }

  /** One event more adds the links of its answer, if it is a first one. */
  lemma FirstAnswersNext(events: seq<Event>, handles: seq<nat>)
    requires events != []
    ensures
      var front, e := events[..|events| - 1], events[|events| - 1];
      FirstAnswers(events, handles) == FirstAnswers(front, handles) +
        if e.Respond? && e.answer.messageHandle in handles && !AnsweredIn(front, e.answer.messageHandle)
        then Links(e.answer) else []
  {
    var front, k := events[..|events| - 1], |events| - 1;
    FirstMeansUnanswered(events, handles);
    PlacesCount(front, handles);
    LinksInFront(events, handles, Places(front, handles));
    if IsFirstAnswer(events, handles, k) {
      LinksInEvent(events, handles, k);
      LinksConcat(events, handles, Places(front, handles), PlacesIn(events, handles, k));
    } else {
      assert Places(events, handles) == Places(front, handles);
    }
  }

  /** The link is given at this place. */
  predicate Gives(events: seq<Event>, handles: seq<nat>, p: Place, link: LinkInfo) {
    Counts(events, handles, p) && LinkAt(events, p) == link
  }

  ghost predicate GivenSomewhere(events: seq<Event>, handles: seq<nat>, link: LinkInfo) {
    exists p :: Gives(events, handles, p, link)
  }

  lemma FirstAnswersGive(events: seq<Event>, handles: seq<nat>, link: LinkInfo)
    ensures link in FirstAnswers(events, handles) <==> GivenSomewhere(events, handles, link)
  {
    PlacesCount(events, handles);
    PlacesAreAll(events, handles);
    var places, links := Places(events, handles), FirstAnswers(events, handles);
    if link in links {
      var i :| 0 <= i < |links| && links[i] == link;
      assert Gives(events, handles, places[i], link);
    }
    if p :| Gives(events, handles, p, link) {
      var i :| 0 <= i < |places| && places[i] == p;
      assert links[i] == link;
    }
  }

  lemma AnsweredSoFar(events: seq<Event>, handle: nat)
    requires events != []
    ensures
      var front, e := events[..|events| - 1], events[|events| - 1];
      AnsweredIn(events, handle) <==> AnsweredIn(front, handle) || (e.Respond? && e.answer.messageHandle == handle)
  {
    var front := events[..|events| - 1];
    if AnsweredIn(front, handle) {
      var k :| 0 <= k < |front| && front[k].Respond? && front[k].answer.messageHandle == handle;
      assert events[k] == front[k];
    }
    if AnsweredIn(events, handle) {
      var k :| 0 <= k < |events| && events[k].Respond? && events[k].answer.messageHandle == handle;
      assert k < |front| ==> front[k] == events[k];
    }
  }

  predicate Complete(events: seq<Event>, handles: seq<nat>) {
    handles != [] && forall h :: h in handles ==> AnsweredIn(events, h)
  }

  /** `left` are the handles without an answer. */
  ghost predicate Unanswered(left: seq<nat>, handles: seq<nat>, events: seq<Event>) {
    && Distinct(left)
    && forall h :: h in left <==> h in handles && !AnsweredIn(events, h)
  }

  /** Alone, a bootstrap waits for exactly the unanswered handles. */
  lemma {:induction false} SoloWaits(p: Progress, events: seq<Event>)
    requires Distinct(p.outstanding)
    ensures Unanswered(Solo(p, events).outstanding, p.outstanding, events)
  {
    if events != [] {
      var front, e := events[..|events| - 1], events[|events| - 1];
      SoloWaits(p, front);
      forall h ensures AnsweredIn(events, h) <==> AnsweredIn(front, h) || (e.Respond? && e.answer.messageHandle == h) {
        AnsweredSoFar(events, h);
      }
      var left := Solo(p, front).outstanding;
      if e.Respond? && e.answer.messageHandle in left {
        WithoutMembers(left, e.answer.messageHandle);
      }
    }
  }

  /** What has become of a bootstrap that has received these links. */
  ghost predicate Stands(p: Progress, q: Progress, links: seq<LinkInfo>) {
    && q.sdkHandle == p.sdkHandle && q.bootstrapHandle == p.bootstrapHandle
    && q.received == p.received + links
    && q.written == if p.outstanding != [] && q.outstanding == [] then [Written(p.sdkHandle, p.bootstrapHandle, q.received)] else []
  }

  lemma StandsAfter(p: Progress, q: Progress, e: Event, links: seq<LinkInfo>)
    requires Stands(p, q, links) && (q.outstanding != [] ==> p.outstanding != [])
    ensures Stands(p, SoloStep(q, e),
      links + if e.Respond? && e.answer.messageHandle in q.outstanding then Links(e.answer) else [])
  {
    if e.Respond? && e.answer.messageHandle in q.outstanding {
      assert p.received + links + Links(e.answer) == p.received + (links + Links(e.answer));
    }
  }

  /** It collects the first answers in order and writes once, when none is left to come. */
  lemma {:induction false} SoloOutcome(p: Progress, events: seq<Event>)
    requires Distinct(p.outstanding) && p.written == []
    ensures Stands(p, Solo(p, events), FirstAnswers(events, p.outstanding))
  {
    if events == [] {
      assert FirstAnswers(events, p.outstanding) == [];
    } else {
      var front, e := events[..|events| - 1], events[|events| - 1];
      var q := Solo(p, front);
      SoloOutcome(p, front);
      SoloWaits(p, front);
      assert q.outstanding != [] ==> q.outstanding[0] in p.outstanding;
      StandsAfter(p, q, e, FirstAnswers(front, p.outstanding));
      FirstAnswersNext(events, p.outstanding);
    }
  }

  lemma AllAnswered(p: Progress, events: seq<Event>)
    requires Distinct(p.outstanding)
    ensures p.outstanding != [] && Solo(p, events).outstanding == [] <==> Complete(events, p.outstanding)
  {
    SoloWaits(p, events);
    var left := Solo(p, events).outstanding;
    if left != [] {
      assert left[0] in left;
    }
  }

  /** The handles of the requests sent for the bootstrap prepared in event `k`. */
  function HandlesOf(events: seq<Event>, k: nat): (h: seq<nat>)
    requires k < |events| && events[k].Prepare?
    ensures Distinct(h) && |h| == |events[k].committee|
  {
    Handles(Run(START, events[..k]).counter, |events[k].committee|)
  }

  /** The requests of a run are numbered from one, in the order in which they were sent. */
  ghost predicate Numbered(s: State) {
    s.counter == |s.sent| + 1 && forall n :: 0 <= n < |s.sent| ==> s.sent[n].messageHandle == n + 1
  }

  lemma {:induction false} AlwaysNumbered(events: seq<Event>)
    ensures Numbered(Run(START, events))
  {
    if events != [] {
      AlwaysNumbered(events[..|events| - 1]);
    }
  }

  lemma {:induction false} SentStays(events: seq<Event>, n: nat)
    requires n <= |events|
    ensures Run(START, events[..n]).sent <= Run(START, events).sent
    decreases |events|
  {
    if n == |events| {
      assert events[..n] == events;
    } else {
      assert events[..|events| - 1][..n] == events[..n];
      SentStays(events[..|events| - 1], n);
    }
  }

  /**
   * In every run, the i-th member of a bootstrap's committee has been asked under the i-th of its
   * handles, and this is the only request under that handle.
   */
  lemma EachMemberAsked(events: seq<Event>, k: nat, i: nat, n: nat)
    requires k < |events| && events[k].Prepare? && i < |events[k].committee|
    ensures
      var s, handle := Run(START, events), HandlesOf(events, k)[i];
      && 1 <= handle <= |s.sent|
      && s.sent[handle - 1] == Request(events[k].committee[i], events[k].blank.bootstrapHandle, handle)
      && (n < |s.sent| && s.sent[n].messageHandle == handle ==> n == handle - 1)
  {
    AlwaysNumbered(events);
    AlwaysNumbered(events[..k]);
    SentStays(events, k + 1);
    assert events[..k + 1][..k] == events[..k];
    var before, after := Run(START, events[..k]), Run(START, events[..k + 1]);
    assert after.sent[|before.sent| + i] == Request(events[k].committee[i], events[k].blank.bootstrapHandle, before.counter + i);
  }

  /** The links its record starts with, and those of the first answer to each of its requests. */
  function LinksOf(events: seq<Event>, k: nat): seq<LinkInfo>
    requires k < |events| && events[k].Prepare?
  {
    events[k].blank.receivedLinks + FirstAnswers(events[k + 1..], HandlesOf(events, k))
  }

  function ConfigOf(events: seq<Event>, k: nat): Written
    requires k < |events| && events[k].Prepare?
  {
    Written(events[k].blank.sdkHandle, events[k].blank.bootstrapHandle, LinksOf(events, k))
  }

  /**
   * In every run with fresh SDK handles: a bootstrap's configuration is written at most once; it
   * holds the links the record started with and, in order, those of the first well-formed answer
   * to each of its requests; and while the bootstrap is recorded it has been written exactly if
   * there were requests and all of them have been answered.
   */
  lemma WrittenOnceWhenComplete(events: seq<Event>, k: nat, i: nat)
    requires FreshHandles(events) && k < |events| && events[k].Prepare?
    ensures
      var written := WrittenFor(Run(START, events).written, events[k].blank.sdkHandle);
      written == [] || (written == [ConfigOf(events, k)] && Complete(events[k + 1..], HandlesOf(events, k)))
    ensures
      var s := Run(START, events);
      var h := events[k].blank.sdkHandle;
      i < |s.records| && s.records[i].sdkHandle == h ==>
        && s.records[i].receivedLinks == LinksOf(events, k)
        && (WrittenFor(s.written, h) != [] <==> Complete(events[k + 1..], HandlesOf(events, k)))
  {
    var q := FinalProgress(events, k);
    RunsAsIfAlone(events, k);
    ReadOff(Run(START, events), q, i);
  }

  lemma FinalProgress(events: seq<Event>, k: nat) returns (q: Progress)
    requires k < |events| && events[k].Prepare?
    ensures q == Solo(Begun(Run(START, events[..k]), events[k]), events[k + 1..])
    ensures q.sdkHandle == events[k].blank.sdkHandle && q.received == LinksOf(events, k)
    ensures q.written == if Complete(events[k + 1..], HandlesOf(events, k)) then [ConfigOf(events, k)] else []
  {
    var p := Begun(Run(START, events[..k]), events[k]);
    q := Solo(p, events[k + 1..]);
    assert p.outstanding == HandlesOf(events, k);
    SoloOutcome(p, events[k + 1..]);
    SoloKeepsName(p, events[k + 1..]);
    AllAnswered(p, events[k + 1..]);
  }

  lemma ReadOff(s: State, q: Progress, i: nat)
    requires GotAsFar(s, q) && |q.written| <= 1
    ensures WrittenFor(s.written, q.sdkHandle) == [] || WrittenFor(s.written, q.sdkHandle) == q.written
    ensures i < |s.records| && s.records[i].sdkHandle == q.sdkHandle ==>
      s.records[i].receivedLinks == q.received && WrittenFor(s.written, q.sdkHandle) == q.written
  {
  }

  /** Without an entrance committee no answer ever comes, and no configuration is written. */
  lemma NothingWrittenWithoutCommittee(events: seq<Event>, k: nat)
    requires FreshHandles(events) && k < |events| && events[k].Prepare? && events[k].committee == []
    ensures WrittenFor(Run(START, events).written, events[k].blank.sdkHandle) == []
  {
    WrittenOnceWhenComplete(events, k, 0);
  }

  // ----- the links by channel -----

  function OfChannel(links: seq<LinkInfo>, channel: string): seq<LinkInfo> {
    if links == [] then []
    else
      var before := OfChannel(links[..|links| - 1], channel);
      var last := links[|links| - 1];
      if last.channel == channel then before + [last] else before
  }

  /** The grouping in writeConfigs: a set of channels, then one list for each. */
  method GroupByChannel(links: seq<LinkInfo>) returns (config: map<string, seq<LinkInfo>>)
    ensures forall c :: c in config <==> exists i :: 0 <= i < |links| && links[i].channel == c
    ensures forall c :: c in config ==> config[c] == OfChannel(links, c)
  {
    var channels := set i | 0 <= i < |links| :: links[i].channel;
    config := map[];
    var rest := channels;
    while rest != {}
      invariant rest <= channels && config.Keys == channels - rest
      invariant forall c :: c in config ==> config[c] == OfChannel(links, c)
      decreases rest
    {
      var channel :| channel in rest;
      var ofChannel := [];
      var i := 0;
      while i < |links|
        invariant 0 <= i <= |links|
        invariant ofChannel == OfChannel(links[..i], channel)
      {
        assert links[..i + 1][..i] == links[..i];
        if channel == links[i].channel {
          ofChannel := ofChannel + [links[i]];
        }
        i := i + 1;
      }
      assert links[..i] == links;
      config := config[channel := ofChannel];
      rest := rest - {channel};
    }
  }

  /** Every received link is in the list of its own channel, as often as it was received, and in no other. */
  lemma {:induction false} GroupingConserves(links: seq<LinkInfo>, channel: string, link: LinkInfo)
    ensures multiset(OfChannel(links, channel))[link] == if link.channel == channel then multiset(links)[link] else 0
  {
    if links != [] {
      GroupingConserves(links[..|links| - 1], channel, link);
      assert links == links[..|links| - 1] + [links[|links| - 1]];
    }
  }

  /** Links stay in the order in which they were received. */
  lemma {:induction false} GroupingKeepsOrder(earlier: seq<LinkInfo>, later: seq<LinkInfo>, channel: string)
    ensures OfChannel(earlier + later, channel) == OfChannel(earlier, channel) + OfChannel(later, channel)
  {
    if later == [] {
      assert earlier + later == earlier;
    } else {
      GroupingKeepsOrder(earlier, later[..|later| - 1], channel);
      assert (earlier + later)[..|earlier + later| - 1] == earlier + later[..|later| - 1];
    }
  }

  /**
   * In a written configuration an address stands under a channel exactly if the record started with
   * it there, or some committee member's first answer gave it for that channel, position by position.
   */
  lemma UnderItsChannel(events: seq<Event>, k: nat, channel: string, link: LinkInfo)
    requires k < |events| && events[k].Prepare?
    ensures link in OfChannel(ConfigOf(events, k).links, channel) <==>
      && link.channel == channel
      && (link in events[k].blank.receivedLinks || GivenSomewhere(events[k + 1..], HandlesOf(events, k), link))
  {
    FirstAnswersGive(events[k + 1..], HandlesOf(events, k), link);
    InItsChannel(ConfigOf(events, k).links, channel, link);
  }

  lemma InItsChannel(links: seq<LinkInfo>, channel: string, link: LinkInfo)
    ensures link in OfChannel(links, channel) <==> link.channel == channel && link in links
  {
    GroupingConserves(links, channel, link);
    assert link in OfChannel(links, channel) <==> link in multiset(OfChannel(links, channel));
    assert link in links <==> link in multiset(links);
  }
}
