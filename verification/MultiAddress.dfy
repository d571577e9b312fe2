/**
 * Links loaded from the addresses of several peers (addPendingMultiAddressLoads,
 * handleCreateMulticastRecvResponse and generateRequestId of LinkWizard.cpp): a link is loaded once
 * every peer that was asked has answered with an address.
 */
module MultiAddress {
  import opened Wrappers
  import D = Decimal

  /** One loadLinkAddresses call. */
  datatype Load = Load(requestId: string, channel: string, addresses: seq<string>, uuids: seq<string>)

  function RequestId(self: string, n: nat): string { self + D.ToString(n) }

  /** A counter value can be read off the request ID. */
  lemma RequestIdsDiffer(self: string, m: nat, n: nat)
    ensures RequestId(self, m) == RequestId(self, n) <==> m == n
  {
    if RequestId(self, m) == RequestId(self, n) {
      assert D.ToString(m) == RequestId(self, m)[|self|..] == D.ToString(n);
      D.ParsePrinted(m, 0, m + n);
      D.ParsePrinted(n, 0, m + n);
    }
  }

  /** The peers asked, each without an address so far. */
  function Blank(self: string, uuids: seq<string>): (m: map<string, string>)
    ensures forall u :: u in m <==> u in uuids && u != self
    ensures forall u :: u in m ==> m[u] == ""
  {
    map u | u in uuids && u != self :: ""
  }

  predicate AllGiven(addresses: map<string, string>) {
    forall u :: u in addresses ==> addresses[u] != ""
  }

  /** Peers and addresses side by side, each peer once, in some order. */
  ghost predicate Aligned(l: Load, addresses: map<string, string>) {
    && |l.uuids| == |l.addresses|
    && Distinct(l.uuids)
    && (forall i :: 0 <= i < |l.uuids| ==> l.uuids[i] in addresses && l.addresses[i] == addresses[l.uuids[i]])
    && (forall u :: u in addresses ==> u in l.uuids)
  }

  /** What a response does: it is entered, and a load is issued when no address is missing. */
  ghost predicate Responded(pending: map<string, map<string, string>>, uuid: string, requestId: string, channel: string,
                            address: string, pending': map<string, map<string, string>>, load: Option<Load>) {
    if requestId !in pending then pending' == pending && load == None
    else
      var addresses := pending[requestId][uuid := address];
      && pending' == pending[requestId := addresses]
      && (load.Some? <==> AllGiven(addresses))
      && (load.Some? ==> load.value.requestId == requestId && load.value.channel == channel && Aligned(load.value, addresses))
  }

  class Loads {
    const self: string
    var currentRequestId: nat
    var pendingMultiAddressLoads: map<string, map<string, string>>

    constructor (self: string)
      ensures this.self == self && currentRequestId == 0 && pendingMultiAddressLoads == map[]
    {
      this.self := self;
      currentRequestId, pendingMultiAddressLoads := 0, map[];
    }

    /** emplace would keep an entry of the same ID. */
    method AddPendingMultiAddressLoads(uuidList: seq<string>) returns (requestId: string)
      modifies this
      ensures requestId == RequestId(self, old(currentRequestId)) && currentRequestId == old(currentRequestId) + 1
      ensures pendingMultiAddressLoads ==
        if requestId in old(pendingMultiAddressLoads) then old(pendingMultiAddressLoads)
        else old(pendingMultiAddressLoads)[requestId := Blank(self, uuidList)]
    {
      requestId := RequestId(self, currentRequestId);
      currentRequestId := currentRequestId + 1;
      var uuidAddressMap: map<string, string> := map[];
      var i := 0;
      while i < |uuidList|
        invariant 0 <= i <= |uuidList|
        invariant uuidAddressMap == Blank(self, uuidList[..i])
      {
        if uuidList[i] != self {
          uuidAddressMap := uuidAddressMap[uuidList[i] := ""];
        }
        i := i + 1;
      }
      assert uuidList[..i] == uuidList;
      if requestId !in pendingMultiAddressLoads {
        pendingMultiAddressLoads := pendingMultiAddressLoads[requestId := uuidAddressMap];
      }
    }

    /** The loop over the peers, in the arbitrary order of the map; it stops at a missing address. */
    method HandleCreateMulticastRecvResponse(uuid: string, requestId: string, channelGid: string, linkAddress: string)
      returns (load: Option<Load>)
      modifies this`pendingMultiAddressLoads
      ensures Responded(old(pendingMultiAddressLoads), uuid, requestId, channelGid, linkAddress, pendingMultiAddressLoads, load)
    {
      if requestId !in pendingMultiAddressLoads {
        return None;
      }
      var uuidAddressMap := pendingMultiAddressLoads[requestId][uuid := linkAddress];
      pendingMultiAddressLoads := pendingMultiAddressLoads[requestId := uuidAddressMap];
      var addressList: seq<string>, uuidList: seq<string> := [], [];
      var rest := uuidAddressMap.Keys;
      while rest != {}
        invariant rest <= uuidAddressMap.Keys
        invariant |uuidList| == |addressList| && Distinct(uuidList)
        invariant forall u :: u in uuidList <==> u in uuidAddressMap.Keys - rest
        invariant forall i :: 0 <= i < |uuidList| ==>
          uuidList[i] in uuidAddressMap && addressList[i] == uuidAddressMap[uuidList[i]] && addressList[i] != ""
        decreases rest
      {
        var u :| u in rest;
        if uuidAddressMap[u] == "" {
          return None;
        }
        assert u !in uuidList;
        uuidList := uuidList + [u];
        addressList := addressList + [uuidAddressMap[u]];
        rest := rest - {u};
      }
      forall u | u in uuidAddressMap ensures uuidAddressMap[u] != "" {
        assert u in uuidList;
      }
      load := Some(Load(requestId, channelGid, addressList, uuidList));
    }
  }

  // ----- runs -----

  datatype Event =
    | Ask(uuids: seq<string>)
    | Respond(uuid: string, requestId: string, channel: string, address: string)

  datatype State = State(counter: nat, pending: map<string, map<string, string>>)

  ghost predicate Step(self: string, s: State, e: Event, s': State, load: Option<Load>) {
    match e
    case Ask(uuids) =>
      var id := RequestId(self, s.counter);
      && load == None
      && s' == State(s.counter + 1, if id in s.pending then s.pending else s.pending[id := Blank(self, uuids)])
    case Respond(uuid, requestId, channel, address) =>
      s'.counter == s.counter && Responded(s.pending, uuid, requestId, channel, address, s'.pending, load)
  }

  ghost predicate IsHistory(self: string, events: seq<Event>, states: seq<State>, loads: seq<Option<Load>>) {
    && |states| == |events| + 1
    && |loads| == |events|
    && states[0] == State(0, map[])
    && forall k :: 0 <= k < |events| ==> Step(self, states[k], events[k], states[k + 1], loads[k])
  }

  /** Number of Ask events among the first `n`. */
  function Asks(events: seq<Event>, n: nat): nat
    requires n <= |events|
  {
    if n == 0 then 0 else Asks(events, n - 1) + if events[n - 1].Ask? then 1 else 0
  }

  /** The address a peer last gave for a request after event `from` and before event `n`; empty when it gave none. */
  function LastAddress(events: seq<Event>, from: nat, n: nat, requestId: string, uuid: string): string
    requires n <= |events|
    decreases n
  {
    if n <= from then ""
    else
      var e := events[n - 1];
      if e.Respond? && e.requestId == requestId && e.uuid == uuid then e.address
      else LastAddress(events, from, n - 1, requestId, uuid)
  }

  lemma {:induction false} CounterCounts(self: string, events: seq<Event>, states: seq<State>, loads: seq<Option<Load>>, n: nat)
    requires IsHistory(self, events, states, loads) && n <= |events|
    ensures states[n].counter == Asks(events, n)
  {
    if n > 0 {
      CounterCounts(self, events, states, loads, n - 1);
      assert Step(self, states[n - 1], events[n - 1], states[n], loads[n - 1]);
    }
  }

  /** Only IDs given out so far are pending. */
  lemma {:induction false} PendingGivenOut(self: string, events: seq<Event>, states: seq<State>, loads: seq<Option<Load>>, n: nat, later: nat)
    requires IsHistory(self, events, states, loads) && n <= |events| && later >= states[n].counter
    ensures RequestId(self, later) !in states[n].pending
  {
    if n > 0 {
      assert Step(self, states[n - 1], events[n - 1], states[n], loads[n - 1]);
      PendingGivenOut(self, events, states, loads, n - 1, later);
      RequestIdsDiffer(self, later, states[n - 1].counter);
    }
  }

  /** The request asked for in event `k`. */
  function IdOf(self: string, events: seq<Event>, k: nat): string
    requires k < |events|
  {
    RequestId(self, Asks(events, k))
  }

  predicate Answers(e: Event, requestId: string) { e.Respond? && e.requestId == requestId }

  /** Peer `u` answered the request after event `from` and before event `n`. */
  predicate HasAnswered(events: seq<Event>, from: nat, n: nat, requestId: string, u: string) {
    exists j :: from <= j < n && j < |events| && Answers(events[j], requestId) && events[j].uuid == u
  }

  /** What is on file for a request: the peers asked and those that answered, with the address each last gave. */
  ghost predicate OnFile(self: string, events: seq<Event>, s: State, k: nat, n: nat)
    requires k < n <= |events| && events[k].Ask?
  {
    var id := IdOf(self, events, k);
    && id in s.pending
    && (forall u :: u in s.pending[id] <==> (u in events[k].uuids && u != self) || HasAnswered(events, k + 1, n, id, u))
    && (forall u :: u in s.pending[id] ==> s.pending[id][u] == LastAddress(events, k + 1, n, id, u))
  }

  lemma {:induction false} AlwaysOnFile(self: string, events: seq<Event>, states: seq<State>, loads: seq<Option<Load>>, k: nat, n: nat)
    requires IsHistory(self, events, states, loads) && k < n <= |events| && events[k].Ask?
    ensures OnFile(self, events, states[n], k, n)
  {
    var s, s' := states[n - 1], states[n];
    assert Step(self, s, events[n - 1], s', loads[n - 1]);
    CounterCounts(self, events, states, loads, k);
    if k == n - 1 {
      PendingGivenOut(self, events, states, loads, k, s.counter);
    } else {
      AlwaysOnFile(self, events, states, loads, k, n - 1);
      if events[n - 1].Ask? {
        PendingGivenOut(self, events, states, loads, n - 1, s.counter);
      }
    }
  }

  /**
   * In every run, a load is issued only when every peer asked, other than this node, has given an
   * address; peers and addresses are aligned, and each address is the one its peer gave last.
   */
  lemma LoadsAreComplete(self: string, events: seq<Event>, states: seq<State>, loads: seq<Option<Load>>, k: nat, n: nat, u: string)
    requires IsHistory(self, events, states, loads) && k < n < |events| && events[k].Ask?
    requires loads[n].Some? && loads[n].value.requestId == IdOf(self, events, k)
    ensures
      var l := loads[n].value;
      && |l.uuids| == |l.addresses|
      && Distinct(l.uuids)
      && (u in events[k].uuids && u != self ==>
            exists i :: 0 <= i < |l.uuids| && l.uuids[i] == u && l.addresses[i] != ""
              && l.addresses[i] == LastAddress(events, k + 1, n + 1, l.requestId, u))
  {
    assert Step(self, states[n], events[n], states[n + 1], loads[n]);
    AlwaysOnFile(self, events, states, loads, k, n);
    AlwaysOnFile(self, events, states, loads, k, n + 1);
    var l := loads[n].value;
    if u in events[k].uuids && u != self {
      assert u in l.uuids;
      var i :| 0 <= i < |l.uuids| && l.uuids[i] == u;
    }
  }

  /** No load is issued under an ID that was not asked for. */
  lemma NoUnaskedLoad(self: string, events: seq<Event>, states: seq<State>, loads: seq<Option<Load>>, n: nat, later: nat)
    requires IsHistory(self, events, states, loads) && n < |events| && loads[n].Some? && later >= states[n].counter
    ensures loads[n].value.requestId != RequestId(self, later)
  {
    assert Step(self, states[n], events[n], states[n + 1], loads[n]);
    PendingGivenOut(self, events, states, loads, n, later);
  }

  // ----- when a load is issued -----

  /** With this event, every peer asked and every peer that answered has an address. */
  ghost predicate Completes(self: string, events: seq<Event>, k: nat, n: nat)
    requires k < |events| && events[k].Ask?
  {
    var id := IdOf(self, events, k);
    && k < n < |events|
    && Answers(events[n], id)
    && (forall u :: u in events[k].uuids && u != self ==> LastAddress(events, k + 1, n + 1, id, u) != "")
    && (forall j :: k < j <= n && Answers(events[j], id) ==> LastAddress(events, k + 1, n + 1, id, events[j].uuid) != "")
  }

  /** The n-th event issued a load for the request asked in event `k`. */
  ghost predicate LoadedBy(self: string, events: seq<Event>, loads: seq<Option<Load>>, k: nat, n: nat)
    requires k < |events|
  {
    n < |loads| && loads[n].Some? && loads[n].value.requestId == IdOf(self, events, k)
  }

  lemma AllGivenWhenComplete(self: string, events: seq<Event>, s: State, k: nat, n: nat)
    requires k < n < |events| && events[k].Ask? && OnFile(self, events, s, k, n + 1) && Answers(events[n], IdOf(self, events, k))
    ensures AllGiven(s.pending[IdOf(self, events, k)]) <==> Completes(self, events, k, n)
  {
    var id := IdOf(self, events, k);
    if AllGiven(s.pending[id]) {
      forall j | k < j <= n && Answers(events[j], id) ensures LastAddress(events, k + 1, n + 1, id, events[j].uuid) != "" {
        assert HasAnswered(events, k + 1, n + 1, id, events[j].uuid);
        assert events[j].uuid in s.pending[id];
      }
    } else {
      var u :| u in s.pending[id] && s.pending[id][u] == "";
      if HasAnswered(events, k + 1, n + 1, id, u) {
        var j :| k + 1 <= j < n + 1 && Answers(events[j], id) && events[j].uuid == u;
      }
    }
  }

  lemma {:induction false} AsksGrow(events: seq<Event>, m: nat, n: nat)
    requires m <= n <= |events|
    ensures Asks(events, m) <= Asks(events, n)
    decreases n
  {
    if m < n {
      AsksGrow(events, m, n - 1);
    }
  }

  /** In every run a load is issued for a request by exactly the events that complete it. */
  lemma LoadedExactlyWhen(self: string, events: seq<Event>, states: seq<State>, loads: seq<Option<Load>>, k: nat, n: nat)
    requires IsHistory(self, events, states, loads) && k < |events| && events[k].Ask?
    ensures LoadedBy(self, events, loads, k, n) <==> Completes(self, events, k, n)
  {
    if n < |events| {
      assert Step(self, states[n], events[n], states[n + 1], loads[n]);
      if n <= k {
        CounterCounts(self, events, states, loads, n);
        AsksGrow(events, n, k);
        if loads[n].Some? {
          NoUnaskedLoad(self, events, states, loads, n, Asks(events, k));
        }
      } else {
        AlwaysOnFile(self, events, states, loads, k, n);
        AlwaysOnFile(self, events, states, loads, k, n + 1);
        if Answers(events[n], IdOf(self, events, k)) {
          AllGivenWhenComplete(self, events, states[n + 1], k, n);
        }
      }
    }
  }

  /** Two loads for one request. */
  ghost predicate LoadedTwice(self: string, events: seq<Event>, loads: seq<Option<Load>>, k: nat)
    requires k < |events|
  {
    exists i: nat, j: nat :: i < j && LoadedBy(self, events, loads, k, i) && LoadedBy(self, events, loads, k, j)
  }

  /** The request completes, and a later answer finds it complete once more. */
  ghost predicate CompletesAgain(self: string, events: seq<Event>, k: nat)
    requires k < |events| && events[k].Ask?
  {
    exists i: nat, j: nat :: i < j && Completes(self, events, k, i) && Completes(self, events, k, j)
  }

  /** A link is loaded at most once exactly when no answer completes the request after the first that did. */
  lemma LoadedOnceWhen(self: string, events: seq<Event>, states: seq<State>, loads: seq<Option<Load>>, k: nat)
    requires IsHistory(self, events, states, loads) && k < |events| && events[k].Ask?
    ensures !LoadedTwice(self, events, loads, k) <==> !CompletesAgain(self, events, k)
  {
    forall n: nat ensures LoadedBy(self, events, loads, k, n) <==> Completes(self, events, k, n) {
      LoadedExactlyWhen(self, events, states, loads, k, n);
    }
    if LoadedTwice(self, events, loads, k) {
      var i: nat, j: nat :| i < j && LoadedBy(self, events, loads, k, i) && LoadedBy(self, events, loads, k, j);
      assert Completes(self, events, k, i) && Completes(self, events, k, j);
    }
    if CompletesAgain(self, events, k) {
      var i: nat, j: nat :| i < j && Completes(self, events, k, i) && Completes(self, events, k, j);
      assert LoadedBy(self, events, loads, k, i) && LoadedBy(self, events, loads, k, j);
    }
  }

  lemma {:induction false} LastAddressSkips(events: seq<Event>, from: nat, m: nat, n: nat, requestId: string, u: string)
    requires from <= m <= n <= |events|
    requires forall j :: m <= j < n && Answers(events[j], requestId) ==> events[j].uuid != u
    ensures LastAddress(events, from, n, requestId, u) == LastAddress(events, from, m, requestId, u)
    decreases n
  {
    if m < n {
      LastAddressSkips(events, from, m, n - 1, requestId, u);
    }
  }

  /** A complete request stays on file: the next answer to it loads the link again exactly when its address is not empty. */
  lemma LoadsRepeat(self: string, events: seq<Event>, states: seq<State>, loads: seq<Option<Load>>, k: nat, i: nat, j: nat)
    requires IsHistory(self, events, states, loads) && k < |events| && events[k].Ask?
    requires LoadedBy(self, events, loads, k, i) && i < j < |events|
    requires Answers(events[j], IdOf(self, events, k))
    requires forall h :: i < h < j ==> !Answers(events[h], IdOf(self, events, k))
    ensures LoadedBy(self, events, loads, k, j) <==> events[j].address != ""
  {
    var id := IdOf(self, events, k);
    LoadedExactlyWhen(self, events, states, loads, k, i);
    LoadedExactlyWhen(self, events, states, loads, k, j);
    var from, before, after := k + 1, i + 1, j + 1;
    forall u | u != events[j].uuid
      ensures LastAddress(events, from, after, id, u) == LastAddress(events, from, before, id, u)
    {
      LastAddressSkips(events, from, before, after, id, u);
    }
    assert LastAddress(events, k + 1, j + 1, id, events[j].uuid) == events[j].address;
  }

  /** It does happen: one peer is asked and answers twice. */
  lemma LoadsTwice(self: string, peer: string, channel: string, first: string, second: string)
    returns (events: seq<Event>, states: seq<State>, loads: seq<Option<Load>>)
    requires peer != self && first != "" && second != ""
    ensures IsHistory(self, events, states, loads) && |events| > 0 && events[0].Ask?
    ensures LoadedTwice(self, events, loads, 0)
  {
    var id := RequestId(self, 0);
    events := [Ask([peer]), Respond(peer, id, channel, first), Respond(peer, id, channel, second)];
    var blank := Blank(self, [peer]);
    var m1, m2 := blank[peer := first], blank[peer := second];
    assert peer in blank && blank.Keys == {peer};
    assert m1[peer := second] == m2;
    states := [State(0, map[]), State(1, map[id := blank]), State(1, map[id := m1]), State(1, map[id := m2])];
    loads := [None, Some(Load(id, channel, [first], [peer])), Some(Load(id, channel, [second], [peer]))];
    assert Step(self, states[0], events[0], states[1], loads[0]);
    assert Aligned(loads[1].value, m1) && Aligned(loads[2].value, m2);
    assert Step(self, states[1], events[1], states[2], loads[1]);
    assert Step(self, states[2], events[2], states[3], loads[2]);
    assert LoadedBy(self, events, loads, 0, 1) && LoadedBy(self, events, loads, 0, 2);
  }
}
