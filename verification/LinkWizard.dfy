/**
 * The bookkeeping of the link wizard (LinkWizard.cpp): requests for links that wait in queues until
 * they succeed, and messages that wait for a connection.
 */
module LinkWizard {
  import opened Wrappers

  // ----- queues -----

  datatype Request = Request(uuids: seq<string>, channel: string)

  datatype Message = Message(dest: string, text: string)

  /** How one attempt to obtain a link ends, and the messages it leaves to be sent later. */
  datatype Attempt = Obtained | Failed(queued: seq<Message>)
  {
    function Queued(): seq<Message> { if Obtained? then [] else queued }
  }

  datatype Queues = Queues(
    known: set<string>,
    unicast: map<string, seq<Request>>,
    multicast: seq<Request>,
    messages: seq<Message>)

  /** The elements at the positions that `stays` selects, in order. */
  function Kept<T>(s: seq<T>, stays: nat -> bool): (r: seq<T>)
    ensures |r| <= |s|
  {
    if s == [] then []
    else
      var front := Kept(s[..|s| - 1], stays);
      if stays(|s| - 1) then front + [s[|s| - 1]] else front
  }

  /** An attempt is not even made while the channels of a peer are unknown. */
  function Tried(known: set<string>, r: Request, a: Attempt): Attempt {
    if forall u :: u in r.uuids ==> u in known then a else Failed([])
  }

  /** Those of the first `n` requests whose attempts fail. */
  function StillWaiting(known: set<string>, reqs: seq<Request>, attempts: nat -> Attempt, n: nat): (r: seq<Request>)
    requires n <= |reqs|
    ensures |r| <= n
  {
    if n == 0 then []
    else
      var before := StillWaiting(known, reqs, attempts, n - 1);
      if Tried(known, reqs[n - 1], attempts(n - 1)).Failed? then before + [reqs[n - 1]] else before
  }

  /** The messages left behind by the attempts at the first `n` requests. */
  function LeftBehind(known: set<string>, reqs: seq<Request>, attempts: nat -> Attempt, n: nat): seq<Message>
    requires n <= |reqs|
  {
    if n == 0 then [] else LeftBehind(known, reqs, attempts, n - 1) + Tried(known, reqs[n - 1], attempts(n - 1)).Queued()
  }

  function UnicastFor(q: Queues, uuid: string): seq<Request> {
    if uuid in q.unicast then q.unicast[uuid] else []
  }

  function Requeued(unicast: map<string, seq<Request>>, uuid: string, left: seq<Request>): map<string, seq<Request>> {
    if uuid !in unicast then unicast else if left == [] then unicast - {uuid} else unicast[uuid := left]
  }

  /** The messages waiting after all queued requests have been tried. */
  function ToSend(q: Queues, uuid: string, uni: nat -> Attempt, multi: nat -> Attempt): seq<Message> {
    q.messages
    + LeftBehind(q.known, UnicastFor(q, uuid), uni, |UnicastFor(q, uuid)|)
    + LeftBehind(q.known, q.multicast, multi, |q.multicast|)
  }

  /** tryQueuedRequests: `refused` says which of the waiting messages cannot be sent this time either. */
  function Retried(q: Queues, uuid: string, uni: nat -> Attempt, multi: nat -> Attempt, refused: nat -> bool): Queues {
    Queues(
      q.known,
      Requeued(q.unicast, uuid, StillWaiting(q.known, UnicastFor(q, uuid), uni, |UnicastFor(q, uuid)|)),
      StillWaiting(q.known, q.multicast, multi, |q.multicast|),
      Kept(ToSend(q, uuid, uni, multi), refused))
  }

  /** tryObtainUnicastLink: a request that cannot be met now waits. */
  function UnicastTried(q: Queues, r: Request, uuid: string, a: Attempt): Queues {
    var t := Tried(q.known, r, a);
    if t.Obtained? then q
    else q.(unicast := q.unicast[uuid := UnicastFor(q, uuid) + [r]], messages := q.messages + t.queued)
  }

  /** tryObtainMulticastSend: only a request to peers with unknown channels waits. */
  function MulticastTried(q: Queues, r: Request, a: Attempt): Queues {
    if forall u :: u in r.uuids ==> u in q.known
    then if a.Obtained? then q else q.(messages := q.messages + a.queued)
    else q.(multicast := q.multicast + [r])
  }

  function Word32(n: nat): nat { n % 0x1_0000_0000 }

  /** The queue at the iterator, before and after erasing or stepping over the element there. */
  lemma EraseOrStep(left: seq<Request>, kept: seq<Request>, queue: seq<Request>, n: nat)
    requires n < |queue| && left == kept + queue[n..]
    ensures |kept| < |left| && left[|kept|] == queue[n] && |kept| + |queue| - |left| == n
    ensures left == kept + [queue[n]] + queue[n + 1..]
    ensures RemoveAt(left, |kept|) == kept + queue[n + 1..]
  {
    assert left[..|kept|] == kept;
    assert left[|kept| + 1..] == queue[n + 1..];
  }

  /** The first `n` requests have been tried: `kept` are left of them in front of the others. */
  predicate Passing(known: set<string>, queue: seq<Request>, attempts: nat -> Attempt,
                    left: seq<Request>, messages: seq<Message>, kept: seq<Request>, n: nat)
  {
    && n <= |queue|
    && kept == StillWaiting(known, queue, attempts, n)
    && left == kept + queue[n..]
    && messages == LeftBehind(known, queue, attempts, n)
  }

  /** The next attempt, at the request in position `n`. */
  lemma PassOne(known: set<string>, queue: seq<Request>, attempts: nat -> Attempt,
                left: seq<Request>, messages: seq<Message>, kept: seq<Request>, n: nat)
    requires Passing(known, queue, attempts, left, messages, kept, n) && |kept| < |left|
    ensures n < |queue| && left[|kept|] == queue[n] && |kept| + |queue| - |left| == n
    ensures
      var result := Tried(known, queue[n], attempts(n));
      var messages' := messages + result.Queued();
      if result.Obtained? then Passing(known, queue, attempts, RemoveAt(left, |kept|), messages', kept, n + 1)
      else Passing(known, queue, attempts, left, messages', kept + [queue[n]], n + 1)
  {
    EraseOrStep(left, kept, queue, n);
  }

  /** One pass over a queue: requests that succeed are erased where they stand. */
  method RetryQueue(known: set<string>, queue: seq<Request>, attempts: nat -> Attempt)
    returns (left: seq<Request>, messages: seq<Message>)
    ensures left == StillWaiting(known, queue, attempts, |queue|)
    ensures messages == LeftBehind(known, queue, attempts, |queue|)
  {
    left, messages := queue, [];
    var it := 0;
    ghost var n: nat := 0;
    ghost var kept: seq<Request> := [];
    while it < |left|
      invariant it == |kept| && Passing(known, queue, attempts, left, messages, kept, n)
      decreases |queue| - n
    {
      PassOne(known, queue, attempts, left, messages, kept, n);
      var result := Tried(known, left[it], attempts(it + |queue| - |left|));
      messages := messages + result.Queued();
      if result.Obtained? {
        left := RemoveAt(left, it);
      } else {
        kept := kept + [left[it]];
        it := it + 1;
      }
      n := n + 1;
    }
    assert queue[n..] == [] && left == kept;
  }

  class Wizard {
    var known: set<string>
    var obtainUnicastQueue: map<string, seq<Request>>
    var obtainMulticastSendQueue: seq<Request>
    var sendingMessageQueue: seq<Message>

    function Value(): Queues
      reads this
    {
      Queues(known, obtainUnicastQueue, obtainMulticastSendQueue, sendingMessageQueue)
    }

    constructor ()
      ensures Value() == Queues({}, map[], [], [])
    {
      known, obtainUnicastQueue, obtainMulticastSendQueue, sendingMessageQueue := {}, map[], [], [];
    }

    /**
     * Counts, in 32 bits, the peers for whom a request waits and the waiting multicast requests, so
     * that zero means that nothing waits. No queue is empty in any run (QueuesNeverEmpty).
     */
    method NumOutstandingRequests() returns (n: nat)
      ensures n < 0x1_0000_0000
      ensures NoEmptyQueue(Value()) ==>
        n == Word32(|PeersWaitedFor(Value())| + |obtainMulticastSendQueue|)
      ensures NoEmptyQueue(Value()) && |PeersWaitedFor(Value())| + |obtainMulticastSendQueue| < 0x1_0000_0000 ==>
        (n == 0 <==> !Waiting(Value()))
    {
      if NoEmptyQueue(Value()) {
        PeersAreKeys(Value());
        ZeroIfNothing(Value());
      }
      n := Word32(|obtainUnicastQueue| + |obtainMulticastSendQueue|);
    }

    method TryObtainUnicastLink(r: Request, uuid: string, a: Attempt) returns (success: bool)
      requires r.uuids == [uuid]
      modifies this
      ensures Value() == UnicastTried(old(Value()), r, uuid, a) && success == Tried(old(known), r, a).Obtained?
    {
      success := false;
      if uuid in known {
        success := a.Obtained?;
        if !success {
          sendingMessageQueue := sendingMessageQueue + a.queued;
        }
      } else {
        assert uuid in r.uuids;
      }
      if !success {
        var waiting := if uuid in obtainUnicastQueue then obtainUnicastQueue[uuid] else [];
        obtainUnicastQueue := obtainUnicastQueue[uuid := waiting + [r]];
      }
    }

    method TryObtainMulticastSend(r: Request, a: Attempt) returns (success: bool)
      modifies this
      ensures Value() == MulticastTried(old(Value()), r, a)
    {
      success := false;
      if forall u :: u in r.uuids ==> u in known {
        success := a.Obtained?;
        if !success {
          sendingMessageQueue := sendingMessageQueue + a.queued;
        }
      } else {
        obtainMulticastSendQueue := obtainMulticastSendQueue + [r];
      }
    }

    method RetryMessages(refused: nat -> bool)
      modifies this`sendingMessageQueue
      ensures sendingMessageQueue == Kept(old(sendingMessageQueue), refused)
    {
      var requeue := [];
      var i := 0;
      while i < |sendingMessageQueue|
        invariant 0 <= i <= |sendingMessageQueue| && unchanged(`sendingMessageQueue)
        invariant requeue == Kept(sendingMessageQueue[..i], refused)
      {
        assert sendingMessageQueue[..i + 1][..i] == sendingMessageQueue[..i];
        if refused(i) {
          requeue := requeue + [sendingMessageQueue[i]];
        }
        i := i + 1;
      }
      assert sendingMessageQueue[..i] == sendingMessageQueue;
      sendingMessageQueue := requeue;
    }

    method TryQueuedRequests(uuid: string, uni: nat -> Attempt, multi: nat -> Attempt, refused: nat -> bool)
      modifies this
      ensures Value() == Retried(old(Value()), uuid, uni, multi, refused)
    {
      if uuid in obtainUnicastQueue {
        var left, messages := RetryQueue(known, obtainUnicastQueue[uuid], uni);
        sendingMessageQueue := sendingMessageQueue + messages;
        obtainUnicastQueue := obtainUnicastQueue[uuid := left];
        if left == [] {
          obtainUnicastQueue := obtainUnicastQueue - {uuid};
        }
      }
      assert obtainUnicastQueue == Retried(old(Value()), uuid, uni, multi, refused).unicast;
      var left, messages := RetryQueue(known, obtainMulticastSendQueue, multi);
      sendingMessageQueue := sendingMessageQueue + messages;
      obtainMulticastSendQueue := left;
      assert sendingMessageQueue == ToSend(old(Value()), uuid, uni, multi);
      RetryMessages(refused);
    }
  }

  // ----- what waits -----

  datatype QueueEvent =
    | Unicast(request: Request, uuid: string, attempt: Attempt)
    | Multicast(request: Request, attempt: Attempt)
    | ChannelsOf(uuid: string, uni: nat -> Attempt, multi: nat -> Attempt, refused: nat -> bool)

  function QueueStep(q: Queues, e: QueueEvent): Queues {
    match e
    case Unicast(request, uuid, attempt) => UnicastTried(q, request, uuid, attempt)
    case Multicast(request, attempt) => MulticastTried(q, request, attempt)
    case ChannelsOf(uuid, uni, multi, refused) => Retried(q.(known := q.known + {uuid}), uuid, uni, multi, refused)
  }

  ghost function QueueRun(q: Queues, events: seq<QueueEvent>): Queues {
    if |events| == 0 then q else QueueStep(QueueRun(q, events[..|events| - 1]), events[|events| - 1])
  }

  const EMPTY := Queues({}, map[], [], [])

  /** Some request waits for some peer. */
  predicate Waiting(q: Queues) {
    (exists u :: u in q.unicast && q.unicast[u] != []) || q.multicast != []
  }

  ghost predicate NoEmptyQueue(q: Queues) {
    forall u :: u in q.unicast ==> q.unicast[u] != []
  }

  lemma {:induction false} QueuesNeverEmpty(events: seq<QueueEvent>)
    ensures NoEmptyQueue(QueueRun(EMPTY, events))
  {
    if |events| > 0 {
      QueuesNeverEmpty(events[..|events| - 1]);
    }
  }

  /** The peers for whom some unicast request waits. */
  ghost function PeersWaitedFor(q: Queues): set<string> {
    set u | u in q.unicast && exists r :: r in q.unicast[u]
  }

  lemma PeersAreKeys(q: Queues)
    requires NoEmptyQueue(q)
    ensures PeersWaitedFor(q) == q.unicast.Keys && |PeersWaitedFor(q)| == |q.unicast|
  {
    forall u | u in q.unicast ensures u in PeersWaitedFor(q) {
      assert q.unicast[u][0] in q.unicast[u];
    }
    assert |q.unicast| == |q.unicast.Keys|;
  }

  /** As long as it fits 32 bits, the number of outstanding requests is zero exactly when nothing waits. */
  predicate ZeroMeansNothing(q: Queues) {
    var n := |q.unicast| + |q.multicast|;
    n < 0x1_0000_0000 ==> (Word32(n) == 0 <==> !Waiting(q))
  }

  lemma ZeroIfNothing(q: Queues)
    requires NoEmptyQueue(q)
    ensures ZeroMeansNothing(q)
  {
    assert |q.unicast| == |q.unicast.Keys|;
    if q.unicast.Keys != {} {
      var u :| u in q.unicast.Keys;
      assert q.unicast[u] != [];
    }
  }

  lemma ZeroWhenNothingWaits(events: seq<QueueEvent>)
    ensures ZeroMeansNothing(QueueRun(EMPTY, events))
  {
    QueuesNeverEmpty(events);
    ZeroIfNothing(QueueRun(EMPTY, events));
  }

  /** All requests waiting for the peers in `of`. */
  ghost function TotalUnicast(unicast: map<string, seq<Request>>, of: set<string>): nat
    requires of <= unicast.Keys
  {
    if of == {} then 0 else var u :| u in of; |unicast[u]| + TotalUnicast(unicast, of - {u})
  }

  /** The number counts peers, so it is at most the number of requests that wait. */
  lemma {:induction false} CountsPeers(unicast: map<string, seq<Request>>, of: set<string>)
    requires of <= unicast.Keys && forall u :: u in unicast ==> unicast[u] != []
    ensures |of| <= TotalUnicast(unicast, of)
    ensures |of| == TotalUnicast(unicast, of) <==> forall u :: u in of ==> |unicast[u]| == 1
  {
    if of != {} {
      var u :| u in of && TotalUnicast(unicast, of) == |unicast[u]| + TotalUnicast(unicast, of - {u});
      CountsPeers(unicast, of - {u});
      assert |unicast[u]| >= 1;
    }
  }

  /** A retry pass neither loses nor repeats anything: what it keeps and what it lets go make up the queue. */
  lemma {:induction false} KeptPartitions<T>(s: seq<T>, stays: nat -> bool)
    ensures multiset(Kept(s, stays)) + multiset(Kept(s, (i: nat) => !stays(i))) == multiset(s)
  {
    if s != [] {
      KeptPartitions(s[..|s| - 1], stays);
      assert s == s[..|s| - 1] + [s[|s| - 1]];
    }
  }

  /** What is kept stays in order: the kept part of a queue is the kept part of its start and then of its rest. */
  lemma {:induction false} KeptInOrder<T>(s: seq<T>, t: seq<T>, stays: nat -> bool)
    ensures Kept(s + t, stays) == Kept(s, stays) + Kept(t, (i: nat) => stays(|s| + i))
  {
    if t == [] {
      assert s + t == s;
    } else {
      KeptInOrder(s, t[..|t| - 1], stays);
      assert (s + t)[..|s + t| - 1] == s + t[..|t| - 1];
    }
  }

  /** The requests left in a queue are those kept because their attempt failed, so the same holds of them. */
  lemma {:induction false} StillWaitingIsKept(known: set<string>, reqs: seq<Request>, attempts: nat -> Attempt, n: nat)
    requires n <= |reqs|
    ensures StillWaiting(known, reqs, attempts, n)
         == Kept(reqs[..n], (i: nat) => i < |reqs| && Tried(known, reqs[i], attempts(i)).Failed?)
  {
    if n > 0 {
      StillWaitingIsKept(known, reqs, attempts, n - 1);
      assert reqs[..n][..n - 1] == reqs[..n - 1];
    }
  }

  lemma KeptSingle<T>(x: T, stays: nat -> bool)
    ensures Kept([x], stays) == if stays(0) then [x] else []
  {
    assert [x][..0] == [];
    assert Kept([x][..0], stays) == [];
  }

  // ----- every request is met or waits -----

  /** The request can be met now: its peers' channels are known, and the attempt obtains a link. */
  predicate Met(known: set<string>, r: Request, a: Attempt) {
    a.Obtained? && forall u :: u in r.uuids ==> u in known
  }

  /** The messages that an attempt leaves to be sent later: those of a failed one, if it was made at all. */
  function LeftOver(known: set<string>, r: Request, a: Attempt): seq<Message> {
    if a.Failed? && forall u :: u in r.uuids ==> u in known then a.queued else []
  }

  /** What an event leaves of the requests waiting for a peer, in order: those not met, and a new one behind them. */
  function WaitNext(known: set<string>, waiting: seq<Request>, e: QueueEvent, u: string): seq<Request> {
    match e
    case Unicast(r, uuid, a) => if uuid == u && !Met(known, r, a) then waiting + [r] else waiting
    case Multicast(_, _) => waiting
    case ChannelsOf(uuid, uni, _, _) =>
      if uuid == u then Kept(waiting, (i: nat) => i < |waiting| && !Met(known + {uuid}, waiting[i], uni(i))) else waiting
  }

  /** Requests to several peers wait only while some peer's channels are unknown. */
  function WaitNextMulticast(known: set<string>, waiting: seq<Request>, e: QueueEvent): seq<Request> {
    match e
    case Unicast(_, _, _) => waiting
    case Multicast(r, _) => if forall u :: u in r.uuids ==> u in known then waiting else waiting + [r]
    case ChannelsOf(uuid, _, multi, _) => Kept(waiting, (i: nat) => i < |waiting| && !Met(known + {uuid}, waiting[i], multi(i)))
  }

  /** All that the failed attempts at these requests leave over, in order. */
  function AllLeftOver(known: set<string>, reqs: seq<Request>, attempts: nat -> Attempt): seq<Message> {
    if reqs == [] then []
    else
      var last := |reqs| - 1;
      AllLeftOver(known, reqs[..last], attempts) + LeftOver(known, reqs[last], attempts(last))
  }

  lemma {:induction false} LeftBehindIsLeftOver(known: set<string>, reqs: seq<Request>, attempts: nat -> Attempt, n: nat)
    requires n <= |reqs|
    ensures LeftBehind(known, reqs, attempts, n) == AllLeftOver(known, reqs[..n], attempts)
  {
    if n > 0 {
      LeftBehindIsLeftOver(known, reqs, attempts, n - 1);
      assert reqs[..n][..n - 1] == reqs[..n - 1];
    }
  }

  /** The messages that wait after an event: all before it, and what its attempts left over, unless sent by now. */
  function MessagesNext(q: Queues, e: QueueEvent): seq<Message> {
    match e
    case Unicast(r, _, a) => q.messages + LeftOver(q.known, r, a)
    case Multicast(r, a) => q.messages + LeftOver(q.known, r, a)
    case ChannelsOf(uuid, uni, multi, refused) =>
      Kept(q.messages + AllLeftOver(q.known + {uuid}, UnicastFor(q, uuid), uni) + AllLeftOver(q.known + {uuid}, q.multicast, multi),
           refused)
  }

  lemma StillWaitingUnmet(known: set<string>, reqs: seq<Request>, attempts: nat -> Attempt)
    ensures StillWaiting(known, reqs, attempts, |reqs|)
         == Kept(reqs, (i: nat) => i < |reqs| && !Met(known, reqs[i], attempts(i)))
  {
    StillWaitingIsKept(known, reqs, attempts, |reqs|);
    assert reqs[..|reqs|] == reqs;
    forall i: nat | i < |reqs| ensures Tried(known, reqs[i], attempts(i)).Failed? == !Met(known, reqs[i], attempts(i)) {
    }
    KeptAlike(reqs, (i: nat) => i < |reqs| && Tried(known, reqs[i], attempts(i)).Failed?,
              (i: nat) => i < |reqs| && !Met(known, reqs[i], attempts(i)));
  }

  lemma {:induction false} KeptAlike<T>(s: seq<T>, p: nat -> bool, q: nat -> bool)
    requires forall i: nat :: i < |s| ==> p(i) == q(i)
    ensures Kept(s, p) == Kept(s, q)
  {
    if s != [] {
      KeptAlike(s[..|s| - 1], p, q);
    }
  }

  lemma RetryMeans(q: Queues, e: QueueEvent, u: string)
    requires e.ChannelsOf?
    ensures
      var q' := QueueStep(q, e);
      && UnicastFor(q', u) == WaitNext(q.known, UnicastFor(q, u), e, u)
      && q'.multicast == WaitNextMulticast(q.known, q.multicast, e)
      && q'.messages == MessagesNext(q, e)
  {
    var known, queue := q.known + {e.uuid}, UnicastFor(q, e.uuid);
    StillWaitingUnmet(known, queue, e.uni);
    StillWaitingUnmet(known, q.multicast, e.multi);
    LeftBehindIsLeftOver(known, queue, e.uni, |queue|);
    LeftBehindIsLeftOver(known, q.multicast, e.multi, |q.multicast|);
    assert queue[..|queue|] == queue && q.multicast[..|q.multicast|] == q.multicast;
    var q1 := q.(known := known);
    assert UnicastFor(q1, e.uuid) == queue;
    assert ToSend(q1, e.uuid, e.uni, e.multi)
        == q.messages + AllLeftOver(known, queue, e.uni) + AllLeftOver(known, q.multicast, e.multi);
  }

  /** What each event does to every queue. */
  lemma QueueStepMeans(q: Queues, e: QueueEvent, u: string)
    requires e.Unicast? ==> e.request.uuids == [e.uuid]
    ensures
      var q' := QueueStep(q, e);
      && q'.known == (if e.ChannelsOf? then q.known + {e.uuid} else q.known)
      && UnicastFor(q', u) == WaitNext(q.known, UnicastFor(q, u), e, u)
      && q'.multicast == WaitNextMulticast(q.known, q.multicast, e)
      && q'.messages == MessagesNext(q, e)
  {
    match e {
      case Unicast(r, uuid, a) =>
      case Multicast(r, a) =>
      case ChannelsOf(uuid, uni, multi, refused) =>
        RetryMeans(q, e, u);
    }
  }

  /** How many requests to a peer were made, and how many were met, at once or in a retry. */
  ghost function MadeTo(events: seq<QueueEvent>, u: string): multiset<Request> {
    if |events| == 0 then multiset{}
    else
      var e := events[|events| - 1];
      MadeTo(events[..|events| - 1], u) + if e.Unicast? && e.uuid == u then multiset{e.request} else multiset{}
  }

  ghost function MetFor(events: seq<QueueEvent>, u: string): multiset<Request> {
    if |events| == 0 then multiset{}
    else
      var q, e := QueueRun(EMPTY, events[..|events| - 1]), events[|events| - 1];
      MetFor(events[..|events| - 1], u) +
        match e
        case Unicast(r, uuid, a) => if uuid == u && Met(q.known, r, a) then multiset{r} else multiset{}
        case Multicast(_, _) => multiset{}
        case ChannelsOf(uuid, uni, _, _) =>
          if uuid != u then multiset{}
          else multiset(Kept(UnicastFor(q, u), (i: nat) => i < |UnicastFor(q, u)| && Met(q.known + {u}, UnicastFor(q, u)[i], uni(i))))
  }

  predicate WellFormed(events: seq<QueueEvent>) {
    forall i :: 0 <= i < |events| && events[i].Unicast? ==> events[i].request.uuids == [events[i].uuid]
  }

  /** In every run, each request made to a peer has been met or still waits, and never both. */
  lemma {:induction false} MetOrWaiting(events: seq<QueueEvent>, u: string)
    requires WellFormed(events)
    ensures MadeTo(events, u) == MetFor(events, u) + multiset(UnicastFor(QueueRun(EMPTY, events), u))
  {
    if |events| > 0 {
      var front, e := events[..|events| - 1], events[|events| - 1];
      MetOrWaiting(front, u);
      var q := QueueRun(EMPTY, front);
      QueueStepMeans(q, e, u);
      if e.ChannelsOf? && e.uuid == u {
        var queue := UnicastFor(q, u);
        var unmet: nat -> bool := (i: nat) => i < |queue| && !Met(q.known + {u}, queue[i], e.uni(i));
        KeptPartitions(queue, unmet);
        KeptAlike(queue, (i: nat) => !unmet(i), (i: nat) => i < |queue| && Met(q.known + {u}, queue[i], e.uni(i)));
        KeptAlike(queue, unmet, (i: nat) => i < |queue| && !Met(q.known + {u}, queue[i], e.uni(i)));
      }
    }
  }

  // ----- asking several peers -----

  /** The request messages left to be sent later: all from the first refused one on. */
  function Unsent(uuids: seq<string>, text: string, refused: nat -> bool, n: nat): seq<Message>
    requires n <= |uuids|
  {
    if n == 0 then []
    else
      var before := Unsent(uuids, text, refused, n - 1);
      if exists k: nat :: k < n && refused(k) then before + [Message(uuids[n - 1], text)] else before
  }

  method RequestCreateMulticastRecvLink(uuidList: seq<string>, text: string, refused: nat -> bool)
    returns (success: bool, queued: seq<Message>)
    ensures queued == Unsent(uuidList, text, refused, |uuidList|)
    ensures success <==> forall k: nat :: k < |uuidList| ==> !refused(k)
  {
    success, queued := true, [];
    var i := 0;
    while i < |uuidList|
      invariant 0 <= i <= |uuidList|
      invariant success <==> forall k: nat :: k < i ==> !refused(k)
      invariant queued == Unsent(uuidList, text, refused, i)
    {
      success := success && !refused(i);
      if !success {
        queued := queued + [Message(uuidList[i], text)];
      }
      i := i + 1;
    }
  }

  /** The message at this position is queued to be sent later. */
  predicate Queued(refused: nat -> bool, i: nat) {
    exists k: nat :: k <= i && refused(k)
  }

  /** The queued messages are those at the queued positions. */
  lemma {:induction false} UnsentAreQueued(uuids: seq<string>, text: string, refused: nat -> bool, n: nat)
    requires n <= |uuids|
    ensures Unsent(uuids, text, refused, n)
         == Kept(seq(n, i requires 0 <= i < n => Message(uuids[i], text)), (i: nat) => Queued(refused, i))
  {
    if n > 0 {
      UnsentAreQueued(uuids, text, refused, n - 1);
      var all := seq(n, i requires 0 <= i < n => Message(uuids[i], text));
      assert all[..n - 1] == seq(n - 1, i requires 0 <= i < n - 1 => Message(uuids[i], text));
      assert Queued(refused, n - 1) <==> exists k: nat :: k < n && refused(k);
    }
  }

  /** Every queued message was refused. */
  predicate OnlyRefusedQueued(refused: nat -> bool, n: nat) {
    forall i: nat :: i < n && Queued(refused, i) ==> refused(i)
  }

  predicate AcceptedAfterRefusal(refused: nat -> bool, n: nat) {
    exists j: nat, k: nat :: j < k < n && refused(j) && !refused(k)
  }

  /** A peer whose request went out after another's was refused is asked a second time later. */
  lemma OnlyRefusedQueuedWhen(refused: nat -> bool, n: nat)
    ensures OnlyRefusedQueued(refused, n) <==> !AcceptedAfterRefusal(refused, n)
  {
    if AcceptedAfterRefusal(refused, n) {
      var j: nat, k: nat :| j < k < n && refused(j) && !refused(k);
      assert Queued(refused, k);
    } else {
      forall i: nat | i < n && Queued(refused, i) ensures refused(i) {
        var k: nat :| k <= i && refused(k);
      }
    }
  }
}
