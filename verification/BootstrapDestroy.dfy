/**
 * How often the new node asks for its bootstrap link to be destroyed
 * (destroyBootstrapLinkIfComplete of BootstrapManager.cpp), over whole runs.
 */
module BootstrapDestroy {
  import opened Wrappers
  import opened BootstrapTarget

  /** The number of requests to destroy the link among the messages sent. */
  function Destroys(sent: seq<Sent>): nat {
    if sent == [] then 0 else Destroys(sent[..|sent| - 1]) + if sent[|sent| - 1].Destroy? then 1 else 0
  }

  /** Nothing is left to create once this handle has been reported. */
  predicate LastAwaited(creates: seq<Create>, handle: int) {
    creates == [] || (|creates| == 1 && creates[0].outstanding == [handle])
  }

  /** What can be seen before an event: it finds the connection up, or brings it up, and leaves nothing to create. */
  ghost predicate Completes(s: State, e: Event) {
    match e
    case Open(connId, offers) =>
      && connId != ""
      && s.creates == []
      && forall i :: 0 <= i < |s.committee| ==> HandlesOf(offers)(i) == []
    case Status(handle, _) => s.connection != "" && LastAwaited(s.creates, handle)
    case _ => false
  }

  predicate IdleAndUp(s: State) { s.connection != "" && s.creates == [] }

  lemma {:induction false} NothingRequested(s: State, handles: nat -> seq<int>, n: nat)
    requires n <= |s.committee|
    ensures Requested(s, handles, n) == [] <==> forall i :: 0 <= i < n ==> handles(i) == []
  {
    if n > 0 {
      NothingRequested(s, handles, n - 1);
      assert RequestFor(s, handles, n - 1) == [] <==> handles(n - 1) == [];
    }
  }

  lemma NotedIdle(s: State, handle: int, link: Option<Link>)
    ensures Noted(s, handle, link).creates == [] <==> LastAwaited(s.creates, handle)
    ensures Noted(s, handle, link).connection == s.connection
  {
    var i := Waiting(s.creates, handle);
    if i < |s.creates| {
      var c := s.creates[i];
      assert |Reported(c, handle, link).outstanding| == |c.outstanding| - 1;
      if |c.outstanding| == 1 {
        assert c.outstanding == [handle];
      }
    } else if |s.creates| == 1 {
      assert handle !in s.creates[0].outstanding by {
        assert s.creates[1..] == [];
      }
    }
  }

  /** The events that complete are those after which the connection is up with nothing left to create. */
  lemma CompletesMeans(s: State, e: Event)
    ensures Completes(s, e) <==> (e.Open? || e.Status?) && IdleAndUp(Exec(s, e))
  {
    match e {
      case Open(connId, offers) =>
        NothingRequested(s, HandlesOf(offers), |s.committee|);
      case Status(handle, link) =>
        NotedIdle(s, handle, link);
      case _ =>
    }
  }

  lemma DestroysAppend(sent: seq<Sent>, m: Sent)
    ensures Destroys(sent + [m]) == Destroys(sent) + if m.Destroy? then 1 else 0
  {
    assert (sent + [m])[..|sent|] == sent;
  }

  lemma DestroysOf(s: State)
    ensures Destroys(DestroyIfComplete(s).sent) == Destroys(s.sent) + if IdleAndUp(s) then 1 else 0
  {
    DestroysAppend(s.sent, Destroy(s.introducer));
  }

  lemma ExecDestroys(s: State, e: Event)
    ensures Destroys(Exec(s, e).sent) == Destroys(s.sent) + if Completes(s, e) then 1 else 0
  {
    CompletesMeans(s, e);
    match e {
      case Open(connId, offers) =>
        DestroysAppend(s.sent, Package(s.introducer, connId));
        DestroysOf(s.(counter := s.counter + |s.committee|, connection := connId,
                      creates := s.creates + Requested(s, HandlesOf(offers), |s.committee|),
                      sent := s.sent + [Package(s.introducer, connId)]));
      case Status(handle, link) =>
        NotedDestroys(s, handle, link);
        DestroysOf(Noted(s, handle, link));
      case _ =>
    }
  }

  lemma NotedDestroys(s: State, handle: int, link: Option<Link>)
    ensures Destroys(Noted(s, handle, link).sent) == Destroys(s.sent)
  {
    var i := Waiting(s.creates, handle);
    if i < |s.creates| {
      var c := Reported(s.creates[i], handle, link);
      DestroysAppend(s.sent, Report(c.dest, c.message));
    }
  }

  // ----- whole runs -----

  /** The i-th event of a run completes. */
  ghost predicate CompletesAt(events: seq<Event>, i: nat) {
    i < |events| && Completes(Run(START, events[..i]), events[i])
  }

  ghost function Completions(events: seq<Event>): nat {
    if |events| == 0 then 0
    else Completions(events[..|events| - 1]) + if CompletesAt(events, |events| - 1) then 1 else 0
  }

  /** In every run, the link's destruction is requested once for each event that completes. */
  lemma {:induction false} DestroysCount(events: seq<Event>)
    ensures Destroys(Run(START, events).sent) == Completions(events)
  {
    if |events| > 0 {
      DestroysCount(events[..|events| - 1]);
      ExecDestroys(Run(START, events[..|events| - 1]), events[|events| - 1]);
    }
  }

  lemma CompletesInFront(events: seq<Event>, n: nat, i: nat)
    requires i < n <= |events|
    ensures CompletesAt(events[..n], i) <==> CompletesAt(events, i)
  {
    assert events[..n][..i] == events[..i];
  }

  lemma {:induction false} SomeCompletion(events: seq<Event>)
    ensures Completions(events) >= 1 <==> exists i :: CompletesAt(events, i)
  {
    if |events| > 0 {
      var n := |events| - 1;
      SomeCompletion(events[..n]);
      forall i: nat | i < n ensures CompletesAt(events[..n], i) <==> CompletesAt(events, i) {
        CompletesInFront(events, n, i);
      }
      if i :| CompletesAt(events[..n], i) {
        assert CompletesAt(events, i);
      }
    }
  }

  ghost predicate CompletesTwice(events: seq<Event>) {
    exists i: nat, j: nat :: i < j && CompletesAt(events, i) && CompletesAt(events, j)
  }

  lemma TwiceInFront(events: seq<Event>, n: nat)
    requires n <= |events| && CompletesTwice(events[..n])
    ensures CompletesTwice(events)
  {
    var i: nat, j: nat :| i < j && CompletesAt(events[..n], i) && CompletesAt(events[..n], j);
    CompletesInFront(events, n, i);
    CompletesInFront(events, n, j);
  }

  /** A run completes twice if its front does, or if its front completes and so does the last event. */
  lemma TwiceAtLast(events: seq<Event>)
    requires events != []
    ensures
      var n := |events| - 1;
      CompletesTwice(events) <==>
        CompletesTwice(events[..n]) || (CompletesAt(events, n) && exists i :: CompletesAt(events[..n], i))
  {
    var n := |events| - 1;
    if CompletesTwice(events) {
      var i: nat, j: nat :| i < j && CompletesAt(events, i) && CompletesAt(events, j);
      CompletesInFront(events, n, i);
      if j < n {
        CompletesInFront(events, n, j);
      }
    }
    if CompletesTwice(events[..n]) {
      TwiceInFront(events, n);
    } else if i :| CompletesAt(events, n) && CompletesAt(events[..n], i) {
      CompletesInFront(events, n, i);
    }
  }

  lemma {:induction false} TwoCompletions(events: seq<Event>)
    ensures Completions(events) >= 2 <==> CompletesTwice(events)
  {
    if |events| > 0 {
      TwiceAtLast(events);
      TwoCompletions(events[..|events| - 1]);
      SomeCompletion(events[..|events| - 1]);
    }
  }

  /** A link status that leaves nothing to create, with the connection up, after an event that did so before. */
  ghost predicate CompletesAgain(events: seq<Event>) {
    exists i: nat, j: nat :: i < j < |events| && CompletesAt(events, i) && events[j].Status? && CompletesAt(events, j)
  }

  /** With one opening, destruction is requested at most once exactly when no link status completes a second time. */
  lemma AtMostOneDestroyWhen(events: seq<Event>, k: nat)
    requires OpensOnce(events, k)
    ensures Destroys(Run(START, events).sent) <= 1 <==> !CompletesAgain(events)
  {
    DestroysCount(events);
    TwoCompletions(events);
    if CompletesTwice(events) {
      var i: nat, j: nat :| i < j && CompletesAt(events, i) && CompletesAt(events, j);
      if !events[j].Status? {
        assert events[j].Open? && events[i].Status?;
        BeforeOpening(events, k, i);
        assert false;
      }
    }
  }

  lemma BeforeOpening(events: seq<Event>, k: nat, i: nat)
    requires OpensOnce(events, k) && i <= k
    ensures Run(START, events[..i]).connection == ""
  {
    NotYetRun(events[..i]);
  }

  // ----- a new node that does no committee work meanwhile -----

  predicate NoCommitteeWork(events: seq<Event>) {
    forall i :: 0 <= i < |events| ==> !events[i].CreateRequest?
  }

  /** Once nothing is left to create, nothing is created any more. */
  lemma {:induction false} StaysIdle(events: seq<Event>, k: nat, i: nat, j: nat)
    requires OpensOnce(events, k) && NoCommitteeWork(events) && i < j <= |events| && CompletesAt(events, i)
    ensures Run(START, events[..j]).creates == []
    decreases j
  {
    assert events[..j][..j - 1] == events[..j - 1] && events[..j][j - 1] == events[j - 1];
    var s := Run(START, events[..j - 1]);
    if i == j - 1 {
      CompletesMeans(s, events[i]);
    } else {
      StaysIdle(events, k, i, j - 1);
      if events[j - 1].Open? {
        BeforeOpening(events, k, i);
        assert false;
      }
    }
  }

  /** A link status of any kind while the connection is still up, after everything had been created. */
  ghost predicate StatusAfterCompletion(events: seq<Event>) {
    exists i: nat, j: nat :: i < j < |events| && CompletesAt(events, i) && events[j].Status? && Run(START, events[..j]).connection != ""
  }

  /** For such a node, destruction is requested at most once exactly when no link status follows completion while the connection is up. */
  lemma AtMostOneDestroyForNewNode(events: seq<Event>, k: nat)
    requires OpensOnce(events, k) && NoCommitteeWork(events)
    ensures Destroys(Run(START, events).sent) <= 1 <==> !StatusAfterCompletion(events)
  {
    AtMostOneDestroyWhen(events, k);
    if StatusAfterCompletion(events) {
      var i: nat, j: nat :|
        i < j < |events| && CompletesAt(events, i) && events[j].Status? && Run(START, events[..j]).connection != "";
      StaysIdle(events, k, i, j);
      assert CompletesAt(events, j);
    }
    if CompletesAgain(events) {
      var i: nat, j: nat :| i < j < |events| && CompletesAt(events, i) && events[j].Status? && CompletesAt(events, j);
      assert Run(START, events[..j]).connection != "";
    }
  }

  /** It does happen: for every number there is a run with one opening that asks for destruction that often. */
  lemma {:induction false} DestroyRepeats(offers: nat -> seq<Offer>, times: nat) returns (events: seq<Event>)
    requires times > 0
    ensures OpensOnce(events, 1)
    ensures Destroys(Run(START, events).sent) == times
    ensures IdleAndUp(Run(START, events))
    decreases times
  {
    if times == 1 {
      var start := [Start("introducer", [], 1)];
      events := start + [Open("connection", offers)];
      assert events[..1] == start && start[..0] == [];
      assert Run(START, start) == START.(introducer := "introducer", handle := 1, committee := []);
      assert Completes(Run(START, start), events[1]);
      ExecDestroys(Run(START, start), events[1]);
      CompletesMeans(Run(START, start), events[1]);
      assert Destroys(START.sent) == 0;
    } else {
      var before := DestroyRepeats(offers, times - 1);
      events := before + [Status(7, None)];
      assert events[..|before|] == before;
      ExecDestroys(Run(START, before), Status(7, None));
      CompletesMeans(Run(START, before), Status(7, None));
    }
  }
}
