/**
 * Which profile belongs to which link (LinkManager.cpp), over whole runs: a ledger kept on the
 * events alone says what each pending handle and each live link was asked for, and the iterators
 * that the manager stores lead to entries with just these profiles.
 */
module LinkProfiles {
  import opened Wrappers
  import opened LinkManager

  // ----- the loop over a channel's static links -----

  predicate Known(list: seq<Entry>, i: nat) {
    i < |list| && (list[i].profile.role == "creator" || list[i].profile.role == "loader")
  }

  predicate Accepted(answers: seq<Option<int>>, i: nat) { i < |answers| && answers[i].Some? }

  /** The entry is requested and accepted, as are all entries with a known role before it. */
  predicate Taken(list: seq<Entry>, answers: seq<Option<int>>, i: nat) {
    Known(list, i) && forall j :: 0 <= j <= i && Known(list, j) ==> Accepted(answers, j)
  }

  predicate TakenAs(list: seq<Entry>, answers: seq<Option<int>>, i: nat, handle: int) {
    Taken(list, answers, i) && answers[i].value == handle
  }

  /** No refusal between two positions. */
  predicate AcceptedFrom(list: seq<Entry>, answers: seq<Option<int>>, from: nat, end: nat) {
    forall j :: from <= j < end && Known(list, j) ==> Accepted(answers, j)
  }

  predicate TakenFrom(list: seq<Entry>, answers: seq<Option<int>>, from: nat, i: nat, handle: int) {
    from <= i && Known(list, i) && AcceptedFrom(list, answers, from, i + 1) && answers[i].value == handle
  }

  lemma {:induction false} InitTakesFrom(list: seq<Entry>, from: nat, answers: seq<Option<int>>, pending: map<int, nat>, handle: int)
    requires Distinguished(answers)
    ensures
      var after := InitFrom(list, from, answers, pending);
      && (handle in after <==> handle in pending || exists i: nat :: TakenFrom(list, answers, from, i, handle))
      && (forall i: nat :: TakenFrom(list, answers, from, i, handle) ==> after[handle] == list[i].node)
      && (handle in pending && (forall i: nat :: !TakenFrom(list, answers, from, i, handle)) ==> after[handle] == pending[handle])
    decreases |list| - from
  {
    if from < |list| {
      var next := from + 1;
      if !Known(list, from) {
        InitTakesFrom(list, next, answers, pending, handle);
        forall i: nat ensures TakenFrom(list, answers, from, i, handle) <==> TakenFrom(list, answers, next, i, handle) {
        }
      } else if Accepted(answers, from) {
        var pending' := pending[answers[from].value := list[from].node];
        InitTakesFrom(list, next, answers, pending', handle);
        forall i: nat ensures TakenFrom(list, answers, from, i, handle) <==>
          TakenFrom(list, answers, next, i, handle) || (i == from && answers[from].value == handle)
        {
        }
        if answers[from].value == handle {
          assert TakenFrom(list, answers, from, from, handle);
          assert forall i: nat :: !TakenFrom(list, answers, next, i, handle);
        }
      } else {
        forall i: nat ensures !TakenFrom(list, answers, from, i, handle) {
          assert from <= i ==> !AcceptedFrom(list, answers, from, i + 1);
        }
      }
    }
  }

  /** Initialising a channel makes pending exactly the entries with a known role up to the first refusal, each under its handle. */
  lemma InitTakes(m: Manager, channel: string, answers: seq<Option<int>>, handle: int)
    requires Distinguished(answers)
    ensures
      var after, list := Initialized(m, channel, answers), ListOf(m, channel);
      && (handle in after.pending <==> handle in m.pending || exists i: nat :: TakenAs(list, answers, i, handle))
      && (forall i: nat :: TakenAs(list, answers, i, handle) ==> after.pending[handle] == list[i].node)
      && (handle in m.pending && (forall i: nat :: !TakenAs(list, answers, i, handle)) ==> after.pending[handle] == m.pending[handle])
      && after == m.(pending := after.pending)
  {
    var list := ListOf(m, channel);
    InitTakesFrom(list, 0, answers, m.pending, handle);
    forall i: nat ensures TakenAs(list, answers, i, handle) <==> TakenFrom(list, answers, 0, i, handle) {
    }
  }

  // ----- the ledger -----

  /** Profiles of links to be created, of links asked for by address, and of links that are up. */
  datatype Ledger = Ledger(toCreate: map<int, Profile>, asked: map<int, Profile>, up: map<string, Profile>)

  const BLANK := Ledger(map[], map[], map[])

  /** The profiles of the entries taken, by their handles. */
  ghost function TakenProfiles(list: seq<Entry>, answers: seq<Option<int>>): map<int, Profile> {
    var handles := set j | 0 <= j < |answers| && answers[j].Some? :: answers[j].value;
    map h | h in handles && exists i: nat :: TakenAs(list, answers, i, h)
      :: var i: nat :| TakenAs(list, answers, i, h); list[i].profile
  }

  /** What an event adds to the ledger; `list` holds the profiles of the channel that the event names. */
  ghost function Booked(l: Ledger, list: seq<Entry>, e: Event): Ledger {
    match e
    case Ask(_, profile, answer) => if answer.Some? then l.(asked := l.asked[answer.value := profile]) else l
    case Create(profile, answer) => if answer.Some? then l.(toCreate := l.toCreate[answer.value := profile]) else l
    case Available(_, answers) => l.(asked := l.asked + TakenProfiles(list, answers))
    case Status(handle, link, status, _, address) =>
      if status == LinkDestroyed then Ledger(l.toCreate - {handle}, l.asked - {handle}, l.up - {link})
      else if status == LinkCreated && handle in l.toCreate then
        l.(up := l.up[link := l.toCreate[handle].(addresses := [address])], toCreate := l.toCreate - {handle})
      else if (status == LinkCreated || status == LinkLoaded) && handle in l.asked then
        l.(up := l.up[link := l.asked[handle]], asked := l.asked - {handle})
      else l
  }

  predicate Files(m: Manager, channel: string, node: nat, p: Profile) { Entry(node, p) in ListOf(m, channel) }

  /** The manager's tables hold what the ledger says: the same handles and links, each leading to an entry with its profile. */
  ghost predicate Balanced(w: World, l: Ledger) {
    && w.m.pendingCreate == l.toCreate
    && w.m.pending.Keys == l.asked.Keys
    && (forall h :: h in w.m.pending ==> h in w.askedOn && Files(w.m, w.askedOn[h], w.m.pending[h], l.asked[h]))
    && w.m.live.Keys == l.up.Keys
    && (forall k :: k in w.m.live ==> k in w.upOn && Files(w.m, w.upOn[k], w.m.live[k], l.up[k]))
  }

  lemma AddedFiles(m: Manager, channel: string, p: Profile, c: string, node: nat, q: Profile)
    ensures Files(m, c, node, q) ==> Files(Added(m, channel, p), c, node, q)
    ensures Files(Added(m, channel, p), channel, m.nextNode, p)
  {
    assert ListOf(Added(m, channel, p), channel) == [Entry(m.nextNode, p)] + ListOf(m, channel);
  }

  lemma AddedBalanced(w: World, l: Ledger, channel: string, p: Profile)
    requires Balanced(w, l)
    ensures Balanced(w.(m := Added(w.m, channel, p)), l)
  {
    forall c, node: nat, q | Files(w.m, c, node, q) ensures Files(Added(w.m, channel, p), c, node, q) {
      AddedFiles(w.m, channel, p, c, node, q);
    }
  }

  lemma AskBalanced(w: World, l: Ledger, e: Event)
    requires Balanced(w, l) && e.Ask? && Regular(w, e)
    ensures Balanced(Exec(w, e).value, Booked(l, [], e))
  {
    AddedBalanced(w, l, e.channel, e.profile);
    AddedFiles(w.m, e.channel, e.profile, e.channel, w.m.nextNode, e.profile);
    NotedOne(w.askedOn, e.answer, e.channel);
  }

  lemma CreatedBalanced(w: World, l: Ledger, e: Event)
    requires Balanced(w, l) && Regular(w, e) && e.Status? && e.status == LinkCreated && e.handle in l.toCreate
    ensures Exec(w, e).Some? && Balanced(Exec(w, e).value, Booked(l, [], e))
  {
    var p := l.toCreate[e.handle].(addresses := [e.address]);
    AddedBalanced(w, l, e.channel, p);
    AddedFiles(w.m, e.channel, p, e.channel, w.m.nextNode, p);
  }

  lemma CameUpBalanced(w: World, l: Ledger, e: Event)
    requires Balanced(w, l) && Regular(w, e) && e.Status?
    requires e.status == LinkLoaded || (e.status == LinkCreated && e.handle !in l.toCreate)
    ensures Exec(w, e).Some? && Balanced(Exec(w, e).value, Booked(l, [], e))
  {
    var w' := Exec(w, e).value;
    assert forall c, node: nat, q :: Files(w.m, c, node, q) <==> Files(w'.m, c, node, q);
  }

  lemma ErasedFiles(m: Manager, channel: string, node: nat, c: string, n: nat, q: Profile)
    requires Erased(m, channel, node).Some? && n != node && Files(m, c, n, q)
    ensures Files(Erased(m, channel, node).value, c, n, q)
  {
    var list, at := ListOf(m, channel), Find(ListOf(m, channel), node);
    if c == channel {
      var i :| 0 <= i < |list| && list[i] == Entry(n, q);
      assert ListOf(Erased(m, channel, node).value, c) == RemoveAt(list, at);
      assert RemoveAt(list, at)[if i < at then i else i - 1] == Entry(n, q);
    }
  }

  lemma StaysFiled(w: World, e: Event, c: string, n: nat, q: Profile)
    requires e.Status? && e.status == LinkDestroyed && Exec(w, e).Some?
    requires Files(w.m, c, n, q) && (e.link in w.m.live ==> n != w.m.live[e.link])
    ensures Files(Exec(w, e).value.m, c, n, q)
  {
    var m1 := w.m.(pendingCreate := w.m.pendingCreate - {e.handle}, pending := w.m.pending - {e.handle});
    assert Files(m1, c, n, q);
    if e.link in w.m.live {
      ErasedFiles(m1, e.channel, w.m.live[e.link], c, n, q);
    }
  }

  lemma DestroyedTables(w: World, e: Event)
    requires e.Status? && e.status == LinkDestroyed && Exec(w, e).Some?
    ensures
      var w' := Exec(w, e).value;
      && w'.m.pendingCreate == w.m.pendingCreate - {e.handle} && w'.m.pending == w.m.pending - {e.handle}
      && w'.m.live == w.m.live - {e.link} && w'.askedOn == w.askedOn && w'.upOn == w.upOn
  {
    if e.link !in w.m.live {
      assert w.m.live - {e.link} == w.m.live;
    }
  }

  lemma DestroyedBalanced(w: World, l: Ledger, e: Event)
    requires Sound(w) && Balanced(w, l) && e.Status? && e.status == LinkDestroyed && Exec(w, e).Some?
    ensures Balanced(Exec(w, e).value, Booked(l, [], e))
  {
    var w', l' := Exec(w, e).value, Booked(l, [], e);
    DestroyedTables(w, e);
    forall h | h in w'.m.pending ensures Files(w'.m, w'.askedOn[h], w'.m.pending[h], l'.asked[h]) {
      StaysFiled(w, e, w.askedOn[h], w.m.pending[h], l.asked[h]);
    }
    forall k | k in w'.m.live ensures Files(w'.m, w'.upOn[k], w'.m.live[k], l'.up[k]) {
      StaysFiled(w, e, w.upOn[k], w.m.live[k], l.up[k]);
    }
  }

  lemma TakenProfilesAre(list: seq<Entry>, answers: seq<Option<int>>, h: int)
    requires Distinguished(answers)
    ensures h in TakenProfiles(list, answers) <==> exists i: nat :: TakenAs(list, answers, i, h)
    ensures forall i: nat :: TakenAs(list, answers, i, h) ==> TakenProfiles(list, answers)[h] == list[i].profile
  {
    if i: nat :| TakenAs(list, answers, i, h) {
      assert Accepted(answers, i);
      assert answers[i].Some? && answers[i].value == h;
    }
  }

  lemma AvailableBalanced(w: World, l: Ledger, e: Event)
    requires Sound(w) && Balanced(w, l) && Regular(w, e) && e.Available?
    ensures Balanced(Exec(w, e).value, Booked(l, ListOf(w.m, e.channel), e))
  {
    var w', list := Exec(w, e).value, ListOf(w.m, e.channel);
    assert w'.m.profiles == w.m.profiles && w'.m.live == w.m.live by {
      InitTakes(w.m, e.channel, e.answers, 0);
    }
    assert forall c, node: nat, q :: Files(w.m, c, node, q) <==> Files(w'.m, c, node, q);
    forall h ensures h in w'.m.pending <==> h in Booked(l, list, e).asked {
      InitTakes(w.m, e.channel, e.answers, h);
      TakenProfilesAre(list, e.answers, h);
    }
    forall h | h in w'.m.pending
      ensures h in w'.askedOn && Files(w'.m, w'.askedOn[h], w'.m.pending[h], Booked(l, list, e).asked[h])
    {
      PendingFiled(w, l, e, h);
    }
  }

  lemma PendingFiled(w: World, l: Ledger, e: Event, h: int)
    requires Sound(w) && Balanced(w, l) && Regular(w, e) && e.Available?
    requires h in Exec(w, e).value.m.pending && h in Booked(l, ListOf(w.m, e.channel), e).asked
    ensures
      var w', l' := Exec(w, e).value, Booked(l, ListOf(w.m, e.channel), e);
      h in w'.askedOn && Files(w.m, w'.askedOn[h], w'.m.pending[h], l'.asked[h])
  {
    var list := ListOf(w.m, e.channel);
    InitTakes(w.m, e.channel, e.answers, h);
    TakenProfilesAre(list, e.answers, h);
    NotedAs(w.askedOn, e.answers, e.channel, h);
    if i: nat :| TakenAs(list, e.answers, i, h) {
      assert Accepted(e.answers, i);
      assert e.answers[i] == Some(h);
      assert list[i] in list;
    } else {
      assert h in w.m.pending;
      assert Some(h) !in e.answers;
    }
  }

  lemma StepBalanced(w: World, l: Ledger, e: Event, list: seq<Entry>)
    requires Sound(w) && Balanced(w, l) && Regular(w, e)
    requires e.Available? ==> list == ListOf(w.m, e.channel)
    ensures Exec(w, e).Some? && Balanced(Exec(w, e).value, Booked(l, list, e))
  {
    StepSound(w, e);
    match e {
      case Ask(_, _, _) => AskBalanced(w, l, e);
      case Create(_, _) =>
        assert forall c, node: nat, q :: Files(w.m, c, node, q) <==> Files(Exec(w, e).value.m, c, node, q);
      case Available(_, _) => AvailableBalanced(w, l, e);
      case Status(handle, link, status, _, _) =>
        if status == LinkDestroyed {
          DestroyedBalanced(w, l, e);
        } else if status == LinkCreated && handle in l.toCreate {
          CreatedBalanced(w, l, e);
        } else if status != LinkOther {
          CameUpBalanced(w, l, e);
        }
    }
  }

  /** The ledger over a run. */
  ghost function Account(w: World, l: Ledger, events: seq<Event>): Ledger
    decreases events
  {
    if events == [] || Exec(w, events[0]).None? then l
    else
      var list := if events[0].Available? then ListOf(w.m, events[0].channel) else [];
      Account(Exec(w, events[0]).value, Booked(l, list, events[0]), events[1..])
  }

  lemma {:induction false} BalancedRun(w: World, l: Ledger, events: seq<Event>)
    requires Sound(w) && Balanced(w, l) && IsRegularRun(w, events)
    ensures Run(w, events).Some? && Balanced(Run(w, events).value, Account(w, l, events))
    decreases events
  {
    if events != [] {
      var list := if events[0].Available? then ListOf(w.m, events[0].channel) else [];
      StepSound(w, events[0]);
      StepBalanced(w, l, events[0], list);
      BalancedRun(Exec(w, events[0]).value, Booked(l, list, events[0]), events[1..]);
    }
  }

  /**
   * In every regular run from a fresh configuration, the links that are up and those still pending
   * are the ones the ledger lists, and each leads to an entry with the profile that was asked for.
   */
  lemma ProfilesAreKept(w: World, events: seq<Event>)
    requires Fresh(w) && IsRegularRun(w, events)
    ensures Run(w, events).Some? && Balanced(Run(w, events).value, Account(w, BLANK, events))
  {
    assert Sound(w);
    BalancedRun(w, BLANK, events);
  }

  // ----- the lists -----

  /** The list is the other without one entry, the first of this node. */
  ghost predicate Lacks(after: seq<Entry>, before: seq<Entry>, node: nat) {
    exists i ::
      && 0 <= i < |before| && before[i].node == node && (forall j :: 0 <= j < i ==> before[j].node != node)
      && after == before[..i] + before[i + 1..]
  }

  /**
   * A profile asked for goes to the front of its channel's list, whether or not the SDK accepts; a
   * created one when its link comes up; a destroyed link's own entry goes. Nothing else changes a list.
   */
  lemma ListsNext(w: World, e: Event, c: string)
    requires Exec(w, e).Some?
    ensures
      var before, after := ListOf(w.m, c), ListOf(Exec(w, e).value.m, c);
      if e.Ask? && e.channel == c then after == [Entry(w.m.nextNode, e.profile)] + before
      else if e.Status? && e.channel == c && e.status == LinkCreated && e.handle in w.m.pendingCreate then
        after == [Entry(w.m.nextNode, w.m.pendingCreate[e.handle].(addresses := [e.address]))] + before
      else if e.Status? && e.channel == c && e.status == LinkDestroyed && e.link in w.m.live then
        Lacks(after, before, w.m.live[e.link])
      else after == before
  {
    if e.Status? && e.status == LinkDestroyed && e.link in w.m.live && e.channel == c {
      var node, before := w.m.live[e.link], ListOf(w.m, c);
      var m1 := w.m.(pendingCreate := w.m.pendingCreate - {e.handle}, pending := w.m.pending - {e.handle});
      assert ListOf(m1, c) == before;
      FindIsFirst(before, node);
      assert ListOf(Exec(w, e).value.m, c) == RemoveAt(before, Find(before, node));
    }
  }

  lemma FindIsFirst(list: seq<Entry>, node: nat)
    requires Find(list, node) < |list|
    ensures Lacks(RemoveAt(list, Find(list, node)), list, node)
  {
    var i := Find(list, node);
    assert RemoveAt(list, i) == list[..i] + list[i + 1..];
  }
}
