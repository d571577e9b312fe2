/**
 * How long the introducer keeps a bootstrap on record (onBootstrapFinished and
 * onConnectionStatusChanged of BootstrapManager.cpp): each for itself, whatever happens to others.
 */
module BootstrapLife {
  import opened Wrappers
  import opened BootstrapIntroducer

  /** On record with the connection opened for it, which is empty at first, or dropped. */
  datatype Life = Kept(connection: string) | Dropped

  /**
   * A bootstrap is dropped when it is cancelled before its connection is up, or when that connection
   * closes; its connection comes up under the handle of its own request to open one.
   */
  function LifeNext(l: Life, b: Record, e: Event): Life {
    if l.Dropped? then Dropped
    else
      match e
      case Finish(sdkHandle, cancelled) => if sdkHandle == b.sdkHandle && cancelled && l.connection == "" then Dropped else l
      case Connection(handle, connId, status) =>
        if b.openHandle == Some(handle) then (if status == ConnOpen then Kept(connId) else l)
        else if connId == l.connection && status == ConnClosed then Dropped
        else l
      case _ => l
  }

  /** The life of the bootstrap prepared in event `k`, before event `n`. */
  function LifeOf(events: seq<Event>, k: nat, n: nat): Life
    requires k < n <= |events| && events[k].Prepare?
  {
    if n == k + 1 then Kept("") else LifeNext(LifeOf(events, k, n - 1), events[k].blank, events[n - 1])
  }

  /** Records start without a connection, and no connection concerns two bootstraps. */
  ghost predicate OwnConnections(events: seq<Event>) {
    && (forall k :: 0 <= k < |events| && events[k].Prepare? ==> events[k].blank.connectionId == "")
    && (forall i :: 0 <= i < |events| && events[i].Connection? ==> events[i].connId != "")
    && (forall k, l :: 0 <= k < l < |events| && events[k].Prepare? && events[l].Prepare? && events[k].blank.openHandle.Some? ==>
          events[k].blank.openHandle != events[l].blank.openHandle)
    && (forall i: nat, j: nat, k: nat, l: nat :: OpensFor(events, i, k) && OpensFor(events, j, l) && events[i].connId == events[j].connId ==> k == l)
  }

  /** Event `i` tells of a connection under the handle that the bootstrap prepared in event `k` opened one with. */
  predicate OpensFor(events: seq<Event>, i: nat, k: nat) {
    && i < |events| && k < |events| && events[i].Connection? && events[k].Prepare?
    && events[k].blank.openHandle == Some(events[i].handle)
  }

  /** The record is that of the bootstrap prepared in event `k`. */
  ghost predicate Belongs(events: seq<Event>, n: nat, r: Record, k: nat) {
    && k < n <= |events| && events[k].Prepare?
    && r.sdkHandle == events[k].blank.sdkHandle && r.openHandle == events[k].blank.openHandle
    && LifeOf(events, k, n) == Kept(r.connectionId)
  }

  ghost predicate Owned(events: seq<Event>, n: nat, r: Record) {
    exists k: nat :: Belongs(events, n, r, k)
  }

  ghost predicate HasRecord(events: seq<Event>, n: nat, records: seq<Record>, k: nat) {
    k < n <= |events| && events[k].Prepare? && LifeOf(events, k, n).Kept? ==> exists r :: r in records && Belongs(events, n, r, k)
  }

  ghost predicate Matches(events: seq<Event>, n: nat, records: seq<Record>) {
    && (forall r :: r in records ==> Owned(events, n, r))
    && (forall k: nat :: HasRecord(events, n, records, k))
  }

  /** A connection on record came up under the bootstrap's own handle. */
  lemma {:induction false} ConnectionIsOwn(events: seq<Event>, k: nat, n: nat) returns (i: nat)
    requires k < n <= |events| && events[k].Prepare?
    requires LifeOf(events, k, n).Kept? && LifeOf(events, k, n).connection != ""
    ensures OpensFor(events, i, k) && events[i].connId == LifeOf(events, k, n).connection
  {
    i := n - 1;
    if LifeOf(events, k, n) == LifeOf(events, k, n - 1) {
      i := ConnectionIsOwn(events, k, n - 1);
    }
  }

  /** The status concerns this record. */
  predicate Concerns(r: Record, handle: int, connId: string) {
    r.openHandle == Some(handle) || r.connectionId == connId
  }

  /** A connection status concerns one bootstrap at most. */
  lemma ConcernsOne(events: seq<Event>, n: nat, r: Record, k: nat, q: Record, l: nat)
    requires OwnConnections(events) && n < |events| && events[n].Connection?
    requires Belongs(events, n, r, k) && Belongs(events, n, q, l)
    requires Concerns(r, events[n].handle, events[n].connId) && Concerns(q, events[n].handle, events[n].connId)
    ensures k == l
  {
    var i := OpenedBy(events, n, r, k);
    var j := OpenedBy(events, n, q, l);
  }

  lemma OpenedBy(events: seq<Event>, n: nat, r: Record, k: nat) returns (i: nat)
    requires OwnConnections(events) && n < |events| && events[n].Connection? && Belongs(events, n, r, k)
    requires Concerns(r, events[n].handle, events[n].connId)
    ensures OpensFor(events, i, k) && events[i].connId == events[n].connId
  {
    if r.openHandle == Some(events[n].handle) {
      i := n;
    } else {
      i := ConnectionIsOwn(events, k, n);
    }
  }

  // ----- one event -----

  /** The record goes on as this one. */
  predicate GoesOnAs(r: Record, e: Event, r': Record) {
    r'.sdkHandle == r.sdkHandle && r'.openHandle == r.openHandle && LifeNext(Kept(r.connectionId), r, e) == Kept(r'.connectionId)
  }

  ghost predicate GoesOn(r: Record, e: Event, records': seq<Record>) {
    LifeNext(Kept(r.connectionId), r, e).Kept? ==> exists r' :: r' in records' && GoesOnAs(r, e, r')
  }

  ghost predicate ComesFrom(r': Record, e: Event, records: seq<Record>) {
    exists r :: r in records && GoesOnAs(r, e, r')
  }

  /** Each record meets its own fate, and no other comes up. */
  ghost predicate EachItsOwn(records: seq<Record>, e: Event, records': seq<Record>) {
    && (forall r :: r in records ==> GoesOn(r, e, records'))
    && (forall r' :: r' in records' ==> ComesFrom(r', e, records))
  }

  /** The event can change at most the record at position `i`. */
  ghost predicate Only(records: seq<Record>, e: Event, i: nat) {
    forall j :: 0 <= j < |records| && j != i ==> GoesOnAs(records[j], e, records[j])
  }

  lemma OthersUntouched(records: seq<Record>, e: Event, i: nat, r: Record)
    requires i < |records| && Only(records, e, i) && GoesOnAs(records[i], e, r)
    ensures EachItsOwn(records, e, records[i := r])
  {
    var after := records[i := r];
    forall q | q in records ensures GoesOn(q, e, after) {
      var j :| 0 <= j < |records| && records[j] == q;
      assert after[j] in after && GoesOnAs(q, e, after[j]);
    }
    forall q | q in after ensures ComesFrom(q, e, records) {
      var j :| 0 <= j < |after| && after[j] == q;
      assert records[j] in records && GoesOnAs(records[j], e, q);
    }
  }

  lemma OneRemoved(records: seq<Record>, e: Event, i: nat)
    requires i < |records| && Only(records, e, i) && LifeNext(Kept(records[i].connectionId), records[i], e).Dropped?
    ensures EachItsOwn(records, e, RemoveAt(records, i))
  {
    var after := RemoveAt(records, i);
    forall q | q in records ensures GoesOn(q, e, after) {
      var j :| 0 <= j < |records| && records[j] == q;
      if j != i {
        assert after[if j < i then j else j - 1] == q && GoesOnAs(q, e, q);
      }
    }
    forall q | q in after ensures ComesFrom(q, e, records) {
      var j :| 0 <= j < |after| && after[j] == q;
      assert q == records[if j < i then j else j + 1] && GoesOnAs(q, e, q);
    }
  }

  lemma NoneTouched(records: seq<Record>, e: Event)
    requires forall j :: 0 <= j < |records| ==> GoesOnAs(records[j], e, records[j])
    ensures EachItsOwn(records, e, records)
  {
    forall r | r in records ensures GoesOn(r, e, records) && ComesFrom(r, e, records) {
      var j :| 0 <= j < |records| && records[j] == r;
      assert GoesOnAs(r, e, r);
    }
  }

  lemma {:induction false} FirstBySdkHandle(records: seq<Record>, sdkHandle: int)
    ensures forall j :: 0 <= j < BySdkHandle(records, sdkHandle) ==> records[j].sdkHandle != sdkHandle
  {
    if records != [] && records[0].sdkHandle != sdkHandle {
      FirstBySdkHandle(records[1..], sdkHandle);
      forall j | 0 <= j < BySdkHandle(records, sdkHandle) ensures records[j].sdkHandle != sdkHandle {
        assert j > 0 ==> records[j] == records[1..][j - 1];
      }
    }
  }

  lemma {:induction false} FirstByConnection(records: seq<Record>, handle: int, connId: string)
    ensures
      var i := ByConnection(records, handle, connId);
      && (i < |records| ==> Concerns(records[i], handle, connId))
      && forall j :: 0 <= j < i ==> !Concerns(records[j], handle, connId)
  {
    if records != [] && !Concerns(records[0], handle, connId) {
      FirstByConnection(records[1..], handle, connId);
      var i := ByConnection(records, handle, connId);
      forall j | 0 <= j < i ensures !Concerns(records[j], handle, connId) {
        assert j > 0 ==> records[j] == records[1..][j - 1];
      }
    }
  }

  lemma FinishOwn(s: State, e: Event)
    requires DistinctBootstraps(s.records) && e.Finish?
    ensures EachItsOwn(s.records, e, Exec(s, e).records)
  {
    var records, i := s.records, BySdkHandle(s.records, e.sdkHandle);
    FirstBySdkHandle(records, e.sdkHandle);
    forall j | 0 <= j < |records| && j != i ensures GoesOnAs(records[j], e, records[j]) {
      assert records[j].sdkHandle != e.sdkHandle;
    }
    if i < |records| && e.cancelled && records[i].connectionId == "" {
      OneRemoved(records, e, i);
    } else {
      assert i < |records| ==> GoesOnAs(records[i], e, records[i]);
      NoneTouched(records, e);
    }
  }

  /** The records after a connection status, of which the one found first may change. */
  function AfterConnection(records: seq<Record>, e: Event, i: nat): seq<Record>
    requires i < |records| && e.Connection?
  {
    if records[i].openHandle == Some(e.handle) then
      if e.status == ConnOpen then records[i := records[i].(connectionId := e.connId)] else records
    else if e.status == ConnClosed then RemoveAt(records, i)
    else records
  }

  lemma FoundChanges(records: seq<Record>, e: Event, i: nat)
    requires i < |records| && e.Connection? && Concerns(records[i], e.handle, e.connId) && Only(records, e, i)
    ensures EachItsOwn(records, e, AfterConnection(records, e, i))
  {
    if records[i].openHandle == Some(e.handle) && e.status == ConnOpen {
      OthersUntouched(records, e, i, records[i].(connectionId := e.connId));
    } else if records[i].openHandle != Some(e.handle) && e.status == ConnClosed {
      OneRemoved(records, e, i);
    } else {
      assert GoesOnAs(records[i], e, records[i]);
      NoneTouched(records, e);
    }
  }

  lemma ConnectionRecords(s: State, e: Event)
    requires e.Connection?
    ensures
      var i := ByConnection(s.records, e.handle, e.connId);
      Exec(s, e).records == if i == |s.records| then s.records else AfterConnection(s.records, e, i)
  {
  }

  predicate ConcernsOneAtMost(records: seq<Record>, handle: int, connId: string) {
    forall i, j :: 0 <= i < j < |records| ==> !(Concerns(records[i], handle, connId) && Concerns(records[j], handle, connId))
  }

  lemma OnlyTheFirst(records: seq<Record>, e: Event)
    requires e.Connection? && ConcernsOneAtMost(records, e.handle, e.connId)
    ensures Only(records, e, ByConnection(records, e.handle, e.connId))
  {
    var i := ByConnection(records, e.handle, e.connId);
    FirstByConnection(records, e.handle, e.connId);
    forall j | 0 <= j < |records| && j != i ensures GoesOnAs(records[j], e, records[j]) {
      assert !Concerns(records[j], e.handle, e.connId);
    }
  }

  /** At most one record is concerned, so it is the first one found. */
  lemma ConnectionOwn(s: State, e: Event)
    requires e.Connection? && ConcernsOneAtMost(s.records, e.handle, e.connId)
    ensures EachItsOwn(s.records, e, Exec(s, e).records)
  {
    var i := ByConnection(s.records, e.handle, e.connId);
    FirstByConnection(s.records, e.handle, e.connId);
    OnlyTheFirst(s.records, e);
    ConnectionRecords(s, e);
    if i < |s.records| {
      FoundChanges(s.records, e, i);
    } else {
      NoneTouched(s.records, e);
    }
  }

  lemma RespondOwn(s: State, e: Event)
    requires e.Respond?
    ensures EachItsOwn(s.records, e, Exec(s, e).records)
  {
    var i := Holder(s.records, e.answer.messageHandle);
    if i == |s.records| {
      assert forall j :: 0 <= j < |s.records| ==> GoesOnAs(s.records[j], e, s.records[j]);
      NoneTouched(s.records, e);
    } else {
      OthersUntouched(s.records, e, i, Answered(s.records[i], e.answer));
    }
  }

  // ----- every run -----

  lemma SameBootstrap(events: seq<Event>, n: nat, r: Record, q: Record)
    requires OwnConnections(events) && n < |events| && events[n].Connection? && Owned(events, n, r) && Owned(events, n, q)
    ensures Concerns(r, events[n].handle, events[n].connId) && Concerns(q, events[n].handle, events[n].connId) ==>
      r.sdkHandle == q.sdkHandle
  {
    var k: nat :| Belongs(events, n, r, k);
    var l: nat :| Belongs(events, n, q, l);
    if Concerns(r, events[n].handle, events[n].connId) && Concerns(q, events[n].handle, events[n].connId) {
      ConcernsOne(events, n, r, k, q, l);
    }
  }

  lemma OneConcerned(events: seq<Event>, n: nat, records: seq<Record>)
    requires OwnConnections(events) && n < |events| && events[n].Connection? && Matches(events, n, records)
    requires DistinctBootstraps(records)
    ensures ConcernsOneAtMost(records, events[n].handle, events[n].connId)
  {
    forall i, j | 0 <= i < j < |records|
      ensures !(Concerns(records[i], events[n].handle, events[n].connId) && Concerns(records[j], events[n].handle, events[n].connId))
    {
      assert records[i] in records && records[j] in records;
      SameBootstrap(events, n, records[i], records[j]);
    }
  }

  lemma GoesOnBelonging(events: seq<Event>, n: nat, m: nat, r: Record, r': Record, k: nat)
    requires n < |events| && m == n + 1 && Belongs(events, n, r, k)
    ensures GoesOnAs(r, events[n], r') ==> Belongs(events, m, r', k)
    ensures LifeOf(events, k, m) == LifeNext(Kept(r.connectionId), r, events[n])
  {
  }

  lemma StepMatches(events: seq<Event>, n: nat, m: nat, records: seq<Record>, records': seq<Record>)
    requires n < |events| && m == n + 1 && !events[n].Prepare? && Matches(events, n, records)
    requires EachItsOwn(records, events[n], records')
    ensures Matches(events, m, records')
  {
    forall r' | r' in records' ensures Owned(events, m, r') {
      assert ComesFrom(r', events[n], records);
      var r :| r in records && GoesOnAs(r, events[n], r');
      assert Owned(events, n, r);
      var k: nat :| Belongs(events, n, r, k);
      GoesOnBelonging(events, n, m, r, r', k);
    }
    forall k: nat ensures HasRecord(events, m, records', k) {
      if k < m && events[k].Prepare? && LifeOf(events, k, m).Kept? {
        assert HasRecord(events, n, records, k);
        var r :| r in records && Belongs(events, n, r, k);
        GoesOnBelonging(events, n, m, r, r, k);
        assert GoesOn(r, events[n], records');
        var r' :| r' in records' && GoesOnAs(r, events[n], r');
        GoesOnBelonging(events, n, m, r, r', k);
      }
    }
  }

  lemma PrepareMatches(events: seq<Event>, n: nat, m: nat, s: State)
    requires OwnConnections(events) && n < |events| && m == n + 1 && events[n].Prepare? && Matches(events, n, s.records)
    ensures Matches(events, m, Exec(s, events[n]).records)
  {
    var records' := Exec(s, events[n]).records;
    var added := records'[|s.records|];
    assert Belongs(events, m, added, n);
    forall r | r in records' ensures Owned(events, m, r) {
      if r in s.records {
        assert Owned(events, n, r);
        var k: nat :| Belongs(events, n, r, k);
        GoesOnBelonging(events, n, m, r, r, k);
        assert Belongs(events, m, r, k);
      }
    }
    forall k: nat ensures HasRecord(events, m, records', k) {
      if k < n && events[k].Prepare? && LifeOf(events, k, m).Kept? {
        assert HasRecord(events, n, s.records, k);
        var r :| r in s.records && Belongs(events, n, r, k);
        GoesOnBelonging(events, n, m, r, r, k);
        assert r in records';
      }
    }
  }

  lemma {:induction false} AlwaysMatches(events: seq<Event>, n: nat)
    requires FreshHandles(events) && OwnConnections(events) && n <= |events|
    ensures Matches(events, n, Run(START, events[..n]).records)
  {
    if n == 0 {
      assert events[..0] == [];
    } else {
      var k := n - 1;
      var s, e := Run(START, events[..k]), events[k];
      AlwaysMatches(events, k);
      AlwaysDistinct(events[..k]);
      assert events[..n][..k] == events[..k];
      assert Run(START, events[..n]) == Exec(s, e);
      match e {
        case Prepare(_, _) => PrepareMatches(events, k, n, s);
        case Respond(_) => RespondOwn(s, e);
        case Finish(_, _) => FinishOwn(s, e);
        case Connection(_, _, _) =>
          OneConcerned(events, k, s.records);
          ConnectionOwn(s, e);
      }
      if !e.Prepare? {
        StepMatches(events, k, n, s.records, Exec(s, e).records);
      }
    }
  }

  /**
   * In every run with fresh handles in which no connection concerns two bootstraps: a bootstrap is on
   * record exactly as long as its own events keep it, and its record holds its own connection.
   */
  lemma OnRecordAsLongAsKept(events: seq<Event>, k: nat, i: nat)
    requires FreshHandles(events) && OwnConnections(events) && k < |events| && events[k].Prepare?
    ensures
      var records, life := Run(START, events).records, LifeOf(events, k, |events|);
      && (life.Kept? ==> exists r :: r in records && r.sdkHandle == events[k].blank.sdkHandle)
      && (i < |records| && records[i].sdkHandle == events[k].blank.sdkHandle ==> life == Kept(records[i].connectionId))
  {
    var n := |events|;
    assert events[..n] == events;
    AlwaysMatches(events, n);
    var records := Run(START, events).records;
    assert HasRecord(events, n, records, k);
    if i < |records| && records[i].sdkHandle == events[k].blank.sdkHandle {
      assert records[i] in records && Owned(events, n, records[i]);
      var l: nat :| Belongs(events, n, records[i], l);
      assert l == k;
    }
  }
}
