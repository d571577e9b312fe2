/**
 * Forwarding to other committees, said without the loop that does it: which committees a server
 * contacts, what it sends them, and when it passes the message on along its rings. Holds for both
 * plugins and for every configuration, also when committees share members or have none known.
 */
module Forwarding {
  import opened Wrappers
  import opened Messages
  import opened Routing

  /** A committee the message need not avoid: C++ goes by both lists of the message, Python by one and its own name. */
  predicate Open(cfg: Config, m: ExtClrMsg, i: nat)
    requires i < |cfg.reachable|
  {
    var name := cfg.reachable[i].name;
    name !in m.visited && (if cfg.plugin == Cpp then name !in m.sent else name != cfg.committee)
  }

  /** The members through which the open committees before position `n` are reached. */
  function Doors(cfg: Config, m: ExtClrMsg, n: nat): set<string>
    requires n <= |cfg.reachable|
  {
    set i | 0 <= i < n && Open(cfg, m, i) && cfg.reachable[i].members != [] :: cfg.reachable[i].members[0]
  }

  /** A committee is contacted if it is open and those before it leave room in the flooding factor. */
  predicate Chosen(cfg: Config, m: ExtClrMsg, i: nat)
    requires i < |cfg.reachable|
  {
    Open(cfg, m, i) && (cfg.floodingFactor <= 0 || |Doors(cfg, m, i)| < cfg.floodingFactor)
  }

  predicate Unmanned(cfg: Config, m: ExtClrMsg) {
    exists i :: 0 <= i < |cfg.reachable| && Chosen(cfg, m, i) && cfg.reachable[i].members == []
  }

  /** The names of the committees contacted, in order. */
  function ChosenNames(cfg: Config, m: ExtClrMsg, n: nat): seq<string>
    requires n <= |cfg.reachable|
  {
    if n == 0 then []
    else ChosenNames(cfg, m, n - 1) + if Chosen(cfg, m, n - 1) then [cfg.reachable[n - 1].name] else []
  }

  /** A copy for the first member of a committee contacted: a new message there, which has been here. */
  predicate IsContact(cfg: Config, m: ExtClrMsg, i: nat, s: Send) {
    && i < |cfg.reachable| && Chosen(cfg, m, i) && cfg.reachable[i].members != []
    && s == ToServer(cfg.reachable[i].members[0],
              m.(ringTtl := UNSET_RING_TTL,
                 visited := if cfg.committee in m.visited then m.visited else m.visited + [cfg.committee],
                 sent := []))
  }

  /** The committees contacted are recorded in what goes on along the rings; C++ records its own one as well. */
  function Record(cfg: Config, m: ExtClrMsg): ExtClrMsg {
    m.(sent := m.sent + ChosenNames(cfg, m, |cfg.reachable|),
       visited := if cfg.plugin == Python || cfg.committee in m.visited then m.visited else m.visited + [cfg.committee])
  }

  /** One copy for each door of a committee contacted, and no other. */
  ghost predicate AreContacts(cfg: Config, m: ExtClrMsg, copies: seq<Send>) {
    && Distinct(copies)
    && forall s :: s in copies <==> exists i :: IsContact(cfg, m, i, s)
  }

  /** The record to the next server, on every ring in Python and on the first in C++, while the factor is not used up. */
  predicate ArePasses(cfg: Config, m: ExtClrMsg, contacts: nat, passes: seq<Send>) {
    var goesOn := cfg.floodingFactor <= 0
      || contacts + (if cfg.plugin == Cpp then |m.sent| else 0) < cfg.floodingFactor;
    && |passes| == (if !goesOn then 0 else if cfg.plugin == Cpp && |cfg.rings| > 1 then 1 else |cfg.rings|)
    && forall r :: 0 <= r < |passes| ==> passes[r] == ToServer(cfg.rings[r].next, Record(cfg, m))
  }

  // ----- the loop -----

  /** What the loop has collected before position `n`, if it gets there. */
  ghost predicate Collected(cfg: Config, m: ExtClrMsg, n: nat, acc: Picks) {
    && n <= |cfg.reachable|
    && acc.committees == ChosenNames(cfg, m, n)
    && Distinct(acc.dsts) && (set d | d in acc.dsts) == Doors(cfg, m, n)
    && (forall i :: 0 <= i < n && Chosen(cfg, m, i) ==> cfg.reachable[i].members != [])
    && (n > 0 && cfg.floodingFactor > 0 ==> |Doors(cfg, m, n - 1)| < cfg.floodingFactor)
  }

  lemma DoorsNext(cfg: Config, m: ExtClrMsg, n: nat)
    requires n < |cfg.reachable|
    ensures Doors(cfg, m, n + 1) == Doors(cfg, m, n)
      + if Open(cfg, m, n) && cfg.reachable[n].members != [] then {cfg.reachable[n].members[0]} else {}
  {
  }

  lemma {:induction false} DoorsGrow(cfg: Config, m: ExtClrMsg, n: nat, k: nat)
    requires n <= k <= |cfg.reachable|
    ensures Doors(cfg, m, n) <= Doors(cfg, m, k)
    ensures |Doors(cfg, m, n)| <= |Doors(cfg, m, k)|
  {
    assert forall d :: d in Doors(cfg, m, n) ==> d in Doors(cfg, m, k);
    var more := Doors(cfg, m, k) - Doors(cfg, m, n);
    assert Doors(cfg, m, k) == Doors(cfg, m, n) + more;
  }

  /** Nothing is chosen any more from where the factor is used up. */
  lemma {:induction false} NoneBehind(cfg: Config, m: ExtClrMsg, n: nat, k: nat)
    requires n <= k <= |cfg.reachable| && cfg.floodingFactor > 0 && |Doors(cfg, m, n)| >= cfg.floodingFactor
    ensures ChosenNames(cfg, m, k) == ChosenNames(cfg, m, n)
    ensures forall i :: n <= i < k ==> !Chosen(cfg, m, i)
    decreases k
  {
    if n < k {
      NoneBehind(cfg, m, n, k - 1);
      DoorsGrow(cfg, m, n, k - 1);
    }
  }

  /** One committee more. */
  lemma CollectsOne(cfg: Config, m: ExtClrMsg, n: nat, acc: Picks)
    requires Collected(cfg, m, n, acc) && n < |cfg.reachable| && Chosen(cfg, m, n) && cfg.reachable[n].members != []
    ensures Collected(cfg, m, n + 1, AddPick(acc, cfg.reachable[n]))
  {
    DoorsNext(cfg, m, n);
    var door := cfg.reachable[n].members[0];
    var acc' := AddPick(acc, cfg.reachable[n]);
    assert (set d | d in acc'.dsts) == (set d | d in acc.dsts) + {door};
  }

  /** A committee that is not open changes nothing. */
  lemma SkipsOne(cfg: Config, m: ExtClrMsg, n: nat, acc: Picks)
    requires Collected(cfg, m, n, acc) && n < |cfg.reachable| && !Open(cfg, m, n)
    requires cfg.floodingFactor > 0 ==> |Doors(cfg, m, n)| < cfg.floodingFactor
    ensures Collected(cfg, m, n + 1, acc)
  {
    DoorsNext(cfg, m, n);
  }

  lemma OpenMeans(cfg: Config, m: ExtClrMsg, n: nat)
    requires n < |cfg.reachable|
    ensures Open(cfg, m, n) <==> cfg.reachable[n].name !in SkipList(cfg, m)
  {
  }

  lemma {:induction false} PickCollects(cfg: Config, m: ExtClrMsg, n: nat, acc: Picks) returns (end: nat)
    requires Collected(cfg, m, n, acc)
    requires cfg.floodingFactor > 0 ==> |acc.dsts| < cfg.floodingFactor
    ensures n <= end <= |cfg.reachable|
    ensures var p := Pick(cfg.reachable[n..], SkipList(cfg, m), cfg.floodingFactor, acc);
      if p.None? then end < |cfg.reachable| && Chosen(cfg, m, end) && cfg.reachable[end].members == []
      else && Collected(cfg, m, end, p.value)
           && (end == |cfg.reachable| || (cfg.floodingFactor > 0 && |p.value.dsts| >= cfg.floodingFactor))
    decreases |cfg.reachable| - n
  {
    end := n;
    DistinctSize(acc.dsts);
    if n < |cfg.reachable| {
      var r, rest := cfg.reachable[n], cfg.reachable[n + 1..];
      assert cfg.reachable[n..] == [r] + rest;
      OpenMeans(cfg, m, n);
      if !Open(cfg, m, n) {
        SkipsOne(cfg, m, n, acc);
        end := PickCollects(cfg, m, n + 1, acc);
      } else if r.members != [] {
        CollectsOne(cfg, m, n, acc);
        var acc' := AddPick(acc, r);
        if cfg.floodingFactor > 0 && |acc'.dsts| >= cfg.floodingFactor {
          end := n + 1;
        } else {
          end := PickCollects(cfg, m, n + 1, acc');
        }
      }
    }
  }

  /** The committee at this position is contacted through this member. */
  predicate ContactedBy(cfg: Config, m: ExtClrMsg, i: nat, d: string) {
    i < |cfg.reachable| && Chosen(cfg, m, i) && cfg.reachable[i].members != [] && cfg.reachable[i].members[0] == d
  }

  /** Where the loop ends, all that is chosen has been collected. */
  lemma AllCollected(cfg: Config, m: ExtClrMsg, end: nat, picks: Picks)
    requires Collected(cfg, m, end, picks)
    requires end == |cfg.reachable| || (cfg.floodingFactor > 0 && |picks.dsts| >= cfg.floodingFactor)
    ensures !Unmanned(cfg, m)
    ensures picks.committees == ChosenNames(cfg, m, |cfg.reachable|)
    ensures Distinct(picks.dsts)
    ensures forall d :: d in picks.dsts <==> exists i :: ContactedBy(cfg, m, i, d)
  {
    DistinctSize(picks.dsts);
    if end < |cfg.reachable| {
      NoneBehind(cfg, m, end, |cfg.reachable|);
    }
    forall d | d in picks.dsts ensures exists i :: ContactedBy(cfg, m, i, d) {
      assert d in Doors(cfg, m, end);
      var i := FirstDoor(cfg, m, end, d);
      assert ContactedBy(cfg, m, i, d);
    }
    forall i: nat, d | ContactedBy(cfg, m, i, d) ensures d in picks.dsts {
      assert d in Doors(cfg, m, end);
    }
  }

  /** A door comes from a committee contacted. */
  lemma FirstDoor(cfg: Config, m: ExtClrMsg, n: nat, d: string) returns (i: nat)
    requires n <= |cfg.reachable| && d in Doors(cfg, m, n)
    requires n > 0 && cfg.floodingFactor > 0 ==> |Doors(cfg, m, n - 1)| < cfg.floodingFactor
    ensures i < n && ContactedBy(cfg, m, i, d)
  {
    i :| 0 <= i < n && Open(cfg, m, i) && cfg.reachable[i].members != [] && cfg.reachable[i].members[0] == d;
    DoorsGrow(cfg, m, i, n - 1);
  }

  // ----- what a server forwards -----

  lemma CopiesAreContacts(cfg: Config, m: ExtClrMsg, dsts: seq<string>)
    requires Distinct(dsts) && forall d :: d in dsts <==> exists i :: ContactedBy(cfg, m, i, d)
    ensures AreContacts(cfg, m, SendAll(dsts, Intercom(cfg, m)))
  {
    var copies := SendAll(dsts, Intercom(cfg, m));
    forall s | s in copies ensures exists i :: IsContact(cfg, m, i, s) {
      var k :| 0 <= k < |copies| && copies[k] == s;
      assert dsts[k] in dsts;
      var i :| ContactedBy(cfg, m, i, dsts[k]);
      assert IsContact(cfg, m, i, s);
    }
    forall i: nat, s | IsContact(cfg, m, i, s) ensures s in copies {
      var d := cfg.reachable[i].members[0];
      assert ContactedBy(cfg, m, i, d) && d in dsts;
      var k :| 0 <= k < |dsts| && dsts[k] == d;
      assert copies[k] == s;
    }
  }

  /**
   * Forwarding fails exactly if a committee chosen has no known member. Otherwise one copy goes to
   * each first member of a committee chosen, and then the record goes along the rings as long as
   * fewer members than the factor were contacted.
   */
  lemma ForwardsToChosen(cfg: Config, m: ExtClrMsg) returns (copies: seq<Send>, passes: seq<Send>)
    ensures ForwardSends(cfg, m).None? <==> Unmanned(cfg, m)
    ensures !Unmanned(cfg, m) ==>
      && ForwardSends(cfg, m) == Some(copies + passes)
      && AreContacts(cfg, m, copies)
      && ArePasses(cfg, m, |copies|, passes)
  {
    copies, passes := [], [];
    assert cfg.reachable[0..] == cfg.reachable;
    var end := PickCollects(cfg, m, 0, NoPicks);
    var picked := Picked(cfg, m);
    if picked.Some? {
      var picks := picked.value;
      AllCollected(cfg, m, end, picks);
      copies, passes := SendAll(picks.dsts, Intercom(cfg, m)), PassSends(cfg, m, picks);
      CopiesAreContacts(cfg, m, picks.dsts);
      assert Passed(cfg, m, picks) == Record(cfg, m);
    }
  }
}
