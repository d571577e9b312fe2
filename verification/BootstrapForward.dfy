/**
 * The way of a load request from the introducer to a committee member (handleLinkLoadRequest and
 * handleLinkLoadRequestForward of BootstrapManager.cpp), which drops full channels and loads the rest.
 */
module BootstrapForward {
  import opened Wrappers
  import T = BootstrapTarget

  /** What the introducer sends on: the addresses and channels as they came, and who sent them. */
  datatype Forward = Forward(dest: string, persona: string, addresses: seq<string>, channels: seq<string>)

  datatype Load = Load(channel: string, address: string, persona: string)

  function Forwarded(m: T.LinkMsg, sender: string): Forward {
    Forward(m.persona, sender, m.addresses, m.channels)
  }

  datatype Pair = Pair(channel: string, address: string)

  function Zip(channels: seq<string>, addresses: seq<string>): (r: seq<Pair>)
    requires |channels| == |addresses|
    ensures |r| == |channels|
  {
    seq(|channels|, i requires 0 <= i < |channels| => Pair(channels[i], addresses[i]))
  }

  /** What is left after the erase loop, which steps over the element that follows an erased one. */
  function Survivors(s: seq<Pair>, full: string -> bool): seq<Pair> {
    if s == [] then []
    else if !full(s[0].channel) then [s[0]] + Survivors(s[1..], full)
    else if |s| == 1 then []
    else [s[1]] + Survivors(s[2..], full)
  }

  /** The erase loop on the two vectors. */
  method DropFull(channelGids: seq<string>, linkAddresses: seq<string>, full: string -> bool)
    returns (channels: seq<string>, links: seq<string>)
    requires |channelGids| == |linkAddresses|
    ensures |channels| == |links|
    ensures Zip(channels, links) == Survivors(Zip(channelGids, linkAddresses), full)
  {
    channels, links := channelGids, linkAddresses;
    ghost var result := Survivors(Zip(channelGids, linkAddresses), full);
    var i := 0;
    while i < |channels|
      invariant |channels| == |links| && 0 <= i
      invariant Progress(Zip(channels, links), i, full) == result
      decreases |channels| - i
    {
      ghost var z := Zip(channels, links);
      if full(channels[i]) {
        EraseStep(z, i, full);
        ZipRemove(channels, links, i);
        channels := RemoveAt(channels, i);
        links := RemoveAt(links, i);
      } else {
        KeepStep(z, i, full);
      }
      i := i + 1;
    }
  }

  lemma ZipRemove(channels: seq<string>, links: seq<string>, i: nat)
    requires |channels| == |links| && i < |channels|
    ensures Zip(RemoveAt(channels, i), RemoveAt(links, i)) == RemoveAt(Zip(channels, links), i)
  {
    var a, b := Zip(RemoveAt(channels, i), RemoveAt(links, i)), RemoveAt(Zip(channels, links), i);
    assert |a| == |b|;
    forall k | 0 <= k < |a| ensures a[k] == b[k] {
    }
  }

  /** The outcome of the erase loop when it is at position `i`. */
  function Progress(z: seq<Pair>, i: nat, full: string -> bool): seq<Pair> {
    if i >= |z| then z else z[..i] + Survivors(z[i..], full)
  }

  lemma EraseStep(z: seq<Pair>, i: nat, full: string -> bool)
    requires i < |z| && full(z[i].channel)
    ensures Progress(RemoveAt(z, i), i + 1, full) == Progress(z, i, full)
  {
    var r := RemoveAt(z, i);
    if i + 1 < |z| {
      assert Survivors(z[i..], full) == [z[i + 1]] + Survivors(z[i..][2..], full);
      assert z[i..][2..] == r[i + 1..];
      assert r[..i + 1] == z[..i] + [z[i + 1]];
    }
  }

  lemma KeepStep(z: seq<Pair>, i: nat, full: string -> bool)
    requires i < |z| && !full(z[i].channel)
    ensures Progress(z, i + 1, full) == Progress(z, i, full)
  {
    assert Survivors(z[i..], full) == [z[i]] + Survivors(z[i..][1..], full);
    assert z[i..][1..] == z[i + 1..];
    assert z[..i + 1] == z[..i] + [z[i]];
  }

  datatype Response = PluginOk | PluginError

  function LoadsFor(pairs: seq<Pair>, persona: string): (r: seq<Load>)
    ensures |r| == |pairs|
  {
    seq(|pairs|, i requires 0 <= i < |pairs| => Load(pairs[i].channel, pairs[i].address, persona))
  }

  method HandleLinkLoadRequestForward(bMsg: Forward, full: string -> bool) returns (r: Response, loads: seq<Load>)
    ensures |bMsg.channels| != |bMsg.addresses| ==> r == PluginError && loads == []
    ensures |bMsg.channels| == |bMsg.addresses| ==>
      var left := Survivors(Zip(bMsg.channels, bMsg.addresses), full);
      loads == LoadsFor(left, bMsg.persona) && (r == PluginOk <==> left != [])
  {
    if |bMsg.channels| != |bMsg.addresses| {
      return PluginError, [];
    }
    var channels, links := DropFull(bMsg.channels, bMsg.addresses, full);
    if channels == [] {
      return PluginError, [];
    }
    loads := [];
    var i := 0;
    while i < |channels|
      invariant 0 <= i <= |channels|
      invariant loads == LoadsFor(Zip(channels, links), bMsg.persona)[..i]
    {
      loads := loads + [Load(channels[i], links[i], bMsg.persona)];
      i := i + 1;
    }
    r := PluginOk;
  }

  // ----- what the filter keeps -----

  predicate IsSubsequence(a: seq<Pair>, b: seq<Pair>) {
    if a == [] then true
    else if b == [] then false
    else if a[0] == b[0] then IsSubsequence(a[1..], b[1..])
    else IsSubsequence(a, b[1..])
  }

  lemma {:induction false} SkipFirst(a: seq<Pair>, b: seq<Pair>)
    requires b != [] && IsSubsequence(a, b[1..])
    ensures IsSubsequence(a, b)
    decreases |b|, 0
  {
    if a != [] && a[0] == b[0] {
      DropFirst(a, b[1..]);
    }
  }

  lemma {:induction false} DropFirst(a: seq<Pair>, b: seq<Pair>)
    requires a != [] && IsSubsequence(a, b)
    ensures IsSubsequence(a[1..], b)
    decreases |b|, 1
  {
    if a[0] == b[0] {
      SkipFirst(a[1..], b);
    } else {
      DropFirst(a, b[1..]);
      SkipFirst(a[1..], b);
    }
  }

  function NotFull(s: seq<Pair>, full: string -> bool): seq<Pair> {
    if s == [] then [] else (if full(s[0].channel) then [] else [s[0]]) + NotFull(s[1..], full)
  }

  predicate AllOpen(s: seq<Pair>, full: string -> bool) {
    forall i :: 0 <= i < |s| ==> !full(s[i].channel)
  }

  /** Two full channels next to each other. */
  predicate FullNeighbours(s: seq<Pair>, full: string -> bool) {
    exists i :: 0 <= i < |s| - 1 && full(s[i].channel) && full(s[i + 1].channel)
  }

  /** The survivors are the pairs sent, in their order, with only full channels left out. */
  lemma {:induction false} OnlyFullDropped(s: seq<Pair>, full: string -> bool)
    ensures IsSubsequence(Survivors(s, full), s)
    ensures NotFull(Survivors(s, full), full) == NotFull(s, full)
  {
    if s != [] {
      if !full(s[0].channel) {
        OnlyFullDropped(s[1..], full);
      } else if |s| > 1 {
        OnlyFullDropped(s[2..], full);
        var r := Survivors(s, full);
        assert r[0] == s[1] && r[1..] == Survivors(s[2..], full);
        assert s[1..][1..] == s[2..];
        assert IsSubsequence(r, s[1..]);
        SkipFirst(r, s);
      }
    }
  }

  lemma AllOpenCons(x: Pair, t: seq<Pair>, full: string -> bool)
    ensures AllOpen([x] + t, full) <==> !full(x.channel) && AllOpen(t, full)
  {
    var r := [x] + t;
    if AllOpen(r, full) {
      assert !full(r[0].channel);
      forall i | 0 <= i < |t| ensures !full(t[i].channel) {
        assert r[i + 1] == t[i];
      }
    }
  }

  /** The loop drops every full channel exactly when no two full ones stand next to each other. */
  lemma {:induction false} AllFullDroppedWhen(s: seq<Pair>, full: string -> bool)
    ensures AllOpen(Survivors(s, full), full) <==> !FullNeighbours(s, full)
  {
    if s != [] {
      var r := Survivors(s, full);
      if !full(s[0].channel) {
        AllFullDroppedWhen(s[1..], full);
        NeighboursFrom(s, full, 1);
        assert r == [s[0]] + Survivors(s[1..], full);
        AllOpenCons(s[0], Survivors(s[1..], full), full);
      } else if |s| > 1 {
        AllFullDroppedWhen(s[2..], full);
        NeighboursFrom(s, full, 2);
        assert r == [s[1]] + Survivors(s[2..], full);
        AllOpenCons(s[1], Survivors(s[2..], full), full);
      }
    }
  }

  /** Neighbours lie behind position `n` if the channel before it is open. */
  lemma NeighboursFrom(s: seq<Pair>, full: string -> bool, n: nat)
    requires 1 <= n <= 2 && n <= |s|
    ensures FullNeighbours(s[n..], full) ==> FullNeighbours(s, full)
    ensures !full(s[n - 1].channel) && FullNeighbours(s, full) ==> FullNeighbours(s[n..], full)
    ensures n == 2 && full(s[0].channel) && full(s[1].channel) ==> FullNeighbours(s, full)
  {
    var t := s[n..];
    if FullNeighbours(t, full) {
      var i :| 0 <= i < |t| - 1 && full(t[i].channel) && full(t[i + 1].channel);
      assert full(s[n + i].channel) && full(s[n + i + 1].channel);
    }
    if !full(s[n - 1].channel) && FullNeighbours(s, full) {
      var i :| 0 <= i < |s| - 1 && full(s[i].channel) && full(s[i + 1].channel);
      assert i >= n;
      assert full(t[i - n].channel) && full(t[i - n + 1].channel);
    }
    if n == 2 && full(s[0].channel) && full(s[1].channel) {
      assert full(s[0 + 1].channel);
    }
  }

  // ----- end to end -----

  lemma {:induction false} SubsequenceMember(a: seq<Pair>, b: seq<Pair>, i: nat) returns (j: nat)
    requires IsSubsequence(a, b) && i < |a|
    ensures j < |b| && b[j] == a[i]
    decreases |b|
  {
    if a[0] != b[0] {
      j := SubsequenceMember(a, b[1..], i);
      j := j + 1;
    } else if i == 0 {
      j := 0;
    } else {
      j := SubsequenceMember(a[1..], b[1..], i - 1);
      j := j + 1;
    }
  }

  /**
   * Whatever the new node reports in any run, a committee member loads addresses only for the
   * channel on which the new node created that very link.
   */
  lemma LoadedAsCreated(events: seq<T.Event>, m: T.LinkMsg, sender: string, full: string -> bool, i: nat)
    requires T.Held(T.Run(T.START, events), m)
    ensures |m.channels| == |m.addresses|
    ensures
      var f := Forwarded(m, sender);
      var loads := LoadsFor(Survivors(Zip(f.channels, f.addresses), full), f.persona);
      i < |loads| ==> (loads[i].address, loads[i].channel) in T.Made(events) && loads[i].persona == sender
  {
    T.AlwaysPaired(events);
    assert T.Paired(m, T.Made(events));
    var pairs := Zip(m.channels, m.addresses);
    OnlyFullDropped(pairs, full);
    if i < |Survivors(pairs, full)| {
      var j := SubsequenceMember(Survivors(pairs, full), pairs, i);
    }
  }

  // ----- exactly which channels survive -----

  /** The number of full channels that stand without a gap right before position `i` is odd. */
  predicate OddBefore(s: seq<Pair>, full: string -> bool, i: nat)
    requires i <= |s|
  {
    i > 0 && full(s[i - 1].channel) && !OddBefore(s, full, i - 1)
  }

  /** A channel survives if it is open, or behind an odd number of full ones. */
  predicate Survives(s: seq<Pair>, full: string -> bool, i: nat)
    requires i < |s|
  {
    full(s[i].channel) ==> OddBefore(s, full, i)
  }

  /** The pairs from position `i` on that survive. */
  function SurvivorsFrom(s: seq<Pair>, full: string -> bool, i: nat): seq<Pair>
    decreases |s| - i
  {
    if i >= |s| then [] else (if Survives(s, full, i) then [s[i]] else []) + SurvivorsFrom(s, full, i + 1)
  }

  /** The survivors from a full channel on: the one behind it, and those from the next but one on. */
  lemma AfterFull(s: seq<Pair>, full: string -> bool, i: nat)
    requires i < |s| && full(s[i].channel) && !OddBefore(s, full, i)
    ensures i + 1 == |s| ==> SurvivorsFrom(s, full, i) == []
    ensures i + 1 < |s| ==>
      SurvivorsFrom(s, full, i) == [s[i + 1]] + SurvivorsFrom(s, full, i + 2) && !OddBefore(s, full, i + 2)
  {
    var next := i + 1;
    assert OddBefore(s, full, next);
    assert SurvivorsFrom(s, full, i) == SurvivorsFrom(s, full, next);
    if next < |s| {
      assert Survives(s, full, next);
    }
  }

  lemma AfterOpen(s: seq<Pair>, full: string -> bool, i: nat)
    requires i < |s| && !full(s[i].channel)
    ensures SurvivorsFrom(s, full, i) == [s[i]] + SurvivorsFrom(s, full, i + 1)
    ensures !OddBefore(s, full, i + 1)
  {
  }

  /** The erase loop from position `i` on. */
  function LoopFrom(s: seq<Pair>, full: string -> bool, i: nat): seq<Pair>
    decreases |s| - i
  {
    if i >= |s| then []
    else if !full(s[i].channel) then [s[i]] + LoopFrom(s, full, i + 1)
    else if i + 1 == |s| then []
    else [s[i + 1]] + LoopFrom(s, full, i + 2)
  }

  /** `t` is `s` behind one more element. */
  predicate IsBehind(t: seq<Pair>, s: seq<Pair>) {
    |t| == |s| + 1 && forall k, n :: 0 <= k < |s| && n == k + 1 ==> t[n] == s[k]
  }

  lemma {:induction false} LoopFromBehind(t: seq<Pair>, s: seq<Pair>, full: string -> bool, i: nat, j: nat)
    requires IsBehind(t, s) && j == i + 1
    ensures LoopFrom(t, full, j) == LoopFrom(s, full, i)
    decreases |s| - i
  {
    if i < |s| {
      assert t[j] == s[i];
      if !full(s[i].channel) {
        LoopFromBehind(t, s, full, i + 1, j + 1);
      } else if j < |s| {
        assert t[j + 1] == s[j];
        LoopFromBehind(t, s, full, i + 2, j + 2);
      }
    }
  }

  lemma {:induction false} SurvivorsAreLoop(s: seq<Pair>, full: string -> bool)
    ensures Survivors(s, full) == LoopFrom(s, full, 0)
  {
    if s != [] {
      var t := s[1..];
      if !full(s[0].channel) {
        SurvivorsAreLoop(t, full);
        LoopFromBehind(s, t, full, 0, 1);
      } else if |s| > 1 {
        var u := s[2..];
        SurvivorsAreLoop(u, full);
        LoopFromBehind(t, u, full, 0, 1);
        LoopFromBehind(s, t, full, 1, 2);
      }
    }
  }

  lemma {:induction false} LoopKeepsSurvivors(s: seq<Pair>, full: string -> bool, i: nat)
    requires i <= |s| && !OddBefore(s, full, i)
    ensures LoopFrom(s, full, i) == SurvivorsFrom(s, full, i)
    decreases |s| - i
  {
    if i < |s| {
      if !full(s[i].channel) {
        AfterOpen(s, full, i);
        LoopKeepsSurvivors(s, full, i + 1);
      } else {
        AfterFull(s, full, i);
        if i + 1 < |s| {
          LoopKeepsSurvivors(s, full, i + 2);
        }
      }
    }
  }

  /** The erase loop keeps exactly the channels that are open or behind an odd number of full ones. */
  lemma SurvivorsExactly(s: seq<Pair>, full: string -> bool)
    ensures Survivors(s, full) == SurvivorsFrom(s, full, 0)
  {
    SurvivorsAreLoop(s, full);
    LoopKeepsSurvivors(s, full, 0);
  }

  /**
   * Whatever the new node reports as a load request is sent on, as it came, to the very committee
   * member for whom its request was made.
   */
  lemma ForwardedToMember(events: seq<T.Event>, k: nat, m: T.LinkMsg, sender: string)
    requires T.OpensOnce(events, k) && T.Held(T.Run(T.START, events), m) && m.kind == T.LoadRequest
    ensures
      var s, f := T.Run(T.START, events[..k]), Forwarded(m, sender);
      && s.counter <= m.messageHandle < s.counter + |s.committee|
      && f.dest == s.committee[m.messageHandle - s.counter]
      && f.persona == sender && f.addresses == m.addresses && f.channels == m.channels
  {
    T.MembersRun(events, k);
    var s := T.Run(T.START, events[..k]);
    assert T.ForMember(m, s.counter, s.committee);
  }
}
