/**
 * Sending over ranked connections with fail-over (sendFormattedMsg and onPackageStatusChanged of
 * PluginNMTwoSix.cpp): which connections a send tries, when it gives up, and how a package that
 * failed later moves on to other connections.
 */
module Failover {
  import opened Wrappers

  /** The SDK's answer to one sendEncryptedPackage call. */
  datatype Answer = Answer(ok: bool, handle: int)

  datatype AddressedMsg = AddressedMsg(dst: string, msg: string, reliable: bool, linkRank: nat)

  /** `OutOfRange` escapes the call: the handler for unknown personas catches another exception type. */
  datatype SendResult = Handle(handle: int) | NullHandle | OutOfRange

  datatype PackageStatus =
    | PackageInvalid | PackageSent | PackageReceived
    | PackageFailedGeneric | PackageFailedNetworkError | PackageFailedTimeout

  // ----- which connections a send tries -----

  /** The remainder `a % n` of unsigned division, by repeated subtraction. */
  function Rem(a: nat, n: nat): (r: nat)
    requires n > 0
    ensures r < n
    ensures a < n ==> r == a
  {
    if a < n then a else Rem(a - n, n)
  }

  /** A multiple other than zero is no nearer to zero than the number itself. */
  lemma MultipleOutside(k: int, n: int)
    requires n > 0
    ensures k >= 1 ==> k * n >= n
    ensures k <= -1 ==> k * n <= -n
  {
  }

  /** One multiple of the divisor less leaves the same remainder. */
  lemma ModuloShift(a: int, n: int)
    requires 0 < n <= a
    ensures a % n == (a - n) % n
  {
    var q, p := a / n, (a - n) / n;
    assert a == q * n + a % n && a - n == p * n + (a - n) % n;
    MultipleOutside(q - p - 1, n);
  }

  lemma {:induction false} RemIsModulo(a: nat, n: nat)
    requires n > 0
    ensures Rem(a, n) == a % n
  {
    if a >= n {
      RemIsModulo(a - n, n);
      ModuloShift(a, n);
    }
  }

  lemma {:induction false} RemNext(a: nat, n: nat)
    requires n > 0
    ensures Rem(a + 1, n) == if Rem(a, n) + 1 == n then 0 else Rem(a, n) + 1
  {
    if a >= n {
      RemNext(a - n, n);
    }
  }

  /** The position used at a link rank: the rank modulo the list's size, truncated to eight bits. */
  function Position(size: nat, rank: nat): (p: nat)
    requires size > 0
    ensures p < size && p < 256
    ensures rank < size && rank < 256 ==> p == rank
  {
    Rem(rank, size) % 256
  }

  /** Positions tried, in order, when the SDK gives `ask(rank)` to the attempt at link rank `rank`. */
  function Tries(size: nat, rank: nat, ask: nat -> Answer): seq<nat>
    requires size > 0
    decreases size - rank
  {
    [Position(size, rank)] + if ask(rank).ok || rank + 1 >= size then [] else Tries(size, rank + 1, ask)
  }

  /** The link rank whose attempt was accepted, if any was. */
  function Winner(size: nat, rank: nat, ask: nat -> Answer): Option<nat>
    requires size > 0
    decreases size - rank
  {
    if ask(rank).ok then Some(rank) else if rank + 1 >= size then None else Winner(size, rank + 1, ask)
  }

  predicate RefusedBetween(ask: nat -> Answer, from: nat, to: nat) {
    forall k: nat :: from <= k < to ==> !ask(k).ok
  }

  /** The positions used at the link ranks `from` up to but excluding `end`. */
  function Positions(size: nat, from: nat, end: nat): (s: seq<nat>)
    requires size > 0 && from <= end
    ensures |s| == end - from
    ensures forall i :: 0 <= i < |s| ==> s[i] == Position(size, from + i)
    decreases end - from
  {
    if from == end then [] else [Position(size, from)] + Positions(size, from + 1, end)
  }

  /**
   * A send from a rank inside the list tries the ranks from there on one by one, uses the first
   * that accepts, and gives up exactly when all of them refuse.
   */
  lemma {:induction false} FirstThatAccepts(size: nat, rank: nat, ask: nat -> Answer)
    requires rank < size
    ensures Winner(size, rank, ask).None? <==> RefusedBetween(ask, rank, size)
    ensures forall w :: Winner(size, rank, ask) == Some(w) <==> rank <= w < size && ask(w).ok && RefusedBetween(ask, rank, w)
    ensures
      var w := Winner(size, rank, ask);
      Tries(size, rank, ask) == Positions(size, rank, if w.Some? then w.value + 1 else size)
    decreases size - rank
  {
    if !ask(rank).ok && rank + 1 < size {
      var next := rank + 1;
      FirstThatAccepts(size, next, ask);
      RefusedNext(ask, rank, size);
      forall w: nat | rank < w <= size ensures RefusedBetween(ask, rank, w) <==> RefusedBetween(ask, next, w) {
        RefusedNext(ask, rank, w);
      }
      var w := Winner(size, rank, ask);
      var end := if w.Some? then w.value + 1 else size;
      assert Positions(size, rank, end) == [Position(size, rank)] + Positions(size, next, end);
    } else {
      assert Positions(size, rank, rank + 1) == [Position(size, rank)];
    }
  }

  lemma RefusedNext(ask: nat -> Answer, from: nat, end: nat)
    requires from < end
    ensures RefusedBetween(ask, from, end) <==> !ask(from).ok && RefusedBetween(ask, from + 1, end)
  {
  }

  /** A send from beyond the list, as after a failure on its last connection, makes one attempt. */
  lemma OneAttemptBeyond(size: nat, rank: nat, ask: nat -> Answer)
    requires 0 < size <= rank
    ensures Tries(size, rank, ask) == [Position(size, rank)]
    ensures Winner(size, rank, ask) == if ask(rank).ok then Some(rank) else None
  {
  }

  /** What a list of a given size may rely on: no connection is tried twice in one send. */
  ghost predicate NeverTwice(size: nat)
    requires size > 0
  {
    forall ask: nat -> Answer :: Distinct(Tries(size, 0, ask))
  }

  lemma TriesDistinct(size: nat, ask: nat -> Answer)
    requires 0 < size <= 256
    ensures Distinct(Tries(size, 0, ask))
  {
    FirstThatAccepts(size, 0, ask);
    var w := Winner(size, 0, ask);
    var tries := Positions(size, 0, if w.Some? then w.value + 1 else size);
    assert forall i :: 0 <= i < |tries| ==> tries[i] == i;
  }

  /** The rank 256 is cut to zero. */
  lemma ComesBack(size: nat)
    requires size > 256
    ensures !Distinct(Positions(size, 0, size))
  {
    var tries := Positions(size, 0, size);
    assert tries[0] == Position(size, 0 + 0) && tries[256] == Position(size, 0 + 256);
  }

  /** Truncating the rank to eight bits is harmless exactly for lists of at most 256 connections. */
  lemma NeverTwiceWhen(size: nat)
    requires size > 0
    ensures NeverTwice(size) <==> size <= 256
  {
    if size <= 256 {
      forall ask: nat -> Answer ensures Distinct(Tries(size, 0, ask)) {
        TriesDistinct(size, ask);
      }
    } else {
      var never: nat -> Answer := (k: nat) => Answer(false, 0);
      FirstThatAccepts(size, 0, never);
      ComesBack(size);
      assert !Distinct(Tries(size, 0, never));
    }
  }

  /** Every attempt on a connection gets the same answer from the SDK. */
  predicate ByConnection(size: nat, ask: nat -> Answer, accepts: nat -> bool)
    requires size > 0
  {
    forall rank: nat :: rank < size ==> ask(rank).ok == accepts(Position(size, rank))
  }

  /** A send gives up only when every connection in the list refuses. */
  ghost predicate GivesUpOnlyIfAllRefuse(size: nat)
    requires size > 0
  {
    forall ask: nat -> Answer, accepts: nat -> bool ::
      ByConnection(size, ask, accepts) && Winner(size, 0, ask).None? ==> RefusesAll(size, accepts)
  }

  predicate RefusesAll(size: nat, accepts: nat -> bool) {
    forall p: nat :: p < size ==> !accepts(p)
  }

  /** In a longer list the connections from position 256 on are never used, even when only they would accept. */
  lemma GivesUpOnlyIfAllRefuseWhen(size: nat)
    requires size > 0
    ensures GivesUpOnlyIfAllRefuse(size) <==> size <= 256
  {
    if size <= 256 {
      forall ask: nat -> Answer, accepts: nat -> bool | ByConnection(size, ask, accepts) && Winner(size, 0, ask).None?
        ensures RefusesAll(size, accepts)
      {
        FirstThatAccepts(size, 0, ask);
        forall p: nat | p < size ensures !accepts(p) {
          assert !ask(p).ok;
        }
      }
    } else {
      var never: nat -> Answer := (k: nat) => Answer(false, 0);
      var late: nat -> bool := (p: nat) => p >= 256;
      FirstThatAccepts(size, 0, never);
      assert ByConnection(size, never, late) && late(256);
      assert !RefusesAll(size, late);
    }
  }

  // ----- resending -----

  /** The position in use after a package has failed `failures` times, each resend being accepted at once. */
  function PositionAfter(size: nat, failures: nat): nat
    requires size > 0
  {
    if failures == 0 then 0 else Position(size, PositionAfter(size, failures - 1) + 1)
  }

  /** Repeated failures go round the first 256 connections (all of them, in a shorter list) in rank order. */
  lemma {:induction false} ResendsGoRound(size: nat, failures: nat)
    requires size > 0
    ensures PositionAfter(size, failures) == Rem(failures, if size < 256 then size else 256)
  {
    if failures > 0 {
      var n := if size < 256 then size else 256;
      ResendsGoRound(size, failures - 1);
      RemNext(failures - 1, n);
      NextPosition(size, n, Rem(failures - 1, n));
    }
  }

  lemma NextPosition(size: nat, n: nat, p: nat)
    requires n == (if size < 256 then size else 256) && p < n
    ensures Position(size, p + 1) == if p + 1 == n then 0 else p + 1
  {
  }

  // ----- the code -----

  function Named(ranked: seq<string>, positions: seq<nat>): seq<string>
    requires forall i :: 0 <= i < |positions| ==> positions[i] < |ranked|
  {
    seq(|positions|, i requires 0 <= i < |positions| => ranked[positions[i]])
  }

  lemma {:induction false} TriesInside(size: nat, rank: nat, ask: nat -> Answer)
    requires size > 0
    ensures forall i :: 0 <= i < |Tries(size, rank, ask)| ==> Tries(size, rank, ask)[i] < size
    decreases size - rank
  {
    if !ask(rank).ok && rank + 1 < size {
      TriesInside(size, rank + 1, ask);
    }
  }

  /** What a send leaves behind: the connections it tried, its result, and the entry for a resend. */
  ghost predicate Sent(ranked: seq<string>, m: AddressedMsg, ask: nat -> Answer, reliable: string -> bool,
                       before: map<int, AddressedMsg>, after: map<int, AddressedMsg>, tried: seq<string>, r: SendResult)
    requires ranked != []
  {
    var w := Winner(|ranked|, m.linkRank, ask);
    TriesInside(|ranked|, m.linkRank, ask);
    && tried == Named(ranked, Tries(|ranked|, m.linkRank, ask))
    && match w {
         case None => r == NullHandle && after == before
         case Some(rank) =>
           var p := Position(|ranked|, rank);
           var handle := ask(rank).handle;
           && r == Handle(handle)
           && after == if handle in before then before
                       else before[handle := m.(reliable := reliable(ranked[p]), linkRank := p)]
       }
  }

  /** The connections at these ranks, in order; ranks are cut to eight bits. */
  ghost predicate TriedInTurn(ranked: seq<string>, from: nat, end: nat, tried: seq<string>) {
    && from <= end <= |ranked| && |tried| == end - from
    && forall i :: 0 <= i < |tried| ==> (from + i) % 256 < |ranked| && tried[i] == ranked[(from + i) % 256]
  }

  lemma PositionInside(size: nat, rank: nat)
    requires rank < size
    ensures Position(size, rank) == rank % 256
  {
  }

  lemma NamedInTurn(ranked: seq<string>, from: nat, end: nat)
    requires ranked != [] && from <= end <= |ranked|
    ensures forall i :: 0 <= i < end - from ==> Positions(|ranked|, from, end)[i] < |ranked|
    ensures TriedInTurn(ranked, from, end, Named(ranked, Positions(|ranked|, from, end)))
  {
    var positions := Positions(|ranked|, from, end);
    forall i | 0 <= i < |positions| ensures positions[i] == (from + i) % 256 && positions[i] < |ranked| {
      PositionInside(|ranked|, from + i);
    }
  }

  /**
   * What a send from a rank in the list does: it tries the connections from there on, one by one, and
   * returns null, recording nothing, exactly if all refuse; otherwise it returns the handle of the
   * first that accepts and files the message with this connection's rank for a resend.
   */
  lemma SentMeans(ranked: seq<string>, m: AddressedMsg, ask: nat -> Answer, reliable: string -> bool,
                  before: map<int, AddressedMsg>, after: map<int, AddressedMsg>, tried: seq<string>, r: SendResult, w: nat)
    requires m.linkRank < |ranked| && Sent(ranked, m, ask, reliable, before, after, tried, r)
    ensures r == NullHandle <==> RefusedBetween(ask, m.linkRank, |ranked|)
    ensures r == NullHandle ==> after == before && TriedInTurn(ranked, m.linkRank, |ranked|, tried)
    ensures m.linkRank <= w < |ranked| && ask(w).ok && RefusedBetween(ask, m.linkRank, w) ==>
      && r == Handle(ask(w).handle)
      && TriedInTurn(ranked, m.linkRank, w + 1, tried)
      && (ask(w).handle in before ==> after == before)
      && w % 256 < |ranked|
      && (ask(w).handle !in before ==>
            after == before[ask(w).handle := AddressedMsg(m.dst, m.msg, reliable(ranked[w % 256]), w % 256)])
  {
    FirstThatAccepts(|ranked|, m.linkRank, ask);
    var winner := Winner(|ranked|, m.linkRank, ask);
    NamedInTurn(ranked, m.linkRank, if winner.Some? then winner.value + 1 else |ranked|);
    if winner.Some? {
      PositionInside(|ranked|, winner.value);
    }
  }

  /** A refused attempt, and then a send from the next rank. */
  lemma SentAfterRefusal(ranked: seq<string>, m: AddressedMsg, ask: nat -> Answer, reliable: string -> bool,
                         before: map<int, AddressedMsg>, after: map<int, AddressedMsg>, tried: seq<string>, r: SendResult)
    requires ranked != [] && !ask(m.linkRank).ok && m.linkRank + 1 < |ranked|
    requires Sent(ranked, m.(linkRank := m.linkRank + 1), ask, reliable, before, after, tried, r)
    ensures Sent(ranked, m, ask, reliable, before, after, [ranked[Position(|ranked|, m.linkRank)]] + tried, r)
  {
    TriesInside(|ranked|, m.linkRank, ask);
    TriesInside(|ranked|, m.linkRank + 1, ask);
  }

  /** One send of a package: the SDK's answers, the resend map around it, and what it tried. */
  datatype Round = Round(ask: nat -> Answer, reliable: string -> bool,
                         before: map<int, AddressedMsg>, after: map<int, AddressedMsg>, tried: seq<string>, handle: int)

  /** The first attempt of the round was accepted, under a handle not in the resend map. */
  ghost predicate AcceptedAtOnce(ranked: seq<string>, m: AddressedMsg, round: Round)
    requires ranked != []
  {
    && round.ask(m.linkRank).ok
    && round.handle !in round.before
    && Sent(ranked, m, round.ask, round.reliable, round.before, round.after, round.tried, Handle(round.handle))
  }

  /** The entry a round left behind failed, and `next` is the resend; other packages may have come and gone meanwhile. */
  ghost predicate ResentBy(ranked: seq<string>, round: Round, next: Round)
    requires ranked != []
  {
    && round.handle in round.after
    && var entry := round.after[round.handle];
       AcceptedAtOnce(ranked, AddressedMsg(entry.dst, entry.msg, false, entry.linkRank + 1), next)
  }

  /** The sends of one package: a first one, and a resend after each failure. */
  ghost predicate SendsOf(ranked: seq<string>, dst: string, msg: string, rounds: seq<Round>)
    requires ranked != []
  {
    && (rounds != [] ==> AcceptedAtOnce(ranked, AddressedMsg(dst, msg, false, 0), rounds[0]))
    && forall i, j :: 0 <= i < j < |rounds| && j == i + 1 ==> ResentBy(ranked, rounds[i], rounds[j])
  }

  /** What an accepted round tries and records. */
  lemma AcceptedRecords(ranked: seq<string>, m: AddressedMsg, round: Round)
    requires ranked != [] && AcceptedAtOnce(ranked, m, round)
    ensures
      var p := Position(|ranked|, m.linkRank);
      && round.tried == [ranked[p]]
      && round.after == round.before[round.handle := AddressedMsg(m.dst, m.msg, round.reliable(ranked[p]), p)]
  {
    TriesInside(|ranked|, m.linkRank, round.ask);
    assert Tries(|ranked|, m.linkRank, round.ask) == [Position(|ranked|, m.linkRank)];
  }

  lemma {:induction false} RoundUses(ranked: seq<string>, dst: string, msg: string, rounds: seq<Round>, k: nat)
    requires ranked != [] && SendsOf(ranked, dst, msg, rounds) && k < |rounds|
    ensures
      var p := PositionAfter(|ranked|, k);
      && p < |ranked|
      && rounds[k].tried == [ranked[p]]
      && rounds[k].handle in rounds[k].after
      && rounds[k].after[rounds[k].handle] == AddressedMsg(dst, msg, rounds[k].reliable(ranked[p]), p)
  {
    if k == 0 {
      AcceptedRecords(ranked, AddressedMsg(dst, msg, false, 0), rounds[0]);
    } else {
      var j := k - 1;
      RoundUses(ranked, dst, msg, rounds, j);
      assert ResentBy(ranked, rounds[j], rounds[k]);
      AcceptedRecords(ranked, AddressedMsg(dst, msg, false, PositionAfter(|ranked|, j) + 1), rounds[k]);
    }
  }

  /**
   * A package that keeps failing goes round the connections to its destination in rank order, the
   * first 256 of them in a longer list: its resend after `k` failures uses connection `k % n`.
   */
  lemma FailuresGoRound(ranked: seq<string>, dst: string, msg: string, rounds: seq<Round>, k: nat)
    requires ranked != [] && SendsOf(ranked, dst, msg, rounds) && k < |rounds|
    ensures
      var n := if |ranked| < 256 then |ranked| else 256;
      && rounds[k].tried == [ranked[k % n]]
      && rounds[k].handle in rounds[k].after
      && rounds[k].after[rounds[k].handle] == AddressedMsg(dst, msg, rounds[k].reliable(ranked[k % n]), k % n)
  {
    var n := if |ranked| < 256 then |ranked| else 256;
    RoundUses(ranked, dst, msg, rounds, k);
    ResendsGoRound(|ranked|, k);
    RemIsModulo(k, n);
  }

  /** What has come after a log, if one entry came first. */
  lemma SinceThen(log: seq<string>, entry: string, later: seq<string>)
    requires log + [entry] <= later
    ensures later[|log|..] == [entry] + later[|log + [entry]|..]
  {
    assert later[|log|] == (log + [entry])[|log|];
  }

  class Sender {
    const personas: set<string>
    /** The IDs of the ranked connections to each destination. */
    var connections: map<string, seq<string>>
    var resendMap: map<int, AddressedMsg>
    /** The connections handed to sendEncryptedPackage so far. */
    var attempts: seq<string>

    constructor (personas: set<string>, connections: map<string, seq<string>>)
      ensures this.personas == personas && this.connections == connections && resendMap == map[] && attempts == []
    {
      this.personas, this.connections := personas, connections;
      resendMap, attempts := map[], [];
    }

    /** unordered_map::emplace leaves an entry that is already there alone. */
    function Recorded(handle: int, entry: AddressedMsg): map<int, AddressedMsg>
      reads this`resendMap
    {
      if handle in resendMap then resendMap else resendMap[handle := entry]
    }

    function RankedFor(dst: string): seq<string>
      reads this`connections
    {
      if dst in connections then connections[dst] else []
    }

    method SendFormattedMsg(dst: string, msg: string, linkRank: nat, ask: nat -> Answer, reliable: string -> bool)
      returns (r: SendResult)
      modifies this`resendMap, this`attempts
      ensures dst !in personas ==> r == OutOfRange && resendMap == old(resendMap) && attempts == old(attempts)
      ensures dst in personas && RankedFor(dst) == [] ==>
        r == NullHandle && resendMap == old(resendMap) && attempts == old(attempts)
      ensures dst in personas && RankedFor(dst) != [] ==>
        && old(attempts) <= attempts
        && Sent(RankedFor(dst), AddressedMsg(dst, msg, false, linkRank), ask, reliable,
                old(resendMap), resendMap, attempts[|old(attempts)|..], r)
      decreases |RankedFor(dst)| - linkRank
    {
      if dst !in personas {
        return OutOfRange;
      }
      if dst !in connections || |connections[dst]| == 0 {
        return NullHandle;
      }
      var rankedConns := connections[dst];
      var finalLinkRank := Position(|rankedConns|, linkRank);
      var connId := rankedConns[finalLinkRank];
      attempts := attempts + [connId];
      label Tried:
      var response := ask(linkRank);
      if !response.ok {
        if linkRank + 1 < |rankedConns| {
          r := SendFormattedMsg(dst, msg, linkRank + 1, ask, reliable);
          SinceThen(old(attempts), connId, attempts);
          SentAfterRefusal(rankedConns, AddressedMsg(dst, msg, false, linkRank), ask, reliable,
            old(resendMap), resendMap, attempts[|old@Tried(attempts)|..], r);
          return;
        }
        return NullHandle;
      }
      resendMap := Recorded(response.handle, AddressedMsg(dst, msg, reliable(connId), finalLinkRank));
      r := Handle(response.handle);
    }

    predicate Failed(status: PackageStatus) {
      status == PackageFailedGeneric || status == PackageFailedNetworkError || status == PackageFailedTimeout
    }

    /**
     * A failed package is sent again from the next rank, and its entry moves to the new handle; a
     * package that arrived, or left on an unreliable link, is forgotten. `escaped` tells that the
     * resend threw.
     */
    method OnPackageStatusChanged(handle: int, status: PackageStatus, ask: nat -> Answer, reliable: string -> bool)
      returns (resent: SendResult)
      modifies this`resendMap, this`attempts
      ensures Failed(status) && handle in old(resendMap) ==>
        var entry := old(resendMap)[handle];
        var ranked := RankedFor(entry.dst);
        if entry.dst !in personas then resent == OutOfRange && resendMap == old(resendMap) - {handle} && attempts == old(attempts)
        else if ranked == [] then resent == NullHandle && resendMap == old(resendMap) - {handle} && attempts == old(attempts)
        else
          && old(attempts) <= attempts
          && Sent(ranked, AddressedMsg(entry.dst, entry.msg, false, entry.linkRank + 1), ask, reliable,
                  old(resendMap) - {handle}, resendMap, attempts[|old(attempts)|..], resent)
      ensures !(Failed(status) && handle in old(resendMap)) ==> resent == NullHandle && attempts == old(attempts)
      ensures !Failed(status) && handle in old(resendMap) ==>
        resendMap == if status == PackageReceived || (status == PackageSent && !old(resendMap)[handle].reliable)
                     then old(resendMap) - {handle} else old(resendMap)
      ensures handle !in old(resendMap) ==> resendMap == old(resendMap)
    {
      resent := NullHandle;
      if Failed(status) {
        if handle in resendMap {
          var addrMsg := resendMap[handle];
          resendMap := resendMap - {handle};
          resent := SendFormattedMsg(addrMsg.dst, addrMsg.msg, addrMsg.linkRank + 1, ask, reliable);
        }
      } else if status == PackageSent {
        if handle in resendMap && !resendMap[handle].reliable {
          resendMap := resendMap - {handle};
        }
      } else if status == PackageReceived {
        if handle in resendMap {
          resendMap := resendMap - {handle};
        }
      }
    }
  }
}
