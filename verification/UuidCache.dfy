/**
 * The bounded duplicate caches: first-in-first-out sets that drop about a tenth of
 * their oldest entries when they grow past their limit (addStaleUuid, addFloodedUuid,
 * addSeenMessage).
 */
module UuidCache {
  import opened Wrappers

  /** static_cast of an unsigned value to a 32-bit signed integer. */
  function Int32(x: int): (y: int)
    ensures -0x8000_0000 <= y < 0x8000_0000 && (x - y) % 0x1_0000_0000 == 0
  {
    var r := x % 0x1_0000_0000;
    if r < 0x8000_0000 then r else r - 0x1_0000_0000
  }

  /** How many of the oldest entries a trim erases. */
  function TrimAmount(limit: nat): int { Int32(limit / 10 + 1) }

  /** Erases from a cache above its limit; None when the erased range leaves the container. */
  function Trim<T>(s: seq<T>, max: nat, amount: int): Option<seq<T>> {
    if |s| <= max then Some(s)
    else if 0 <= amount <= |s| then Some(s[amount..])
    else None
  }

  /** push_back on a container with a unique index: a key already present is rejected. */
  function Push<T(==)>(s: seq<T>, key: T): seq<T> {
    if key in s then s else s + [key]
  }

  /** One add. A key of None stands for the unset uuid, which may trim but is never stored. */
  function Add<T(==)>(s: seq<T>, max: nat, amount: int, key: Option<T>): Option<seq<T>> {
    match Trim(s, max, amount)
    case None => None
    case Some(t) => Some(if key.Some? then Push(t, key.value) else t)
  }

  /** The cache after a sequence of adds, together with the log of the pushes that took effect. */
  datatype History<T> = History(cache: Option<seq<T>>, log: seq<T>)

  function After<T(==)>(adds: seq<Option<T>>, max: nat, amount: int): (h: History<T>) {
    if adds == [] then History(Some([]), [])
    else
      var before := After(adds[..|adds| - 1], max, amount);
      var key := adds[|adds| - 1];
      if before.cache.None? then before
      else
        var t := Trim(before.cache.value, max, amount);
        var pushed := t.Some? && key.Some? && key.value !in t.value;
        History(
          Add(before.cache.value, max, amount, key),
          if pushed then before.log + [key.value] else before.log)
  }

  /** The cache `c` is a faithful window on the log of its pushes. */
  ghost predicate Window<T>(c: seq<T>, log: seq<T>, max: nat, amount: int) {
    && Distinct(c)
    && IsSuffix(c, log)
    && |c| <= max + 1
    && (|c| == |log| || |c| >= max + 1 - amount)
  }

  lemma TrimKeepsWindow<T>(c: seq<T>, log: seq<T>, max: nat, amount: int)
    requires 1 <= amount <= max + 1
    requires Window(c, log, max, amount)
    ensures Trim(c, max, amount).Some?
    ensures Window(Trim(c, max, amount).value, log, max, amount)
    ensures |Trim(c, max, amount).value| <= max
  {
    if |c| > max {
      var t := c[amount..];
      assert t == log[|log| - |t|..];
    }
  }

  lemma PushKeepsWindow<T>(c: seq<T>, log: seq<T>, max: nat, amount: int, key: T)
    requires Window(c, log, max, amount) && |c| <= max && key !in c
    ensures Window(c + [key], log + [key], max, amount)
  {
    assert c + [key] == (log + [key])[|log| - |c|..];
  }

  /**
   * After any sequence of adds the cache holds, without duplicates, the most recent part of
   * the log; it never exceeds its limit by more than one and never forgets more than one trim.
   */
  lemma {:induction false} CacheRefinesLog<T>(adds: seq<Option<T>>, max: nat, amount: int)
    requires 1 <= amount <= max + 1
    ensures After(adds, max, amount).cache.Some?
    ensures Window(After(adds, max, amount).cache.value, After(adds, max, amount).log, max, amount)
  {
    if adds == [] {
      assert Window<T>([], [], max, amount);
    } else {
      var before := After(adds[..|adds| - 1], max, amount);
      var key := adds[|adds| - 1];
      CacheRefinesLog(adds[..|adds| - 1], max, amount);
      TrimKeepsWindow(before.cache.value, before.log, max, amount);
      var t := Trim(before.cache.value, max, amount).value;
      if key.Some? && key.value !in t {
        PushKeepsWindow(t, before.log, max, amount, key.value);
      }
    }
  }

  /** While the distinct keys fit, nothing is forgotten: the cache answers exactly like the full history. */
  lemma {:induction false} NothingForgotten<T(!new)>(adds: seq<Option<T>>, max: nat, amount: int, keys: set<T>)
    requires |keys| <= max
    requires forall a :: a in adds && a.Some? ==> a.value in keys
    ensures After(adds, max, amount).cache == Some(After(adds, max, amount).log)
    ensures Distinct(After(adds, max, amount).log)
    ensures forall k :: k in After(adds, max, amount).log <==> Some(k) in adds
  {
    if adds != [] {
      var front := adds[..|adds| - 1];
      assert adds == front + [adds[|adds| - 1]];
      NothingForgotten(front, max, amount, keys);
      var c := After(front, max, amount).log;
      forall i | 0 <= i < |c| ensures c[i] in keys {
        assert c[i] in c && Some(c[i]) in front;
      }
      DistinctFits(c, keys);
    }
  }

  /** Keys 0, 1, ..., n-1, in this order. */
  function Counting(n: nat): (adds: seq<Option<int>>)
    ensures |adds| == n
  {
    seq(n, i => Some(i))
  }

  lemma {:induction false} CountingFills(n: nat, max: nat, amount: int)
    requires n <= max + 1
    ensures After(Counting(n), max, amount).cache == Some(seq(n, i => i))
  {
    if n > 0 {
      assert Counting(n)[..n - 1] == Counting(n - 1);
      CountingFills(n - 1, max, amount);
      assert seq(n, i => i) == seq(n - 1, i => i) + [n - 1];
    } else {
      assert seq(0, i => i) == [];
    }
  }

  ghost predicate NeverOverruns(max: nat, amount: int) {
    forall adds: seq<Option<int>> :: After(adds, max, amount).cache.Some?
  }

  /** Erasing stays inside the container in every run exactly when the amount is within 0 .. max + 1. */
  lemma TrimSafe(max: nat, amount: int)
    ensures NeverOverruns(max, amount) <==> 0 <= amount <= max + 1
  {
    if 0 <= amount <= max + 1 {
      forall adds: seq<Option<int>> ensures After(adds, max, amount).cache.Some? {
        if amount > 0 {
          CacheRefinesLog(adds, max, amount);
        } else {
          TrimOfNothing(adds, max);
        }
      }
    } else {
      CountingFills(max + 1, max, amount);
      assert Counting(max + 2)[..max + 1] == Counting(max + 1);
      assert After(Counting(max + 2), max, amount).cache.None?;
    }
  }

  lemma {:induction false} TrimOfNothing<T>(adds: seq<Option<T>>, max: nat)
    ensures After(adds, max, 0).cache.Some?
  {
    if adds != [] {
      TrimOfNothing(adds[..|adds| - 1], max);
    }
  }

  /**
   * addStaleUuid and addSeenMessage trim by a tenth of their own limit, which is always safe as
   * long as that tenth fits 32 bits; addFloodedUuid trims by a tenth of the *stale* limit, which
   * is safe exactly when that tenth is no larger than its own limit.
   */
  lemma TrimOfOwnAndForeignLimit(maxStale: nat, maxFlooded: nat)
    requires maxStale / 10 + 1 < 0x8000_0000
    ensures NeverOverruns(maxStale, TrimAmount(maxStale))
    ensures NeverOverruns(maxFlooded, TrimAmount(maxStale)) <==> maxStale / 10 <= maxFlooded
  {
    TrimSafe(maxStale, TrimAmount(maxStale));
    TrimSafe(maxFlooded, TrimAmount(maxStale));
  }

  /** The client's cache of message hashes. */
  class SeenMessages<T(==)> {
    const maxSeenMessages: nat
    var seenMessages: seq<T>

    constructor (max: nat)
      ensures maxSeenMessages == max && seenMessages == []
    {
      maxSeenMessages := max;
      seenMessages := [];
    }

    /** False when the trim would erase past the end (undefined behaviour in the original). */
    method AddSeenMessage(hash: T) returns (defined: bool)
      modifies this`seenMessages
      ensures var a := Add(old(seenMessages), maxSeenMessages, TrimAmount(maxSeenMessages), Some(hash));
              defined == a.Some? && (defined ==> seenMessages == a.value)
    {
      if |seenMessages| > maxSeenMessages {
        var trimEnd := Int32(maxSeenMessages / 10 + 1);
        if !(0 <= trimEnd <= |seenMessages|) {
          return false;
        }
        seenMessages := seenMessages[trimEnd..];
      }
      if hash !in seenMessages {
        seenMessages := seenMessages + [hash];
      }
      defined := true;
    }
  }
}
