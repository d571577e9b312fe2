/**
 * One server and one message, case by case: what the server keeps, what it sends, and when it
 * fails. This is said on the message, the caches and the configuration alone, for both plugins.
 */
module ServerStep {
  import opened Wrappers
  import opened Messages
  import opened Routing
  import opened Network
  import opened Forwarding

  /** Not to be routed: for this node itself, or in C++ without a text. */
  predicate ForThisNode(cfg: Config, m: ExtClrMsg) {
    if cfg.plugin == Cpp then m.body.text == "" || m.body.to == cfg.name
    else m.body.to == cfg.name && m.msgType == MsgLinks
  }

  /** A copy on each ring, which comes back here with time-to-live zero after as many hops as the ring is long. */
  predicate OneLapEach(cfg: Config, m: ExtClrMsg, sends: seq<Send>) {
    && |sends| == |cfg.rings|
    && forall r :: 0 <= r < |sends| ==>
         sends[r] == ToServer(cfg.rings[r].next, m.(ringTtl := cfg.rings[r].length - 1, ringIdx := r))
  }

  /** The message names the ring at this position; in Python it may count from the end. */
  predicate NamesRing(cfg: Config, m: ExtClrMsg, r: nat) {
    r < |cfg.rings| && (m.ringIdx == r || (cfg.plugin == Python && m.ringIdx == r - |cfg.rings|))
  }

  predicate NamesNoRing(cfg: Config, m: ExtClrMsg) {
    forall r :: 0 <= r < |cfg.rings| ==> !NamesRing(cfg, m, r)
  }

  /** First the recipient is served, if it exits here. */
  function ForRecipient(cfg: Config, m: ExtClrMsg): seq<Send> {
    if m.body.to in cfg.exitClients then [ToClient(m.body.to, m.body)] else []
  }

  /** An access outside a container is undefined in C++; in Python it throws, with the recipient already served. */
  predicate FailsAfterServing(cfg: Config, c: Caches, m: ExtClrMsg, o: Outcome) {
    o == if cfg.plugin == Cpp then Undefined else Thrown(c, ForRecipient(cfg, m))
  }

  /** The end of a first lap: once round the ring again for a client of the committee, or else out to other committees. */
  ghost predicate FloodsAsMeant(cfg: Config, c: Caches, m: ExtClrMsg, o: Outcome) {
    if m.body.to in cfg.committeeClients && cfg.rings != [] then
      && (NamesNoRing(cfg, m) ==> FailsAfterServing(cfg, c, m, o))
      && (forall r: nat :: NamesRing(cfg, m, r) ==> o == Done(c, ForRecipient(cfg, m) + [ToServer(cfg.rings[r].next, m)]))
    else if Unmanned(cfg, m) then FailsAfterServing(cfg, c, m, o)
    else exists copies, passes ::
      o == Done(c, ForRecipient(cfg, m) + (copies + passes)) && AreContacts(cfg, m, copies) && ArePasses(cfg, m, |copies|, passes)
  }

  ghost predicate RingMessageAsMeant(cfg: Config, c: Caches, m: ExtClrMsg, o: Outcome) {
    var seen := c.(stale := Store(c.stale, m.uuid));
    if m.ringTtl > 0 then
      && (NamesNoRing(cfg, m) ==> o == Thrown(seen, []))
      && (forall r: nat :: NamesRing(cfg, m, r) ==> o == Done(seen, [ToServer(cfg.rings[r].next, m.(ringTtl := m.ringTtl - 1))]))
    else if m.uuid in c.flooded then o == Done(seen, [])
    else FloodsAsMeant(cfg, seen.(flooded := Store(c.flooded, m.uuid)), m, o)
  }

  lemma RingAtNamed(cfg: Config, m: ExtClrMsg)
    ensures RingAt(cfg, m.ringIdx).None? <==> NamesNoRing(cfg, m)
    ensures forall r: nat :: NamesRing(cfg, m, r) ==> RingAt(cfg, m.ringIdx) == Some(cfg.rings[r])
  {
    if m.ringIdx < 0 && cfg.plugin == Python && -|cfg.rings| <= m.ringIdx {
      assert NamesRing(cfg, m, |cfg.rings| + m.ringIdx);
    }
    if 0 <= m.ringIdx < |cfg.rings| {
      assert NamesRing(cfg, m, m.ringIdx);
    }
  }

  lemma FloodMeans(cfg: Config, c: Caches, m: ExtClrMsg)
    ensures FloodsAsMeant(cfg, c, m, Flood(cfg, c, m))
  {
    RingAtNamed(cfg, m);
    var copies, passes := ForwardsToChosen(cfg, m);
  }

  /** What one step does, as long as the caches need not forget. */
  lemma StepMeans(cfg: Config, c: Caches, m: ExtClrMsg, uuids: set<int>)
    requires Remembers(c, uuids) && Known(m.uuid, uuids) && |uuids| <= Capacity(cfg)
    ensures
      var o := Process(cfg, c, m);
      if ForThisNode(cfg, m) then o == Done(c, [])
      else if m.ringTtl == UNSET_RING_TTL && cfg.rings != [] then
        if m.uuid in c.stale then o == Done(c, [])
        else o.Done? && o.caches == c.(stale := Store(c.stale, m.uuid)) && OneLapEach(cfg, m, o.sends)
      else RingMessageAsMeant(cfg, c, m, o)
  {
    AddsFit(cfg, c, m.uuid, uuids);
    RingAtNamed(cfg, m);
    FloodMeans(cfg, Caches(Store(c.stale, m.uuid), Store(c.flooded, m.uuid)), m);
  }
}
