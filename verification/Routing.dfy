/**
 * What one server does with one message: start the rings, pass a ring message on, flood.
 * `Route` is the specification of both server plugins; ServerCpp and ServerPy are their code.
 */
module Routing {
  import opened Wrappers
  import opened Messages
  import C = UuidCache

  datatype Ring = Ring(length: int, next: string)

  /** A committee this server can reach, with the members it knows there. */
  datatype Reachable = Reachable(name: string, members: seq<string>)

  datatype Plugin = Cpp | Python

  /** `reachable` lists the committee map in the container's iteration order. */
  datatype Config = Config(
    name: string,
    plugin: Plugin,
    committee: string,
    exitClients: set<string>,
    committeeClients: set<string>,
    reachable: seq<Reachable>,
    rings: seq<Ring>,
    floodingFactor: int,
    maxStale: nat,
    maxFlooded: nat)

  datatype Caches = Caches(stale: seq<int>, flooded: seq<int>)

  datatype Send = ToServer(dst: string, msg: ExtClrMsg) | ToClient(client: string, clr: ClrMsg)

  /**
   * `Done` is a normal return, `Thrown` an escaping out_of_range or IndexError after the sends
   * listed, `Undefined` a step whose behaviour the C++ standard leaves open.
   */
  datatype Outcome = Done(caches: Caches, sends: seq<Send>) | Thrown(caches: Caches, sends: seq<Send>) | Undefined

  // ----- duplicate caches -----

  function UuidKey(uuid: int): Option<int> { if uuid == UNSET_UUID then None else Some(uuid) }

  /** Python trims a tenth of the stale limit, but at least one entry; a slice never overruns. */
  function PyTrimAmount(limit: nat): nat { if limit / 10 > 1 then limit / 10 else 1 }

  function PyAmount(s: seq<int>, limit: nat): nat {
    if PyTrimAmount(limit) <= |s| then PyTrimAmount(limit) else |s|
  }

  function AddStale(cfg: Config, s: seq<int>, uuid: int): Option<seq<int>> {
    match cfg.plugin
    case Cpp => C.Add(s, cfg.maxStale, C.TrimAmount(cfg.maxStale), UuidKey(uuid))
    case Python => C.Add(s, cfg.maxStale, PyAmount(s, cfg.maxStale), UuidKey(uuid))
  }

  /** Both plugins trim this cache by a tenth of the *stale* limit; Python uses that limit throughout. */
  function AddFlooded(cfg: Config, s: seq<int>, uuid: int): Option<seq<int>> {
    match cfg.plugin
    case Cpp => C.Add(s, cfg.maxFlooded, C.TrimAmount(cfg.maxStale), UuidKey(uuid))
    case Python => C.Add(s, cfg.maxStale, PyAmount(s, cfg.maxStale), UuidKey(uuid))
  }

  /** How many uuids the two caches hold before either forgets one. */
  function Capacity(cfg: Config): nat {
    if cfg.plugin == Cpp && cfg.maxFlooded < cfg.maxStale then cfg.maxFlooded else cfg.maxStale
  }

  // ----- routing -----

  function RingMsg(rings: seq<Ring>, msg: ExtClrMsg, idx: nat): Send
    requires idx < |rings|
  {
    ToServer(rings[idx].next, msg.(ringTtl := rings[idx].length - 1, ringIdx := idx))
  }

  /** One copy for each ring, in order. */
  function RingSends(rings: seq<Ring>, msg: ExtClrMsg): (sends: seq<Send>)
    ensures |sends| == |rings|
  {
    seq(|rings|, i requires 0 <= i < |rings| => RingMsg(rings, msg, i))
  }

  /** The committees chosen for forwarding, and the distinct members they are reached through. */
  datatype Picks = Picks(committees: seq<string>, dsts: seq<string>)

  function AddPick(acc: Picks, r: Reachable): Picks
    requires r.members != []
  {
    Picks(acc.committees + [r.name],
          if r.members[0] in acc.dsts then acc.dsts else acc.dsts + [r.members[0]])
  }

  /** Takes committees not in `skip` until `factor` members are found (all of them when factor <= 0). */
  function Pick(reach: seq<Reachable>, skip: seq<string>, factor: int, acc: Picks): Option<Picks> {
    if reach == [] then Some(acc)
    else if reach[0].name in skip then Pick(reach[1..], skip, factor, acc)
    else if reach[0].members == [] then None
    else
      var acc' := AddPick(acc, reach[0]);
      if factor > 0 && |acc'.dsts| >= factor then Some(acc')
      else Pick(reach[1..], skip, factor, acc')
  }

  const NoPicks := Picks([], [])

  function Visit(visited: seq<string>, committee: string): seq<string> {
    if committee in visited then visited else visited + [committee]
  }

  function SendAll(dsts: seq<string>, msg: ExtClrMsg): (sends: seq<Send>)
    ensures |sends| == |dsts|
  {
    seq(|dsts|, i requires 0 <= i < |dsts| => ToServer(dsts[i], msg))
  }

  /** The copy that goes to other committees. */
  function Intercom(cfg: Config, msg: ExtClrMsg): ExtClrMsg {
    msg.(ringTtl := UNSET_RING_TTL, visited := Visit(msg.visited, cfg.committee), sent := [])
  }

  function SkipList(cfg: Config, msg: ExtClrMsg): seq<string> {
    match cfg.plugin
    case Cpp => msg.visited + msg.sent
    case Python => Visit(msg.visited, cfg.committee)
  }

  function Picked(cfg: Config, msg: ExtClrMsg): Option<Picks> {
    Pick(cfg.reachable, SkipList(cfg, msg), cfg.floodingFactor, NoPicks)
  }

  /** The copy that goes on to the next ring member so that it forwards too. */
  function Passed(cfg: Config, msg: ExtClrMsg, picks: Picks): ExtClrMsg {
    var m := msg.(sent := msg.sent + picks.committees);
    if cfg.plugin == Cpp then m.(visited := Visit(msg.visited, cfg.committee)) else m
  }

  predicate PassesOn(cfg: Config, msg: ExtClrMsg, picks: Picks) {
    || cfg.floodingFactor <= 0
    || |picks.dsts| + (if cfg.plugin == Cpp then |msg.sent| else 0) < cfg.floodingFactor
  }

  /** The same copy to the next server of every ring. */
  function RingPasses(rings: seq<Ring>, msg: ExtClrMsg): (sends: seq<Send>)
    ensures |sends| == |rings|
  {
    seq(|rings|, i requires 0 <= i < |rings| => ToServer(rings[i].next, msg))
  }

  /** C++ passes the message on along its first ring only, Python along all of them. */
  function PassSends(cfg: Config, msg: ExtClrMsg, picks: Picks): seq<Send> {
    if !PassesOn(cfg, msg, picks) then []
    else if cfg.plugin == Python then RingPasses(cfg.rings, Passed(cfg, msg, picks))
    else if cfg.rings == [] then []
    else [ToServer(cfg.rings[0].next, Passed(cfg, msg, picks))]
  }

  /** None when a chosen committee has no known member. */
  function ForwardSends(cfg: Config, msg: ExtClrMsg): Option<seq<Send>> {
    match Picked(cfg, msg)
    case None => None
    case Some(picks) => Some(SendAll(picks.dsts, Intercom(cfg, msg)) + PassSends(cfg, msg, picks))
  }

  /** The ring a stored index selects; a negative index counts from the end in Python. */
  function RingAt(cfg: Config, idx: int): Option<Ring> {
    if 0 <= idx < |cfg.rings| then Some(cfg.rings[idx])
    else if cfg.plugin == Python && -|cfg.rings| <= idx < 0 then Some(cfg.rings[|cfg.rings| + idx])
    else None
  }

  function ExitSends(cfg: Config, msg: ExtClrMsg): seq<Send> {
    if msg.body.to in cfg.exitClients then [ToClient(msg.body.to, msg.body)] else []
  }

  /** The end of a lap at a server that has not flooded this message before. */
  function Flood(cfg: Config, c: Caches, msg: ExtClrMsg): Outcome {
    var exits := ExitSends(cfg, msg);
    var failure := if cfg.plugin == Cpp then Undefined else Thrown(c, exits);
    if msg.body.to in cfg.committeeClients && cfg.rings != [] then
      match RingAt(cfg, msg.ringIdx)
      case None => failure
      case Some(ring) => Done(c, exits + [ToServer(ring.next, msg)])
    else
      match ForwardSends(cfg, msg)
      case None => failure
      case Some(sends) => Done(c, exits + sends)
  }

  function HandleRing(cfg: Config, c: Caches, msg: ExtClrMsg): Outcome {
    match AddStale(cfg, c.stale, msg.uuid)
    case None => Undefined
    case Some(stale) =>
      if msg.ringTtl > 0 then
        match RingAt(cfg, msg.ringIdx)
        case None => Thrown(c.(stale := stale), [])
        case Some(ring) => Done(c.(stale := stale), [ToServer(ring.next, msg.(ringTtl := msg.ringTtl - 1))])
      else if msg.uuid in c.flooded then Done(c.(stale := stale), [])
      else
        match AddFlooded(cfg, c.flooded, msg.uuid)
        case None => Undefined
        case Some(flooded) => Flood(cfg, Caches(stale, flooded), msg)
  }

  function StartRing(cfg: Config, c: Caches, msg: ExtClrMsg): Outcome {
    if msg.uuid in c.stale then Done(c, [])
    else
      match AddStale(cfg, c.stale, msg.uuid)
      case None => Undefined
      case Some(stale) => Done(c.(stale := stale), RingSends(cfg.rings, msg))
  }

  function Route(cfg: Config, c: Caches, msg: ExtClrMsg): Outcome {
    if !msg.IsRingTtlSet() && cfg.rings != [] then StartRing(cfg, c, msg) else HandleRing(cfg, c, msg)
  }

  /** A decrypted package: empty or addressed to this node, or else routed. */
  predicate Consumed(cfg: Config, msg: ExtClrMsg) {
    match cfg.plugin
    case Cpp => msg.body.text == "" || msg.body.to == cfg.name
    case Python => msg.body.to == cfg.name && msg.msgType == MsgLinks
  }

  function Process(cfg: Config, c: Caches, msg: ExtClrMsg): Outcome {
    if Consumed(cfg, msg) then Done(c, []) else Route(cfg, c, msg)
  }

  // ----- contracts of the two plugins' code -----

  datatype Status = Returned | OutOfRange | UndefinedBehaviour

  /** What a finished call must have left behind, given the outcome the specification gives it. */
  ghost predicate Matches(o: Outcome, status: Status, caches: Caches, before: seq<Send>, outbox: seq<Send>) {
    match o
    case Done(c, sends) => status == Returned && caches == c && outbox == before + sends
    case Thrown(c, sends) => status == OutOfRange && caches == c && outbox == before + sends
    case Undefined => status == UndefinedBehaviour
  }
}
