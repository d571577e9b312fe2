# Verified model of the Two Six network manager

This project models the server-to-server routing of the Two Six network manager plugins (C++ and
Python), the bookkeeping around it (duplicate caches, ranked connections, link profiles, link
wizard, bootstrapping), the connection table of the Go comms plugin and the codecs they share, and
proves what these promise. `dafny verify dfyconfig.toml` checks everything.

Servers form committees. A message from a client goes round the rings of its committee once (one
*lap*); the server at which the lap ends delivers it to its exit clients and either passes the word
on along the ring or forwards the message to other committees, within a flooding factor. Two bounded
caches of uuids keep a server from doing this twice. Nothing in any single function says that this
stops, that a lap closes, or that a client is reached: those are statements about the whole network.

- `Messages`, `UuidCache`, `Routing`: the values, and one server step as a function (`Process`).
- `ServerCpp`, `ServerPy`: the code of the two plugins, with its loops and in-place updates, proved
  against that function, failures included. `Forwarding`, `ServerStep`: what that function means,
  case by case, without its own terms.
- `Network`: servers and messages in flight; any message may be delivered next, C++ and Python
  servers may be mixed. `Termination`, `AtMostOnce`, `Delivery`, `Lap`, `Committees`, `Budget`,
  `Chain`: what holds over all runs of it.
- `CommsConnections`: the Go plugin's locked sections, in any interleaving.
- `Ranking`, `Failover`, `Personas`, `ConnectionTables`: link preference, sending with fail-over,
  and the two connection tables with the text that keys one of them.
- `BootstrapIntroducer`, `BootstrapTarget`, `BootstrapForward`: the three roles of bootstrapping;
  `BootstrapReports`: what is reported, and all else that is sent; `BootstrapDestroy`: how often the
  new node gives up its bootstrap link; `BootstrapLife`: how long the introducer keeps a bootstrap.
- `LinkManager`: stored list iterators; `LinkProfiles`: which profile belongs to which link. `LinkSides`, `LinkWizard`, `MultiAddress`: the link wizard.
- `Decimal`, `Delimited`, `Base64`: the codecs.

## Assumptions

Stated as preconditions where they are used, and needed there:

- Every message sent is eventually deliverable, and messages are not lost or altered.
- For the results about whole runs of the network, the distinct uuids in use fit every server's
  caches (`Network.Roomy`) and the uuid in question is not the unset one; `StopsExactlyWhenSet` shows
  that the latter is needed.
- `Delivery`: one ring that is a single cycle of the committee's members, whose other servers do not
  send ring messages to members. `Committees`: members of a committee have equally many rings, and
  the first known member of a reachable committee belongs to it.
- `ConnectionTables`, `LinkManager`, `BootstrapIntroducer`, `CommsConnections`: handles and IDs that
  the SDK generates are fresh; the exact event conditions are `Ordinary`, `Regular`, `FreshHandles`,
  `FreshIds`, `FreshLinkHandles` and `OwnConnections`.

## Where the code departs from its documentation or apparent intent

- `addFloodedUuid` says it trims a tenth of its own maximum; it trims a tenth of the stale maximum,
  in both plugins (`TrimOfOwnAndForeignLimit`).
- A message is passed on along one ring only, so as not to exceed the flooding factor; a chain along
  that ring can still contact up to 2f - 1 committees (`LineageBudget`, `FactorExceeded`); it stays
  within f exactly when the servers' lists of reachable committees allow it (`ChainWithinFactorWhen`).
- `sendFormattedMsg` means to return null for an unknown destination; the exception thrown is not
  the one caught, so it escapes (`SendFormattedMsg`). Ranks are cut to eight bits (`NeverTwiceWhen`).
- `handleConnectionOpened` judges the types of a group by the order of its list, which the table's key
  does not keep: a persona of undefined type is accepted in front only (`OrderDecides`, `FiledBothWaysWhen`).
- `handleConnectionClosed` takes a bidirectional connection for a receiving one and leaves it in the
  table of connections to its personas (`ForgottenWhen`).
- `handleLinkLoadRequestForward` steps over the channel behind a dropped one (`AllFullDroppedWhen`,
  `SurvivorsExactly`).
- `numOutstandingRequests` counts peers, not requests, in its unicast part (`CountsPeers`).
- `requestCreateMulticastRecvLink` queues messages that did go out (`OnlyRefusedQueuedWhen`), and a
  completed multi-address request stays on file (`LoadsRepeat`, `LoadedOnceWhen`).
- `verifyChannelIsSupported` can choose a side outside this node's role (`StaysInRoleWhen`), and finds
  no side for a node that could only load a bidirectional channel (`FindsSideWhen`).
- Configurations are never written for an empty entrance committee
  (`NothingWrittenWithoutCommittee`), and the request to destroy the bootstrap link is repeated
  (`DestroyRepeats`, `AtMostOneDestroyWhen`).

## Model

| member | source | states |
|---|---|---|
| UuidCache.CacheRefinesLog | plugin-network-manager-twosix-cpp/source/PluginNMTwoSixServerCpp.cpp:398-434 | after any sequence of adds the cache is a duplicate-free suffix of the log of successful pushes, at most one over its limit, and short of the log by no more than one trim allows |
| UuidCache.NothingForgotten | plugin-network-manager-twosix-cpp/source/PluginNMTwoSixServerCpp.cpp:398-434 | as long as the distinct keys fit the limit, the cache answers exactly like the full history of adds |
| UuidCache.TrimSafe | plugin-network-manager-twosix-cpp/source/PluginNMTwoSixServerCpp.cpp:402-405 | over all runs the erase stays inside the container if and only if the trim amount lies in 0 .. limit + 1 |
| UuidCache.TrimOfOwnAndForeignLimit | plugin-network-manager-twosix-cpp/source/PluginNMTwoSixServerCpp.cpp:420-434 | the stale trim is always safe; the flooded cache, which is trimmed by a tenth of the *stale* limit, is safe if and only if that tenth does not exceed its own limit |
| UuidCache.SeenMessages.AddSeenMessage | plugin-network-manager-twosix-cpp/source/PluginNMTwoSixClientCpp.cpp:253-264 | the client's cache of message hashes takes the same step, and reports when the trim would leave the container |
| Messages.MakeUuid | plugin-network-manager-twosix-cpp/source/ExtClrMsg.cpp:62-73 | the uuid made from a hash is never the unset one, and is the hash prefix otherwise |
| Messages.MessageObject.Copy | plugin-network-manager-twosix-cpp/source/ExtClrMsg.cpp:244-251 | a copy has all the fields and shares nothing with the original |
| Messages.MessageObject.DecRingTtl | plugin-network-manager-twosix-cpp/source/ExtClrMsg.cpp:157-161 | decrementing stops at zero and never unsets the time-to-live |
| ServerPluginCpp.ServerCpp.AddStaleUuid | plugin-network-manager-twosix-cpp/source/PluginNMTwoSixServerCpp.cpp:398-412 | trims a tenth of the limit and appends, ignoring the unset uuid and duplicates |
| ServerPluginCpp.ServerCpp.AddFloodedUuid | plugin-network-manager-twosix-cpp/source/PluginNMTwoSixServerCpp.cpp:420-434 | the same with the stale limit's tenth |
| ServerPluginCpp.ServerCpp.RouteMsg | plugin-network-manager-twosix-cpp/source/PluginNMTwoSixServerCpp.cpp:445-453 | sends and caches after one message are those of the specification, with its failures: an escaping out_of_range, or undefined behaviour |
| ServerPluginCpp.ServerCpp.StartRingMsg | plugin-network-manager-twosix-cpp/source/PluginNMTwoSixServerCpp.cpp:461-471 | a message not stale before becomes stale and goes out on every ring; a stale one is dropped |
| ServerPluginCpp.ServerCpp.SendToRings | plugin-network-manager-twosix-cpp/source/PluginNMTwoSixServerCpp.cpp:479-496 | one independent copy per ring, with time-to-live length - 1 and the ring's index |
| ServerPluginCpp.ServerCpp.HandleRingMsg | plugin-network-manager-twosix-cpp/source/PluginNMTwoSixServerCpp.cpp:504-532 | marks the message stale, hands it on while its time-to-live lasts, and makes the flood decision once at the end of a lap |
| ServerPluginCpp.ServerCpp.EndOfLap | plugin-network-manager-twosix-cpp/source/PluginNMTwoSixServerCpp.cpp:515-528 | delivers to the exit client, then hands the message on along its ring for a client of this committee, or forwards it |
| ServerPluginCpp.ServerCpp.ForwardToNewCommittees | plugin-network-manager-twosix-cpp/source/PluginNMTwoSixServerCpp.cpp:541-585 | sends to the first members of new committees up to the flooding factor, records them, and passes the message on along the first ring while the factor is not used up |
| ServerPluginPy.ServerPy.RouteMsg | plugin-network-manager-twosix-python/source/PluginNMTwoSixServerPy.py:375-394 | the Python server refines the same specification in its own variant |
| ServerPluginPy.ServerPy.AddTrimmed | plugin-network-manager-twosix-python/source/PluginNMTwoSixServerPy.py:322-373 | both Python caches trim by slicing, which never overruns, and both by the stale limit |
| ServerPluginPy.ServerPy.StartRingMsg | plugin-network-manager-twosix-python/source/PluginNMTwoSixServerPy.py:396-416 | a message not stale before becomes stale and goes out on every ring |
| ServerPluginPy.ServerPy.SendToRings | plugin-network-manager-twosix-python/source/PluginNMTwoSixServerPy.py:418-447 | one independent copy per ring |
| ServerPluginPy.ServerPy.HandleRingMsg | plugin-network-manager-twosix-python/source/PluginNMTwoSixServerPy.py:449-497 | as in C++, except that a negative ring index counts from the end |
| ServerPluginPy.ServerPy.EndOfLap | plugin-network-manager-twosix-python/source/PluginNMTwoSixServerPy.py:471-497 | as in C++; an IndexError escapes after the exit client was served |
| ServerPluginPy.ServerPy.ForwardToNewCommittees | plugin-network-manager-twosix-python/source/PluginNMTwoSixServerPy.py:499-558 | consults only the visited list and passes the message on along every ring |
| ServerStep.StepMeans | plugin-network-manager-twosix-cpp/source/PluginNMTwoSixServerCpp.cpp:445-585 | what one step of either plugin does, case by case, said on message, caches and configuration alone: nothing, one lap on each ring, one hop, or at the end of a first lap the recipient served (with this message and nobody else) and then the ring or other committees; and which failure it ends in |
| ServerStep.FloodMeans | plugin-network-manager-twosix-python/source/PluginNMTwoSixServerPy.py:471-497 | the end of a lap: the recipient first, then the ring that the index names for a client of the committee, or else other committees; the failures of the two plugins |
| Forwarding.ForwardsToChosen | plugin-network-manager-twosix-python/source/PluginNMTwoSixServerPy.py:499-558 | both plugins, any configuration: the committees contacted are, in order, those the message need not avoid (in Python the unvisited ones but the own) until the factor of members is reached; each member gets one copy, new and marked as having been here; the record goes to the next server of every ring (in C++ of the first) exactly while the factor is not used up; it fails exactly if a committee chosen has no known member |
| Termination.ProcessLowers | plugin-network-manager-twosix-cpp/source/PluginNMTwoSixServerCpp.cpp:445-585 | one server step of either plugin pays, out of the weight of the message and of the server, for everything it sends |
| Termination.DeliveriesBounded | plugin-network-manager-twosix-cpp/source/PluginNMTwoSixServerCpp.cpp:445-585 | in every run, under any delivery order and any configuration, the deliveries of a uuid are at most its potential at the start plus what is injected |
| Termination.StopsExactlyWhenSet | plugin-network-manager-twosix-cpp/source/PluginNMTwoSixServerCpp.cpp:445-585 | flooding of a uuid is certain to stop if and only if it is not the unset uuid, in networks that mix C++ and Python servers |
| Termination.UnsetNeverStops | plugin-network-manager-twosix-cpp/source/PluginNMTwoSixServerCpp.cpp:398-412 | a message with the unset uuid can be delivered any number of times on a one-server ring |
| AtMostOnce.StepMarks | plugin-network-manager-twosix-cpp/source/PluginNMTwoSixServerCpp.cpp:461-531 | a ring start makes the uuid stale; the uuid becomes flooded exactly in the step that decides to flood |
| AtMostOnce.RunTally | plugin-network-manager-twosix-cpp/source/PluginNMTwoSixServerCpp.cpp:461-531 | over any run in which the distinct uuids a server handles fit its caches, it starts rings at most once per uuid, decides to flood exactly when its flooded cache gains the uuid, and then, if the recipient exits here, hands one body that entered under the uuid to exactly this recipient; to no other client, and nothing at any other time |
| Delivery.InvRun | plugin-network-manager-twosix-cpp/source/PluginNMTwoSixServerCpp.cpp:504-532 | in a committee on one cyclic ring: a flooded member's successor is flooded or has an end-of-lap copy on its way, through every run of the whole network |
| Delivery.DeliveredAtQuiescence | plugin-network-manager-twosix-cpp/source/PluginNMTwoSixServerCpp.cpp:504-532 | when a message has reached the committee and none is left on its way to a member, every member has flooded it; every exit server has handed a body that entered under its uuid to the client, once, and nothing to other clients; every other member nothing to any client |
| Delivery.DeliveredIntact | plugin-network-manager-twosix-cpp/source/PluginNMTwoSixServerCpp.cpp:515-520 | if one body entered under the uuid, each exit server hands exactly this body to exactly its recipient, once |
| Lap.LapStarts | plugin-network-manager-twosix-cpp/source/PluginNMTwoSixServerCpp.cpp:479-496 | the first hop of a lap carries time-to-live length - 1 and the ring's index to the next member |
| Lap.LapHop | plugin-network-manager-twosix-cpp/source/PluginNMTwoSixServerCpp.cpp:504-514 | each hop lowers the time-to-live by one and makes the member it leaves stale |
| Lap.LapStep | plugin-network-manager-twosix-cpp/source/PluginNMTwoSixServerCpp.cpp:479-514 | any delivery or injection leaves a lap at hop k where it is, takes it to hop k + 1, or, at its last hop, closes it at the starter |
| Lap.LapInEveryRun | plugin-network-manager-twosix-cpp/source/PluginNMTwoSixServerCpp.cpp:479-514 | in every run from hop k, whatever else is delivered in between, the lap is at some later hop at the end, or its last hop was delivered to the starter, which has flooded the message, and all other members are stale |
| Lap.LapBegins | plugin-network-manager-twosix-cpp/source/PluginNMTwoSixServerCpp.cpp:461-496 | a server that is handed a message new to it puts the first hop of a lap on each of its cyclic rings in flight |
| Lap.StartedLapsClose | plugin-network-manager-twosix-cpp/source/PluginNMTwoSixServerCpp.cpp:461-532 | every lap that was started has closed in every run by the time no copy of its message is in flight |
| Lap.LapCloses | plugin-network-manager-twosix-cpp/source/PluginNMTwoSixServerCpp.cpp:479-514 | a lap at hop k of a ring of L members can always be completed: by a run of exactly L - k deliveries it is back at its starter with time-to-live 0 |
| Committees.ProcessLegal | plugin-network-manager-twosix-cpp/source/PluginNMTwoSixServerCpp.cpp:504-585 | a server of a soundly configured network returns normally and sends only along its committee's rings or to a committee that is in neither list |
| Committees.NeverFails | plugin-network-manager-twosix-cpp/source/PluginNMTwoSixServerCpp.cpp:504-585 | in every run of a soundly configured network no delivery throws or is undefined, and ring indices stay in range |
| Committees.FewCrossings | plugin-network-manager-twosix-cpp/source/PluginNMTwoSixServerCpp.cpp:541-570 | any causal path crosses between committees fewer times than there are committees, and the visited list stays duplicate-free |
| Budget.FloodSendsExactly | plugin-network-manager-twosix-cpp/source/PluginNMTwoSixServerCpp.cpp:541-585 | what the code sends at the end of a lap, said without its loop: one copy to each committee contacted, and the ring copy with the committees added |
| Budget.ContactedFresh | plugin-network-manager-twosix-cpp/source/PluginNMTwoSixServerCpp.cpp:543-570 | a committee contacted is in neither list of the message, and the sent list stays duplicate-free |
| Budget.LineageBudget | plugin-network-manager-twosix-cpp/source/PluginNMTwoSixServerCpp.cpp:541-585 | a chain of servers that hand on the ring copy contacts at most 2f - 1 committees in all, for flooding factor f |
| Budget.LineageNames | plugin-network-manager-twosix-cpp/source/PluginNMTwoSixServerCpp.cpp:541-585 | it contacts none twice, and a copy still travelling names exactly the committees contacted, fewer than f |
| Budget.StaysUnderFactor | plugin-network-manager-twosix-cpp/source/PluginNMTwoSixServerCpp.cpp:541-585 | in every run of C++ servers with factor f, every message in flight lists fewer than f committees sent to, none twice |
| Budget.WithinFactorWhen | plugin-network-manager-twosix-cpp/source/PluginNMTwoSixServerCpp.cpp:541-585 | one server's share: what was contacted before it and what it contacts stay within the factor if and only if nothing was contacted before or the candidates fit the rest |
| Chain.ChainWithinFactorWhen | plugin-network-manager-twosix-cpp/source/PluginNMTwoSixServerCpp.cpp:541-585 | the whole chain from a message contacts at most f committees if and only if the configurations keep it within: up to where it ends, no server takes the committees within reach past f, unless none was within reach before |
| Chain.OneServer | plugin-network-manager-twosix-cpp/source/PluginNMTwoSixServerCpp.cpp:541-585 | how many committees one server of the chain contacts and whether it hands the message on, in terms of the committees it can reach alone |
| Chain.ContactsAreCaused | plugin-network-manager-twosix-cpp/source/PluginNMTwoSixServerCpp.cpp:541-585 | in the network, the copies to the committees contacted and the ring copy are caused by the packet that ended its lap at the server |
| Chain.ChainIsPath | plugin-network-manager-twosix-cpp/source/PluginNMTwoSixServerCpp.cpp:541-585 | packets handed on along a chain form a causal path of the network |
| Chain.PathIsCarried | plugin-network-manager-twosix-cpp/source/PluginNMTwoSixServerCpp.cpp:541-585 | each packet on that path is the copy the chain carries to its server |
| Budget.FactorExceeded | plugin-network-manager-twosix-cpp/source/PluginNMTwoSixServerCpp.cpp:541-585 | two servers with factor 2 whose chain contacts three committees |
| CommsConnections.CommsConn.AddConnectionId | plugin-comms-twosix-golang/source/CommsPlugin.go:85-94 | adds an ID unless it is empty and counts them |
| CommsConnections.CommsConn.RemoveConnectionId | plugin-comms-twosix-golang/source/CommsPlugin.go:97-102 | removes an ID; the count is zero exactly when none is left |
| CommsConnections.Plugin.FindReusable | plugin-comms-twosix-golang/source/CommsPlugin.go:672-673 | finds an entry of the same link and type whenever there is one |
| CommsConnections.Plugin.ReuseConnection | plugin-comms-twosix-golang/source/CommsPlugin.go:671-682 | a connection found for reuse has not been closed, and is entered under the new ID as well |
| CommsConnections.Plugin.Share | plugin-comms-twosix-golang/source/CommsPlugin.go:674-675 | listing a fresh ID and entering it keeps entries and listed IDs in agreement |
| CommsConnections.Plugin.BuildConnection | plugin-comms-twosix-golang/source/CommsPlugin.go:695-701 | a connection built without the lock is new, of the link and direction asked for, lists its one ID, and is not yet in the table |
| CommsConnections.Plugin.PublishConnection | plugin-comms-twosix-golang/source/CommsPlugin.go:709-711 | the second section of opening keeps all entries and listed IDs in agreement |
| CommsConnections.Plugin.CloseConnection | plugin-comms-twosix-golang/source/CommsPlugin.go:728-753 | the connection is closed exactly when its last ID goes |
| CommsConnections.Plugin.DestroyLink | plugin-comms-twosix-golang/source/CommsPlugin.go:755-778 | every connection on the link is closed exactly once, and no other connection is touched |
| CommsConnections.Plugin.DeactivateChannel | plugin-comms-twosix-golang/source/CommsPlugin.go:1072-1103 | an available channel loses all its links and connections; an unavailable one loses nothing |
| CommsConnections.Plugin.NoneListed | plugin-comms-twosix-golang/source/CommsPlugin.go:764-770 | a connection that no entry and no opening thread holds lists no ID |
| CommsConnections.Interleave | plugin-comms-twosix-golang/source/CommsPlugin.go:654-778 | under every interleaving of the locked sections with fresh IDs, and of links being destroyed and channels deactivated, a connection is closed once if its last ID is gone and never otherwise, and no table entry is closed |
| CommsConnections.AlwaysAsAsked | plugin-comms-twosix-golang/source/CommsPlugin.go:654-721 | in every run, each ID in the table, or built and not yet published, leads to a connection of the link and direction it was asked for |
| CommsConnections.DestroyedLeavesNone | plugin-comms-twosix-golang/source/CommsPlugin.go:755-778 | after a link that exists is destroyed, no ID ever asked for on it is left in the table |
| CommsConnections.SecondOpeningShares | plugin-comms-twosix-golang/source/CommsPlugin.go:671-682 | an opening on the link and direction of an earlier one that is in the table shares a connection that was asked for there |
| Ranking.PrefersByScore | plugin-network-manager-twosix-cpp/source/PluginNMTwoSixServerCpp.cpp:371-390 | both comparators compare a score: the class of the link, then its bandwidth |
| Ranking.StrictWeakOrder | plugin-network-manager-twosix-cpp/source/PluginNMTwoSixClientCpp.cpp:235-251 | both comparators are strict weak orders, as std::sort requires |
| Ranking.InsertConnection | plugin-network-manager-twosix-cpp/source/PluginNMTwoSixServerCpp.cpp:336-344 | the list after an insertion is a ranked permutation of the old list and the new connection |
| Ranking.RankingIsUnique | plugin-network-manager-twosix-cpp/source/PluginNMTwoSixServerCpp.cpp:336-344 | whatever the sorting algorithm, each position of a ranked list holds a connection tied with the one any other would put there |
| Ranking.PreferredLink | plugin-network-manager-twosix-cpp/source/PluginNMTwoSixServerCpp.cpp:291-311 | the loop returns the first of the most preferred links, and the empty ID exactly when all links are undefined |
| Ranking.PreferredIsFirst | plugin-network-manager-twosix-cpp/source/PluginNMTwoSixServerCpp.cpp:291-311 | the link preferred is the first of known type that no other beats |
| Failover.FirstThatAccepts | plugin-network-manager-twosix-cpp/source/PluginNMTwoSix.cpp:267-296 | a send tries the ranks from its own to the end in order, uses the first that accepts, and returns null exactly when all of them refuse |
| Failover.SentMeans | plugin-network-manager-twosix-cpp/source/PluginNMTwoSix.cpp:243-296 | what a send does: the connections it tries, in turn; null exactly if all refuse, with nothing recorded; else the handle of the first that accepts, under which the message is filed with its rank and reliability unless the handle is in use |
| Failover.OneAttemptBeyond | plugin-network-manager-twosix-cpp/source/PluginNMTwoSix.cpp:272-286 | a resend from past the end of the list makes a single attempt |
| Failover.NeverTwiceWhen | plugin-network-manager-twosix-cpp/source/PluginNMTwoSix.cpp:272-273 | no connection is tried twice in one send if and only if the list has at most 256 connections (the rank is kept in eight bits) |
| Failover.GivesUpOnlyIfAllRefuseWhen | plugin-network-manager-twosix-cpp/source/PluginNMTwoSix.cpp:272-286 | a send gives up only when every connection refuses if and only if the list has at most 256 |
| Failover.ResendsGoRound | plugin-network-manager-twosix-cpp/source/PluginNMTwoSix.cpp:179-190 | repeated package failures go round the first 256 connections in rank order |
| Failover.FailuresGoRound | plugin-network-manager-twosix-cpp/source/PluginNMTwoSix.cpp:172-296 | for successive calls, whatever other packages do in between: the resend after k failures, each accepted at once, uses connection k modulo the size (or 256), and the entry on file says so |
| Failover.Sender.SendFormattedMsg | plugin-network-manager-twosix-cpp/source/PluginNMTwoSix.cpp:243-296 | the calls made, the result and the resend entry are those of the above; an unknown persona escapes as out_of_range, an empty list gives null |
| Failover.Sender.OnPackageStatusChanged | plugin-network-manager-twosix-cpp/source/PluginNMTwoSix.cpp:172-213 | a failed package moves its entry to a resend from the next rank; a delivered or unreliably sent one is forgotten |
| Personas.PersonasToString | plugin-network-manager-twosix-cpp/source/helper.cpp:149-164 | prints the sorted names separated by comma and space |
| Personas.KeyIdentifies | plugin-network-manager-twosix-cpp/source/helper.cpp:149-164 | non-empty lists of names without the separator get the same key if and only if they are permutations of each other |
| Personas.KeyIgnoresOrder | plugin-network-manager-twosix-cpp/source/helper.cpp:149-164 | the order of a list never matters, whatever its names |
| Personas.KeyConfused | plugin-network-manager-twosix-cpp/source/helper.cpp:149-164 | a name that looks like a list, and the empty list, share their key with another list |
| ConnectionTables.Connections.HandleConnectionOpened | plugin-network-manager-twosix-cpp/source/PluginNMTwoSix.cpp:337-396 | the tables change as specified, up to the order std::sort leaves open, including the early error returns |
| ConnectionTables.Connections.HandleConnectionClosed | plugin-network-manager-twosix-cpp/source/PluginNMTwoSix.cpp:407-499 | the tables, the response and the replacement requested are as specified, including the early returns |
| ConnectionTables.AgreeMeans | plugin-network-manager-twosix-cpp/source/PluginNMTwoSix.cpp:337-499 | agreeing tables: an ID is in the list under a key if and only if its recorded persona list prints as that key, it is there once, and the list is ranked |
| ConnectionTables.AlwaysAgree | plugin-network-manager-twosix-cpp/source/PluginNMTwoSix.cpp:337-499 | in every history with fresh IDs, known personas of one type and no bootstrap connection, the two tables agree |
| ConnectionTables.ReplacementIsBestUnused | plugin-network-manager-twosix-cpp/source/PluginNMTwoSix.cpp:449-491 | the replacement for a closed connection is a link that no remaining connection uses, and no unused candidate is preferred to it |
| ConnectionTables.ReplacedWhen | plugin-network-manager-twosix-cpp/source/PluginNMTwoSix.cpp:449-491 | a closed send connection is replaced if and only if some candidate link is known and unused; then an opening to the same personas is on record |
| ConnectionTables.OpenedMeans | plugin-network-manager-twosix-cpp/source/PluginNMTwoSix.cpp:337-396 | an opened connection uses up its opening and takes the roles of its kind: it receives, or leads to its personas, or both |
| ConnectionTables.ClosedReceivingMeans | plugin-network-manager-twosix-cpp/source/PluginNMTwoSix.cpp:407-430 | a receiving connection that closes is opened again on its own link, unless it was for bootstrapping |
| ConnectionTables.ClosedOtherMeans | plugin-network-manager-twosix-cpp/source/PluginNMTwoSix.cpp:417-447 | of a bootstrap connection only its record goes; an unknown connection changes nothing |
| ConnectionTables.ReplacementTakesOver | plugin-network-manager-twosix-cpp/source/PluginNMTwoSix.cpp:337-499 | once the replacement opens, it stands in for the connection that closed: it receives, or leads to the same personas, and no opening is left over |
| ConnectionTables.FiledBothWaysWhen | plugin-network-manager-twosix-cpp/source/PluginNMTwoSix.cpp:362-389 | a send connection always enters the forward table, and the reverse one if and only if its personas have compatible types: all are known, any of undefined type come first, and all others are of one type |
| ConnectionTables.GroupTypeWhen | plugin-network-manager-twosix-cpp/source/PluginNMTwoSix.cpp:367-383 | the loop over a group succeeds if and only if the types are compatible, with each other and with what it has seen |
| ConnectionTables.CompatibleMeansOneType | plugin-network-manager-twosix-cpp/source/PluginNMTwoSix.cpp:367-383 | if no known persona is of undefined type, compatible means known and of one type |
| ConnectionTables.OrderDecides | plugin-network-manager-twosix-cpp/source/PluginNMTwoSix.cpp:367-383 | two lists under the same key, one of which is accepted and the other refused: the undefined persona first, or last |
| ConnectionTables.ForgottenWhen | plugin-network-manager-twosix-cpp/source/PluginNMTwoSix.cpp:417-447 | a closed connection leaves both tables if and only if it was not also a receiving one; a bidirectional one stays listed |
| BootstrapIntroducer.Introducer.OnPrepareToBootstrap | plugin-network-manager-twosix-cpp/source/BootstrapManager.cpp:28-68 | one request per committee member under consecutive fresh handles, and one new record |
| BootstrapIntroducer.Introducer.HandleLinkCreateResponse | plugin-network-manager-twosix-cpp/source/BootstrapManager.cpp:402-445 | the first record waiting for the handle takes the links and is written when it waits for no more |
| BootstrapIntroducer.Introducer.PairUp | plugin-network-manager-twosix-cpp/source/BootstrapManager.cpp:424-427 | the links of a well-formed answer, in order, each with its channel and the answering persona |
| BootstrapIntroducer.Introducer.OnBootstrapFinished | plugin-network-manager-twosix-cpp/source/BootstrapManager.cpp:70-97 | a cancelled bootstrap without a connection is forgotten |
| BootstrapIntroducer.Introducer.OnConnectionStatusChanged | plugin-network-manager-twosix-cpp/source/BootstrapManager.cpp:231-258 | the first record that waits for or owns the connection is updated or dropped |
| BootstrapIntroducer.AlwaysApart | plugin-network-manager-twosix-cpp/source/BootstrapManager.cpp:51-64 | in every run all outstanding handles of all bootstraps are distinct and below the counter |
| BootstrapIntroducer.RunsAsIfAlone | plugin-network-manager-twosix-cpp/source/BootstrapManager.cpp:402-445 | concurrent bootstraps do not disturb each other: each record proceeds exactly as it would alone |
| BootstrapIntroducer.WrittenOnceWhenComplete | plugin-network-manager-twosix-cpp/source/BootstrapManager.cpp:402-445 | in every run a configuration is written at most once, exactly when the last request is answered, and holds the links its record began with and then, position by position, address, channel and persona of the first answer to each request; a malformed first answer gives none, and uses the request up all the same |
| BootstrapIntroducer.PlacesAreAll | plugin-network-manager-twosix-cpp/source/BootstrapManager.cpp:417-430 | the positions that give a link are those of first answers with as many addresses as channels, all of them, each once, in order |
| BootstrapIntroducer.UnderItsChannel | plugin-network-manager-twosix-cpp/source/BootstrapManager.cpp:634-652 | in a written configuration an address stands under a channel if and only if the record began with it there or some member's first answer gave it for that channel |
| BootstrapIntroducer.EachMemberAsked | plugin-network-manager-twosix-cpp/source/BootstrapManager.cpp:51-64 | in every run the i-th committee member is asked under the i-th of the bootstrap's handles, and nothing else is asked under that handle |
| BootstrapLife.OnRecordAsLongAsKept | plugin-network-manager-twosix-cpp/source/BootstrapManager.cpp:70-97 | in every run in which no connection concerns two bootstraps, a bootstrap is on record exactly until it is cancelled without a connection or its own connection closes, whatever happens to others |
| BootstrapIntroducer.NothingWrittenWithoutCommittee | plugin-network-manager-twosix-cpp/source/BootstrapManager.cpp:48-66 | with an empty entrance committee nothing is ever written |
| BootstrapIntroducer.GroupByChannel | plugin-network-manager-twosix-cpp/source/BootstrapManager.cpp:634-652 | the configuration has a list for exactly the channels of the links, each holding its own |
| BootstrapIntroducer.GroupingConserves | plugin-network-manager-twosix-cpp/source/BootstrapManager.cpp:634-652 | every received link is in its own channel's list, as often as received, and in no other |
| BootstrapIntroducer.GroupingKeepsOrder | plugin-network-manager-twosix-cpp/source/BootstrapManager.cpp:634-652 | links stay in the order in which they were received |
| BootstrapTarget.Target.HandleBootstrapConnectionOpened | plugin-network-manager-twosix-cpp/source/BootstrapManager.cpp:294-356 | sends the package, registers one request per member with an accepted link creation, and gives up the link at once if there is none |
| BootstrapTarget.Target.HandleLinkCreateRequest | plugin-network-manager-twosix-cpp/source/BootstrapManager.cpp:358-400 | a committee member's request is registered if some link creation was accepted |
| BootstrapTarget.Target.OnLinkStatusChanged | plugin-network-manager-twosix-cpp/source/BootstrapManager.cpp:151-195 | the request waiting for the handle takes the link's address and channel, and is reported when it waits for no more |
| BootstrapTarget.Target.CreateLinks | plugin-network-manager-twosix-cpp/source/BootstrapManager.cpp:317-342 | the handles of the eligible channels whose link creation was accepted |
| BootstrapTarget.Target.DestroyBootstrapLinkIfComplete | plugin-network-manager-twosix-cpp/source/BootstrapManager.cpp:589-607 | asks for destruction exactly when nothing is left to create and the connection is up |
| BootstrapTarget.Target.OnConnectionClosed | plugin-network-manager-twosix-cpp/source/BootstrapManager.cpp:210-222 | a closed bootstrap connection clears the bootstrap |
| BootstrapTarget.TargetOrder | plugin-network-manager-twosix-cpp/source/BootstrapManager.cpp:151-195 | in every run with one opening: the package comes first, no load request follows a destroy request, no two load requests answer for one member, and when nothing is left to create all load requests have been sent and destruction requested |
| BootstrapTarget.OneLoadPerMember | plugin-network-manager-twosix-cpp/source/BootstrapManager.cpp:305-345 | with distinct committee members each is named in at most one load request |
| BootstrapTarget.AlwaysPaired | plugin-network-manager-twosix-cpp/source/BootstrapManager.cpp:166-175 | in every run each reported address stands with the channel of the very link it came from |
| BootstrapReports.ReportedWhenFinished | plugin-network-manager-twosix-cpp/source/BootstrapManager.cpp:151-195 | in every run with fresh link handles: a report is sent exactly by the status that a request awaited last, to who asked, and lists in order the address and channel of every link that came up for the request's handles, none missing, none twice |
| BootstrapReports.EventSends | plugin-network-manager-twosix-cpp/source/BootstrapManager.cpp:151-356 | in every run, all that one event sends: the package on opening, the report it finishes, and the request to destroy the link if nothing is left to wait for, package and request to the introducer |
| BootstrapReports.AcceptedAre | plugin-network-manager-twosix-cpp/source/BootstrapManager.cpp:317-342 | a request asks for exactly the channels that are known, indirect, creatable by this node and not full (and for a new node not bidirectional), and awaits the handles the SDK answered, in order |
| BootstrapReports.KeptForUpdate | plugin-network-manager-twosix-cpp/source/BootstrapManager.cpp:171-174 | in every run, the links kept for a bootstrap are those that came up for a committee member's answers to it, in order |
| BootstrapReports.SettingFollows | plugin-network-manager-twosix-cpp/source/BootstrapManager.cpp:210-222 | introducer, handle, committee and connection are those of the last start and opening, until the bootstrap connection closes |
| BootstrapReports.QuietAfterClosing | plugin-network-manager-twosix-cpp/source/BootstrapManager.cpp:589-607 | after the bootstrap connection has closed, nothing asks for the link's destruction until another opens |
| BootstrapDestroy.DestroysCount | plugin-network-manager-twosix-cpp/source/BootstrapManager.cpp:589-607 | in every run, destruction is requested exactly once for each event that completes |
| BootstrapDestroy.CompletesMeans | plugin-network-manager-twosix-cpp/source/BootstrapManager.cpp:589-607 | an event completes, as can be seen before it, if and only if it leaves the connection up with nothing to create |
| BootstrapDestroy.AtMostOneDestroyWhen | plugin-network-manager-twosix-cpp/source/BootstrapManager.cpp:151-195 | in a run with one opening, destruction is requested at most once if and only if no link status completes after an event that did |
| BootstrapDestroy.AtMostOneDestroyForNewNode | plugin-network-manager-twosix-cpp/source/BootstrapManager.cpp:151-195 | for a node without committee requests: at most once if and only if no link status, of whatever link, arrives after completion while the connection is up |
| BootstrapDestroy.DestroyRepeats | plugin-network-manager-twosix-cpp/source/BootstrapManager.cpp:589-602 | for every number there is a run with one opening that requests destruction that often |
| BootstrapForward.DropFull | plugin-network-manager-twosix-cpp/source/BootstrapManager.cpp:531-541 | the erase loop leaves what the step-over rule leaves, with both lists aligned |
| BootstrapForward.HandleLinkLoadRequestForward | plugin-network-manager-twosix-cpp/source/BootstrapManager.cpp:516-558 | mismatched lists are refused; otherwise the surviving pairs are loaded, and none left is an error |
| BootstrapForward.OnlyFullDropped | plugin-network-manager-twosix-cpp/source/BootstrapManager.cpp:531-541 | survivors are an ordered subsequence, and every channel that is not full survives |
| BootstrapForward.AllFullDroppedWhen | plugin-network-manager-twosix-cpp/source/BootstrapManager.cpp:531-541 | all full channels are dropped if and only if no two full ones stand next to each other |
| BootstrapForward.SurvivorsExactly | plugin-network-manager-twosix-cpp/source/BootstrapManager.cpp:531-541 | exactly which channels survive: those that are open, and full ones behind an odd number of full ones |
| BootstrapForward.ForwardedToMember | plugin-network-manager-twosix-cpp/source/BootstrapManager.cpp:500-514 | a load request is sent on, as it came, to the very committee member for whom the new node made it |
| BootstrapForward.LoadedAsCreated | plugin-network-manager-twosix-cpp/source/BootstrapManager.cpp:500-558 | end to end: a committee member loads an address only for the channel on which the new node created that link |
| LinkManager.Links.AddLinkProfile | plugin-network-manager-twosix-cpp/source/LinkManager.cpp:221-253 | pushes a new entry to the front of its channel's list and returns an iterator to it |
| LinkManager.Links.RequestLink | plugin-network-manager-twosix-cpp/source/LinkManager.cpp:167-219 | the new profile stays in its list in any case, and is pending only if the SDK accepts |
| LinkManager.Links.RemoveLinkProfile | plugin-network-manager-twosix-cpp/source/LinkManager.cpp:255-263 | erases the profile and forgets the link, or is undefined when the iterator is not in the named channel's list |
| LinkManager.Links.OnLinkStatusChanged | plugin-network-manager-twosix-cpp/source/LinkManager.cpp:63-102 | pending and live tables and lists change as specified; an erase outside the iterator's list is undefined |
| LinkManager.Links.InitStaticLinks | plugin-network-manager-twosix-cpp/source/LinkManager.cpp:310-374 | requests every profile with a known role until the first refusal, and succeeds exactly if none is refused |
| LinkManager.IteratorsNeverDangle | plugin-network-manager-twosix-cpp/source/LinkManager.cpp:63-374 | every run from a freshly read configuration that keeps to the stated assumptions stays defined, and stored iterators stay valid, pairwise distinct, disjoint between the tables, and in their own channel's list |
| LinkManager.DestroyRemovesOwnProfile | plugin-network-manager-twosix-cpp/source/LinkManager.cpp:255-263 | destroying a live link is defined if and only if the SDK names its own channel, and then removes exactly its own profile |
| LinkProfiles.ProfilesAreKept | plugin-network-manager-twosix-cpp/source/LinkManager.cpp:63-374 | in every such run, links that are up and handles pending are those of a ledger kept on the events, and each leads to an entry with the profile asked for (a created link with its address) |
| LinkProfiles.InitTakes | plugin-network-manager-twosix-cpp/source/LinkManager.cpp:310-374 | initialising a channel makes pending exactly the entries with role creator or loader up to the first refusal, each under its own handle |
| LinkProfiles.ListsNext | plugin-network-manager-twosix-cpp/source/LinkManager.cpp:63-263 | a profile asked for goes to the front of its list even if refused, a created one when its link comes up, a destroyed link's own goes; nothing else changes a list |
| LinkSides.VerifyChannelIsSupported | plugin-network-manager-twosix-cpp/source/LinkWizard.cpp:724-813 | a channel is usable if and only if it suits the wish and one side works towards all peers, and that side is chosen |
| LinkSides.StaysInRoleWhen | plugin-network-manager-twosix-cpp/source/LinkWizard.cpp:775-804 | the chosen side is one this node's role allows, for all peers and channels, if and only if the role is both or the wish is not both |
| LinkSides.SideDetermined | plugin-network-manager-twosix-cpp/source/LinkWizard.cpp:682-722 | the side is the creator's where roles and direction of the data fit, else the loader's where they fit, but never the loader's of a bidirectional channel |
| LinkSides.FindsSideWhen | plugin-network-manager-twosix-cpp/source/LinkWizard.cpp:709-719 | a fitting side is found if and only if it is not that of a node that could only load a bidirectional channel |
| LinkSides.EndsAgree | plugin-network-manager-twosix-cpp/source/LinkWizard.cpp:682-722 | on a channel with one direction the two ends come to opposite sides |
| LinkWizard.Wizard.NumOutstandingRequests | plugin-network-manager-twosix-cpp/source/LinkWizard.cpp:78-80 | as no queue is ever empty, the number is that of the peers for whom some request waits plus the waiting multicast requests, in 32 bits; below 2^32 it is zero if and only if nothing waits |
| LinkWizard.Wizard.TryObtainUnicastLink | plugin-network-manager-twosix-cpp/source/LinkWizard.cpp:133-149 | a request that cannot be met now is queued for its peer |
| LinkWizard.Wizard.TryObtainMulticastSend | plugin-network-manager-twosix-cpp/source/LinkWizard.cpp:203-215 | only a request to peers with unknown channels is queued |
| LinkWizard.RetryQueue | plugin-network-manager-twosix-cpp/source/LinkWizard.cpp:331-356 | the erase loop leaves exactly the requests that failed, in order |
| LinkWizard.Wizard.TryQueuedRequests | plugin-network-manager-twosix-cpp/source/LinkWizard.cpp:331-367 | queues and waiting messages after a retry are exactly those that failed again, in order |
| LinkWizard.ZeroWhenNothingWaits | plugin-network-manager-twosix-cpp/source/LinkWizard.cpp:78-80 | in every run the number of outstanding requests is zero if and only if nothing is queued (below 2^32) |
| LinkWizard.CountsPeers | plugin-network-manager-twosix-cpp/source/LinkWizard.cpp:78-80 | the unicast part counts peers: it is at most the number of requests, and equal if and only if each peer has one |
| LinkWizard.KeptPartitions | plugin-network-manager-twosix-cpp/source/LinkWizard.cpp:357-366 | a retry pass over the messages neither loses nor repeats one |
| LinkWizard.KeptInOrder | plugin-network-manager-twosix-cpp/source/LinkWizard.cpp:357-366 | what a pass keeps stays in order |
| LinkWizard.StillWaitingIsKept | plugin-network-manager-twosix-cpp/source/LinkWizard.cpp:331-356 | the requests left in a queue are those at the positions whose attempts failed |
| LinkWizard.QueueStepMeans | plugin-network-manager-twosix-cpp/source/LinkWizard.cpp:133-367 | what each event leaves in every queue: of the requests those not met, in order, with a new one behind them; and the messages left over by failed attempts |
| LinkWizard.MetOrWaiting | plugin-network-manager-twosix-cpp/source/LinkWizard.cpp:133-367 | in every run each request made to a peer has been met or still waits, and never both |
| LinkWizard.KeptSingle | plugin-network-manager-twosix-cpp/source/LinkWizard.cpp:357-366 | a message stays if and only if it is refused |
| LinkWizard.RequestCreateMulticastRecvLink | plugin-network-manager-twosix-cpp/source/LinkWizard.cpp:533-559 | succeeds exactly if no request is refused, and queues all requests from the first refused one on |
| LinkWizard.UnsentAreQueued | plugin-network-manager-twosix-cpp/source/LinkWizard.cpp:533-559 | the messages queued are, in order, those at or behind the first refused one |
| LinkWizard.OnlyRefusedQueuedWhen | plugin-network-manager-twosix-cpp/source/LinkWizard.cpp:533-559 | every message queued was refused if and only if none was accepted after a refusal |
| MultiAddress.RequestIdsDiffer | plugin-network-manager-twosix-cpp/source/LinkWizard.cpp:837-839 | request IDs of different counter values differ |
| MultiAddress.Loads.AddPendingMultiAddressLoads | plugin-network-manager-twosix-cpp/source/LinkWizard.cpp:826-835 | every peer but this node is entered without an address |
| MultiAddress.Loads.HandleCreateMulticastRecvResponse | plugin-network-manager-twosix-cpp/source/LinkWizard.cpp:616-656 | a load is issued exactly when no address is missing, with peers and addresses aligned |
| MultiAddress.LoadsAreComplete | plugin-network-manager-twosix-cpp/source/LinkWizard.cpp:616-656 | in every run a load is issued only when every peer asked has given an address, and holds for each the address it gave last |
| MultiAddress.NoUnaskedLoad | plugin-network-manager-twosix-cpp/source/LinkWizard.cpp:621-625 | no load is issued under an ID that was never given out |
| MultiAddress.LoadedExactlyWhen | plugin-network-manager-twosix-cpp/source/LinkWizard.cpp:616-656 | in every run an event issues a load for a request if and only if it answers the request and with it every peer asked and every peer that answered has a last address |
| MultiAddress.LoadedOnceWhen | plugin-network-manager-twosix-cpp/source/LinkWizard.cpp:627-656 | a link is loaded at most once if and only if no answer completes its request after one that did |
| MultiAddress.LoadsRepeat | plugin-network-manager-twosix-cpp/source/LinkWizard.cpp:627-656 | a complete request stays on file: in every run the next answer after a load loads the link again if and only if its address is not empty |
| MultiAddress.LoadsTwice | plugin-network-manager-twosix-cpp/source/LinkWizard.cpp:616-656 | a run with one peer in which the link is loaded twice |
| Decimal.ParsePrinted | plugin-network-manager-twosix-cpp/source/RaceCrypto.cpp:258-307 | printing and parsing a number gives it back if and only if it is in range |
| Decimal.PrintedPlainly | plugin-network-manager-twosix-cpp/source/RaceCrypto.cpp:214-239 | printed numbers have no leading zeros and no sign but a minus |
| Decimal.ReadsInside | plugin-network-manager-twosix-cpp/source/RaceCrypto.cpp:258-307 | spaces and one sign may stand before the digits, and reading stops behind them |
| Decimal.ReadsNothing | plugin-network-manager-twosix-cpp/source/RaceCrypto.cpp:258-307 | without a digit there it is an error |
| Delimited.SplitTokens | plugin-network-manager-twosix-cpp/source/RaceCrypto.cpp:263-269 | the find-and-erase loop of the parsers terminates and yields the fields |
| Delimited.SplitUndoesJoin | plugin-network-manager-twosix-cpp/source/RaceCrypto.cpp:214-307 | splitting gives back the joined fields if and only if no field holds the delimiter and none but the last ends in a colon |
| Delimited.JoinSplit | plugin-network-manager-twosix-cpp/source/RaceCrypto.cpp:258-307 | joining what was split gives back every text |
| Delimited.ParseDelimitedMessage | plugin-network-manager-twosix-cpp/source/RaceCrypto.cpp:258-274 | the parser of clear messages, with its errors |
| Delimited.ParseDelimitedExtMessage | plugin-network-manager-twosix-cpp/source/RaceCrypto.cpp:284-307 | the parser of both kinds, by the number of fields; a type number outside the enumeration is kept |
| Delimited.ClrRoundTrip | plugin-network-manager-twosix-cpp/source/RaceCrypto.cpp:214-274 | a clear message survives if and only if none of its three texts holds the delimiter or ends in a colon |
| Delimited.ExtRoundTrip | plugin-network-manager-twosix-cpp/source/RaceCrypto.cpp:227-307 | the same for messages with routing fields |
| Delimited.ClrReadAsExt | plugin-network-manager-twosix-cpp/source/RaceCrypto.cpp:284-307 | a clear message read by a server is a new one, with a uuid that is not the unset one |
| Delimited.FormattedMsgLength | plugin-network-manager-twosix-cpp/source/RaceCrypto.cpp:246-250 | getMsgLength of a formatted message is its text's length if and only if the text is clean |
| Delimited.ClrText | plugin-network-manager-twosix-cpp/source/RaceCrypto.cpp:214-218 | the text of a clear message, written out |
| Delimited.ExtText | plugin-network-manager-twosix-cpp/source/RaceCrypto.cpp:227-238 | the text of a message with routing fields, written out |
| Delimited.ParsedClrReads | plugin-network-manager-twosix-cpp/source/RaceCrypto.cpp:258-274 | whatever is accepted as a clear message has the tag, three texts and three numbers that can be read, in this order |
| Delimited.ReadAsClr | plugin-network-manager-twosix-cpp/source/RaceCrypto.cpp:258-274 | and every such text is accepted and gives the message, if its fields can be told apart |
| Delimited.ParseExtMeans | plugin-network-manager-twosix-cpp/source/RaceCrypto.cpp:284-307 | which texts a server accepts and what it reads from which field; the tag is not looked at |
| Base64.Base64Encode | plugin-network-manager-twosix-cpp/source/helper.cpp:54-86 | the loop computes the encoding of section 4 of RFC 4648, of length 4 times the groups of three rounded up |
| Base64.Base64Decode | plugin-network-manager-twosix-cpp/source/helper.cpp:110-136 | the loop computes the decoding, with its errors |
| Base64.DecodeEncode | plugin-network-manager-twosix-cpp/source/helper.cpp:54-136 | decoding what was encoded gives back every byte sequence |
| Base64.EncodeDecode | plugin-network-manager-twosix-cpp/source/helper.cpp:54-136 | encoding what was decoded gives back an accepted text if and only if its unused bits are zero (section 3.5 of RFC 4648) |
| Base64.EncodedChar | plugin-network-manager-twosix-cpp/source/helper.cpp:54-86 | every character of the encoding: a base-64 digit of its group's twenty-four bits, or padding |
| Base64.TableIs | plugin-network-manager-twosix-cpp/source/helper.cpp:25-28 | the alphabet is that of table 1 of RFC 4648 |
| Base64.DecodesWhen | plugin-network-manager-twosix-cpp/source/helper.cpp:110-136 | a text is decoded if and only if its length is a multiple of four and all but its padding is in the alphabet |

## Left out

- Sockets, HTTP polling, files, JSON, logging, tracing and user prompts: input and output. The JSON
  text of committee lists is a supplied codec; `Delimited` states what it has to satisfy.
- AES-GCM and SHA-256: a uuid is made from an arbitrary hash prefix, and packages travel in the clear.
- The SDK's generation of handles, link IDs and connection IDs: an environment that gives fresh
  values and any answers.
- The 32-bit width of ring lengths and time-to-live, 64-bit width of message counters, and the
  overflow of the request counter: integers are unbounded there. Widths are modelled where the code
  narrows a value: trim amounts, link ranks, getMsgLength, numOutstandingRequests.
- The order of unordered maps: committees are listed in an arbitrary fixed order per server, and
  loops over other maps pick their elements in any order.
- Loss and duplication of messages in transit; ring entries of the Python plugin that lack a next server.
- Delivery.DeliveredAtQuiescence: states delivery for committees of one ring only, because with several
  rings chains started on different ones can cut each other off.
- ServerPluginCpp.ServerCpp.SendMsg: does not throw. In the plugin an unknown destination persona throws
  out_of_range out of the send, possibly in the middle of a flood; the routing model takes the names in
  rings, reachable committees and exit lists to be known personas. `Failover` models the exception itself.
- BootstrapIntroducer.Introducer.OnPrepareToBootstrap: when the SDK refuses to open the bootstrap connection, the new
  record's handle may be None, which matches no event; the code leaves the field uninitialised.
- Casting a number outside an enumeration to it: C++ leaves the value open; `Delimited` keeps the number,
  as compilers do.
- Data races of the Go plugin outside its mutexes: DestroyLink and DeactivateChannel iterate over maps
  without the lock; they run as single steps here. A connection that fails to be built is not modelled.
  Connection IDs are not empty.
- CreateLink, CreateLinkFromAddress and LoadLinkAddress of the Go plugin, which allocate ports and
  addresses, and receiving and writing on connections.
- setPersonasForLink, hasLink and the channel activation bookkeeping of `LinkManager`: field updates
  and look-ups. A std::list node is a number that is never reused, not an address.
- The environment of an attempt in the link wizard's queues (what createLink and sending answer) is
  given per attempt; supported-channel queries and their responses are not modelled.
- handleAddPersona and the closing handshake of the bootstrap link (onPackageStatusChanged,
  handleDestroyLink): one-step calls into the SDK.
- `PluginCommsTwoSixPython.py`, the Python link wizard and link comparator, the Rust and Go loader shims, the client
  plugin's multicast send and the configuration generators.
