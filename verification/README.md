# CIRRADIO verification model

A Dafny model of the networking, wire, keying, voice, joining, hopping and board-placement logic of CIRRADIO, with
proofs about whole runs of it. `dafny verify dfyconfig.toml` checks the project.

| file | what it models |
|---|---|
| `src/Common.dfy` | 8- and 32-bit integers, counters that wrap, options |
| `src/LinkMaps.dfy` | the symmetric weighted link map, its updates, and the walks in it |
| `src/RouteSearch.dfy` | the lazy-deletion Dijkstra loop, its invariant, termination, and one expansion per node |
| `src/BestRoutes.dfy` | what the finished search has found; the route table as a function of the link map |
| `src/RouteTables.dfy` | class `RouteTable` |
| `src/Forwarding.dfy` | hop-by-hop forwarding through routers that each consult only their own table |
| `src/MeshRouters.dfy` | class `MeshRouter` and its runs |
| `src/Framing.dfy` | the 13-byte header codec, the stream parser, samples |
| `src/Channels.dfy` | class `SimChannel` and its runs |
| `src/Delivery.dfy` | framed messages over the channel |
| `src/RadioNodes.dfy` | class `RadioNode`: start, ticks, polling, dispatch, sending |
| `src/Messaging.dfy` | several nodes on one channel: end-to-end delivery in plaintext |
| `src/Rekeying.dfy` | over-the-air rekeying in terms of key values |
| `src/KeyManagers.dfy` | classes `Hsm`, `KeyHandle`, `KeyManager`: who owns which key object |
| `src/Jitter.dfy` | class `JitterBuffer` and its runs |
| `src/Joining.dfy` | class `NetJoin` and its runs |
| `src/Hopping.dfy` | class `HopSequencer` |
| `src/Placement.dfy` | class `Zone` of the board placer |

Each class is proved against a step function on values (its methods' `ensures` give the whole new state), and the
results about runs are lemmas about those step functions. Link qualities are reals. Cryptographic primitives, nonces,
initialization vectors and the voice codec are parameters: a result holds for every choice of them that satisfies the
law it names.

## Main results

* **Routing.** The search ends for every link map with qualities in [0, 1]; no node is expanded twice, and a settled
  node keeps its quality and predecessor. Destinations are exactly the reachable nodes, and each entry describes a
  simple path that exists in the link map and that no walk beats. Ties are broken towards high node ids.
* **Forwarding.** When all routers know the same links, of any quality in [0, 1] and symmetric or not, hop-by-hop
  forwarding arrives, visits no router twice, and follows a best walk of its source. Quality 1.0 is what `RadioNode`
  reports for every peer it discovers (`software/src/node/RadioNode.cpp:189`): there the best quality need not rise at a
  hop, and what prevents loops is that the queue breaks ties by node id. The proof shows that the chosen path has the
  highest possible weakest inner node among the equally good walks, and takes from that a quantity that rises strictly at
  each hop, also where worthless links make every quality 0.
* **Router runs.** The link map is a function of the history of measurements, advertisements and removals; the cached
  routes always equal a recomputation from it; re-deliveries leave no trace; a
  removed neighbor stays out of every route until something mentions it.
* **Wire.** Cutting a stream of messages anywhere yields exactly the longest list of complete ones. The channel neither
  loses, repeats nor reorders beyond the transmissions that partition mode drops. All messages sent to a radio on a
  frequency are polled or still waiting, in order, if and only if no poll was left with an unfinished tail.
* **End to end.** Whatever all nodes on a channel do, from the moment a node joins: what its user has read and heard and
  its inboxes are made of one stream per frequency, and where no poll was left with a tail that stream, then the backlog,
  reads as exactly what the other nodes and their users sent out for it there. A tick that finds at most one poll's worth
  catches up completely; a node that keeps up with the discovery frequency knows exactly the nodes that have announced
  themselves.
* **Rekeying.** Receivers of one sender's messages converge whatever the order and repetitions; in general they do if and
  only if the highest usable messages agree. The keys held are a function of the history; the live key objects are exactly
  the handles held.
* **Jitter, joining, hopping, placement.** As the table states.

## Where the code differs from its documentation

* `software/src/network/LinkState.h:16` calls the advertisement sequence "monotonically increasing per node", but
  `sequence_` is never incremented (`software/src/network/MeshRouter.cpp:34`): after one advertisement of a router has
  been shown to a peer, that peer rejects every later one (`LaterAdvertisementsIgnored`).
* An advertisement only merges links (`software/src/network/MeshRouter.cpp:23-25`); it never withdraws one
  (`MergeMeaning`).
* A poll takes at most 4096 bytes and drops an unfinished tail (`software/src/node/RadioNode.cpp:174-177`, `430`). The
  part taken and the part left parse to the messages sent exactly when the cut falls between two of them (`PollSplits`);
  after any other cut the rest may even parse to a message nobody sent (`TornTailForges`). Over a whole history the
  account balances exactly when no poll was left with a tail (`FramesArriveExactly`). A message longer than every poll is
  never handed over, whatever else is on the air (`OversizedFrameIsLost`).
* The hop frequency may be the discovery frequency, which lies on the channel grid. Beacons taken by the hop poll of a tick
  are dropped (`software/src/node/RadioNode.cpp:234-276`), so `PeersAreHeard` speaks of the discovery polls.
* The length field truncates the payload size to 32 bits; a frame survives exactly when its size fits (`FrameRoundTrip`).
* Jitter eviction advances the expectation only when the evicted frame is the expected one
  (`software/src/voice/JitterBuffer.cpp:19`). So before the first pop a push leaves something to play exactly when nothing
  has to be evicted, or the frame after the smallest number is there (`PushReaches`); otherwise nothing comes out until
  the expected frame is pushed (`StrandsExactly`; `EvictionCanStrand` gives a family of such pushes).
* Frames are played in strictly increasing order over all runs that push only the numbers of a given set exactly when the
  set does not hold both 0 and 2^32 - 1, or the depth is 0 (`OrderedExactly`): at every other depth playing 2^32 - 1 wraps
  the expectation to 0 (`WrapBreaksOrder`).
* When the epoch counter wraps, the message it emits is rejected by every receiver (`WrappedIsRejected`).
* `Zone.place` does not check the right edge after starting a new row: a box stays inside on that side exactly when its
  width allows (`RightEdge`).
* `docs/architecture.md:72-93` describes 287 channels and 5 retries; the code and the model use
  `(max - min) / spacing` channels, a hop index byte in the cipher block, and attempts 0 to 10.

## Model

| member | source | states |
|---|---|---|
| LinkMaps.UpdateLinkMeaning | software/src/network/RouteTable.cpp:10-24 | a bidirectional update sets exactly the two ordered pairs, changes no other link, and keeps one entry per pair |
| LinkMaps.RemoveNodeMeaning | software/src/network/RouteTable.cpp:26-36 | removing a node removes exactly the links that touch it |
| LinkMaps.WalkTail | software/src/network/RouteTable.cpp:38-42 | the left-to-right product of a walk is its first link's quality times the product of the rest |
| RouteSearch.TopIndex | software/src/network/RouteTable.cpp:46-54 | no queue entry has a higher quality than the one popped, and none of the same quality a higher node id |
| RouteSearch.StartInv | software/src/network/RouteTable.cpp:43-51 | the initial state satisfies the loop invariant |
| RouteSearch.StepKeepsInv | software/src/network/RouteTable.cpp:53-76 | an iteration keeps the invariant; it settles exactly the popped node; an entry of a settled node is always stale, any other never; settled nodes keep quality and predecessor |
| RouteSearch.StepProgress | software/src/network/RouteTable.cpp:53-76 | an iteration either settles one more node or shortens the queue: the loop ends |
| RouteSearch.ExpandedOnce | software/src/network/RouteTable.cpp:53-76 | over the rest of a search no node is expanded twice, none that was settled is expanded at all, and settled nodes stay as they are to the end |
| BestRoutes.TreePath | software/src/network/RouteTable.cpp:68-74 | every known node's predecessor chain is a walk from the local node whose product is the node's quality |
| BestRoutes.TreePathSimple | software/src/network/RouteTable.cpp:84-91 | no predecessor chain visits a node twice |
| BestRoutes.TreeIsChain | software/src/network/RouteTable.cpp:84-91 | following predecessors from a destination passes the nodes of its path backwards and ends at the local node, which has no predecessor |
| BestRoutes.WalkBound | software/src/network/RouteTable.cpp:53-76 | in the final state no walk beats the quality found for its end, and no equally good walk has a higher weakest inner node than the chosen path |
| BestRoutes.RoutesAreOptimal | software/src/network/RouteTable.cpp:38-100 | routes exist exactly for the reachable nodes other than the local one; each entry gives first hop, length and product of a simple path in the link map; no walk to the destination has a higher product |
| BestRoutes.TieRule | software/src/network/RouteTable.cpp:46-76 | among walks as good as the route chosen: for each node the route passes, the walk passes one (not the local node) of lower best quality, or of the same and with no higher id |
| BestRoutes.LowestInnerNodeIsHighest | software/src/network/RouteTable.cpp:46-76 | when all links have quality 1.0, the lowest id a route passes is the highest any walk to its destination allows |
| BestRoutes.CommonNeighbor | software/src/network/RouteTable.cpp:79-99 | then the next hop towards a node two links away is that node, or has at least the id of every common neighbor |
| RouteTables.RouteTable.UpdateLink | software/src/network/RouteTable.cpp:10-24 | the link map becomes the bidirectional update of the old one |
| RouteTables.RouteTable.RemoveNode | software/src/network/RouteTable.cpp:26-36 | the link map loses the node and every entry for it |
| RouteTables.RouteTable.RunSearch | software/src/network/RouteTable.cpp:41-76 | the main loop ends in the final state of the search |
| RouteTables.RouteTable.TraceBack | software/src/network/RouteTable.cpp:84-91 | the traceback ends and yields the first hop and the length of the predecessor chain |
| RouteTables.RouteTable.Recompute | software/src/network/RouteTable.cpp:38-100 | the cached routes become the route table of the current link map |
| RouteTables.SetLinkAt | software/src/network/RouteTable.cpp:13-19 | an update writes at the first entry found for the neighbor, or appends |
| RouteTables.PathIsChain | software/src/network/RouteTable.cpp:79-99 | the route entry is the one read off the predecessor chain |
| Forwarding.HopQuality | software/src/network/RouteTable.cpp:67-98 | handing over to the next hop multiplies the best quality by exactly the link's quality; it rises strictly when that is below 1 and the quality there is positive |
| Forwarding.FloorRises | software/src/network/RouteTable.cpp:53-98 | at the next hop, whatever the quality of the link, the weakest inner node of the route does not get weaker |
| Forwarding.BottlenecksRise | software/src/network/RouteTable.cpp:53-98 | at every hop short of the destination the sequence of bottlenecks rises strictly |
| Forwarding.HopAdvances | software/src/network/RouteTable.cpp:67-98 | every hop arrives or lands on a strictly better placed router |
| Forwarding.ForwardingArrives | software/src/network/MeshRouter.cpp:56-58 | forwarding by each router's own table reaches the destination, never revisits a router, and takes a walk as good as the source's best |
| MeshRouters.MeshRouter.constructor | software/src/network/MeshRouter.cpp:5-6 | a new router has an empty link map and routes that match it |
| MeshRouters.MeshRouter.ProcessAdvertisement | software/src/network/MeshRouter.cpp:8-29 | accepts exactly foreign, newer advertisements; the whole new state; the cached routes match the link map again |
| MeshRouters.MeshRouter.UpdateNeighbor | software/src/network/MeshRouter.cpp:44-48 | the whole new state; the cached routes match the link map again |
| MeshRouters.MeshRouter.RemoveNeighbor | software/src/network/MeshRouter.cpp:50-54 | the whole new state; the cached routes match the link map again |
| MeshRouters.MeshRouter.GenerateAdvertisement | software/src/network/MeshRouter.cpp:31-42 | lists exactly the direct neighbors, in id order, under sequence number 0 |
| MeshRouters.MeshRouter.RouteTo | software/src/network/MeshRouter.cpp:56-58 | answers from the route table of the current link map |
| MeshRouters.MergeMeaning | software/src/network/MeshRouter.cpp:22-25 | merging an advertisement overwrites exactly the pairs it lists, both ways, with the last quality listed, and withdraws nothing |
| MeshRouters.RunWellFormed | software/src/network/MeshRouter.cpp:8-54 | in every reachable state the link map is symmetric with at most one entry per ordered pair |
| MeshRouters.RemovedStaysGone | software/src/network/MeshRouter.cpp:50-54 | after removing a neighbor no route ends at it or passes through it until an event mentions it |
| MeshRouters.AcceptedExactly | software/src/network/MeshRouter.cpp:8-20 | in any reachable state an advertisement is accepted if and only if it is foreign and newer than every advertisement of its origin presented before |
| MeshRouters.LinksFromHistory | software/src/network/MeshRouter.cpp:8-54 | in any reachable state the link map holds x-y with quality q if and only if the latest measurement, news advertisement or removal about the pair says q |
| MeshRouters.AdvertisesMeasurements | software/src/network/MeshRouter.cpp:31-54 | in any reachable state a router advertises exactly the neighbors measured and not removed since, with their latest quality |
| MeshRouters.SeenIsRejected | software/src/network/MeshRouter.cpp:14-20 | an advertisement once presented is never accepted again |
| MeshRouters.RedeliveryChangesNothing | software/src/network/MeshRouter.cpp:8-29 | leaving every re-delivered advertisement out of a run gives the same state |
| MeshRouters.AcceptedSequencesIncrease | software/src/network/MeshRouter.cpp:14-20 | accepted sequence numbers of one origin strictly increase |
| MeshRouters.LaterAdvertisementsIgnored | software/src/network/MeshRouter.cpp:31-42 | of all advertisements a router generates, a peer can accept at most the first it is shown |
| Framing.U32RoundTrip | software/src/node/RadioNode.cpp:15-27 | 32-bit encoding and decoding are inverse both ways |
| Framing.SamplesRoundTrip | software/src/node/RadioNode.cpp:30-48 | bytes survive the trip through samples |
| Framing.NearestByte | software/src/node/RadioNode.cpp:40-48 | any sample reads as the nearest byte, and as the higher one halfway between two |
| Framing.HeaderRoundTrip | software/src/node/RadioNode.cpp:439-460 | header encoding and decoding are inverse both ways |
| Framing.WireLayout | software/src/node/RadioNode.cpp:15-20 | the numeric weight of every header byte: type at 0, source at 1-4, destination at 5-8, payload size modulo 2^32 at 9-12, most significant first, then the payload |
| Framing.FrameRoundTrip | software/src/node/RadioNode.cpp:165-182 | a message at the head of a stream is read back unchanged if and only if its payload size fits 32 bits |
| Framing.ParseCutStream | software/src/node/RadioNode.cpp:164-228 | cutting an encoded stream at any byte, the parser returns exactly the longest list of complete messages |
| Framing.ParseIsPrefix | software/src/node/RadioNode.cpp:164-228 | what the parser returns re-encodes to the bytes it consumed, and what is left holds no complete message |
| Channels.SimChannel.RegisterRadio | software/src/hal/SimChannel.cpp:6-12 | the id handed out and the whole new state |
| Channels.SimChannel.UnregisterRadio | software/src/hal/SimChannel.cpp:14-20 | the whole new state |
| Channels.SimChannel.SetPartitionActive | software/src/hal/SimChannel.cpp:22-26 | the whole new state |
| Channels.SimChannel.TransmitSamples | software/src/hal/SimChannel.cpp:28-44 | the whole new state, drop rule included |
| Channels.SimChannel.ReceiveSamples | software/src/hal/SimChannel.cpp:46-61 | the samples handed out and the whole new state |
| Channels.DeliverMeaning | software/src/hal/SimChannel.cpp:37-43 | a broadcast reaches every registered radio but the sender, once, on its own frequency only |
| Channels.RunMembership | software/src/hal/SimChannel.cpp:6-20 | the registered radios and the buffers are those the history of registrations says |
| Channels.DropRule | software/src/hal/SimChannel.cpp:30-36 | a transmission is dropped exactly when partition mode is on and an even number of transmissions has been made since it was switched, also across a wrap of the counter |
| Channels.ReceiveTakes | software/src/hal/SimChannel.cpp:46-61 | a receive hands out the front of the buffer, as much as asked for or all there is; the rest stays, and no other buffer changes |
| Channels.Conservation | software/src/hal/SimChannel.cpp:6-61 | what a registered radio has received on a frequency, then what is buffered for it, is in order what others transmitted there, undropped, since it registered |
| Delivery.PollSplits | software/src/node/RadioNode.cpp:428-437 | a poll hands over the complete messages in the part it takes; the part taken and the part left parse to the messages sent if and only if the cut falls between messages |
| Delivery.TornTailForges | software/src/node/RadioNode.cpp:164-182 | cut behind its header, a message whose payload is an encoded message is lost, and the tail parses to that inner message |
| Delivery.OversizedFrameIsLost | software/src/node/RadioNode.cpp:428-437 | over any history, nothing longer than a radio's polls is ever handed over to it |
| Delivery.DrainingConsumes | software/src/node/RadioNode.cpp:428-437 | polls that empty the buffer leave no unfinished tail |
| Delivery.FramesArrive | software/src/node/RadioNode.cpp:420-437 | when no poll of a frequency is left with a tail, the messages parsed from the polls, then those still buffered, are the messages others sent there, each once and in order |
| Delivery.FramesArriveExactly | software/src/node/RadioNode.cpp:420-437 | that condition is also necessary |
| RadioNodes.RadioNode.constructor | software/src/node/RadioNode.cpp:52-93 | an idle node without keys, with empty inboxes, a router of its own and a newly registered radio |
| RadioNodes.RadioNode.Start | software/src/node/RadioNode.cpp:98-130 | a node that starts holds the provisioned keys, else those it had if all three were there, else the generated ones; it becomes active with a sequencer under the FHEK exactly when all three are there and the FHEK has 32 bytes; otherwise it keeps the keys installed before the engine refused |
| RadioNodes.ProvisionedAlike | software/src/node/RadioNode.cpp:104-118 | provisioned nodes that start agree on the traffic key and on the frequency of every hop |
| RadioNodes.RadioNode.Dispatch | software/src/node/RadioNode.cpp:179-224 | what one message does to the inboxes, the peers and the router |
| RadioNodes.RadioNode.Poll | software/src/node/RadioNode.cpp:161-229 | one poll and its parse loop: inboxes, peers, router and channel afterwards |
| RadioNodes.RadioNode.Tick | software/src/node/RadioNode.cpp:132-282 | one tick: own beacon, discovery poll, poll of the sequencer's hop frequency, next frame number; nothing when idle |
| RadioNodes.RadioNode.SendData | software/src/node/RadioNode.cpp:288-313 | transmits exactly the sealed message on the hop frequency, or nothing when idle, without keys, or when sealing fails |
| RadioNodes.RadioNode.ReceiveData | software/src/node/RadioNode.cpp:315-322 | hands out the oldest message |
| RadioNodes.RadioNode.VoiceTx | software/src/node/RadioNode.cpp:324-352 | the same for encoded audio, as a voice message |
| RadioNodes.RadioNode.VoiceRx | software/src/node/RadioNode.cpp:354-361 | hands out the oldest voice message |
| RadioNodes.HopByWeights | software/src/fhss/HopSequencer.cpp:48-84 | the hop frequency as a number: 225 MHz plus 25 kHz times the first eight cipher output bytes modulo 11480 |
| RadioNodes.BeaconLayout | software/src/node/RadioNode.cpp:137-154 | the numeric weight of every beacon byte: node id, network id, number of nodes |
| RadioNodes.HandleAllItems | software/src/node/RadioNode.cpp:165-229 | a parse loop appends to both inboxes exactly the accepted messages addressed to the node or broadcast, in order, with their source; in a discovery poll it adds the announced peers, each once and never itself |
| Messaging.PlayIsFramed | software/src/node/RadioNode.cpp:137-158 | over any run every transmission of a node is one complete message |
| Messaging.PlayOk | software/src/node/RadioNode.cpp:161-361 | over any run of joins, departures, ticks, sends and reads the nodes are the registered radios, and what each user has read and heard, then the inboxes, is what the polled messages contribute |
| Messaging.SealedIsReadable | software/src/node/RadioNode.cpp:193-224 | what a node makes of words or sound reads as that, under its id, to the nodes addressed that hold its key, and as nothing to the others |
| Messaging.SentIsTyped | software/src/node/RadioNode.cpp:288-352 | the messages others sent on a frequency since a node joined read, to it, as exactly their beacons and what their users sent it |
| Messaging.EndToEnd | software/src/node/RadioNode.cpp:132-361 | what was read and heard plus both inboxes splits by frequency; on a frequency whose polls left no tail, its part, then what the backlog reads as, is what the other nodes and users sent out there, each once and in order |
| Messaging.DrainedArrives | software/src/node/RadioNode.cpp:428-437 | a node that never has more than 4096 bytes waiting when it polls a frequency meets that condition |
| Messaging.KeepingUpConsumes | software/src/node/RadioNode.cpp:161-237 | so does a node that never has more than 4096 bytes waiting there when it ticks |
| Messaging.TickCatchesUp | software/src/node/RadioNode.cpp:161-237 | after a tick that found at most 4096 bytes on a frequency it polls, nothing is left there, and all ever sent out for the node there has reached it |
| Messaging.PeersAreHeard | software/src/node/RadioNode.cpp:180-192 | over any run the peers are exactly the nodes announced in the messages of the discovery polls, itself apart, each once, in order of first hearing; the frame number counts the ticks modulo 2^32 |
| Messaging.Discovery | software/src/node/RadioNode.cpp:132-192 | after a tick of a node that kept up with the discovery frequency, its peers are exactly the ids of the other nodes whose ticks put an undropped beacon on the air since it joined |
| Messaging.PeersAreNeighbors | software/src/node/RadioNode.cpp:188-189 | over any run the router's measured neighbors are exactly the peers discovered, each once, none the node itself, each with quality 1.0 |
| Rekeying.ReceiverTakesTop | software/src/security/KeyManager.cpp:85-95 | a receiver ends with the keys and epoch of a highest usable message, or unchanged when there is none |
| Rekeying.Converge | software/src/security/KeyManager.cpp:85-95 | receivers starting alike with the same set of messages end alike, whatever order and repetitions, when the highest usable messages agree |
| Rekeying.ConvergeExactly | software/src/security/KeyManager.cpp:85-95 | that condition is also necessary |
| Rekeying.EpochsIncrease | software/src/security/KeyManager.cpp:75-83 | one sender's messages carry strictly increasing epochs between zeroizations and short of a wrap |
| Rekeying.OneSenderConverges | software/src/security/KeyManager.cpp:75-95 | any two receivers of one sender's messages converge |
| Rekeying.RekeyRoundTrip | software/src/security/KeyManager.cpp:75-95 | a message gives a receiver with the same key-encryption key and an older epoch the sender's keys, and any other receiver nothing |
| Rekeying.WrappedIsRejected | software/src/security/KeyManager.cpp:81-87 | the message emitted when the epoch counter wraps is rejected by every receiver |
| Rekeying.KeysFromHistory | software/src/security/KeyManager.cpp:20-100 | after any run each key is the one last installed, rotated in or taken from a message since the last zeroization, and the epoch counts rotations and emitted messages from the last message taken |
| Rekeying.RotationReaches | software/src/security/KeyManager.cpp:34-95 | rotating and then rekeying gives every receiver with the same key-encryption key that is not ahead the key rotated in |
| KeyManagers.KeyHandle.Reset | software/src/security/IHsmEngine.h:96-102 | destroys the object held, if any, and holds nothing |
| KeyManagers.KeyHandle.MoveFrom | software/src/security/IHsmEngine.h:22-24 | takes over the handle and empties the source |
| KeyManagers.KeyHandle.MoveAssign | software/src/security/IHsmEngine.h:25-29 | destroys what is held, takes over the source's handle and empties it; self-assignment changes nothing |
| KeyManagers.KeyManager.Install | software/src/security/KeyManager.cpp:9-45 | replaces one key, creating the new object before destroying the old; nothing changes when the engine fails |
| KeyManagers.KeyManager.Rotate | software/src/security/KeyManager.cpp:34-37 | replaces the traffic key and advances the epoch, or neither |
| KeyManagers.KeyManager.GenerateOtarMessage | software/src/security/KeyManager.cpp:75-83 | the message emitted, and the epoch advanced exactly when one is |
| KeyManagers.KeyManager.ProcessOtarMessage | software/src/security/KeyManager.cpp:85-95 | accepts exactly newer messages that both unwrap; objects and handles afterwards, also when only one key unwraps |
| KeyManagers.KeyManager.ZeroizeKeys | software/src/security/KeyManager.cpp:97-100 | destroys all three keys and resets the epoch |
| KeyManagers.ApplyOwned | software/src/security/KeyManager.cpp:9-100 | every operation keeps the live objects equal to the handles held, each held once |
| KeyManagers.ApplyRefines | software/src/security/KeyManager.cpp:9-100 | the key values behind the acting manager's handles change as rekeying says; every other manager keeps its own |
| KeyManagers.RunOwned | software/src/security/KeyManager.cpp:9-100 | over every run on several managers, live objects are exactly the handles held, all others are destroyed once, and each manager's keys depend on its own operations alone |
| KeyManagers.HeldFromHistory | software/src/security/KeyManager.cpp:20-100 | over every run on several managers, the keys behind each manager's handles are those its own history says |
| KeyManagers.ZeroizeLeavesNothing | software/src/security/KeyManager.cpp:97-100 | zeroization leaves the manager no handle and none of its objects alive |
| Jitter.JitterBuffer.PushFrame | software/src/voice/JitterBuffer.cpp:7-24 | the whole new state, evictions included |
| Jitter.JitterBuffer.PopFrame | software/src/voice/JitterBuffer.cpp:26-38 | the frame handed out and the whole new state |
| Jitter.RunBuffer | software/src/voice/JitterBuffer.cpp:7-38 | the buffer never exceeds its depth and holds under each number the frame last pushed under it |
| Jitter.PoppedIsLastPushed | software/src/voice/JitterBuffer.cpp:26-38 | what a pop hands out is the frame last pushed under its number |
| Jitter.PushExactly | software/src/voice/JitterBuffer.cpp:7-24 | in any reachable state a push keeps everything that fits, else all but the lowest number, and the expectation moves on exactly when it was that number |
| Jitter.EvictKeepsHighest | software/src/voice/JitterBuffer.cpp:15-23 | an eviction keeps as many frames as the depth allows, and those with the highest numbers |
| Jitter.NothingLost | software/src/voice/JitterBuffer.cpp:7-38 | as long as no more frames wait than the depth allows, the buffer holds exactly what was pushed and not played |
| Jitter.OrderedExactly | software/src/voice/JitterBuffer.cpp:7-38 | every run that pushes only numbers of a set plays in strictly increasing order if and only if the set lacks 0 or 2^32 - 1, or the depth is 0 |
| Jitter.WrapBreaksOrder | software/src/voice/JitterBuffer.cpp:34-36 | at every positive depth frame 0 can be played after frame 2^32 - 1 |
| Jitter.Starves | software/src/voice/JitterBuffer.cpp:26-32 | once popping has begun and the expected frame is missing, nothing comes out until it is pushed |
| Jitter.Reorders | software/src/voice/JitterBuffer.cpp:7-38 | consecutive frames, at most the depth, pushed in any order before the first pop, come out in sequence, and then nothing |
| Jitter.PushReaches | software/src/voice/JitterBuffer.cpp:7-24 | before the first pop a push leaves a frame to play if and only if all fit, or the successor of the smallest number is there |
| Jitter.StrandsExactly | software/src/voice/JitterBuffer.cpp:7-38 | after any pushes and one pop: a frame has come out if that condition held at the last push; otherwise nothing comes out until the expected frame is pushed |
| Jitter.EvictionCanStrand | software/src/voice/JitterBuffer.cpp:15-23 | a full buffer of numbers above 2 is stranded by pushing frame 1 |
| Joining.NetJoin.SignChallenge | software/src/network/NetJoin.cpp:66-74 | echoes the nonce with its signature, empty when signing fails |
| Joining.NetJoin.CreateChallenge | software/src/network/NetJoin.cpp:82-91 | the challenge, and the new state |
| Joining.NetJoin.VerifyAndAccept | software/src/network/NetJoin.cpp:93-142 | the reply, and the new state: a pending challenge is consumed on every path |
| Joining.PendingIs | software/src/network/NetJoin.cpp:82-142 | a challenge is pending for a joiner exactly when it is the joiner's latest and nobody has answered for the joiner since |
| Joining.AcceptedExactly | software/src/network/NetJoin.cpp:93-142 | an answer is accepted if and only if it echoes the open challenge, verifies under the key last trusted, and both net keys can be wrapped |
| Joining.AcceptedOnce | software/src/network/NetJoin.cpp:93-142 | acceptances map one-to-one into the challenges created for their joiners |
| Joining.AnswerConsumes | software/src/network/NetJoin.cpp:100-141 | any attempt to answer for a joiner closes its challenge |
| Joining.HonestJoinerAccepted | software/src/network/NetJoin.cpp:66-142 | a trusted joiner that signs its open challenge is accepted, and opens the two replies with the nonce to the TEK and the FHEK |
| Hopping.ChecksAreExact | software/src/fhss/HopSequencer.cpp:33-46 | the constructor accepts exactly 32-byte keys and bands with room for a channel, and which check fails first otherwise |
| Hopping.HopSequencer.Make | software/src/fhss/HopSequencer.cpp:24-47 | construction succeeds exactly when the checks pass, else gives the first failing check |
| Hopping.InputBlockInjective | software/src/fhss/HopSequencer.cpp:53-60 | no two (slot, frame, hop index, attempt) share a cipher input block |
| Hopping.ChannelByWeights | software/src/fhss/HopSequencer.cpp:48-84 | the numeric weight of every cipher input and output byte: the channel is the little-endian value of the first eight output bytes modulo the channel count |
| Hopping.Candidate | software/src/fhss/HopSequencer.cpp:75-83 | every proposed frequency is on the channel grid, in [min, max), and computed without 64-bit overflow |
| Hopping.HopSequencer.GetHopFrequency | software/src/fhss/HopSequencer.cpp:80-95 | the first candidate not blacklisted among attempts 0 to 10, else the candidate of attempt 10 |
| Hopping.LargerBlacklist | software/src/fhss/HopSequencer.cpp:80-103 | enlarging the blacklist moves a hop only off a newly blacklisted frequency; a hop lands on a blacklisted frequency only when all attempts do |
| Placement.Zone.Place | hardware/cirradio-devboard/gen_pcb_placement.py:141-159 | the position returned and the cursor afterwards, also when the call fails |
| Placement.BoxesApart | hardware/cirradio-devboard/gen_pcb_placement.py:128-159 | over any calls with positive sizes, boxes are pairwise at least 0.5 mm apart on one axis and stay inside the zone on the left, bottom and top |
| Placement.NextToLast | hardware/cirradio-devboard/gen_pcb_placement.py:141-159 | after a placed box the next stands 0.5 mm to its right at the same height if there is room, else at the left, 0.5 mm above the row; it is placed exactly when it fits under the top there |
| Placement.FirstBox | hardware/cirradio-devboard/gen_pcb_placement.py:131-159 | the first box stands 1 mm from the left and bottom edges |
| Placement.FailedCall | hardware/cirradio-devboard/gen_pcb_placement.py:147-153 | a failing call places nothing, and leaves the cursor alone unless it needed a new row |
| Placement.RightEdge | hardware/cirradio-devboard/gen_pcb_placement.py:141-159 | a box keeps a given slack of at most 0.5 mm to the right edge if and only if its width plus the 1 mm inset plus the slack fits the zone |

## Left out

- Floating-point rounding: qualities, samples and lengths are reals.
- Rekeying.EpochsIncrease: between zeroizations only, and while the 32-bit epoch does not wrap; `WrappedIsRejected` says what happens when it does.
- Channels.Conservation: for histories with fewer than 2^32 - 1 registrations, after which radio ids repeat.
- RadioNodes.RadioNode.Start: does not configure the radio or claim a TDMA slot (`software/src/node/RadioNode.cpp:121-126`); neither shows in what is sent or received.
- Messaging.EndToEnd: for runs in which a node keeps the keys it joined with, all engines obey one law, messages are sealed to less than 2^32 bytes, and fewer than 2^32 - 1 nodes join.
- RouteTables.RouteTable.Recompute: visits destinations in no particular order; the source visits them in id order, which does not show in the result.
- KeyManagers.Hsm: hands out handles that are never reused; a PKCS#11 token may reuse them.
- Jitter.Starves: runs without `reset`, which starts over; so do `OrderedExactly` and `StrandsExactly`.
- AES, GCM, ECDSA, ECDH, HKDF, RAND and PKCS#11 internals: parameters with the laws a result names.
- Locks of SimChannel: each call is one atomic step.
- Time stamps of advertisements and beacons, peer expiry, TDMA slots.
- VoiceCodec, SimAudioHal, TamperMonitor, GpsHal, IioRadio, AxiRegs, Zynq7045HAL, KeyFillPort: wrappers around devices or libraries.
- CLIShell, components, EmconManager, TransecConfig, SlotScheduler, PeerDiscovery, ZeroizeEngine, SecurityManager: their facts follow from one branch each.
- Cross-zone placement: zones overlap each other, so separation is claimed within one zone only.
- The schematic and board generators other than `Zone`, test scripts, FPGA sources.
