# Sync Copy, modelled and proved in Dafny

Sync Copy is a clipboard mesh for one local network. Every device runs the same node: it keeps a registry of
peers and a pool of HTTP clients, shakes hands with other devices, gossips about them, sends encrypted clipboard
texts, watches its own clipboard, pings its peers and shuts down in steps. This project models the Rust backend
of a node and proves what its design relies on: safety in every run of one node, in every interleaving of its
threads, and in every schedule of a network of nodes.

Verify everything with `dafny verify dfyconfig.toml` (Dafny 4.11). Nothing here executes the program.

## How the model is laid out

| file | what it models |
|---|---|
| `Selection.dfy` | keeping some elements of a list, in order |
| `Utf8.dfy`, `Sanitize.dfy` | UTF-8 and the sanitizers of file and device names |
| `Crypto.dfy`, `IdealCrypto.dfy` | the additional data of sealed messages, and the idealised key exchange and AEAD |
| `RateLimit.dfy` | the handshake limiter, against a plain log of admissions |
| `History.dfy` | the move-to-front history |
| `Watcher.dfy` | the clipboard thread and its loop prevention |
| `Lifecycle.dfy` | startup, unwinding and overlapping shutdowns |
| `Peers.dfy` | the registry and the client pool, as values and as the objects that are updated in place |
| `Events.dfy` | one node as a sequence of atomic handler steps, and what every run keeps |
| `Node.dfy` | the handlers, dials and worker steps as methods on the node's state, each proved to perform its event |
| `PingRound.dfy` | the tasks of a ping round in any overlap |
| `Replay.dfy` | which messages are accepted over whole runs |
| `Interleaving.dfy`, `LockGrain.dfy`, `BanRaces.dfy`, `ClientRaces.dfy` | registry and pool with every critical section a step of its own |
| `Deadlock.dfy` | the order of lock acquisitions |
| `KeyAgreement.dfy` | handshakes between any number of nodes, and delivery of broadcasts |
| `Gossip.dfy`, `GossipHandlers.dfy`, `Newcomer.dfy`, `Welcome.dfy`, `LimitedWelcome.dfy` | the gossip protocol over any finite set of nodes |

Three modelling decisions run through all of it. A request is a step that may fail. Clocks, random secrets,
nonces, new HTTP clients and the answers of the network and of the operating system are parameters, so every
theorem holds for all of them. Operations that update shared objects are methods on classes; each is tied by its
postcondition to a function on values, and the theorems are about those functions.

The model follows the code where its comments promise something else:

- `src-tauri/src/peer/mod.rs:17-20` says that a peer is approved exactly when it is registered with trust state
  Approved, and that pool and registry hold the same ids. A trust message may approve a stranger, and shutdown
  leaves the pool alone. `Events.ApprovedLeavesMembersIff` and `Events.ApplyKeepsTablesEqual` say exactly when
  the two come apart.
- `src-tauri/src/peer/mod.rs:12-14` orders the locks inner, approved, banned. No operation holds the inner lock
  together with another; the nestings that exist are approved then banned, and global then per-pair
  (`Deadlock.Trace`).
- A server answers a handshake with the requester's own name (`src-tauri/src/network/handlers/handshake.rs:264-269`),
  so what a dialler stores as its peer's name is its own (`Node.DiallerStoresItsOwnName`).
- Bans are described as final. Between whole handler steps they are sticky; between critical sections a handshake
  past its ban check undoes them. `BanRaces.BanIsLiftedIffLiftable` says exactly when.
- A registered peer is meant to have a client (`src-tauri/src/peer/mod.rs:19`). Handshakes that race a remove, a ban,
  or a rebuild together with a clear can lose it; `ClientRaces.ClientIsLostIffLosable` says exactly when, for all
  operations of registry and pool at once.
- The announces are meant to complete the mesh (`src-tauri/src/network/handlers/peers.rs:116-131`). They run into the
  newcomer's own handshake limiter, and a refused dial is not tried again: with more than four other members some
  schedule leaves one out, with ten or more every schedule does (`LimitedWelcome.MeshCompletesIffAtMostFourOthers`).
- An `image_png` message is decrypted like a text and then taken for one (`src-tauri/src/network/handlers/clipboard.rs:136-217`),
  so an image that is not UTF-8 is received exactly and ignored (`KeyAgreement.BroadcastReachesMutualPeers`).

Terms: `Inv` is the registry invariant of `Events`; a run of `Events.Apply` is any sequence of handler, command and
worker steps of one node; every method of `Node.AppState` keeps `Valid()`, which includes `Inv`; `Lists(order, ids)`
says that `order` has each member of `ids` once.

## Model

| member | source | states |
|---|---|---|
| Gossip.EveryScheduleSettles | src-tauri/src/network/client.rs:437-483 | Over any finite set of nodes without removals, every infinite schedule of user dials (finitely many), full dials, stub dials, announces and failures reaches a state with nothing under way, and stays there. |
| Gossip.StepShrinks | src-tauri/src/network/handlers/peers.rs:99-155 | Every step, failures included, decreases lexicographically: user dials left, unknown ordered pairs, stages of dials to known peers, announces, stages of everything else. |
| Gossip.BecomesLighter | src-tauri/src/network/client.rs:437-483 | An item that teaches nothing new is replaced by strictly lighter ones: a repeated full dial may start stub dials and announces, but no dial to a peer already known. |
| Gossip.StuckIffQuiet | src-tauri/src/network/client.rs:437-483 | A well-formed state has no next state exactly when nothing is under way and the user is done, so settling is the only way to stop. |
| Gossip.WorkIsPossible | src-tauri/src/network/client.rs:400-486 | Whatever is under way can be taken up without failing, so failure-free schedules exist. |
| GossipHandlers.ServingStep | src-tauri/src/network/handlers/handshake.rs:186-255 | Seen through registry membership, a served handshake is the gossip step: the server learns its dialler and answers with exactly its other members. |
| GossipHandlers.DiallingStep | src-tauri/src/network/client.rs:422-483 | A completed dial picks the stub dials of the gossip step, and announces its server to exactly its other members. |
| GossipHandlers.AnnounceStep | src-tauri/src/network/handlers/peers.rs:63-106 | An announce from an approved origin, member or not, about a peer not banned turns into a full dial in the protocol exactly when the handler decides to dial; every other one is an error of the handler. |
| GossipHandlers.AnnounceArrives | src-tauri/src/network/client.rs:738-742 | Both ends joined: the announce a dialler sends to a receiver that approves it makes that receiver dial the server at the dialled address, unless the server is known, banned or the receiver itself; and that is the protocol's announce. |
| GossipHandlers.StubTaskStep | src-tauri/src/network/client.rs:515-522 | A stub task goes on to its request exactly when the check it starts with lets it. |
| GossipHandlers.StubServingStep | src-tauri/src/network/handlers/handshake.rs:86-184 | A server learns the dialler of a stub dial as it learns any other. |
| GossipHandlers.StubAnswerStep | src-tauri/src/network/client.rs:607-697 | An answered stub dial leaves the dialler knowing its server, also when it had got to know it meanwhile, and gossips no further. |
| Newcomer.NewcomerMeetsAtMostFour | src-tauri/src/network/client.rs:422-483 | A fresh node that dials a member of a full mesh with k other peers, nothing failing: every schedule becomes quiet, and then the newcomer is mutually registered with that member and exactly min(3, k) others, and nothing else has changed. |
| Newcomer.FullMeshIffAtMostFourMembers | src-tauri/src/network/client.rs:444-444 | The result is a full mesh if and only if k is at most 3. |
| Newcomer.DiallerSpreads | src-tauri/src/network/client.rs:434-483 | When the newcomer's dial completes it has nobody to announce to, and starts stub dials to min(3, k) distinct members other than its server. |
| Welcome.MemberDialCompletesTheMesh | src-tauri/src/network/handlers/peers.rs:99-155 | If instead a member dials the fresh node, and neither the network nor the newcomer's limiter refuses anything, every schedule becomes quiet, and then the mesh is full again, the newcomer included; the rows of `LimitedWelcome` say what becomes of it when the limiter counts. |
| Welcome.StepWelcomes | src-tauri/src/network/client.rs:437-483 | What every step on the way keeps: each member and the newcomer know one another, or an announce or a dial that will bring them together is under way. |
| Welcome.CompletedDial | src-tauri/src/network/client.rs:437-483 | A member that completes its dial of the newcomer picks no stub dial, since it knows all the newcomer can tell of, and announces the newcomer to all other members. |
| LimitedWelcome.MeshCompletesIffAtMostFourOthers | src-tauri/src/network/handlers/handshake.rs:67-78 | The same dial when the newcomer's limiter counts, all within one window, nothing lost and refused dials not retried: every schedule ends in the full mesh if and only if the dialling member has at most four others, and some schedule does if and only if it has at most nine. |
| LimitedWelcome.EveryLimitedScheduleEnds | src-tauri/src/network/handlers/peers.rs:99-155 | Every such infinite schedule comes to rest, in one of the ends the row above is about. |
| LimitedWelcome.LimiterAdmits | src-tauri/src/peer/rate_limit.rs:99-172 | Within one window, with one address per device, the limiter's decision is the count of three per device and ten in all. |
| LimitedWelcome.QuietIsCompleteIffAllAdmitted | src-tauri/src/network/handlers/handshake.rs:67-184 | At rest, the members that know the newcomer, and that it knows, are exactly those its limiter admitted at least once. |
| LimitedWelcome.RoomForTheNext | src-tauri/src/peer/rate_limit.rs:25-29 | With at most four others, a member not admitted yet finds room in every reachable state: the dialling member used one admission, the first other to complete its dial one, two more at most three each. |
| LimitedWelcome.FourFillTheWindow | src-tauri/src/network/handlers/peers.rs:99-131 | A schedule in which four others, each hearing announces before its first dial completes, use up the ten admissions with 1, 2, 3 and 3 dials. |
| KeyAgreement.MutualPeersShareTheirKey | src-tauri/src/network/client.rs:388-424 | With a symmetric key exchange (section 6.1 of RFC 7748), in every run of any number of nodes where handshakes of one pair do not overlap, and whatever else is lost or refused: two nodes that list each other, with no handshake halfway, hold the same key unless the last handshake served between them lost its answer; and if no two of their handshakes come to one key, they hold the same key only then. |
| KeyAgreement.SharedKeyIffAnswerKept | src-tauri/src/crypto/mod.rs:33-54 | With ephemeral secrets that are never drawn twice, and no two pairs of secrets coming to one key, two settled nodes hold the same key if and only if the last handshake served between them kept its answer. |
| KeyAgreement.OwnSecretsMakeDistinctKeys | src-tauri/src/network/handlers/handshake.rs:118-140 | Under the same assumption on the secrets drawn in dials and answers anywhere in the network, no two handshakes of a pair come to one key. |
| KeyAgreement.EveryRunKeepsPairs | src-tauri/src/network/handlers/handshake.rs:118-184 | The inductive invariant behind it, in every run: every registry satisfies `Inv`; every key is of some handshake of the pair; a stub dial in flight finds its server still unknown; halfway, the server's key is of the last handshake and the dialler's of an earlier one, and so it stays if the answer is lost. |
| KeyAgreement.CompleteKeeps | src-tauri/src/network/client.rs:609-689 | Completing a dial or a stub dial brings the keys of the pair together, whatever was lost before, or the dialler does not list the server. |
| KeyAgreement.LostReplySplitsKeys | src-tauri/src/network/client.rs:349-355 | A run in which one handshake is served and its answer lost, and the two sides are left with the keys of two different handshakes. |
| KeyAgreement.OpensWithTheKey | src-tauri/src/network/handlers/clipboard.rs:70-125 | A sealed clipboard message with a new number decrypts, under an ideal AEAD, to its exact plaintext with the key it was sealed with and to nothing with any other, since kind string and additional data are rebuilt identically; the receiver accepts it as text, ignores it if it is not UTF-8, and refuses it under another key. |
| KeyAgreement.BroadcastReachesMutualPeers | src-tauri/src/network/client.rs:67-128 | After any run, unless the pair's last served handshake lost its answer, a Text or ImagePng broadcast with a fresh number contains a request for every mutual peer, which that peer decrypts to the exact plaintext; it takes the plaintext as text if it is UTF-8 and ignores it otherwise. |
| KeyAgreement.BroadcastTextHeadsHistory | src-tauri/src/network/handlers/clipboard.rs:136-176 | A broadcast text heads the history of every such peer, with that text, its hash, a new id and the name the peer stores for the sender; an entry with its hash already at the head stays instead. |
| Events.EveryRunKeepsInv | src-tauri/src/peer/mod.rs:214-340 | In every run: members are approved, not banned and have trust state Approved; nobody is approved and banned; the node itself is in neither table; every member has a client; and until the first shutdown the tables have the same ids. |
| Events.ApplyKeepsTablesEqual | src-tauri/src/peer/mod.rs:263-270 | Registry and pool, when equal, come apart exactly by a shutdown with members left. |
| Events.ApprovedLeavesMembersIff | src-tauri/src/peer/mod.rs:284-300 | The approved set and the members, when equal, come apart exactly by an accepted trust message about a stranger. |
| Events.StrangerCanBeApproved | src-tauri/src/network/handlers/peers.rs:170-200 | A reachable state in which a stranger is approved. |
| Events.ShutdownLeavesClients | src-tauri/src/peer/mod.rs:263-270 | A reachable state in which a client outlives its peer. |
| Events.MembersComeAndGo | src-tauri/src/peer/mod.rs:214-340 | After any event a peer is a member if and only if the event admitted it, or it was one and the event is not its leave, a ban of it or a shutdown. |
| Events.BannedExactlyByBans | src-tauri/src/peer/mod.rs:316-340 | A peer becomes banned exactly by an accepted ban message or a reject command naming it, and is then neither approved nor registered. |
| Events.UnbannedExactlyByLifting | src-tauri/src/peer/mod.rs:284-340 | A banned id stops being banned exactly by an accepted trust message naming it, or by shutdown. |
| Events.BansAreSticky | src-tauri/src/peer/mod.rs:284-340 | From any reachable state, until such an event, a banned id stays banned, unapproved and unregistered whatever handshakes, dials, stub dials, announces, leaves, rebuilds, approve commands and refused trust messages follow. |
| Events.LivenessFieldsAreTheLog | src-tauri/src/peer/mod.rs:350-433 | In every run the failure count of a member is the saturating number of failed pings since its last success, reset or insertion, and its last sync time is that of its latest successful broadcast since insertion; no heartbeat moves it. |
| Events.TrafficFieldsAreTheLog | src-tauri/src/peer/mod.rs:350-433 | Likewise its last heartbeat time is that of the latest heartbeat in either direction since insertion, and its send failures are the failed broadcasts since the last successful one. |
| Events.ClientIsTheLatest | src-tauri/src/app/client_pool.rs:50-83 | In every run a member's HTTP client is the one made at its latest admission or replacement, whichever came last. |
| Events.HiddenDeadNeedsABroadcast | src-tauri/src/app/heartbeat_worker.rs:300-332 | A peer re-dialled at one point is found hidden-dead later only if a broadcast to it succeeded in between, more than 30 s before that round. |
| Events.RunConcat | src-tauri/src/peer/mod.rs:214-340 | Runs compose, from any state, so whatever holds in every run holds after every handler method that is a run of events. |
| Events.RunFromKeepsInv | src-tauri/src/peer/mod.rs:214-340 | Runs keep the invariant from any state that has it. |
| Node.AppState.HandleHandshake | src-tauri/src/network/handlers/handshake.rs:62-272 | Limiter, self, ban and key checks in this order with their errors; a refusal changes nothing, a success performs one `Served` event, answers with its public key and lists the other Approved peers; the limiter logs exactly what it allowed. |
| Node.AppState.ServeHandshake | src-tauri/src/network/handlers/handshake.rs:118-272 | Admits the requester with the derived key, in pool, registry and trust set, and lists the Approved peers after that with their stored addresses; the requester's fresh state and new client replace what there was. |
| Node.AppState.GossipPeers | src-tauri/src/network/handlers/handshake.rs:243-255 | Exactly the Approved peers but the requester, each once and with the address stored for it. |
| Node.AppState.FinishDial | src-tauri/src/network/client.rs:370-486 | An answer with the own id, from a banned peer or with a malformed key changes nothing; any other admits the peer with the derived key, the dialled address and a new client, and starts the picked stub dials and the announces, each of which names the dialled peer, its address, and this node as origin. |
| Node.AppState.BroadcastAnnounce | src-tauri/src/network/client.rs:713-810 | One announce for every other Approved peer that has a client, naming the new peer, its address, and this node as origin. |
| Node.AppState.StartStubDial | src-tauri/src/network/client.rs:515-522 | A stub dial starts only towards peers neither known nor banned. |
| Node.AppState.FinishStubDial | src-tauri/src/network/client.rs:607-697 | Performs one `StubDialled` event: admits a stranger that is not banned, and otherwise changes nothing. |
| Node.AppState.HandlePeersAnnounce | src-tauri/src/network/handlers/peers.rs:55-158 | Changes no registry; refuses unapproved origins, the own id and banned ids in this order; dials exactly for strangers. |
| Node.AppState.HandleTrust | src-tauri/src/network/handlers/peers.rs:170-211 | Error by origin, and one `TrustGossip` event. |
| Node.AppState.HandleBan | src-tauri/src/network/handlers/peers.rs:224-265 | Error by origin, and one `BanGossip` event. |
| Node.AppState.HandleLeave | src-tauri/src/network/handlers/leave.rs:30-85 | Known origins with a new number are removed everywhere, one `Left` event. |
| Node.AppState.HandleHeartbeat | src-tauri/src/network/handlers/heartbeat.rs:28-59 | Error by origin, and one `Heartbeat` event. |
| Node.AppState.HandleClipboard | src-tauri/src/network/handlers/clipboard.rs:51-220 | The outcome is that of the checks in order; the number is consumed before decryption; a decrypted text, and nothing else, is pushed to the history, at its head with its hash and a new id under the sender's name unless the head has that hash already, and handed to the clipboard thread unless its queue of 64 is full or it has gone. |
| Node.AppState.ApprovePeerCommand | src-tauri/src/commands.rs:390-412 | Refuses unknown ids, otherwise approves. |
| Node.AppState.RejectPeerCommand | src-tauri/src/commands.rs:418-436 | Bans any id. |
| Node.AppState.BroadcastClipboard | src-tauri/src/network/client.rs:60-203 | One request per Approved peer with a client, sealed for that peer's key; success or failure recorded for every Approved peer and nobody else. |
| Node.AppState.SendTo | src-tauri/src/network/client.rs:86-195 | Records a success only for a 200 sent over an existing client. |
| Node.BroadcastIsARun | src-tauri/src/network/client.rs:60-203 | A broadcast is a run of one event per peer, in any order of the peers. |
| Node.AppState.ForceRebuildConnection | src-tauri/src/app/heartbeat_worker.rs:350-437 | Nothing while shutting down or for strangers and banned peers; otherwise the old client is replaced by the new one, and a re-dial that succeeds admits the peer again and resets its failures. |
| Node.RebuildIsARun | src-tauri/src/app/heartbeat_worker.rs:350-437 | A rebuild is a run of at most three events. |
| Node.AppState.HandlePingResult | src-tauri/src/app/heartbeat_worker.rs:237-332 | Rebuilds at three failures in a row, and again when the times read at the start of the round say hidden-dead. |
| Node.AppState.RunPingRound | src-tauri/src/app/heartbeat_worker.rs:168-223 | The Approved peers of the snapshot are handled each once, in some order, with the snapshot's times: all of them, or as many as were started before the worker was cancelled. The rows of `PingRound` extend this to tasks that overlap. |
| Node.RoundIsARun | src-tauri/src/app/heartbeat_worker.rs:168-223 | A whole ping round, its rebuilds included, is a run of events. |
| PingRound.OverlapEndsAsOneByOne | src-tauri/src/app/heartbeat_worker.rs:190-222 | If every re-dial that is answered is answered by the device it was meant for, the tasks of a round end, in whatever overlap of their steps, in the registry and pool they would have ended in one after the other, in any order. |
| PingRound.OverlapIsARun | src-tauri/src/app/heartbeat_worker.rs:190-222 | Whoever answers, any overlap of the tasks is a run of events, so what holds in every run holds during and after it. |
| PingRound.StrangeAnswersMakeOrderMatter | src-tauri/src/app/heartbeat_worker.rs:400-430 | If another peer's device answers a re-dial, the order of two tasks decides whether that peer's failed ping is remembered. |
| PingRound.RestOfPing | src-tauri/src/app/heartbeat_worker.rs:237-430 | A task that nobody disturbs, step by step, does what `HandlePingResult` does at once. |
| PingRound.WhoIsRebuilt | src-tauri/src/app/heartbeat_worker.rs:168-340 | Over a whole round, a peer whose re-dials go unanswered gets a new client exactly in those two cases, judged on the registry the round started from. |
| Node.PingIsARun | src-tauri/src/app/heartbeat_worker.rs:237-290 | Handling one ping is a run of events. |
| Node.FirstUnknownIsGreedy | src-tauri/src/network/client.rs:437-445 | Stub dials go only to strangers other than the node itself, at most three, and a stranger is passed over only when three are picked. |
| Node.FirstUnknownKeepsOrder | src-tauri/src/network/client.rs:437-445 | The picked stubs are the first strangers of the answer, in its order; a stranger is passed over only behind three. |
| Node.RequestsCarry | src-tauri/src/network/client.rs:67-128 | A broadcast goes to exactly the Approved peers with a client, sealed with that peer's key, its own nonce and the sender's additional data. |
| Node.BroadcastWrites | src-tauri/src/network/client.rs:67-168 | Every Approved peer gets its outcome recorded: a sync time and no failures for a 200 over an existing client, one more failure otherwise; nothing else changes. |
| Node.RebuildWrites | src-tauri/src/app/heartbeat_worker.rs:342-430 | A rebuild leaves the new client; and if its re-dial is answered by a server that is taken on, that server's fresh state and client, and no failed pings. |
| Node.PingWrites | src-tauri/src/app/heartbeat_worker.rs:237-340 | With no re-dial answered, a ping is recorded, and a member that is not banned gets a new client exactly after its third failure in a row or when it had synchronised, but not for 30 s, and had no heartbeat for 15 s. |
| Node.DiallerStoresItsOwnName | src-tauri/src/network/handlers/handshake.rs:264-269 | What a dialler stores as its peer's name is its own sanitized name. |
| Node.ServingIsAnEvent | src-tauri/src/network/handlers/handshake.rs:86-184 | A handshake that no check refuses admits the requester as one `Served` event does, so `HandleHandshake` performs that event. |
| Peers.PeerRegistry.Insert | src-tauri/src/peer/mod.rs:214-218 | Stores the state, touches nothing else. |
| Peers.PeerRegistry.Remove | src-tauri/src/peer/mod.rs:232-257 | Gone from registry, both trust sets and pool; returns the old state. |
| Peers.PeerRegistry.Clear | src-tauri/src/peer/mod.rs:263-270 | Registry and trust sets empty, pool unchanged. |
| Peers.PeerRegistry.Approve | src-tauri/src/peer/mod.rs:284-300 | Approved, not banned, and trust state Approved if registered. |
| Peers.PeerRegistry.Ban | src-tauri/src/peer/mod.rs:316-340 | Banned, not approved, unregistered; the client goes only if the peer was registered. |
| Peers.PeerRegistry.RecordHeartbeatOk | src-tauri/src/peer/mod.rs:350-357 | Counter to zero, heartbeat time set, sync time untouched. |
| Peers.PeerRegistry.RecordHeartbeatFail | src-tauri/src/peer/mod.rs:360-370 | Saturating count, returned; 0 for strangers. |
| Peers.PeerRegistry.RecordSendOk | src-tauri/src/peer/mod.rs:373-380 | Counter to zero, sync time set, heartbeat time untouched. |
| Peers.PeerRegistry.RecordSendFail | src-tauri/src/peer/mod.rs:383-393 | Saturating count, returned; 0 for strangers. |
| Peers.PeerRegistry.SeenSeqAndUpdate | src-tauri/src/peer/mod.rs:458-475 | Accepts, and remembers, exactly numbers above the last of their kind. |
| Peers.ClientPool.Insert | src-tauri/src/app/client_pool.rs:55-58 | Stores the client under the id, keeping the others. |
| Peers.ClientPool.Replace | src-tauri/src/app/client_pool.rs:69-83 | Puts a new client under the id even if there was none. |
| Peers.ClientPool.Remove | src-tauri/src/app/client_pool.rs:93-96 | Removes and returns the client, keeping the others. |
| Replay.AcceptedIffNewest | src-tauri/src/peer/mod.rs:458-475 | In every reachable state a message is accepted if and only if its origin is a member and its number exceeds every number accepted for its kind since that member was inserted. |
| Replay.AcceptedNumbersIncrease | src-tauri/src/peer/mod.rs:458-475 | Within a session the accepted numbers of a kind strictly increase, and the registry remembers the last. |
| Replay.AcceptedTwiceNeedsReadmission | src-tauri/src/network/handlers/clipboard.rs:75-87 | One (origin, kind, number) is accepted a second time only after the origin was inserted again in between. |
| Replay.MemberWasAdmitted | src-tauri/src/network/client.rs:422-424 | A member's identity, key included, is that of its latest admission. |
| Replay.ListedAddressIsTheLatest | src-tauri/src/network/handlers/handshake.rs:242-255 | In every run, the address a handshake answer lists for a peer is the one its latest admission came with. |
| Replay.OwnSecretsMakeFreshKeys | src-tauri/src/network/handlers/handshake.rs:118-140 | No two admissions of a peer agree on a key if this node draws a new secret for each: the assumption of the row below, reduced to the secrets. |
| Replay.SealedMessageAppliesOnce | src-tauri/src/network/handlers/clipboard.rs:75-157 | Over a whole run, sessions and all, one sealed clipboard message reaches the history at most once: within a session its number stops it, across sessions the key does. |
| Interleaving.ApprovedAndBannedStayDisjoint | src-tauri/src/peer/mod.rs:232-340 | In every interleaving of any number of approves, bans, removes, clears, handshakes and rebuilds, also between their critical sections, nobody is approved and banned. |
| Interleaving.RebuildLeavesNoOrphan | src-tauri/src/app/heartbeat_worker.rs:365-399 | Any number of rebuilds up to the re-dial, bans and removes of any peers, interleaved in any way from a consistent start: once all have finished, the pool has exactly the registered ids. |
| Interleaving.HandshakeOvertakesBan | src-tauri/src/network/client.rs:381-424 | A schedule in which a handshake past its ban check undoes a ban. |
| Interleaving.HandshakeOvertakesRemove | src-tauri/src/peer/mod.rs:232-257 | A schedule in which a handshake and a remove leave a peer without a client. |
| ClientRaces.ClientIsLostIffLosable | src-tauri/src/peer/mod.rs:232-340 | Any number of handshakes, removes, bans, approvals, clears and rebuilds of any peers, starting with a pool that fits the registry and no banned member: some schedule that finishes them all leaves a peer registered without a client if and only if a handshake of it meets a remove of it; or droppers (a ban, or a rebuild and a clear) meet a handshake of it, the peer being registered at the start, or two handshakes of it, the peer being a stranger that is not banned; or two handshakes meet something that pardons it (an approval or a clear) and droppers among the other threads, the peer being banned. |
| ClientRaces.StaysSafe | src-tauri/src/peer/mod.rs:232-340 | From every other start, at every point of every schedule, a registered peer is without its client only just before a ban unregisters it, and not even then unless there is a rebuild of it. |
| ClientRaces.UnlosableIsSafe | src-tauri/src/app/heartbeat_worker.rs:365-399 | Every start that is not losable satisfies one of six conditions, each kept by every step or turned into another of them. |
| ClientRaces.Drain | src-tauri/src/peer/mod.rs:232-340 | All threads but chosen ones can run to their end, which does not move those. |
| BanRaces.BanIsLiftedIffLiftable | src-tauri/src/peer/mod.rs:284-340 | At lock grain, some schedule lifts a ban in place if and only if some thread is in an approval, a remove or a clear, or in a handshake past its ban check (for a stub dial: and the peer is unregistered or being kicked). |
| BanRaces.StepMakesNothingLiftable | src-tauri/src/peer/mod.rs:284-340 | No step makes a ban liftable that was not. |
| LockGrain.AloneIsARun | src-tauri/src/peer/mod.rs:232-340 | Running alone is the interleaving of one thread, so the rows below relate the two models. |
| LockGrain.ApproveAlone | src-tauri/src/peer/mod.rs:284-300 | An approve without interference changes membership as the atomic approve does. |
| LockGrain.BanAlone | src-tauri/src/peer/mod.rs:316-340 | Likewise ban. |
| LockGrain.RemoveAlone | src-tauri/src/peer/mod.rs:232-257 | Likewise remove. |
| LockGrain.ClearAlone | src-tauri/src/peer/mod.rs:263-270 | Likewise clear. |
| LockGrain.DialAlone | src-tauri/src/network/client.rs:381-424 | Likewise a dial from the answer on. |
| LockGrain.StubDialAlone | src-tauri/src/network/client.rs:610-689 | Likewise a stub dial from the answer on. |
| LockGrain.RebuildAlone | src-tauri/src/app/heartbeat_worker.rs:365-399 | Likewise a rebuild up to its re-dial. |
| Deadlock.NoDeadlock | src-tauri/src/peer/mod.rs:284-340 | Any number of threads running any sequences of registry, pool and limiter operations, after any schedule: while some thread is unfinished, some thread can move. |
| Deadlock.EveryRunCanBeCompleted | src-tauri/src/peer/rate_limit.rs:104-168 | Every reachable state can be continued to one where all threads have finished, in exactly as many steps as actions are left. |
| Deadlock.TraceIsDisciplined | src-tauri/src/peer/rate_limit.rs:104-168 | Every operation takes locks in ascending rank, drops only what it holds and ends empty-handed. |
| RateLimit.RateLimiter.CheckHandshake | src-tauri/src/peer/rate_limit.rs:99-172 | Allowed if and only if fewer than 3 earlier admissions of the pair and fewer than 10 in all are younger than 60 s; a refusal, roll-back included, leaves the log unchanged. |
| RateLimit.RateLimiter.CheckGlobal | src-tauri/src/peer/rate_limit.rs:135-169 | The part under the global lock, including taking back the pair's stamp. |
| RateLimit.RateLimiter.RollBack | src-tauri/src/peer/rate_limit.rs:158-163 | Taking back the stamp restores the pair's queue exactly. |
| RateLimit.RateLimiter.Admit | src-tauri/src/peer/rate_limit.rs:131-168 | Stamping pair and global queue records exactly one admission. |
| RateLimit.RateLimiter.PrunePair | src-tauri/src/peer/rate_limit.rs:104-116 | After pruning, the pair's queue has as many entries as the log has fresh admissions. |
| RateLimit.RateLimiter.PruneGlobal | src-tauri/src/peer/rate_limit.rs:138-145 | Likewise the global queue. |
| RateLimit.WindowsObeyLimits | src-tauri/src/peer/rate_limit.rs:25-32 | A log admitted under that rule has at most 3 admissions per pair and 10 in all in every half-open 60 s window. |
| RateLimit.RacingQueuesStayCapped | src-tauri/src/peer/rate_limit.rs:104-168 | Under any interleaving of critical sections with any clock readings no queue outgrows its limit. |
| Crypto.BuildAad | src-tauri/src/crypto/mod.rs:203-212 | Builds magic, kind, origin and the number as eight big-endian bytes. |
| Crypto.KindsArePrefixFree | src-tauri/src/crypto/mod.rs:175-191 | No kind literal starts another, whatever follows. |
| Crypto.AadRoundTrip | src-tauri/src/crypto/mod.rs:178-212 | A parser recovers kind, origin and number from the additional data, for every id and every 64-bit number. |
| Crypto.AadLayout | src-tauri/src/crypto/mod.rs:203-212 | The four parts, with their lengths, one after the other. |
| Crypto.NumberLayout | src-tauri/src/crypto/mod.rs:203-212 | The number's high byte comes first. |
| Crypto.OpensOnlyAsSealed | src-tauri/src/network/handlers/clipboard.rs:106-125 | Under an ideal AEAD (section 2 of RFC 5116) a ciphertext opens only for the key, kind, origin and number it was sealed with. |
| IdealCrypto.IdealAeadExists | src-tauri/src/crypto/mod.rs:63-85 | The ideal law of the sealer has a model, so what follows from it is not vacuous. |
| IdealCrypto.SymmetricExchangeExists | src-tauri/src/crypto/mod.rs:33-54 | So has the law of the key exchange, even with keys that never repeat for other secrets. |
| Watcher.ClipboardThread.Turn | src-tauri/src/app/clipboard.rs:284-324 | One turn of the loop applies the queue in order, so the last text that was not left untouched decides the clipboard, then polls if a second has passed. |
| Watcher.ClipboardThread.ApplyText | src-tauri/src/app/clipboard.rs:340-366 | The clipboard holds the text if it was written, nothing if the failure emptied it, and what it held otherwise; the last hash follows the text only when it was written. |
| Watcher.ClipboardThread.PollText | src-tauri/src/app/clipboard.rs:380-446 | Tries to send a text exactly when it can be read, is sendable and its hash is not the last one. |
| Watcher.BoardIsTheLatest | src-tauri/src/app/clipboard.rs:340-366 | In every run the clipboard holds what was last put there: by the user, by a remote text that was written, or by a failure that emptied it; polls and harmless failures leave it alone. |
| Watcher.EmissionsAreBounded | src-tauri/src/app/clipboard.rs:276-320 | In every interleaving of user changes, applies and polls, attempted emissions are at most the user's changes, plus one if the clipboard held a sendable text at the start. |
| Watcher.AppliedTextIsNotSentBack | src-tauri/src/app/clipboard.rs:340-446 | After a remote text was written nothing is sent until the user changes the clipboard. |
| Watcher.EmissionsAreSendable | src-tauri/src/app/clipboard.rs:411-424 | Every text sent is non-empty and at most 1,000,000 bytes. |
| Watcher.PollSendsExactlyWhatIsNew | src-tauri/src/app/clipboard.rs:380-446 | With a hash that does not collide, a poll sends the clipboard's text if and only if it is sendable and not the text last synchronised in either direction. |
| History.HistoryStore.Push | src-tauri/src/app/history.rs:112-140 | Skip, move to front, or insert, then cut to 50. |
| History.HistoryStore.Remove | src-tauri/src/app/history.rs:143-152 | Removes the entries with the id and says whether there was one. |
| History.WithoutIdKeepsOrder | src-tauri/src/app/history.rs:143-152 | What a removal leaves keeps its order. |
| History.EveryRunIsBoundedAndDistinct | src-tauri/src/app/history.rs:112-158 | After any pushes, removes and clears: at most 50 entries, no hash twice. |
| History.HistoryIsTheRecencyList | src-tauri/src/app/history.rs:112-158 | After any pushes of hashed entries since the start or the last clear, whatever came before, the hashes shown are the first 50 distinct hashes of the push sequence read backwards. |
| History.HistoryShowsTheseEntries | src-tauri/src/app/history.rs:112-140 | The same for whole entries: of consecutive pushes of one hash the first is the one shown. |
| Lifecycle.Lifecycle.Start | src-tauri/src/app/lifecycle.rs:206-394 | A start that fails ends Dead and holds no handle, everything stored having been acted on once; a start that succeeds is Running and holds exactly the stored ones. |
| Lifecycle.Lifecycle.Shutdown | src-tauri/src/app/lifecycle.rs:402-610 | Re-entry does nothing; otherwise every handle on its path is taken, in order, the phase ends Dead, and it waits for each step exactly up to its deadline, 2600 ms in all at most. |
| Lifecycle.Lifecycle.StopWorkers | src-tauri/src/app/lifecycle.rs:471-533 | Heartbeat worker, or else the plain health task, then the watcher, within 600 ms. |
| Lifecycle.Lifecycle.StopServer | src-tauri/src/app/lifecycle.rs:537-577 | Signal and join, within 500 ms. |
| Lifecycle.LoneCallOrder | src-tauri/src/app/lifecycle.rs:402-610 | A lone call takes worker, watcher, server and log guard in that order, and is Shutting from before the first to after the last. |
| Lifecycle.ShutdownsConserveHandles | src-tauri/src/app/lifecycle.rs:402-610 | After a completed start, any number of shutdown calls in any overlap never act on a handle twice, and when all have returned every handle has been acted on and the phase is Dead. |
| Sanitize.TruncateToBytes | src-tauri/src/peer/sanitize.rs:178-188 | Keeps as many whole characters as fit. |
| Sanitize.TakeBytesIsLongest | src-tauri/src/peer/sanitize.rs:178-188 | What is kept is the longest valid UTF-8 prefix within the limit, and the cut comes at most three bytes early. |
| Sanitize.FilenameNormalForm | src-tauri/src/peer/sanitize.rs:112-152 | Never empty, only safe characters, no trailing dot or space, no device name, at most 201 bytes, 201 only with the added underscore; sanitizing again changes nothing if and only if the result has at most 200 bytes. |
| Sanitize.FilenameKeeps | src-tauri/src/peer/sanitize.rs:112-152 | What survives: of the last path component the safe characters in order, as many as fit in 200 bytes, but for trailing dots and spaces; "file" if nothing does, and an underscore before a reserved name. |
| Sanitize.FileNameOfPath | src-tauri/src/peer/sanitize.rs:116-123 | The last path component, trailing separators and "." components skipped; none for "..". |
| Sanitize.DeviceNameNormalForm | src-tauri/src/peer/sanitize.rs:88-101 | Non-empty, at most 64 code points, printable, trimmed, and idempotent. |
| Sanitize.DeviceNameKeeps | src-tauri/src/peer/sanitize.rs:88-101 | What survives: the first 64 printable characters in order, but for white space around them; "<unnamed>" if nothing does. |
| Utf8.BoundaryIffValidPrefix | src-tauri/src/peer/sanitize.rs:183-187 | A byte position is a character boundary if and only if the bytes before it are valid UTF-8 (section 3 of RFC 3629). |
| Utf8.DecodeOfEncode | src-tauri/src/network/handlers/clipboard.rs:136-136 | Decoding what was encoded gives the text back. |
| Utf8.EncodeOfDecode | src-tauri/src/network/handlers/clipboard.rs:136-136 | What decodes is the encoding of what it decodes to. |

## Left out

- HTTP, JSON, TLS, task scheduling and timeouts: a request is a step that may fail.
- X25519, HKDF, AES-GCM, SHA-256 and base64 are library code: the key exchange is assumed symmetric, the AEAD ideal, the hash an arbitrary function.
- The operating system's clipboard, Tauri events and dialogs, log files and the configuration file are foreign calls.
- The frontend, its data transfer types, and the commands other than approving and rejecting a peer.
- The placeholder endpoints for files, approvals and history, which answer 503.
- A clipboard text echoing between machines: the watcher's consumer pushes local history only, and nothing calls the broadcast yet.
- Failures the code itself calls impossible or expects only from a broken library: sealing, key derivation, building an HTTP client.
- Gossip.EveryScheduleSettles: treats bans, limiter refusals and announces from unapproved origins as failures of the item concerned; re-dials of the heartbeat worker count as user dials.
- `update_aes_key` and `update_last_successful_sync_at`, which no handler calls.
- The log-field sanitizer, which only shortens diagnostics.
- Events.Inv: states each handler as one step; interference inside handlers is the subject of `Interleaving` and `BanRaces` only.
- RateLimit.RacingQueuesStayCapped: claims only the queue caps, because racing threads read the clock before they take the locks and a roll-back can pop another thread's stamp.
- KeyAgreement.MutualPeersShareTheirKey: does not cover two handshakes of one pair under way at once; each side may then keep the other handshake's key.
- Newcomer.NewcomerMeetsAtMostFour: assumes that no message fails, that no limiter refuses one of the newcomer's dials, of which each member serves at most one, and that nobody else dials meanwhile.
- Welcome.MemberDialCompletesTheMesh: assumes that no message fails, that nobody else dials meanwhile, and that the newcomer's limiter refuses nothing, which from five other members on the timing decides; `LimitedWelcome` counts its admissions.
- LimitedWelcome.MeshCompletesIffAtMostFourOthers: takes all handshakes to fall into one window of a limiter that starts empty, and assumes that no message fails and that nobody else dials meanwhile.
- ClientRaces.ClientIsLostIffLosable: counts the re-dial of a rebuild as a handshake that may run at any time, while the code starts it only after the rebuild; so a race that needs the two to overlap takes another handshake.
- PingRound.OverlapEndsAsOneByOne: assumes that re-dials are answered by the devices they are meant for, and that only the round moves; interference with other operations is the subject of `Interleaving`.
- Interleaving.RebuildLeavesNoOrphan: excludes a concurrent handshake or clear, and the rebuild's own re-dial; `ClientRaces.ClientIsLostIffLosable` includes them, for the converse fault of a peer without a client.
- Lifecycle.ShutdownsConserveHandles: starts after a completed start; a shutdown that overlaps a start, and the steps of a shutdown that touch no handle (cancel, leave, clear), are not interleaved.
- Lifecycle.Lifecycle.Shutdown: a health task is left in place when a heartbeat worker was there too, as in the code; `start` never stores one.
- Sanitize.FilenameNormalForm: uses the Unix rules for path components, and an uppercase mapping that is only assumed to be right on ASCII.
- Key zeroization and the rule not to log keys or plaintext have no counterpart in a model of values.
