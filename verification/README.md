# Verified model of the Camex tunnel

Camex is a VPN tunnel: a server and many clients exchange encrypted IP packets
over UDP or TCP (protocol v2, a Noise NKpsk0 handshake and a data format of its
own). This project models, in Dafny, the parts of it whose correctness depends
on every step of a long run, and proves what they are for. `dafny verify
dfyconfig.toml` checks all of it.

## The parts

| file | what it models |
|---|---|
| `ServerTable.dfy`, `ServerLeases.dfy`, `ServerSteps.dfy` | the server's client table, leases, auto pool and configuration as values, with every lookup a linear scan, and each step of the server as a function: handshake with all its failure exits, data, expiry, eviction, reload, TCP accept and close |
| `Server.dfy` | the same steps as a class that changes its fields in place and looks up through hash indexes; every method is proved equal to the function |
| `ServerIndex.dfy`, `SlotIdx.dfy` | the hash indexes over clients and leases; the open-addressing table under them |
| `ServerAddresses.dfy` | tunnel addresses: no address for two live auto clients, under any configuration |
| `ServerManual.dfy` | the same with manual clients: exactly when a handshake leaves an address with two entries, and the runs in which none does |
| `ServerAgreement.dfy` | when the source address accepted on a session is the one its CONFIG carried |
| `ServerAdmission.dfy` | which handshakes are refused: replays of a live client's, over every run, and exactly what else |
| `ServerKeeping.dfy` | a client keeps its address at every handshake and gets it back when it returns |
| `ServerEndings.dfy` | what is kept for a client that is gone; that nothing is kept of an address in use, over every run |
| `ServerChoice.dfy` | which slot and which address of the pool a new client gets; when the pool counts as full |
| `ServerHeard.dfy` | when the server last heard of each client and where it is, over every run |
| `ServerData.dfy` | which packets open, and what is done with each |
| `ServerPasses.dfy` | what an expiry pass and a reload leave |
| `ServerLimits.dfy` | how many TCP connections may wait to register, over every run |
| `ServerRotation.dfy` | session rotation on the server, and exactly what a handshake does to the sessions of others |
| `ServerTransport.dfy` | the events a server process can receive over its one transport, UDP or TCP, and how a session can end there |
| `ServerScenes.dfy`, `ServerEvictions.dfy` | small servers for runs that show what can happen; runs in which a session goes with another client's handshake |
| `Rotation.dfy`, `RotationRuns.dfy` | session rotation in the whole system of one client, the server with all its other clients, and a hostile network; the client's side as a class; runs that end otherwise than one would wish |
| `RotationClient.dfy` | what the client knows of its server in these runs: when it last heard it, whether it is connected and confirmed, how long the old session lasts |
| `ServerPool.dfy` | when the auto pool is full, and the lease table over every run |
| `Budgets.dfy` | handshakes and key trials per second, shared out by source |
| `Keystore.dfy` | the keys and their two indexes |
| `Session.dfy`, `Replay.dfy` | sealing and opening, the replay window, at-most-once delivery |
| `Noise.dfy` | the handshake |
| `TcpFraming.dfy` | length-prefixed frames under partial writes and reads |
| `Proto.dfy`, `ProtoFields.dfy` | REGISTER and CONFIG, printed and parsed; exactly which messages are taken and what they say, whatever their words |
| `Poly1305.dfy`, `Field25519.dfy`, `Blake2b.dfy` | limb arithmetic with its overflow bounds, and streaming buffers |
| `TunnelService.dfy` | starting and stopping the Android service |
| `Codec.dfy`, `Bits.dfy`, `Words.dfy`, `Wrappers.dfy` | what several parts use: integers in headers, words as sets of bits, integers of a fixed width, a value that may be missing |

An object of the source is a class here. A method of it is proved against a
function of the old state (`View() == Handshake(old(View()), ...)`), and the
theorems are lemmas about runs of these functions. `Server.Server.Serve` joins
the two: it takes any sequence of events through the class and ends in the
state of `ServerSteps.Run`. `Rotation.PlayClient` does the same for the client
of the two-party runs.

What comes from outside is an input, so the theorems hold for all of it: random
numbers, the clock (which does not go back), failed sends and allocations, the
order and content of packets. The AEAD is ideal where sessions are concerned
(a text opens only under the key, nonce and data it was sealed with); hash
functions, Diffie-Hellman and the compression of BLAKE2b are parameters.

## What does not hold as promised

The proofs show some promises to be conditional. Each condition is exact unless
said otherwise, and the runs and inputs that break a promise are named.

- The source address of a session is the address of its CONFIG. Over the life of
  an entry this holds exactly if each handshake accepted on it was its first, or
  found it with an address if and only if its profile was usable
  (`ServerAgreement.AgreementInEveryRun`). A complete profile is not usable when
  its `local_cidr=` does not parse or is 0.0.0.0; the file loader takes any text
  there. Such a text put in breaks the agreement of the next session, and put
  right it breaks that of the current one
  (`ServerAgreement.BadProfileBreaksAgreement`,
  `ServerAgreement.MendedProfileBreaksAgreement`). While all addresses are usable
  it always holds (`ServerAgreement.GoodProfilesAgree`).
- A captured INIT is refused while the client is live: while the entry keeps a
  session that an INIT of the same ID and key set up, and has sent authentic data
  within the timeout (`ServerAdmission.ReplaysOfAClient`). Before the first data on
  an entry, and after a longer silence, an older INIT is answered, and takes the
  timestamp back (`ServerAdmission.AutoRejectedExactly`).
- A client keeps the address it was last given while that is a client address of
  the pool, not the server's and in no profile. An address that is only offered is
  kept under one more condition: no other ID has a lease of it, as one taken over
  from another client has until it is confirmed
  (`ServerKeeping.ClientKeepsAddress`).
- A handshake leaves every valid current session as it is, except that an entry
  can go as a whole (`ServerRotation.HandshakeKeepsCurrent`). A server has one
  transport. Over UDP an entry goes only to make room for a new client in a full
  table, over TCP only because its connection now carries another entry
  (`ServerTransport.OneWayToGo`; runs: `ServerEvictions.EvictedInRun`, by an
  automatic and by a manual client, `ServerEvictions.WipedInRun`, by an automatic
  one). A manual client over TCP ends the session of a registered entry only if
  an earlier entry has the same peer address
  (`ServerTransport.ManualWipeNeedsTwin`), and so never while every connection
  comes from an address of its own (`ServerTransport.ManualKeepsCurrent`).
- Among automatic clients no address is ever with two live entries. With manual
  clients one can be: exactly when a manual handshake claims the address of an
  entry and gets another one, and succeeds or fails on an entry that was there
  before (`ServerManual.ManualHandshakeDisjoint`; a run over TCP:
  `ServerEvictions.ManualSharesAddress`), or when an automatic one under a
  complete profile gets another entry than the one with its ID that has the
  profile's address (`ServerManual.StepDisjoint`, and over runs
  `ServerManual.AddressesWithManual`). For a profile with an address and no
  gateway this is shown in one direction: the client may still be given another
  address of the pool.
- A receiver's frame over TCP is the frame that was sent exactly if the caller's
  buffer still has the bytes read by earlier calls
  (`TcpFraming.Receiver.Recv`). The server reads into a buffer of its own on
  each call (src/camex.c:1165-1187), so this rests on the stack keeping it; with
  two buffers a frame in two parts comes out wrong (`TcpFraming.TwoBuffers`).
- A CONFIG of valid fields comes back at every client it is for exactly if no
  field has a blank; the server's own checks take a route such as
  `10.0.0.0/ 8` (`Proto.ConfigRoundTrip`, `Proto.BlankRouteIsValid`).
- A protocol version is compared after a cut to 32 bits: a number passes exactly
  if it is below 2^64 and its lowest 32 bits are at most the server's version
  (`Proto.VersionIsCut`, `Proto.RegisterAtVersion`; a line with version
  4294967298 that is read: `Proto.FarVersionIsRead`).
- A source has one share of the second's budgets as long as the placement key
  does not change in that second; the key is drawn at the first INIT that finds
  randomness, and drawn while slots are taken it can give a source a second
  share (`Budgets.LateKeyGivesTwoShares`). A search does so exactly if the slot
  the source has is not one of its probes and one of these is free
  (`Budgets.SplitExactly`); for every tracked source there is such a placement
  (`Budgets.NewKeyCanSplitASource`).
- Client and server cross their indexes in both directions exactly if the INIT
  arrived with the client's own index in its header, which the handshake does
  not authenticate; keys and the other index agree in any case
  (`Rotation.PromotedIsInstalled`, `RotationRuns.AlteredInitIsPromoted`). The
  client draws its index without looking at the one in use; exactly if they are
  equal the old session is not found any more (`Rotation.ReadReplyKeepsOld`,
  `RotationRuns.OldIndexDrawnAgain`).
- The comment at src/monocypher.c:1053-1056 lets the first sum of a carry be
  anything below 2^63; from 2^63 - 2^25 on, the code's first addition overflows.
  `Field25519.Carry` takes every first sum below that; the callers stay far
  below it.

## Model

| member | source | states |
|---|---|---|
| SlotIdx.BucketsFor | src/slotidx.c:22-32 | the number of buckets for some entries: the least power of two that leaves the table at most half full, within the limits |
| SlotIdx.PutKeepsTable | src/slotidx.c:71-84 | a pair put into the first gap of its probe path keeps "no gap on any probe path", counts one more bucket, and adds exactly that pair to the set |
| SlotIdx.PairOnProbe | src/slotidx.c:115-133 | every pair of the set is met on its probe path before the first gap |
| SlotIdx.TableGapAhead | src/slotidx.c:57-84 | at most half the buckets are used, so every probe path reaches a gap: probing ends |
| SlotIdx.Index.Reset | src/slotidx.c:57-69 | afterwards the set is empty, also when there is no memory for a table |
| SlotIdx.Index.Put | src/slotidx.c:71-84 | the table takes the pair in place: old set plus the pair, nothing else, still at most half full |
| SlotIdx.Index.Grow | src/slotidx.c:86-104 | the doubled table holds the same set; without memory the old table stays |
| SlotIdx.Index.Insert | src/slotidx.c:86-108 | the set grows by the pair, or nothing changes when memory was needed and not there |
| SlotIdx.Index.Crowded | src/slotidx.c:110-113 | true exactly when the set has more than twice the live entries and 8 pairs |
| SlotIdx.Index.Find | src/slotidx.c:115-133 | the least slot of the set under that hash that the caller accepts, -1 exactly when there is none |
| ServerIndex.FewerKeysSound | src/server.c:460-580 | an entry that loses keys, or is emptied, leaves its stale pairs behind and the indexes sound |
| ServerIndex.IndexIsScan | src/server.c:639-712 | with sound indexes the least slot found through the hash is the first the scan over the table finds |
| ServerIndex.ClientIndex.Rebuild | src/server.c:460-495 | after a rebuild the indexes are sound for the table, or marked unusable when memory ran out |
| ServerIndex.ClientIndex.AddIp | src/server.c:498-513 | a new address of an entry is indexed, the crowded table rebuilt, and the indexes stay sound for the table |
| ServerIndex.ClientIndex.AddId | src/server.c:559-569 | the same for a client ID |
| ServerIndex.ClientIndex.AddAddr | src/server.c:571-580 | the same for a peer address |
| ServerIndex.ClientIndex.FindIp | src/server.c:639-667 | the entry of the linear scan for an address, current addresses first, with usable indexes and without |
| ServerIndex.ClientIndex.FindId | src/server.c:669-690 | the entry of the linear scan for an ID, without regard to case |
| ServerIndex.ClientIndex.FindAddr | src/server.c:692-712 | the entry of the linear scan for a peer address |
| ServerIndex.LeaseIndexIsScan | src/server.c:254-328 | the same agreement for the lease indexes |
| ServerIndex.LeaseIndex.Store | src/server.c:408-428 | the end of adding a lease: the indexes are sound for the table with the new lease, also after the table moved or memory ran out |
| ServerIndex.LeaseIndex.Lookup | src/server.c:288-328 | the first lease of an address, or of an ID, as a scan finds it |
| ServerLeases.DropKeepsInv | src/server.c:330-336 | dropping a lease keeps one lease per address, one non-previous lease per ID, and the exact used count |
| ServerLeases.ClearedFacts | src/server.c:348-372 | before a lease is added, those of its address and (unless it is a previous one) its ID are gone and no others |
| ServerLeases.ChosenIsFree | src/server.c:374-400 | the slot taken is a free one while there is one, else that of the oldest lease |
| ServerLeases.AddKeepsInv | src/server.c:348-428 | adding, with growth or eviction, keeps the three invariants, and the new lease is found under its address |
| ServerLeases.AddGivesUp | src/server.c:374-428 | another lease is given up only when all slots are used and it is the oldest; a young one only when there is no memory to grow the table, or it has a slot for every address of the pool or 2^20 |
| ServerPool.OfferExact | src/server.c:918-991 | an address can be offered exactly when it is not the server's, a profile's, found as another client's, or leased to another ID for less than the minimum |
| ServerPool.PoolCovered | src/server.c:938-991 | the walk from any cursor meets every client address of the pool |
| ServerPool.PoolTakeExact | src/server.c:938-991 | a walked pool is refused exactly when every client address is blocked; an address it gives is a pool address and not blocked |
| ServerPool.OldestOfAll | src/server.c:962-985 | of the reclaimable leases the walk finds the oldest |
| ServerPool.LeasesInEveryRun | src/server.c:254-428 | one lease per address, one non-previous lease per ID and the exact used count after every run of server events |
| ServerPool.PoolInEveryRun | src/server.c:1103-1135 | in every run, with auto and manual clients, an automatic handshake that asks the pool: the pool refuses exactly when every client address is blocked, and the handshake fails then; an address it gives is a pool address, not blocked, and the one in the CONFIG of the session |
| ServerPool.HeldInAutoRuns | src/server.c:639-667 | in runs of auto clients an address is found as another client's exactly when any live entry but this one has it |
| ServerChoice.SlotExactly | src/server.c:714-752 | a new client gets the first free slot after the one given last, and with none free that of the client not heard of for the longest time, the first among equals |
| ServerChoice.PoolChoice | src/server.c:938-991 | the pool gives the free address nearest after the one given last; only with none free the one kept longest for another client, past the minimum |
| ServerChoice.FullNoteIsTrue | src/server.c:934-991 | in every run, when the pool counts as full without a walk, every client address of this same pool was blocked for another handshake in the same second |
| ServerKeeping.ConfigKeeps | src/server.c:1064-1135 | the CONFIG carries exactly the address the entry keeps: the one last given, else its current one, and for an entry with none the one leased to its ID, else the one asked for, each while it is free, hold or not; with none to keep it is one of the pool, and in the start hold there is no CONFIG |
| ServerKeeping.AnswerKeeps | src/server.c:1964-2165 | an answered handshake whose entry keeps an address succeeds unless an index, the message or its sending fails, and its session has that address |
| ServerKeeping.ClientKeepsAddress | src/server.c:1103-1115 | in every run of auto clients a client whose address is one of the pool gets exactly it again at every handshake that is not refused |
| ServerKeeping.ClientComesBack | src/server.c:1083-1099 | in every run of auto clients a client that comes back while a slot is free gets exactly the address leased to its ID, and with no lease the one it asks for, if nobody else has it |
| ServerEndings.AddExactly | src/server.c:348-428 | adding a lease adds that one and no other, and gives none up while a slot of the table is free |
| ServerEndings.EndLeases | src/server.c:756-775 | when an entry ends, exactly its own address and that of its valid previous session are kept under its ID, if they are pool addresses and no profile's; leases of others stay while two slots are free |
| ServerEndings.SettledExactly | src/server.c:2104-2112 | a client that has its address has no lease, of that address or of its own; all others stay |
| ServerEndings.NoneLeasedInEveryRun | src/server.c:2104-2229 | in every run of auto clients no address of a live client is leased to anyone |
| ServerAdmission.ReplaysAreRejected | src/server.c:1933-1963 | in every run, from an INIT that set up a session on an entry, sent or not: an INIT of that key that is not newer, for the client that is live on the entry, is rejected and changes nothing, automatic by ID and manual by address |
| ServerAdmission.ReplaysOfAClient | src/server.c:1933-1963 | the same for an automatic client over every run, by its ID alone, as long as the entry keeps a session under it |
| ServerAdmission.AutoRejectedExactly | src/server.c:1628-1990 | an automatic handshake is refused exactly if it is not newer than that of its live client, its profile's address is found as another client's, its ID is unknown and such are denied, or there is no slot; nothing changes then |
| ServerAdmission.ManualRejectedExactly | src/server.c:1676-1763 | a manual one exactly if it is not newer, or its address is reserved, an automatic client's, another's, or leased to another ID, or there is no slot |
| ServerAdmission.ManualTakesItsOwn | src/server.c:1676-1763 | a manual handshake gets an entry in use only from its own source or with its ID, key and address |
| ServerHeard.TimesExactly | src/server.c:1996-2236 | what each event does to the times and the peer address of an entry: the peer of a session moves only with authentic data, over TCP with a handshake on a new connection |
| ServerHeard.HeardSince | src/server.c:853-912 | in every run, a client that sent authentic data within the timeout is live and not overdue |
| ServerHeard.HeardWhen | src/server.c:2231-2236 | and the times the server has for a client are those of its packets, handshakes or connection |
| ServerData.OpensExactly | src/server.c:2180-2206 | a packet opens exactly if it is authentic for a session that takes its index, a previous one only in its grace period, over TCP on the entry's connection |
| ServerData.GraceExactly | src/server.c:2208-2222 | after the first packet on the next session the old one takes packets for exactly 30 seconds |
| ServerData.VerdictExactly | src/server.c:2238-2299 | exactly when a packet is dropped, answered, ignored, refused for its source, kept back for isolation (another entry has the destination) or passed on |
| ServerPasses.ExpiryExactly | src/server.c:853-912 | an expiry pass leaves exactly the entries that are not overdue, and of their sessions those in time |
| ServerPasses.ReloadExactly | src/server.c:993-1059 | a reload leaves exactly the entries with an allowed key, a known ID if unknown ones are denied, and an address that is not another client's, with all they had but an offer that is another's now |
| ServerPasses.ReloadLeavesOnlyWelcome | src/server.c:1223-1258 | so no registered client is left with a key that is not allowed |
| ServerLimits.ConnectExactly | src/camex.c:1065-1161 | a connection is refused exactly if four from its address wait, the limit is reached and none waits for two seconds, or no slot is free; else it gets the first free slot, the longest waiting one closed before if the limit is reached |
| ServerLimits.WaitingInEveryRun | src/camex.c:1065-1140 | in every run no more connections wait to register than the limit, whatever comes over them |
| ServerAddresses.BuildConfigEffect | src/server.c:1064-1170 | whatever the profile, the entry changes only in its addresses and only to ones no other entry has; a pool address in the CONFIG is one of them, and the entry was assigned it |
| ServerAddresses.AnswerKeepsAddr | src/server.c:1964-2165 | a handshake that has its entry keeps the address invariant through success and every failure exit |
| ServerAddresses.HandshakeKeepsAddr | src/server.c:1628-1763 | so does the whole handshake, with the entry it finds, adopts, takes or evicts |
| ServerAddresses.DataKeepsAddr | src/server.c:2208-2229 | so does data, when it promotes the next session and takes the pending address |
| ServerAddresses.VisitKeepsAddr | src/server.c:853-912 | so does every visit of an expiry or revalidation pass |
| ServerAddresses.ReloadKeepsAddr | src/server.c:993-1059 | so does a reload with all its passes |
| ServerAddresses.ConnectKeepsAddr | src/camex.c:1024-1163 | so does a TCP connection, with the pre-auth entry it may close |
| ServerAddresses.AddressesInEveryRun | src/server.c:530-557 | in every run of auto clients, under any configuration, the addresses of different live entries (current, pending, previous while that session is valid) are disjoint, and a pending address has a valid next session |
| ServerManual.ManualEntryDisjoint | src/server.c:1676-1763 | getting the entry of a manual handshake leaves an address with two exactly when, by its guards, it claims one that an entry has and gets another entry |
| ServerManual.ManualHandshakeDisjoint | src/server.c:1676-2165 | a whole manual handshake does exactly when it claims so and succeeds, or fails on an entry that was there before |
| ServerManual.StepDisjoint | src/server.c:853-2299 | exactly when any step leaves an address with two entries, for automatic handshakes under a complete profile; no step but a handshake does |
| ServerManual.AddressesWithManual | src/server.c:530-557 | in every run of automatic and manual clients, under any configuration, no address is with two live entries as long as no handshake clashes, and one is once one does whose client keeps the address |
| ServerEvictions.ManualSharesAddress | src/server.c:1738-1762 | a run over TCP in which a manual client's address is with two entries |
| ServerAgreement.SourceIsConfig | src/server.c:2264-2279 | a packet is refused for its source exactly when that is not its session's address, which is the one of that session's CONFIG while the entry agrees |
| ServerAgreement.AnswerAgreesExactly | src/server.c:1964-2165 | an answered handshake leaves an agreeing entry agreeing exactly if it failed, was the first, or found the entry with an address if and only if the profile is usable |
| ServerAgreement.StepAgreesExactly | src/server.c:853-2299 | no other step ever ends the agreement |
| ServerAgreement.AgreementInEveryRun | src/server.c:1064-1170 | over every run and any configurations, from any moment an entry has no session or agrees: it agrees from then on exactly if each handshake accepted on it met that condition |
| ServerAgreement.GoodProfilesAgree | src/server.c:1064-1170 | while every configuration's addresses are usable, every client with a session has an address and every session the one of its CONFIG |
| ServerAgreement.BadProfileBreaksAgreement | src/server.c:1064-1100 | a run with a reload after which the next session's CONFIG lacks the address its packets need |
| ServerAgreement.MendedProfileBreaksAgreement | src/server.c:1064-1100 | a run with a reload after which the current session needs an address its CONFIG did not have |
| ServerRotation.IndexNamesOneSession | src/server.c:1581-1600 | an index names at most one valid session of the whole table |
| ServerRotation.IndexFindsSession | src/server.c:2180-2200 | the session an index names is the one a packet with that index is tried on |
| ServerRotation.AnswerEffect | src/server.c:2074-2165 | an answered handshake sets up one session and leaves a current one alone; a failed one leaves all sessions as they were |
| ServerRotation.HandshakeKeepsCurrent | src/server.c:1601-2165 | what a handshake, successful or failed, auto or manual, does to every valid current session: it stays exactly unless the guards say that its connection now carries another entry (then the entry is empty) or that it is evicted (then the entry is empty or holds only the new client's first session) |
| ServerRotation.EntryForEffect | src/server.c:1628-1763 | getting the entry of a handshake empties exactly the entries the guards name and leaves every other session alone |
| ServerTransport.LinesInEveryRun | src/camex.c:1319-1386 | in every run of events that one transport can bring: over UDP no entry has a connection, over TCP each has one of its own |
| ServerTransport.CloseInEveryRun | src/camex.c:1165-1230 | in every run over TCP a connection that closes ends exactly its own entry |
| ServerTransport.OneWayToGo | src/server.c:1601-1763 | in every such run a handshake can end another client's current session over UDP only by evicting it, over TCP only by coming over its connection, and does exactly when the guards say so |
| ServerTransport.ManualWipeNeedsTwin | src/server.c:1731-1745 | a manual handshake over the connection of a registered entry ends that entry only if an earlier one has the same peer address |
| ServerTransport.ManualKeepsCurrent | src/camex.c:1208-1228 | in every TCP run whose connections come from addresses of their own, no manual handshake ends another client's session |
| ServerEvictions.WipedInRun | src/server.c:1605-1624 | a run over TCP in which a client's entry goes because an automatic one comes over its connection |
| ServerEvictions.EvictedInRun | src/server.c:714-752 | a run over UDP in which a client's entry goes to a new client, automatic or manual |
| ServerRotation.DataRotates | src/server.c:2202-2229 | only an authentic packet on the next session changes which session is current; it becomes current and the old one previous |
| ServerRotation.IndexesInEveryRun | src/server.c:1581-1600 | distinct indexes, each naming its slot, in every run of auto and manual handshakes |
| Server.Server.constructor | src/server.c:582-614 | an empty table, lease table and indexes |
| Server.Server.FindIp | src/server.c:639-667 | the scan's entry, through the indexes of the running server |
| Server.Server.FindId | src/server.c:669-690 | the same for an ID |
| Server.Server.FindAddr | src/server.c:692-712 | the same for a peer address |
| Server.Server.LiveSource | src/server.c:1436-1444 | the client at a source: the first active entry with that address, exactly if it has a valid session and sent authenticated data within the timeout |
| Server.Server.SetIp | src/server.c:515-524 | the entry's address changes and the indexes stay sound |
| Server.Server.AssignAddress | src/server.c:530-541 | an address becomes current, or pending while there is a current session, as the step says |
| Server.Server.RestoreAddress | src/server.c:546-557 | both addresses are put back as they were |
| Server.Server.LeaseDrop | src/server.c:330-336 | the lease table with the lease dropped |
| Server.Server.LeaseAdd | src/server.c:348-428 | the lease table with the lease added, grown or evicted, as the function on values gives it |
| Server.Server.Alloc | src/server.c:714-752 | a free slot from the cursor on, else the evicted client's |
| Server.Server.End | src/server.c:756-787 | the entry is emptied and leaves its leases behind |
| Server.Server.Expire | src/server.c:853-912 | one expiry pass over the whole table |
| Server.Server.IpUsable | src/server.c:918-930 | whether an address may be given to an entry |
| Server.Server.TakeFromPool | src/server.c:938-991 | the walk of the pool, its cursor and its note of a full pool |
| Server.Server.RevalidateUnknown | src/server.c:993-1015 | one pass: unknown auto clients end when they are denied |
| Server.Server.RevalidateProfileAddresses | src/server.c:1017-1059 | one pass: clients lose addresses that are now another's profile |
| Server.Server.BuildAutoConfig | src/server.c:1064-1170 | the address for a CONFIG and the entry it leaves, as the function on values gives them (what that is: ServerKeeping.ConfigKeeps, ServerChoice.PoolChoice) |
| Server.Server.RevalidateKeys | src/server.c:1223-1258 | one pass: registered clients whose key is not allowed end, no others (ServerPasses.ReloadExactly) |
| Server.Server.DrawIndex | src/server.c:1581-1600 | an index with the slot in its low half, different from the entry's others, 0 when there is none |
| Server.Server.Adopt | src/server.c:1605-1624 | a connection's other entries are wiped and the entry takes it |
| Server.Server.AutoEntryFor | src/server.c:1628-1675 | the entry of an auto handshake |
| Server.Server.ManualEntryFor | src/server.c:1676-1763 | the entry of a manual handshake, or its refusal |
| Server.Server.RollBack | src/server.c:2136-2165 | the failure exit: a slot taken is freed, another entry gets back what it had |
| Server.Server.Respond | src/server.c:1964-2165 | the whole answer to a handshake that has its entry, with each of its failures |
| Server.Server.HandleInit | src/server.c:1921-2165 | a handshake from its parsed REGISTER on: new table, leases, pool and outcome (which are refused: ServerAdmission.AutoRejectedExactly) |
| Server.Server.Promote | src/server.c:2206-2229 | the next session becomes current, the pending address the current one |
| Server.Server.HandleData | src/server.c:2168-2299 | the table after a DATA packet, and what is done with its payload (exactly what: ServerData.VerdictExactly) |
| Server.Server.ReloadConfig | src/server.c:993-1059 | a new configuration and the three passes over the table (what they leave: ServerPasses.ReloadExactly) |
| Server.Server.Connect | src/camex.c:1024-1163 | a TCP connection gets the first free slot within the limits on unregistered ones |
| Server.Server.Close | src/camex.c:1165-1230 | a closed connection ends its entry |
| Server.Server.Serve | src/server.c:853-2299 | any sequence of events through the class ends in the state of the run on values |
| Rotation.StepCome | src/server.c:1766-2299 | every session after any server step was there before, in its entry, or is the one the handshake made |
| Rotation.NextKeepsInv | src/client.c:148-195 | what ties the client's installs, the server's sessions and the sealed packets together survives every move |
| Rotation.PromotedIsInstalled | src/server.c:2202-2229 | a session that becomes current has exactly one counterpart the client installed, from the reply that made it, with swapped keys and the server's index; indexes cross both ways exactly if the INIT's header was the client's |
| Rotation.PromotedInEveryRun | src/client.c:148-195 | the same in every run of the two parties and the network |
| RotationRuns.AlteredInitIsPromoted | src/server.c:2202-2229 | a run in which the promoted session sends under an index the client does not have |
| Rotation.ReadReplyKeepsOld | src/client.c:181-196 | after the client has read the reply, what the server still sends on the old session opens at the client, exactly while the grace period lasts and the two indexes differ |
| RotationRuns.OldIndexDrawnAgain | src/client.c:60-111 | a run in which the client's new index is that of its old session, which is not found any more |
| Rotation.ConfirmationCompletes | src/client.c:199-212 | the client's first packet makes both sides use the new session, and what it had sent on the old one still opens at the server |
| Rotation.PlayClient | src/client.c:52-263 | the client class, driven through the client's moves of any run, ends in that run's client, so that the theorems are about it |
| Client.ClientState.SendInit | src/client.c:60-111 | the state after an INIT and after each of its failures |
| Client.ClientState.HandleResp | src/client.c:148-220 | the session is installed exactly for a RESP to the pending handshake that authenticates and whose CONFIG is taken; otherwise nothing changes |
| Client.ClientState.HandleData | src/client.c:222-263 | a packet is tried on the current session, else on the previous one within its grace period |
| Client.ClientState.Reconnect | src/client.c:483-522 | starting over: no handshake, session or connection is left, and the clock starts anew |
| RotationClient.MoveExactly | src/client.c:146-263 | what each move of a run does to what the client knows of its server |
| RotationClient.ConfirmExactly | src/client.c:196-258 | in every run the client waits for the server to use its session exactly if no packet has come on it since its reply was read |
| RotationClient.EstablishedExactly | src/client.c:196-198 | in every run it is connected exactly if it has read a reply since it last started over |
| RotationClient.LastHeardExactly | src/client.c:483-522 | in every run it counts the silence from the last reply, packet or connection |
| RotationClient.PreviousExactly | src/client.c:185-192 | in every run the previous session is the one that was current when the last reply was read, and receives for 30 seconds from then |
| Budgets.SlotForTheSecond | src/server.c:1387-1434 | a source that has a share has the same one for the whole second; one that found none has none for the whole second |
| Budgets.Budgets.Search | src/server.c:1415-1434 | the probes: the source's slot, else the first free one, else none with all probes taken |
| Budgets.Budgets.ShareOf | src/server.c:1387-1434 | each source keeps at most one slot, where a search finds it, and every accepted request of the second is counted in it, while the placement stays the same |
| Budgets.Budgets.KnownSource | src/server.c:1446-1455 | of the INITs of a live client, found by Server.Server.LiveSource, four a second count as known |
| Budgets.Budgets.HandshakeBudget | src/server.c:1482-1511 | the exact conditions of each refusal by what was accepted in this second, that for a used-up share in a steady placement; a known source is never refused while fewer than 50 known ones were accepted |
| Budgets.Budgets.KeyTrialBudget | src/server.c:1538-1564 | the same for key trials with a fixed keystore |
| Budgets.Budgets.SecondIsBounded | src/server.c:1342-1564 | in every second at most 200 INITs, 150 of unknown sources, and 25 of a tracked address or 50 of its /24; key trials alike; while the placement stays the same only sources with all probes taken go uncounted |
| Budgets.Budgets.TryKeys | src/server.c:1862-1906 | the key that opens message 1, or the refusal; a live client's own key is tried in time whatever other sources use up; a source that has tried none yet in the second gets to every key in one handshake while the budgets have room for each once |
| Budgets.AllTurns | src/server.c:1862-1880 | each key has exactly one turn |
| Budgets.SplitExactly | src/server.c:1415-1434 | a search gives a source with a slot a second one exactly if that slot is none of its probes and one of these is free |
| Budgets.NewKeyCanSplitASource | src/server.c:1398-1407 | without the placement staying the same, a tracked source can get a second slot in the same second |
| Budgets.LateKeyGivesTwoShares | src/server.c:1387-1434 | a second in which the placement key is drawn after a source has its share: the source gets another one |
| Keystore.KeyLookup | src/config.c:706-742 | though only the first entry of a key is indexed, a lookup by key answers for the first entry with it and for no other |
| Keystore.Store.Find | src/config.c:795-798 | the first usable entry with the key, as a scan finds it |
| Keystore.Store.IsGlobal | src/config.c:790-793 | true exactly when the key is the global one |
| Keystore.Store.HasOwner | src/config.c:757-769 | true exactly when some entry has this owner |
| Keystore.Store.KeyOwnedBy | src/config.c:771-783 | true exactly when some usable entry has this owner and key |
| Keystore.Store.Build | src/config.c:814-941 | the entries of the global key and all client blocks in order, indexed; none when memory ran out; refused exactly when no key can be used |
| Keystore.BuiltGlobalFirst | src/config.c:838-881 | in a built keystore only entry 0 can hold the global key |
| Keystore.LockedOwner | src/config.c:866-880 | a client with an invalid key keeps its ID taken and is matched by no key |
| Codec.LeRoundTrip | src/session.c:35-53 | little-endian bytes read back as the number |
| Codec.Be32RoundTrip | src/session.c:21-33 | big-endian words read back as the number |
| Codec.WriteLe64 | src/session.c:46-53 | the eight bytes of a counter, lowest first |
| Codec.ReadLe64 | src/session.c:35-44 | their value |
| Replay.WindowGuarantee | src/session.c:79-94 | an unseen counter at most 1984 behind passes, one 2048 or more behind never does, a recorded one never again |
| Replay.RecordInRing | src/session.c:96-120 | setting a bit of the ring records exactly that counter |
| Replay.MovedRing | src/session.c:100-115 | a ring moved on with the passed words cleared holds the same counters |
| Replay.ReplayWindow.Check | src/session.c:79-94 | accepts exactly a counter below the limit, unrecorded, and above the maximum or in the last 32 words |
| Replay.ReplayWindow.Record | src/session.c:96-120 | the set of recorded counters plus this one |
| Transport.Session.Seal | src/session.c:140-155 | a packet under the next counter, each counter once, exactly while the session is valid, the limit not reached and the buffer large enough |
| Transport.Session.Open | src/session.c:157-180 | the payload, exactly for a packet sealed with this key, header and counter that the window accepts; the counter is recorded only then |
| Transport.HeaderRoundTrip | src/session.c:140-180 | a built header gives back the index and the counter |
| Transport.SealThenOpen | src/session.c:140-180 | what one side seals the other opens |
| Transport.AtMostOnce | src/session.c:79-180 | over a network that drops, repeats, reorders and injects: only sealed payloads are delivered, each under its own counter and at most once, and no counter is used twice |
| Noise.Handshake.MixKeyAndHash | src/noise.c:142-154 | HKDF's three outputs go to chaining key, hash and cipher key, though the first overwrites its input |
| Noise.Handshake.DecryptAndHash | src/noise.c:165-185 | the payload and the hashed text, or no change |
| Noise.Handshake.WriteMsg1 | src/noise.c:237-263 | message 1 and the state, or none for a wrong role, a small buffer or a low-order point |
| Noise.Handshake.WriteMsg2 | src/noise.c:302-326 | message 2, alike |
| Noise.Handshake.ReadMsg1 | src/noise.c:361-376 | payload and new state of a readable message 1; a failed read leaves the state as it was |
| Noise.Handshake.ReadMsg2 | src/noise.c:378-390 | the same for message 2 |
| Noise.Handshake.ReadWithAny | src/server.c:1862-1906 | of several keys the first that reads message 1, those tried before it leaving no trace |
| Noise.Message1Agrees | src/noise.c:237-300 | an honest message 1 gives both sides the payload, the same hash, chaining key and cipher key |
| Noise.Message2Agrees | src/noise.c:302-357 | so does an honest message 2 |
| Noise.Agreement | src/noise.c:204-403 | an honest exchange that no low-order point stops delivers both payloads and leaves equal hashes, chaining keys and split keys (which keys: Noise.KeysExactly) |
| Noise.Handshake.SplitInTwo | src/noise.c:392-403 | the two keys of HKDF from the chaining key, cut to their length |
| Noise.SplitKeys | src/noise.c:392-403 | the keys of the two directions differ, and two sides have a key in common exactly if their chaining keys are equal, where the HMACs do not collide |
| Noise.ChainBinds | src/noise.c:54-154 | two chaining keys are equal exactly if the same secrets were mixed in, in the same order |
| Noise.KeysExactly | src/noise.c:204-403 | whatever messages a client and a server took part in, what the one sends with is what the other receives with, in both directions, exactly if pre-shared key, ephemeral keys and both shared secrets are the same; neither side receives with the key it sends with |
| Noise.Message1Reaches | src/noise.c:274-300 | a server reads an honest message 1 exactly if prologue, server key and pre-shared key are the same on both sides, where the transcripts' hashes do not collide |
| TcpFraming.Sender.Acquire | src/net.c:109-141 | a free slot, with a buffer if any has one; none exactly when none is free or memory is needed and missing |
| TcpFraming.Sender.Flush | src/net.c:154-189 | what is written plus what is left stays the accepted frames; a hard error breaks only this descriptor |
| TcpFraming.Sender.SendFrame | src/net.c:472-524 | an accepted frame is the next of its stream, another leaves the stream as it was, and no other descriptor is touched |
| TcpFraming.Sender.Close | src/net.c:248-260 | nothing pending outlives the descriptor, whose number starts anew |
| TcpFraming.Decodes | src/net.c:537-606 | however a stream is cut, whole frames and an incomplete one taken off it are its first frames, and all of them once all is taken |
| TcpFraming.NextLength | src/net.c:555-580 | between two frames the next two bytes are the length of the next one |
| TcpFraming.Receiver.Recv | src/net.c:537-606 | no byte of the stream is lost or taken twice over any partial reads; a frame in the buffer is the true one exactly if the caller kept the bytes of earlier calls |
| TcpFraming.TwoBuffers | src/camex.c:1165-1187 | a frame that arrives in two parts, read into two buffers, comes out wrong |
| TcpFraming.Receiver.FramesArrive | src/net.c:537-606 | the frames received are the frames sent, in order; none that fits is rejected |
| TcpFraming.DeliveredIsAccepted | src/net.c:472-606 | end to end: what is delivered is what was accepted, in order, and all of it once nothing is pending or in flight |
| Proto.WordsOfJoined | src/proto.c:84-106 | cutting a line of words gives the words back |
| Proto.Message.Next | src/proto.c:97-109 | the next word of the text, cut in place |
| Proto.Buffer.Append | src/util.c:357-376 | the text is appended exactly if it fits with its terminator; the offset stays otherwise |
| Proto.BuildRegister | src/proto.c:27-82 | the whole line, exactly if it fits |
| Proto.ParseRegister | src/proto.c:84-192 | what the words say, one after the other |
| Proto.RegisterRoundTrip | src/proto.c:27-192 | parsing a built REGISTER gives back mode, ID and address exactly if they are blank-free and those its mode needs are there |
| Proto.VersionIsCut | src/proto.c:112-131 | of all version numbers that fit the token, exactly those below 2^64 with small enough lowest 32 bits pass |
| Proto.RegisterAtVersion | src/proto.c:84-192 | a REGISTER of such a version is read just as one of the server's own, any other is rejected |
| Proto.FarVersionIsRead | src/proto.c:112-131 | a line with a version far too high that is read |
| Proto.BuildConfig | src/proto.c:194-254 | the whole line, exactly if it fits |
| Proto.ClientConfig.Apply | src/config.c:943-971 | address, gateway, routes in order and a set MTU, or nothing |
| Proto.ClientConfig.Parse | src/proto.c:256-368 | the configuration a valid CONFIG gives; a rejected one changes nothing |
| Proto.TakeConfig | src/proto.c:282-326 | the words of valid fields are all taken, routes in order |
| Proto.ConfigRoundTrip | src/proto.c:194-368 | parsing a built CONFIG of valid fields gives back address, gateway, MTU, routes and ID at every client it is for exactly if no field has a blank |
| Proto.BlankRouteIsValid | src/util.c:170-208 | a route with a blank that the server's check takes |
| Proto.DecimalRoundTrip | src/util.c:295-312 | a printed number reads back |
| ProtoFields.RegisterExactly | src/proto.c:84-192 | exactly which REGISTERs are read, whatever their words and order, and what they say: the last word of each field counts, and an address without a field only after nothing but versions |
| ProtoFields.ConfigExactly | src/proto.c:256-368 | exactly which CONFIGs are taken, and what they come to: the last word of each field, all routes in order, the MTU and ID kept if none is given |
| Poly1305.Product | src/monocypher.c:345-351 | the limb products of one step, no 64-bit sum and no 32-bit product overflowing |
| Poly1305.Reduce | src/monocypher.c:350-373 | the carried limbs, congruent modulo 2^130-5, within the bound the next step needs |
| Poly1305.Block | src/monocypher.c:312-373 | one step: congruent to (h + c) r modulo 2^130-5 |
| Poly1305.Blocks | src/monocypher.c:319-373 | the accumulator after all whole blocks, as section 2.5 of RFC 8439 defines it |
| Poly1305.TagFromLimbs | src/monocypher.c:422-449 | adding the excess and the pad and cutting to 128 bits gives the tag |
| Poly1305.Context.Update | src/monocypher.c:386-420 | the message so far grows by the bytes, whatever is still in the block buffer |
| Poly1305.Context.Final | src/monocypher.c:422-449 | the tag of section 2.5 of RFC 8439 of the whole message |
| Poly1305.Mac | src/monocypher.c:375-449 | the tag does not depend on how the message is split over update calls |
| Field25519.ProductValue | src/monocypher.c:1234-1280 | the ten sums of fe_mul are the product modulo 2^255-19 |
| Field25519.SquareValue | src/monocypher.c:1290-1334 | the ten sums of fe_sq, with fewer products, come to those of fe_mul with equal factors |
| Field25519.Carry | src/monocypher.c:1053-1129 | the carried limbs are congruent to the sums and below 1.1 * 2^25 and 1.1 * 2^24, without overflow, for every first sum whose rounding fits 64 bits |
| Field25519.Multiply | src/monocypher.c:1234-1282 | congruent to the product and reduced, no intermediate overflowing for any limbs in the stated range |
| Field25519.Square | src/monocypher.c:1290-1334 | the same for the square with its fewer products |
| Field25519.FeMul | src/monocypher.c:1234-1282 | the same in place on limb arrays, which may be the same |
| Field25519.FeSq | src/monocypher.c:1290-1334 | the same in place for the square |
| Field25519.FeMulSmall | src/monocypher.c:1214-1225 | the same for a small factor |
| Field25519.FeAdd | src/monocypher.c:983 | the sum of two products is within the range a product takes |
| Field25519.FeSub | src/monocypher.c:984 | so is their difference |
| Blake2b.Context.AddOffset | src/monocypher.c:470-493 | two 64-bit words count the bytes modulo 2^128 |
| Blake2b.Context.Update | src/monocypher.c:567-633 | the message so far grows by the bytes, in whatever pieces they come |
| Blake2b.Context.Final | src/monocypher.c:635-645 | the digest of section 3.3 of RFC 7693 of the message so far, in its byte order and cut to its size; the rest of the output buffer stays |
| Blake2b.HashParts | src/monocypher.c:539-645 | the digest of the parts is the digest of the whole message |
| TunnelService.RunSlot.Acquire | android/app/src/main/jni/camex-jni.c:90-106 | takes and arms the slot exactly if it is free |
| TunnelService.Service.TryAcquire | android/app/src/main/java/org/openipc/camex/TunnelService.java:147-167 | one round: cancelled exactly if a Stop covers the start, taken exactly if the slot is free |
| TunnelService.Service.RequestStop | android/app/src/main/java/org/openipc/camex/TunnelService.java:169-176 | covers all starts so far and clears `running` only if this instance holds the slot |
| TunnelService.NextKeepsInv | android/app/src/main/java/org/openipc/camex/TunnelService.java:91-176 | every single memory step of every thread keeps the protocol's invariant |
| TunnelService.OneRunAndItsStops | android/app/src/main/java/org/openipc/camex/TunnelService.java:44-47 | in every interleaving at most one instance holds the slot, and unless a Stop is under way in it, `running` is 0 exactly when a Stop covers the holder's start or the run ended itself |
| TunnelService.OthersRunIsLeftAlone | android/app/src/main/java/org/openipc/camex/TunnelService.java:36-43 | no step of another instance touches the holder's run |
| TunnelService.WhoClearsRunning | android/app/src/main/jni/camex-jni.c:174-180 | `running` goes to 0 only by the run itself or a Stop of its own instance that covers it |
| TunnelService.OnlyLaterStopsCancel | android/app/src/main/java/org/openipc/camex/TunnelService.java:147-167 | a start is given up for a Stop exactly if the Stop came after it |
| TunnelService.NewStartIsNotCovered | android/app/src/main/java/org/openipc/camex/TunnelService.java:91-100 | a Start after a Stop is not cancelled by it, and starts stay in order |
| TunnelService.BlockIsSteps | android/app/src/main/java/org/openipc/camex/TunnelService.java:91-176 | each synchronized block, run without interruption, is what its single memory steps come to |

## Left out

- The rest of what the server does with a packet (writing to TUN, statistics, logs, the status output) and all socket, TUN, route and ioctl code: results of these calls are inputs.
- Option parsing, passphrases and key files, the file parser of the configuration, base64, the kernel module, the Android interface.
- EdDSA, Elligator and Argon2; the rounds of ChaCha20 and BLAKE2b, the ladder of X25519, conversions of field elements to and from bytes. Cryptographic strength and timing.
- Server.Server.HandleInit: starts where message 1 is opened and REGISTER is parsed; the key trials before it are in Budgets.dfy, the parsing in Proto.dfy, the keystore's verdict on the key and ID is an input.
- Server.Server.HandleData: whether the packet authenticates is an input; counters and the replay window of each session are in Session.dfy. The keepalive answer is not modelled.
- Server.Server.Expire: one pass; that it runs at most once a second is not modelled.
- ServerAddresses.AddressesInEveryRun: auto clients only, as are the theorems of ServerAgreement.dfy; manual clients are in ServerManual.dfy, which says when addresses stay apart and not that they are those of a CONFIG, as a manual client gets none.
- ServerTransport.ManualKeepsCurrent: that two open connections of a listening socket differ in their peer addresses is taken from the network stack.
- ServerRotation.HandshakeKeepsCurrent: a failed handshake on a known TCP connection leaves the new ID and peer address in the entry, as the code does; only sessions, addresses, key and registration are put back.
- ServerIndex.IndexIsScan: hash values are unbounded numbers and the hash functions any functions (IDs hashed after folding the case of ASCII letters).
- SlotIdx.Index.Insert: a table stops growing only for want of memory; the limit of 2^31 buckets is not modelled. `h & mask` is `h` modulo the number of buckets, a power of two.
- Budgets.Budgets.TryKeys: the cost of a trial and the reading of message 1 are not modelled; a keystore reloaded in the middle of a second is not either.
- Budgets.Budgets.KnownSource: the counter of a client is kept by entry number; an entry that is wiped and taken again within a second starts a new count, which only a new client can use.
- Keystore.Store.Build: that the texts are wiped after use, and the warnings about equal keys.
- Transport.Session.Open: the AEAD is ideal and the time of a session is not modelled.
- Noise.Agreement: HMAC is a parameter, the key store for wiped secrets is not modelled, and an all-zero shared secret is the low-order test as in the code.
- Noise.Message1Reaches: assumes that the hashes of the two transcripts do not collide and that the AEAD does not open the text under other associated data; both are stated for these texts alone.
- Rotation.PromotedIsInstalled: message 2 is read only in the handshake it answers (Noise.dfy shows that an honest one is); the keys of different replies differ; replies of other clients' handshakes use other keys.
- TcpFraming.Sender.Flush: send() of a nonempty rest never reports zero bytes.
- TcpFraming.Receiver.Recv: read() may return any number of bytes asked for; a size limit that changes between calls is excluded, as it would write beyond the buffer.
- Proto.ParseRegister: long is 64 bits; texts have no NUL; what the C library takes for an IPv4 address is a parameter.
- Proto.ClientConfig.Parse: of the configuration only what a CONFIG sets.
- Field25519.Carry: the bound its source states for the first sum is not met up to 2^63, as said above.
- Blake2b.Context.Update: the word buffer is held as its little-endian bytes, an OR into a shifted word as an OR into its byte.
- TunnelService.OneRunAndItsStops: the five-second deadline is "may give up at any time"; an instance that holds the slot and whose process dies takes the slot with it.
- The comment at src/server.c:1321-1341 promises a source at most its share of each budget; the code keeps that under the condition given above.
