# Firestack, verified

Firestack is a user-space tunnel: a DNS application-level gateway, UDP and TCP forwarding, and the
indexes, caches and codecs around them. This project models the parts of it that carry hard
invariants and proves what they keep, over every input, every interleaving and every run.

`dafny verify dfyconfig.toml` checks everything.

How the models are built. A component is a value-level state, total step functions on it, and
lemmas about every run of steps. What a step cannot decide itself (which channel a `select` takes,
which keys a map iteration visits, which dialer connects, how many bytes a write takes) is part of
the event. Each region under a lock, each channel operation and each wait is one step, and a step
reads the clock once. Beside most components stands a `...Cell` module with the class that the
program has: its methods change fields, arrays and maps in place, with the program's loops, and
their contracts equate the new state with the step function of the old one.

| component | modules |
|---|---|
| shared values | `Common` |
| DNS gateway (`intra/dnsx/alg.go`) | `Slices`, `ExpStore`, `ExpStoreCell`, `AlgAddr`, `AlgAnswer`, `AlgGateway`, `AlgInvariant`, `AlgUndo`, `AlgGatewayCell` |
| UDP mux and demux (`intra/udpmux.go`) | `UdpDemux`, `UdpOwnership`, `UdpCell`, `UdpAssoc`, `UdpAssocCell` |
| Retrying connection (`intra/dialers/retrier.go`) | `Retrier`, `RetrierCell` |
| First-segment splitting (`intra/dialers/op.go`, `intra/core/buf.go`) | `TlsRecords`, `TlsSplit`, `TlsSplitCell`, `SlabPool`, `TlsRegion` |
| P-square estimator (`intra/core/p2est.go`) | `Sorting`, `P2Quantile`, `P2QuantileCell` |
| Blocklist stamps (`intra/dnsx/rethinkdns.go`) | `Ranks`, `StampBits`, `Stamp`, `StampCodec`, `StampText` |
| Connection map (`intra/core/connmap.go`) | `ConnMap`, `ConnMapCell` |
| Expiring map and sieve (`intra/core/expiringmap.go`, `expiringsieve.go`) | `ExpMap`, `Sieve`, `ExpMapCell` |
| Single-flight barrier (`intra/core/barrier.go`) | `Barrier`, `BarrierCell` |
| DNS answer cache (`intra/dnsx/cacher.go`) | `AnswerCache`, `AnswerCacheCell` |
| DNSCrypt padding (`intra/dnscrypt/crypto.go`) | `DnscryptPad` |

## Where the code and its promises part

These are properties one would expect, or that a comment promises, and that the code does not have.
Each has a lemma at an input that shows it and a lemma with the exact condition.

- A `Write` of the retrier that waits for the reader is acknowledged with its bytes in the final
  connection if and only if the first Read failed and retries are enabled, that is, if a retry took
  place (`Retrier.WaitedAckIff`). When the first Read succeeds it is acknowledged although the bytes
  are lost, with retries enabled or not (`Retrier.AckedButLost`).
- A `Write` acknowledged at once can be lost by the retry that follows (`Retrier.AckedThenLost`). Its
  bytes are in the connection kept if and only if the last attempt connects and takes them, which with
  one dialer or several can be told from the attempts (`Retrier.RetryDelivers`). Without a retry they stay where the connection took them, which is their
  place in the stream if and only if every Write before had got through (`Retrier.PromptPlaceIff`). A
  first Read that ends without error leaves the whole stream in the connection if and only if it took
  a retry or every Write before had got through (`Retrier.CleanReadIff`), and then no acknowledged
  byte is ever lost (`Retrier.AckedIsDelivered`).
- `AllocRegion` promises a region "at least size big". It gives one after every run if and only if
  the size is at most 2048, a slab size, or above 512 KiB (`SlabPool.ServedFullyIff`). A 3000-byte
  client hello that is fragmented therefore loses its tail (`TlsRegion.LongHelloIsCut`), and
  `writeTCPOrTLSSplit` reports a short count without an error (`TlsSplitCell.WriteSplit`).
  Fragmentation is safe after every run if and only if the slab covers the second record
  (`TlsRegion.SafeInEveryRunIff`).
- `Track` keeps the connection map's indexes exact if and only if it gives no new user or process to
  a known connection id and no user or process to an empty one (`ConnMap.TrackKeepsIff`; inputs in
  `ConnMap.RetrackExample` and `ConnMap.BlankWipesUser`).
- Untracking a name goes by a list of ids, and for an id that is no longer tracked by that id's own
  list, so it may never end: a connection id tracked again for a user of its own name, and untracked,
  can never be untracked again (`ConnMap.EndlessAfterRetrack`; an input in `ConnMap.EndlessExample`).
  Once an id has been tracked, for whatever user and process, and untracked, untracking a name ends if
  and only if its list does not have that id or that id's own list does not
  (`ConnMap.RetrackEndsIff`). While the indexes are exact it always ends (`ConnMap.DirectEnds`).
- `Do` promises that only one execution is in flight for a key. A timeout lets go of the work but does
  not end it, so two can be (`Barrier.TimeoutDoubles`). In every run of an open barrier whose works
  take at most `d`, at most one is in flight per key if and only if `d` is shorter than the time the
  owner waits, or as long and failures live no shorter (`Barrier.OneFlightIff`).
- Reading a stamp takes the first word without asking whether there is one. It runs past the end if
  and only if the payload decodes to fewer than two bytes, none for version 0
  (`StampText.PastEndIff`); the encoder's own text for no words does (`StampText.EmptyStampPastEnd`).
- Reaping an expiring map is invisible, on a clock that never runs back, if and only if the clock
  strictly increases from the second moment on (`ExpMap.InvisibleIff`; an input in
  `ExpMap.StandingClockTells`).
- A merge can drop an item from the "all" view (`ExpStore.StaleIsDropped`), in exactly one case, which
  a day's grace excludes (`ExpStore.MergeLosesExactly`).
- The comment in `freshCopy` says that an entry whose expiry is already far in the future is not
  pushed back. The code pushes back exactly those, of the entries it may still bump
  (`AnswerCache.PushedIff`; an input in `AnswerCache.FarIsPushed`), and the model follows the code.

Branches that are never taken, or tests that decide nothing:

- The address generator's test for global unicast addresses (`AlgAddr.Spread4`) and the eviction
  branch of `take4Locked` and `take6Locked` (`AlgInvariant.TakeEffect`).
- The second half of `associate`'s uid test (`UdpAssoc.GotIsTabled`).

## Model

| member | source | states |
|---|---|---|
| Slices.CopyUniq | intra/core/slices.go:15-34 | the lists one after the other, each element kept at its first occurrence only |
| Slices.UniqUnion | intra/core/slices.go:15-34 | de-duplicating a concatenation keeps exactly the union of the members |
| ExpStore.MergeJoinsLive | intra/dnsx/alg.go:591-688 | for every key the live set after a merge is the union of both live sets |
| ExpStore.MergeTakesMaxima | intra/dnsx/alg.go:610-653 | when both sides are live the joined entry has the later expiry and the later birth |
| ExpStore.MergeView | intra/dnsx/alg.go:384-406 | what a key shows after merge, relegation and vacuum, in terms of what both sides held before |
| ExpStore.MergeLosesExactly | intra/dnsx/alg.go:591-688 | an item leaves the "all" view if and only if its entry had expired, was born over a day ago, and neither the incoming answer nor the past names it |
| ExpStore.StaleIsDropped | intra/dnsx/alg.go:591-688 | a store and an answer for which that case arises |
| ExpStore.RemoveKeepsView | intra/dnsx/alg.go:489-525 | stopping a transport empties its live set and leaves every view as it was |
| ExpStore.VacuumKeepsView | intra/dnsx/alg.go:542-558 | whatever keys a sweep visits, no view changes |
| ExpStore.ShownForADay | intra/dnsx/alg.go:528-688 | however many merges, stops and sweeps follow, an item is shown for a full day after its entry's birth |
| ExpStoreCell.Cell.Relegate | intra/dnsx/alg.go:528-539 | the in-place move to the past is the entry-level relegation |
| ExpStoreCell.Cell.Vacuum | intra/dnsx/alg.go:542-558 | the bounded sweep deletes only stale entries among those it visits |
| ExpStoreCell.Cell.MergeEntries | intra/dnsx/alg.go:610-653 | the loop over the incoming keys, in any order, is the key-wise merge |
| ExpStoreCell.Cell.ExpireEntries | intra/dnsx/alg.go:489-525 | the loop over a stopped transport's entries is the key-wise expiry |
| AlgAddr.KeyInjective | intra/dnsx/alg.go:45-46 | no two domains or families share a key, whatever characters the names hold |
| AlgAddr.Spread4 | intra/dnsx/alg.go:1941-1954 | every generated v4 address lies in 100.64.0.0/10 and is global unicast |
| AlgAddr.Spread6 | intra/dnsx/alg.go:2033-2053 | every generated v6 address lies in 64:ff9b:1:da19:100::/80 |
| AlgAddr.SpreadOnto | intra/dnsx/alg.go:1941-1954 | every address of 100.64.0.0/10 can be generated |
| AlgAddr.Fold22 | intra/dnsx/alg.go:2505-2510 | the fold fits in 22 bits |
| AlgAddr.Fold48 | intra/dnsx/alg.go:2513-2518 | the fold fits in 48 bits |
| AlgAnswer.VisibleShrinks | intra/dnsx/alg.go:582-589 | nothing an answer does not show becomes visible as time passes |
| AlgAnswer.StopShowsNothingNew | intra/dnsx/alg.go:489-525 | stopping a transport shows no new address |
| AlgAnswer.AnswerJoins | intra/dnsx/alg.go:1044-1070 | merging answers joins live addresses, secondary addresses and names, keeps the longer lifetime and takes over the newer blocklists |
| AlgAnswer.StopSilences | intra/dnsx/alg.go:489-525 | a stopped transport has no live address, primary or secondary, and every other keeps its own |
| AlgAnswer.StopSilencesNames | intra/dnsx/alg.go:868-895 | the same for its names, while every view stays as it was |
| AlgInvariant.ProbeFree | intra/dnsx/alg.go:1868-1898 | a candidate handed out is in its family's block and used by no answer |
| AlgInvariant.TakeEffect | intra/dnsx/alg.go:1868-1984 | taking an address changes at most one lifetime; the eviction branch is not reached |
| AlgInvariant.TakeExtends | intra/dnsx/alg.go:1868-1898 | an address asked for again lives at least two minutes from now, and two minutes longer if it was alive |
| AlgInvariant.PickReady | intra/dnsx/alg.go:1578-1640 | the addresses picked for a reply are free or the ones already issued, whichever records and hints it has |
| AlgInvariant.RegisterOneInv | intra/dnsx/alg.go:1817-1860 | filing and indexing one answer keeps the three tables in agreement |
| AlgInvariant.AnsweredInv | intra/dnsx/alg.go:1578-1711 | a whole answered query keeps the three tables in agreement |
| AlgInvariant.StepInv | intra/dnsx/alg.go:1148-1195 | so do stops of transports, clears and the passing of time |
| AlgInvariant.TablesAgree | intra/dnsx/alg.go:1578-1898 | in every reachable state `alg` and `nat` are in bijection, keys hold addresses of their own family's block, and `ptr` leads back to every answer that shows an address, without duplicates or strays |
| AlgUndo.OwnerOf | intra/dnsx/alg.go:2178-2268 | an alg address belongs to exactly one domain and family |
| AlgUndo.HeldWasRegistered | intra/dnsx/alg.go:1765-1865 | whatever an answer holds, live or past, was registered for its domain and family since the last clear |
| AlgUndo.HoldsOn | intra/dnsx/alg.go:591-688 | what is held for a transport at some point of a run is still held later in it, until its lifetime ends |
| AlgUndo.UndoSound | intra/dnsx/alg.go:2178-2268 | every real address taken from an alg address was registered for its one domain and family; only the unspecified block markers come on top, and only when no transport is named |
| AlgUndo.StaysFiled | intra/dnsx/alg.go:1765-1865 | a registered real address stays filed for max(8s, ttl), however many answers are merged on top, unless its transport is stopped or the gateway cleared |
| AlgUndo.UndoComplete | intra/dnsx/alg.go:2178-2294 | until then it is among the addresses found for it, wanted stale or not, for no transports or any list naming its own |
| AlgUndo.XOfReal | intra/dnsx/alg.go:2178-2268 | a real address that an answer shows as live is found again through the reverse index, and not taken for an alg address |
| AlgGatewayCell.DnsGateway.Index | intra/dnsx/alg.go:1846-1858 | the loop files the answer once under every address it shows |
| AlgGatewayCell.DnsGateway.Unindex | intra/dnsx/alg.go:2491-2502 | the loop removes the answer from every address and drops lists that run empty |
| AlgGatewayCell.DnsGateway.TakeAddr | intra/dnsx/alg.go:1868-1984 | the hundred-step probe is the allocator of the model, for both families |
| AlgGatewayCell.DnsGateway.RegisterReply | intra/dnsx/alg.go:1765-1865 | registering in place is the model's registration |
| AlgGatewayCell.DnsGateway.Query | intra/dnsx/alg.go:1578-1711 | the locked section of a query is the model's step and keeps the tables in agreement |
| AlgGatewayCell.DnsGateway.Stop | intra/dnsx/alg.go:1185-1195 | every translation is forgotten and the tables agree again |
| UdpOwnership.BufferOwnership | intra/udpmux.go:202-267 | in every interleaving a buffer is in exactly one place until its recycler has run, and the recycler runs at most once |
| UdpOwnership.BytesConserved | intra/udpmux.go:562-586 | a slice with the reader, in a channel or with a Read starts exactly where the bytes handed out end, so handed-out, held and dropped bytes make up the packet |
| UdpOwnership.ReadsInOrder | intra/udpmux.go:376-401 | each io of a packet returns its next bytes, as many as fit, and touches no other buffer |
| UdpOwnership.IoHandsNext | intra/udpmux.go:562-586 | what one io does to the buffer it serves |
| UdpOwnership.UnrouteRemovesOwn | intra/udpmux.go:321-328 | until the muxer stops, unrouting a closed connection removes its own route and never a newer connection's |
| UdpOwnership.StepRoutes | intra/udpmux.go:275-319 | every step keeps each route leading to a connection for that very remote, and the routed connections the watched ones |
| UdpOwnership.StepOwned | intra/udpmux.go:202-267 | every step of readers, reads, closes and stops keeps the ownership invariant |
| UdpOwnership.EveryRunKeeps | intra/udpmux.go:147-328 | both invariants hold after every run |
| UdpCell.Muxer.Deliver | intra/udpmux.go:251-265 | the select hands the packet over or recycles it |
| UdpCell.Muxer.Copy | intra/udpmux.go:562-586 | io in place is the model's step, bytes and rest included |
| UdpCell.Muxer.CloseConn | intra/udpmux.go:477-515 | closing signals and drains both channels, in any order, recycling each slice once, and keeps ownership and routes in order |
| UdpCell.Muxer.UnrouteConn | intra/udpmux.go:321-328 | unrouting in place is the model's step |
| UdpAssoc.EveryRunKeeps | intra/udpmux.go:615-698 | in every interleaving the table holds exactly the muxers that have not called back, and each dialled connection is closed or owned by one call or one muxer |
| UdpAssoc.GotIsTabled | intra/udpmux.go:671-680 | a successful associate got the tabled muxer, with the very pid and uid it asked for |
| UdpAssoc.CallsShareMuxer | intra/udpmux.go:615-669 | concurrent calls for one proxy and source end up with one muxer, whatever their destinations |
| UdpAssoc.StaysTabled | intra/udpmux.go:691-698 | an association stays until its own muxer calls back |
| UdpAssoc.DissociateRemovesOwn | intra/udpmux.go:691-698 | a muxer's callback removes its own entry and no other |
| UdpAssocCell.MuxTable.Begin | intra/udpmux.go:615-641 | the first look-up in place is the model's step |
| UdpAssocCell.MuxTable.Finish | intra/udpmux.go:649-680 | the second look-up in place is the model's step: the loser of a race closes what it dialled |
| UdpAssocCell.MuxTable.Dissociate | intra/udpmux.go:691-698 | dissociation in place is the model's step |
| Retrier.EveryRunKeeps | intra/dialers/retrier.go:473-558 | in every interleaving of Write and Read: before completion the connection carries the tee unless a write on it failed, after it the whole tee and then the later writes; retries stay within the maximum, completion is signalled once, and dialerID names the dialer of the live connection |
| Retrier.IntactCarries | intra/dialers/retrier.go:604-686 | a connection that lost nothing carries the stream, once and in order |
| Retrier.RetryLoopEffect | intra/dialers/retrier.go:425-461 | the retry loop changes only the connection and the counters, never exceeds the maximum, and ends with the tee replayed or a write error noted |
| Retrier.DialedEffect | intra/dialers/retrier.go:372-395 | a fresh connection is empty and made by the dialer that dialerID names |
| Retrier.PromptAck | intra/dialers/retrier.go:560-590 | bytes acknowledged at once come next in the stream, and in the log of a connection that lost nothing |
| Retrier.WaitedAck | intra/dialers/retrier.go:639-667 | a waited-for acknowledgement is true exactly when a retry took place |
| Retrier.RetriedIff | intra/dialers/retrier.go:506-537 | a retry has taken place exactly when the first Read failed and retries are enabled, in every run |
| Retrier.WaitedAckIff | intra/dialers/retrier.go:639-667 | a waited-for acknowledgement is true if and only if the first Read failed and retries are enabled, in every run |
| Retrier.LostIff | intra/dialers/retrier.go:560-590 | until a Read has ended, the connection has lost nothing exactly when every Write got through |
| Retrier.LoopEndsAt | intra/dialers/retrier.go:514-537 | with one dialer or several, the last attempt and whether it connects can be told from the attempts: the first that connects and works, or the maximum |
| Retrier.RetryDelivers | intra/dialers/retrier.go:425-461 | after a retry, bytes of the stream are in the connection kept if and only if the last attempt, told from the attempts, connects and takes them |
| Retrier.IntactIff | intra/dialers/retrier.go:506-548 | at completion the connection carries the whole stream if and only if the last attempt of a retry, told from the attempts, connects and takes it all, or without a retry every Write had got through |
| Retrier.CleanReadIff | intra/dialers/retrier.go:506-548 | a first Read that ends without error leaves the whole stream in the connection if and only if it took a retry or every Write before had got through |
| Retrier.AckedIsDelivered | intra/dialers/retrier.go:604-686 | when that is so, every acknowledged Write, before or after, has its bytes in the final connection's log at their place |
| Retrier.PromptPlaceIff | intra/dialers/retrier.go:604-628 | without a retry, bytes acknowledged at once are at their place in the final log if and only if every Write before had got through |
| Retrier.FinalConnStays | intra/dialers/retrier.go:473-558 | after completion the connection is final and its log only grows |
| Retrier.AckedButLost | intra/dialers/retrier.go:626-667 | runs, with retries enabled or not, in which an acknowledged byte reached no connection |
| Retrier.AckedThenLost | intra/dialers/retrier.go:425-461 | a run in which the only retry loses a byte that had been acknowledged at once |
| RetrierCell.RetryingConn.Dial | intra/dialers/retrier.go:324-395 | the dialer loop is the model's redial |
| RetrierCell.RetryingConn.RetryWriteRead | intra/dialers/retrier.go:425-461 | redial, replay and read are the model's retry |
| RetrierCell.RetryingConn.RetryAsNeeded | intra/dialers/retrier.go:514-537 | the loop of Read is the model's retry loop |
| RetrierCell.RetryingConn.FinishRead | intra/dialers/retrier.go:506-548 | the first Read completes once and drops the tee |
| RetrierCell.RetryingConn.StartWrite | intra/dialers/retrier.go:560-590 | the start of Write is the model's step |
| RetrierCell.RetryingConn.EndWrite | intra/dialers/retrier.go:645-667 | the end of a waiting Write is the model's step |
| TlsRecords.ReadBody | intra/dialers/op.go:134-153 | bytes inside a record are delivered under its header, and the record ends when they run out (section 5.1 of RFC 8446) |
| TlsRecords.ShorterDiffers | intra/dialers/op.go:134-153 | leaving bytes off a stream always changes what it means |
| TlsSplit.HelloIsRecord | intra/dialers/op.go:45-69 | a hello is taken for a record of n bytes exactly when it starts with the header such a record has |
| TlsSplit.FragmentsMean | intra/dialers/op.go:94-187 | for every hello, draw and later bytes, the two records mean what the one record meant, if the scratch region holds the second |
| TlsSplit.MeaningKeptIff | intra/dialers/op.go:127-187 | and only if it does |
| TlsSplit.FragmentHeaders | intra/dialers/op.go:159-175 | both fragments are non-empty, keep type and version, and their lengths add up |
| TlsSplit.SentMeans | intra/dialers/op.go:71-206 | whichever way the hello is split, the peer reads the same |
| TlsSplitCell.FillFirst | intra/dialers/op.go:159-163 | the scratch buffer holds the first record |
| TlsSplitCell.FillSecond | intra/dialers/op.go:169-175 | overwriting the buffer leaves exactly the second record |
| TlsSplitCell.WriteTcpSplit | intra/dialers/op.go:71-90 | the connection gets a prefix of the hello as long as the count reported, all of it without an error |
| TlsSplitCell.WriteSplit | intra/dialers/op.go:127-187 | without an error both records are sent, and the count is the hello's length if and only if the region was large enough |
| TlsSplitCell.WriteTcpOrTlsSplit | intra/dialers/op.go:94-187 | the whole writer sends what the model says, and reports the hello's length |
| SlabPool.SlabIsFloor | intra/core/buf.go:106-125 | a size is served by the largest slab not above it, the smallest slab below 4096, none above 512 KiB |
| SlabPool.RecycleKeepsIff | intra/core/buf.go:71-103 | recycling keeps every pool's regions at least slab-sized if and only if the region has 2048 bytes |
| SlabPool.EveryRunStocked | intra/core/buf.go:45-135 | in every run each pool only holds regions at least as large as its slab |
| SlabPool.ServedFullyIff | intra/core/buf.go:44-53 | a request gets its size after every run if and only if the size is at most 2048, a slab size, or above 512 KiB |
| SlabPool.Allocator.AllocRegion | intra/core/buf.go:45-53 | a region comes from its pool or is new, and is never below the slab |
| SlabPool.Allocator.Recycle | intra/core/buf.go:71-86 | a region of at most 512 KiB goes back to the pool of its capacity |
| TlsRegion.SafeInEveryRunIff | intra/dialers/op.go:127-187 | fragmentation is safe after every run of the allocator if and only if the slab covers the second record |
| TlsRegion.SafeWhenExact | intra/dialers/op.go:127-129 | which holds for every hello of at most 2048 bytes |
| TlsRegion.LongHelloIsCut | intra/dialers/op.go:127-187 | a 3000-byte hello that loses its tail |
| Sorting.SortCanonical | intra/core/p2est.go:233-234 | sorting gives the same list whatever order the samples came in |
| Sorting.SortPrefix | intra/core/p2est.go:233-234 | the prefix is sorted in place and the rest untouched |
| P2Quantile.EveryStreamRanged | intra/core/p2est.go:99-191 | for every stream of at least u samples: positions from 0 strictly increasing to count-1, heights sorted from the least sample to the greatest; no estimate divides by zero |
| P2Quantile.DesiredIsDirect | intra/core/p2est.go:118-175 | scaling by count/(count-1) at every sample equals the direct formula density * (count-1) |
| P2Quantile.EveryStreamOnTarget | intra/core/p2est.go:118-175 | the middle marker aims at p * (count-1) and the end markers are exactly where they should be |
| P2Quantile.CellHolds | intra/core/p2est.go:145-160 | a sample is counted into the cell whose two heights surround it |
| P2Quantile.ParabolaInterpolates | intra/core/p2est.go:194-205 | the parabolic estimate is the curve through a marker and its two neighbours |
| P2Quantile.LinearBetween | intra/core/p2est.go:208-215 | the linear estimate stays between the neighbouring heights |
| P2Quantile.PickedWithin | intra/core/p2est.go:218-237 | the height reported lies between the least and the greatest sample |
| P2QuantileCell.Locate | intra/core/p2est.go:145-160 | finds the cell and widens the extremes in place |
| P2QuantileCell.FillLower | intra/core/p2est.go:118-124 | the first loop spreads p over the markers up to the middle |
| P2QuantileCell.FillUpper | intra/core/p2est.go:126-140 | the second loop spreads the rest over the markers above it |
| P2QuantileCell.Estimator.AdjustAt | intra/core/p2est.go:177-190 | one marker is moved in place as the model moves it |
| P2QuantileCell.Estimator.Add | intra/core/p2est.go:99-191 | from the u-th sample on the arrays are the model's markers of the whole stream, whatever was read in between |
| P2QuantileCell.Estimator.Get | intra/core/p2est.go:218-237 | reports the picked height in milliseconds; sorting the few samples in place changes no later state |
| StampBits.CountIsRank | intra/dnsx/rethinkdns.go:691-693 | the two table look-ups count the set bits of a word |
| StampBits.MaskedCount | intra/dnsx/rethinkdns.go:596-603 | the masked count is the number of groups before the wanted one |
| StampBits.SetBit | intra/dnsx/rethinkdns.go:589-616 | or-ing one bit sets it and changes no other |
| StampBits.MaskIsShift | intra/dnsx/rethinkdns.go:548-569 | the reader's shifting mask is the writer's shifted bit |
| Stamp.PackedStamps | intra/dnsx/rethinkdns.go:581-627 | adding an id keeps the canonical form: header bits are the groups present, one word per group at its rank, bits are the members |
| Stamp.Canonical | intra/dnsx/rethinkdns.go:575-630 | the packing is determined by the set of ids |
| Stamp.RoundTrip | intra/dnsx/rethinkdns.go:508-572 | reading the packing of a set gives its members below the number of loaded lists, each once, ascending |
| StampCodec.FlagToStamp | intra/dnsx/rethinkdns.go:575-630 | the packed words of a list of ids below 256 are those of the set listed |
| StampCodec.StampOfSet | intra/dnsx/rethinkdns.go:575-630 | equal sets have equal stamps, word for word |
| StampCodec.ReadTags | intra/dnsx/rethinkdns.go:519-531 | the header scan with its early exit finds exactly the set positions in order |
| StampCodec.ReadWord | intra/dnsx/rethinkdns.go:544-569 | the ids of a word, although an id out of range leaves the mask behind |
| StampCodec.FlagsToInfo | intra/dnsx/rethinkdns.go:508-572 | unpacking on words is the model's, mismatched headers refused |
| StampText.WordsOfBytes | intra/dnsx/rethinkdns.go:673-688 | words survive the little-endian byte form |
| StampText.BytesOfWords | intra/dnsx/rethinkdns.go:673-688 | and so does every even byte string |
| StampText.Uint16ToByte | intra/dnsx/rethinkdns.go:682-688 | the loop produces that byte form |
| StampText.ByteToUint16 | intra/dnsx/rethinkdns.go:673-680 | the loop reads it back, dropping an odd byte |
| StampText.TextRoundTrip | intra/dnsx/rethinkdns.go:276-297 | encoded text is read back under its own encoding, although base64url may contain a hyphen |
| StampText.LoweredBase32 | intra/dnsx/rethinkdns.go:632-645 | base32 text survives being lowered and then holds neither separator |
| StampText.StampRoundTrip | intra/dnsx/rethinkdns.go:463-506 | from ids to text and back in either encoding: the distinct ids below n, ascending |
| StampText.PastEndIff | intra/dnsx/rethinkdns.go:463-512 | for any text, reading runs past the end if and only if the payload of version 1 decodes to fewer than two bytes, or that of version 0 to none |
| StampText.EmptyStampPastEnd | intra/dnsx/rethinkdns.go:508-512 | the text of no words at all runs past the end in either encoding |
| StampText.StampHasHeader | intra/dnsx/rethinkdns.go:575-630 | the text of a packed stamp never does |
| ConnMap.TrackKeepsIff | intra/core/connmap.go:129-158 | Track keeps the indexes exact if and only if it is respectful |
| ConnMap.EveryRunKeeps | intra/core/connmap.go:129-341 | over every respectful run both indexes are exact inverse images without repeats or empty lists, the size is right, and every connection tracked is still tracked or was closed, once |
| ConnMap.DelInverse | intra/core/connmap.go:208-254 | deleting an id from its own key keeps an index exact |
| ConnMap.UntrackUser | intra/core/connmap.go:181-206 | untracking a user that is no connection id removes all of the user's connections and no other |
| ConnMap.UntrackProcess | intra/core/connmap.go:181-206 | the same for a process that is neither |
| ConnMap.GetAllOfUser | intra/core/connmap.go:290-309 | looking a user up finds exactly that user's connections |
| ConnMap.StaleAfterRetrack | intra/core/connmap.go:129-144 | a connection id tracked again for another user stays in that user's list after it is gone |
| ConnMap.BlankWipesUser | intra/core/connmap.go:208-217 | untracking an empty connection id wipes its user's list |
| ConnMap.RetrackExample | intra/core/connmap.go:129-144 | a map in order that one Track leaves with a stale entry |
| ConnMap.DirectEnds | intra/core/connmap.go:181-206 | the mutual recursion ends and does what it should when the list it goes by holds tracked ids only, each once |
| ConnMap.TrackedEnds | intra/core/connmap.go:129-206 | right after any Track on exact indexes, untracking ends |
| ConnMap.RetrackStale | intra/core/connmap.go:129-206 | an id tracked again for another user or process, and untracked, is left behind last in their lists, and the indexes are exact otherwise |
| ConnMap.StaleEndsIff | intra/core/connmap.go:181-206 | with one id left behind, untracking a name ends if and only if its list does not have that id, or that id's own list does not |
| ConnMap.RetrackEndsIff | intra/core/connmap.go:129-206 | the same condition is exact after any Track on exact indexes and the untracking of its id |
| ConnMap.EndlessUntrack | intra/core/connmap.go:181-206 | it never ends for a name that is not tracked and heads its own list |
| ConnMap.EndlessAfterRetrack | intra/core/connmap.go:129-206 | on exact indexes, for a connection id that is tracked again for a user of its own name and then untracked |
| ConnMap.EndlessExample | intra/core/connmap.go:129-206 | a map of one connection for which this happens |
| ConnMapCell.DeleteFrom | intra/core/connmap.go:218-228 | the in-place delete inside its own loop removes exactly the one entry |
| ConnMapCell.ConnTable.AddLocked | intra/core/connmap.go:129-158 | tracking in place is the model's step |
| ConnMapCell.ConnTable.DelLocked | intra/core/connmap.go:181-206 | deletion by mutual recursion terminates whenever the list it goes by holds tracked ids and no index lists an id twice, is the model's step, and reports what it closed |
| ConnMapCell.ConnTable.UntrackIndexed | intra/core/connmap.go:263-277 | a batch from an index drops every listed id |
| ConnMapCell.ConnTable.UntrackBatch | intra/core/connmap.go:256-277 | a batch is its ids one at a time |
| ConnMapCell.ConnTable.Clear | intra/core/connmap.go:324-341 | everything is closed and forgotten |
| ExpMap.ReapingInvisible | intra/core/expiringmap.go:84-256 | from any state and on a steady clock, with expired keys deleted at arbitrary moments, callers are told the same hit counts, replacements, freshness and fresh values as without reaping |
| ExpMap.AnyTwoReapers | intra/core/expiringmap.go:240-288 | two reapers that come by at different moments are told apart by no one |
| ExpMap.InvisibleIff | intra/core/expiringmap.go:84-256 | on a clock that never runs back, no operations at its moments give the reaper away if and only if it strictly increases from the second moment on |
| ExpMap.RepeatVisible | intra/core/expiringmap.go:84-108 | any later moment that comes twice can give it away |
| ExpMap.StandingClockTells | intra/core/expiringmap.go:84-108 | for one, reaped at 4 and read twice at 5 |
| ExpMapCell.Expiring.Get | intra/core/expiringmap.go:84-108 | reading in place is the model's step and answer |
| ExpMapCell.Expiring.Upsert | intra/core/expiringmap.go:147-175 | writing in place is the model's step and answer |
| ExpMapCell.Expiring.Look | intra/core/expiringmap.go:177-205 | a value is fresh exactly when the model says so |
| ExpMapCell.Expiring.Purge | intra/core/expiringmap.go:240-256 | deleting while looping removes exactly the expired keys |
| Sieve.StepFlat | intra/core/expiringsieve.go:120-240 | every sieve operation does to a flat map keyed by pairs what its counterpart does |
| Sieve.NeverHusks | intra/core/expiringsieve.go:159-240 | no empty inner map lingers after any run |
| Sieve.SieveAnswersFlat | intra/core/expiringsieve.go:120-240 | the sieve, reaped and reclaimed at any moments, answers like one flat expiring map that is never reaped |
| ExpMapCell.Sieve2K.Put | intra/core/expiringsieve.go:133-156 | storing in place is the model's step and answer |
| ExpMapCell.Sieve2K.Del | intra/core/expiringsieve.go:159-186 | deleting and reclaiming in place is the model's step |
| Barrier.SingleFlight | intra/core/barrier.go:195-225 | while the barrier is open, executions for one key start more than the shorter lifetime apart |
| Barrier.EveryRunSpaced | intra/core/barrier.go:164-225 | an entry is in the table or its shortest life is over, in every run |
| Barrier.OneFlightIff | intra/core/barrier.go:236-278 | in every run of an open barrier whose works take at most d, one execution per key is in flight, if and only if d is less than the owner's timeout, or equals it and failures live no shorter |
| Barrier.JoinedInTime | intra/core/barrier.go:195-250 | a call that comes before an execution in flight is late finds it in the table |
| Barrier.TimeoutDoubles | intra/core/barrier.go:264-273 | a work that outlasts its timeout, and a second one for the same key |
| Barrier.EveryRunCompletes | intra/core/barrier.go:240-278 | every entry has one owner and is completed at most once |
| Barrier.DoneIsFinal | intra/core/barrier.go:258-278 | a completed entry never changes again |
| Barrier.SharedSeesOwner | intra/core/barrier.go:240-250 | a caller is only back once its entry is complete, with exactly the owner's result, for good |
| BarrierCell.Flights.GetLocked | intra/core/barrier.go:195-214 | finds a live entry and drops an outlived one |
| BarrierCell.Flights.Enter | intra/core/barrier.go:240-252 | the locked region of Do is the model's step |
| BarrierCell.Flights.WorkEnds | intra/core/barrier.go:259-262 | the work sends its result, even after a timeout, and no entry changes |
| BarrierCell.Flights.Complete | intra/core/barrier.go:264-277 | the owner's select, once the work or the timeout is ready, is the model's step |
| BarrierCell.Flights.Wake | intra/core/barrier.go:243-250 | a sharer returns the completed entry |
| AnswerCache.BoundedLife | intra/dnsx/cacher.go:272-294 | over any run an entry is bumped at most ten times and outlives its put expiry by at most 45 half-lives |
| AnswerCache.BoundIsTight | intra/dnsx/cacher.go:282-290 | a bound that ten reads reach |
| AnswerCache.PutIsFresh | intra/dnsx/cacher.go:298-361 | a stored answer is fresh for its own lifetime or the cache's, whichever is longer |
| AnswerCache.PushedIff | intra/dnsx/cacher.go:282-290 | a read pushes an expiry back, by the number of bumps in half-lives, if and only if the entry has been bumped before and may be again, and its expiry is further away than that |
| AnswerCache.FarIsPushed | intra/dnsx/cacher.go:282-290 | an expiry that is pushed back and one that is not |
| AnswerCache.ExpiryGrows | intra/dnsx/cacher.go:272-294 | until the next put an entry keeps its answer and its expiry never comes closer |
| AnswerCache.ExpiredNeverFresh | intra/dnsx/cacher.go:272-294 | once expired, an entry is never reported fresh again without a new put |
| AnswerCache.ScrubSpares | intra/dnsx/cacher.go:242-270 | a scrub deletes only expired entries, of a bucket at least three quarters full |
| AnswerCacheCell.Bucket.FreshCopy | intra/dnsx/cacher.go:272-294 | reading in place is the model's step and verdict |
| AnswerCacheCell.Bucket.PutAnswer | intra/dnsx/cacher.go:298-361 | storing in place is the model's step |
| AnswerCacheCell.Bucket.ScrubCache | intra/dnsx/cacher.go:242-270 | the scrub visits every key or one more than its limit, at most every five minutes |
| DnscryptPad.UnpadPad | intra/dnscrypt/crypto.go:45-65 | unpadding undoes padding for every packet and size, whatever the packet ends in |
| DnscryptPad.UnpadAccepts | intra/dnscrypt/crypto.go:53-65 | unpadding gives a packet if and only if the input is that packet, the delimiter and zeros |
| DnscryptPad.Pad | intra/dnscrypt/crypto.go:45-51 | the loop pads to the larger of the packet with its delimiter and the wanted size |
| DnscryptPad.Unpad | intra/dnscrypt/crypto.go:53-65 | the walk from the end finds the delimiter or refuses |
| DnscryptPad.LeastMultiple | intra/dnscrypt/crypto.go:102-111 | without a relay the size is the least multiple of 64 above the randomised size, or the cap |
| DnscryptPad.RefusedIff | intra/dnscrypt/crypto.go:97-130 | a query is refused exactly when it does not fit under the cap, and otherwise has exactly the padded length on the wire |

## Left out

- Sockets, dialing, TLS handshakes, HTTP, the network stack, settings and logging: connections are byte logs, and what the outside decides is part of an event.
- Cryptographic primitives, DNS message internals, the trie package and the text codecs of the standard library: hashes, NAT64 translation and codecs are parameters, the trie package's mask and byte tables are written out as shifts and set-bit counts, and an answer is its addresses, names and lifetime.
- Go's `int64` and `uint16` overflow of times, sizes and positions, except the `uint32` hit counter, and floating-point rounding in the estimator, whose arithmetic is over exact reals.
- The gateway's order of addresses within a result, the sizes a merge returns, and the readings of `PTR`, `RESOLV` and `RDNSBL`: results of X are sets.
- The gateway's counter-based address generators, which are switched off in the program.
- The gateway's pairing of transport and app names in one key: the model matches by prefix and suffix as the code does, and claims nothing per app.
- UDP `reset`, read timeouts, and vending a connection to the network stack.
- The retrier's choice of split strategy, its timeouts, half-closes, and the copy loops `WriteTo` and `ReadFrom`.
- Retrier.AckedIsDelivered: speaks of writes that take all bytes or report an error.
- Pools giving up regions to the garbage collector: a region that vanishes is one that is never handed out.
- TlsSplitCell.WriteTcpOrTlsSplit: asks for a scratch buffer of at least 64 bytes, which every region from the allocator has.
- StampCodec.FlagToStamp: asks for ids below 256, the range sixteen header bits can name.
- The text codecs of version 0 stamps, URL unescaping and runes, which are parameters, and the names of the blocklists behind the ids.
- ConnMap.UntrackUser: asks that the name is not also a tracked connection id, since a connection id is what the program looks for first; the same holds for ConnMap.UntrackProcess and user names, and for ConnMap.GetAllOfUser and process names.
- The connection map's timestamps and counters.
- Context cancellation in the expiring map and the sieve; racing callers of the sieve, whose operations run one at a time here.
- Whether a deleted key was there does depend on reaping, so the result of `Delete` is not among the answers that ExpMap.ReapingInvisible compares.
- The barrier's other entry points, which differ from `Do` in how the work gets its argument, and its statistics.
- The cache's transport around the buckets: key making, hashing into buckets, staleness on errors and request coalescing.
