# sACN in Dafny

A model of `sacn-rust`, an implementation of ANSI E1.31-2018 (streaming ACN), with proofs. It covers the three parts
that make the protocol work and the way they fit together:

- the **packet codec**: what a packet's bytes are, how they are packed in place and how they are parsed;
- the **receiver**: sequence numbers with timeouts and a source limit, data held back for synchronisation, merging,
  paged discovery, stream termination;
- the **sender**: the universe registry, splitting data over universes, counters, discovery pages, termination;
- the **way through**: from a sender's calls over its datagrams to what a receiver hands out.

State that the program updates in place is a class here (`SequenceTable`, `SequenceNumbering`, `SacnReceiver`,
`SacnSource`) or an `array<byte>` (`PackBuffer`). Each method is tied to a function of the old state, and the
properties are proved about those functions: per step, over runs, and end to end. Every call takes the time `now` in
milliseconds, and a round of receiving two: when it sweeps, and when, after the wait on the socket, a datagram comes. Hash map order is arbitrary: loops over maps pick any key, and what they may report is described as a
set of outcomes (`Sequencing.AllowedPick`). A socket is a script of answers, so every pattern of failing sends is covered.

| file | what it holds |
|---|---|
| `Types.dfy` | machine integers, constants, errors, the ascending universe list |
| `Packet.dfy`, `Codec.dfy`, `Reading.dfy`, `PackBuffer.dfy` | packets and their bytes; round trips; what a datagram says, byte for byte; packing into buffers and the parsers' loops |
| `Sequencing.dfy`, `SequenceRuns.dfy` | the sequence tables; what they accept over runs |
| `Merge.dfy`, `Waiting.dfy` | the two merge functions; the buffer that waits for synchronisation |
| `Discovery.dfy`, `Paging.dfy` | reassembly of pages; the pages of a registry |
| `Receiver.dfy`, `SacnReceiver.dfy`, `ReceiverRuns.dfy` | the receiver as a state machine, as an object, over runs |
| `Sender.dfy`, `SacnSource.dfy`, `SenderRuns.dfy`, `SenderLog.dfy`, `WireValidity.dfy` | the sender likewise, its registry and its log, and what it puts on the wire |
| `Arrivals.dfy`, `Delivery.dfy`, `LossyDelivery.dfy`, `SyncDelivery.dfy`, `DiscoveryDelivery.dfy` | sender, wire and receiver together: delivery in order, delivery with losses, synchronised chunks, adverts |
| `Counterexamples.dfy` | inputs and runs at which the code does not do what one would expect |

## What the code does that its comments do not say

The model follows the code. Where that differs from the comments, or where a property one would expect fails, one lemma
says exactly when it holds and another, in most cases, gives an input or a run at which it does not:

- A round trip fails for names that fill their 64-byte field, which the sender accepts, and for the discovery universe
  64214 in data or synchronisation packets, which it may register: `Codec.RoundTripIffValid`, `Codec.LongNameFails`,
  `Codec.IllegalUniverseFails`, `Codec.IllegalSyncAddressFails`; at `Counterexamples.SixtyFourByteName` and, after a
  run of the sender, `Counterexamples.DataOnDiscoveryUniverse`.
- A name of more than 64 bytes, which a packet may hold although the sender refuses it, packs as its first 64; if it is
  longer than the rest of the packet it writes over the bytes behind the packet, and if it is longer than the buffer
  packing aborts: `PackBuffer.Pack`, `PackBuffer.PackAlloc`.
- Parsing aborts (an out-of-bounds slice) on a root layer, a data framing layer or a DMP layer that is shorter than its
  fixed fields while the fields that are there are right: `Codec.PanicsIff`. On exactly those datagrams the receiver
  crashes: `Receiver.CrashesIff`; at the 22 bytes of `Receiver.ShortDatagramCrashes`.
- A termination packet that the socket refuses loses its universe's counter: `SenderRuns.FailedTerminationLosesCounter`;
  in a run at `Counterexamples.CounterLost`.
- An announcing sweep stops at the first source with nothing expired, so with two sources silence does not mean that
  nothing has expired: `Sequencing.SilentAnnouncingSweep`; at `Sequencing.SilentSweepMissesExpired`.
- A receiver that announces timeouts checks for them again once it has read a packet, and what it reports it reports in
  the packet's stead: the packet is lost (`Receiver.LostPacket`), as may happen exactly when something in its table has
  expired and the sweeps before were silent: `Receiver.LosesPacketIff`, `Receiver.RoundLosesPacketIff`; at
  `Counterexamples.ReadAndLost` and, for a source on its own, `Counterexamples.OwnUniverseCostsPacket`.
- Stale waiting data goes when a round begins, not when a packet comes, so that a packet may be merged into one that has
  expired and be lost with it: `Counterexamples.StalePacketWins`.
- Forgetting a stream skips the synchronisation table when the data table does not know the stream, although the
  comment on `remove_seq_numbers` says that it applies to both: `Sequencing.RemovesBothIff`; in a run at
  `Counterexamples.SyncNumberStays`.
- A failed merge loses both packets: under the HTP merge exactly if the two do not fit together,
  `Waiting.HtpStoreLosesBothIff`. Merging is asked for whatever the synchronisation addresses, and the default merge
  never fails, although its comment says that it does: `Waiting.DefaultStoreNeverFails`; both at
  `Counterexamples.MergeAcrossAddresses`.
- A second copy of any page but the last keeps a source from ever being complete, until it expires or the receiver is
  reset: `Discovery.CompleteIffOneOfEach`, `Discovery.DuplicateBlocksForGood`; over receiver runs
  `DiscoveryDelivery.DuplicateBlocksRuns`.
- `update_discovered_srcs` replaces the source with the same identifier, not, as its comment says, the same name:
  `SacnReceiver.SacnReceiver.UpdateDiscoveredSrcs`.

## Model

| member | source | states |
|---|---|---|
| Types.UniverseLimits | src/packet.rs:371-381 | a universe is legal iff it is 1 to 63999, or 64214 for discovery |
| Types.InsertKeepsOrder | src/source.rs:633-646 | inserting keeps the list strictly ascending and adds just that universe, once |
| Types.RemoveKeepsOrder | src/source.rs:654-668 | removing keeps the order and drops just that universe |
| Codec.NameRoundTrip | src/packet.rs:397-413 | a name of at most 63 bytes of UTF-8 without NUL comes back from its padded field |
| Codec.DmpRoundTrip | src/packet.rs:953-1007 | a DMP layer parses back to its values |
| Codec.DataRoundTrip | src/packet.rs:756-871 | a data framing layer with valid fields parses back to itself |
| Codec.SyncRoundTrip | src/packet.rs:1104-1188 | a synchronisation framing layer parses back to itself |
| Codec.DiscoveryLayerRoundTrip | src/packet.rs:1336-1414 | a page with an ascending list of at most 512 universes parses back to itself |
| Codec.DiscoveryRoundTrip | src/packet.rs:1225-1275 | a discovery framing layer parses back to itself |
| Codec.RootRoundTrip | src/packet.rs:595-689 | a root layer of any kind of packet parses back, whatever follows it |
| Codec.RoundTrip | src/packet.rs:426-499 | for every valid packet and every suffix, parsing the packed bytes and the suffix returns the packet |
| Codec.ParsedIsValid | src/packet.rs:756-821 | whatever parses satisfies every range that packing and parsing check |
| Codec.RoundTripIffValid | src/packet.rs:397-413 | among all packets that pack, the round trip holds for exactly those with valid fields |
| Codec.LongNameFails | src/packet.rs:397-413 | a packet whose name has 64 bytes or more without a NUL among the first 64 packs, and parsing says that the name is not terminated |
| Codec.IllegalUniverseFails | src/packet.rs:802-806 | a data packet, valid otherwise, for a universe out of range packs, and parsing names that universe |
| Codec.IllegalSyncAddressFails | src/packet.rs:1129-1135 | a synchronisation packet for an address out of range packs, and parsing names that address |
| Codec.ParseNormalises | src/packet.rs:426-461 | what parses can be packed again and reparses to the same packet, with any bytes behind it |
| Codec.EncodeInjective | src/packet.rs:479-499 | two valid packets with the same bytes are the same packet |
| Codec.DataLayout | src/packet.rs:823-871 | every field of a packed data packet stands at the offset table 4-1 of ANSI E1.31-2018 gives it |
| Codec.SyncLayout | src/packet.rs:1149-1188 | the same for a synchronisation packet and table 4-2 |
| Codec.DiscoveryLayout | src/packet.rs:1254-1275 | the same for a discovery packet and table 4-3, down to each universe of the list |
| Codec.PackedFitsReceiveBuffer | src/receive.rs:65 | every packet that packs fits the 1144-byte receive buffer and its lengths fit twelve bits |
| Codec.DmpPanicsIff | src/packet.rs:953-1007 | parsing a DMP layer panics iff its head and the fixed fields that lie within it are right and it is shorter than ten bytes |
| Codec.DataPanicsIff | src/packet.rs:756-821 | parsing a data framing layer panics iff nothing is wrong with the fields that are there and it, or the DMP layer in it, is too short for the others |
| Codec.RootPanicsIff | src/packet.rs:595-656 | parsing a root layer panics iff its head is right and its length is under 22, or a data packet's layers in it are too short; synchronisation and discovery layers never make it panic |
| Codec.PanicsIff | src/packet.rs:426-461 | parsing a buffer panics iff it starts with the preamble and such a root layer follows |
| Reading.Utf8Iff | src/packet.rs:397-413 | bytes count as UTF-8 iff they are the encoding of some characters, by the encoding of RFC 3629 |
| Reading.NameParsesIff | src/packet.rs:397-413 | a field parses to a name iff it holds that name and a NUL behind it, whatever follows; each error iff what it says |
| Reading.DmpParsesIff | src/packet.rs:953-1007 | a DMP layer parses to values iff its bytes say so, field by field |
| Reading.DataParsesIff | src/packet.rs:756-821 | a data framing layer parses to a packet iff each field stands at its byte, in range; reserved bits and later bytes do not matter |
| Reading.SyncParsesIff | src/packet.rs:1104-1147 | the same of a synchronisation layer; its reserved bytes do not matter |
| Reading.PageParsesIff | src/packet.rs:1336-1372 | the same of a page of universes |
| Reading.DiscoveryParsesIff | src/packet.rs:1225-1252 | the same of a discovery framing layer |
| Reading.RootParsesIff | src/packet.rs:595-656 | the same of a root layer with whatever is in it |
| Reading.ParsesIff | src/packet.rs:426-461 | a buffer parses to a packet iff it starts with the preamble and says that packet behind it |
| Reading.HeadErrors | src/packet.rs:595-604 | every layer is refused for its head first: too short, the wrong flags, a length beyond its bytes |
| Reading.VectorErrors | src/packet.rs:606-610 | and then for its vector, which the error names |
| Reading.DmpErrors | src/packet.rs:953-1007 | a DMP layer is refused with exactly these errors for its fixed fields, its count and its size |
| Reading.DataErrors | src/packet.rs:756-821 | a data layer is refused for its first wrong field, with that field's error and value, and else for the DMP layer's reason |
| Reading.SyncErrors | src/packet.rs:1104-1147 | a synchronisation layer is refused for its length, then for its address |
| Reading.PageErrors | src/packet.rs:1336-1372 | a page is refused for its length, its number, or exactly for a list that is not strictly ascending |
| Reading.DiscoveryErrors | src/packet.rs:1225-1252 | a discovery layer is refused for its length, its name, then for its page's reason |
| Reading.ParseErrors | src/packet.rs:426-461 | a buffer is refused for its length, its preamble, then for the head of its root layer |
| Reading.RootErrors | src/packet.rs:595-656 | and then for what its framing layer is refused for |
| PackBuffer.PackDmp | src/packet.rs:1009-1041 | writes exactly the DMP layer's bytes, or refuses with the source's error and touches nothing |
| PackBuffer.PackData | src/packet.rs:823-871 | writes exactly the framing layer's bytes and what a longer name spills behind them, aborts iff the name runs past the buffer, or refuses in the source's order; nothing else changes |
| PackBuffer.PackSync | src/packet.rs:1149-1188 | writes exactly the synchronisation layer's bytes, or nothing |
| PackBuffer.PackDiscoveryLayer | src/packet.rs:1374-1414 | writes the page, or refuses too many, unsorted or repeated universes without leaving the layer |
| PackBuffer.PackDiscovery | src/packet.rs:1254-1275 | the same of a discovery framing layer |
| PackBuffer.PackFraming | src/packet.rs:681-687 | packs whichever framing layer it is, aborts or refuses, and says how far the buffer may have changed |
| PackBuffer.PackRoot | src/packet.rs:658-689 | writes exactly the root layer and any spill of a longer name, aborts or refuses likewise |
| PackBuffer.Pack | src/packet.rs:479-499 | for every packet, long names included, and every buffer: which of packed, refused and aborted it is, each byte written, and what behind them stays |
| PackBuffer.PackAlloc | src/packet.rs:463-476 | returns exactly the packet's bytes, the error for a payload or list that cannot be packed, or aborts iff a name reaches beyond the packet |
| PackBuffer.PackThenParse | src/packet.rs:426-499 | packing over any buffer and parsing that buffer returns the packet |
| PackBuffer.ParseUniverseListLoop | src/packet.rs:1463-1500 | the loop returns the listed universes iff they are strictly ascending and all there |
| PackBuffer.ParseSourceNameLoop | src/packet.rs:397-413 | the loop returns what stands before the first NUL, or the error when there is none or it is not UTF-8 |
| Sequencing.JudgeKeepsInv | src/receive.rs:1861-1923 | accepted or rejected, no source is left without universes and the source limit holds |
| Sequencing.SeqDiffIs | src/receive.rs:1899-1901 | the difference of two numbers is the one signed byte that leads from one to the other |
| Sequencing.JudgedErrors | src/receive.rs:1861-1923 | a full table is reported iff the source is new to it, with its size; a rejected number with both numbers and their difference |
| Sequencing.SweepKeepsInv | src/receive.rs:1938-1984 | sweeping, announcing or not, keeps that invariant |
| Sequencing.RemoveKeepsInv | src/receive.rs:2001-2025 | forgetting a universe keeps that invariant |
| Sequencing.CheckSeqKeepsInv | src/receive.rs:1844-1926 | a whole check keeps that invariant on every exit |
| Sequencing.EntryOfPurge | src/receive.rs:1976-1983 | a silent sweep removes exactly the expired entries |
| Sequencing.EntryOfRemove | src/receive.rs:2001-2025 | forgetting removes exactly the one entry |
| Sequencing.EntryOfJudge | src/receive.rs:1870-1923 | judging changes the packet's own entry if it is accepted, and no other |
| Sequencing.AnnouncedTimeoutIsSound | src/receive.rs:1943-1973 | an announced timeout was one: that entry goes, its source only with its last entry, nothing else |
| Sequencing.SilentAnnouncingSweep | src/receive.rs:1954-1975 | a silent announcing sweep proves nothing expired iff all sources are clean or none is; with one source it does |
| Sequencing.SilentSweepMissesExpired | src/receive.rs:1954-1956 | two sources for which it stays silent about an expired entry |
| Sequencing.RemovesBothIff | src/receive.rs:1821-1824 | forgetting a stream clears both tables iff the data table knew it or the other did not |
| Sequencing.SequenceTable.CheckTimeouts | src/receive.rs:1938-1984 | the loops over the hash maps, in any order, do an allowed sweep |
| Sequencing.SequenceTable.AnnounceTimeout | src/receive.rs:1943-1975 | what the announcing loops report is an allowed outcome, and the table changes accordingly |
| Sequencing.SequenceTable.RetainLive | src/receive.rs:1976-1983 | the silent loops keep exactly the live entries and the sources that have one |
| Sequencing.SequenceTable.CheckSeqNumber | src/receive.rs:1844-1926 | sweeps, admits or refuses a new source, accepts or rejects by the signed byte difference |
| Sequencing.SequenceTable.RemoveSourceUniverse | src/receive.rs:2001-2025 | removes the entry and an emptied source, or says which of source and universe is unknown |
| Sequencing.SequenceNumbering.Clear | src/receive.rs:1714-1717 | empties both tables |
| Sequencing.SequenceNumbering.CheckTimeouts | src/receive.rs:1726-1737 | a timeout found in the data table leaves the synchronisation table unswept |
| Sequencing.SequenceNumbering.RemoveSeqNumbers | src/receive.rs:1821-1824 | removes from the second table only when the first knew the stream; the error is that of the first table that did not know it |
| SequenceRuns.EagerIsLazy | src/receive.rs:1851-1860 | without a source limit or announcements, sweeping everything at every packet gives each stream the verdicts of looking only at its own expiry |
| SequenceRuns.StreamsDoNotInterfere | src/receive.rs:1844-1926 | of such tables, runs that agree on a stream's own events agree on its verdicts |
| SequenceRuns.AcceptedIffAhead | src/receive.rs:1899-1909 | a packet passes iff its true index is 1 to 236 ahead modulo 256 |
| SequenceRuns.WindowRefinesCounter | src/receive.rs:1899-1909 | from 19 behind to 236 ahead the 8-bit test is the unbounded comparison; one step further on either side it errs |
| SequenceRuns.TrackedIsLazy | src/receive.rs:1844-1926 | while its entry stands, no source limit and no announced timeout reaches a stream: the verdicts on its judged packets are those of its own packets alone |
| SequenceRuns.AcceptedAreRunningMaxima | src/receive.rs:1870-1923 | over any run of a table, with any source limit, announcing or not, of the packets whose check reports no timeout exactly the strict running maxima of the true indices pass |
| SequenceRuns.FromTheFirst | src/receive.rs:1861-1923 | of an untracked stream a full table may turn packets away; from the first let in, which without a limit is the first of all, exactly the running maxima pass |
| Merge.DefaultMergeKeepsLatestOfHighest | src/receive.rs:2037-2042 | folding the default merge leaves exactly the latest packet among those of highest priority |
| Merge.HtpDmxMerge | src/receive.rs:2056-2107 | the two-iterator loop ends with the byte-wise maximum, or refuses incompatible packets |
| Merge.HtpFold | src/receive.rs:2056-2107 | folding compatible packets yields highest priority, slot-wise maximum and preview flag, described without an order |
| Merge.HtpUnique | src/receive.rs:2056-2107 | that description determines the output |
| Merge.HtpOrderFree | src/receive.rs:2056-2107 | any order and repetition of the same packets merges to the same output |
| Merge.HtpStamp | src/receive.rs:2056-2107 | an HTP merge is as old as the first of the packets of highest priority, and has its source unless another shares that priority |
| Waiting.StoredIsFolded | src/receive.rs:812-823 | packets stored in turn for one universe wait as their fold, and other universes are untouched |
| Waiting.LatestOfHighestWaits | src/receive.rs:812-823 | under the default merge exactly the latest of the stored packets of highest priority waits, nothing else changes |
| Waiting.HtpWaits | src/receive.rs:812-823 | under the HTP merge what waits is the order-free merge of the packets stored |
| Waiting.StoreOutcomes | src/receive.rs:812-823 | under any merge function a packet waits as it came, or merged, or its failed merge loses both and is reported; other universes are untouched |
| Waiting.HtpReleasedIff | src/receive.rs:875-895 | packets stored in turn under the HTP merge are released as one iff the synchronisation comes less than 2.5 s after the first of highest priority |
| Waiting.HtpStoreLosesBothIff | src/receive.rs:812-823 | after a store under the HTP merge nothing waits for the universe iff something did and the two differ in start code, address or universe or one is empty, which is when the store fails |
| Waiting.DefaultStoreNeverFails | src/receive.rs:2037-2042 | under the default merge it never fails, and no lower priority replaces what waits, whatever address that waits for |
| Waiting.TaggedReleasesAreReleases | src/receive.rs:875-895 | marking each packet with the event that stored it changes nothing that is released |
| Waiting.WaitingSinceStored | src/receive.rs:812-823 | whatever waits was stored by an earlier event and has stood there ever since |
| Waiting.SyncReleaseIsConserved | src/receive.rs:845-895 | a released packet was stored before, for that address, under 2.5 s ago, undisturbed, and is released once |
| Waiting.HeldIsReleased | src/receive.rs:875-895 | a retrieval releases a fresh packet for its address iff it waits |
| Discovery.HasAllPages | src/receive.rs:1343-1352 | the loop over sorted pages decides whether page i stands at place i up to the last |
| Discovery.SortSorts | src/receive.rs:1345 | sorting sorts by page number and keeps the pages, no more and no fewer |
| Discovery.SortIsStable | src/receive.rs:1345 | pages of the same number keep the order they came in |
| Discovery.CompleteIffOneOfEach | src/receive.rs:1343-1352 | in any order of arrival, complete iff every earlier page came exactly once and the last at least once |
| Discovery.DuplicateBlocksForGood | src/receive.rs:1343-1352 | a repeated earlier page cannot be made good by any later ones |
| Discovery.GetAllUniverses | src/receive.rs:1357-1363 | joins the pages' universes in page order |
| Discovery.RetainOtherUniverses | src/receive.rs:1366-1370 | takes the universe off each page in place |
| Discovery.TerminateDiscoveredOnce | src/receive.rs:791-800 | the universe, and only it, leaves the list of the source that sent it; repeating changes nothing |
| Discovery.PageIsLocal | src/receive.rs:922-973 | a page treats its own source's entries as if there were no others |
| Discovery.PageStamps | src/receive.rs:939-972 | the entry that a page touches was last heard of when the page came, listed or not |
| Discovery.UpdatedGoesLast | src/receive.rs:903-908 | an updated source goes to the end of the list, the others keep their order |
| Discovery.DropExpiredOfOne | src/receive.rs:983-988 | a source stays iff it was heard of less than 2.5 s ago |
| Discovery.ViewOfExpired | src/receive.rs:983-988 | what a list shows of a source after expiry is what expiry leaves of what it showed |
| Discovery.PageSparesOthers | src/receive.rs:922-973 | a page leaves other sources' entries alone |
| Discovery.PageKeepsUnique | src/receive.rs:903-973 | at most one discovered and one partial entry per source, kept |
| Paging.RegistryBound | src/source.rs:1048-1052 | a registry has at most 64000 universes, hence at most 126 pages: the cast to a byte is safe |
| Paging.PagesAreFull | src/source.rs:1048-1064 | every page but the last has 512 universes and the last what is left, numbered and in order |
| Paging.PagesPack | src/source.rs:1054-1064 | every page of a registry can be packed and, with a valid name, is valid: page at most last page, ascending, at most 512 |
| Paging.PagesJoinToRegistry | src/source.rs:1054-1064 | the pages joined are the registry |
| Paging.OneMorePage | src/receive.rs:944-972 | a page short of the last one outstanding completes nothing; the last one, whichever, yields exactly the registry |
| Receiver.DatagramsAreSound | src/receive.rs:566-569 | whatever a datagram parses to is a valid packet |
| Receiver.CrashesIff | src/receive.rs:566-569 | a datagram that a round reads crashes the receiver iff in its zeroed buffer it makes the parser panic; handling what parses never does |
| Receiver.ShortDatagramCrashes | src/packet.rs:613-621 | a concrete datagram of 22 bytes that crashes every receiver |
| Receiver.GarbageIsReported | src/receive.rs:566-590 | a datagram that does not parse is reported with the parser's error and changes nothing |
| Receiver.CheckedPacket | src/receive.rs:728-868 | a live packet is turned away by its number check alone, with the check's error and no other effect; the check moves its own table only; what passes comes out with each field, its source and the time, or is stored, or releases what waits |
| Receiver.UncheckedPacket | src/receive.rs:710-726 | of the packets that go through no check only a termination moves the tables |
| Receiver.HandlingSpares | src/receive.rs:705-973 | what a packet leaves alone: the universes but for its synchronisation address, and the lists of sources but for pages and terminations |
| Receiver.OutOfRangeIff | src/receive.rs:402-404 | the universe reported is the first that is illegal, and none is iff all are legal |
| Receiver.ListensIff | src/receive.rs:401-422 | afterwards exactly the universes asked for are listened to beside the old ones, or none more when one is illegal |
| Receiver.MuteIff | src/receive.rs:429-443 | muting ends listening to that universe alone, or says why not |
| Receiver.ResetForgets | src/receive.rs:343-347 | a reset forgets all numbers and both lists of sources, and nothing else |
| Receiver.ClearingDrops | src/receive.rs:355-367 | clearing drops what waits for the universe, or all that waits, and nothing else |
| Receiver.ExpiryDrops | src/receive.rs:983-988 | expiry applies to both lists of sources and to nothing else |
| Receiver.BeginningReports | src/receive.rs:537-538 | a round begins with the report of a timeout, or drops exactly what has waited 2.5 s |
| Receiver.SweptEntries | src/receive.rs:1938-1984 | and of either table exactly the reported entry is gone, or, announcing nothing, exactly those not heard of for 2.5 s |
| Receiver.InitialKnowsNothing | src/receive.rs:296-314 | a new receiver listens for discovery alone, knows no source and holds nothing |
| Receiver.BufferHolds | src/receive.rs:1268-1281 | the receive buffer holds a datagram's first 1144 bytes and zeros behind them |
| Receiver.RoundIsRun | src/receive.rs:536-590 | a round, its sweeps and its datagram each at its own time, is a run of those events, and what it may report is what they may |
| Receiver.LosesPacketIff | src/receive.rs:1851-1860 | an announcing receiver may read a live packet and lose it to the report of a timeout iff something in the packet's table has expired |
| Receiver.RoundLosesPacketIff | src/receive.rs:536-569 | over a whole round: iff each table was empty or had a source with nothing expired at the sweeps, and something in the packet's table has expired when it comes |
| Receiver.LostPacket | src/receive.rs:1943-1973 | what is lost: the packet leaves no trace, the caller gets the timeout, and only the expired entry goes |
| Receiver.InitialInv | src/receive.rs:290-314 | a new receiver satisfies the invariant |
| Receiver.ShippedMergesKeep | src/receive.rs:2037-2107 | both merge functions keep the universe and a non-zero synchronisation address |
| Receiver.HandleDataKeepsInv | src/receive.rs:705-773 | every way through a data packet keeps the invariant |
| Receiver.HandleSyncKeepsInv | src/receive.rs:845-868 | so does a synchronisation packet |
| Receiver.HandleDiscoveryKeepsInv | src/receive.rs:922-973 | so does a discovery page: entries stay unique and no partial one is complete |
| Receiver.StepKeepsInv | src/receive.rs:536-590 | every datagram and every call keeps the receiver's invariant |
| Receiver.RunKeepsInv | src/receive.rs:401-988 | the invariant holds in every reachable state, for any merge function that keeps its side |
| Receiver.DropExpiredIsSublist | src/receive.rs:983-988 | expiry keeps exactly the sources heard of in time |
| Receiver.TerminationIsIdempotent | src/receive.rs:715-721 | a repeated termination changes nothing; the data number is gone, the synchronisation number too iff the data table knew the stream or there was none, and nothing else of the state; the universe, and no other, leaves its source's list |
| Receiver.HandleRunsWaitingOp | src/receive.rs:739-771 | what a packet does to the waiting buffer, and what comes out, is one operation of that buffer |
| ReceiverRuns.RunsTable | src/receive.rs:705-868 | what a caller learns over a run of a stream of data or synchronisation packets is its table's verdicts, a full table's included, whatever is announced |
| ReceiverRuns.JudgedComesOut | src/receive.rs:728-868 | what a verdict means: a packet that passes comes out field by field as it was sent, is stored or releases what waits; any other comes back as the check's error |
| ReceiverRuns.VerdictsAreTheStreamsOwn | src/receive.rs:705-868 | two receivers without a source limit or announced timeouts that saw the same of a stream agree on it, whatever else either went through |
| ReceiverRuns.RunningMaximaGetThrough | src/receive.rs:705-868 | in any receiver run, with any source limit, announcing or not, of the judged packets of a tracked stream of either kind exactly the strict running maxima of the true indices get through |
| ReceiverRuns.MaximaFromTheFirst | src/receive.rs:705-868 | the same of an untracked stream, from the first packet that a full table does not turn away |
| ReceiverRuns.StepRunsBuffer | src/receive.rs:536-590 | each event is its one operation on the waiting buffer: silent sweeps drop what is stale, a packet stores, clears or takes |
| ReceiverRuns.RunsBuffer | src/receive.rs:536-590 | over any run the waiting buffer is the run of the events' operations |
| ReceiverRuns.ReleasesAreConserved | src/receive.rs:845-895 | in any receiver run each packet a sync hands out has the fields of an earlier live data packet for its address, came under 2.5 s ago, waited undisturbed, and comes out once |
| SacnReceiver.SacnReceiver.constructor | src/receive.rs:296-314 | builds the initial state |
| SacnReceiver.SacnReceiver.Create | src/receive.rs:290-315 | a source limit of zero is refused, anything else yields a new receiver |
| SacnReceiver.SacnReceiver.IsListening | src/receive.rs:465-467 | tells whether a universe is listened to |
| SacnReceiver.SacnReceiver.CheckUniverses | src/receive.rs:402-404 | the loop reports the first illegal universe |
| SacnReceiver.SacnReceiver.InsertUniverse | src/receive.rs:407-417 | inserts by binary search, once, keeping the order |
| SacnReceiver.SacnReceiver.ListenUniverses | src/receive.rs:401-422 | listens to all of the universes, or to none when one is illegal |
| SacnReceiver.SacnReceiver.MuteUniverse | src/receive.rs:429-443 | removes the universe, or says that it is illegal or not listened to |
| SacnReceiver.SacnReceiver.ResetSources | src/receive.rs:343-347 | forgets numbers and sources, keeps waiting data |
| SacnReceiver.SacnReceiver.ClearAllWaitingData | src/receive.rs:355-357 | empties the waiting buffer only |
| SacnReceiver.SacnReceiver.ClearWaitingData | src/receive.rs:365-367 | removes one universe's waiting data and tells whether there was any |
| SacnReceiver.SacnReceiver.TerminateStream | src/receive.rs:791-800 | forgets the stream in the tables and in the discovered source |
| SacnReceiver.SacnReceiver.StoreWaitingData | src/receive.rs:812-823 | stores or merges; a failed merge loses both and is reported |
| SacnReceiver.SacnReceiver.RtrvWaitingData | src/receive.rs:875-895 | returns each fresh packet for the address once and removes all for it, leaving the rest |
| SacnReceiver.SacnReceiver.HandleDataPacket | src/receive.rs:705-773 | new state, reply and possible timeout of a data packet, on every path |
| SacnReceiver.SacnReceiver.HandleSyncPacket | src/receive.rs:845-868 | the same of a synchronisation packet |
| SacnReceiver.SacnReceiver.UpdateDiscoveredSrcs | src/receive.rs:903-908 | replaces the entry with the same identifier |
| SacnReceiver.SacnReceiver.HandleUniverseDiscoveryPacket | src/receive.rs:922-973 | new lists and completed name of a discovery page |
| SacnReceiver.SacnReceiver.CheckWaitingDataTimeouts | src/receive.rs:977-980 | drops exactly the stale waiting data |
| SacnReceiver.SacnReceiver.RemoveExpiredSources | src/receive.rs:983-988 | drops expired partial and discovered sources |
| SacnReceiver.SacnReceiver.SweepAllTimeouts | src/receive.rs:537-538 | sweeps both tables, then the waiting data, unless a timeout is announced |
| SacnReceiver.SacnReceiver.Receive | src/receive.rs:536-590 | one round with whatever the socket yielded and when: state, reply, and only allowed timeouts |
| SacnReceiver.SacnReceiver.ReceiveDatagram | src/receive.rs:1268-1281 | the same from a datagram's bytes, read into a zeroed buffer |
| Sender.ApplyKeepsInv | src/source.rs:633-668 | every operation keeps the registry ascending and legal and the name within its field |
| SenderRuns.RunKeepsInv | src/source.rs:633-668 | so does every run |
| SenderRuns.FailedTerminationLosesCounter | src/source.rs:963-997 | after a refused termination packet the numbering is right iff the counter stood at zero |
| SenderRuns.NumberingOverRuns | src/source.rs:816-870 | over any run without one, the n-th data packet on a universe carries n mod 256, and sync packets count on their own |
| SenderRuns.ChunksConserve | src/source.rs:762-773 | whatever goes out before a failure is a prefix of the chunks, in order, none lost or made up |
| SenderRuns.SendSplits | src/source.rs:752-775 | a successful send emits ceil(len/513) non-empty packets to the leading universes; their payloads joined are the data |
| SenderRuns.RefusedSendChangesNothing | src/source.rs:730-760 | a send reaches the socket iff it runs, has data, all its universes and its address are legal and registered, there are enough of them and the priority is at most 200; refused, it sends and changes nothing |
| SenderRuns.TerminateEmits | src/source.rs:1033-1040 | terminating sends exactly three termination packets per universe and empties the registry |
| SenderRuns.DiscoveryEmits | src/source.rs:1048-1066 | an advert sends every page of the registry once, in order |
| SenderLog.RegisterIff | src/source.rs:633-646 | registering a legal universe adds it and it alone; an illegal one is refused and nothing changes |
| SenderLog.DeregisterIff | src/source.rs:654-668 | deregistering drops a registered universe and it alone; any other is refused |
| SenderLog.SendRefusals | src/source.rs:730-760 | a refused send says what is wrong, and of several things the first in the code's order |
| SenderLog.SyncSends | src/source.rs:891-927 | a synchronisation packet goes out with its number iff its address is usable and the socket takes it; each refusal is named |
| SenderLog.TerminateStreamLogs | src/source.rs:1015-1022 | terminating a stream drops the universe iff all three packets went out |
| SenderLog.CallLogs | src/source.rs:722-1115 | whatever a call does, the log grows by packets of the source as it is then, live ones only while it runs, and the registry by what was registered, less what was terminated three times |
| SenderLog.CallsTakeEffect | src/source.rs:722-1115 | on a socket that does not fail each call of a run sends what it should: all the data, one synchronisation packet, three terminations for each universe, every page |
| SenderLog.RegistryOverRuns | src/source.rs:633-668 | over any run, whichever sends fail, a universe is registered iff a call registered it and none since has sent three termination packets for it |
| SenderLog.SendableIff | src/source.rs:722-776 | exactly such a universe can be sent on |
| SenderLog.IdentityOverRuns | src/source.rs:563-598 | over any run a sender has the name given last, or at creation, the preview flag set last, and runs until terminated |
| SenderLog.SetNameIff | src/source.rs:1143-1151 | names of up to 64 bytes are taken, longer ones refused |
| SenderLog.PacketsCarryTheName | src/source.rs:816-846 | every packet carries the sender's identifier, the name given last and the preview flag set last |
| SenderLog.StoppedForGood | src/source.rs:1033-1040 | a terminated sender sends no live data any more, whatever it is told to do |
| WireValidity.SentLog | src/source.rs:816-846 | the log of any clean run with valid names is numbered, valid and of one source |
| SacnSource.SacnSource.constructor | src/source.rs:563-598 | builds the initial state |
| SacnSource.SacnSource.Create | src/source.rs:196-225 | a name of more than 64 bytes is refused, anything else yields a new source |
| SacnSource.SacnSource.Transmit | src/source.rs:850-861 | packs a packet and sends it, or reports the socket's failure |
| SacnSource.SacnSource.RegisterUniverse | src/source.rs:633-646 | inserts by binary search, once, or refuses an illegal universe |
| SacnSource.SacnSource.DeregisterUniverse | src/source.rs:654-668 | removes the universe, or says that it is illegal or unknown |
| SacnSource.SacnSource.UniverseAllowed | src/source.rs:676-684 | legal and registered, with the error that applies |
| SacnSource.SacnSource.UniversesAllowed | src/source.rs:742-744 | the loop reports the first universe that may not be used |
| SacnSource.SacnSource.Send | src/source.rs:722-776 | the checks in order, then the loop over the chunks, stopping at the first failure |
| SacnSource.SacnSource.SendAllChunks | src/source.rs:762-773 | the loop sends the chunks to the leading universes and stops at the first failure |
| SacnSource.SacnSource.SendUniverse | src/source.rs:800-871 | one data packet with the universe's number, which moves on only if it went out |
| SacnSource.SacnSource.SendSyncPacket | src/source.rs:891-927 | one synchronisation packet with its own number |
| SacnSource.SacnSource.SendTerminateStreamPkt | src/source.rs:944-998 | one termination packet, its counter taken out before the send and put back after |
| SacnSource.SacnSource.TerminateStream | src/source.rs:1015-1022 | three of them, then the universe is deregistered |
| SacnSource.SacnSource.Terminate | src/source.rs:1033-1040 | stops the source and terminates every universe of a copy of the registry |
| SacnSource.SacnSource.SendUniverseDiscovery | src/source.rs:1048-1066 | the loop over a byte-sized page count sends every page |
| SacnSource.SacnSource.SendUniverseDiscoveryDetailed | src/source.rs:1084-1115 | one page is sent, or refused when its list cannot be packed |
| SacnSource.SacnSource.SetName | src/source.rs:1143-1151 | takes a name of up to 64 bytes and refuses longer ones |
| SacnSource.SacnSource.SetPreviewMode | src/source.rs:1163-1165 | sets the preview flag of the packets to come |
| Arrivals.DatagramIsPacket | src/receive.rs:1268-1281 | a datagram with a valid packet, read into the zeroed buffer, is that packet |
| Delivery.ForeignShrinks | src/receive.rs:705-868 | in any receiver, nothing others send and no call moves a source's numbers; at most they are forgotten |
| Delivery.NextIsAccepted | src/receive.rs:1870-1923 | the next number of a stream that is tracked, or forgotten, is accepted across the 255-to-0 wrap, unless the source is new and the table full: exactly then, with the count |
| Delivery.OwnPacketPasses | src/receive.rs:705-868 | the sender's next packet comes back with exactly what it should if nothing can be reported in its stead: turned away only by a full table, an unsynchronised chunk as sent, a failed merge, or what waits for the address |
| Delivery.LosslessDelivery | src/receive.rs:705-868 | any sender run, delivered in order amid any other traffic to a receiver with any source limit and merge function: every packet comes back so, hence none out of sequence |
| Delivery.StepKeepsListening | src/receive.rs:401-443 | nothing but muting stops a receiver listening to a universe |
| Delivery.SilentKeepsAll | src/receive.rs:1976-1983 | a receiver that announces no timeouts loses no packet to their reports |
| Delivery.ListenerLosesNothing | src/receive.rs:705-773 | a new receiver of any configuration that listens to the sender's universes, all legal, and never mutes gets the whole log so |
| LossyDelivery.RunProjects | src/receive.rs:705-868 | over a run, a stream's own events at the receiver are the judged packets of the sender's log, each with the sender's count modulo 256 |
| LossyDelivery.MaximaOfTheLog | src/receive.rs:705-868 | any sender run, delivered with losses, repetitions and out of order amid any other traffic: of each tracked stream exactly the running maxima of the sender's own count get through, within the window |
| LossyDelivery.MaximaOfTheLogFromTheFirst | src/receive.rs:705-868 | the same from a stream's first packet on, as for a new receiver |
| SyncDelivery.AsideKeeps | src/receive.rs:705-895 | traffic for other universes and addresses, rounds and calls change nothing of what waits for an address |
| SyncDelivery.SynchronisedChunksComeOut | src/receive.rs:845-895 | a sender's synchronised chunks in order among any traffic for elsewhere, then its synchronisation packet less than 2.5 s after the first: exactly these chunks come out, whatever the merge function and limit |
| SyncDelivery.SynchronisedSendComesOut | src/source.rs:722-776 | so from the sender's call on: one item for each leading universe comes out, from that sender, and the items' values joined in order are the data sent |
| DiscoveryDelivery.DiscoveryEndToEnd | src/receive.rs:922-973 | any sender's pages in any order amid other traffic, in any receiver: no page before the last names or lists the source; the last one yields exactly the sender's name and registry, listed until 2.5 s after it |
| DiscoveryDelivery.ListedForAWhile | src/receive.rs:983-988 | a listed source survives a look at expiry iff it was last heard of less than 2.5 s before |
| DiscoveryDelivery.DuplicateBlocksRuns | src/receive.rs:1343-1352 | a source with a repeated earlier page is not completed by anything that may still come, over any receiver run without a reset or expiry |
| Counterexamples.SixtyFourByteName | src/source.rs:196-225 | a name the sender takes, whose packet packs and cannot be parsed |
| Counterexamples.DataOnDiscoveryUniverse | src/source.rs:633-646 | a sender registers 64214 and sends on it: one packet goes out, which no receiver can parse |
| Counterexamples.CounterLost | src/source.rs:963-997 | a reachable sender whose termination the socket refuses: its next packet carries the number 0 a second time |
| Counterexamples.SyncNumberStays | src/receive.rs:1821-1824 | a reachable receiver in which a termination leaves the stream's synchronisation number standing |
| Counterexamples.MergeAcrossAddresses | src/receive.rs:812-823 | two packets for different addresses: the HTP merge loses both, the default merge replaces the first |
| Counterexamples.ReadAndLost | src/receive.rs:1851-1860 | one source expired, another not: a silent round reads the second one's next packet and returns the first one's timeout instead |
| Counterexamples.OwnUniverseCostsPacket | src/receive.rs:1851-1860 | a source on its own loses a packet on one universe to the timeout of its other, in a round that waits on the socket |
| Counterexamples.StalePacketWins | src/receive.rs:812-823 | a packet that comes when another has waited too long is lost with it |

## Left out

- Sockets, multicast groups, addresses, TTL, and the Windows and Unix variants: a send succeeds or fails, joining and leaving always succeed.
- The deadline loop of `SacnReceiver::recv`, its zero timeout and its check for a receiver without data universes: each round of the loop is a step of its own.
- The mutex, the update thread, `Drop` and the schedule of adverts: each call is one atomic step.
- The clock: a round reads it when it sweeps and when a datagram comes, every other call once, where the code may read it several times; expiry is `now - last >= 2500` on milliseconds.
- The `f64` ceiling in `send`: integer division rounding up, which it equals for every length below 2^53.
- UUIDs are 16-byte strings, names are the bytes of a `str`; error message strings and the UTF-8 error's details are dropped.
- Setters of flags and of the merge function after construction: a receiver's configuration is fixed for a run.
- `register_universes`, which registers one universe after the other: a run of single registrations.
- `set_cid`: a sender keeps its identifier, so that a log is one source's.
- User-supplied merge functions beyond what these ask: `Receiver.MergeKeeps` (keeps the universe and a non-zero synchronisation address), `ReceiverRuns.MergeErrsApart` (does not fail with the error of a packet turned away, so that a caller can tell them apart), `SyncDelivery.MergeTakesSides` (waits for the address of one of the packets merged; asked of synchronised traffic beside the chunks). Both shipped functions meet all three.
- SacnReceiver.SacnReceiver.constructor: the zero source limit is refused in Create, because a constructor cannot return an error.
- SacnSource.SacnSource.constructor: likewise for a name that is too long.
- ReceiverRuns.VerdictsAreTheStreamsOwn: for receivers without a source limit that do not announce timeouts, as with either of them other streams do decide who is let in.
- Delivery.LosslessDelivery: of a receiver that announces timeouts, for packets that come when nothing in their table has expired; otherwise the round may read them and lose them (`Receiver.LosesPacketIff`), and what gets through then is stated in `LossyDelivery.MaximaOfTheLog`.
- SyncDelivery.SynchronisedChunksComeOut: nothing else waits for the chunks' universes or address; what a synchronisation packet hands out in general is `ReceiverRuns.ReleasesAreConserved`.
- Datagrams longer than 1144 bytes are cut to the buffer; the error for a read longer than the buffer cannot arise and is left out.
