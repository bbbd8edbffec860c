# Capsule, verified

Dafny models of the parts of the Capsule packet framework in which state,
nesting or arithmetic make correctness hard to see, with proofs of what its
documentation promises about them. `dafny verify dfyconfig.toml` checks all.

| file | what it models |
|---|---|
| `Batches.dfy` | pull-based pipelines as trees of combinators with hidden buffers; their recursive list semantics |
| `Combinators.dfy` | what each combinator does to the packets that come to it |
| `Sends.dfy`, `Conservation.dfy` | the drain loop at the end of a pipeline; nothing is lost or duplicated |
| `Bytes.dfy`, `Checksums.dfy` | big-endian fields; the Internet checksum of RFC 1071 and its update by Equation 3 of RFC 1624 |
| `Mbufs.dfy` | the message buffer, edited in place |
| `Layers.dfy`, `Reconciling.dfy`, `Packets.dfy` | the stack of headers over one buffer; `reconcile_all` |
| `Stacking.dfy` | parsing and pushing headers, and how the two fit together |
| `Addressing.dfy` | changing an address under TCP or UDP |
| `ExtHeaders.dfy` | IPv6 segment routing (RFC 8754) and fragment headers: segment lists, push, remove |
| `Ndp.dfy`, `Redirects.dfy` | neighbor discovery options (section 4.6 of RFC 4861); reconciling a Redirect |
| `KnownPackets.dfy` | packets octet by octet, and what the models say of them |
| `Transmits.dfy`, `Outbound.dfy` | the transmit loops and the bulk free; a pipeline together with its port |
| `Cidrs.dfy` | address ranges of 32 and 128 bits |
| `Lifecycle.dfy` | ports and cores over one execution, in every interleaving |

How to read the models:

- A pipeline is an immutable tree; what its `next` updates are the objects in
  the tree, shared where the source shares them. The closures are arbitrary
  pure functions. `Remaining` is the list of results still to come in the
  current state, `Denote` the meaning of a pipeline for one packet.
- A header is an offset into the one buffer. `Reconciled`, `Checksummed`,
  `Readdressed`, `WithSegments`, `Pushed`, `Unpushed`, `Retained` and
  `Adjusted` are functions on bytes: the method on the buffer is proved equal
  to them, and the theorems are about them.
- A device is a function that says how many packets it would take at each
  call, so a statement for all of these is one for every device.
- Machine arithmetic is explicit. `u8` and `u16` operations wrap as in a
  release build: the option size in `retain`, the list length of a segment
  routing header, the packet count handed to a port.

Where the code does less than its documentation says, the model follows the
code, and the theorem gives the exact condition:

- `set_segments` with 128 segments writes a list that cannot be parsed, and
  with more than 255 one that parses as another or not at all
  (`SegmentsRoundTrip`); from 128 on the length field is not the header's
  length (`HdrExtLenExact`).
- `retain` computes the size of a rejected option in eight bits
  (`RetainLimit`). A longer option can still happen to be removed correctly,
  if its body looks like further rejected options, so `RetainFilters` has a
  condition in one direction; `RetainStops` has lengths at which the loop always
  fails, and `RetainLimit` shows that the limit is sharp at every length.
- Reconciling an ICMPv6 error message cuts the packet to 1280 octets even if its
  own header lies beyond them; the read for the checksum then fails, and the
  branch that should never be reached panics (`ReconcileSound`, and
  `CutOffReceived` for a packet with a list of 77 segments).
- `Redirect::reconcile` does not repair a redirected header whose old length
  runs past the truncated message: the iterator refuses it first
  (`RedirectFits`). A message shortened after its option was measured, or
  measured with more than 1280 octets, keeps its old length (`StaleLength`,
  and `StaleLengthReceived` for a Redirect on which that happens).
- `PortQueue::transmit` of 65536 packets or more leaks all but a remainder on
  a device that takes them (`PortLeaksNothing`).
- `mbuf_free_bulk` uses the pool of the first packet for all (`FreedToOwnPool`).
- `Cidr::new` with length 0 makes a range of one address (`LengthOfNew`).
- An incremental checksum update never gives all ones, which is the one case
  where it differs from the full sum (`IncrementalCurrent`); no TCP or UDP
  packet meets it, since the protocol number is part of the sum
  (`ReaddressCurrent`). A UDP packet sent without checksum gets
  one by a change of address, and is accepted no longer unless it verified by
  chance (`ReaddressAccepted`).
- The comment on `GroupBy` speaks of dropping unmatched packets and of aborting
  on errors; the code runs unmatched packets through the catch-all arm, and
  its selector cannot fail.

## Model

| member | source | states |
|---|---|---|
| `Batches.Batch.Next` | capsule/src/batch/mod.rs:141-147 | For every tree of combinators: one pull returns the head of the results still to come, performs exactly that result's side effects, and leaves the tail; `None` exactly when there are none, and then nothing changes. All bridges, and all arms not being run, stay empty |
| `Batches.Batch.Transform` | capsule/src/batch/filter_map.rs:73-82 | The one-in-one-out combinators (filter, filter_map, map, for_each, inspect, emit) do to a packet what their list meaning says; an error aborts and loses the packet |
| `Batches.Batch.NextOfTransform` | capsule/src/batch/map.rs:59-66 | Those combinators pull once from below, change only an `Act`, and meet the contract of `Next` |
| `Batches.Batch.NextOfReplace` | capsule/src/batch/replace.rs:65-88 | The one-packet slot: the replacement comes first, the original is dropped by the following pull before anything else is read; meets the contract of `Next` |
| `Batches.Batch.NextOfGroups` | capsule/src/batch/group_by.rs:143-172 | Results queued by an earlier packet come first; otherwise a packet goes through its arm. The queue is provably non-empty where the source unwraps its head; meets the contract of `Next` |
| `Batches.Batch.FanOut` | capsule/src/batch/group_by.rs:149-166 | One packet put in the shared bridge makes the arm of its own key, or the catch-all if there is none, yield its whole, never empty, list of results into the queue, after which the bridge and every buffer of every arm are empty again; the outer batch is untouched |
| `Batches.Batch.DrainInto` | capsule/src/batch/group_by.rs:164-166 | Pulling until `None` terminates, for any nesting, and appends all remaining results in order |
| `Batches.Batch.Replenish` | capsule/src/batch/poll.rs:47-53 | Replaces the source queue of a polling pipeline and nothing else; a bridge-fed pipeline is not changed |
| `Batches.NewReplace` | capsule/src/batch/replace.rs:44-50 | A new replacer has an empty slot of its own |
| `Batches.NewGroupBy` | capsule/src/batch/group_by.rs:96-127 | Refused without a catch-all arm, where the source panics; otherwise the tree is well formed, and idle, if and only if every arm reads the bridge it was given |
| `Batches.Batch.YieldsIffFed` | capsule/src/batch/group_by.rs:164-168 | An idle arm has something for the queue whose head is unwrapped if and only if its own source holds a packet, which the bridge does |
| `Batches.Batch.IdleRemaining` | capsule/src/batch/group_by.rs:143-172 | Refinement: with empty buffers, the results still to come are the flat-map of the pending packets, in order, under the recursive list semantics |
| `Batches.Batch.FlatMapThrough` | capsule/src/batch/replace.rs:65-88 | Stacking a combinator on a batch is composing list functions |
| `Batches.Batch.ThroughAppend` | capsule/src/batch/replace.rs:65-88 | A combinator carries nothing from one packet to the next |
| `Batches.Batch.ExhaustedIsIdle` | capsule/src/batch/poll.rs:47-62 | When nothing is left to come, no slot, queue or bridge anywhere holds a packet, so replenishing loses none |
| `Batches.Batch.FedBy` | capsule/src/batch/group_by.rs:59-61 | What an arm still has to read is what its bridge holds |
| `Sends.Send.Consume` | capsule/src/batch/send.rs:95-102 | The drain loop terminates with every result sorted into transmit queue, drop queue and counts, and all side effects done |
| `Sends.Send.Run` | capsule/src/batch/send.rs:85-119 | Each run transmits, frees and emits exactly the list semantics of the packets received in it; over all runs so far, totals and counters are those of all packets received so far, and every buffer is empty between runs |
| `Sends.FlatMapAppend` | capsule/src/batch/send.rs:85-119 | What is received in separate runs gives what it would give in one |
| `Conservation.Ledger.StageBalance` | capsule/src/batch/replace.rs:65-88 | Each combinator, `GroupBy` with all its arms included, keeps the weight of what passes through it |
| `Conservation.Ledger.Conserved` | capsule/src/batch/send.rs:85-119 | For any tree, any closures and any weighing of buffers, what comes out and its side effects weigh what went in |
| `Conservation.NothingLost` | capsule/src/batch/send.rs:85-119 | Over any number of runs, and for any class of buffers: received plus created equals transmitted plus emitted plus bulk-freed plus aborted |
| `Conservation.CountersAccount` | capsule/src/batch/send.rs:104-110 | For arbitrary closures: processed is transmitted plus emitted, dropped is freed, errors is aborted, and together they are received plus created |
| `Combinators.GroupRoutes` | capsule/src/batch/group_by.rs:159-168 | In the list semantics a packet goes through the arm of its own key, or the catch-all if there is none, and the results of that arm come out in order |
| `Combinators.ReplaceMeans` | capsule/src/batch/replace.rs:77-82 | What goes on after a replacer is the successful images of what came to it, in order; these are exactly what was created, the packets they were made of are dropped, and the others are lost |
| `Combinators.ReplaceStage` | capsule/src/batch/replace.rs:66-82 | The image comes out first and its original is dropped next |
| `Combinators.FilterMeans` | capsule/src/batch/filter.rs:58-68 | What satisfies the predicate goes on, in order, and the rest is dropped |
| `Combinators.MapMeans` | capsule/src/batch/map.rs:59-66 | The successful images go on, in order; packets without one are lost and counted as aborted |
| `Combinators.FilterMapMeans` | capsule/src/batch/filter_map.rs:73-82 | What the choice keeps goes on, in order, what it discards is dropped, and packets on which it fails are lost |
| `Combinators.ForEachMeans` | capsule/src/batch/for_each.rs:55-62 | Packets on which the check succeeds go on, in order, and the others are lost |
| `Combinators.InspectMeans` | capsule/src/batch/inspect.rs:55-60 | Nothing changes |
| `Combinators.EmitMeans` | capsule/src/batch/emit.rs:48-55 | Nothing goes on; every packet is sent to the sink of this combinator and counted |
| `Combinators.ThroughAll` | capsule/src/batch/mod.rs:76-86 | Every combinator deals with the packets that act one by one and in order, and passes on all other results |
| `Combinators.SortedByKind` | capsule/src/batch/send.rs:95-102 | The two queues hold each packet as often as it came out to act, and to be dropped |
| `Checksums.FoldCarries` | capsule/src/packets/checksum.rs:163-167 | The end-around-carry loop terminates and gives the residue modulo 65535 in which only a zero sum gives zero |
| `Checksums.Compute` | capsule/src/packets/checksum.rs:145-168 | The full checksum of any payload up to 65535 octets, odd or even; the 32-bit accumulator never overflows |
| `Checksums.ComputeInc` | capsule/src/packets/checksum.rs:182-195 | The incremental update over paired old and new words |
| `Checksums.PseudoHeader.FoldedSum` | capsule/src/packets/checksum.rs:56-77 | The folded sum of the octets of the pseudo-header |
| `Checksums.PseudoHeader.TotalIsLayout` | capsule/src/packets/checksum.rs:93-128 | What is summed are the words of the pseudo-header as it is laid out in octets: both addresses, the protocol and the packet length, in the order and width of each IP version |
| `Checksums.OddPadded` | capsule/src/packets/checksum.rs:150-154 | An odd last octet counts as if a zero followed it |
| `Checksums.SegmentSum` | capsule/src/packets/checksum.rs:123-128 | The words of one address |
| `Checksums.FoldFirst` | capsule/src/packets/checksum.rs:145-168 | Folding the pseudo-header sum before adding the payload changes nothing |
| `Checksums.VerifiesIff` | capsule/src/packets/checksum.rs:145-168 | A receiver accepts a message if and only if its field holds the checksum of the rest, in either form of zero, and not everything is zero |
| `Checksums.StoredVerifies` | capsule/src/packets/checksum.rs:145-168 | Storing the checksum at any even offset of any payload makes it verify |
| `Checksums.OrderIndependent` | capsule/src/packets/checksum.rs:145-168 | Payloads that are permutations of each other's words have the same checksum |
| `Checksums.IncrementalTransfers` | capsule/src/packets/checksum.rs:170-195 | After an update the stored value stands for the new sum if and only if it stood for the old one before |
| `Checksums.IncrementalCurrent` | capsule/src/packets/checksum.rs:170-195 | Updating a current checksum gives the recomputed one if and only if nothing was replaced or the new total is non-zero |
| `Checksums.IncrementalIsFull` | capsule/src/packets/checksum.rs:145-195 | For any set of aligned words of any payload: the update and the recomputation are congruent modulo 65535 always, and equal if and only if nothing was replaced or the new sum is non-zero |
| `Checksums.WordSumPutWords` | capsule/src/packets/checksum.rs:182-195 | Replacing words changes the sum by exactly their difference |
| `Mbufs.Mbuf.Extend` | capsule/src/dpdk/mbuf.rs:211-231 | Inserts bytes at an offset and keeps all others in order, despite the overlapping move; refused, with nothing changed, unless 0 < len < tailroom and the offset is in the data |
| `Mbufs.Mbuf.Shrink` | capsule/src/dpdk/mbuf.rs:237-256 | Takes exactly the given range out; refused, with nothing changed, for an empty range or one that leaves the data |
| `Mbufs.Mbuf.Resize` | capsule/src/dpdk/mbuf.rs:260-266 | One or the other, by the sign |
| `Mbufs.Mbuf.Truncate` | capsule/src/dpdk/mbuf.rs:270-277 | Keeps a proper prefix; refused otherwise |
| `Mbufs.Mbuf.ReadSlice` | capsule/src/dpdk/mbuf.rs:322-341 | The bytes of a range, or the right one of the two errors |
| `Mbufs.Mbuf.WriteSlice` | capsule/src/dpdk/mbuf.rs:350-369 | Overwrites a range that fits and nothing else |
| `Mbufs.RemovedInserted` | capsule/src/dpdk/mbuf.rs:211-256 | Shrinking after extending at the same place is the identity |
| `Mbufs.Rewrite` | capsule/src/packets/ip/v6/srh.rs:214-221 | Resizing a region and writing over all of it replaces that region whatever bytes came in between |
| `Packets.PseudoHeaderSum` | capsule/src/packets/ip/v6/srh.rs:439-456 | The pseudo-header sum under any envelope; beneath a segment list the destination is the first segment |
| `Packets.ComputeChecksum` | capsule/src/packets/tcp.rs:446-462 | Stores in the packet the checksum value that depends on addresses, length and payload but not on the old field |
| `Packets.ComputeIpv4Checksum` | capsule/src/packets/ip/v4.rs:322-333 | The same for the 20 octets of an IPv4 header |
| `Packets.CutMessage` | capsule/src/packets/icmp/v4/redirect.rs:173-181 | ICMPv4 error messages keep 68 octets of data, ICMPv6 ones 1280 octets from the IPv6 header on |
| `Packets.ChecksumMessage` | capsule/src/packets/icmp/v6/mod.rs:121-136 | The checksum of a message, or the failed read that makes the source panic, exactly if the data ends at or before the header |
| `Packets.Reconcile` | capsule/src/packets/udp.rs:327-331 | One header's `reconcile`, for every kind of header, the messages that are cut included; fails exactly if the cut takes the header itself, and then leaves the cut packet |
| `Packets.ReconcileAll` | capsule/src/packets/mod.rs:282-285 | After the recursive pass, all headers of the stack have right lengths, verifying checksums, and are each left alone by another `reconcile`; fails exactly where the source panics |
| `Reconciling.CutLeavesHeader` | capsule/src/packets/icmp/v6/too_big.rs:165-168 | The cut leaves header and body of a message whole or takes both; it takes them exactly if they begin at or after the limit, which under IPv6 is when the extension headers take 1240 octets or more |
| `Reconciling.ReconcileSound` | capsule/src/packets/mod.rs:282-285 | For every well-formed stack: the pass returns if and only if the stack is not that of an ICMPv6 error message beneath 1240 or more octets of extension headers, and then everything is right at once. Stacks are Ethernet with or without VLAN tags, IPv4 or IPv6, any chain of segment routing and fragment headers, TCP, UDP or ICMP, with the error messages that are cut |
| `Reconciling.ReconcileIdempotent` | capsule/src/packets/mod.rs:282-285 | Where it returns, a second `reconcile_all` returns too and changes nothing |
| `Reconciling.OuterKeepsView` | capsule/src/packets/ip/v4.rs:479-482 | Reconciling the IP header changes no byte that an inner checksum covers, and no address |
| `Reconciling.ChecksummedIsPut` | capsule/src/packets/udp.rs:188-203 | Computing a checksum writes its field only, and does nothing exactly when the field is already right |
| `Reconciling.VerifiesPlain` | capsule/src/packets/tcp.rs:446-462 | A transport checksum is accepted if and only if the plain checksum of the octets of the pseudo-header followed by the message is zero; ICMPv4 has the message alone |
| `Reconciling.ChecksumPlace` | capsule/src/packets/udp.rs:188-203 | Computing a checksum changes no octets but 16 and 17 of a TCP header, 6 and 7 of a UDP header, 2 and 3 of an ICMP header |
| `Reconciling.ChecksumForm` | capsule/src/packets/udp.rs:131-143 | A computed UDP checksum is never zero, and a computed TCP checksum never all ones |
| `Reconciling.CutLength` | capsule/src/packets/icmp/v4/redirect.rs:173-181 | What is left of a cut message: 68 octets of data under IPv4, 1280 octets in all under IPv6 |
| `Reconciling.SettledIsRight` | capsule/src/packets/udp.rs:327-331 | A stack that reconciling leaves alone has right lengths and checksums that a receiver accepts |
| `Layers.Layer.PrefixWellFormed` | capsule/src/packets/mod.rs:113-127 | Where headers lie depends on no byte after them |
| `Layers.Layer.KeepsWellFormed` | capsule/src/packets/ethernet.rs:253-261 | Only VLAN markers and segment counts decide where headers lie |
| `Stacking.ParsesIff` | capsule/src/packets/ip/v4.rs:424-439 | A header parses if and only if it is well formed and its envelope names its protocol: for Ethernet the EtherType behind the VLAN tags, otherwise the protocol or next-header field |
| `Stacking.AssignedNumbers` | capsule/src/packets/ip/mod.rs:55-75 | With the numbers written out: TCP parses exactly after a 6, UDP after a 17, ICMP after a 1 or a 58, a fragment after a 44, IPv4 and IPv6 after their EtherTypes, each if its header is there, and routing only after a 43 |
| `Stacking.ChecksumProtocol` | capsule/src/packets/tcp.rs:539-554 | A stack that parses names the protocol that its checksum is computed for, over IPv6 as the last of the chain |
| `Stacking.DefaultFields` | capsule/src/packets/ip/v4.rs:570-585 | A pushed header gives its own version and length and a hop limit of 64 |
| `Stacking.ParsedIsWellFormed` | capsule/src/packets/mod.rs:166-182 | A stack that parses meets what every operation of these models asks of a packet |
| `Stacking.EthernetParses` | capsule/src/packets/ethernet.rs:297-314 | A frame of zeros in front of anything parses, over that payload |
| `Stacking.TryPushEthernet` | capsule/src/packets/ethernet.rs:297-314 | Puts it there; refused, with nothing changed, without room |
| `Stacking.TryPushPlain` | capsule/src/packets/tcp.rs:566-580 | Pushes an IPv4, IPv6, TCP or UDP header and has the envelope name it; refused, with nothing changed, without room |
| `Stacking.PushParses` | capsule/src/packets/tcp.rs:539-580 | Pushing on a stack that parses gives one that parses, with the new header on top and the same payload |
| `Stacking.PushExtParses` | capsule/src/packets/ip/v6/fragment.rs:184-229 | The same for extension headers |
| `Stacking.StackRoundTrip` | capsule/src/packets/mod.rs:166-222 | Whatever headers are pushed, parsing from the start of the packet finds exactly those, over the payload from before |
| `Stacking.RemovePlain` | capsule/src/packets/mod.rs:236-245 | Takes just the header out |
| `Stacking.RemovePayload` | capsule/src/packets/mod.rs:248-253 | Takes just the payload out; refused when there is none |
| `Stacking.RemoveUndoesPlainPush` | capsule/src/packets/mod.rs:230-245 | Removing a pushed header gives the packet from before except for what the envelope names, and gives exactly that packet if and only if the envelope named this protocol already |
| `Stacking.ReconciledParses` | capsule/src/packets/mod.rs:282-285 | Where reconciling returns, the packet parses as the same stack of headers, also if its message was cut |
| `Stacking.ReconciledDowncasts` | capsule/src/packets/icmp/v6/mod.rs:143-150 | Where reconciling returns, an error message is still one of its type, with its whole body |
| `Stacking.CutOffReceived` | capsule/src/packets/icmp/v6/mod.rs:121-136 | A packet that parses as Packet Too Big beneath a list of 77 segments, and on which reconciling panics |
| `ExtHeaders.SetSegments` | capsule/src/packets/ip/v6/srh.rs:205-228 | For a list of any length: replaces the list and its two length fields and keeps all bytes before, and all after unless the count loses bits in a byte; refused, with nothing changed, for an empty list or a lack of room. Over 255 segments it overwrites what follows, or fails after resizing |
| `ExtHeaders.SegmentsRoundTrip` | capsule/src/packets/ip/v6/srh.rs:205-319 | Parsing afterwards returns exactly the new list if and only if it has at most 255 segments and not 128 of them, when the length field wraps to zero and parsing refuses the header |
| `ExtHeaders.WithSegmentsKeeps` | capsule/src/packets/ip/v6/srh.rs:205-228 | Which bytes a new list leaves alone, and where the list and the payload lie afterwards |
| `ExtHeaders.HdrExtLenExact` | capsule/src/packets/ip/v6/srh.rs:222-222 | The length field names the header's real length, in the units of section 2 of RFC 8754, if and only if there are at most 127 segments |
| `ExtHeaders.TryPush` | capsule/src/packets/ip/v6/srh.rs:330-358 | Pushes a segment routing or fragment header; refused, with nothing changed, without room |
| `ExtHeaders.Remove` | capsule/src/packets/ip/v6/srh.rs:367-374 | Takes a header out and hands its next-header value to the envelope |
| `ExtHeaders.PushKeeps` | capsule/src/packets/ip/v6/fragment.rs:210-229 | After a push the stack is well formed, the envelope names the new header, the new header names what followed, and the payload is the same |
| `ExtHeaders.RoutingParsesBack` | capsule/src/packets/ip/v6/srh.rs:291-358 | A pushed segment routing header parses |
| `ExtHeaders.RemoveUndoesPush` | capsule/src/packets/ip/v6/fragment.rs:210-245 | Removing a pushed header restores the packet byte for byte |
| `ExtHeaders.RemoveUndoesSegments` | capsule/src/packets/ip/v6/srh.rs:205-374 | Also after its segment list was replaced by any that parses |
| `ExtHeaders.RemoveAllUndoesPushAll` | capsule/src/packets/ip/v6/srh.rs:330-374 | Any sequence of pushes and as many removes restores buffer and envelopes |
| `ExtHeaders.PushExtendsChain` | capsule/src/packets/ip/v6/fragment.rs:210-229 | A push inserts its code before the last entry of the next-header chain |
| `ExtHeaders.PushAllChain` | capsule/src/packets/ip/v6/fragment.rs:210-229 | After any pushes the chain lists them in order and still names the original upper protocol last |
| `Addressing.SetIp` | capsule/src/packets/udp.rs:165-185 | `set_src_ip` and `set_dst_ip` of TCP and UDP: the address and the updated checksum, or, for an address of the other family, an error and no change |
| `Addressing.SetAddr` | capsule/src/packets/ip/v6/srh.rs:399-426 | Setting an address through any chain of headers |
| `Addressing.SetRoutedDst` | capsule/src/packets/ip/v6/srh.rs:409-426 | Under a segment list the destination becomes its first entry, and is passed on to the envelope when no segments are left |
| `Addressing.EnvelopeFollows` | capsule/src/packets/ip/v6/srh.rs:418-422 | The envelope gets the new destination if and only if no segments are left, and keeps its own otherwise |
| `Addressing.ChecksumWithIpAddr` | capsule/src/packets/checksum.rs:198-216 | Old and new address have to be of one family |
| `Addressing.WithAddrSets` | capsule/src/packets/ip/v6/srh.rs:399-426 | Afterwards the packet has that address, the other address is as before, and all headers are where they were |
| `Addressing.ReaddressCurrent` | capsule/src/packets/tcp.rs:423-443 | If the checksum was the one `compute_checksum` stores, it still is, in the protocol's own form of zero, for source and destination, IPv4, IPv6 and any extension headers |
| `Addressing.ReaddressVerifies` | capsule/src/packets/udp.rs:165-185 | Whatever is stored: the packet verifies afterwards if and only if it did before |
| `Addressing.ReaddressAccepted` | capsule/src/packets/udp.rs:131-185 | What a receiver accepts, a missing UDP checksum included, it still accepts afterwards if and only if the checksum field was not zero or the packet verified as it was |
| `Addressing.ReaddressMismatch` | capsule/src/packets/checksum.rs:202-215 | An error if and only if the families differ |
| `Addressing.TotalMoves` | capsule/src/packets/tcp.rs:423-443 | The sum that the checksum covers changes by exactly the difference of the addresses |
| `KnownPackets.UdpKnown` | capsule/src/testils/byte_arrays.rs:101-125 | The UDP packet of the tests parses as UDP over IPv4, from 139.133.217.110 to 139.133.233.2, and its lengths and both checksums are right |
| `KnownPackets.TcpKnown` | capsule/src/testils/byte_arrays.rs:67-97 | The TCP packet of the tests likewise |
| `KnownPackets.PlainIpv4Parses` | capsule/src/packets/ip/v4.rs:424-439 | Where addresses and transport header of an untagged IPv4 frame are |
| `KnownPackets.TaggedFrames` | capsule/src/packets/ethernet.rs:253-261 | Where the payload of untagged and tagged frames begins, and where its type is named |
| `KnownPackets.RoutedTcpParses` | capsule/src/packets/ip/v6/srh.rs:291-319 | A list of three segments by its octets: the segments in order, the addresses, and TCP beneath |
| `KnownPackets.Ipv6LengthKnown` | capsule/src/packets/ip/v6/mod.rs:324-327 | An IPv6 payload length does not count the header |
| `Ndp.OptionsTile` | capsule/src/packets/icmp/v6/ndp/mod.rs:175-191 | A region parses into given options if and only if they are whole options that tile it in order |
| `Ndp.OptionsIterator.Next` | capsule/src/packets/icmp/v6/ndp/mod.rs:259-272 | Returns the option at the offset and moves to its end; `None` at the end; an error and no move for an option that does not fit |
| `Ndp.Collect` | capsule/src/packets/icmp/v6/ndp/mod.rs:70-76 | Iterating until `None` terminates and returns exactly the options of the region, or the error |
| `Ndp.Prepend` | capsule/src/packets/icmp/v6/ndp/mod.rs:439-441 | Adds one option at the front of the list; the others and the bytes before stay |
| `Ndp.Append` | capsule/src/packets/icmp/v6/ndp/mod.rs:454-456 | Adds one option at the end of the list |
| `Ndp.PrependAdds` | capsule/src/packets/icmp/v6/ndp/mod.rs:439-441 | The list has the new option in front, and a region that does not parse fails in the same way as before |
| `Ndp.OptionsAppend` | capsule/src/packets/icmp/v6/ndp/mod.rs:259-272 | Regions that parse concatenate as their lists do |
| `Ndp.Retain` | capsule/src/packets/icmp/v6/ndp/mod.rs:471-487 | What the in-place loop leaves of the buffer, and its result, for every region on which it ends, malformed ones and wrapped sizes included; bytes before the options stay |
| `Ndp.RetainFilters` | capsule/src/packets/icmp/v6/ndp/mod.rs:471-487 | For well-formed options of which none of 32 or more units is rejected, the loop leaves exactly the options that satisfy the predicate, in order, and they parse again |
| `Ndp.RetainStops` | capsule/src/packets/icmp/v6/ndp/mod.rs:478-480 | For all options: the first one of 32 or more units that is rejected ends the loop in an error if they are a multiple of 32 |
| `Ndp.RetainLimit` | capsule/src/packets/icmp/v6/ndp/mod.rs:478-480 | Rejecting an option of zeros works if and only if it has at most 31 units, because its size is computed in eight bits |
| `Redirects.FindRedirected` | capsule/src/packets/icmp/v6/ndp/redirect.rs:194-200 | The option that reconciling measures: the first redirected header that the iterator comes to |
| `Redirects.SetLength` | capsule/src/packets/icmp/v6/ndp/options/redirected.rs:127-137 | Trims at most 7 octets and stores the number of units |
| `Redirects.ReconcileRedirect` | capsule/src/packets/icmp/v6/ndp/redirect.rs:190-203 | Truncates, measures, and computes the checksum; fails exactly if the cut takes the header itself |
| `Redirects.RedirectFits` | capsule/src/packets/icmp/v6/ndp/redirect.rs:190-203 | At most 1280 octets from the IPv6 header on; at most 7 more trimmed; the options are the earlier ones and then the redirected header, taking all the rest without wrapping its length, if and only if the length it held before does not run past the truncated message. Otherwise the options of the result do not parse |
| `Redirects.StaleLength` | capsule/src/packets/icmp/v6/ndp/redirect.rs:190-203 | A message whose option took all the rest reconciles to one whose options parse if and only if it has not been shortened since and is within 1280 octets |
| `Redirects.StaleLengthReceived` | capsule/src/packets/icmp/v6/ndp/redirect.rs:190-203 | A packet of 102 octets that parses as a Redirect and reconciles to one whose options do not parse |
| `Redirects.RedirectSettled` | capsule/src/packets/icmp/v6/ndp/redirect.rs:190-203 | Reconciling twice is reconciling once |
| `Redirects.RedirectReconcileAll` | capsule/src/packets/mod.rs:282-285 | With the rest of `reconcile_all`, all lengths and checksums of the packet are right, the message and its options are as reconciled, and a second whole pass changes nothing |
| `Redirects.RedirectParses` | capsule/src/packets/mod.rs:282-285 | Before and after the rest of `reconcile_all`, the message parses as the same stack of headers and is still a Redirect |
| `Transmits.Transmit` | capsule/src/dpdk/port.rs:173-204 | Against any device: a prefix is sent in order, and the rest goes to the bulk free or not as the loop decides; fails exactly on no packets |
| `Transmits.FreeBulk` | capsule/src/dpdk/mod.rs:215-240 | The puts it makes; fails exactly on no packets |
| `Transmits.FreedOnce` | capsule/src/dpdk/mod.rs:215-240 | Every packet is put once, in order, no put is empty, and all go to the first packet's pool |
| `Transmits.FreedSplit` | capsule/src/dpdk/mod.rs:221-233 | A put ends exactly where a packet of another pool comes next |
| `Transmits.FreedToOwnPool` | capsule/src/dpdk/mod.rs:215-240 | Memory goes back to its own pool if and only if all packets share one |
| `Transmits.SentOrFreed` | capsule/src/dpdk/port.rs:173-204 | Unless the rest is freed, exactly as many are sent as the narrow count can tell |
| `Transmits.FreedIffStalled` | capsule/src/dpdk/port.rs:176-204 | The loop tries again after every burst that takes something: packets are freed if and only if none can be offered or some call takes nothing before all are sent, and then exactly those before such a call were sent |
| `Transmits.NothingFreed` | capsule/src/dpdk/kni.rs:185-219 | A device that always takes something gets everything it can be offered |
| `Transmits.TransmitConserves` | capsule/src/dpdk/kni.rs:181-219 | From one up to as many packets as fit the count, each is sent or put back, exactly once, in order |
| `Transmits.NothingLeaks` | capsule/src/dpdk/port.rs:176-204 | No device makes the loop leak if and only if the count fits or truncates to zero |
| `Transmits.PortLeaksNothing` | capsule/src/dpdk/port.rs:176-204 | For a port: if and only if there are fewer than 65536 packets or a multiple of it |
| `Outbound.HandedConserves` | capsule/src/dpdk/port.rs:173-204 | Of all queues handed to a port, each packet is sent or put back once, against a device in any state at each of them |
| `Outbound.EveryBufferAccounted` | capsule/src/batch/send.rs:85-119 | Over any number of runs with queues that a port can count: received plus created equals taken by the device plus put back plus emitted plus aborted; and no bulk free meets an empty queue |
| `Cidrs.LengthOfNew` | capsule/src/net/cidr/v4.rs:112-140 | `length` returns the length given to `new`, but the full width for 0 |
| `Cidrs.NewMask` | capsule/src/net/cidr/v6.rs:132-140 | Which lengths are accepted, and the mask of each |
| `Cidrs.NetmaskLengthIff` | capsule/src/net/cidr/v4.rs:43-51 | A netmask has a length if and only if it is that many ones above zeros, at least one of them |
| `Cidrs.WithNetmaskKeepsMask` | capsule/src/net/cidr/v4.rs:148-151 | The range has the given netmask, or an error for every mask that is not contiguous |
| `Cidrs.ContainsIff` | capsule/src/net/cidr/v6.rs:107-109 | Membership if and only if network <= a <= broadcast as numbers |
| `Cidrs.RangeOfNew` | capsule/src/net/cidr/v4.rs:102-145 | For every range that `new` makes: it contains its own address, its size is the distance of its ends plus one, and it begins at a multiple of it |
| `Cidrs.SizeFits` | capsule/src/net/cidr/v6.rs:143-145 | The size fits a 64-bit `usize` if and only if fewer than 64 bits are free |
| `Cidrs.CidrIterator.Next` | capsule/src/net/cidr/v4.rs:82-90 | Yields the head of the addresses still to come, never counting past the last one |
| `Cidrs.Collect` | capsule/src/net/cidr/v6.rs:37-39 | Iterating a range ends and yields its addresses from the network address on, also for the range of all IPv4 addresses, whose size is zero once cast |
| `Cidrs.CollectsContained` | capsule/src/net/cidr/v4.rs:38-91 | These are ascending without gaps, as many as the size says, and exactly the addresses the range contains |
| `Lifecycle.NextKeeps` | capsule/src/runtime/mod.rs:587-603 | The invariant of the master and all background threads is kept by every step of either, failing ones included |
| `Lifecycle.TasksBetweenPorts` | capsule/src/runtime/mod.rs:587-603 | In every run, a task runs only after every port has started and before any stops, on a background core only after that core was unparked and before it was joined |
| `Lifecycle.StopsAfterJoins` | capsule/src/runtime/mod.rs:566-603 | No port is stopped before every background thread has been joined |
| `Lifecycle.AtMostOnce` | capsule/src/runtime/core_map.rs:37-117 | No core is unparked, shut down or joined twice, and no port started or stopped twice |
| `Lifecycle.DoneComplete` | capsule/src/runtime/mod.rs:587-603 | On normal return every port was started and stopped and every background core unparked, shut down and joined |
| `Lifecycle.NeverStuck` | capsule/src/runtime/core_map.rs:250-291 | No deadlock: until the master has returned some step that is not a task or a failure can be taken, also while it waits to hand over the unpark or to join |
| `Lifecycle.RunsEnd` | capsule/src/runtime/mod.rs:587-603 | In every interleaving the number of such steps is bounded, so a run in which every thread gets its turn ends |

## Left out

- `onvm_mgr`: unfinished, without a stable meaning.
- Calls into DPDK, memory pools, port and kernel-interface construction,
  configuration, metrics registration, macros and text formatting: foreign or
  settled by reading one function. A burst is a count, a bulk put a log entry.
- Plain getters and setters, TCP and IP flags, MAC addresses, echo bodies and
  the fixed-size neighbor discovery option structs: easy members only.
- Closures with state of their own, and what the closure of `inspect` does:
  closures are pure functions of the packet. Typed packets are one type here.
- Message bodies of ICMP, and pushing those messages: an ICMP header is the
  four octets that all messages share, and a message is known by its type.
- Batches.Batch.NextOfGroups: trees in which a builder ignored the bridge and
  returned an unrelated batch are not well formed (`Batches.NewGroupBy`). When
  such an arm has nothing to yield (`Batches.Batch.YieldsIffFed`), the source
  panics. The two-map lookup of groups and catch-all is one map with an
  optional key.
- Sends.Send.Run: the endless re-polling by the executor. Transmission is
  joined on in `Outbound`; a queue that an emit combinator fills has one packet.
- Multi-segment buffers: the source reads and writes the first segment only,
  and its lengths agree with the packet's only for a single one.
- Ndp.Retain: an accepted option of length zero, on which the source loops
  for ever (`Ndp.Retaining.Endless` marks it).
- Ndp.Collect: an option of length zero, for the same reason.
- Redirects.ReconcileRedirect: an option of length zero before the redirected
  header, for the same reason. The body of 36 octets is assumed, not parsed.
- Cidrs.Collect: ranges whose size does not fit a `usize` (`Cidrs.SizeFits`).
  Reading ranges from text is not modelled.
- Transmits.Transmit: the octet and packet metrics. One loop stands for both,
  with the width of the count as a parameter; device behaviour that depends on
  packet contents is any sequence of counts.
- Lifecycle.NeverStuck: scheduling and timers are "a step can be taken"; that
  every thread gets its turn is an assumption. One call of `execute` is
  modelled, not what dropping the runtime after a failure does.
- The numbers carried by error values.
