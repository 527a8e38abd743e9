# VPN stream channel: a Dafny model of its protocol engine

This project models the protocol engine of the VPN stream channel of the
DAP stream library (`dap_stream_ch_vpn.c`) and proves properties of that
model. A client attaches to the channel and sends frames over the stream
transport. Each frame carries a 16-byte header and a payload. The channel does three jobs:

- **Address leasing.** A tunnel session asks for an address (VPN_ADDR_REQUEST).
  The lease manager hands one out from its free list, or the address after the
  last one leased. Detaching the channel releases it.
- **Tunnel traffic.** VPN_SEND payloads are written straight to the tunnel
  device. Packets read from the device are routed to the session that leased
  their IPv4 destination, as VPN_RECV packets. A 400-slot ring
  (`ch_sf_raw_write` / `ch_sf_raw_read`) feeds the device on the breaker branch
  of the tunnel thread.
- **Socket forwarding.** CONNECT opens a native TCP connection and registers a
  socket proxy in three indexes: the channel's map by peer id, the global map
  by peer id and the global map by native socket. SEND writes to that socket
  and DISCONNECT tears it down. The proxy event loop reads the socket into a
  100-slot per-proxy queue. The channel's ready-to-write callback
  (`ch_sf_packet_out`) flushes those queues to the transport.

The model is functional. One immutable record, `Engine.VpnState`, holds the
attached channels, an arena of proxies with a live set and the three indexes,
the event loop's interest set, the lease manager and the ring. Every handler is
a pure step to a new state. The step also returns the I/O it performed as a
list of `Effect`s. The outcomes of system calls are parameters, grouped in
`Dispatch.InOracle`: `time`, `inet_pton`, `socket`, `connect`, epoll
registration, `send` and the device `write`. The number of packets the
transport accepts before it first refuses is a `room` parameter. The bytes
`recv` and the device `read` return are parameters too.

Modules, in dependency order:

- `Bytes`: the byte, `u32` and `i32` types, little-endian words and byte swaps.
- `Wire`: the packed header and its union, the op codes, frame encoding and parsing.
- `OutRing`: the ring, exactly as written.
- `Lease`: the tunnel address set-up, leasing and release.
- `ProxyQueue`: one proxy and its queue.
- `Engine`: the state, the teardown paths and the registry invariant.
- `Dispatch`: `ch_sf_packet_in` and its five handlers.
- `Flush`: `ch_sf_packet_out`.
- `Events`: one event of `ch_sf_thread`.
- `Tunnel`: one turn of `ch_sf_thread_raw`.

The model follows the code in four places where the code does not do what one
would expect of it:

- **Free list order.** One would expect a LIFO stack of released addresses.
  The code appends a released address at the tail and leases from the head, so
  the free list is FIFO (`Lease.FreeListIsFifo`).
- **VPN_SEND and the ring.** One would expect VPN_SEND payloads to pass through
  the outbound ring that feeds the device. The code writes the payload to the
  device directly (`Dispatch.VpnSend`).
- **Duplicate leases.** One would expect no two sessions to share a leased
  address. The code can lease one address to two sessions
  (`Lease.DuplicateLeaseReachable`).
- **Teardown from all indexes.** One would expect a proxy to leave all three
  indexes before it is freed. `ch_sf_delete` removes it from the channel's map
  only (`Engine.ChDeleteLeavesStale`, `Events.DeletedChannelEventUseAfterFree`).

## Model

| member | source | states |
|---|---|---|
| Wire.HeaderLayout | dap_stream_ch_vpn.c:129-164 | The header is 16 packed bytes: socket id at 0..3, op code at 4..7, union at 8..15. The data size, address length and problem code are one word at bytes 8..11, and the port is at bytes 12..13. |
| Wire.HeaderRoundTrip | dap_stream_ch_vpn.c:129-164 | Decoding an encoded header gives the header back. |
| Wire.FrameRoundTrip | dap_stream_ch_vpn.c:1270 | The input handler, which reads a frame's first 16 bytes as the header, recovers every packet the channel frames. |
| Wire.ParseFrame | dap_stream_ch_vpn.c:1270 | The parsed header encodes back to the frame's first 16 bytes, and the payload is everything after them. Nothing checks `data_size` against the payload length. |
| Wire.ProblemReplyLength | dap_stream_ch_vpn.c:1022-1028 | A PROBLEM reply goes to the transport with length 16 plus its problem code, because `data_size` and the code share the union. PACKET_LOST is sent as 19 bytes. |
| OutRing.Write | dap_stream_ch_vpn.c:824-861 | A write is accepted exactly when the wrapped write index is behind the read index or the count is zero. It then stores the packet there, advances the index, counts it modulo 2^64 and returns the new index. Otherwise it returns -1 and only the wrap is kept. |
| OutRing.Read | dap_stream_ch_vpn.c:801-822 | A read takes a slot unless the indices meet with a nonzero count. Taking a slot returns its content, leaves the slots unchanged and decrements the count modulo 2^64. |
| OutRing.RawPacket | dap_stream_ch_vpn.c:824-861 | The stored packet carries the op code truncated to 8 bits, the payload, and a data size equal to the 32-bit truncated payload length. |
| OutRing.WriteThenRead | dap_stream_ch_vpn.c:801-861 | In a drained ring, the next read returns the packet just written and leaves the ring drained again. |
| OutRing.EmptyReadUnderflows | dap_stream_ch_vpn.c:801-822 | A read from a drained ring is still taken, and the count wraps to 2^64 - 1. |
| OutRing.EmptyReadLosesNextWrite | dap_stream_ch_vpn.c:801-861 | After an empty read of the fresh ring, the next write goes to slot 0, behind the reader. The following read returns the empty slot 1 instead of that packet. |
| OutRing.WritesBehindParkedReader | dap_stream_ch_vpn.c:824-861 | With the read index parked at 400, every write with the write index below 400 is accepted, whatever the count. |
| OutRing.FullRingStillAcceptsWrite | dap_stream_ch_vpn.c:801-861 | After 400 write/read pairs and 400 more writes, all 400 slots hold unread packets. A 401st write is still accepted and overwrites slot 0. |
| Lease.GatewayIsLastOctetOr1 | dap_stream_ch_vpn.c:648 | On the little-endian host, `addr \| 0x01000000` sets the low bit of the last octet, so network a.b.c.d has gateway a.b.c.(d\|1). |
| Lease.NextAddr | dap_stream_ch_vpn.c:947-949 | The next fresh address is the last one plus one in host byte order, wrapping at 2^32. |
| Lease.SwapIncrement | dap_stream_ch_vpn.c:947-949 | Below 255, the increment bumps the last octet of the dotted address. |
| Lease.TunCreate | dap_stream_ch_vpn.c:641-649 | The gateway is the configured address with the gateway bit set, and leasing starts right after the gateway. |
| Lease.Allocate | dap_stream_ch_vpn.c:937-957 | A lease takes the head of the free list when there is one, and otherwise the address after the last one leased. Either way the address becomes the new last-leased address and maps to the requesting channel. |
| Lease.Release | dap_stream_ch_vpn.c:731-760 | A nonzero session address goes to the tail of the free list and leaves the lease table (the table holds one entry per address; see `Lease.Release` under "Left out"). A zero address releases nothing. |
| Lease.FreeListIsFifo | dap_stream_ch_vpn.c:942-945 | The next \|free\| requests are granted exactly the free list, in order, and empty it. |
| Lease.ReleaseOrderIsReuseOrder | dap_stream_ch_vpn.c:731-760 | The first address released is the first one leased again. |
| Lease.FirstLeaseScenario | dap_stream_ch_vpn.c:641-649 | On 10.0.0.0/24 the gateway is 10.0.0.1 and the first lease is 10.0.0.2. |
| Lease.DuplicateLeaseReachable | dap_stream_ch_vpn.c:942-957 | A reuse also overwrites the last-leased address, so a later fresh lease can repeat an address another session still holds. The lease table then names the new channel for it. |
| Lease.DuplicateLeaseAfterReuse | dap_stream_ch_vpn.c:942-957 | On any lease state with an empty free list whose next address is non-zero and differs from the one after it, the same four steps grant D the address B still holds. The table names B for it just before D's request and D after. |
| ProxyQueue.SocketWrite | dap_stream_ch_vpn.c:863-894 | The call returns -1 exactly when 100 or more slots are in use, and -2 for any other op code than RECV; the op code is a byte, as the `uint8_t` parameter is. Otherwise it appends one RECV packet with the bytes and returns the new slot count, which is at most 100. |
| ProxyQueue.SocketWritePending | dap_stream_ch_vpn.c:863-894 | A successful write adds exactly one RECV packet with the bytes behind everything already pending; a failed write leaves the pending packets unchanged. |
| ProxyQueue.SignalDisconnect | dap_stream_ch_vpn.c:1338-1364 | A DISCONNECT packet is appended with no bound check and the proxy is marked for deletion. Nothing else about the proxy changes. |
| ProxyQueue.PendingAppend | dap_stream_ch_vpn.c:1338-1364 | Appending to a queue appends to its pending packets. |
| ProxyQueue.FlushQueueSpec | dap_stream_ch_vpn.c:1680-1716 | The transport receives the first `room` pending packets in slot order. The walk stops exactly when more packets are pending than there is room. What stays pending is the rest, in order. |
| ProxyQueue.FlushedQueueIsEmpty | dap_stream_ch_vpn.c:1680-1716 | A queue the transport took in full holds no packet afterwards. |
| ProxyQueue.SplitFlushPreservesOrder | dap_stream_ch_vpn.c:1680-1716 | Two flushes with room a and then b hand over what one flush with room a+b would. |
| Engine.Init | dap_stream_ch_vpn.c:641-649 | The start state has nothing attached, nothing live, the SEND gate closed, and the leases as the tunnel set-up leaves them. |
| Engine.InitInv | dap_stream_ch_vpn.c:641-649 | The start state satisfies the registry invariant and has no stale index entry. |
| Engine.ClientNew | dap_stream_ch_vpn.c:707-716 | Attaching adds one channel with an empty proxy map and no address, and changes nothing else. |
| Engine.ClientNewInv | dap_stream_ch_vpn.c:707-716 | Attaching a channel keeps the registry invariant. |
| Engine.SocketDelete | dap_stream_ch_vpn.c:775-785 | Deleting frees the proxy and closes its socket only if the descriptor is positive. |
| Engine.TearDown | dap_stream_ch_vpn.c:1055-1088 | After a failed SEND or a DISCONNECT, the proxy is in none of the three indexes, is not live, and its socket is out of the interest set. Only that handle is unlinked: the channel's map loses just it, other channels are unchanged, both global indexes and the live set lose exactly it, the interest set loses exactly its socket, its socket is closed when positive, and leases and ring are untouched. |
| Engine.TearDownKeepsSiblings | dap_stream_ch_vpn.c:1104-1137 | Tearing one proxy down leaves every other live proxy live, indexed, in its channel's map, with its socket open and its interest-set membership as before. |
| Engine.TearDownInv | dap_stream_ch_vpn.c:1104-1137 | That teardown keeps the registry invariant and leaves no stale index entry. |
| Engine.TearDownFlushed | dap_stream_ch_vpn.c:1718-1733 | Unlinking a flushed proxy removes exactly that handle from the channel's map and both global indexes, and frees it. |
| Engine.TearDownFlushedInv | dap_stream_ch_vpn.c:1718-1733 | That unlinking keeps the registry invariant and leaves no stale index entry. |
| Engine.ChDelete | dap_stream_ch_vpn.c:723-773 | Detaching releases the session's address and frees every proxy of the channel. The global indexes, the interest set and the open sockets are left as they were. |
| Engine.ChDeleteInv | dap_stream_ch_vpn.c:723-773 | The invariant over the remaining channels and live proxies still holds after detaching. |
| Engine.ChDeleteLeavesStale | dap_stream_ch_vpn.c:762-767 | Detaching a channel that had proxies leaves the global index by socket pointing at a freed proxy. |
| Dispatch.FindById | dap_stream_ch_vpn.c:1303 | The lookup finds a handle of the map whose proxy has the id, or reports that no proxy in the map has it. |
| Dispatch.AddrRequest | dap_stream_ch_vpn.c:899-986 | The session is leased the lease manager's next address and replies with it and the gateway (24 bytes), and the channel is flagged ready. The no-free-address PROBLEM is never sent. Proxies and other channels stay the same. |
| Dispatch.AddrReply | dap_stream_ch_vpn.c:965-973 | The reply's 8-byte payload is the leased address followed by the gateway, and its socket id is the tunnel descriptor. |
| Dispatch.VpnSend | dap_stream_ch_vpn.c:989-1039 | The device write is always issued with `data_size` bytes and no lease check. On success nothing else happens. On failure a 19-byte PACKET_LOST goes back and the channel is flagged ready. |
| Dispatch.Connect | dap_stream_ch_vpn.c:1140-1253 | A known id, a failed `inet_pton` or a failed `socket` does nothing. A refused connect sends the diagnostic only. A connected socket becomes a proxy in all three indexes. The CONNECTED reply and the global SEND gate follow successful event-loop registration. |
| Dispatch.Accept | dap_stream_ch_vpn.c:1202-1253 | A connected socket becomes a fresh proxy at the end of the channel's map and of both global indexes. If the event loop takes the socket, it is polled, one 16-byte CONNECTED header goes out and the SEND gate opens; otherwise nothing is sent and the gate keeps its value. Either way the channel is marked ready to write, and no other channel, lease or ring slot changes. |
| Dispatch.Send | dap_stream_ch_vpn.c:1043-1101 | With the global gate closed, SEND does nothing. Otherwise `data_size` bytes go to the socket. A failed send tears the proxy down. A successful one adds the sent count to the 64-bit `bytes_sent` modulo 2^64 and changes nothing else. |
| Dispatch.Disconnect | dap_stream_ch_vpn.c:1104-1137 | DISCONNECT is the teardown of the proxy and nothing else: it removes the proxy from the map, both indexes, the live set and the interest set, leaves other channels unchanged, and sends no reply. |
| Dispatch.DispatchTable | dap_stream_ch_vpn.c:1261-1331 | The contract of `Dispatch.PacketIn`, which models `ch_sf_packet_in`: its routing table from header bytes 4..7 (listed after the table). |
| Dispatch.TunnelCodesLeaveRegistry | dap_stream_ch_vpn.c:1276-1291 | The tunnel op codes never change proxies, indexes or the interest set. |
| Dispatch.DisconnectTwice | dap_stream_ch_vpn.c:1299-1331 | A second DISCONNECT for the same id finds nothing and changes nothing. |
| Dispatch.SendGateIsGlobal | dap_stream_ch_vpn.c:1047-1051 | A SEND on a proxy with no earlier dropped SEND is dropped while the gate is closed and goes to the socket once a CONNECT on any channel, another one included, has registered with the event loop. |
| Dispatch.ConnectInv | dap_stream_ch_vpn.c:1140-1253 | CONNECT keeps the registry invariant when `socket` returns a descriptor not already open. |
| Dispatch.SendInv | dap_stream_ch_vpn.c:1043-1101 | SEND keeps the registry invariant. |
| Dispatch.PacketInInv | dap_stream_ch_vpn.c:1261-1331 | Every input frame keeps the registry invariant and never creates a stale index entry. |
| Flush.WalkSent | dap_stream_ch_vpn.c:1680-1736 | The walk over the channel's map, in insertion order, hands over the first `room` pending packets. It stops early exactly when more are pending than there is room for. It reports an offer exactly when something was pending. |
| Flush.WalkRemains | dap_stream_ch_vpn.c:1680-1716 | What stays pending on the walked proxies is the suffix the transport did not take, in the same order. |
| Flush.WalkFreedNoDup | dap_stream_ch_vpn.c:1716-1733 | No proxy is freed twice by one walk. |
| Flush.WalkFreedDrained | dap_stream_ch_vpn.c:1716-1733 | Every proxy the walk frees was marked for deletion and has nothing left queued. |
| Flush.WalkFreesSignalled | dap_stream_ch_vpn.c:1716-1733 | With room for everything pending, every proxy marked for deletion is unlinked. |
| Flush.UnlinkInv | dap_stream_ch_vpn.c:1718-1733 | Unlinking the flushed proxies keeps the invariant and removes exactly those handles from the channel's map. |
| Flush.FlushInv | dap_stream_ch_vpn.c:1674-1745 | The callback keeps the invariant and leaves no stale index entry. What stays queued on the channel is exactly what the transport did not take, in order. |
| Flush.FlushHandsOver | dap_stream_ch_vpn.c:1674-1745 | The contract of `Flush.Flush`, which models the flush in `ch_sf_packet_out`: the callback hands the transport the first `room` packets waiting on the channel in map order, each with length 16 + `data_size`. The ready flag ends up as "anything was waiting". |
| Flush.FlushOutPrefix | dap_stream_ch_vpn.c:1680-1736 | The callback's output is the transport writes of a prefix of the channel's waiting packets. |
| Flush.SplitFlush | dap_stream_ch_vpn.c:1674-1745 | Two callbacks with room a and b hand over what one callback with room a+b would: a refusal never loses or reorders a packet. |
| Flush.FlushFreesSignalled | dap_stream_ch_vpn.c:1718-1733 | With room for everything, a proxy marked for deletion leaves the map, both indexes and the live set. |
| Events.FindBySock | dap_stream_ch_vpn.c:1432 | The lookup by socket returns a proxy with that socket, or none exactly when no indexed proxy has it. |
| Events.FindBySockFirst | dap_stream_ch_vpn.c:1432 | The model's scan returns the first entry with the socket in the index's order. This order is the model's choice; `Events.FindBySockUnique` shows it decides nothing without stale entries. |
| Events.FindBySockUnique | dap_stream_ch_vpn.c:1432 | With the registry invariant and no stale index entry, any indexed proxy with the socket is the one the lookup returns, so the hash table's order among equal keys cannot matter. |
| Events.StreamDisconnect | dap_stream_ch_vpn.c:1338-1364 | The socket leaves the interest set and the proxy gets DISCONNECT appended and the delete mark. |
| Events.RecvQueuesBehind | dap_stream_ch_vpn.c:1452-1480 | Bytes read from a live proxy are queued behind its pending packets as one RECV packet and the channel is flagged ready. No other proxy, index or interest entry changes. |
| Events.NearlyFullQueueSkipsRead | dap_stream_ch_vpn.c:1460-1464 | With 99 or more slots in use the event is dropped and the state is unchanged. |
| Events.PeerGoneQueuesDisconnect | dap_stream_ch_vpn.c:1445-1490 | An error flag, or a read of no bytes, queues DISCONNECT last and marks the proxy. It also takes the socket out of the interest set. A read of no bytes flags the channel ready. |
| Events.UnknownSocketUnpolled | dap_stream_ch_vpn.c:1432-1441 | An event for an unknown socket only removes it from the interest set. |
| Events.SockEventInv | dap_stream_ch_vpn.c:1425-1495 | The contract of `Events.SockEvent`, which models the body of the `ch_sf_thread` event loop: with no stale index entry, every event on a polled socket reaches a live proxy, keeps the invariant (including the 100-slot queue bound) and leaves no stale entry. |
| Events.DeletedChannelEventUseAfterFree | dap_stream_ch_vpn.c:723-773 | After a channel with proxies is detached, its first proxy's socket is still open and indexed, and the next event on it dereferences the freed proxy. |
| Tunnel.VpnRecvPacket | dap_stream_ch_vpn.c:1637-1643 | The VPN_RECV packet carries the tunnel descriptor as socket id and the bytes read, with `data_size` equal to their count. |
| Tunnel.RouteInbound | dap_stream_ch_vpn.c:1596-1653 | After a read, the buffer holds the bytes read and keeps the rest. Only ready flags may change, and at most one transport write goes out. |
| Tunnel.RouteByDestination | dap_stream_ch_vpn.c:1606-1648 | A read of 20 or more bytes goes to the session leased its IPv4 destination, as one VPN_RECV of exactly those bytes with length 16 + count, and flags that session ready. An unleased destination is dropped with no change. |
| Tunnel.RoutedFrameParses | dap_stream_ch_vpn.c:1637-1645 | The session parses what it receives back into VPN_RECV, the bytes read and their count. |
| Tunnel.ShortReadRoutesByStaleBytes | dap_stream_ch_vpn.c:1596-1630 | A read of at most 16 bytes is routed by the destination word left in the buffer by earlier data. |
| Tunnel.DetachedSessionStillRouted | dap_stream_ch_vpn.c:731-760 | A session leased twice and then detached still receives traffic for its first address. |
| Tunnel.TunDrain | dap_stream_ch_vpn.c:1568-1588 | The breaker branch changes only the ring and emits at most one device write. |
| Tunnel.WrittenPacketReachesDevice | dap_stream_ch_vpn.c:1568-1588 | A packet written into a drained ring is what the next breaker branch writes to the device (`data_size` and payload), and the ring is drained again. |
| Tunnel.DrainedRingReplaysStaleSlot | dap_stream_ch_vpn.c:1568-1588 | A breaker branch on a drained ring writes an earlier lap's packet to the device again and underflows the count. |
| Tunnel.RawTurnFrame | dap_stream_ch_vpn.c:1553-1659 | The contract of `Tunnel.RawTurn`, which models one turn of `ch_sf_thread_raw`: a turn of the tunnel thread leaves proxies, indexes and leases alone. It emits at most one device write, then at most one transport write. |

`Dispatch.DispatchTable` routes on the op code in header bytes 4..7:

- An op code of 0xb0 or above other than 0xb2 and 0xbc is dropped.
- 0xb2 and 0xbc go to `AddrRequest` and `VpnSend`.
- 0xaa goes to `Connect` with no lookup.
- Any other code with an unknown socket id is dropped.
- Every code except CONNECT, DISCONNECT, SEND and the two tunnel requests leaves the registry unchanged and sends nothing. The only state it can change is one proxy's last-used time.

## Left out

- The Windows TAP code paths and the Linux tunnel set-up (`/dev/net/tun`,
  `ioctl`, the `ip` commands run through `system`) are left out. Only the
  address part of `ch_sf_tun_create` is modelled.
- The thread loops are left out: `while (bQuitSignal)` in `ch_sf_thread` never
  runs, and `do … while (bQuitSignal)` in `ch_sf_thread_raw` runs once. The
  epoll and select waits, retry counters and sleeps go with them. Both threads
  are modelled one event or one turn at a time.
- `Dispatch.AddrRequest` leaves out the 3-second `sleep` (lines 979-983) that
  the handler performs after replying. The model has no clock, and the
  sleep changes no state.
- Mutexes are left out, including the unlocks with no matching lock (lines 769
  and 1049). Every step is atomic in the model.
- Dispatch.Send: a SEND dropped because `client_connected` is false returns at
  lines 1047-1051 after unlocking `sf_socks_mutex` instead of the proxy's own
  mutex, which the dispatcher locked at line 1312. That proxy's mutex stays
  held. Every later lock of it blocks: the next packet for that id (line
  1312), its socket events (lines 1448 and 1458) and the flush (line 1685).
  The flush walks every proxy of the channel, so the whole channel stops
  flushing. The model has no locks. It lets that proxy carry on after a
  dropped SEND, where the source deadlocks.
- `time`, `inet_pton`, `socket`, `connect`, `epoll_ctl`, `send`, `recv`, and
  the device `read` and `write` are oracle parameters. `inet_pton` returning 0
  (malformed text) is not rejected by the code, and the model follows it.
- `dap_stream_ch_pkt_write` and `dap_client_remote_ready_to_write` become
  `ChWrite` effects and the channel's ready flag. The transport's internal
  state is not modelled.
- Memory allocation and release are left out, including `malloc`/`calloc`
  failures and which packets are ever freed. A freed
  proxy stays in the arena so that a later dereference can be named
  (`Events.EventStep.UseAfterFree`).
- The raw L3 socket (`raw_l3_sock`) is left out. `ch_sf_client_new` opens it
  (line 715) and `ch_sf_delete` closes it (lines 771-772), but
  `Engine.ClientNew` and `Engine.ChDelete` do not model that descriptor. Its only
  use, the `sendto` at line 1010, is commented out, so it carries no traffic.
- Logging, `inet_ntoa` strings and all counters except `bytes_sent` are left out.
- The session address lives on the stream's session (`tun_client_addr`, lines
  731 and 955), and `ch_sf_delete` never clears it. The model keeps it on the
  channel (`Engine.Chan.tunAddr`) and `Engine.ClientNew` starts it at 0, so it
  assumes one VPN channel per session, attached once. A session that attached
  a second channel would carry its earlier address into it in the source.
- Frames shorter than the 16-byte header are excluded by `PacketIn`'s
  precondition. The code reads the header without a length check, so a shorter
  frame reads past the frame.
- The lease table is a map, so two `HASH_ADD_INT` entries with the same address
  collapse into one (the newer wins). With duplicate keys the source's hash
  lookup may return either entry.
- Lease.Release: removes the address from the lease table outright. With two
  entries for one address (`Lease.DuplicateLeaseAfterReuse`), `ch_sf_delete`
  deletes only the entry `HASH_FIND_INT` returns (lines 747-752), and the
  other stays. When one of the two sessions detaches, the lookup can find the
  other session's entry and delete it. The detached session's entry then
  stays, and traffic for that address is routed (lines 1630-1645) to its
  freed channel. In the model the address is no longer routed at all.
- `SockEvent` requires `recv`'s bytes to fit the 512 KiB receive buffer, which
  is what `recv` guarantees.
- A device read that fails (`read_ret < 0`) ends the tunnel thread. The model's
  turn has no such case; `None` stands for "device not readable".
- Only the first `stream_sf_disconnect` is modelled: it brings a queue to at
  most 100 entries. A second one on the same proxy needs two concurrent event
  batches, which the per-event model cannot express.
- `ch_sf_raw_write` is never called in this file, so no handler of the model
  writes to the ring. The ring is modelled on its own and drained by the tunnel
  turn.
- Events.FindBySock: scans the index in insertion order. uthash returns
  equal keys newest first, and a bucket expansion can reorder them. The two
  orders differ only when two indexed proxies share a socket. Without stale
  entries that cannot happen (`Events.FindBySockUnique`). After `ch_sf_delete`
  leaves stale entries, which proxy the source finds is not modelled.
- Tunnel.ShortReadRoutesByStaleBytes: covers only reads of at most 16 bytes.
  Reads of 17 to 19 bytes mix fresh and stale destination bytes, and no lemma
  states what they do.
