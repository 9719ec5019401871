# MASQUE VPN: a verified model

This Dafny project models the stateful core of the MASQUE VPN server and client and proves what
it keeps. `dafny verify dfyconfig.toml` checks all of it.

**Server sessions.** `PoolSpec` is the address pool as a value, `PoolSearch` and `PoolLaws` prove its
laws, and `IPPool.dfy` is the pool as an object that refines it. `ServerSpec` runs any number of
CONNECT-IP handlers (take, two allocations, announce, two routes, forward, and the deferred calls in
reverse) as interleaving steps, one for each lock-protected call. `ServerLaws` proves what every
interleaving keeps. `FamilySteps` looks at one address family at a time, `Exclusivity` proves when clients
come to share an address of it, and `CurrentLeases` who holds a client's current lease; `ReconnectSafety` builds
on both. `ServerRuns`, `ExclusivityRuns`, `IPv6Exclusivity` and `LeaseRuns` have the theorems about whole
runs, `LiveSessions` and `Supersession` say which connections have been closed, and `SharedAddress` is a run in which two clients share an address. `ServerTables` has the router and the session index as objects.

**Client reconnects.** `PumpSpec` and `PumpLaws` are the two loops over one session slot, `PumpObject` the
same with fields updated in place, one turn of `Run` at a time. `ClientRedial` is the rule about a
changed address, `TunnelRuns` the race of `Stop` with a redial, and `AddressStability` joins the client to the server. `Dialing` and `Connecting` follow every
socket and connection from the dial race to `Session.Close`.

**The packet bridge.** `BridgeSpec`, `BridgeLaws` and `BridgeRuns` let any number of threads move recycled
buffers through bounded queues, buffer by buffer and step by step; `PacketBuffers` has the pool and the queue
as objects over arrays. `Deadline` is the wake-up protocol of the read deadline and
`DatagramPipe` the pipe as an object.

**Packet headers.** `Checksum`, `Packets` and `OutgoingPipeline` rewrite headers in place (section 3.1 of
RFC 791, section 1 of RFC 1071); `Addresses`, `Bytes` and `LastAddress` relate bit and byte loops to integer
arithmetic.

## Hypotheses, and where the code does not meet a promise

- `server/README.md:10` promises each client certificate a stable `/32`. Stability holds without assumptions
  (`PoolLaws.SameAddressForever`). Exclusivity does not (`SharedAddress.TwoClientsShare`). Two clients come to share
  an address exactly by an AllocateFor for whose client the pool has an address that a session of another
  client holds (`Exclusivity.SharesIff`); what the pool has is known before the call: the remembered address,
  or else the last free IPv4 address or the first open IPv6 place (`PoolLaws.OfferedIff`). Clients share
  nothing throughout a run exactly if no step of it is such a call (`ExclusivityRuns.NeverShareIff`). Whether the
  address is marked in use decides nothing: the remembered path does not ask, and an address can be held
  and yet free (`PoolLaws.FreedWhileHeld`).
- It is enough, for a whole run and in the one family, that no newcomer is given a remembered address
  (`ExclusivityRuns.ClientsNeverShare`). For IPv6 that follows from the cursor not having passed the end of the
  prefix, for a known population from only remembered clients asking.
- Reconnect safety assumes, step by step, that setups of one CN do not overlap (`TakesTurns`), that nothing
  remembered is reissued (`SparesMemory`) and that the 64-bit lease counter does not wrap (`CountsUp`).
  `LeaseRuns.OverlappingSetups` shows why the first is needed: the newest session can end up without the
  current lease. Who holds the current lease is settled exactly by `CurrentLeases.StaysCurrentIff` and
  `LeaseRuns.CurrentUntilSuperseded`. Everything under "runs without any assumption" in `ServerRuns`,
  such as `NothingLeaks` and `RouteOwner`, assumes none of these.
- A TUN failure does not stop `Run` promptly: its test and the installation of a new session are separate
  steps (`PumpLaws.LateInstall`). It happens exactly if Run stands between the two when the error is recorded
  (`PumpLaws.LateReadingIff`).
- The read deadline protocol needs a single reader (`Deadline.TwoReadersLoseAnUpdate`); the exact step that
  loses an update is named in `Deadline.LosesUpdateIff`.
- The redial compares the first address of the new list with the first IPv4 address of the old one, so
  a server that lists an IPv6 address before an IPv4 one is always taken to have changed (`ClientRedial.SameListRefusedIff`). The
  server modelled here lists IPv4 first.

## Model

| member | source | states |
|---|---|---|
| PoolLaws.NewPoolLaw | android/go-src/masque-vpn/cmd/poc-server/ippool.go:30-74 | The constructor fails exactly when the text does not parse, the families differ, the server lies outside, or no address is left to assign; otherwise the pool starts with every book in order and nothing in use |
| PoolLaws.NewPoolInOrder | android/go-src/masque-vpn/cmd/poc-server/ippool.go:30-74 | Every pool the constructor returns satisfies the pool invariant |
| PoolLaws.HostsExact | android/go-src/masque-vpn/cmd/poc-server/ippool.go:57-62 | The enumeration is ascending, without duplicates, and holds exactly the numbers of the range except the server |
| PoolLaws.HostsAreAssignable | android/go-src/masque-vpn/cmd/poc-server/ippool.go:54-62 | The IPv4 free list starts as exactly the ascending addresses strictly between network and broadcast except the server |
| PoolLaws.NewIPv6Pool | android/go-src/masque-vpn/cmd/poc-server/ippool.go:69-73 | An IPv6 pool is refused exactly when no address besides base and server lies in the prefix |
| PoolSearch.FirstIsLo | android/go-src/masque-vpn/cmd/poc-server/ippool.go:76-85 | The first IPv6 candidate is the smallest assignable address, or none when there is none |
| PoolSearch.FirstFit | android/go-src/masque-vpn/cmd/poc-server/ippool.go:113-132 | The IPv6 walk hands out the first unblocked place counted round the circle from the cursor, wherever the cursor stands and however it wraps; the address is in the prefix, not base or server, and unused |
| PoolSearch.ExhaustedIffAllInUse | android/go-src/masque-vpn/cmd/poc-server/ippool.go:113-132 | When the circle fits into one search, the walk fails exactly when every assignable address is in use |
| PoolSearch.LongPrefixIsSmall | android/go-src/masque-vpn/cmd/poc-server/ippool.go:12 | Every prefix of /112 or longer is small enough for that |
| PoolSearch.WalkInNumbers | android/go-src/masque-vpn/cmd/poc-server/ippool.go:113-132 | The walk over addresses, with its two stopping tests, is step for step a walk over numbers on a circle |
| PoolSearch.Scan | android/go-src/masque-vpn/cmd/poc-server/ippool.go:114-131 | The walk stops at the first unblocked place or after a full circle or 65536 places, all places before it being blocked |
| PoolSearch.ForwardOnly | android/go-src/masque-vpn/cmd/poc-server/ippool.go:113-132 | A walk that does not pass the end of the prefix returns an address at or after the cursor and leaves the cursor right behind it |
| PoolSearch.WrapsIff | android/go-src/masque-vpn/cmd/poc-server/ippool.go:113-132 | The walk passes the end of the prefix exactly when every place from the cursor to the end is blocked and they are fewer than 65536 |
| PoolSearch.FoundIff | android/go-src/masque-vpn/cmd/poc-server/ippool.go:113-132 | The address found is the first place from the cursor that is not blocked, and none is found exactly when there is no such place within reach |
| PoolLaws.AllocateKeepsInv | android/go-src/masque-vpn/cmd/poc-server/ippool.go:137-165 | AllocateFor keeps the pool invariant |
| PoolLaws.AllocateLaw | android/go-src/masque-vpn/cmd/poc-server/ippool.go:137-165 | A refusal changes only lease bookkeeping and the IPv6 cursor; a grant is for one assignable address under the next lease number, now in use, and free before unless it is the remembered one |
| PoolLaws.GrantsAreHosts | android/go-src/masque-vpn/cmd/poc-server/ippool.go:96-101 | Of either family a granted prefix and every prefix on record for an address in use is valid, of full length, and covers that address and no other |
| PoolLaws.FreshLaw | android/go-src/masque-vpn/cmd/poc-server/ippool.go:104-133 | A fresh address is assignable and was not in use, and is out of the free list |
| PoolLaws.WithoutLaw | android/go-src/masque-vpn/cmd/poc-server/ippool.go:87-94 | takeFree removes exactly the one address and keeps the list free of duplicates |
| PoolLaws.ReleaseKeepsInv | android/go-src/masque-vpn/cmd/poc-server/ippool.go:168-186 | Release with arbitrary arguments keeps the pool invariant |
| PoolLaws.ReleaseLaw | android/go-src/masque-vpn/cmd/poc-server/ippool.go:168-186 | Release frees the address exactly for an anonymous caller or under the current lease of the id, and never touches the memory |
| PoolLaws.CallLaw | android/go-src/masque-vpn/cmd/poc-server/ippool.go:137-186 | Any call with any arguments keeps the invariant and every remembered address |
| PoolLaws.PartitionLaw | android/go-src/masque-vpn/cmd/poc-server/ippool.go:104-186 | Free list and addresses in use partition exactly the original hosts, the free list has no duplicates, and prefixOf has the keys of inUse with /32 values |
| PoolLaws.IPv4DeniedIffAllInUse | android/go-src/masque-vpn/cmd/poc-server/ippool.go:104-165 | An IPv4 pool refuses exactly a client it does not remember while all addresses are in use |
| PoolLaws.IPv6DeniedIffAllInUse | android/go-src/masque-vpn/cmd/poc-server/ippool.go:113-165 | The same for IPv6 whenever one search covers the prefix |
| PoolLaws.SameAddressForever | android/go-src/masque-vpn/cmd/poc-server/ippool.go:143-163 | After a named client has been given an address, AllocateFor gives it that address again after any sequence of calls |
| PoolLaws.IdleIsPermutation | android/go-src/masque-vpn/cmd/poc-server/ippool.go:183-185 | With nothing in use the IPv4 free list is a permutation of the original |
| PoolLaws.AvailableIsTheRest | android/go-src/masque-vpn/cmd/poc-server/ippool.go:190-195 | Available plus the addresses in use is the number of hosts |
| PoolLaws.AvailableIPv6 | android/go-src/masque-vpn/cmd/poc-server/ippool.go:190-200 | For IPv6 Available is 0 exactly when the cursor has passed the last address of the prefix |
| PoolLaws.OfferedIff | android/go-src/masque-vpn/cmd/poc-server/ippool.go:104-163 | What AllocateFor gives is known before the call: the remembered address, or else the last of the IPv4 free list, or the first IPv6 place from the cursor that is not blocked; a refusal means there is none |
| PoolLaws.SharedGrantIff | android/go-src/masque-vpn/cmd/poc-server/ippool.go:145-151 | An address already in use is granted exactly to a client remembered under it, since the remembered path does not ask; the user may be the client itself |
| PoolLaws.ReissuesIff | android/go-src/masque-vpn/cmd/poc-server/ippool.go:104-163 | A newcomer is given a remembered address exactly when what the pool has for it before the call is one |
| PoolLaws.DistinctUntilReissued | android/go-src/masque-vpn/cmd/poc-server/ippool.go:143-163 | Remembered addresses of different clients stay different exactly as long as that guard is false of named newcomers |
| PoolLaws.TakesTheLast | android/go-src/masque-vpn/cmd/poc-server/ippool.go:109-111 | A first-time IPv4 client takes the tail of the free list |
| PoolLaws.ReleasedIsNext | android/go-src/masque-vpn/cmd/poc-server/ippool.go:109-184 | An address released after a first-time client took it is the next one handed out, although it is still remembered |
| PoolLaws.TwoClientsOneAddress | android/go-src/masque-vpn/cmd/poc-server/ippool.go:109-184 | Witness, in every IPv4 pool with a free address: allocate, release, allocate for another, allocate again puts two clients with current leases on one address |
| PoolLaws.FreedWhileHeld | android/go-src/masque-vpn/cmd/poc-server/ippool.go:137-186 | Witness, in every IPv4 pool with a free address: a client served twice releases under its second lease, and its first session still holds the address, not even in use, that the next newcomer is given |
| PoolLaws.IPv6FreshIsLargest | android/go-src/masque-vpn/cmd/poc-server/ippool.go:113-163 | Unless all places from the cursor to the end are blocked, a fresh IPv6 address exceeds all in use or remembered, so none is reissued |
| PoolLaws.ReleaseKeepsBehind | android/go-src/masque-vpn/cmd/poc-server/ippool.go:168-186 | Release keeps all IPv6 addresses behind the cursor |
| IPPoolClass.IPPool.NewIPPool | android/go-src/masque-vpn/cmd/poc-server/ippool.go:30-74 | The constructor refines NewPool: same error cases, and a valid object in the described state |
| IPPoolClass.IPPool.EnumerateHosts | android/go-src/masque-vpn/cmd/poc-server/ippool.go:54-62 | The loop with Next, Is4 and Less appends exactly the hosts in ascending order |
| IPPoolClass.IPPool.TakeFree | android/go-src/masque-vpn/cmd/poc-server/ippool.go:87-94 | The in-place removal equals removing the first occurrence |
| IPPoolClass.IPPool.AllocFreshLocked | android/go-src/masque-vpn/cmd/poc-server/ippool.go:104-133 | The loop with its cursor refines the specified walk, on success, on exhaustion and on a missing candidate |
| IPPoolClass.IPPool.AllocateFor | android/go-src/masque-vpn/cmd/poc-server/ippool.go:137-165 | The object moves to the specified next state and returns the specified grant |
| IPPoolClass.IPPool.AllocateLocked | android/go-src/masque-vpn/cmd/poc-server/ippool.go:140-164 | The body under the lock, with field updates in the order of the source |
| IPPoolClass.IPPool.Release | android/go-src/masque-vpn/cmd/poc-server/ippool.go:168-186 | The object moves to the specified next state |
| IPPoolClass.IPPool.Available | android/go-src/masque-vpn/cmd/poc-server/ippool.go:190-200 | Length of the free list, or whether the cursor can still walk |
| ServerLaws.StepKeepsOk | android/go-src/masque-vpn/cmd/poc-server/main.go:367-440 | Every step of every handler, in any interleaving, keeps the server invariant: sessions, pools, router, index and the accounts of outstanding grants |
| ServerLaws.GrantAccounts | android/go-src/masque-vpn/cmd/poc-server/ippool.go:137-165 | After a grant every address in use still has an outstanding holder that is anonymous or has the current lease of its CN |
| ServerLaws.ReturnAccounts | android/go-src/masque-vpn/cmd/poc-server/ippool.go:168-186 | After a release every address still in use keeps such a holder |
| ServerLaws.AddKeepsRouter | android/go-src/masque-vpn/cmd/poc-server/main.go:159-163 | Router.Add keeps every route pointing to a registered session with that address |
| ServerLaws.RemoveKeepsRouter | android/go-src/masque-vpn/cmd/poc-server/main.go:166-172 | Router.Remove keeps it too, and every route of another connection is left as it was |
| ServerLaws.TakeKeepsOk | android/go-src/masque-vpn/cmd/poc-server/main.go:189-199 | take keeps the index pointing to sessions that have yet to drop |
| ServerLaws.DropKeepsOk | android/go-src/masque-vpn/cmd/poc-server/main.go:201-210 | drop keeps it too |
| ServerLaws.AllocKeepsOk | android/go-src/masque-vpn/cmd/poc-server/main.go:406-435 | The allocation step with its three outcomes (no pool, refused, granted) keeps the server invariant |
| ServerLaws.ReleaseKeepsOk | android/go-src/masque-vpn/cmd/poc-server/main.go:416-434 | The deferred release keeps the server invariant |
| ServerRuns.RunKeepsOk | android/go-src/masque-vpn/cmd/poc-server/main.go:367-440 | The server invariant holds in every reachable state |
| ServerRuns.NothingLeaks | android/go-src/masque-vpn/cmd/poc-server/ippool.go:137-186 | Whatever the interleaving and even when addresses collide, once every grant had its release nothing is in use and the IPv4 free list is a permutation of the original |
| ServerRuns.AllTablesEmptyAtTheEnd | android/go-src/masque-vpn/cmd/poc-server/main.go:403-513 | When all sessions have ended, router and session index are empty and no address is in use |
| ServerRuns.RouteOwner | android/go-src/masque-vpn/cmd/poc-server/main.go:159-179 | A route names a connection only between that session's Add and its Remove, and for an address it was assigned |
| ServerRuns.GivenForever | android/go-src/masque-vpn/cmd/poc-server/main.go:231-247 | A connection keeps the addresses it was given, so a lookup stays right until the packet is written |
| ReconnectSafety.StepKeepsSafe | android/go-src/masque-vpn/cmd/poc-server/main.go:367-440 | A step that does not overlap setups of one CN and reissues nothing keeps newest sessions indexed, leased and routed |
| ReconnectSafety.StepKeepsNewestHeld | android/go-src/masque-vpn/cmd/poc-server/ippool.go:137-186 | A step in which the counter does not wrap keeps the newest session of every CN, if it holds an address, on the current lease and the address in use |
| ReconnectSafety.StepKeepsPools | android/go-src/masque-vpn/cmd/poc-server/ippool.go:137-186 | A tame step keeps both pools in order for reconnects |
| ReconnectSafety.TakeKeepsTables | android/go-src/masque-vpn/cmd/poc-server/main.go:189-199 | take by a serialized setup keeps the newest sessions indexed and routed |
| ReconnectSafety.AddingKeepsTables | android/go-src/masque-vpn/cmd/poc-server/main.go:504-509 | Registering a route takes none away from a current session |
| ReconnectSafety.RemoveKeepsTables | android/go-src/masque-vpn/cmd/poc-server/main.go:505-509 | The deferred Remove of an older session leaves routes of current sessions |
| ReconnectSafety.DropKeepsTables | android/go-src/masque-vpn/cmd/poc-server/main.go:201-210 | The deferred drop of an older session leaves the index entry of the newest |
| ServerRuns.RunKeepsSafe | android/go-src/masque-vpn/cmd/poc-server/main.go:367-440 | The same for whole runs |
| ServerRuns.NewestSessionIsUndisturbed | android/go-src/masque-vpn/cmd/poc-server/main.go:403-510 | Reconnect safety: for every interleaving of older teardowns the newest session of a CN stays the byCN entry, keeps the current lease in both pools on addresses in use, and keeps its routes |
| FamilySteps.OtherStep | android/go-src/masque-vpn/cmd/poc-server/main.go:403-510 | Only an AllocateFor and a Release of a family touch its pool and what sessions hold of it |
| ServerRuns.TameIsFiveRules | android/go-src/masque-vpn/cmd/poc-server/main.go:403-436 | The hypothesis of reconnect safety is five independent rules: setups of one CN take turns, and in each family the counter does not wrap and nothing remembered is reissued |
| Exclusivity.StepKeepsApart | android/go-src/masque-vpn/cmd/poc-server/ippool.go:137-186 | A step that reissues nothing of a family keeps its remembered addresses and anonymous holders apart, whatever else it does |
| Exclusivity.ApartMeansDifferent | android/go-src/masque-vpn/cmd/poc-server/ippool.go:137-186 | While they are apart, two holders of one address are sessions of one named client |
| Exclusivity.SharesIff | android/go-src/masque-vpn/cmd/poc-server/ippool.go:137-186 | From a state in which clients share no address of a family, a step makes two of them share one exactly if it is an AllocateFor and what the pool has for its client is held by a session of another |
| ExclusivityRuns.NeverShareIff | android/go-src/masque-vpn/cmd/poc-server/ippool.go:137-186 | From any such state clients share nothing throughout a run exactly if no step offers a client what another client holds |
| ExclusivityRuns.ShareNothingFromTheStartIff | android/go-src/masque-vpn/cmd/poc-server/ippool.go:137-186 | The same for every run of the server from its start |
| SharedAddress.TwoClientsShare | android/go-src/masque-vpn/cmd/poc-server/main.go:403-510 | Witness, a run of the server from its start for every IPv4 pool with a free address: connect, leave, another client connects, the first comes back; two clients hold one address, both under their current leases |
| ExclusivityRuns.ClientsNeverShare | android/go-src/masque-vpn/cmd/poc-server/ippool.go:137-186 | In one family, while nothing remembered is reissued, two sessions of different clients, or two anonymous ones, never hold one address; overlapping setups, the lease counter and the other family do not matter |
| IPv6Exclusivity.ForwardRunSparesMemory | android/go-src/masque-vpn/cmd/poc-server/ippool.go:113-163 | Until the cursor of an IPv6 pool passes the end of the prefix nothing of it is reissued |
| IPv6Exclusivity.IPv6ClientsNeverShare | android/go-src/masque-vpn/cmd/poc-server/ippool.go:104-186 | IPv6 exclusivity end to end, from the start until that pool's cursor first wraps |
| IPv6Exclusivity.IPv6FreshExceedsAll | android/go-src/masque-vpn/cmd/poc-server/ippool.go:113-163 | From the start until the cursor first wraps, an address given to a newcomer exceeds every address any session was ever given and all in use or remembered |
| IPv6Exclusivity.RunKeepsEverBehind | android/go-src/masque-vpn/cmd/poc-server/ippool.go:113-163 | Over such runs every address ever given, in use or remembered lies behind the cursor |
| ExclusivityRuns.KnownRunSparesMemory | android/go-src/masque-vpn/cmd/poc-server/ippool.go:143-151 | While only remembered clients ask a pool, nothing of it is reissued |
| ExclusivityRuns.KnownClientsNeverShare | android/go-src/masque-vpn/cmd/poc-server/ippool.go:143-186 | Exclusivity for a known population: from any state with injective sticky and named holders, while every AllocateFor names a remembered client |
| CurrentLeases.StaysCurrentIff | android/go-src/masque-vpn/cmd/poc-server/ippool.go:140-186 | In any step but its own release the holder of the current lease of its CN stays it exactly if the step is not an AllocateFor by another session of that CN |
| LeaseRuns.CurrentUntilSuperseded | android/go-src/masque-vpn/cmd/poc-server/ippool.go:140-186 | Over any run in which it keeps its lease, the holder is current at the end exactly if no other session of its CN was served in between |
| CurrentLeases.SupersededReleaseIsHarmless | android/go-src/masque-vpn/cmd/poc-server/ippool.go:172-174 | The Release of a superseded session changes no pool, so it never frees its successor's address; no assumption |
| LeaseRuns.CurrentAddressInUse | android/go-src/masque-vpn/cmd/poc-server/ippool.go:137-186 | If in the family nothing remembered is reissued and the lease counter does not wrap, the address of a session with the current lease is in use, whatever other clients and older sessions release, even when setups overlap |
| LeaseRuns.IPv6CurrentAddressInUse | android/go-src/masque-vpn/cmd/poc-server/ippool.go:104-186 | For IPv6 end to end: from the start, until the cursor first passes the end, if the counter does not wrap |
| LeaseRuns.KnownAddressInUse | android/go-src/masque-vpn/cmd/poc-server/ippool.go:143-186 | For a known population and a counter that does not wrap: from any state with injective sticky, named holders and numbered leases, in which the address of this session, if it is current already, is in use |
| LeaseRuns.OverlappingSetups | android/go-src/masque-vpn/cmd/poc-server/main.go:403-408 | Witness: when two setups of one CN overlap, the superseded session holds the current lease and the newest one cannot release |
| LeaseRuns.TwiceTheSame | android/go-src/masque-vpn/cmd/poc-server/ippool.go:140-151 | Two allocations for one CN give one address in any pool, and only the second lease may release it |
| ServerRuns.SameClientSameAddress | android/go-src/masque-vpn/cmd/poc-server/ippool.go:143-163 | Any two sessions of one named client, whenever they ran, were given the same address |
| ServerRuns.PoolsLearn | android/go-src/masque-vpn/cmd/poc-server/ippool.go:143-163 | No step of the server makes a pool forget or change a remembered address |
| ServerTables.DstIPReadsBack | android/go-src/masque-vpn/cmd/poc-server/main.go:540-562 | A destination written into a whole header of either family is read back; nothing else has one |
| ServerTables.DstIPBytes | android/go-src/masque-vpn/cmd/poc-server/main.go:540-562 | A packet is addressed to an address exactly if bytes 16 to 19 of an IPv4 or 24 to 39 of an IPv6 header spell it |
| ServerTables.RoutedByBytes | android/go-src/masque-vpn/cmd/poc-server/main.go:236-240 | A packet whose bytes spell an address goes to the connection registered for it, or nowhere |
| ServerTables.NewestGetsItsPackets | android/go-src/masque-vpn/cmd/poc-server/main.go:215-249 | Under reconnect safety, once the newest session of a CN is forwarding every packet for an address it was given from a pool is handed to it, whatever its older sessions still do |
| ServerTables.PacketsReachTheirOwner | android/go-src/masque-vpn/cmd/poc-server/main.go:215-249 | Every packet the TUN reader hands to a connection is addressed to an address that session was assigned and has registered |
| ServerTables.DispatchedToOwners | android/go-src/masque-vpn/cmd/poc-server/main.go:231-247 | A batch sends exactly the packets that have a recipient, each to its own |
| ServerTables.DispatchedInOrder | android/go-src/masque-vpn/cmd/poc-server/main.go:231-247 | What is sent of a batch is exactly its packets with a recipient, each once, to that recipient, in the order of the batch |
| ServerTables.BatchReachesItsOwners | android/go-src/masque-vpn/cmd/poc-server/main.go:215-249 | In every reachable state a whole batch goes to sessions that were assigned and have registered the destinations |
| ServerTables.Router.Add | android/go-src/masque-vpn/cmd/poc-server/main.go:159-163 | Map update, replacing an older connection |
| ServerTables.Router.Remove | android/go-src/masque-vpn/cmd/poc-server/main.go:166-172 | Removes the entry only if it is still this connection |
| ServerTables.Router.Dispatch | android/go-src/masque-vpn/cmd/poc-server/main.go:231-247 | One batch: every packet with an owner goes to it, in order, the others are dropped |
| ServerTables.SessionIndex.Take | android/go-src/masque-vpn/cmd/poc-server/main.go:189-199 | Installs the connection and names the one to close: the entry of a named CN before the call if that is another connection, and none otherwise |
| LiveSessions.StepKeepsClosed | android/go-src/masque-vpn/cmd/poc-server/main.go:189-199 | Every step keeps all sessions of a named CN between take and drop closed, except the index entry |
| LiveSessions.OneLiveSession | android/go-src/masque-vpn/cmd/poc-server/main.go:180-210 | At most one live session per CN in every reachable state, without any assumption: two sessions past take, not finished and not closed are one session, the index entry |
| LiveSessions.EndedSessionsAreClosed | android/go-src/masque-vpn/cmd/poc-server/main.go:406-413 | In every reachable state a session that has stopped forwarding, or was refused an address, has been closed |
| Supersession.ClosedIffSuperseded | android/go-src/masque-vpn/cmd/poc-server/main.go:189-199 | In every reachable state a session between take and the end of its forwarding, not refused, has been closed exactly if it is a named client's and another session of that client has called take since, counted from the steps alone |
| Supersession.NewestIsLastTaker | android/go-src/masque-vpn/cmd/poc-server/main.go:189-199 | The session the theorems call the newest of a CN is the one that called take last |
| ServerTables.SessionIndex.Drop | android/go-src/masque-vpn/cmd/poc-server/main.go:201-210 | Removes the entry only if it is still this connection |
| AddressStability.IPv4SideStays | android/go-src/masque-vpn/cmd/poc-server/main.go:406-414 | No run changes the prefix of the IPv4 pool, and without a pool every session has the one configured address |
| AddressStability.ReconnectsKeepTheAddress | android/go-src/masque-vpn/cmd/poc-server/main.go:470-475 | Server and client together, with a pool or with the fixed address: every session of a named client is announced the same list, IPv4 first, so the changed-address branch of the redial is unreachable |
| AddressStability.AnnouncesWhatWasGiven | android/go-src/masque-vpn/cmd/poc-server/main.go:470-475 | In every reachable state the list announced to a session with an IPv4 pool covers exactly the addresses that session was given, IPv6 included when there is one, each entry covering one address |
| AddressStability.AnnouncesFixedPrefix | android/go-src/masque-vpn/cmd/poc-server/main.go:406-414 | Without an IPv4 pool the list starts with the configured prefix, and its address is what the session was given |
| AddressStability.ListsAreDisjoint | android/go-src/masque-vpn/cmd/poc-server/main.go:470-475 | While nothing remembered is reissued, the lists of two sessions of different clients that hold their addresses cover no common address |
| LastAddress.LastIPOfPrefix | android/go-src/masque-vpn/cmd/poc-server/main.go:565-586 | The byte and bit loop equals base + 2^(width-bits) - 1 and is the maximum of the prefix, for both families |
| LastAddress.HostBitStep | android/go-src/masque-vpn/cmd/poc-server/main.go:571-575 | Setting bit i adds 2^i to the address |
| LastAddress.NextBitClear | android/go-src/masque-vpn/cmd/poc-server/main.go:571-575 | After i host bits have been set, bit i is still clear |
| LastAddress.BytesRoundTrip | android/go-src/masque-vpn/cmd/poc-server/main.go:569-585 | As4/As16 and AddrFrom4/AddrFrom16 undo each other |
| LastAddress.MappedByBytes | android/go-src/masque-vpn/mobile/masque.go:186 | An IPv6 address counts as IPv4-mapped exactly if its bytes are ten zeros, 255 and 255 before the last four |
| Bytes.SetBitIsOr | android/go-src/masque-vpn/cmd/poc-server/main.go:574 | Adding a clear bit is the bitwise or of the source, on every byte and bit |
| Bytes.BitOfByte | android/go-src/masque-vpn/cmd/poc-server/main.go:572-574 | Bit i of the number is bit i mod 8 of the byte i div 8 places from the end |
| Bytes.UpdateValue | android/go-src/masque-vpn/cmd/poc-server/main.go:574 | Changing one byte changes the number by the difference times its weight |
| Checksum.Ipv4Checksum | android/go-src/masque-vpn/internal/clientcore/iphdr.go:80-92 | The loops compute the complement of the folded word sum; the fold terminates |
| Checksum.ByteCounts | android/go-src/masque-vpn/internal/clientcore/iphdr.go:82-87 | Each byte adds its value to the sum, 256 times it at an even offset, odd lengths included |
| Checksum.ZerosSumToZero | android/go-src/masque-vpn/internal/clientcore/iphdr.go:82-87 | A buffer of zeros has sum 0 |
| Checksum.FoldCarries | android/go-src/masque-vpn/internal/clientcore/iphdr.go:88-90 | The fold loop reaches a 16-bit value congruent modulo 65535 |
| Checksum.CarryBack | android/go-src/masque-vpn/internal/clientcore/iphdr.go:89 | One fold step preserves the sum modulo 65535 and is zero only for zero |
| Checksum.NoOverflow | android/go-src/masque-vpn/internal/clientcore/iphdr.go:81-87 | The uint32 sum cannot overflow for up to 65537 words |
| Checksum.BoundIsSharp | android/go-src/masque-vpn/internal/clientcore/iphdr.go:81-87 | For 65538 words it can |
| Checksum.StoreWord | android/go-src/masque-vpn/internal/clientcore/iphdr.go:57-59 | Writing a word at an even offset changes the sum by exactly its value |
| Checksum.ComplementFits | android/go-src/masque-vpn/internal/clientcore/iphdr.go:88-91 | Adding the complement of a folded uint32 does not wrap it and folds to all ones |
| Checksum.StoredVerifies | android/go-src/masque-vpn/internal/clientcore/iphdr.go:55-59 | Storing the checksum at any even offset makes the checksum of the whole buffer 0, for every content and every length, odd ones and those that wrap the uint32 included |
| Packets.NormalizeTTL | android/go-src/masque-vpn/internal/clientcore/iphdr.go:34-76 | In place: the packet becomes the specified one, with the reported TTL and flag, for short, foreign and both kinds of packets |
| Packets.RecomputeChecksum | android/go-src/masque-vpn/internal/clientcore/iphdr.go:50-59 | In place: header checksum over the header length the code uses |
| Packets.SplitAssigned | android/go-src/masque-vpn/internal/clientcore/iphdr.go:175-186 | The first plain IPv4 and the first IPv6 address that is not IPv4-mapped |
| Packets.PrepareOutgoing | android/go-src/masque-vpn/internal/clientcore/iphdr.go:131-173 | In place: drop, pass or rewrite as specified |
| Packets.WriteSource | android/go-src/masque-vpn/internal/clientcore/iphdr.go:147-159 | In place: only the source bytes change |
| OutgoingPipeline.KeptPackets | android/go-src/masque-vpn/internal/clientcore/iphdr.go:34-173 | Kept exactly when a whole header with an assigned address of its family; only TTL, checksum and source differ; source is the assigned one, TTL at least 2; the IPv4 checksum verifies if and only if it did before or the header was rewritten; a second pass changes nothing |
| OutgoingPipeline.NormalizedLaw | android/go-src/masque-vpn/internal/clientcore/iphdr.go:34-76 | TTL at least 2 afterwards, only editable bytes differ, and the checksum verifies exactly if it did or the TTL was raised |
| OutgoingPipeline.NormalizedBytes | android/go-src/masque-vpn/internal/clientcore/iphdr.go:34-76 | By offsets and constants: a TTL below 2 becomes 64 and only the two checksum bytes may change besides, the header then verifying; a hop limit below 2 becomes 64 and nothing else; every other packet stays as it is |
| OutgoingPipeline.PreparedLaw | android/go-src/masque-vpn/internal/clientcore/iphdr.go:131-173 | The same for the source rewrite |
| OutgoingPipeline.PreparedBytes | android/go-src/masque-vpn/internal/clientcore/iphdr.go:131-173 | By offsets: the assigned address is in bytes 12 to 15 or 8 to 23, the flag says whether it was not before, an IPv4 header rewritten verifies, nothing else changes, and every packet without an assigned address of its family is dropped unchanged |
| OutgoingPipeline.ResummedLaw | android/go-src/masque-vpn/internal/clientcore/iphdr.go:164-168 | A recomputed header verifies over the header length the code uses |
| OutgoingPipeline.AssignedIsListed | android/go-src/masque-vpn/internal/clientcore/iphdr.go:175-186 | The address used is that of one of the assigned prefixes, and there is none exactly when no prefix is of that kind |
| OutgoingPipeline.AssignedIsFirst | android/go-src/masque-vpn/internal/clientcore/iphdr.go:175-186 | The address used is that of the first prefix of its kind |
| OutgoingPipeline.ForwardBatch | android/go-src/masque-vpn/internal/clientcore/pump.go:194-208 | The batch loop edits each packet in its own buffer, writes the kept ones in order, and stops at the first refused write with the later buffers as they were |
| OutgoingPipeline.SentPackets | android/go-src/masque-vpn/internal/clientcore/pump.go:194-208 | Every packet sent carries the assigned source of its family and TTL at least 2 |
| OutgoingPipeline.KeptInOrder | android/go-src/masque-vpn/internal/clientcore/pump.go:194-208 | What is sent is exactly the packets of the batch that are not dropped, each once, in the order of the batch |
| PumpLaws.StepKeepsInv | android/go-src/masque-vpn/internal/clientcore/pump.go:37-210 | Every step of Run, readTUN, cancellation and outside closes keeps ownership, cause and backoff |
| PumpLaws.StepKeepsOwnership | android/go-src/masque-vpn/internal/clientcore/pump.go:98-123 | Every session ever supplied is closed, in the slot, or held by a loop about to install or close it |
| PumpLaws.NoSessionIsLost | android/go-src/masque-vpn/internal/clientcore/pump.go:37-137 | The same in every reachable state |
| PumpLaws.SlotStaysEmpty | android/go-src/masque-vpn/internal/clientcore/pump.go:44-96 | After Run has returned the slot is and stays nil |
| PumpLaws.AllClosedAtTheEnd | android/go-src/masque-vpn/internal/clientcore/pump.go:37-192 | Once both loops have ended every session ever supplied is closed |
| PumpLaws.WhyRunReturned | android/go-src/masque-vpn/internal/clientcore/pump.go:44-96 | Run returns only after a cancellation or with the TUN error on record |
| PumpLaws.FirstTunErrorIsKept | android/go-src/masque-vpn/internal/clientcore/pump.go:131-137 | The first TUN error is the one kept, over every run |
| PumpLaws.OneMoreBatch | android/go-src/masque-vpn/internal/clientcore/pump.go:180-210 | After a cancellation readTUN forwards at most one more batch, over every run |
| PumpLaws.BackoffSchedule | android/go-src/masque-vpn/internal/clientcore/pump.go:63-71 | Every recorded wait is min(2^(k-1), 15) seconds for the k recorded with it |
| PumpLaws.CountIsKept | android/go-src/masque-vpn/internal/clientcore/pump.go:63-81 | That k is the number of redial failures since the last installation, counted from the steps alone |
| PumpLaws.EveryWait | android/go-src/masque-vpn/internal/clientcore/pump.go:58-81 | In every reachable state an uncancelled redial failure makes Run sleep min(2^(k-1), 15) seconds, k counted from the steps since the last installation; nothing else makes it sleep |
| PumpLaws.DoubledWait | android/go-src/masque-vpn/internal/clientcore/pump.go:68-71 | Doubling with a cap follows that schedule |
| PumpLaws.LateInstall | android/go-src/masque-vpn/internal/clientcore/pump.go:74-80 | Witness: the TUN can fail between the test and the installation; then Run reads from a live session although readTUN has ended |
| PumpLaws.LateReadingIff | android/go-src/masque-vpn/internal/clientcore/pump.go:74-80 | When the TUN error has just been recorded, Run reading from an installed session after readTUN has ended is reachable exactly if Run stands between its test and the installation |
| PumpLaws.NoLaterInstall | android/go-src/masque-vpn/internal/clientcore/pump.go:74-80 | From any other point no run installs a session after the error |
| PumpLaws.OnlyTunErrorsAreReported | android/go-src/masque-vpn/mobile/masque.go:346-354 | OnError fires only for the recorded TUN error on a tunnel that was not stopped |
| PumpObject.PumpState.CloseSession | android/go-src/masque-vpn/internal/clientcore/pump.go:115-123 | The slot is emptied and what was in it closed |
| PumpObject.PumpState.SetTunErr | android/go-src/masque-vpn/internal/clientcore/pump.go:131-137 | Keeps the first error |
| PumpObject.PumpState.ReaderFails | android/go-src/masque-vpn/internal/clientcore/pump.go:181-186 | The error exit of readTUN is a run of the state machine |
| PumpObject.PumpState.RedialFailed | android/go-src/masque-vpn/internal/clientcore/pump.go:58-73 | The failure branch is a run of the state machine; the wait recorded is the backoff, which then doubles up to 15 |
| PumpObject.PumpState.RedialSucceeded | android/go-src/masque-vpn/internal/clientcore/pump.go:74-82 | Installation, with the backoff back at one second, or closing the new session when the TUN failed meanwhile, is a run of the state machine |
| PumpObject.PumpState.ReadUntilLost | android/go-src/masque-vpn/internal/clientcore/pump.go:85-94 | What follows readConn closes the session, returns for good after a TUN write failure, and is a run of the state machine |
| PumpObject.PumpState.CheckStop | android/go-src/masque-vpn/internal/clientcore/pump.go:46-53 | The checks at the head of the loop: cancellation first, then the TUN error; either closes the session |
| PumpObject.PumpState.AcquireSession | android/go-src/masque-vpn/internal/clientcore/pump.go:55-83 | From an empty slot to an installed session, unless the redial fails or the TUN fails meanwhile; then the slot stays empty and a session supplied is closed |
| PumpObject.PumpState.Turn | android/go-src/masque-vpn/internal/clientcore/pump.go:45-95 | One whole turn of the loop is a run of the state machine back to its head or to a return; it returns for the cause named by the inputs, closes exactly the session it worked with, and records a wait exactly when a redial fails uncancelled |
| ClientRedial.Tunnel.RememberAssigned | android/go-src/masque-vpn/mobile/masque.go:171-182 | Remembers the first IPv4 and the first IPv6 prefix, keeping what the list does not name |
| ClientRedial.Tunnel.FindPrefix | android/go-src/masque-vpn/mobile/masque.go:184-192 | The scan finds the first prefix of the wanted kind |
| ClientRedial.Tunnel.Redialed | android/go-src/masque-vpn/mobile/masque.go:301-343 | On a stopped tunnel or a changed address the session is closed and not installed, and a change also cancels; otherwise it is installed and remembered |
| ClientRedial.Tunnel.Stop | android/go-src/masque-vpn/mobile/masque.go:365-384 | Idempotent; closes the known session, the datagram pipe and the packet bridge, and cancels |
| ClientRedial.IPv4FirstAcceptsSame | android/go-src/masque-vpn/mobile/masque.go:311-317 | Against a server listing IPv4 first the rule refuses exactly a different first address |
| ClientRedial.SameListRefusedIff | android/go-src/masque-vpn/mobile/masque.go:311-317 | An unchanged list is refused exactly when it puts a plain IPv6 address before one that is not |
| ClientRedial.TunAddressNeverChanges | android/go-src/masque-vpn/mobile/masque.go:311-343 | Over any number of redials to a server listing IPv4 first the remembered address never changes |
| ClientRedial.FirstPrefixFound | android/go-src/masque-vpn/mobile/masque.go:184-192 | A prefix is found exactly when one of that kind is listed, and it is one |
| ClientRedial.FirstPrefixIsFirst | android/go-src/masque-vpn/mobile/masque.go:184-192 | The prefix found is the one at the first index of its kind |
| ClientRedial.RememberedIs | android/go-src/masque-vpn/mobile/masque.go:171-182 | Address and length remembered are those of the first prefix that is not plain IPv6, the IPv6 address that of the first that is, and what the list does not name stays as it was |
| TunnelRuns.StepKeepsTunnel | android/go-src/masque-vpn/mobile/masque.go:296-384 | Every interleaving of Stop, the steps of the redial and both loops of the pump keeps the ownership of all connected sessions |
| TunnelRuns.NoSessionAfterStop | android/go-src/masque-vpn/mobile/masque.go:301-343 | After Stop no session becomes the tunnel's, whatever redial was under way |
| TunnelRuns.StopClosesEverything | android/go-src/masque-vpn/mobile/masque.go:305-384 | After Stop every session ever connected is closed or in the hands of the redial or of readTUN, which is about to close it; what Run may still install is closed |
| TunnelRuns.EverySessionIsClosed | android/go-src/masque-vpn/mobile/masque.go:296-384 | Once both loops have ended every session ever connected, refused ones included, is closed |
| TunnelRuns.RefusalEndsRun | android/go-src/masque-vpn/mobile/masque.go:305-329 | In every reachable state a redial that refused its session makes Run return context.Canceled without another wait, the session being closed |
| TunnelRuns.TunAddressStays | android/go-src/masque-vpn/mobile/masque.go:171-343 | Over every run of redials, refusals and stops against a server listing IPv4 first, the tunnel remembers the first address of the dial its TUN was built with |
| TunnelRuns.ReachesThePumpIff | android/go-src/masque-vpn/mobile/masque.go:305-343 | In such a run a redial's session reaches the pump exactly if the tunnel was not stopped and the session was assigned that address |
| BridgeLaws.StepKeepsApart | android/go-src/masque-vpn/mobile/memory.go:53-71 | No step puts a buffer into two places among pool, queues and hands |
| BridgeLaws.StepKeepsBacked | android/go-src/masque-vpn/mobile/memory.go:53-71 | Pooled buffers keep capacity and length 2048, and a buffer in hand holds the bytes its thread means |
| BridgeLaws.HandStaysOk | android/go-src/masque-vpn/mobile/packet_bridge.go:42-140 | Nobody else writes a buffer that is in a thread's hand |
| BridgeLaws.CameFrom | android/go-src/masque-vpn/mobile/memory.go:53-71 | A buffer that is somewhere after a step was just made or was somewhere before |
| BridgeRuns.StepRefinesFifo | android/go-src/masque-vpn/mobile/packet_bridge.go:42-159 | Every step, seen from a queue, is one step of a plain bounded FIFO of byte strings |
| BridgeRuns.FifoKeepsOrder | android/go-src/masque-vpn/mobile/packet_bridge.go:31-32 | In such a FIFO at most 64 wait, and accepted is taken followed by waiting, in the order offered |
| BridgeRuns.QueuedIsUntouched | android/go-src/masque-vpn/mobile/memory.go:53-71 | No step writes a buffer that waits in a queue |
| BridgeRuns.StepKeepsInv | android/go-src/masque-vpn/mobile/packet_bridge.go:42-159 | Every step of any number of threads keeps the whole invariant |
| BridgeRuns.BuffersAreNeverShared | android/go-src/masque-vpn/mobile/memory.go:40-71 | In every reachable state no buffer is in two places and pooled ones have capacity 2048 |
| BridgeRuns.InOrderAndIntact | android/go-src/masque-vpn/mobile/packet_bridge.go:42-159 | At most 64 wait and what came out is an in-order subsequence of what was offered |
| BridgeRuns.LostOnlyWhenFull | android/go-src/masque-vpn/mobile/packet_bridge.go:62-139 | In every reachable state a string offered is accepted only while fewer than 64 wait and lost only when 64 wait or the queue is closed |
| BridgeRuns.ReaderGetsTheNext | android/go-src/masque-vpn/mobile/datagram.go:108-114 | However late the copy happens, the reader delivers exactly the next accepted string, cut to its room |
| BridgeLaws.PrefixSubsequence | android/go-src/masque-vpn/mobile/packet_bridge.go:133-138 | A prefix of a subsequence is a subsequence |
| PacketBuffers.Buf.Hold | android/go-src/masque-vpn/mobile/memory.go:58-61 | The buffer holds a copy of the source and the rest of its memory is as before |
| PacketBuffers.BufPool.GetBuf | android/go-src/masque-vpn/mobile/memory.go:53-63 | A copy of src in a pooled or new buffer that is no longer pooled; a long one is new; no other pooled buffer shares its memory |
| PacketBuffers.BufPool.PutBuf | android/go-src/masque-vpn/mobile/memory.go:65-71 | Pools exactly a non-nil buffer of capacity 2048, stretched to full length |
| PacketBuffers.PacketQueue.Offer | android/go-src/masque-vpn/mobile/packet_bridge.go:128-139 | Not stopped, the packet is the new last one while fewer than 64 wait, and lost with 64 waiting; refused only when closed; nothing else in the queue changes |
| PacketBuffers.PacketQueue.Write | android/go-src/masque-vpn/mobile/packet_bridge.go:62-82 | The loop offers every buffer that reaches the offset in order, counts dropped ones as written, and stops before the last one only when closed |
| PacketBuffers.PacketQueue.ReadPacket | android/go-src/masque-vpn/mobile/packet_bridge.go:151-158 | The oldest packet, or nil only when closed |
| PacketBuffers.PacketQueue.Read | android/go-src/masque-vpn/mobile/packet_bridge.go:46-59 | The oldest packet at the offset with the rest of the buffer unchanged, or lost with ErrShortBuffer exactly when it does not fit |
| PacketBuffers.PacketQueue.ReadFrom | android/go-src/masque-vpn/mobile/datagram.go:112-114 | The oldest packet cut to the buffer, the rest of the buffer unchanged |
| PacketBuffers.FittingLaw | android/go-src/masque-vpn/mobile/packet_bridge.go:73-78 | A queue offered some strings keeps what it holds and takes the first of them until it is full |
| PacketBuffers.FittingOne | android/go-src/masque-vpn/mobile/packet_bridge.go:73-78 | Offering strings one at a time comes to the same as offering them together |
| PacketBuffers.TailsInOrder | android/go-src/masque-vpn/mobile/packet_bridge.go:64-68 | What Write offers is every buffer that reaches the offset, from the offset on, each once and in order |
| Deadline.LosesUpdateIff | android/go-src/masque-vpn/mobile/datagram.go:93-184 | Every step of any number of readers and setters keeps the no-lost-update property, except exactly a reader emptying the slot while another is outdated and no setter is between store and poke |
| Deadline.TimesOutIff | android/go-src/masque-vpn/mobile/datagram.go:176-201 | A reader times out exactly at a deadline that is set and not in the future: the one in force when it looks, the one it copied when it waits |
| Deadline.NoUpdateIsLost | android/go-src/masque-vpn/mobile/datagram.go:93-201 | With a single reader and any number of setters a reader waiting on an outdated deadline has a pending poke or setter; otherwise it times out exactly by the current deadline |
| Deadline.SingleReaderRun | android/go-src/masque-vpn/mobile/datagram.go:93-163 | The same as an invariant of every run of one reader |
| Deadline.PokeBringsTheNewDeadline | android/go-src/masque-vpn/mobile/datagram.go:117-121 | From any outdated wait the pending poke leads the reader to the current deadline, or out if that has expired |
| Deadline.TwoReadersLoseAnUpdate | android/go-src/masque-vpn/mobile/datagram.go:154-163 | Witness, a run from a fresh pipe: two readers begin to wait, a deadline is set, and one of them never learns of it |
| DatagramPipe.BridgePacketConn.SetReadDeadline | android/go-src/masque-vpn/mobile/datagram.go:154-163 | Store and poke, equal to the two steps of the state machine |
| DatagramPipe.BridgePacketConn.Deliver | android/go-src/masque-vpn/mobile/datagram.go:53-91 | An empty datagram is ignored; on an open pipe another is the new last one while fewer than 64 wait and is lost otherwise |
| DatagramPipe.BridgePacketConn.ReadFrom | android/go-src/masque-vpn/mobile/datagram.go:93-123 | ErrClosed exactly on a closed pipe, a timeout exactly if otherwise a deadline is set and now is not before it, and else the oldest packet; a leftover poke costs a turn of the loop and never a packet |
| Dialing.DualDialAddrs | android/go-src/masque-vpn/internal/clientcore/dualport.go:18-29 | Primary first, a second address on the same host exactly for another port in 1..65535, all different |
| Dialing.Leg.Dial | android/go-src/masque-vpn/internal/clientcore/dualport.go:51-60 | On success one QUIC connection more is open and the leg owns it; on failure nothing changes |
| Dialing.Leg.Close | android/go-src/masque-vpn/internal/clientcore/dualport.go:39-49 | Closes exactly what the leg owns |
| Dialing.ListenAndDialQUIC | android/go-src/masque-vpn/internal/clientcore/dualport.go:62-76 | Exactly one leg opened on success, nothing left open on failure |
| Dialing.Winner | android/go-src/masque-vpn/internal/clientcore/dualport.go:100-113 | The first in arrival order to connect, none exactly when none does |
| Dialing.SomebodyWins | android/go-src/masque-vpn/internal/clientcore/dualport.go:100-117 | Whether the race is won does not depend on the order of arrival |
| Dialing.PlaceOf | android/go-src/masque-vpn/internal/clientcore/dualport.go:89-96 | Every attempt arrives exactly once |
| Dialing.DialAll | android/go-src/masque-vpn/internal/clientcore/dualport.go:89-96 | The legs of all goroutines own different handles, and nothing else has been opened |
| Dialing.KeepFirst | android/go-src/masque-vpn/internal/clientcore/dualport.go:98-113 | The receive loop keeps the first leg and closes every other, or collects all errors |
| Dialing.RaceQUIC | android/go-src/masque-vpn/internal/clientcore/dualport.go:80-118 | For any number of addresses and any order of arrival exactly the winning leg stays open, or none and the failures are reported in order of arrival |
| Connecting.FinishCONNECTIP | android/go-src/masque-vpn/internal/clientcore/dualport.go:120-177 | On success the leg and one CONNECT-IP connection are in the session; on each of the seven failures, reported as the first stage that failed, the leg and that connection are closed |
| Connecting.Refusal | android/go-src/masque-vpn/internal/clientcore/dualport.go:126-159 | A stage is to blame exactly when the reply is not a success with prefixes and routes |
| Connecting.RefusalIsFirst | android/go-src/masque-vpn/internal/clientcore/dualport.go:126-159 | The error names the first of the seven stages that is not passed |
| Connecting.ConnectShared | android/go-src/masque-vpn/internal/clientcore/client.go:139-145 | Over a shared PacketConn a session owns two connections, an error leaves nothing open, and the PacketConn stays open |
| Connecting.DialError | android/go-src/masque-vpn/internal/clientcore/dualport.go:62-118 | A failed race reports one error for every attempt |
| Connecting.DialOwn | android/go-src/masque-vpn/internal/clientcore/client.go:147-158 | One dial or a race: exactly one leg, to the address whose attempt connects first, or nothing and the failure of the attempt or of all attempts in order of arrival |
| Connecting.ConnectOwn | android/go-src/masque-vpn/internal/clientcore/client.go:147-159 | Over its own sockets a connect ends with exactly one leg, the winning one, on success, and on error with none and the failing stage |
| Connecting.ConnectWithPacketConn | android/go-src/masque-vpn/internal/clientcore/client.go:117-160 | Success exactly when every stage succeeds, over the winning address; otherwise the failing stage is reported; conservation of open handles on every path |
| Connecting.Session.Close | android/go-src/masque-vpn/internal/clientcore/client.go:287-304 | Closes exactly what the session owns the first time, nothing after |

## Left out

- QUIC, TLS, HTTP/3 and connect-ip-go: a connection is an identity that is open or closed, and dials, reads and writes succeed or fail without cause. The client is taken to receive the list the server announced.
- Real time, fairness and promptness: sleeps are recorded durations, deadlines are ordered values, and no theorem says that a step is eventually taken.
- TCP and UDP checksums after a source rewrite: the code recomputes only the IPv4 header checksum.
- Address and prefix text: `netip.ParsePrefix` is a parameter that gives a prefix or nothing, and addresses are compared as values where the client compares their text.
- The inUse map of the pool is a set, since the code never stores false in it.
- LastAddress.LastIPOfPrefix: one loop for both families where the source repeats it for four and for sixteen bytes.
- Log-only mode without a TUN device, flags, TOML files, certificates and the CN denylist: plumbing.
- Panics recovered in `Dial` and `ConnectWithPacketConn`, and the binding of a socket to an interface, which changes no ownership.
- ServerTables.Router.Dispatch: names the recipient of each packet; whether the write to that connection succeeds changes nothing there.
- Dialing.DialAll: the goroutines of the race are listed in the order in which they finish; their effects on different sockets commute.
- DatagramPipe.BridgePacketConn.ReadFrom: states what one undisturbed call returns; interleavings with setters and other readers are the subject of Deadline.
- PacketBuffers.PacketQueue.Offer: runs as one step here; interleavings of the copy, the send and the return of the buffer are the subject of BridgeRuns.
- PumpObject.PumpState.Turn: lets the other loop act only while Run waits for the redial; all interleavings are the subject of PumpLaws.
- Which case a `select` takes when a bridge queue is closed and could also go on: both are allowed, so order and integrity are claimed after Close and nothing else.
- The packet bridge's "not started" errors, MTU, events and names: one-branch facts.
- The copies of these files for Windows, the Windows engine, the SSH installer, route setup by external commands, and the iOS and Android wrappers.
