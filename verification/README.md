# OpenVRRP: a verified model

OpenVRRP is a daemon for version 3 of the Virtual Router Redundancy Protocol
(RFC 5798). A group of routers shares virtual IP addresses; one of them is Master
and answers for the addresses, the others are Backups and take over when the
Master falls silent. This project models the parts of the daemon that decide who is
Master, what goes over the wire, where the virtual addresses are, what is kept in
the configuration file and who is registered where, and proves that they do what
they are for.

The code changes objects in place, so the model does too. Each class of the program
is a Dafny class (`VrrpService`, `VrrpSocket`, `Timer`, `VrrpManager`, `ArpService`,
`Netlink`) whose methods are proved to leave exactly the state that a function on
values computes. The theorems are about those functions: what one step keeps, what
holds after every run, and how several routers behave together. Time, the log of
what a router has sent and done, and the places where addresses are configured are
ghost state.

| file | contents |
|---|---|
| `Addresses.dfy` | addresses, subnets, their orders, iteration of sets, the address-list check |
| `Checksum.dfy` | the Internet checksum with its 32-bit accumulator and fold loop |
| `Advertisement.dfy` | the ADVERTISEMENT on the wire: encoding, decoding, acceptance |
| `VrrpSocket.dfy` | the shared socket: interface counts, listeners, sending, receiving (module `Sockets`) |
| `Timer.dfy` | one-shot timers (module `Timers`) |
| `Router.dfy` | one router as a value, each event handler as a function, runs (module `RouterSpec`) |
| `VrrpService.dfy` | the service class, proved against `RouterSpec` (module `VrrpServices`) |
| `RouterSteps.dfy` | which handler an event runs, each handler in closed form, what it logs |
| `RouterInvariants.dfy` | ranges, timers, the trace; unsent advertisements; zero durations; `disable()` |
| `RouterHistory.dfy` | what a router remembers and what it has been told, over its whole run |
| `SendLimits.dfy` | what the log calls sent against what sendPacket sends |
| `RouterStatistics.dfy` | the receive counters as tallies of a run |
| `AddressPlacement.dfy` | addresses on the interface or in the ARP responder |
| `SharedPlacement.dfy` | the same for several routers on one host |
| `Rfc5798.dfy` | the state machine of sections 6.4.1 to 6.4.3 of RFC 5798 and the simulation |
| `Election.dfy` | many routers on a lossy, duplicating, reordering LAN |
| `Stability.dfy` | bounded loss and delay, and when no Backup ever times out |
| `Takeover.dfy` | the Master falls silent: who takes over, and when the others let it |
| `Preemption.dfy` | a Backup of higher priority against a running Master |
| `ElectionTimes.dfy` | the arithmetic of section 6.1 of RFC 5798 with integer division |
| `ConfigFormat.dfy`, `Configurator.dfy`, `ConfigFile.dfy` | the configuration format, the services rebuilt from it, the methods over streams |
| `ConfigEffects.dfy` | what single records, old files and damaged files come to, and the bytes of the file |
| `Registry.dfy` | monitors, ARP table, service table and the books of both sockets |
| `Tokenizer.dfy` | the in-place command tokenizer and the join loop |

## Where the code departs from its intent

The model follows the code. Where a property fails, the exact condition under which
it holds is proved.

- A timer started with 0 is armed but never expires (src/timer.cpp:44-57). It happens
  when a priority-zero advertisement is taken with
  (256 - priority) * interval below 256, and with an advertised interval of 0. These
  are the only steps that lose a deadline (`DeadlinePendingExact`). They leave the
  standard, and so does every attempt to advertise that is not sent or does not
  announce all addresses; nothing else does (`SimulationExact`). A Backup with priority 254 and the
  default interval is stranded for ever (`PriorityZeroCanStrand`).
- A router that finds no primary address of its family becomes Master all the same,
  but sendPacket refuses every advertisement (src/vrrpsocket.cpp:516-517), so nobody
  hears it, and statsSentPriZeroPackets counts a resignation that was not sent
  (`MasterCanBeMute`, `SentPriZeroExact`).
- `disable()` does nothing while the link is down, and the next link-up starts the
  router (`DisableExact`).
- `addIpAddress` and `removeIpAddress` use the output interface for the ARP responder,
  every other path uses the interface; two prefixes of one address share an entry;
  leaving accept mode with priority 255 as Master moves the addresses away
  (`AddSubnetExact`, `RemoveSubnetExact`, `ChangeAcceptExact`, `AddressesAgreeExact`;
  inputs that show it: `AddSubnetMisplaces`, `RemoveSubnetLeavesEntry`,
  `RemoveSubnetDropsShared`, `LeavingAcceptMisplaces`).
- The ARP responder belongs to the host: when one of two Masters that answer for the
  same address gives up, takes up accept mode, becomes the owner or loses the address,
  the other has lost it too (`SharedExact`, `OperationExact`, `SharedAddressIsLost`,
  `TwoMastersShare`).
- Different priorities give different timeouts for every pair of Backups only if the
  master interval is at least 255 centiseconds; the default is 100
  (`StrictlyOrderedExact`).
- A service whose VLAN interface cannot be made takes away a count of another service
  on the plain interface (`FailedExact`, `FailureCanSteal`).
- A plain service made on the interface of a VLAN service, with the same router id,
  takes over its listener entry (`CreatedExact`, `PlaceCanBeTaken`).
- With more than 510 IPv4 or 127 IPv6 addresses sendPacket writes past its buffer
  (`FateExact`); a new service can get there (`MasterCanOverrun`). From 256 addresses
  on an advertisement announces only their number modulo 256 (`CarriedExact`).
- The constructor and destructor of a service ignore whether the kernel let them join
  or leave the group and connect netlink: a service can be live without a count or a
  monitor, or leave its count behind (`CreatedExact`, `DestroyedExact`,
  `IgnoredFailures`).
- The header has 12 bits for the interval and 8 for the number of addresses; larger
  values are cut off silently (`RoundTripExact`).
- The address-list check is one-sided: missing addresses are not noticed
  (`AddressListDifference`).
- The interval mismatch counter compares `interval == 0` as a number with the own
  interval (src/vrrpservice.cpp:540), so every packet counts except an interval of 0
  met by an own interval of 1 (`IsIntervalError`), and the TTL error case does not count
  (src/vrrpservice.cpp:801-803). Both are modelled as they are.
- After a failed connect the netlink socket stays allocated with an empty registry
  (`Netlink.AddInterfaceMonitor`).

## Model

| member | source | states |
|---|---|---|
| Addresses.LessIsStrictTotalOrder | src/ipaddress.cpp:109-127 | operator< is the lexicographic order on family and the number the bytes denote: a strict total order, operator> its converse, and neither-less-nor-greater is equality |
| Addresses.SubnetLessIsStrictTotalOrder | src/ipsubnet.cpp:60-70 | the subnet order extends the address order by the prefix length and is a strict total order |
| Addresses.InOrderVisitsEachOnce | src/ipaddress.h:112 | iterating a set of addresses visits every element exactly once, in increasing order |
| Addresses.Elements | src/vrrpsocket.cpp:529-537 | the walk over the set yields that iteration |
| Addresses.DifferenceIsMultisetDifference | src/vrrpservice.cpp:569 | on sorted ranges the merge is the difference of multisets |
| Addresses.SetDifference | src/vrrpservice.cpp:569 | the loop writes exactly that difference, inside a buffer as long as the first range |
| Addresses.AddressListDifference | src/vrrpservice.cpp:560-572 | the difference found has the size of the multiset difference, and is empty exactly when the advertised list is contained in the own set |
| Checksum.AddWords | src/util.cpp:52-60 | the 32-bit accumulator holds the true sum as long as it cannot have wrapped |
| Checksum.Fold | src/util.cpp:62-63 | the fold loop terminates with the 16-bit one's-complement value of the sum |
| Checksum.Compute | src/util.cpp:26-68 | for every packet up to 65535 bytes the result is the checksum of packet and pseudo-header, whose sum TotalIPv4 and TotalIPv6 tell word by word; 0 for addresses of different families |
| Checksum.TotalIPv4 | src/util.cpp:30-60 | for IPv4 what is summed is two words of the source, two of the destination, the protocol, the size modulo 65536 and the words of the packet |
| Checksum.TotalIPv6 | src/util.cpp:39-60 | for IPv6 it is eight words of each address, both halves of the 32-bit size, the protocol and the words of the packet |
| Checksum.KnownChecksumIPv4 | src/util.cpp:26-68 | an advertisement from 10.0.0.1 to 224.0.0.18 has checksum 0x800E |
| Checksum.KnownChecksumIPv6 | src/util.cpp:26-68 | the same one from fe80::1 to ff02::12 has checksum 0x6C7B |
| Checksum.VerifiesIffDivisible | src/util.cpp:50-67 | verification gives 0 exactly when the full sum is divisible by 65535 |
| Checksum.StoredChecksumVerifies | src/vrrpsocket.cpp:539-541 | storing the computed value at bytes 6 and 7 makes the packet verify |
| Checksum.ChangedWordIsDetected | src/util.cpp:50-67 | of all changes to one 16-bit word exactly 0x0000 for 0xFFFF and back go unnoticed |
| Advertisement.EncodedIsDelivered | src/vrrpsocket.cpp:507-541 | whatever is sent passes every check of a listener and is decoded field by field, up to the widths of the header fields |
| Advertisement.RoundTripExact | src/vrrpsocket.cpp:356-472 | decoding gives back the content sent exactly when the interval is at most 4095 and there are at most 255 addresses |
| Advertisement.SentBytes | src/vrrpsocket.cpp:519-541 | the bytes on the wire, one by one: 0x31, router id, priority, count modulo 256, the high interval nibble under four zero bits, the low interval byte, a checksum that makes all words sum to a multiple of 65535, and address i at 8 + i * size |
| Advertisement.KnownPacket | src/vrrpsocket.cpp:519-541 | one whole packet, checksum included |
| Advertisement.CarriedExact | src/vrrpsocket.cpp:523 | a datagram announces all addresses of its set if and only if there are at most 255 |
| Advertisement.DeliveredIffAcceptable | src/vrrpsocket.cpp:356-457 | the staged pipeline delivers exactly the datagrams that meet all checks of section 7.1 of RFC 5798 taken together |
| Sockets.VrrpSocket.AddInterface | src/vrrpsocket.cpp:150-186 | counts one more user of the interface, or changes nothing when the first join fails |
| Sockets.VrrpSocket.RemoveInterface | src/vrrpsocket.cpp:188-228 | counts one user fewer, dropping the entry with the last; fails without change when there is none |
| Sockets.VrrpSocket.AddEventListener | src/vrrpsocket.cpp:230-233 | the listener is entered for that interface and router id, nothing else changes |
| Sockets.VrrpSocket.RemoveEventListener | src/vrrpsocket.cpp:235-246 | the entry is removed, and the inner map with its last entry |
| Sockets.VrrpSocket.WriteAddresses | src/vrrpsocket.cpp:529-537 | copies all addresses behind the header, or stops at the first of another family; where the code would write past the buffer the outcome is an overrun |
| Sockets.VrrpSocket.SendPacket | src/vrrpsocket.cpp:507-541 | the datagram handed to the kernel has the bytes that section 5.2 of RFC 5798 asks for, one by one, with the set in iteration order and protocol 112 in the checksum; none for a foreign family |
| Sockets.FateExact | src/vrrpsocket.cpp:527-537 | an own list is sent if and only if it has at most 510 IPv4 or 127 IPv6 addresses, and overruns the buffer otherwise |
| Sockets.ForeignFate | src/vrrpsocket.cpp:532-537 | with an address of another family the attempt is refused if the addresses before it fit, and overruns the buffer otherwise |
| SendLimits.DispatchedExact | src/vrrpsocket.cpp:516-537 | an advertisement is handed over exactly if primary address and addresses are of the family and there is room for them, which is what the router model calls sent |
| SendLimits.MasterCanOverrun | src/vrrpsocket.cpp:532-537 | a new IPv6 service with 128 addresses becomes Master, and no advertisement of it is sent in order |
| Sockets.VrrpSocket.NotifyAll | src/vrrpsocket.cpp:361-365 | the loop makes the broadcast of one error to an interface |
| Sockets.BroadcastReachesEachOnce | src/vrrpsocket.cpp:361-365 | a broadcast calls each listener on the interface exactly once and nobody else |
| Sockets.VrrpSocket.ReadAddresses | src/vrrpsocket.cpp:459-463 | reads exactly the announced addresses, every one inside the packet |
| Sockets.VrrpSocket.OnVerifiedPacket | src/vrrpsocket.cpp:403-474 | the second half of the pipeline: its outcome, calls and counters |
| Sockets.VrrpSocket.OnSocketPacket | src/vrrpsocket.cpp:356-474 | each datagram has one verdict; it determines the result, the listener calls and the shared counters |
| Sockets.CountersAreTallies | src/vrrpsocket.cpp:386-472 | over any run of datagrams, at either socket and with any listeners, each shared counter is the number of datagrams with its verdict, and listeners are handed exactly one packet for each delivered one |
| Sockets.CountedExact | src/vrrpsocket.cpp:369-435 | which datagrams the three shared counters count, told from their bytes |
| Sockets.ErrorsExact | src/vrrpsocket.cpp:356-457 | which error each listener is told of, exactly once, told from the bytes of the datagram: length, version, type, router id, TTL or missing addresses, and never of a wrong checksum |
| Sockets.DeliveredBytes | src/vrrpsocket.cpp:417-474 | a delivered datagram is one call, to the listener of packet[1], with priority packet[2], interval 256 * (packet[4] % 16) + packet[5], and as address i the bytes from 8 + i * size on |
| Sockets.SentIsReceived | src/vrrpsocket.cpp:356-472 | a datagram that was sent causes a single call, to the listener of that router id, with the same fields and addresses |
| Timers.Timer.Start | src/timer.cpp:44-57 | armed, with a deadline after msec milliseconds, and with none for msec 0 |
| Timers.Timer.Stop | src/timer.cpp:59-72 | neither armed nor pending |
| VrrpServices.VrrpService.constructor | src/vrrpservice.cpp:38-72 | a new service is the default router: Disabled, priority 100, interval 100, accept mode for IPv6 and VLANs |
| VrrpServices.VrrpService.Startup | src/vrrpservice.cpp:448-476 | an address owner becomes Master at once, with addresses placed, advertisement and gratuitous ARPs sent and the next advertisement scheduled; any other router becomes Backup and waits a full master-down interval |
| VrrpServices.VrrpService.Shutdown | src/vrrpservice.cpp:478-495 | a Backup stops waiting; a Master stops its timer, sends priority zero, gives up its addresses and counts it; otherwise nothing happens |
| VrrpServices.VrrpService.OnMasterDownTimer | src/vrrpservice.cpp:497-517 | the silent Master is replaced: same effects as an owner's startup, with the pending reason recorded; no effect outside Backup |
| VrrpServices.VrrpService.OnAdvertisementTimer | src/vrrpservice.cpp:519-527 | a Master advertises and schedules the next advertisement with the interval then in force; no effect outside Master |
| VrrpServices.VrrpService.OnIncomingVrrpPacket | src/vrrpservice.cpp:529-614 | for every state and advertisement the whole new state: which timer restarts with which duration, who yields, what is sent and counted; the master on record is the sender exactly if a Backup accepts the advertisement, and the protocol error is cleared |
| VrrpServices.VrrpService.CheckAddressList | src/vrrpservice.cpp:560-578 | counts an error exactly when the list is not contained, with repetitions, in the own addresses |
| VrrpServices.VrrpService.SetState | src/vrrpservice.cpp:627-665 | entering Master places the addresses and sends the first advertisement, leaving it removes them, staying does nothing |
| VrrpServices.VrrpService.AddIpAddresses | src/vrrpservice.cpp:693-707 | after the loop all subnets are placed where the mode says |
| VrrpServices.VrrpService.RemoveIpAddresses | src/vrrpservice.cpp:709-723 | after the loop all subnets are gone from there |
| VrrpServices.VrrpService.MoveToInterface | src/vrrpservice.cpp:231-235 | the loop takes every address from the ARP responder to the interface |
| VrrpServices.VrrpService.MoveToArp | src/vrrpservice.cpp:242-246 | the loop takes every address from the interface to the ARP responder |
| VrrpServices.VrrpService.OnIncomingVrrpError | src/vrrpservice.cpp:781-813 | four kinds of error become the protocol error on record, each other kind changes its own counter, and nothing else changes |
| VrrpServices.VrrpService.InterfaceCallback | src/vrrpservice.cpp:815-828 | link-up starts a router waiting for it, link-down shuts down any enabled router to LinkDown |
| VrrpServices.VrrpService.Enable | src/vrrpservice.cpp:344-353 | a disabled router starts, or waits for its link |
| VrrpServices.VrrpService.Disable | src/vrrpservice.cpp:355-361 | an enabled router is shut down to Disabled, as far as Shutdown goes |
| VrrpServices.VrrpService.SetPriority | src/vrrpservice.cpp:220-253 | refuses 0 and otherwise, in every state, the priority is the one asked for; a Master without accept mode moves its addresses when 255 is entered or left; the protocol state stays |
| VrrpServices.VrrpService.SetAdvertisementInterval | src/vrrpservice.cpp:260-266 | accepts exactly 1 to 4095, and then that is the interval in every state |
| VrrpServices.VrrpService.SetPreemptMode | src/vrrpservice.cpp:288-291 | sets the preempt flag alone, in every state |
| VrrpServices.VrrpService.SetAcceptMode | src/vrrpservice.cpp:298-328 | sets the accept flag, but not for IPv6 and VLANs; a Master moves its addresses to where the new mode wants them |
| VrrpServices.VrrpService.SetPrimaryIpAddress | src/vrrpservice.cpp:199-209 | accepts exactly an address of the own family, and then that is the primary address |
| VrrpServices.VrrpService.AddIpAddress | src/vrrpservice.cpp:725-741 | refuses a foreign family; enters subnet and address, and a Master places it, in the ARP responder of the output interface |
| VrrpServices.VrrpService.RemoveIpAddress | src/vrrpservice.cpp:743-758 | true exactly if subnet or address was known; removes both, and a Master gives the place up, on the output interface |
| RouterSteps.StepEmits | src/vrrpservice.cpp:448-646 | what a step sends, announces and changes, told from state and event: the log grows by exactly that |
| RouterHistory.RemembersStep | src/vrrpservice.cpp:448-614 | which events change the master on record, the pending reason, the reason of the last change of role and the last protocol error, and to what; no other event changes them |
| RouterHistory.RemembersAlways | src/vrrpservice.cpp:448-614 | over every run the master is the sender of the last advertisement accepted as Backup, or the own address since the last entry to Master; each reason and the protocol error are those of the last event that gave one |
| RouterHistory.TakeoverReason | src/vrrpservice.cpp:497-517 | a router that times out after any run records Priority after a resignation or after giving way, Preempted after an inferior master, MasterNotResponding after the right one or none |
| RouterHistory.ObeysStep | src/vrrpservice.cpp:199-328 | no event changes a setting that it does not name, a refused value changes none, and a setting that is named takes its value in every state |
| RouterHistory.ObeysAlways | src/vrrpservice.cpp:199-328 | over every run priority, interval, preempt and accept flag and primary address are the last accepted ones; family, interfaces, VLAN id and router id never change |
| RouterHistory.SubnetsObey | src/vrrpservice.cpp:725-758 | over every run a subnet is the router's exactly if it was last added and not removed, and an address whatever its prefix length |
| RouterHistory.NewService | src/vrrpservice.cpp:38-72 | every field of a new service, by value |
| RouterInvariants.SoundKept | src/vrrpservice.cpp:220-614 | every event keeps the ranges of the settings, and: Backup has only the master-down timer armed, Master only the advertisement timer, the others neither |
| RouterInvariants.TraceAgreesKept | src/vrrpservice.cpp:448-646 | every event keeps: a router only tries to advertise as Master, first at entry; priority zero comes directly before the change to Disabled or LinkDown and there is no other way there; statistics equal the counts of the trace; the next attempt is due ten times the interval after the last |
| RouterInvariants.InvAlways | src/vrrpservice.cpp:448-646 | timers, trace, priority in 1..255 and intervals up to 4095 hold after every run of events |
| RouterInvariants.CreatedInv | src/vrrpservice.cpp:38-72 | and so after every run from a new service |
| RouterInvariants.AllSentExact | src/vrrpsocket.cpp:516-537 | a step leaves an advertisement unsent exactly if it tries to advertise without a primary address of the family or with more addresses than there is room for |
| RouterInvariants.AudibleExact | src/vrrpservice.cpp:725-730 | a router with a primary address and room for its addresses stays one exactly unless an address too many is added |
| RouterInvariants.AllSentAlways | src/vrrpservice.cpp:616-625 | if that never happens, every attempt of every run is sent, so that the trace is one of sent advertisements |
| RouterInvariants.SentPriZeroExact | src/vrrpservice.cpp:493 | statsSentPriZeroPackets is the number of priority-zero packets sent exactly if no attempt came to nothing |
| RouterInvariants.MasterCanBeMute | src/netlink.cpp:64-86 | a new service without an address becomes Master, is never heard, and counts a resignation nobody got |
| RouterStatistics.StatisticsAreTallies | src/vrrpservice.cpp:529-614 | over every run each receive counter grows by the number of steps of its kind: packets, priority zero as Backup or Master, accepted lists that are not contained, malformed types and lengths |
| RouterInvariants.DeadlinePendingExact | src/vrrpservice.cpp:548-557 | a step loses the pending deadline of the master-down timer exactly if it starts it with duration zero |
| RouterInvariants.DeadlinePendingAlways | src/vrrpservice.cpp:529-614 | in every run without such steps an armed master-down timer has a deadline |
| RouterInvariants.LostDeadlineIsStuck | src/timer.cpp:44-57 | a Backup without a deadline stays Backup however long it waits |
| RouterInvariants.PriorityZeroCanStrand | src/vrrpservice.cpp:278-281 | at priority 254 and the default interval one priority-zero advertisement does this |
| RouterInvariants.DisableExact | src/vrrpservice.cpp:355-361 | disable() leads to Disabled exactly when the link is not down; otherwise the next link-up starts the router |
| AddressPlacement.AddSubnetExact | src/vrrpservice.cpp:725-741 | adding an address keeps the wanted placement exactly if the ARP responder is not in use or both interfaces are the same |
| AddressPlacement.RemoveSubnetExact | src/vrrpservice.cpp:743-758 | the exact condition for removing one, in terms of interfaces and shared addresses |
| AddressPlacement.ChangeAcceptExact | src/vrrpservice.cpp:298-328 | changing accept mode keeps it except for a Master with priority 255 that has subnets and leaves the mode |
| AddressPlacement.ChangePriorityKeeps | src/vrrpservice.cpp:220-253 | changing the priority always keeps it |
| AddressPlacement.AddSubnetMisplaces | src/vrrpservice.cpp:732-738 | a new service that sends on another interface becomes Master and adds an address: it is in the wrong place |
| AddressPlacement.RemoveSubnetLeavesEntry | src/vrrpservice.cpp:749-755 | and an address removed there stays behind |
| AddressPlacement.RemoveSubnetDropsShared | src/vrrpservice.cpp:746-755 | removing one of two prefixes drops the shared address from the responder and from the advertisements |
| AddressPlacement.LeavingAcceptMisplaces | src/vrrpservice.cpp:317-324 | an owner that leaves accept mode as Master gives up its addresses |
| AddressPlacement.PlacementExact | src/vrrpservice.cpp:627-758 | every step keeps it exactly under the condition of its operation |
| AddressPlacement.PlacedExact | src/vrrpservice.cpp:693-707 | the wanted placement place by place, by state, accept flag, priority 255 and interface |
| AddressPlacement.AddressesAgreeExact | src/vrrpservice.cpp:743-747 | the address set follows the subnet set except when a subnet with a shared address is removed |
| AddressPlacement.PlacedAlways | src/vrrpservice.cpp:627-758 | over every run that meets the conditions a Master has exactly its subnets placed, where its mode says, and any other router has none |
| SharedPlacement.AnsweredExact | src/arpservice.cpp:34-79 | adding and removing an entry of the ARP table adds and removes exactly one place |
| SharedPlacement.SharedExact | src/vrrpservice.cpp:627-720 | with several routers on a host, a protocol step keeps the host's placement equal to what all of them want exactly unless a Master gives up a place that another router wants |
| SharedPlacement.OperationExact | src/vrrpservice.cpp:220-758 | every configuring operation keeps it exactly under a condition on the operation, the router and what the others want |
| SharedPlacement.UnsharedExact | src/vrrpservice.cpp:220-758 | where nobody else wants the places it touches, that is its condition for one router |
| SharedPlacement.HarmlessExact | src/vrrpservice.cpp:220-758 | so every event of any router keeps the host's placement exactly if it is harmless |
| SharedPlacement.SharedAlways | src/vrrpservice.cpp:220-758 | it holds over every run of harmless events |
| SharedPlacement.SharedAddressIsLost | src/arpservice.cpp:66-76 | of two Masters with the same address on one interface, one that gives up takes the entry of the other along |
| SharedPlacement.TwoMastersShare | src/arpservice.cpp:66-76 | two new services get there, and it happens by disabling, setAcceptMode, setPriority and removeIpAddress alike |
| Rfc5798.StepSimulates | src/vrrpservice.cpp:448-614 | without a zero duration each step is the standard's step, had every advertisement been sent whole: phase, timers, Master_Adver_Interval, and outputs with priority, interval, source and addresses |
| Rfc5798.SimulationExact | src/vrrpservice.cpp:448-614 | each step is the step of the state machine of RFC 5798, or a stutter, exactly when it neither starts the master-down timer with duration zero nor fails to send an advertisement with all addresses |
| Rfc5798.RunsSimulate | src/vrrpservice.cpp:448-614 | every run without such steps is a run of the standard: phase, timers, Master_Adver_Interval and outputs |
| Rfc5798.NeverZeroSuffices | src/vrrpservice.cpp:448-614 | for a router with a primary address and never more than 255 IPv4 or 127 IPv6 addresses, every run without zero durations is one |
| Rfc5798.OutputsExact | src/vrrpsocket.cpp:516-537 | but for the outputs every other step is the standard's; their number is right exactly if nothing stays unsent, and they are right exactly if all addresses are announced too |
| Rfc5798.ZeroDurationDiverges | src/timer.cpp:44-57 | in such a step the standard's timer expires at once and the router's never |
| Election.OutranksIsStrictTotalOrder | src/vrrpservice.cpp:598 | "makes a Master yield" is a strict total order on routers with distinct primary addresses |
| Election.TopExistsOnce | src/vrrpservice.cpp:598 | so every LAN of such routers has exactly one greatest router |
| Election.StepLogsOwn | src/vrrpservice.cpp:616-625 | whatever happens to a router, it only sends with a primary address, and then its own priority or zero, its own interval and its own addresses |
| Election.HeardIsOwn | src/vrrpsocket.cpp:356-472 | through encoding and the receive pipeline, a router hears another as an advertisement from its address with its priority or zero |
| Election.LanStarts | src/vrrpservice.cpp:38-72 | reachable routers of one virtual router and an empty wire satisfy the invariant of the LAN |
| Election.LanInvKept | src/vrrpservice.cpp:529-625 | with priorities and primary addresses fixed, every step keeps: each datagram ever sent carries some router's own pair, or zero |
| Election.ElectionSafety | src/vrrpservice.cpp:529-614 | the greatest router, once Master and not shut down, stays Master through every run under loss, duplication, reordering and stale datagrams |
| Election.MastersNeverGrow | src/vrrpservice.cpp:529-614 | no event but a master-down timer, a startup and a link-up makes a new Master |
| Election.ContentionResolves | src/vrrpservice.cpp:519-614 | of any number of Masters exactly the greatest is left once an offer of it, sent before or during the run, has reached the others, whatever else happens except new entries and its own shutdown |
| Election.TimerOffers | src/vrrpservice.cpp:519-527 | its advertisement timer puts such an offer on the wire |
| Stability.NotDue | src/vrrpservice.cpp:278-286 | in a stable system no master-down timer is due |
| Stability.ActStable | src/vrrpservice.cpp:519-558 | every action within the limits on loss and delay keeps the system stable |
| Stability.StableAlways | src/vrrpservice.cpp:519-558 | at every point of every run the Master is Master, the Backups are Backups and none is due |
| Stability.StartsStable | src/vrrpservice.cpp:553-558 | Backups that have accepted an advertisement under the bound form a stable system |
| Stability.StableExact | src/vrrpservice.cpp:278-286 | no run lets any Backup time out if and only if (losses + 1) * 10 * interval + delay < 10 * masterDownInterval for each of them |
| ElectionTimes.MasterDownBounds | src/vrrpservice.cpp:278-286 | between 3 and less than 4 master intervals, never longer for a higher priority, no 32-bit overflow |
| ElectionTimes.StrictlyOrderedExact | src/vrrpservice.cpp:278-286 | strictly shorter for every higher priority if and only if the master interval is at least 255 |
| ElectionTimes.TimeoutsFollowPriority | src/vrrpservice.cpp:553-558 | Backups that accept the same advertisement at the same moment time out in the order of their priorities |
| Takeover.CandidateTakesOver | src/vrrpservice.cpp:497-558 | after the last advertisements that Backups accepted of a silent Master, each at its own time: if every other one times out later than the first by more than losses and delay can hold up its first advertisement, then in every run the first, and nobody else, becomes Master, at its time and not before, and stays Master |
| Takeover.TakeoverExact | src/vrrpservice.cpp:497-558 | no run lets another Backup time out if and only if this holds for each of them |
| Takeover.AnyDifferenceIsHeeded | src/vrrpservice.cpp:278-286 | with an interval of at least 255, no losses, and delay and lead in acceptance below 10 ms together, every difference of priorities suffices |
| Preemption.Preempts | src/vrrpservice.cpp:497-614 | a Backup in preempt mode with a higher priority than the running Master becomes Master when its time runs out and not before, whatever the Master sends; the Master gives way within the losses and the delay that its first advertisement can suffer, and both stay so |
| ConfigFormat.ReadsInt | src/configurator.cpp:282-295 | reading at the position where an integer was written gives it back, whatever follows |
| ConfigFormat.ReadsBoolean | src/configurator.cpp:297-310 | the same for a flag |
| ConfigFormat.ReadsString | src/configurator.cpp:312-337 | the same for a string, cut to 255 bytes |
| ConfigFormat.ReadsIp | src/configurator.cpp:339-373 | the same for an address |
| ConfigFormat.ReadsSubnet | src/configurator.cpp:375-389 | the same for a subnet |
| ConfigFormat.ReadsSubnets | src/configurator.cpp:127-134 | the same for a list of subnets, read into a set |
| Configurators.ReadsRecord | src/configurator.cpp:79-134 | a record of version 3, its subnets in any order, is read back whole |
| Configurators.OneMoreSubnet | src/configurator.cpp:186-189 | the loaded router is the result of calling addIpAddress for one subnet after the other |
| Configurators.Rebuilds | src/configurator.cpp:136-193 | a service rebuilt from its own record passes the sanitiser and has the same settings |
| Configurators.FileRoundTrip | src/configurator.cpp:59-197 | reading the file written for any well-formed services with distinct keys consumes all of it and rebuilds exactly those services that can be made, with the same settings, commands cut to 255 bytes |
| ConfigEffects.AdmittedExact | src/configurator.cpp:136-193 | a record that is out of range, names no interface or whose service cannot be made leaves the table alone; any other changes the entry of its own key only, and a new service has exactly its settings |
| ConfigEffects.LoadedExact | src/configurator.cpp:176-193 | what a record does to a service that exists: every setting it replaces, the subnets of its family that it adds, the fields it leaves alone, and when the service changes its state |
| ConfigEffects.ReadsOldRecord | src/configurator.cpp:112-125 | records of versions 1 and 2 are read whole, without commands from version 1 and with the stale VLAN id from both |
| ConfigEffects.RefusedFile | src/configurator.cpp:65-71 | a file of another version, with a negative count or without either changes nothing |
| ConfigEffects.CutFile | src/configurator.cpp:73-134 | a file that ends somewhere in its k-th record is refused, but exactly the services of the records before it are restored |
| ConfigEffects.IntLayout | src/configurator.cpp:291-295 | an integer is four bytes, most significant first, modulo 2^32 |
| ConfigEffects.StringLayout | src/configurator.cpp:326-337 | a string is its length and its first 255 bytes |
| ConfigEffects.KnownFile | src/configurator.cpp:218-280 | the whole file of one service, byte by byte |
| ConfigFile.ReadSubnets | src/configurator.cpp:127-134 | the loop terminates on every file, and with a negative count it always fails |
| ConfigFile.ReadRecord | src/configurator.cpp:79-134 | one record, or failure, as the parser says |
| ConfigFile.AddSubnets | src/configurator.cpp:186-189 | the loop over addIpAddress leaves the router with all subnets of its family |
| ConfigFile.Load | src/configurator.cpp:176-193 | the setter calls in order leave the loaded service |
| ConfigFile.Admit | src/configurator.cpp:136-193 | skips insane records, unknown interfaces and services that cannot be made, and changes one entry otherwise |
| ConfigFile.ReadConfiguration | src/configurator.cpp:59-197 | terminates on every file with the result of `ReadFile`, which FileRoundTrip, CutFile, RefusedFile and AdmittedExact tell |
| ConfigFile.WriteConfiguration | src/configurator.cpp:218-280 | writes the file of `PutFile`, which KnownFile tells and FileRoundTrip reads, every service's subnets exactly once each |
| Registry.Netlink.AddInterfaceMonitor | src/netlink.cpp:434-482 | registers a callback once; the registry is unchanged on failure |
| Registry.Netlink.RemoveInterfaceMonitor | src/netlink.cpp:484-510 | removes it, prunes empty entries and closes the socket with the last |
| Registry.ArpService.AddFakeArp | src/arpservice.cpp:34-56 | one more entry on that interface, or no change |
| Registry.ArpService.RemoveFakeArp | src/arpservice.cpp:58-79 | one entry fewer; an interface without entries is dropped |
| Registry.ArpTableLaws | src/arpservice.cpp:34-79 | both operations affect that interface alone and keep the table free of empty interfaces |
| Registry.CreatedExact | src/vrrpservice.cpp:133-136 | a new service keeps counts, listeners and monitors equal to the live services if and only if no live service listens at its place and the kernel lets it join and connect where it has to |
| Registry.PlaceCanBeTaken | src/vrrpsocket.cpp:230-233 | a run in which a place is taken |
| Registry.DestroyedExact | src/vrrpservice.cpp:139-149 | destroying one keeps them if and only if the kernel lets it leave the group or others stay in it |
| Registry.FailedExact | src/vrrpservice.cpp:117-149 | a failed VLAN service keeps them if and only if its destructor touches nothing on the plain interface: no count it can take, no listener it can silence |
| Registry.IgnoredFailures | src/vrrpservice.cpp:133-149 | what the kernel refuses to join, connect or leave breaks the books, and the service is live all the same |
| Registry.FailureCanSteal | src/vrrpservice.cpp:122-127 | a run in which a failure takes a count |
| Registry.HappensExact | src/vrrpmanager.cpp:36-100 | an event keeps the books if and only if it is orderly |
| Registry.RegistrationConserved | src/vrrpmanager.cpp:36-100 | over every orderly sequence of creations, failures and removals the books are exactly those of the live services, without empty entries, and the netlink socket is open exactly while somebody watches |
| Registry.TableExact | src/vrrpmanager.cpp:50-96 | the table after an event: a creation enters exactly the new service where it listens, a removal takes exactly that service out, failures and refusals change nothing; identities are used once |
| Registry.LiveExact | src/vrrpmanager.cpp:36-100 | over every sequence of events a key is live if and only if it has been created and not been removed since |
| Registry.LiveStays | src/vrrpmanager.cpp:36-100 | a live service stays what it was created as until it is removed |
| Registry.CreatedFootprint | src/vrrpservice.cpp:133-136 | a creation enters its listener, its count and its monitor and touches no other |
| Registry.DeregisteredFootprint | src/vrrpservice.cpp:139-149 | a destructor takes out the listener and the count at its place and its monitor and touches no other |
| Registry.RemovedIsGone | src/vrrpmanager.cpp:83-100 | a removed service is out of the table, nobody listens at its place, and nothing watches for it, whatever the kernel does |
| Registry.VrrpManager.GetService | src/vrrpmanager.cpp:36-68 | answers with the live service of the key, creating it first if asked to; the new one listens on the VLAN interface or on its own, and is the only change of the table; no socket, another family or a failed VLAN make none; from balanced books they stay balanced if and only if that event is orderly |
| Registry.VrrpManager.RemoveService | src/vrrpmanager.cpp:83-100 | the table is the old one without the key; the books change by that service, as far as the kernel lets it |
| Tokenizer.SplitCommand | src/telnetsession.cpp:785-811 | returns exactly the positions where words start, and changes nothing but the byte behind each word, to NUL |
| Tokenizer.StartsExact | src/telnetsession.cpp:799-806 | the positions found are exactly those of non-space bytes at the beginning or after a space |
| Tokenizer.StartsIncrease | src/telnetsession.cpp:799-806 | and they are in increasing order |
| Tokenizer.MarkedExact | src/telnetsession.cpp:791-798 | a byte changes if and only if a word ends right before it |
| Tokenizer.SplitYieldsWords | src/telnetsession.cpp:785-811 | as C strings these positions are exactly the maximal runs of non-space characters, in order |
| Tokenizer.NoWordsExact | src/telnetsession.cpp:791 | a command has no words if and only if all its bytes are among the six space characters |
| Tokenizer.JoinArguments | src/telnetsession.cpp:531-537 | the loop joins the arguments with single spaces |
| Tokenizer.JoinedExact | src/telnetsession.cpp:531-537 | the joined text byte by byte: token i stands behind the earlier tokens and i blanks, and the length is that of all tokens and the blanks between them |
| Tokenizer.SplitJoinExact | src/telnetsession.cpp:531-537 | splitting gives back the joined tokens if and only if each is non-empty and free of spaces |

## Left out

- Sockets, ioctl, libnl, scripts and syslog are foreign. Whether a call succeeds is a parameter (joining and leaving a group, connecting netlink, opening sockets, making a VLAN interface), or success is assumed where the code ignores the result (adding and removing addresses and ARP entries, and sendmsg).
- For IPv6 the code relies on the kernel for neighbour advertisements; the model records where.
- Changing the hardware address, running the master and backup commands and the logging in setState have no effect on the rest and are left out.
- The IP header, the IPv6 extension headers and control messages are kernel layouts; reception starts with interface, TTL, addresses and VRRP payload known.
- MainLoop::run handles up to 16 events at a time; in the model one event is handled at a time, and every event that a timer causes happens when it is due.
- Parsing and printing of addresses, the telnet command tree and its output, main, and the ARP packets themselves.
- `IpAddress::operator==` is inverted and unused by what is modelled; unsetPrimaryIpAddress.
- The destructor of a service is modelled as far as registration is concerned; shutdown is `Shutdown`.
- Sockets.VrrpSocket.SendPacket: after an overrun the code goes on to sendmsg; what it sends and what it has destroyed by then is undefined, so nothing is promised, and a router's advertisement counts as unsent.
- Addresses.AddressListDifference: std::sort is an insertion sort here, since only its result matters; the set is a value.
- Sockets.VrrpSocket.OnSocketPacket: payloads are at most 65535 bytes, which is what an IP header can announce.
- Checksum.Compute: values are in host order, the byte swapping is not modelled.
- Takeover.CandidateTakesOver: the candidate's timers fire on time; other timers may be late.
- Preemption.Preempts: two routers; Backups beside them are not part of it.
- Election.ElectionSafety: priorities and primary addresses are fixed during the run; every other setting may change.
- ConfigFile.ReadConfiguration: services are values; which new services can be made is a parameter; the order of subnets in a file is arbitrary; readsome sees the whole file; the VLAN id of versions 1 and 2, which the code leaves unset, is a parameter; uint_fast16_t has 64 bits.
- Registry.VrrpManager.GetService: identities stand for object addresses and are never reused.
- Statistics counters are unbounded.
