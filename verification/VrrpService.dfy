/** The VrrpService class. Every method is proved to leave the state that the
    corresponding function of module RouterSpec computes. Changes to interfaces and to
    the ARP responder, sent packets and the clock are ghost state. */
module VrrpServices {
  import opened Addresses
  import opened Sockets
  import opened Timers
  import opened Spec = RouterSpec

  class VrrpService {
    // configuration
    const family: int
    const interface: int
    const outputInterface: int
    const vlanId: nat
    const virtualRouterId: Byte
    var priority: Byte
    var primaryIpAddress: IpAddress
    var advertisementInterval: nat
    var preemptMode: bool
    var acceptMode: bool
    var subnets: set<IpSubnet>
    var addresses: set<IpAddress>

    // protocol state
    var state: State
    const masterDownTimer: Timer
    const advertisementTimer: Timer
    var masterAdvertisementInterval: nat
    var masterIpAddress: IpAddress
    var pendingNewMasterReason: Reason
    var stats: Stats

    // the outside world
    ghost var now: nat
    ghost var log: seq<LogItem>
    ghost var placed: Placement

    ghost predicate Valid() {
      masterDownTimer != advertisementTimer
    }

    ghost function Configuration(): Config
      reads this
    {
      Config(family, interface, outputInterface, vlanId, virtualRouterId,
             priority, primaryIpAddress, advertisementInterval, preemptMode, acceptMode, subnets, addresses)
    }

    /** The value this object stands for. */
    ghost function Abs(): Router
      reads this, masterDownTimer, advertisementTimer
    {
      Router(Configuration(), state, masterDownTimer.Value(), advertisementTimer.Value(),
             masterAdvertisementInterval, masterIpAddress, pendingNewMasterReason, stats, now, log, placed)
    }

    constructor (family: int, interface: int, outputInterface: int, vlanId: nat, virtualRouterId: Byte,
                 primary: IpAddress, ghost now: nat)
      ensures Valid() && fresh(masterDownTimer) && fresh(advertisementTimer)
      ensures Abs() == Created(Defaults(family, interface, outputInterface, vlanId, virtualRouterId, primary), now)
    {
      this.family, this.interface, this.outputInterface := family, interface, outputInterface;
      this.vlanId, this.virtualRouterId := vlanId, virtualRouterId;
      priority, primaryIpAddress, advertisementInterval := 100, primary, 100;
      preemptMode, acceptMode := true, family == AF_INET6 || vlanId != 0;
      subnets, addresses := {}, {};
      state, masterAdvertisementInterval, masterIpAddress := Disabled, 100, IpAddress(AF_UNSPEC, []);
      pendingNewMasterReason, stats := MasterNotResponding, Stats(0, NotMaster, 0, 0, None, 0, 0, 0, 0, 0);
      masterDownTimer := new Timer();
      advertisementTimer := new Timer();
      this.now, log, placed := now, [], Placement({}, {});
    }

    // ------------------------------------------------------------ foreign calls

    /** Netlink::addIpAddress and Netlink::removeIpAddress */
    ghost method Netlink(subnet: IpSubnet, add: bool)
      modifies this`placed
      ensures placed == old(placed).(onInterface :=
        if add then old(placed.onInterface) + {(outputInterface, subnet)}
        else old(placed.onInterface) - {(outputInterface, subnet)})
    {
      placed := placed.(onInterface :=
        if add then placed.onInterface + {(outputInterface, subnet)}
        else placed.onInterface - {(outputInterface, subnet)});
    }

    /** ArpService::addFakeArp and ArpService::removeFakeArp */
    ghost method FakeArp(i: int, address: IpAddress, add: bool)
      modifies this`placed
      ensures placed == old(placed).(inArp :=
        if add then old(placed.inArp) + {(i, address)} else old(placed.inArp) - {(i, address)})
    {
      placed := placed.(inArp := if add then placed.inArp + {(i, address)} else placed.inArp - {(i, address)});
    }

    /** VrrpService::sendAdvertisement: Sockets.VrrpSocket.SendPacket sends the
        packet or refuses it. */
    ghost method SendAdvertisement(p: Byte)
      modifies this`log
      ensures Abs() == WithAdvert(old(Abs()), p)
    {
      log := log + [AdvertOf(Configuration(), now, p)];
    }

    ghost method SendARPs()
      modifies this`log
      ensures log == old(log) + [GratuitousArps(addresses)]
    {
      log := log + [GratuitousArps(addresses)];
    }

    /** What the code expects of the kernel for IPv6. */
    ghost method KernelAdvertises()
      modifies this`log
      ensures log == old(log) + [NeighborAdvertisements(addresses)]
    {
      log := log + [NeighborAdvertisements(addresses)];
    }

    // -------------------------------------------------------- address placement

    method AddIpAddresses()
      modifies this`placed
      ensures placed == Added(old(placed), Configuration())
    {
      var rest := subnets;
      if acceptMode || priority == 255 {
        while rest != {}
          invariant rest <= subnets
          invariant placed
                 == old(placed).(onInterface := old(placed.onInterface) + SubnetsOn(outputInterface, subnets - rest))
        {
          var subnet :| subnet in rest;
          Netlink(subnet, true);
          rest := rest - {subnet};
        }
      } else {
        while rest != {}
          invariant rest <= subnets
          invariant placed == old(placed).(inArp := old(placed.inArp) + EntriesOn(interface, subnets - rest))
        {
          var subnet :| subnet in rest;
          FakeArp(interface, subnet.address, true);
          rest := rest - {subnet};
        }
      }
      assert subnets - rest == subnets;
    }

    method RemoveIpAddresses()
      modifies this`placed
      ensures placed == Removed(old(placed), Configuration())
    {
      var rest := subnets;
      if acceptMode || priority == 255 {
        while rest != {}
          invariant rest <= subnets
          invariant placed
                 == old(placed).(onInterface := old(placed.onInterface) - SubnetsOn(outputInterface, subnets - rest))
        {
          var subnet :| subnet in rest;
          Netlink(subnet, false);
          rest := rest - {subnet};
        }
      } else {
        while rest != {}
          invariant rest <= subnets
          invariant placed == old(placed).(inArp := old(placed.inArp) - EntriesOn(interface, subnets - rest))
        {
          var subnet :| subnet in rest;
          FakeArp(interface, subnet.address, false);
          rest := rest - {subnet};
        }
      }
      assert subnets - rest == subnets;
    }

    /** The loop of setPriority and setAcceptMode that moves every address from
        the ARP responder to the output interface. */
    method MoveToInterface()
      modifies this`placed
      ensures placed == MovedToInterface(old(placed), Configuration())
    {
      var rest := subnets;
      while rest != {}
        invariant rest <= subnets
        invariant placed == MovedToInterface(old(placed), Configuration().(subnets := subnets - rest))
      {
        var subnet :| subnet in rest;
        Netlink(subnet, true);
        FakeArp(interface, subnet.address, false);
        rest := rest - {subnet};
      }
      assert subnets - rest == subnets;
    }

    method MoveToArp()
      modifies this`placed
      ensures placed == MovedToArp(old(placed), Configuration())
    {
      var rest := subnets;
      while rest != {}
        invariant rest <= subnets
        invariant placed == MovedToArp(old(placed), Configuration().(subnets := subnets - rest))
      {
        var subnet :| subnet in rest;
        FakeArp(interface, subnet.address, true);
        Netlink(subnet, false);
        rest := rest - {subnet};
      }
      assert subnets - rest == subnets;
    }

    // ------------------------------------------------------------ state machine

    method SetState(s: State)
      modifies this
      ensures Abs() == InState(old(Abs()), s)
    {
      hide Added, Removed, AdvertOf;
      if state != s {
        var oldState := state;
        state := s;
        log := log + [Changed(oldState, s)];
        if state == Master {
          AddIpAddresses();
          SendAdvertisement(priority);
        } else if oldState == Master {
          RemoveIpAddresses();
        }
      }
    }

    /** The part that startup and the master-down handler share. */
    method EnterMaster(reason: Reason)
      requires Valid()
      modifies this, advertisementTimer
      ensures Abs() == BecomeMaster(old(Abs()), reason)
    {
      SetState(Master);
      if family == AF_INET {
        SendARPs();
      } else {
        KernelAdvertises();
      }
      advertisementTimer.Start(advertisementInterval * 10, now);
      stats := stats.(masterTransitions := stats.masterTransitions + 1, newMasterReason := reason);
      masterIpAddress := primaryIpAddress;
    }

    function SkewTime(): nat
      reads this
    {
      Spec.SkewTime(priority, masterAdvertisementInterval)
    }

    function MasterDownInterval(): (n: nat)
      reads this
      ensures n == Spec.MasterDownInterval(priority, masterAdvertisementInterval)
    {
      3 * masterAdvertisementInterval + SkewTime()
    }

    method Startup()
      requires Valid()
      modifies this, masterDownTimer, advertisementTimer
      ensures Abs() == Spec.Startup(old(Abs()))
    {
      if priority == 255 {
        EnterMaster(Preempted);
      } else {
        masterAdvertisementInterval := advertisementInterval;
        masterDownTimer.Start(MasterDownInterval() * 10, now);
        SetState(Backup);
        stats := stats.(newMasterReason := NotMaster);
      }
    }

    method Shutdown(newState: State)
      requires Valid()
      modifies this, masterDownTimer, advertisementTimer
      ensures Abs() == Spec.Shutdown(old(Abs()), newState)
    {
      if state == Backup {
        masterDownTimer.Stop();
        SetState(newState);
      } else if state == Master {
        advertisementTimer.Stop();
        SendAdvertisement(0);
        SetState(newState);
        stats := stats.(sentPriZero := stats.sentPriZero + 1);
      }
    }

    /** Timer::callback for the master-down timer, with onMasterDownTimer. */
    method OnMasterDownTimer()
      requires Valid() && masterDownTimer.armed
      modifies this, masterDownTimer, advertisementTimer
      ensures Abs() == MasterDownExpired(old(Abs()))
    {
      masterDownTimer.Stop();
      if state == Backup {
        EnterMaster(pendingNewMasterReason);
      }
    }

    /** Timer::callback for the advertisement timer, with onAdvertisementTimer. */
    method OnAdvertisementTimer()
      requires Valid() && advertisementTimer.armed
      modifies this, advertisementTimer
      ensures Abs() == AdvertisementExpired(old(Abs()))
    {
      advertisementTimer.Stop();
      if state == Master {
        SendAdvertisement(priority);
        advertisementTimer.Start(advertisementInterval * 10, now);
      }
    }

    /** Waits a full master-down interval for a master with the given interval. */
    method AwaitMaster(interval: nat)
      requires Valid()
      modifies this`masterAdvertisementInterval, masterDownTimer
      ensures Abs() == WaitForMaster(old(Abs()).(masterInterval := interval))
    {
      hide MasterDownInterval, Spec.MasterDownInterval, Spec.SkewTime;
      masterAdvertisementInterval := interval;
      masterDownTimer.Start(MasterDownInterval() * 10, now);
    }

    method CheckAddressList(list: seq<IpAddress>)
      modifies this`stats
      ensures stats == if multiset(list) <= multiset(addresses) then old(stats)
                       else old(stats).(addressListErrors := old(stats.addressListErrors) + 1)
    {
      var differenceCount := AddressListDifference(list, addresses);
      if differenceCount > 0 {
        stats := stats.(addressListErrors := stats.addressListErrors + 1);
      }
    }

    /** The right master is running. */
    method Acknowledge(address: IpAddress, interval: nat, list: seq<IpAddress>)
      requires Valid()
      modifies this, masterDownTimer
      ensures Abs() == Acknowledged(old(Abs()), address, interval, list)
    {
      hide WaitForMaster;
      AwaitMaster(interval);
      masterIpAddress := address;
      CheckAddressList(list);
      pendingNewMasterReason := MasterNotResponding;
    }

    method OnBackupPacket(address: IpAddress, p: Byte, interval: nat, list: seq<IpAddress>)
      requires Valid() && state == Backup
      modifies this, masterDownTimer
      ensures Abs() == BackupReceives(old(Abs()), address, p, interval, list)
    {
      if p == 0 {
        masterDownTimer.Start(SkewTime() * 10, now);
        stats := stats.(rcvdPriZero := stats.rcvdPriZero + 1);
        pendingNewMasterReason := Priority;
      } else if !preemptMode || p >= priority {
        Acknowledge(address, interval, list);
      } else if preemptMode {
        pendingNewMasterReason := Preempted;
      }
    }

    method OnMasterPacket(address: IpAddress, p: Byte, interval: nat)
      requires Valid() && state == Master
      modifies this, masterDownTimer, advertisementTimer
      ensures Abs() == MasterReceives(old(Abs()), address, p, interval)
    {
      hide WaitForMaster, AdvertOf, InState;
      if p == 0 {
        SendAdvertisement(priority);
        advertisementTimer.Start(advertisementInterval * 10, now);
        stats := stats.(rcvdPriZero := stats.rcvdPriZero + 1);
        pendingNewMasterReason := Priority;
      } else if p > priority || (p == priority && Greater(address, primaryIpAddress)) {
        advertisementTimer.Stop();
        AwaitMaster(interval);
        SetState(Backup);
        pendingNewMasterReason := Priority;
      }
    }

    method CountPacket(interval: nat)
      modifies this`stats
      ensures Abs() == Received(old(Abs()), interval)
    {
      stats := stats.(rcvdAdvertisements := stats.rcvdAdvertisements + 1, protocolError := None);
      if (if interval == 0 then 1 else 0) != advertisementInterval {
        stats := stats.(advIntervalErrors := stats.advIntervalErrors + 1);
      }
    }

    method OnIncomingVrrpPacket(address: IpAddress, p: Byte, interval: nat, list: seq<IpAddress>)
      requires Valid()
      modifies this, masterDownTimer, advertisementTimer
      ensures masterIpAddress ==
        if old(state) == Backup && p != 0 && (!preemptMode || p >= priority) then address else old(masterIpAddress)
      ensures stats.protocolError == None && stats.rcvdAdvertisements == old(stats.rcvdAdvertisements) + 1
      ensures Abs() == IncomingPacket(old(Abs()), address, p, interval, list)
    {
      CountPacket(interval);
      if state == Backup {
        OnBackupPacket(address, p, interval, list);
      } else if state == Master {
        OnMasterPacket(address, p, interval);
      }
    }

    method OnIncomingVrrpError(error: ErrorKind)
      modifies this`stats
      ensures stats.protocolError ==
        if error in {ChecksumError, VersionError, VrIdError, IpTtlError} then Some(error) else old(stats.protocolError)
      ensures Abs() == IncomingError(old(Abs()), error)
    {
      match error
      case ChecksumError => stats := stats.(protocolError := Some(ChecksumError));
      case VersionError => stats := stats.(protocolError := Some(VersionError));
      case VrIdError => stats := stats.(protocolError := Some(VrIdError));
      case AdvIntervalError => stats := stats.(advIntervalErrors := stats.advIntervalErrors + 1);
      case IpTtlError => stats := stats.(protocolError := Some(IpTtlError));
      case InvalidTypeError => stats := stats.(invalidType := stats.invalidType + 1);
      case PacketLengthError => stats := stats.(packetLengthErrors := stats.packetLengthErrors + 1);
    }

    method InterfaceCallback(isUp: bool)
      requires Valid()
      modifies this, masterDownTimer, advertisementTimer
      ensures Abs() == LinkChanged(old(Abs()), isUp)
    {
      if isUp {
        if state == LinkDown {
          Startup();
        }
      } else if state != Disabled {
        Shutdown(LinkDown);
      }
    }

    /** linkUp is what Netlink::isInterfaceUp answers. */
    method Enable(linkUp: bool)
      requires Valid()
      modifies this, masterDownTimer, advertisementTimer
      ensures Abs() == Spec.Enable(old(Abs()), linkUp)
    {
      if state == Disabled {
        if linkUp {
          Startup();
        } else {
          SetState(LinkDown);
        }
      }
    }

    method Disable()
      requires Valid()
      modifies this, masterDownTimer, advertisementTimer
      ensures Abs() == Spec.Disable(old(Abs()))
    {
      if state != Disabled {
        Shutdown(Disabled);
      }
    }

    // ------------------------------------------------------------ configuration

    method SetPriority(p: Byte) returns (ok: bool)
      modifies this`priority, this`placed
      ensures ok <==> p != 0
      ensures priority == if ok then p else old(priority)
      ensures Abs() == Spec.SetPriority(old(Abs()), p)
    {
      if p == 0 {
        return false;
      }
      if state == Master && !acceptMode {
        if priority != 255 && p == 255 {
          MoveToInterface();
        } else if priority == 255 && p != 255 {
          MoveToArp();
        }
      }
      priority := p;
      return true;
    }

    method SetAdvertisementInterval(interval: nat) returns (ok: bool)
      modifies this`advertisementInterval
      ensures ok <==> 1 <= interval <= 4095
      ensures advertisementInterval == if ok then interval else old(advertisementInterval)
      ensures Abs() == SetInterval(old(Abs()), interval)
    {
      if interval < 1 || interval > 4095 {
        return false;
      }
      advertisementInterval := interval;
      return true;
    }

    method SetPreemptMode(enabled: bool)
      modifies this`preemptMode
      ensures preemptMode == enabled
      ensures Abs() == SetPreempt(old(Abs()), enabled)
    {
      preemptMode := enabled;
    }

    method SetAcceptMode(enabled: bool)
      modifies this`acceptMode, this`placed
      ensures acceptMode == if family == AF_INET6 || vlanId != 0 then old(acceptMode) else enabled
      ensures Abs() == SetAccept(old(Abs()), enabled)
    {
      if acceptMode == enabled {
        return;
      }
      if family == AF_INET6 || vlanId != 0 {
        return;
      }
      if state == Master {
        if enabled {
          MoveToInterface();
        } else {
          MoveToArp();
        }
      }
      acceptMode := enabled;
    }

    method SetPrimaryIpAddress(address: IpAddress) returns (ok: bool)
      modifies this`primaryIpAddress
      ensures ok <==> address.family == family
      ensures primaryIpAddress == if ok then address else old(primaryIpAddress)
      ensures Abs() == SetPrimary(old(Abs()), address)
    {
      if address.family == family {
        primaryIpAddress := address;
        return true;
      } else {
        return false;
      }
    }

    method AddIpAddress(subnet: IpSubnet) returns (ok: bool)
      modifies this`subnets, this`addresses, this`placed
      ensures ok <==> subnet.address.family == family
      ensures subnets == old(subnets) + (if ok then {subnet} else {})
      ensures addresses == old(addresses) + (if ok then {subnet.address} else {})
      ensures Abs() == Spec.AddIpAddress(old(Abs()), subnet)
    {
      if subnet.address.family != family {
        return false;
      }
      subnets := subnets + {subnet};
      addresses := addresses + {subnet.address};
      if state == Master {
        if acceptMode || priority == 255 {
          Netlink(subnet, true);
        } else {
          FakeArp(outputInterface, subnet.address, true);
        }
      }
      return true;
    }

    method RemoveIpAddress(subnet: IpSubnet) returns (ok: bool)
      modifies this`subnets, this`addresses, this`placed
      ensures ok <==> subnet in old(subnets) || subnet.address in old(addresses)
      ensures subnets == old(subnets) - {subnet} && addresses == old(addresses) - {subnet.address}
      ensures Abs() == Spec.RemoveIpAddress(old(Abs()), subnet)
    {
      ok := subnet in subnets || subnet.address in addresses;
      subnets := subnets - {subnet};
      addresses := addresses - {subnet.address};
      if state == Master {
        if acceptMode || priority == 255 {
          Netlink(subnet, false);
        } else {
          FakeArp(outputInterface, subnet.address, false);
        }
      }
    }
  }
}
