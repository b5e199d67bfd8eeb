/** Who is registered where: interface counts and listeners of the two sockets,
    interface monitors, ARP entries and the table of services. */
module Registry {
  import opened Addresses
  import opened Sockets
  import opened Timers

  // ------------------------------------------------------------ interface monitors

  type Monitors = map<int, set<nat>>

  function Watching(m: Monitors, i: int): set<nat> {
    if i in m then m[i] else {}
  }

  function Watched(m: Monitors, i: int, id: nat): Monitors {
    m[i := Watching(m, i) + {id}]
  }

  function Unwatched(m: Monitors, i: int, id: nat): Monitors {
    if id !in Watching(m, i) then m
    else if m[i] - {id} == {} then m - {i}
    else m[i := m[i] - {id}]
  }

  /** The static part of Netlink: the callback registry and its socket. */
  class Netlink {
    var callbacks: Monitors
    var open: bool

    constructor ()
      ensures callbacks == map[] && !open
    {
      callbacks, open := map[], false;
    }

    /** connects says whether nl_connect succeeds. When it does not, the
        registry is restored but the socket stays allocated. */
    method AddInterfaceMonitor(i: int, id: nat, connects: bool) returns (ok: bool)
      modifies this
      ensures ok <==> id !in Watching(old(callbacks), i) && (i in old(callbacks) || old(open) || connects)
      ensures callbacks == if ok then Watched(old(callbacks), i, id) else old(callbacks)
      ensures open == (old(open) || i !in old(callbacks))
    {
      if i !in callbacks {
        callbacks := callbacks[i := {}];
      } else {
        if id in callbacks[i] {
          return false;
        }
        callbacks := callbacks[i := callbacks[i] + {id}];
        return true;
      }
      if !open {
        open := true;
        if !connects {
          callbacks := callbacks - {i};
          assert callbacks == old(callbacks);
          return false;
        }
      }
      callbacks := callbacks[i := callbacks[i] + {id}];
      return true;
    }

    method RemoveInterfaceMonitor(i: int, id: nat) returns (ok: bool)
      modifies this
      ensures ok <==> id in Watching(old(callbacks), i)
      ensures callbacks == Unwatched(old(callbacks), i, id)
      ensures open == if ok && callbacks == map[] then false else old(open)
    {
      if i !in callbacks {
        return false;
      }
      if id !in callbacks[i] {
        return false;
      }
      var rest := callbacks[i] - {id};
      if |rest| == 0 {
        callbacks := callbacks - {i};
        if |callbacks| == 0 {
          open := false;
        }
      } else {
        callbacks := callbacks[i := rest];
        assert i in callbacks;
      }
      return true;
    }
  }

  // -------------------------------------------------------------- ARP responder

  type Mac = seq<Byte>
  type ArpTable = map<int, map<IpAddress, Mac>>

  function Entries(t: ArpTable, i: int): map<IpAddress, Mac> {
    if i in t then t[i] else map[]
  }

  ghost predicate ArpPruned(t: ArpTable) {
    forall i :: i in t ==> t[i] != map[]
  }

  function WithEntry(t: ArpTable, i: int, address: IpAddress, mac: Mac): ArpTable {
    t[i := Entries(t, i)[address := mac]]
  }

  function WithoutEntry(t: ArpTable, i: int, address: IpAddress): ArpTable {
    if address !in Entries(t, i) then t
    else if t[i] - {address} == map[] then t - {i}
    else t[i := t[i] - {address}]
  }

  /** Adding answers for one more address and removing for one fewer, on that
      interface alone, and neither leaves an interface without addresses. */
  lemma ArpTableLaws(t: ArpTable, i: int, address: IpAddress, mac: Mac, j: int)
    requires ArpPruned(t)
    ensures ArpPruned(WithEntry(t, i, address, mac)) && ArpPruned(WithoutEntry(t, i, address))
    ensures Entries(WithEntry(t, i, address, mac), j) == if j == i then Entries(t, i)[address := mac] else Entries(t, j)
    ensures Entries(WithoutEntry(t, i, address), j) == if j == i then Entries(t, i) - {address} else Entries(t, j)
  {
    assert address in WithEntry(t, i, address, mac)[i];
  }

  /** The static table of ArpService. */
  class ArpService {
    var services: ArpTable

    constructor ()
      ensures services == map[]
    {
      services := map[];
    }

    /** opens says whether the ARP socket for a new interface can be opened. */
    method AddFakeArp(i: int, address: IpAddress, mac: Mac, opens: bool) returns (ok: bool)
      modifies this
      ensures ok <==> i in old(services) || opens
      ensures services == if ok then WithEntry(old(services), i, address, mac) else old(services)
    {
      if i !in services {
        if !opens {
          return false;
        }
        services := services[i := map[]];
      }
      var entries: map<IpAddress, Mac> := services[i];
      entries := entries[address := mac];
      services := services[i := entries];
      return true;
    }

    /** Answers true as soon as the interface has a responder. */
    method RemoveFakeArp(i: int, address: IpAddress) returns (ok: bool)
      modifies this
      ensures ok <==> i in old(services)
      ensures services == WithoutEntry(old(services), i, address)
    {
      if i !in services {
        return false;
      }
      if address in services[i] {
        var rest := services[i] - {address};
        if |rest| == 0 {
          services := services - {i};
        } else {
          services := services[i := rest];
        }
      }
      return true;
    }
  }

  // ------------------------------------------------------------ the whole registry

  /** A live service: its key, the interface it listens on, and its identity. */
  datatype Svc = Svc(key: Key, input: int, id: nat)

  datatype SocketState = SocketState(counts: Counts, listeners: Listeners)

  datatype World = World(
    live: map<Key, Svc>, ipv4: SocketState, ipv6: SocketState, monitors: Monitors, open: bool, nextId: nat)

  function SocketOf(w: World, family: int): SocketState {
    if family == AF_INET then w.ipv4 else w.ipv6
  }

  function WithSocket(w: World, family: int, s: SocketState): World {
    if family == AF_INET then w.(ipv4 := s) else w.(ipv6 := s)
  }

  /** A constructor that registers its service. joins and connects say whether the
      kernel lets the socket join the group and netlink connect, where they have
      to; the constructor ignores the answers. */
  function Created(w: World, s: Svc, joins: bool, connects: bool): World {
    var k, t := s.key, SocketOf(w, s.key.family);
    var counts := if s.input in t.counts || joins then Joined(t.counts, s.input) else t.counts;
    var known := k.interface in w.monitors;
    var watched := s.id !in Watching(w.monitors, k.interface) && (known || w.open || connects);
    WithSocket(w, k.family, SocketState(counts, Listening(t.listeners, s.input, k.vrid, s.id)))
      .(monitors := if watched then Watched(w.monitors, k.interface, s.id) else w.monitors,
        open := w.open || !known, live := w.live[k := s], nextId := w.nextId + 1)
  }

  function Unmonitored(w: World, k: Key, id: nat): World {
    var monitors := Unwatched(w.monitors, k.interface, id);
    w.(monitors := monitors,
       open := if id in Watching(w.monitors, k.interface) && monitors == map[] then false else w.open)
  }

  /** The destructor's share, for any service object. leaves says whether the
      kernel lets the socket leave the group, where it has to. */
  function Deregistered(w: World, s: Svc, leaves: bool): World {
    var k, t := s.key, SocketOf(w, s.key.family);
    var counts := if CountOf(t.counts, s.input) == 1 && !leaves then t.counts else Left(t.counts, s.input);
    WithSocket(Unmonitored(w, k, s.id), k.family, SocketState(counts, Silenced(t.listeners, s.input, k.vrid)))
  }

  function Destroyed(w: World, k: Key, leaves: bool): World
    requires k in w.live
  {
    Deregistered(w, w.live[k], leaves).(live := w.live - {k})
  }

  /** A constructor that failed to make its VLAN interface: nothing has been
      registered, its input interface is still the plain one, and the destructor
      runs all the same. */
  function Failed(w: World, k: Key, leaves: bool): World {
    Deregistered(w, Svc(k, k.interface, w.nextId), leaves).(nextId := w.nextId + 1)
  }

  /** A constructor that stops because there is no socket. */
  function Refused(w: World, k: Key): World {
    Unmonitored(w, k, w.nextId).(nextId := w.nextId + 1)
  }

  predicate IpKey(k: Key) {
    k.family == AF_INET || k.family == AF_INET6
  }

  /** The live services of a family that listen on an interface. */
  function LiveOn(live: map<Key, Svc>, family: int, i: int): set<Key> {
    set k | k in live && k.family == family && live[k].input == i
  }

  /** Keys match, identities are unique and so are listening places. */
  ghost predicate Consistent(live: map<Key, Svc>, nextId: nat) {
    && (forall k :: k in live ==> live[k].key == k && IpKey(k) && live[k].id < nextId)
    && (forall k, l :: k in live && l in live && k != l ==>
          live[k].id != live[l].id && !(k.family == l.family && k.vrid == l.vrid && live[k].input == live[l].input))
  }

  /** Each count is the number of services listening there. */
  ghost predicate CountsAgree(counts: Counts, live: map<Key, Svc>, family: int) {
    forall i :: CountOf(counts, i) == |LiveOn(live, family, i)|
  }

  ghost predicate ListensAt(live: map<Key, Svc>, family: int, i: int, vrid: Byte, k: Key) {
    k in live && k.family == family && k.vrid == vrid && live[k].input == i
  }

  /** Each listener entry is the one service at that place, and there are no
      empty entries. */
  ghost predicate ListenersAgree(l: Listeners, live: map<Key, Svc>, family: int) {
    && (forall k :: k in live && k.family == family ==>
          k.vrid in Routers(l, live[k].input) && Routers(l, live[k].input)[k.vrid] == live[k].id)
    && (forall i, v: Byte :: v in Routers(l, i) ==> exists k :: ListensAt(live, family, i, v, k))
    && NoEmptyEntry(l)
  }

  ghost predicate NoEmptyEntry(l: Listeners) {
    forall i :: i in l ==> l[i] != map[]
  }

  /** Exactly the live services watch their interfaces, and there are no empty
      entries. */
  ghost predicate MonitorsAgree(m: Monitors, live: map<Key, Svc>) {
    && (forall k :: k in live ==> live[k].id in Watching(m, k.interface))
    && (forall i, id :: id in Watching(m, i) ==> exists k :: Watches(live, i, id, k))
    && NobodyIdle(m)
  }

  ghost predicate NobodyIdle(m: Monitors) {
    forall i :: i in m ==> m[i] != {}
  }

  ghost predicate Watches(live: map<Key, Svc>, i: int, id: nat, k: Key) {
    k in live && k.interface == i && live[k].id == id
  }

  ghost predicate Inv(w: World) {
    && Consistent(w.live, w.nextId)
    && CountsAgree(w.ipv4.counts, w.live, AF_INET) && CountsAgree(w.ipv6.counts, w.live, AF_INET6)
    && ListenersAgree(w.ipv4.listeners, w.live, AF_INET) && ListenersAgree(w.ipv6.listeners, w.live, AF_INET6)
    && MonitorsAgree(w.monitors, w.live)
    && (w.open <==> w.monitors != map[])
  }

  // -------------------------------------------------------------- counts

  lemma CountsAfterJoin(counts: Counts, live: map<Key, Svc>, s: Svc, family: int)
    requires CountsAgree(counts, live, family) && s.key !in live
    ensures CountsAgree(if s.key.family == family then Joined(counts, s.input) else counts, live[s.key := s], family)
  {
    var counts' := if s.key.family == family then Joined(counts, s.input) else counts;
    var live' := live[s.key := s];
    forall i
      ensures CountOf(counts', i) == |LiveOn(live', family, i)|
    {
      var before := LiveOn(live, family, i);
      if s.key.family == family && s.input == i {
        assert LiveOn(live', family, i) == before + {s.key};
      } else {
        assert LiveOn(live', family, i) == before;
      }
    }
  }

  lemma CountsAfterLeave(counts: Counts, live: map<Key, Svc>, k: Key, family: int)
    requires CountsAgree(counts, live, family) && k in live
    ensures CountsAgree(if k.family == family then Left(counts, live[k].input) else counts, live - {k}, family)
  {
    var counts' := if k.family == family then Left(counts, live[k].input) else counts;
    forall i
      ensures CountOf(counts', i) == |LiveOn(live - {k}, family, i)|
    {
      var before := LiveOn(live, family, i);
      if k.family == family && live[k].input == i {
        assert k in before;
        assert LiveOn(live - {k}, family, i) == before - {k};
      } else {
        assert LiveOn(live - {k}, family, i) == before;
      }
    }
  }

  // ----------------------------------------------------------- listeners

  lemma SomeoneListens(l: Listeners, live: map<Key, Svc>, family: int, i: int, v: Byte)
    requires ListenersAgree(l, live, family) && v in Routers(l, i)
    ensures exists k :: ListensAt(live, family, i, v, k)
  {}

  lemma RoutersOfListening(l: Listeners, input: int, vrid: Byte, id: nat, i: int)
    ensures Routers(Listening(l, input, vrid, id), i) == if i == input then Routers(l, i)[vrid := id] else Routers(l, i)
    ensures NoEmptyEntry(l) ==> NoEmptyEntry(Listening(l, input, vrid, id))
  {
    assert vrid in Listening(l, input, vrid, id)[input];
  }

  lemma RoutersOfSilenced(l: Listeners, input: int, vrid: Byte, i: int)
    ensures Routers(Silenced(l, input, vrid), i) == if i == input then Routers(l, i) - {vrid} else Routers(l, i)
    ensures NoEmptyEntry(l) ==> NoEmptyEntry(Silenced(l, input, vrid))
  {}

  lemma ListenersAfterJoin(l: Listeners, live: map<Key, Svc>, s: Svc, family: int)
    requires ListenersAgree(l, live, family) && s.key !in live
    requires forall k :: k in live ==> !(k.family == s.key.family && k.vrid == s.key.vrid && live[k].input == s.input)
    ensures ListenersAgree(if s.key.family == family then Listening(l, s.input, s.key.vrid, s.id) else l,
                           live[s.key := s], family)
  {
    hide Listening, Routers, NoEmptyEntry;
    var l' := if s.key.family == family then Listening(l, s.input, s.key.vrid, s.id) else l;
    var live' := live[s.key := s];
    forall i
      ensures Routers(l', i)
           == if s.key.family == family && i == s.input then Routers(l, i)[s.key.vrid := s.id] else Routers(l, i)
    {
      RoutersOfListening(l, s.input, s.key.vrid, s.id, i);
    }
    RoutersOfListening(l, s.input, s.key.vrid, s.id, s.input);
    forall i, v: Byte | v in Routers(l', i)
      ensures exists k :: ListensAt(live', family, i, v, k)
    {
      if s.key.family == family && i == s.input && v == s.key.vrid {
        assert ListensAt(live', family, i, v, s.key);
      } else {
        SomeoneListens(l, live, family, i, v);
        var k :| ListensAt(live, family, i, v, k);
        assert ListensAt(live', family, i, v, k);
      }
    }
  }

  /** l' is l without the entry of k's place. */
  ghost predicate EntryGone(l: Listeners, l': Listeners, live: map<Key, Svc>, k: Key, family: int)
    requires k in live
  {
    forall i :: Routers(l', i)
             == if k.family == family && i == live[k].input then Routers(l, i) - {k.vrid} else Routers(l, i)
  }

  lemma OthersStillListen(l: Listeners, l': Listeners, live: map<Key, Svc>, k: Key, family: int, nextId: nat, m: Key)
    requires ListenersAgree(l, live, family) && k in live && Consistent(live, nextId)
    requires EntryGone(l, l', live, k, family) && m in live - {k} && m.family == family
    ensures m.vrid in Routers(l', live[m].input) && Routers(l', live[m].input)[m.vrid] == live[m].id
  {
    hide Routers, NoEmptyEntry;
    assert Routers(l', live[m].input) == if k.family == family && live[m].input == live[k].input
      then Routers(l, live[m].input) - {k.vrid} else Routers(l, live[m].input);
  }

  lemma NobodyElseListens(l: Listeners, l': Listeners, live: map<Key, Svc>, k: Key, family: int, i: int, v: Byte)
    requires ListenersAgree(l, live, family) && k in live
    requires EntryGone(l, l', live, k, family) && v in Routers(l', i)
    ensures exists m :: ListensAt(live - {k}, family, i, v, m)
  {
    hide Routers, NoEmptyEntry;
    SomeoneListens(l, live, family, i, v);
    var m :| ListensAt(live, family, i, v, m);
    assert ListensAt(live - {k}, family, i, v, m);
  }

  lemma ListenersAfterLeave(l: Listeners, live: map<Key, Svc>, k: Key, family: int, nextId: nat)
    requires ListenersAgree(l, live, family) && k in live && Consistent(live, nextId)
    ensures ListenersAgree(if k.family == family then Silenced(l, live[k].input, k.vrid) else l, live - {k}, family)
  {
    hide Silenced, Routers, NoEmptyEntry, ListensAt, Consistent;
    var l' := if k.family == family then Silenced(l, live[k].input, k.vrid) else l;
    forall i
      ensures Routers(l', i)
           == if k.family == family && i == live[k].input then Routers(l, i) - {k.vrid} else Routers(l, i)
    {
      RoutersOfSilenced(l, live[k].input, k.vrid, i);
    }
    RoutersOfSilenced(l, live[k].input, k.vrid, live[k].input);
    assert EntryGone(l, l', live, k, family);
    forall m | m in live - {k} && m.family == family
      ensures m.vrid in Routers(l', live[m].input) && Routers(l', live[m].input)[m.vrid] == live[m].id
    {
      OthersStillListen(l, l', live, k, family, nextId, m);
    }
    forall i, v: Byte | v in Routers(l', i)
      ensures exists m :: ListensAt(live - {k}, family, i, v, m)
    {
      NobodyElseListens(l, l', live, k, family, i, v);
    }
  }

  // ------------------------------------------------------------ monitors

  lemma SomeoneWatches(m: Monitors, live: map<Key, Svc>, i: int, id: nat)
    requires MonitorsAgree(m, live) && id in Watching(m, i)
    ensures exists k :: Watches(live, i, id, k)
  {}

  lemma WatchingWatched(m: Monitors, interface: int, id: nat, i: int)
    ensures Watching(Watched(m, interface, id), i) == if i == interface then Watching(m, i) + {id} else Watching(m, i)
    ensures NobodyIdle(m) ==> NobodyIdle(Watched(m, interface, id))
    ensures Watched(m, interface, id) != map[]
  {
    assert interface in Watched(m, interface, id);
  }

  lemma WatchingUnwatched(m: Monitors, interface: int, id: nat, i: int)
    ensures Watching(Unwatched(m, interface, id), i) == if i == interface then Watching(m, i) - {id} else Watching(m, i)
    ensures NobodyIdle(m) ==> NobodyIdle(Unwatched(m, interface, id))
  {}

  lemma MonitorsAfterJoin(m: Monitors, live: map<Key, Svc>, s: Svc)
    requires MonitorsAgree(m, live) && s.key !in live
    ensures MonitorsAgree(Watched(m, s.key.interface, s.id), live[s.key := s])
    ensures Watched(m, s.key.interface, s.id) != map[]
  {
    hide Watched, Watching, NobodyIdle;
    var m', live' := Watched(m, s.key.interface, s.id), live[s.key := s];
    forall i
      ensures Watching(m', i) == if i == s.key.interface then Watching(m, i) + {s.id} else Watching(m, i)
    {
      WatchingWatched(m, s.key.interface, s.id, i);
    }
    WatchingWatched(m, s.key.interface, s.id, s.key.interface);
    forall i, id | id in Watching(m', i)
      ensures exists k :: Watches(live', i, id, k)
    {
      if i == s.key.interface && id == s.id {
        assert Watches(live', i, id, s.key);
      } else {
        SomeoneWatches(m, live, i, id);
        var k :| Watches(live, i, id, k);
        assert Watches(live', i, id, k);
      }
    }
  }

  lemma MonitorsAfterLeave(m: Monitors, live: map<Key, Svc>, k: Key, nextId: nat)
    requires MonitorsAgree(m, live) && k in live && Consistent(live, nextId)
    ensures MonitorsAgree(Unwatched(m, k.interface, live[k].id), live - {k})
  {
    hide Unwatched, Watching, NobodyIdle;
    var gone := live[k].id;
    var m' := Unwatched(m, k.interface, gone);
    forall i
      ensures Watching(m', i) == if i == k.interface then Watching(m, i) - {gone} else Watching(m, i)
    {
      WatchingUnwatched(m, k.interface, gone, i);
    }
    WatchingUnwatched(m, k.interface, gone, k.interface);
    forall i, id | id in Watching(m', i)
      ensures exists l :: Watches(live - {k}, i, id, l)
    {
      SomeoneWatches(m, live, i, id);
      var l :| Watches(live, i, id, l);
      assert Watches(live - {k}, i, id, l);
    }
  }

  // ------------------------------------------------------------ events

  /** Nobody of the family listens at the place the new service will take. */
  ghost predicate Unclaimed(w: World, s: Svc) {
    forall k :: k in w.live ==> !(k.family == s.key.family && k.vrid == s.key.vrid && w.live[k].input == s.input)
  }

  /** A service that is entered in all books. */
  function Booked(w: World, s: Svc): World {
    var k, t := s.key, SocketOf(w, s.key.family);
    WithSocket(w, k.family, SocketState(Joined(t.counts, s.input), Listening(t.listeners, s.input, k.vrid, s.id)))
      .(monitors := Watched(w.monitors, k.interface, s.id), open := true,
        live := w.live[k := s], nextId := w.nextId + 1)
  }

  lemma BookedInv(w: World, s: Svc)
    requires Inv(w) && IpKey(s.key) && s.key !in w.live && s.id == w.nextId && Unclaimed(w, s)
    ensures Inv(Booked(w, s))
  {
    hide Joined, Listening, Watched, Watching, CountOf, CountsAgree, ListenersAgree, MonitorsAgree;
    CountsAfterJoin(w.ipv4.counts, w.live, s, AF_INET);
    CountsAfterJoin(w.ipv6.counts, w.live, s, AF_INET6);
    ListenersAfterJoin(w.ipv4.listeners, w.live, s, AF_INET);
    ListenersAfterJoin(w.ipv6.listeners, w.live, s, AF_INET6);
    MonitorsAfterJoin(w.monitors, w.live, s);
  }

  /** The newcomer takes over the listener entry of the service that has the
      place. */
  lemma TakenPlaceBreaks(w: World, s: Svc, joins: bool, connects: bool)
    requires Inv(w) && s.key !in w.live && !Unclaimed(w, s)
    ensures !Inv(Created(w, s, joins, connects))
  {
    hide CountsAgree, ListenersAgree, MonitorsAgree, Joined, Listening, Watched, Watching;
    var k :| k in w.live && k.family == s.key.family && k.vrid == s.key.vrid && w.live[k].input == s.input;
    var live := Created(w, s, joins, connects).live;
    assert k in live && s.key in live && k != s.key && live[k].input == live[s.key].input;
  }

  /** The kernel's part in creating a service. */
  ghost predicate Supported(w: World, s: Svc, joins: bool, connects: bool) {
    (joins || Occupied(w, s.key.family, s.input)) && (connects || w.open)
  }

  lemma CountedIffOccupied(w: World, family: int, i: int)
    requires Inv(w) && (family == AF_INET || family == AF_INET6)
    ensures CountOf(SocketOf(w, family).counts, i) == |LiveOn(w.live, family, i)|
    ensures i in SocketOf(w, family).counts <==> Occupied(w, family, i)
  {
    assert CountOf(SocketOf(w, family).counts, i) == |LiveOn(w.live, family, i)|;
  }

  lemma SupportedIsBooked(w: World, s: Svc, joins: bool, connects: bool)
    requires Inv(w) && IpKey(s.key) && s.id == w.nextId && Supported(w, s, joins, connects)
    ensures Created(w, s, joins, connects) == Booked(w, s)
  {
    hide Joined, Listening, Watched, CountsAgree, ListenersAgree, MonitorsAgree;
    CountedIffOccupied(w, s.key.family, s.input);
    IdIsNew(w, s.key.interface);
  }

  /** A group that was not joined is not counted. */
  lemma NotJoinedBreaks(w: World, s: Svc, connects: bool)
    requires Inv(w) && IpKey(s.key) && !Occupied(w, s.key.family, s.input)
    ensures !Inv(Created(w, s, false, connects))
  {
    var w' := Created(w, s, false, connects);
    CountedIffOccupied(w, s.key.family, s.input);
    assert s.key in LiveOn(w'.live, s.key.family, s.input);
    assert CountOf(SocketOf(w', s.key.family).counts, s.input) == 0;
  }

  /** Without netlink nobody watches the interface. */
  lemma NotConnectedBreaks(w: World, s: Svc, joins: bool)
    requires Inv(w) && !w.open
    ensures !Inv(Created(w, s, joins, false))
  {
    hide CountsAgree, ListenersAgree, Joined, Listening;
    var w' := Created(w, s, joins, false);
    assert w'.monitors == map[] && s.key in w'.live;
    assert s.id !in Watching(w'.monitors, s.key.interface);
  }

  /** A new service keeps the books exactly if its place is unclaimed and the
      kernel lets it join and connect where it has to. */
  lemma CreatedExact(w: World, s: Svc, joins: bool, connects: bool)
    requires Inv(w) && IpKey(s.key) && s.key !in w.live && s.id == w.nextId
    ensures Inv(Created(w, s, joins, connects)) <==> Unclaimed(w, s) && Supported(w, s, joins, connects)
  {
    hide Inv, Created, Booked, Occupied, Unclaimed;
    if !Unclaimed(w, s) {
      TakenPlaceBreaks(w, s, joins, connects);
    } else if Supported(w, s, joins, connects) {
      SupportedIsBooked(w, s, joins, connects);
      BookedInv(w, s);
    } else if !joins && !Occupied(w, s.key.family, s.input) {
      NotJoinedBreaks(w, s, connects);
    } else {
      NotConnectedBreaks(w, s, joins);
    }
  }

  lemma LiveIsWatched(w: World, k: Key)
    requires Inv(w) && k in w.live
    ensures w.live[k].id in Watching(w.monitors, w.live[k].key.interface)
    ensures w.live[k].key == k && IpKey(k) && w.open
  {
    assert k.interface in w.monitors;
  }

  lemma DestroyedInv(w: World, k: Key)
    requires Inv(w) && k in w.live
    ensures Inv(Destroyed(w, k, true))
  {
    hide Left, Silenced, Unwatched, Watching, CountOf, CountsAgree, ListenersAgree, MonitorsAgree;
    LiveIsWatched(w, k);
    CountsAfterLeave(w.ipv4.counts, w.live, k, AF_INET);
    CountsAfterLeave(w.ipv6.counts, w.live, k, AF_INET6);
    ListenersAfterLeave(w.ipv4.listeners, w.live, k, AF_INET, w.nextId);
    ListenersAfterLeave(w.ipv6.listeners, w.live, k, AF_INET6, w.nextId);
    MonitorsAfterLeave(w.monitors, w.live, k, w.nextId);
  }

  lemma StaleCountStays(w: World, s: Svc)
    requires CountOf(SocketOf(w, s.key.family).counts, s.input) == 1
    ensures SocketOf(Deregistered(w, s, false), s.key.family).counts == SocketOf(w, s.key.family).counts
  {
    hide Silenced, Unmonitored;
  }

  /** The last listener on an interface, whose group cannot be left, leaves its
      count behind. */
  lemma StaleCountBreaks(w: World, k: Key)
    requires Inv(w) && k in w.live && |LiveOn(w.live, k.family, w.live[k].input)| == 1
    ensures !Inv(Destroyed(w, k, false))
  {
    hide Inv, Deregistered, CountOf;
    var i, w' := w.live[k].input, Destroyed(w, k, false);
    LiveIsWatched(w, k);
    CountedIffOccupied(w, k.family, i);
    StaleCountStays(w, w.live[k]);
    assert k in LiveOn(w.live, k.family, i);
    assert LiveOn(w'.live, k.family, i) == LiveOn(w.live, k.family, i) - {k};
    if Inv(w') {
      CountedIffOccupied(w', k.family, i);
    }
  }

  /** Destroying a service keeps the books exactly if the kernel lets it leave the
      group or others stay in it. */
  lemma DestroyedExact(w: World, k: Key, leaves: bool)
    requires Inv(w) && k in w.live
    ensures Inv(Destroyed(w, k, leaves)) <==> leaves || |LiveOn(w.live, k.family, w.live[k].input)| > 1
  {
    hide Inv;
    LiveIsWatched(w, k);
    CountedIffOccupied(w, k.family, w.live[k].input);
    assert k in LiveOn(w.live, k.family, w.live[k].input);
    if leaves || |LiveOn(w.live, k.family, w.live[k].input)| > 1 {
      DestroyedInv(w, k);
      assert Destroyed(w, k, leaves) == Destroyed(w, k, true);
    } else {
      StaleCountBreaks(w, k);
    }
  }

  /** Some live service of the family listens on the interface. */
  ghost predicate Occupied(w: World, family: int, i: int) {
    LiveOn(w.live, family, i) != {}
  }

  /** A failed construction over an occupied interface takes away one of its
      counts, if it can. */
  lemma FailureStealsCount(w: World, k: Key, leaves: bool)
    requires Inv(w) && IpKey(k) && Occupied(w, k.family, k.interface)
    requires leaves || |LiveOn(w.live, k.family, k.interface)| > 1
    ensures !Inv(Failed(w, k, leaves))
  {
    var i, n := k.interface, |LiveOn(w.live, k.family, k.interface)|;
    CountedIffOccupied(w, k.family, i);
    assert CountOf(SocketOf(Failed(w, k, leaves), k.family).counts, i) == n - 1;
  }

  /** And it silences a listener with its router id there. */
  lemma FailureSilences(w: World, k: Key, leaves: bool)
    requires Inv(w) && IpKey(k) && k.vrid in Routers(SocketOf(w, k.family).listeners, k.interface)
    ensures !Inv(Failed(w, k, leaves))
  {
    hide CountsAgree, MonitorsAgree, Silenced, Left, Unwatched, Watching, Routers, NoEmptyEntry, CountOf;
    var l := SocketOf(w, k.family).listeners;
    SomeoneListens(l, w.live, k.family, k.interface, k.vrid);
    var m :| ListensAt(w.live, k.family, k.interface, k.vrid, m);
    RoutersOfSilenced(l, k.interface, k.vrid, k.interface);
    var w' := Failed(w, k, leaves);
    assert k.vrid !in Routers(SocketOf(w', k.family).listeners, k.interface);
    assert m in w'.live && w'.live[m].input == k.interface;
  }

  lemma IdIsNew(w: World, i: int)
    requires Inv(w)
    ensures w.nextId !in Watching(w.monitors, i)
  {
    if w.nextId in Watching(w.monitors, i) {
      SomeoneWatches(w.monitors, w.live, i, w.nextId);
    }
  }

  lemma ListenerIsLive(l: Listeners, live: map<Key, Svc>, family: int, i: int)
    requires ListenersAgree(l, live, family) && i in l
    ensures LiveOn(live, family, i) != {}
  {
    var v: Byte :| v in l[i];
    SomeoneListens(l, live, family, i, v);
    var k :| ListensAt(live, family, i, v, k);
    assert k in LiveOn(live, family, i);
  }

  lemma UnoccupiedIsBare(w: World, family: int, i: int)
    requires Inv(w) && (family == AF_INET || family == AF_INET6) && !Occupied(w, family, i)
    ensures i !in SocketOf(w, family).counts && i !in SocketOf(w, family).listeners
  {
    CountedIffOccupied(w, family, i);
    if i in SocketOf(w, family).listeners {
      ListenerIsLive(SocketOf(w, family).listeners, w.live, family, i);
    }
  }

  lemma NextIdInv(w: World)
    requires Inv(w)
    ensures Inv(w.(nextId := w.nextId + 1))
  {
    hide CountsAgree, ListenersAgree, MonitorsAgree;
  }

  /** Nothing there, or one count that stays because its group cannot be left, and
      no listener to silence. */
  ghost predicate Untouched(w: World, k: Key, leaves: bool) {
    !Occupied(w, k.family, k.interface) ||
    (!leaves && |LiveOn(w.live, k.family, k.interface)| == 1 &&
     k.vrid !in Routers(SocketOf(w, k.family).listeners, k.interface))
  }

  lemma SilencedNobody(l: Listeners, i: int, v: Byte)
    requires v !in Routers(l, i) && NoEmptyEntry(l)
    ensures Silenced(l, i, v) == l
  {
    if i in l {
      assert l[i] - {v} == l[i];
      assert l[i := l[i]] == l;
    }
  }

  lemma RefusedInv(w: World, k: Key)
    requires Inv(w)
    ensures Refused(w, k) == w.(nextId := w.nextId + 1) && Inv(Refused(w, k))
  {
    hide Inv;
    IdIsNew(w, k.interface);
    NotWatched(w.monitors, k.interface, w.nextId);
    NextIdInv(w);
  }

  lemma FailureTouchesNothing(w: World, k: Key, leaves: bool)
    requires Inv(w) && IpKey(k) && Untouched(w, k, leaves)
    ensures Failed(w, k, leaves) == w.(nextId := w.nextId + 1) && Inv(Failed(w, k, leaves))
  {
    hide Occupied, Silenced, Unmonitored, CountsAgree, MonitorsAgree;
    var t, i := SocketOf(w, k.family), k.interface;
    CountedIffOccupied(w, k.family, i);
    if !Occupied(w, k.family, i) {
      UnoccupiedIsBare(w, k.family, i);
    }
    SilencedNobody(t.listeners, i, k.vrid);
    RefusedInv(w, k);
  }

  /** When the VLAN interface of a new service cannot be made, the books still
      balance exactly if nothing is touched on the plain interface. */
  lemma FailedExact(w: World, k: Key, leaves: bool)
    requires Inv(w) && IpKey(k)
    ensures Inv(Failed(w, k, leaves)) <==> Untouched(w, k, leaves)
  {
    hide Failed, Inv, Routers;
    CountedIffOccupied(w, k.family, k.interface);
    if Untouched(w, k, leaves) {
      FailureTouchesNothing(w, k, leaves);
    } else if leaves || |LiveOn(w.live, k.family, k.interface)| > 1 {
      FailureStealsCount(w, k, leaves);
    } else {
      FailureSilences(w, k, leaves);
    }
  }

  // --------------------------------------------------------------------- runs

  datatype Event =
    | Create(key: Key, input: int, joins: bool, connects: bool)
    | Fail(key: Key, leaves: bool)
    | Refuse(key: Key)
    | Destroy(key: Key, leaves: bool)

  function Happens(w: World, e: Event): World {
    if e.Destroy? then (if e.key in w.live then Destroyed(w, e.key, e.leaves) else w)
    else if e.key in w.live then w
    else match e
      case Create(k, input, joins, connects) => Created(w, Svc(k, input, w.nextId), joins, connects)
      case Fail(k, leaves) => Failed(w, k, leaves)
      case _ => Refused(w, e.key)
  }

  /** Constructors get past their first lines only for the two families. */
  predicate Possible(e: Event) {
    e.Create? || e.Fail? ==> IpKey(e.key)
  }

  /** New services take unclaimed places, constructions fail only where nothing is
      touched, and the kernel plays along. */
  ghost predicate Orderly(w: World, e: Event) {
    match e
    case Create(k, input, joins, connects) =>
      var s := Svc(k, input, w.nextId);
      k in w.live || (Unclaimed(w, s) && Supported(w, s, joins, connects))
    case Fail(k, leaves) => k in w.live || Untouched(w, k, leaves)
    case Destroy(k, leaves) => k !in w.live || leaves || |LiveOn(w.live, k.family, w.live[k].input)| > 1
    case Refuse(_) => true
  }

  ghost function HappenAll(w: World, events: seq<Event>): World {
    if events == [] then w else Happens(HappenAll(w, events[..|events| - 1]), events[|events| - 1])
  }

  ghost predicate AllOrderly(w: World, events: seq<Event>) {
    events == [] ||
    var before := events[..|events| - 1];
    AllOrderly(w, before) && Possible(events[|events| - 1]) && Orderly(HappenAll(w, before), events[|events| - 1])
  }

  const EMPTY := World(map[], SocketState(map[], map[]), SocketState(map[], map[]), map[], false, 0)

  /** An event keeps the books exactly if it is orderly. */
  lemma HappensExact(w: World, e: Event)
    requires Inv(w) && Possible(e)
    ensures Inv(Happens(w, e)) <==> Orderly(w, e)
  {
    hide Created, Failed, Refused, Destroyed, Inv, Unclaimed, Supported, Untouched;
    match e
    case Create(k, input, joins, connects) =>
      if k !in w.live {
        CreatedExact(w, Svc(k, input, w.nextId), joins, connects);
      }
    case Fail(k, leaves) =>
      if k !in w.live {
        FailedExact(w, k, leaves);
      }
    case Refuse(k) => RefusedInv(w, k);
    case Destroy(k, leaves) =>
      if k in w.live {
        DestroyedExact(w, k, leaves);
      }
  }

  // ---------------------------------------------------- the table after an event

  /** A creation of a missing key enters a new service that listens where the event
      says, a removal takes the service out, and nothing else touches the table.
      Identities are used once. */
  lemma TableExact(w: World, e: Event)
    ensures var w' := Happens(w, e);
      w'.live == (
        if e.Destroy? then w.live - {e.key}
        else if e.Create? && e.key !in w.live then w.live[e.key := Svc(e.key, e.input, w.nextId)]
        else w.live)
    ensures Happens(w, e).nextId == if e.Destroy? || e.key in w.live then w.nextId else w.nextId + 1
  {
    hide Created, Failed, Deregistered, Refused;
    match e
    case Create(k, input, joins, connects) => CreatedLive(w, Svc(k, input, w.nextId), joins, connects);
    case Fail(k, leaves) => FailedLive(w, k, leaves);
    case Refuse(k) => FailedLive(w, k, true);
    case Destroy(k, leaves) =>
      if k in w.live {
        DeregisteredFrame(w, w.live[k], leaves, w.nextId);
      } else {
        assert w.live - {k} == w.live;
      }
  }

  predicate Creates(e: Event, k: Key) {
    e.Create? && e.key == k
  }

  predicate Removes(e: Event, k: Key) {
    e.Destroy? && e.key == k
  }

  /** No event from i on removes k. */
  predicate NeverRemoved(events: seq<Event>, i: nat, k: Key) {
    forall j :: i <= j < |events| ==> !Removes(events[j], k)
  }

  /** Over every sequence of events a key is live exactly if it has been created and
      not been removed since. */
  lemma {:induction false} LiveExact(events: seq<Event>, k: Key)
    ensures k in HappenAll(EMPTY, events).live <==>
      exists i: nat :: i < |events| && Creates(events[i], k) && NeverRemoved(events, i, k)
  {
    hide Happens;
    if events != [] {
      var n := |events| - 1;
      var before, e := events[..n], events[n];
      LiveExact(before, k);
      TableExact(HappenAll(EMPTY, before), e);
      if k in HappenAll(EMPTY, events).live {
        if Creates(e, k) {
          assert NeverRemoved(events, n, k);
        } else {
          var i: nat :| i < n && Creates(before[i], k) && NeverRemoved(before, i, k);
          assert Creates(events[i], k) && NeverRemoved(events, i, k);
        }
      } else {
        forall i: nat | i < |events| && Creates(events[i], k)
          ensures !NeverRemoved(events, i, k)
        {
          if i < n && !Removes(e, k) {
            assert Creates(before[i], k);
            var j :| i <= j < n && Removes(before[j], k);
            assert Removes(events[j], k);
          }
        }
      }
    }
  }

  /** As long as it is not removed, a live service stays what it was created as,
      whatever else happens. */
  lemma {:induction false} LiveStays(w: World, events: seq<Event>, k: Key)
    requires k in w.live && NeverRemoved(events, 0, k)
    ensures k in HappenAll(w, events).live && HappenAll(w, events).live[k] == w.live[k]
  {
    hide Happens;
    if events != [] {
      var n := |events| - 1;
      assert !Removes(events[n], k);
      assert NeverRemoved(events[..n], 0, k);
      LiveStays(w, events[..n], k);
      TableExact(HappenAll(w, events[..n]), events[n]);
    }
  }

  // ------------------------------------------------- the books after an event

  /** Only the listener, the count and the monitor of a new service are entered. */
  lemma CreatedFootprint(w: World, s: Svc, joins: bool, connects: bool, family: int, i: int)
    requires IpKey(s.key) && (family == AF_INET || family == AF_INET6)
    ensures var w' := Created(w, s, joins, connects);
      var t, t', there := SocketOf(w, family), SocketOf(w', family), s.key.family == family && s.input == i;
      && Routers(t'.listeners, i) == (if there then Routers(t.listeners, i)[s.key.vrid := s.id]
                                      else Routers(t.listeners, i))
      && CountOf(t'.counts, i) == CountOf(t.counts, i) + (if there && (joins || i in t.counts) then 1 else 0)
      && Watching(w'.monitors, i)
         == (if i == s.key.interface && (connects || w.open || i in w.monitors) then Watching(w.monitors, i) + {s.id}
             else Watching(w.monitors, i))
  {
    hide Watched, Listening;
    RoutersOfListening(SocketOf(w, s.key.family).listeners, s.input, s.key.vrid, s.id, i);
    WatchingWatched(w.monitors, s.key.interface, s.id, i);
  }

  /** Only the listener, the count and the monitor of a removed service are taken
      out; the count stays if it is the last one and the group cannot be left. */
  lemma DeregisteredFootprint(w: World, s: Svc, leaves: bool, family: int, i: int)
    requires IpKey(s.key) && (family == AF_INET || family == AF_INET6)
    ensures var w' := Deregistered(w, s, leaves);
      var t, t', there := SocketOf(w, family), SocketOf(w', family), s.key.family == family && s.input == i;
      var n := CountOf(t.counts, i);
      && Routers(t'.listeners, i) == (if there then Routers(t.listeners, i) - {s.key.vrid}
                                      else Routers(t.listeners, i))
      && CountOf(t'.counts, i) == (if there && n > 0 && (leaves || n > 1) then n - 1 else n)
      && Watching(w'.monitors, i)
         == (if i == s.key.interface then Watching(w.monitors, i) - {s.id} else Watching(w.monitors, i))
  {
    hide Unwatched, Silenced;
    RoutersOfSilenced(SocketOf(w, s.key.family).listeners, s.input, s.key.vrid, i);
    WatchingUnwatched(w.monitors, s.key.interface, s.id, i);
  }

  /** So a removed service is gone from all of it. */
  lemma RemovedIsGone(w: World, k: Key, leaves: bool)
    requires Inv(w) && k in w.live
    ensures var w', s := Happens(w, Destroy(k, leaves)), w.live[k];
      && k !in w'.live
      && k.vrid !in Routers(SocketOf(w', k.family).listeners, s.input)
      && s.id !in Watching(w'.monitors, k.interface)
  {
    hide CountsAgree, ListenersAgree, Deregistered, Routers, Watching;
    TableExact(w, Destroy(k, leaves));
    DeregisteredFootprint(w, w.live[k], leaves, k.family, w.live[k].input);
    DeregisteredFootprint(w, w.live[k], leaves, k.family, k.interface);
  }

  /** The first service, with all that the kernel has to give. */
  function First(k: Key, input: int): World {
    Happens(EMPTY, Create(k, input, true, true))
  }

  lemma FirstForm(k: Key, input: int)
    requires IpKey(k)
    ensures var w := First(k, input);
      Inv(w) && w.live == map[k := Svc(k, input, 0)] && w.open && LiveOn(w.live, k.family, input) == {k}
  {
    hide Inv, Created;
    EmptyInv();
    CreatedExact(EMPTY, Svc(k, input, 0), true, true);
    CreatedLive(EMPTY, Svc(k, input, 0), true, true);
  }

  /** A VLAN service listens on interface j, and then a plain service with the
      same router id is made there: the listener of the first is lost. */
  lemma PlaceCanBeTaken(i: int, j: int, vrid: Byte)
    requires i != j
    ensures var w := First(Key(i, vrid, AF_INET), j);
      Inv(w) && !Inv(Happens(w, Create(Key(j, vrid, AF_INET), j, true, true)))
  {
    hide Inv, First, Created;
    FirstForm(Key(i, vrid, AF_INET), j);
    var w := First(Key(i, vrid, AF_INET), j);
    HappensExact(w, Create(Key(j, vrid, AF_INET), j, true, true));
  }

  /** A plain service is running, and a VLAN service on the same interface cannot
      be made: the first loses its count. */
  lemma FailureCanSteal(i: int, v: Byte, u: Byte)
    requires u != v
    ensures var w := First(Key(i, v, AF_INET), i);
      Inv(w) && !Inv(Happens(w, Fail(Key(i, u, AF_INET), true)))
  {
    hide Inv, First, Failed;
    FirstForm(Key(i, v, AF_INET), i);
    HappensExact(First(Key(i, v, AF_INET), i), Fail(Key(i, u, AF_INET), true));
  }

  /** What the kernel refuses and the code ignores: a service goes live without a
      count or without a monitor, or leaves its count behind. */
  lemma IgnoredFailures(k: Key, input: int)
    requires IpKey(k)
    ensures var w := Happens(EMPTY, Create(k, input, false, true)); k in w.live && !Inv(w)
    ensures var w := Happens(EMPTY, Create(k, input, true, false)); k in w.live && !Inv(w)
    ensures Inv(First(k, input)) && !Inv(Happens(First(k, input), Destroy(k, false)))
  {
    hide Inv, First, Created;
    EmptyInv();
    CreatedLive(EMPTY, Svc(k, input, 0), false, true);
    CreatedLive(EMPTY, Svc(k, input, 0), true, false);
    HappensExact(EMPTY, Create(k, input, false, true));
    HappensExact(EMPTY, Create(k, input, true, false));
    FirstForm(k, input);
    HappensExact(First(k, input), Destroy(k, false));
  }

  lemma EmptyInv()
    ensures Inv(EMPTY)
  {}

  lemma CreatedLive(w: World, s: Svc, joins: bool, connects: bool)
    ensures var w' := Created(w, s, joins, connects);
      w'.live == w.live[s.key := s] && w'.nextId == w.nextId + 1 && (w.monitors == map[] ==> w'.open)
  {}

  /** Registration is conserved over every orderly sequence of creations,
      failures and removals: interface counts, listeners and monitors are exactly
      those of the live services, and the netlink socket exists exactly while
      somebody is watching. */
  lemma {:induction false} RegistrationConserved(events: seq<Event>)
    requires AllOrderly(EMPTY, events)
    ensures Inv(HappenAll(EMPTY, events))
  {
    if events != [] {
      var before := events[..|events| - 1];
      RegistrationConserved(before);
      HappensExact(HappenAll(EMPTY, before), events[|events| - 1]);
    }
  }

  // ------------------------------------------------------------------ the manager

  type ServiceTable = map<int, map<Byte, map<int, Svc>>>

  predicate InTable(t: ServiceTable, k: Key) {
    k.interface in t && k.vrid in t[k.interface] && k.family in t[k.interface][k.vrid]
  }

  function KeysIn(t: ServiceTable): set<Key> {
    set i, v, f | i in t && v in t[i] && f in t[i][v] :: Key(i, v, f)
  }

  function Live(t: ServiceTable): map<Key, Svc> {
    map k | k in KeysIn(t) :: t[k.interface][k.vrid][k.family]
  }

  lemma NotWatched(m: Monitors, i: int, id: nat)
    requires id !in Watching(m, i)
    ensures Unwatched(m, i, id) == m
  {}

  lemma LiveIsLookup(t: ServiceTable, k: Key)
    ensures k in Live(t) <==> InTable(t, k)
    ensures InTable(t, k) ==> Live(t)[k] == t[k.interface][k.vrid][k.family]
  {}

  /** m_services[interface][vrid][family] = s */
  function Stored(t: ServiceTable, k: Key, s: Svc): ServiceTable {
    var byRouter: map<Byte, map<int, Svc>> := if k.interface in t then t[k.interface] else map[];
    var byFamily: map<int, Svc> := if k.vrid in byRouter then byRouter[k.vrid] else map[];
    t[k.interface := byRouter[k.vrid := byFamily[k.family := s]]]
  }

  /** Erases the innermost entry only. */
  function Erased(t: ServiceTable, k: Key): ServiceTable
    requires InTable(t, k)
  {
    t[k.interface := t[k.interface][k.vrid := t[k.interface][k.vrid] - {k.family}]]
  }

  lemma LiveStored(t: ServiceTable, k: Key, s: Svc)
    ensures Live(Stored(t, k, s)) == Live(t)[k := s]
  {
    hide Live;
    var t' := Stored(t, k, s);
    forall l
      ensures l in Live(t') <==> l in Live(t)[k := s]
      ensures l in Live(t') ==> Live(t')[l] == Live(t)[k := s][l]
    {
      LiveIsLookup(t', l);
      LiveIsLookup(t, l);
    }
  }

  lemma LiveErased(t: ServiceTable, k: Key)
    requires InTable(t, k)
    ensures Live(Erased(t, k)) == Live(t) - {k}
  {
    hide Live;
    var t' := Erased(t, k);
    forall l
      ensures l in Live(t') <==> l in Live(t) - {k}
      ensures l in Live(t') ==> Live(t')[l] == (Live(t) - {k})[l]
    {
      LiveIsLookup(t', l);
      LiveIsLookup(t, l);
    }
  }

  /** What the kernel does: whether there is a socket for the family, the index
      that it gives to a new VLAN interface (negative if it cannot be made), and
      whether it lets sockets join and leave groups and netlink connect. */
  datatype Kernel = Kernel(hasSocket: bool, vlanInterface: int, joins: bool, connects: bool, leaves: bool)

  /** What asking for a missing service comes to. */
  function Attempt(k: Key, vlanId: nat, kernel: Kernel): Event {
    if !IpKey(k) || !kernel.hasSocket then Refuse(k)
    else if vlanId == 0 then Create(k, k.interface, kernel.joins, kernel.connects)
    else if kernel.vlanInterface < 0 then Fail(k, kernel.leaves)
    else Create(k, kernel.vlanInterface, kernel.joins, kernel.connects)
  }

  class VrrpManager {
    var services: ServiceTable
    const ipv4: VrrpSocket
    const ipv6: VrrpSocket
    const netlink: Netlink
    var nextId: nat

    constructor (ipv4: VrrpSocket, ipv6: VrrpSocket, netlink: Netlink)
      ensures this.ipv4 == ipv4 && this.ipv6 == ipv6 && this.netlink == netlink
      ensures services == map[] && nextId == 0
    {
      this.ipv4, this.ipv6, this.netlink := ipv4, ipv6, netlink;
      services, nextId := map[], 0;
    }

    ghost predicate Valid() {
      ipv4 != ipv6
    }

    ghost function Value(): World
      reads this, ipv4, ipv6, netlink
    {
      World(Live(services), SocketState(ipv4.interfaceCount, ipv4.listeners),
            SocketState(ipv6.interfaceCount, ipv6.listeners), netlink.callbacks, netlink.open, nextId)
    }

    /** The registering part of the constructor of VrrpService. */
    method Register(s: Svc, joins: bool, connects: bool)
      requires Valid()
      modifies ipv4`interfaceCount, ipv4`listeners, ipv6`interfaceCount, ipv6`listeners, netlink
      ensures Value().(live := old(Value().live), nextId := old(nextId))
           == Created(old(Value()), s, joins, connects).(live := old(Value().live), nextId := old(nextId))
    {
      var socket := if s.key.family == AF_INET then ipv4 else ipv6;
      var joined := socket.AddInterface(s.input, joins);
      socket.AddEventListener(s.input, s.key.vrid, s.id);
      var monitored := netlink.AddInterfaceMonitor(s.key.interface, s.id, connects);
    }

    /** The deregistering part of the destructor of VrrpService. */
    method Deregister(s: Svc, leaves: bool)
      requires Valid()
      modifies ipv4`interfaceCount, ipv4`listeners, ipv6`interfaceCount, ipv6`listeners, netlink
      ensures Value() == Deregistered(old(Value()), s, leaves)
    {
      hide Unwatched, Silenced;
      var removed := netlink.RemoveInterfaceMonitor(s.key.interface, s.id);
      var socket := if s.key.family == AF_INET then ipv4 else ipv6;
      var left := socket.RemoveInterface(s.input, leaves);
      socket.RemoveEventListener(s.input, s.key.vrid);
    }

    /** A constructor that succeeds, and the entry in the table. */
    method Enter(s: Svc, joins: bool, connects: bool)
      requires Valid() && s.id == nextId
      modifies this, ipv4`interfaceCount, ipv4`listeners, ipv6`interfaceCount, ipv6`listeners, netlink
      ensures Value() == Created(old(Value()), s, joins, connects)
    {
      hide Live, Stored, Created;
      CreatedLive(Value(), s, joins, connects);
      Register(s, joins, connects);
      nextId := nextId + 1;
      LiveStored(services, s.key, s);
      services := Stored(services, s.key, s);
    }

    /** A constructor that fails, and the destructor after it. */
    method Abandon(k: Key, vlanFails: bool, leaves: bool)
      requires Valid()
      modifies this, ipv4`interfaceCount, ipv4`listeners, ipv6`interfaceCount, ipv6`listeners, netlink
      ensures Value() == if vlanFails then Failed(old(Value()), k, leaves) else Refused(old(Value()), k)
    {
      hide Live, Deregistered, Unwatched, Watching;
      ghost var w := Value();
      var id := nextId;
      nextId := nextId + 1;
      if vlanFails {
        DeregisteredFrame(w, Svc(k, k.interface, id), leaves, nextId);
        Deregister(Svc(k, k.interface, id), leaves);
      } else {
        var removed := netlink.RemoveInterfaceMonitor(k.interface, id);
      }
    }

    /** The new service, or none if its constructor reports an error. */
    method Construct(k: Key, vlanId: nat, kernel: Kernel) returns (service: Option<Svc>)
      requires Valid() && k !in Value().live
      modifies this, ipv4`interfaceCount, ipv4`listeners, ipv6`interfaceCount, ipv6`listeners, netlink
      ensures Value() == Happens(old(Value()), Attempt(k, vlanId, kernel))
      ensures k in Value().live <==> service.Some?
      ensures service.Some? ==> Value().live[k] == service.value
    {
      hide Live, Created, Failed, Refused;
      FailedLive(Value(), k, kernel.leaves);
      if !kernel.hasSocket || !IpKey(k) {
        Abandon(k, false, kernel.leaves);
        return None;
      }
      if vlanId > 0 && kernel.vlanInterface < 0 {
        Abandon(k, true, kernel.leaves);
        return None;
      }
      var s := Svc(k, if vlanId > 0 then kernel.vlanInterface else k.interface, nextId);
      CreatedLive(Value(), s, kernel.joins, kernel.connects);
      Enter(s, kernel.joins, kernel.connects);
      return Some(s);
    }

    /** VrrpManager::getService. The answer is the live service of that key, if
        there is one by then. */
    method GetService(interface: int, vrid: Byte, vlanId: nat, family: int, createIfMissing: bool, kernel: Kernel)
      returns (service: Option<Svc>)
      requires Valid()
      modifies this, ipv4`interfaceCount, ipv4`listeners, ipv6`interfaceCount, ipv6`listeners, netlink
      ensures var w, e := old(Value()), Attempt(Key(interface, vrid, family), vlanId, kernel);
        Value() == (if createIfMissing then Happens(w, e) else w) &&
        (Inv(w) ==> (Inv(Value()) <==> (createIfMissing ==> Orderly(w, e))))
      ensures var live, k := old(Value().live), Key(interface, vrid, family);
        var makes := IpKey(k) && kernel.hasSocket && (vlanId == 0 || kernel.vlanInterface >= 0);
        Value().live == if createIfMissing && k !in live && makes
          then live[k := Svc(k, if vlanId > 0 then kernel.vlanInterface else interface, old(nextId))] else live
      ensures var live, k := Value().live, Key(interface, vrid, family);
        service == if k in live then Some(live[k]) else None
    {
      hide Live, Created, Failed, Refused, Orderly, Inv;
      var k := Key(interface, vrid, family);
      TableExact(Value(), Attempt(k, vlanId, kernel));
      if Inv(Value()) {
        HappensExact(Value(), Attempt(k, vlanId, kernel));
      }
      LiveIsLookup(services, k);
      if InTable(services, k) {
        return Some(services[interface][vrid][family]);
      }
      if !createIfMissing {
        return None;
      }
      service := Construct(k, vlanId, kernel);
    }

    /** VrrpManager::removeService, for the service of its key. */
    method RemoveService(s: Svc, leaves: bool)
      requires Valid() && (s.key in Value().live ==> Value().live[s.key] == s)
      modifies this, ipv4`interfaceCount, ipv4`listeners, ipv6`interfaceCount, ipv6`listeners, netlink
      ensures var w, e := old(Value()), Destroy(s.key, leaves);
        Value() == Happens(w, e) && (Inv(w) ==> (Inv(Value()) <==> Orderly(w, e)))
      ensures Value().live == old(Value().live) - {s.key}
    {
      hide Live, Erased, Inv, Orderly, Deregistered;
      ghost var w := Value();
      var k := s.key;
      TableExact(w, Destroy(k, leaves));
      LiveIsLookup(services, k);
      if InTable(services, k) {
        LiveErased(services, k);
        services := Erased(services, k);
        Deregister(s, leaves);
        DeregisteredLive(w, s, leaves, Live(services));
      }
      if Inv(w) {
        HappensExact(w, Destroy(k, leaves));
      }
    }
  }

  /** Deregistering does not look at the table or at the identities. */
  lemma DeregisteredFrame(w: World, s: Svc, leaves: bool, nextId: nat)
    ensures Deregistered(w.(nextId := nextId), s, leaves) == Deregistered(w, s, leaves).(nextId := nextId)
    ensures Deregistered(w, s, leaves).live == w.live && Deregistered(w, s, leaves).nextId == w.nextId
  {
    hide Unwatched, Silenced, Left;
  }

  lemma DeregisteredLive(w: World, s: Svc, leaves: bool, live: map<Key, Svc>)
    ensures Deregistered(w.(live := live), s, leaves) == Deregistered(w, s, leaves).(live := live)
  {
    hide Unwatched, Silenced, Left;
  }

  lemma FailedLive(w: World, k: Key, leaves: bool)
    ensures Failed(w, k, leaves).live == Refused(w, k).live == w.live
    ensures Failed(w, k, leaves).nextId == Refused(w, k).nextId == w.nextId + 1
  {
    hide Unwatched, Silenced, Left;
  }
}
