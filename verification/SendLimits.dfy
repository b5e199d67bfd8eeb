/** What the log of a router calls sent is what sendPacket sends, and a router
    that has become too large to be heard. */
module SendLimits {
  import opened Addresses
  import opened Advertisement
  import opened Sockets
  import opened RouterSpec
  import opened RouterInvariants

  /** What sendPacket makes of an advertisement. */
  ghost function FateOf(c: Config): Sending {
    if c.primary.family != c.family then Rejected else Fate(InOrder(c.addresses), c.family)
  }

  /** An advertisement that the log records as sent is one that sendPacket hands
      to the kernel. */
  lemma DispatchedExact(c: Config)
    requires c.family == AF_INET || c.family == AF_INET6
    ensures CanSend(c) <==> FateOf(c) == Dispatched
  {
    var elements := InOrder(c.addresses);
    InOrderVisitsEachOnce(c.addresses);
    if AllOfFamily(elements, c.family) {
      FateExact(elements, c.family);
      assert forall a :: a in c.addresses ==> a in elements;
    } else {
      var a :| a in elements && a.family != c.family;
      var k :| 0 <= k < |elements| && elements[k] == a;
      if k < OwnPrefix(elements, c.family) {
        OwnPrefixIsOwn(elements, c.family, k);
      }
    }
  }

  // ------------------------------------------------------- a router too large

  function Numbered(k: Byte): IpSubnet {
    IpSubnet(IpAddress(AF_INET6, [0xFD, 0, 0, 0, 0, 0, 0, 0, 0, 0, 0, 0, 0, 0, 0, k]), 64)
  }

  function Additions(n: nat): seq<Event>
    requires n <= 256
  {
    seq(n, k requires 0 <= k < n => AddSubnet(Numbered(k)))
  }

  function Filled(c: Config, n: nat): Router
    requires n <= 256
  {
    Run(Created(c, 0), Additions(n))
  }

  /** n different addresses make n addresses. */
  lemma {:induction false} FilledForm(c: Config, n: nat)
    requires c.family == AF_INET6 && c.addresses == {} && n <= 256
    ensures var r := Filled(c, n);
      && r == Created(c, 0).(config := r.config)
      && r.config == c.(subnets := r.config.subnets, addresses := r.config.addresses)
      && |r.config.addresses| == n
      && (forall a :: a in r.config.addresses ==> |a.data| == 16 && a.data[15] < n)
      && (forall a :: a in r.config.addresses ==> a.family == AF_INET6)
  {
    if n > 0 {
      FilledForm(c, n - 1);
      assert Additions(n)[..n - 1] == Additions(n - 1);
      assert Numbered(n - 1).address.data[15] == n - 1;
    }
  }

  /** A new IPv6 service with 128 addresses becomes Master, and every advertisement
      it makes overruns the buffer. */
  lemma MasterCanOverrun(interface: int, vrid: Byte, primary: IpAddress)
    requires primary.family == AF_INET6
    ensures var c := Defaults(AF_INET6, interface, interface, 0, vrid, primary);
      var r := Promoted(Filled(c, 128));
      r.state == Master && FateOf(r.config) == Overrun && forall item :: item in r.log ==> !item.Advert?
  {
    hide Promoted, Filled;
    var c := Defaults(AF_INET6, interface, interface, 0, vrid, primary);
    FilledForm(c, 128);
    PromotedForm(Filled(c, 128));
    var elements := InOrder(Filled(c, 128).config.addresses);
    InOrderVisitsEachOnce(Filled(c, 128).config.addresses);
    FateExact(elements, AF_INET6);
  }
}
