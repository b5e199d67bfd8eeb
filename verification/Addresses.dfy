/** IP addresses and subnets: the two orders that std::set, std::sort and the
    election rely on, and the address-list check of the backup state. */
module Addresses {

  type Byte = b: int | 0 <= b < 256

  const AF_UNSPEC := 0
  const AF_INET := 2
  const AF_INET6 := 10

  function FamilySize(family: int): nat {
    if family == AF_INET then 4 else if family == AF_INET6 then 16 else 0
  }

  datatype RawAddress = IpAddress(family: int, data: seq<Byte>)

  /** The family fixes how many bytes of the address are meaningful. */
  type IpAddress = a: RawAddress | |a.data| == FamilySize(a.family)
    witness IpAddress(AF_UNSPEC, [])

  datatype IpSubnet = IpSubnet(address: IpAddress, cidr: nat)

  // -------------------------------------------------------------- comparison

  function Memcmp(a: seq<Byte>, b: seq<Byte>): int
    requires |a| == |b|
  {
    if a == [] then 0
    else if a[0] != b[0] then a[0] - b[0]
    else Memcmp(a[1..], b[1..])
  }

  /** IpAddress::operator< */
  predicate Less(a: IpAddress, b: IpAddress) {
    if a.family < b.family then true
    else if a.family > b.family then false
    else Memcmp(a.data, b.data) < 0
  }

  /** IpAddress::operator> */
  predicate Greater(a: IpAddress, b: IpAddress) {
    if a.family > b.family then true
    else if a.family < b.family then false
    else Memcmp(a.data, b.data) > 0
  }

  /** IpSubnet::operator< */
  predicate SubnetLess(a: IpSubnet, b: IpSubnet) {
    if Less(a.address, b.address) then true
    else if Greater(a.address, b.address) then false
    else a.cidr < b.cidr
  }

  // The independent reading of an address: the number it denotes in network
  // byte order.

  function Value(s: seq<Byte>): nat {
    if s == [] then 0 else 256 * Value(s[..|s| - 1]) + s[|s| - 1]
  }

  /** memcmp decides on the last byte only when all earlier ones agree. */
  lemma {:induction false} MemcmpLast(a: seq<Byte>, b: seq<Byte>)
    requires |a| == |b| > 0
    ensures var n := |a| - 1;
      Memcmp(a, b) == if Memcmp(a[..n], b[..n]) != 0 then Memcmp(a[..n], b[..n]) else (a[n] as int) - (b[n] as int)
  {
    var n := |a| - 1;
    if n > 0 && a[0] == b[0] {
      MemcmpLast(a[1..], b[1..]);
      assert a[1..][..n - 1] == a[..n][1..] && b[1..][..n - 1] == b[..n][1..];
    }
  }

  /** memcmp orders addresses by the numbers they denote. */
  lemma {:induction false} MemcmpIsNumeric(a: seq<Byte>, b: seq<Byte>)
    requires |a| == |b|
    ensures Memcmp(a, b) < 0 <==> Value(a) < Value(b)
    ensures Memcmp(a, b) > 0 <==> Value(a) > Value(b)
    ensures Memcmp(a, b) == 0 <==> a == b
  {
    if a != [] {
      var n := |a| - 1;
      MemcmpLast(a, b);
      MemcmpIsNumeric(a[..n], b[..n]);
      assert a == a[..n] + [a[n]] && b == b[..n] + [b[n]];
    }
  }

  /** operator< is the lexicographic order on (family, number), hence a strict
      total order whose converse is operator>; "neither less nor greater" is
      equality. */
  lemma LessIsStrictTotalOrder(a: IpAddress, b: IpAddress, c: IpAddress)
    ensures Less(a, b) <==> a.family < b.family || (a.family == b.family && Value(a.data) < Value(b.data))
    ensures Greater(a, b) <==> Less(b, a)
    ensures !Less(a, a)
    ensures !(Less(a, b) && Less(b, a))
    ensures Less(a, b) && Less(b, c) ==> Less(a, c)
    ensures a == b <==> !Less(a, b) && !Greater(a, b)
  {
    MemcmpIsNumeric(a.data, a.data);
    if a.family == b.family {
      MemcmpIsNumeric(a.data, b.data);
      MemcmpIsNumeric(b.data, a.data);
    }
    if b.family == c.family {
      MemcmpIsNumeric(b.data, c.data);
    }
    if a.family == c.family {
      MemcmpIsNumeric(a.data, c.data);
    }
  }

  /** The order of IpSubnetSet extends the address order by the prefix length. */
  lemma SubnetLessIsStrictTotalOrder(a: IpSubnet, b: IpSubnet, c: IpSubnet)
    ensures SubnetLess(a, b) <==> Less(a.address, b.address) || (a.address == b.address && a.cidr < b.cidr)
    ensures !SubnetLess(a, a)
    ensures !(SubnetLess(a, b) && SubnetLess(b, a))
    ensures SubnetLess(a, b) && SubnetLess(b, c) ==> SubnetLess(a, c)
    ensures a == b <==> !SubnetLess(a, b) && !SubnetLess(b, a)
  {
    LessIsStrictTotalOrder(a.address, b.address, c.address);
    LessIsStrictTotalOrder(b.address, a.address, c.address);
    LessIsStrictTotalOrder(b.address, c.address, a.address);
    LessIsStrictTotalOrder(a.address, c.address, b.address);
    LessIsStrictTotalOrder(c.address, b.address, a.address);
  }

  // --------------------------------------------------- iteration of std::set

  ghost predicate Increasing(s: seq<IpAddress>) {
    forall i, j :: 0 <= i < j < |s| ==> Less(s[i], s[j])
  }

  predicate IsLeast(x: IpAddress, s: set<IpAddress>) {
    x in s && forall y :: y in s && y != x ==> Less(x, y)
  }

  lemma LeastIsUnique(x: IpAddress, y: IpAddress, s: set<IpAddress>)
    requires IsLeast(x, s) && IsLeast(y, s)
    ensures x == y
  {
    LessIsStrictTotalOrder(x, y, x);
  }

  lemma {:induction false} LeastExists(s: set<IpAddress>)
    requires s != {}
    ensures exists x :: IsLeast(x, s)
    decreases s
  {
    var y :| y in s;
    if s == {y} {
      assert IsLeast(y, s);
    } else {
      LeastExists(s - {y});
      var x :| IsLeast(x, s - {y});
      LessIsStrictTotalOrder(x, y, x);
      if Less(x, y) {
        assert IsLeast(x, s);
      } else {
        forall z | z in s && z != y
          ensures Less(y, z)
        {
          LessIsStrictTotalOrder(y, x, z);
        }
        assert IsLeast(y, s);
      }
    }
  }

  ghost function Least(s: set<IpAddress>): (x: IpAddress)
    requires s != {}
    ensures IsLeast(x, s)
  {
    LeastExists(s);
    var x :| IsLeast(x, s);
    x
  }

  /** The elements of a std::set<IpAddress> in iteration order. */
  ghost function InOrder(s: set<IpAddress>): seq<IpAddress> {
    if s == {} then [] else [Least(s)] + InOrder(s - {Least(s)})
  }

  /** Iteration visits exactly the elements, each once, in increasing order. */
  lemma {:induction false} InOrderVisitsEachOnce(s: set<IpAddress>)
    ensures Increasing(InOrder(s))
    ensures |InOrder(s)| == |s|
    ensures forall x :: x in InOrder(s) <==> x in s
    decreases s
  {
    if s != {} {
      InOrderVisitsEachOnce(s - {Least(s)});
    }
  }

  lemma HeadOfOrder(s: set<IpAddress>, x: IpAddress)
    requires IsLeast(x, s)
    ensures InOrder(s) == [x] + InOrder(s - {x})
  {
    LeastIsUnique(x, Least(s), s);
  }

  /** Walks a std::set<IpAddress> from begin() to end(). */
  method Elements(s: set<IpAddress>) returns (v: seq<IpAddress>)
    ensures v == InOrder(s)
  {
    v := [];
    var rest := s;
    while rest != {}
      invariant v + InOrder(rest) == InOrder(s)
      decreases rest
    {
      LeastExists(rest);
      var x :| IsLeast(x, rest);
      HeadOfOrder(rest, x);
      Shift(v, x, InOrder(rest - {x}));
      v, rest := v + [x], rest - {x};
    }
  }

  lemma Shift<T>(a: seq<T>, x: T, b: seq<T>)
    ensures (a + [x]) + b == a + ([x] + b)
  {}

  // -------------------------------------------- the address-list check

  ghost predicate Sorted(s: seq<IpAddress>) {
    forall i, j :: 0 <= i < j < |s| ==> !Less(s[j], s[i])
  }

  lemma SortedCons(x: IpAddress, s: seq<IpAddress>)
    requires Sorted(s)
    requires forall y :: y in multiset(s) ==> !Less(y, x)
    ensures Sorted([x] + s)
  {}

  lemma NotLessThanHead(x: IpAddress, s: seq<IpAddress>)
    requires Sorted(s)
    requires s != [] ==> !Less(s[0], x)
    ensures forall y :: y in multiset(s) ==> !Less(y, x)
  {
    forall y | y in multiset(s)
      ensures !Less(y, x)
    {
      var j :| 0 <= j < |s| && s[j] == y;
      LessIsStrictTotalOrder(s[0], y, x);
      LessIsStrictTotalOrder(y, x, y);
    }
  }

  lemma MultisetCons(x: IpAddress, s: seq<IpAddress>)
    ensures multiset([x] + s) == multiset(s) + multiset{x}
  {}

  function Insert(x: IpAddress, s: seq<IpAddress>): (r: seq<IpAddress>)
    requires Sorted(s)
    ensures Sorted(r)
    ensures multiset(r) == multiset(s) + multiset{x}
  {
    if s == [] || !Less(s[0], x) then
      NotLessThanHead(x, s);
      SortedCons(x, s);
      MultisetCons(x, s);
      [x] + s
    else
      var t := Insert(x, s[1..]);
      assert s == [s[0]] + s[1..];
      LessIsStrictTotalOrder(s[0], x, s[0]);
      NotLessThanHead(s[0], s);
      MultisetCons(s[0], s[1..]);
      SortedCons(s[0], t);
      MultisetCons(s[0], t);
      [s[0]] + t
  }

  /** std::sort */
  function Sort(s: seq<IpAddress>): (r: seq<IpAddress>)
    ensures Sorted(r)
    ensures multiset(r) == multiset(s)
  {
    if s == [] then [] else
      assert s == [s[0]] + s[1..];
      Insert(s[0], Sort(s[1..]))
  }

  lemma AbsentFromTail(x: IpAddress, s: seq<IpAddress>, j: nat)
    requires Sorted(s) && j < |s| && Less(x, s[j])
    ensures x !in multiset(s[j..])
  {
    if x in s[j..] {
      var k :| j <= k < |s| && s[k] == x;
      LessIsStrictTotalOrder(s[j], x, s[j]);
    }
  }

  lemma SplitTail(s: seq<IpAddress>, i: nat)
    requires i < |s|
    ensures multiset(s[i..]) == multiset{s[i]} + multiset(s[i + 1..])
  {
    assert s[i..] == [s[i]] + s[i + 1..];
  }

  /** What merging a from i and b from j has still to write. */
  function Difference(a: seq<IpAddress>, i: nat, b: seq<IpAddress>, j: nat): seq<IpAddress>
    requires i <= |a| && j <= |b|
    decreases |a| - i + |b| - j
  {
    if i == |a| then []
    else if j < |b| && Less(b[j], a[i]) then Difference(a, i, b, j + 1)
    else if j < |b| && !Less(a[i], b[j]) then Difference(a, i + 1, b, j + 1)
    else [a[i]] + Difference(a, i + 1, b, j)
  }

  /** On sorted ranges the merge is the difference of multisets. */
  lemma {:induction false} DifferenceIsMultisetDifference(a: seq<IpAddress>, i: nat, b: seq<IpAddress>, j: nat)
    requires Sorted(a) && Sorted(b) && i <= |a| && j <= |b|
    ensures multiset(Difference(a, i, b, j)) == multiset(a[i..]) - multiset(b[j..])
    decreases |a| - i + |b| - j
  {
    if i == |a| {
      assert a[i..] == [];
    } else if j < |b| && Less(b[j], a[i]) {
      DifferenceIsMultisetDifference(a, i, b, j + 1);
      SplitTail(b, j);
      AbsentFromTail(b[j], a, i);
    } else if j < |b| && !Less(a[i], b[j]) {
      DifferenceIsMultisetDifference(a, i + 1, b, j + 1);
      LessIsStrictTotalOrder(a[i], b[j], a[i]);
      SplitTail(a, i);
      SplitTail(b, j);
    } else {
      DifferenceIsMultisetDifference(a, i + 1, b, j);
      SplitTail(a, i);
      if j < |b| {
        AbsentFromTail(a[i], b, j);
      } else {
        assert b[j..] == [];
      }
      MultisetCons(a[i], Difference(a, i + 1, b, j));
    }
  }

  method Put(out: array<IpAddress>, n: nat, x: IpAddress, ghost written: seq<IpAddress>)
    requires n < out.Length && out[..n] == written
    modifies out
    ensures out[..n + 1] == written + [x]
  {
    out[n] := x;
  }

  /** std::set_difference over two sorted ranges, writing to out. */
  method SetDifference(a: seq<IpAddress>, b: seq<IpAddress>, out: array<IpAddress>) returns (n: nat)
    requires Sorted(a) && Sorted(b)
    requires |a| <= out.Length
    modifies out
    ensures n <= |a|
    ensures multiset(out[..n]) == multiset(a) - multiset(b)
  {
    var i, j := 0, 0;
    n := 0;
    ghost var written: seq<IpAddress> := [];
    while i < |a|
      invariant n <= i <= |a| && j <= |b|
      invariant out[..n] == written
      invariant written + Difference(a, i, b, j) == Difference(a, 0, b, 0)
      decreases |a| - i + |b| - j
    {
      if j < |b| && Less(b[j], a[i]) {
        j := j + 1;
      } else if j < |b| && !Less(a[i], b[j]) {
        i, j := i + 1, j + 1;
      } else {
        Put(out, n, a[i], written);
        Shift(written, a[i], Difference(a, i + 1, b, j));
        written := written + [a[i]];
        n, i := n + 1, i + 1;
      }
    }
    DifferenceIsMultisetDifference(a, 0, b, 0);
    assert a[0..] == a && b[0..] == b;
  }

  /** The copy of a set into a vector, as std::copy fills it. */
  method ToVector(s: set<IpAddress>) returns (v: seq<IpAddress>)
    ensures multiset(v) == multiset(s)
    ensures |v| == |s|
  {
    v := [];
    var rest := s;
    while rest != {}
      invariant rest <= s
      invariant multiset(v) == multiset(s - rest)
      invariant |v| + |rest| == |s|
    {
      var x :| x in rest;
      assert s - (rest - {x}) == (s - rest) + {x};
      v, rest := v + [x], rest - {x};
    }
    assert s - rest == s;
  }

  /** Size of the sorted difference between the advertised list and the
      service's own set; the difference always fits the buffer the code
      allocates, and it is empty exactly when the advertised list, with its
      repetitions, is contained in the set. */
  method AddressListDifference(addresses: seq<IpAddress>, own: set<IpAddress>) returns (count: nat)
    ensures count == |multiset(addresses) - multiset(own)|
    ensures count == 0 <==> multiset(addresses) <= multiset(own)
  {
    var incomingList := Sort(addresses);
    assert |multiset(incomingList)| == |multiset(addresses)|;
    var vector := ToVector(own);
    var serviceList := Sort(vector);
    var size := if |incomingList| < |serviceList| then |serviceList| else |incomingList|;
    var difference := new IpAddress[size](_ => IpAddress(AF_UNSPEC, []));
    count := SetDifference(incomingList, serviceList, difference);
    assert |multiset(difference[..count])| == count;
    DifferenceEmpty(multiset(addresses), multiset(own));
  }

  lemma DifferenceEmpty(a: multiset<IpAddress>, b: multiset<IpAddress>)
    ensures |a - b| == 0 <==> a <= b
  {
    if |a - b| == 0 {
      assert a - b == multiset{};
      forall x | x in a
        ensures a[x] <= b[x]
      {
        assert x !in a - b;
      }
    } else {
      assert a - b != multiset{};
      var x :| x in a - b;
      assert a[x] > b[x];
    }
  }
}
