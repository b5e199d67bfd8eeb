/** The binary configuration format: what each write helper appends and what each
    read helper makes of a file from a given position, with the proof that
    reading undoes writing. */
module ConfigFormat {
  import opened Addresses

  const WORD := 0x1_0000_0000

  type Bytes = seq<Byte>

  /** Result of a read helper: failure, or a value and the position behind it. */
  datatype Parsed<+T> = Fail | Ok(value: T, pos: nat) {
    predicate IsFailure() {
      Fail?
    }

    function PropagateFailure<U>(): Parsed<U>
      requires Fail?
    {
      Fail
    }

    function Extract(): (T, nat)
      requires Ok?
    {
      (value, pos)
    }
  }

  // ------------------------------------------------------------------ writing

  /** htonl of a 32-bit integer */
  function IntBytes(v: int): (b: Bytes)
    ensures |b| == 4
  {
    var u := v % WORD;
    [u / 256 / 256 / 256, u / 256 / 256 % 256, u / 256 % 256, u % 256]
  }

  function PutInt(w: Bytes, v: int): Bytes {
    w + IntBytes(v)
  }

  function PutBoolean(w: Bytes, v: bool): Bytes {
    w + [if v then 0xFF else 0]
  }

  /** Commands and names are cut off after 255 bytes. */
  function Cut(s: Bytes): Bytes {
    if |s| > 255 then s[..255] else s
  }

  function PutString(w: Bytes, s: Bytes): Bytes {
    w + [|Cut(s)|] + Cut(s)
  }

  function PutIp(w: Bytes, a: IpAddress): Bytes {
    PutInt(w, a.family) + a.data
  }

  function PutSubnet(w: Bytes, s: IpSubnet): Bytes {
    PutInt(PutIp(w, s.address), s.cidr)
  }

  function PutSubnets(w: Bytes, subnets: seq<IpSubnet>): Bytes {
    if subnets == [] then w
    else PutSubnet(PutSubnets(w, subnets[..|subnets| - 1]), subnets[|subnets| - 1])
  }

  // ------------------------------------------------------------------ reading

  function ToInt(b: Bytes): int
    requires |b| == 4
  {
    var u := ((256 * (b[0] as int) + b[1]) * 256 + b[2]) * 256 + b[3];
    if u >= 0x8000_0000 then u - WORD else u
  }

  function ParseInt(f: Bytes, p: nat): (r: Parsed<int>)
    ensures r.Ok? ==> r.pos == p + 4 <= |f| && -0x8000_0000 <= r.value < 0x8000_0000
  {
    if p + 4 > |f| then Fail else Ok(ToInt(f[p..p + 4]), p + 4)
  }

  function ParseBoolean(f: Bytes, p: nat): (r: Parsed<bool>)
    ensures r.Ok? ==> r.pos == p + 1 <= |f| && (r.value <==> f[p] > 0)
  {
    if p + 1 > |f| then Fail else Ok(f[p] != 0, p + 1)
  }

  function ParseString(f: Bytes, p: nat): (r: Parsed<Bytes>)
    ensures r.Ok? ==> p < r.pos <= |f| && |r.value| <= 255
  {
    if p + 1 > |f| || p + 1 + f[p] > |f| then Fail
    else Ok(f[p + 1..p + 1 + f[p]], p + 1 + f[p])
  }

  function ParseIp(f: Bytes, p: nat): (r: Parsed<IpAddress>)
    ensures r.Ok? ==> p + 4 <= r.pos <= |f| && Storable(r.value)
  {
    var (family, q) :- ParseInt(f, p);
    var size := FamilySize(family);
    if size == 0 then Ok(IpAddress(AF_UNSPEC, []), q)
    else if q + size > |f| then Fail
    else Ok(IpAddress(family, f[q..q + size]), q + size)
  }

  /** Every subnet takes at least eight bytes. */
  function ParseSubnet(f: Bytes, p: nat): (r: Parsed<IpSubnet>)
    ensures r.Ok? ==> p + 8 <= r.pos <= |f|
  {
    var (address, q) :- ParseIp(f, p);
    var (cidr, q') :- ParseInt(f, q);
    Ok(IpSubnet(address, cidr % WORD), q')
  }

  /** The loop runs while its counter differs from the count, so a negative
      count can only end in failure. */
  function ParseSubnets(f: Bytes, p: nat, count: int, found: set<IpSubnet>): (r: Parsed<set<IpSubnet>>)
    ensures r.Ok? ==> count >= 0 && (p <= |f| ==> p <= r.pos <= |f|)
    decreases |f| - p
  {
    if count == 0 then Ok(found, p)
    else
      var (subnet, q) :- ParseSubnet(f, p);
      ParseSubnets(f, q, count - 1, found + {subnet})
  }

  // --------------------------------------------- reading undoes writing, field by field

  predicate IsInt32(v: int) {
    -0x8000_0000 <= v < 0x8000_0000
  }

  lemma PrefixSlice(w: Bytes, x: Bytes, f: Bytes)
    requires w + x <= f
    ensures f[|w|..|w| + |x|] == x
    ensures w <= f
  {}

  lemma ReadsInt(w: Bytes, v: int, f: Bytes)
    requires IsInt32(v) && PutInt(w, v) <= f
    ensures ParseInt(f, |w|) == Ok(v, |PutInt(w, v)|) && w <= f
  {}

  lemma ReadsBoolean(w: Bytes, v: bool, f: Bytes)
    requires PutBoolean(w, v) <= f
    ensures ParseBoolean(f, |w|) == Ok(v, |PutBoolean(w, v)|) && w <= f
  {}

  lemma ReadsString(w: Bytes, s: Bytes, f: Bytes)
    requires PutString(w, s) <= f
    ensures ParseString(f, |w|) == Ok(Cut(s), |PutString(w, s)|) && w <= f
  {
    var head := w + [|Cut(s)|];
    PrefixSlice(head, Cut(s), f);
    PrefixSlice(w, [|Cut(s)|], f);
    assert f[|w|] == f[|w|..|w| + 1][0];
  }

  /** Only the two families, and the address without one, are kept by the
      format. */
  predicate Storable(a: IpAddress) {
    a.family == AF_INET || a.family == AF_INET6 || a.family == AF_UNSPEC
  }

  lemma ReadsIp(w: Bytes, a: IpAddress, f: Bytes)
    requires Storable(a) && PutIp(w, a) <= f
    ensures ParseIp(f, |w|) == Ok(a, |PutIp(w, a)|) && w <= f
  {
    PrefixSlice(PutInt(w, a.family), a.data, f);
    ReadsInt(w, a.family, f);
  }

  predicate StorableSubnet(s: IpSubnet) {
    Storable(s.address) && s.cidr < WORD
  }

  /** The int that an unsigned prefix length is converted to and back. */
  lemma SameWord(n: nat) returns (v: int)
    requires n < WORD
    ensures IsInt32(v) && v % WORD == n && IntBytes(v) == IntBytes(n)
  {
    v := if n >= 0x8000_0000 then n - WORD else n;
    assert v % WORD == n;
  }

  lemma ReadsSubnet(w: Bytes, s: IpSubnet, f: Bytes)
    requires StorableSubnet(s) && PutSubnet(w, s) <= f
    ensures ParseSubnet(f, |w|) == Ok(s, |PutSubnet(w, s)|) && w <= f
  {
    var v := SameWord(s.cidr);
    ReadsInt(PutIp(w, s.address), v, f);
    ReadsIp(w, s.address, f);
  }

  lemma PutSubnetsPrefix(w: Bytes, subnets: seq<IpSubnet>)
    ensures w <= PutSubnets(w, subnets)
  {}

  /** PutSubnets from the front. */
  lemma {:induction false} PutSubnetsFirst(w: Bytes, subnets: seq<IpSubnet>)
    requires subnets != []
    ensures PutSubnets(w, subnets) == PutSubnets(PutSubnet(w, subnets[0]), subnets[1..])
  {
    var n := |subnets| - 1;
    if n > 0 {
      PutSubnetsFirst(w, subnets[..n]);
      assert subnets[..n][1..] == subnets[1..][..n - 1];
    }
  }

  function SetOf(subnets: seq<IpSubnet>): set<IpSubnet> {
    set s | s in subnets
  }

  lemma SetOfFirst(subnets: seq<IpSubnet>, found: set<IpSubnet>)
    ensures subnets == [] ==> found + SetOf(subnets) == found
    ensures subnets != [] ==> (found + {subnets[0]}) + SetOf(subnets[1..]) == found + SetOf(subnets)
  {}

  lemma ParseSubnetsFirst(f: Bytes, p: nat, count: nat, found: set<IpSubnet>, s: IpSubnet, q: nat)
    requires count > 0 && ParseSubnet(f, p) == Ok(s, q)
    ensures ParseSubnets(f, p, count, found) == ParseSubnets(f, q, count - 1, found + {s})
  {}

  lemma {:induction false} ReadsSubnets(w: Bytes, subnets: seq<IpSubnet>, f: Bytes, found: set<IpSubnet>)
    requires forall s :: s in subnets ==> StorableSubnet(s)
    requires PutSubnets(w, subnets) <= f
    ensures ParseSubnets(f, |w|, |subnets|, found) == Ok(found + SetOf(subnets), |PutSubnets(w, subnets)|)
    decreases |subnets|
  {
    SetOfFirst(subnets, found);
    if subnets != [] {
      var first, rest := subnets[0], subnets[1..];
      PutSubnetsFirst(w, subnets);
      PutSubnetsPrefix(PutSubnet(w, first), rest);
      ReadsSubnet(w, first, f);
      ParseSubnetsFirst(f, |w|, |subnets|, found, first, |PutSubnet(w, first)|);
      ReadsSubnets(PutSubnet(w, first), rest, f, found + {first});
    }
  }

}
