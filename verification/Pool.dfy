/**
 The driver's network configuration and its address pool: what initialisation
 and validation establish, and which address an allocation returns.
 */
module Pool {
  import opened Outcomes
  import opened Text
  import opened Ipv4
  import opened Subnet

  /** The operator's network block; None is a field left empty or one that does not parse. */
  datatype Network = Network(
    bridge: string, subnetCIDR: Option<Prefix>, gateway: Option<Addr>,
    ipPoolStart: Option<Addr>, ipPoolEnd: Option<Addr>, tapPrefix: string)

  /** The driver's parsed fields; None is the invalid zero value. */
  datatype Net = Net(subnet: Option<Prefix>, gateway: Option<Addr>, poolStart: Option<Addr>, poolEnd: Option<Addr>)

  predicate Within(subnet: Option<Prefix>, a: Option<Addr>) {
    subnet.Some? && a.Some? && Contains(subnet.value, a.value)
  }

  /** The first address after the network address, when the subnet has one. */
  function DefaultGateway(subnet: Prefix): Option<Addr> {
    if subnet.addr < 0xFFFF_FFFF && Contains(subnet, subnet.addr + 1) then Some(subnet.addr + 1) else None
  }

  function DropOutside(subnet: Option<Prefix>, a: Option<Addr>): Option<Addr> {
    if subnet.Some? && !Within(subnet, a) then None else a
  }

  /** What initializeNetworkConfig leaves in the driver. */
  function Initialized(nc: Network): Net {
    var subnet := if nc.subnetCIDR.Some? then Some(Masked(nc.subnetCIDR.value)) else None;
    Net(subnet,
        if nc.gateway.None? && subnet.Some? then DefaultGateway(subnet.value) else nc.gateway,
        DropOutside(subnet, nc.ipPoolStart),
        DropOutside(subnet, nc.ipPoolEnd))
  }

  /**
   What initializing leaves: the subnet without host bits, the gateway given or
   else the subnet's second address if it has one, and each pool end given unless
   a subnet is given that it lies outside of.
   */
  lemma {:induction false} InitializedFields(nc: Network)
    ensures var net := Initialized(nc);
            && (net.subnet.Some? <==> nc.subnetCIDR.Some?)
            && (nc.subnetCIDR.Some? ==>
                  var p := nc.subnetCIDR.value;
                  && net.subnet.value.bits == p.bits && net.subnet.value.addr == First(p)
                  && (forall a: Addr :: Contains(net.subnet.value, a) <==> First(p) <= a <= Last(p)))
            && (nc.gateway.Some? ==> net.gateway == nc.gateway)
            && (nc.gateway.None? && nc.subnetCIDR.None? ==> net.gateway == None)
            && (nc.gateway.None? && nc.subnetCIDR.Some? ==>
                  var p := nc.subnetCIDR.value;
                  if p.bits < 32 then net.gateway.Some? && net.gateway.value == First(p) + 1 else net.gateway == None)
            && net.poolStart == (if Kept(nc.subnetCIDR, nc.ipPoolStart) then nc.ipPoolStart else None)
            && net.poolEnd == (if Kept(nc.subnetCIDR, nc.ipPoolEnd) then nc.ipPoolEnd else None)
  {
    if nc.subnetCIDR.Some? {
      var p := nc.subnetCIDR.value;
      LastIsAddress(p);
      forall a: Addr ensures Contains(Masked(p), a) <==> First(p) <= a <= Last(p) {
        ContainsIsInterval(p, a);
        ContainsIsInterval(Masked(p), a);
      }
      assert p.bits < 32 <==> BlockSize(p.bits) >= 2;
    }
  }

  /** A pool end is kept when it is given and, if a subnet is, lies in it. */
  predicate Kept(subnet: Option<Prefix>, a: Option<Addr>) {
    a.Some? && (subnet.Some? ==> First(subnet.value) <= a.value <= Last(subnet.value))
  }

  datatype ConfigError = NoBridge | NoSubnet | BadGateway | NoPool
    | PoolOutsideSubnet | PoolReversed | GatewayStartsPool

  /** validateNetworkConfig, in the order it reports problems. */
  function Validate(net: Net, bridge: string): Option<ConfigError> {
    if bridge == "" then Some(NoBridge)
    else if net.subnet.None? then Some(NoSubnet)
    else if !Within(net.subnet, net.gateway) then Some(BadGateway)
    else if net.poolStart.None? || net.poolEnd.None? then Some(NoPool)
    else if !Within(net.subnet, net.poolStart) || !Within(net.subnet, net.poolEnd) then Some(PoolOutsideSubnet)
    else if net.poolEnd.value < net.poolStart.value then Some(PoolReversed)
    else if net.gateway == net.poolStart then Some(GatewayStartsPool)
    else None
  }

  /** The state every started driver is in. */
  predicate Validated(net: Net) {
    && Within(net.subnet, net.gateway) && Within(net.subnet, net.poolStart) && Within(net.subnet, net.poolEnd)
    && net.poolStart.value <= net.poolEnd.value
    && net.gateway != net.poolStart
  }

  /**
   A configuration starts exactly when it names a bridge and a subnet that holds
   both pool ends in order and a gateway other than the pool's first address;
   an omitted gateway is the subnet's second address, which a /32 does not have.
   */
  lemma {:induction false} StartsIff(nc: Network)
    ensures Validate(Initialized(nc), nc.bridge).None? ==> Validated(Initialized(nc))
    ensures Validate(Initialized(nc), nc.bridge).None? <==>
              && nc.bridge != "" && nc.subnetCIDR.Some?
              && nc.ipPoolStart.Some? && nc.ipPoolEnd.Some?
              && var p := nc.subnetCIDR.value;
              && First(p) <= nc.ipPoolStart.value <= nc.ipPoolEnd.value <= Last(p)
              && (if nc.gateway.Some? then First(p) <= nc.gateway.value <= Last(p) && nc.gateway != nc.ipPoolStart
                  else p.bits < 32 && nc.ipPoolStart.value != First(p) + 1)
  {
    if nc.subnetCIDR.Some? {
      var p := nc.subnetCIDR.value;
      LastIsAddress(p);
      forall a: Addr ensures Contains(Masked(p), a) <==> First(p) <= a <= Last(p) {
        ContainsIsInterval(p, a);
        ContainsIsInterval(Masked(p), a);
      }
      assert p.bits < 32 <==> BlockSize(p.bits) >= 2;
    }
  }

  /** Which problem is reported, each by the first condition that fails. */
  lemma {:induction false} ProblemsReported(net: Net, bridge: string)
    ensures var named, subnet := bridge != "", net.subnet.Some?;
            var gateway := subnet && net.gateway.Some? && Contains(net.subnet.value, net.gateway.value);
            var pool := net.poolStart.Some? && net.poolEnd.Some?;
            var inside := subnet && pool && Contains(net.subnet.value, net.poolStart.value)
                          && Contains(net.subnet.value, net.poolEnd.value);
            var ordered := pool && net.poolStart.value <= net.poolEnd.value;
            && (Validate(net, bridge) == Some(NoBridge) <==> !named)
            && (Validate(net, bridge) == Some(NoSubnet) <==> named && !subnet)
            && (Validate(net, bridge) == Some(BadGateway) <==> named && subnet && !gateway)
            && (Validate(net, bridge) == Some(NoPool) <==> named && gateway && !pool)
            && (Validate(net, bridge) == Some(PoolOutsideSubnet) <==> named && gateway && pool && !inside)
            && (Validate(net, bridge) == Some(PoolReversed) <==> named && gateway && inside && !ordered)
            && (Validate(net, bridge) == Some(GatewayStartsPool) <==>
                  named && gateway && inside && ordered && net.gateway.value == net.poolStart.value)
            && (Validate(net, bridge) == None <==>
                  named && gateway && inside && ordered && net.gateway.value != net.poolStart.value)
  {
    hide Contains;
  }

  /** Every address of a validated pool is in the subnet. */
  lemma {:induction false} PoolInSubnet(net: Net, a: Addr)
    requires Validated(net)
    requires net.poolStart.value <= a <= net.poolEnd.value
    ensures Contains(net.subnet.value, a)
  {
    var p := net.subnet.value;
    ContainsIsInterval(p, net.poolStart.value);
    ContainsIsInterval(p, net.poolEnd.value);
    ContainsIsInterval(p, a);
  }

  // ----- Allocation -----

  datatype AllocError = NotConfigured | OutsideSubnet | Exhausted

  /** The addresses an allocation table of texts holds. */
  function Taken(held: set<string>): set<Addr> {
    set s | s in held && ParseV4(s).Some? :: ParseV4(s).value
  }

  /** Looking an address up by its text is asking whether it is taken. */
  lemma {:induction false} TakenByText(held: set<string>, a: Addr)
    ensures a in Taken(held) <==> Dotted(a) in held
  {
    ParseDotted(a);
    if a in Taken(held) {
      var s :| s in held && ParseV4(s) == Some(a);
      DottedParse(s);
    }
  }

  /** The allocation loop from address ip on. */
  function Scan(net: Net, taken: set<Addr>, ip: Addr): Result<Addr, AllocError>
    decreases 0x1_0000_0000 - ip
  {
    if net.subnet.Some? && !Contains(net.subnet.value, ip) then Err(OutsideSubnet)
    else if net.gateway != Some(ip) && ip !in taken then Ok(ip)
    else if net.poolEnd == Some(ip) || ip == 0xFFFF_FFFF then Err(Exhausted)
    else Scan(net, taken, ip + 1)
  }

  /** What allocateIP returns. */
  function Allocate(net: Net, taken: set<Addr>): Result<Addr, AllocError> {
    if net.poolStart.None? || net.poolEnd.None? then Err(NotConfigured)
    else Scan(net, taken, net.poolStart.value)
  }

  predicate HasPool(net: Net) {
    net.gateway.Some? && net.poolStart.Some? && net.poolEnd.Some?
  }

  /** An address the pool may hand out. */
  predicate Usable(net: Net, a: int)
    requires HasPool(net)
  {
    net.poolStart.value <= a <= net.poolEnd.value && a != net.gateway.value
  }

  predicate Free(net: Net, taken: set<Addr>, a: int)
    requires HasPool(net)
  {
    Usable(net, a) && a !in taken
  }

  predicate Blocked(net: Net, taken: set<Addr>, lo: int, hi: int)
    requires HasPool(net)
  {
    forall a :: lo <= a < hi ==> !Free(net, taken, a)
  }

  /** The loop stops at the lowest free usable address, or proves there is none. */
  lemma {:induction false} ScanFindsLowest(net: Net, taken: set<Addr>, ip: Addr)
    requires HasPool(net) && net.poolStart.value <= ip <= net.poolEnd.value
    requires net.subnet.Some? ==> forall a: Addr :: ip <= a <= net.poolEnd.value ==> Contains(net.subnet.value, a)
    ensures match Scan(net, taken, ip)
            case Ok(a) => ip <= a && Free(net, taken, a) && Blocked(net, taken, ip, a)
            case Err(e) => e == Exhausted && Blocked(net, taken, ip, 0x1_0000_0000)
    decreases 0x1_0000_0000 - ip
  {
    if !Free(net, taken, ip) && net.poolEnd != Some(ip) {
      ScanFindsLowest(net, taken, ip + 1);
    }
  }

  /**
   On a validated configuration an allocation returns the lowest free
   non-gateway pool address, never reports an address outside the subnet, and
   fails exactly when no such address is free.
   */
  lemma {:induction false} AllocateIsLowestFree(net: Net, taken: set<Addr>)
    requires Validated(net)
    ensures match Allocate(net, taken)
            case Ok(a) => Free(net, taken, a) && Contains(net.subnet.value, a)
                       && forall b :: b < a ==> !Free(net, taken, b)
            case Err(e) => e == Exhausted && forall a :: !Free(net, taken, a)
  {
    forall a: Addr | net.poolStart.value <= a <= net.poolEnd.value ensures Contains(net.subnet.value, a) {
      PoolInSubnet(net, a);
    }
    ScanFindsLowest(net, taken, net.poolStart.value);
  }

  // ----- Capacity -----

  /** The pool's addresses, the gateway apart. */
  function Capacity(net: Net): int
    requires HasPool(net)
  {
    net.poolEnd.value - net.poolStart.value + 1
    - (if net.poolStart.value <= net.gateway.value <= net.poolEnd.value then 1 else 0)
  }

  ghost function UsableSet(net: Net): set<int>
    requires HasPool(net) && net.poolStart.value <= net.poolEnd.value
  {
    set a | a in Interval(net.poolStart.value, net.poolEnd.value) && Usable(net, a)
  }

  /** The usable addresses someone holds, whether by allocation or as a static address. */
  ghost function TakenUsable(net: Net, taken: set<Addr>): set<int>
    requires HasPool(net) && net.poolStart.value <= net.poolEnd.value
  {
    set a | a in UsableSet(net) && a in taken
  }

  ghost function Interval(lo: int, hi: int): (s: set<int>)
    requires lo <= hi + 1
    ensures |s| == hi - lo + 1
    ensures forall a :: a in s <==> lo <= a <= hi
    decreases hi - lo + 1
  {
    if lo <= hi then Interval(lo, hi - 1) + {hi} else {}
  }

  lemma {:induction false} UsableCount(net: Net)
    requires Validated(net)
    ensures |UsableSet(net)| == Capacity(net) >= 1
  {
    var lo, hi, gw := net.poolStart.value, net.poolEnd.value, net.gateway.value;
    assert UsableSet(net) == Interval(lo, hi) - {gw};
    assert lo in UsableSet(net);
  }

  lemma {:induction false} SubsetSize<T>(a: set<T>, b: set<T>)
    requires a <= b
    ensures |a| <= |b|
    ensures |a| == |b| ==> a == b
  {
    assert b == a + (b - a);
  }

  /**
   Allocation succeeds exactly while fewer usable addresses are held than the
   pool has, and every validated pool has at least one.
   */
  lemma {:induction false} AllocationByCapacity(net: Net, taken: set<Addr>)
    requires Validated(net)
    ensures Capacity(net) >= 1
    ensures Allocate(net, taken).Ok? <==> |TakenUsable(net, taken)| < Capacity(net)
  {
    UsableCount(net);
    AllocateIsLowestFree(net, taken);
    SubsetSize(TakenUsable(net, taken), UsableSet(net));
    if Allocate(net, taken).Ok? {
      var a := Allocate(net, taken).value;
      assert a in UsableSet(net) && a !in TakenUsable(net, taken);
    } else {
      forall a | a in UsableSet(net) ensures a in TakenUsable(net, taken) {
        assert !Free(net, taken, a);
      }
      assert TakenUsable(net, taken) == UsableSet(net);
    }
  }
}
