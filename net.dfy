/**
 * net.c: `net_info()`, the network field. It reads the ports of the trunk
 * interface `trunk0`, takes the first active one, and writes its name, a
 * space and the interface's address as text into a static buffer.
 */
module Net {
  import opened CString

  const IFNAME: string := "trunk0"
  const IFNAMSIZ: nat := 16
  const INET_ADDRSTRLEN: nat := 16
  const INET6_ADDRSTRLEN: nat := 46
  /** `sizeof(str)`: a port name, a space and the longer of the two address texts. */
  const NET_BUFLEN: nat := IFNAMSIZ + 1 + INET6_ADDRSTRLEN

  /** Constants of <net/if_trunk.h> and <sys/socket.h>. */
  const TRUNK_PROTO_ROUNDROBIN: bv32 := 1
  const TRUNK_PROTO_FAILOVER: bv32 := 2
  const TRUNK_PROTO_LOADBALANCE: bv32 := 3
  const TRUNK_PROTO_BROADCAST: bv32 := 4
  const TRUNK_PROTO_LACP: bv32 := 5
  const TRUNK_PORT_ACTIVE: bv32 := 4
  const AF_INET: int := 2
  const AF_INET6: int := 24

  /** One `struct trunk_reqport`: the bytes of `rp_portname` and `rp_flags`. */
  datatype Port = Port(portname: seq<char>, flags: bv32)

  /** What `SIOCGTRUNK` reports: `ra_proto` and the `ra_ports` ports. */
  datatype Trunk = Trunk(proto: bv32, ports: seq<Port>)

  /** What `SIOCGIFADDR` reports: the address family, and the text `inet_ntop` makes of the address. */
  datatype Addr = Addr(family: int, text: string)

  predicate Active(p: Port) {
    p.flags & TRUNK_PORT_ACTIVE != 0
  }

  /** The index of the first active port. */
  function ActivePort(ports: seq<Port>): (r: Option<nat>)
    ensures r.Some? ==> r.value < |ports| && Active(ports[r.value])
    ensures r.Some? ==> forall j :: 0 <= j < r.value ==> !Active(ports[j])
    ensures r.None? ==> forall j :: 0 <= j < |ports| ==> !Active(ports[j])
  {
    if |ports| == 0 then None
    else if Active(ports[0]) then Some(0)
    else
      match ActivePort(ports[1..])
      case None => None
      case Some(k) => Some(k + 1)
  }

  /** The `for` loop over `rpbuf`: the first port with `TRUNK_PORT_ACTIVE`, or none. */
  method FirstActive(ports: seq<Port>) returns (r: Option<nat>)
    ensures r == ActivePort(ports)
  {
    var i := 0;
    while i < |ports|
      invariant 0 <= i <= |ports|
      invariant forall j :: 0 <= j < i ==> !Active(ports[j])
    {
      if Active(ports[i]) {
        return Some(i);
      }
      i := i + 1;
    }
    return None;
  }

  /** The protocol test as written, `ra_proto & TRUNK_PROTO_FAILOVER`: any protocol with that bit set passes. */
  predicate ProtoCheckAsWritten(proto: bv32) {
    proto & TRUNK_PROTO_FAILOVER != 0
  }

  /** The protocol test the warning "trunk protocol is not 'failover'" describes. */
  predicate IsFailover(proto: bv32) {
    proto == TRUNK_PROTO_FAILOVER
  }

  /** A load-balancing trunk passes the test as written although it is not a failover trunk. */
  lemma LoadBalancePasses()
    ensures ProtoCheckAsWritten(TRUNK_PROTO_LOADBALANCE) && !IsFailover(TRUNK_PROTO_LOADBALANCE)
  {
  }

  /**
   * Among the trunk protocols the exact test accepts failover alone, and the
   * test as written accepts it too, together with load balancing.
   */
  lemma FailoverTestAgrees(proto: bv32)
    requires proto in {TRUNK_PROTO_ROUNDROBIN, TRUNK_PROTO_FAILOVER, TRUNK_PROTO_LOADBALANCE,
                       TRUNK_PROTO_BROADCAST, TRUNK_PROTO_LACP}
    ensures IsFailover(proto) ==> ProtoCheckAsWritten(proto)
    ensures ProtoCheckAsWritten(proto) <==> IsFailover(proto) || proto == TRUNK_PROTO_LOADBALANCE
  {
  }

  /** The port name as `strnlen(rp->rp_portname, IFNAMSIZ)` measures it. */
  function PortName(p: Port): (r: string)
    ensures |r| <= IFNAMSIZ && '\0' !in r
  {
    Truncate(CStr(p.portname), IFNAMSIZ)
  }

  /** The protocol test `net_info()` applies: the bit test as written, or the exact comparison. */
  datatype ProtoTest = AsWritten | Exact

  predicate Accepts(test: ProtoTest, proto: bv32) {
    match test
    case AsWritten => ProtoCheckAsWritten(proto)
    case Exact => IsFailover(proto)
  }

  /**
   * `net_info()` with protocol test `test`: `None` for NULL. `sockOk` says
   * whether `socket` succeeded, `trunk` and `addr` are the two `ioctl` answers
   * (`None` when one fails).
   */
  function NetText(test: ProtoTest, sockOk: bool, trunk: Option<Trunk>, addr: Option<Addr>): Option<string> {
    if !sockOk || trunk.None? || !Accepts(test, trunk.value.proto) then None
    else
      match ActivePort(trunk.value.ports)
      case None => None
      case Some(i) =>
        if addr.None? || (addr.value.family != AF_INET && addr.value.family != AF_INET6) then None
        else
          var name := PortName(trunk.value.ports[i]);
          // inet_ntop fails when the text and its NUL do not fit behind the name
          if |addr.value.text| >= NET_BUFLEN - |name| - 1 then None
          else Some(name + " " + addr.value.text)
  }

  /**
   * The field is shown exactly when the socket opens, the trunk passes the
   * protocol test and has an active port, and the interface has an IPv4 or IPv6
   * address; it is the first active port's name, a space and the address.
   */
  lemma NetTextIff(test: ProtoTest, sockOk: bool, trunk: Option<Trunk>, addr: Option<Addr>)
    requires addr.Some? ==> |addr.value.text| < INET6_ADDRSTRLEN
    ensures NetText(test, sockOk, trunk, addr).Some? <==>
      sockOk && trunk.Some? && Accepts(test, trunk.value.proto) && ActivePort(trunk.value.ports).Some?
      && addr.Some? && (addr.value.family == AF_INET || addr.value.family == AF_INET6)
    ensures NetText(test, sockOk, trunk, addr).Some? ==>
      NetText(test, sockOk, trunk, addr).value
        == PortName(trunk.value.ports[ActivePort(trunk.value.ports).value]) + " " + addr.value.text
  {
  }

  /**
   * net.c as written shows the field for a load-balancing trunk with an active
   * port and an IPv4 address; with the exact test it shows nothing.
   */
  lemma LoadBalanceShown(port: Port, addr: Addr)
    requires Active(port) && addr.family == AF_INET && |addr.text| < INET_ADDRSTRLEN
    ensures NetText(AsWritten, true, Some(Trunk(TRUNK_PROTO_LOADBALANCE, [port])), Some(addr))
      == Some(PortName(port) + " " + addr.text)
    ensures NetText(Exact, true, Some(Trunk(TRUNK_PROTO_LOADBALANCE, [port])), Some(addr)).None?
  {
    LoadBalancePasses();
    assert ActivePort([port]) == Some(0);
  }

  /**
   * `net_info()` on the static buffer `str`: `strlcpy` of the port name,
   * `str[len] = ' '`, then `inet_ntop` behind it. With the exact test a
   * result means the trunk is a failover trunk.
   */
  method NetInfo(test: ProtoTest, sockOk: bool, trunk: Option<Trunk>, addr: Option<Addr>) returns (r: Option<string>)
    requires addr.Some? ==> '\0' !in addr.value.text
    ensures r == NetText(test, sockOk, trunk, addr)
    ensures r.Some? ==> trunk.Some? && Accepts(test, trunk.value.proto)
    ensures r.Some? && test == Exact ==> trunk.value.proto == TRUNK_PROTO_FAILOVER
  {
    if !sockOk || trunk.None? {
      return None;
    }
    if !Accepts(test, trunk.value.proto) {
      return None;
    }
    var i := FirstActive(trunk.value.ports);
    if i.None? {
      return None;
    }
    if addr.None? || (addr.value.family != AF_INET && addr.value.family != AF_INET6) {
      return None;
    }
    r := WriteLine(trunk.value.ports[i.value], addr.value.text);
  }

  /** The output half of `net_info()`: the port name, a space and the address text in `str`. */
  method WriteLine(rp: Port, text: string) returns (r: Option<string>)
    requires '\0' !in text
    ensures r == if |text| >= NET_BUFLEN - |PortName(rp)| - 1 then None else Some(PortName(rp) + " " + text)
  {
    var str := new char[NET_BUFLEN];
    var copied := Truncate(CStr(rp.portname), NET_BUFLEN - 1);
    Put(str, 0, copied + ['\0']);
    var name := PortName(rp);
    var len := |name|;
    ghost var copiedBuf := str[..];
    assert copiedBuf[..len] == name by {
      assert copiedBuf[..|copied|] == copied;
      assert copied[..len] == name;
    }
    str[len] := ' ';
    ghost var spaced := str[..];
    assert spaced[..len + 1] == name + " " by {
      assert spaced == copiedBuf[len := ' '];
      assert spaced[..len] == copiedBuf[..len];
    }
    if |text| >= NET_BUFLEN - len - 1 {
      return None;
    }
    Put(str, len + 1, text + ['\0']);
    assert str[..len + 1] == name + " ";
    CStrOfParts(str[..], name + " ", text);
    r := Some(CStr(str[..]));
  }
}
