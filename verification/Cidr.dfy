/**
 CIDR containment and managed-network validation (parse_cidr, mask_ip, cidr_contains_ip,
 cidr_contains_net and validate_network_spec in engine/nasty-apps/src/lib.rs).
 Addresses are numbers below 2^32 or 2^128; the parsing and printing of address text are
 parameters, with printing then parsing taken to be the identity.
 */
module Cidr {
  import opened Base
  import opened Text
  import opened Arith

  function Pow2(n: nat): (p: nat)
    ensures p >= 1
  {
    if n == 0 then 1 else 2 * Pow2(n - 1)
  }

  datatype Ip = V4(bits: nat) | V6(bits: nat)

  function Width(ip: Ip): nat {
    if ip.V4? then 32 else 128
  }

  ghost predicate Address(ip: Ip) {
    ip.bits < Pow2(Width(ip))
  }

  predicate SameFamily(a: Ip, b: Ip) {
    a.V4? == b.V4?
  }

  // The standard library's address parser and printer.
  datatype Syntax = Syntax(parse: string -> Option<Ip>, print_: Ip -> string)

  ghost predicate Lawful(x: Syntax) {
    && (forall s :: x.parse(s).Some? ==> Address(x.parse(s).value))
    && (forall ip | Address(ip) :: x.parse(Trim(x.print_(ip))) == Some(ip))
  }

  datatype Net = Net(ip: Ip, prefix: nat)

  function ParseCidr(x: Syntax, s: string): Option<Net> {
    match SplitOnce(s, '/')
    case None => None
    case Some((addr, prefix)) =>
      var ip := x.parse(Trim(addr));
      var p := ParseUnsigned(Trim(prefix), 255);
      if ip.Some? && p.Some? && p.value <= Width(ip.value) then Some(Net(ip.value, p.value)) else None
  }

  // Shifting right and left again, by the exponent of the block.
  function RoundDown(bits: nat, block: nat): nat
    requires block > 0
  {
    var quotient: nat := bits / block;
    quotient * block
  }

  function MaskIp(ip: Ip, prefix: nat): nat
    requires prefix <= Width(ip)
  {
    if prefix == 0 then 0
    else RoundDown(ip.bits, Pow2(Width(ip) - prefix))
  }

  function CidrContainsIp(x: Syntax, cidr: string, ip: string): Option<bool> {
    match ParseCidr(x, cidr)
    case None => None
    case Some(net) =>
      match x.parse(Trim(ip))
      case None => None
      case Some(addr) =>
        if !SameFamily(net.ip, addr) then Some(false)
        else Some(MaskIp(net.ip, net.prefix) == MaskIp(addr, net.prefix))
  }

  function CidrContainsNet(x: Syntax, outer: string, inner: string): Option<bool> {
    match ParseCidr(x, outer)
    case None => None
    case Some(o) =>
      match ParseCidr(x, inner)
      case None => None
      case Some(i) =>
        if i.prefix < o.prefix then Some(false) else CidrContainsIp(x, outer, x.print_(i.ip))
  }

  // ------------------------------------------------------------------ meaning: sets of addresses

  // The first address of the network's block, and the block's size.
  function BlockSize(net: Net): nat
    requires net.prefix <= Width(net.ip)
  {
    Pow2(Width(net.ip) - net.prefix)
  }

  // The address agrees with the network in its first `prefix` bits.
  ghost predicate Member(net: Net, a: Ip)
    requires net.prefix <= Width(net.ip)
  {
    Address(a) && SameFamily(net.ip, a) && a.bits / BlockSize(net) == net.ip.bits / BlockSize(net)
  }

  ghost predicate Within(inner: Net, outer: Net)
    requires inner.prefix <= Width(inner.ip) && outer.prefix <= Width(outer.ip)
  {
    forall a | Member(inner, a) :: Member(outer, a)
  }

  lemma {:induction false} Pow2Adds(a: nat, b: nat)
    ensures Pow2(a + b) == Pow2(a) * Pow2(b)
  {
    if a > 0 {
      Pow2Adds(a - 1, b);
      assert Pow2(a + b) == 2 * Pow2(a - 1 + b);
      assert 2 * (Pow2(a - 1) * Pow2(b)) == (2 * Pow2(a - 1)) * Pow2(b);
    }
  }

  // Masks agree exactly when the addresses lie in the same block, prefix 0 included.
  lemma MaskIsBlock(net: Net, a: Ip)
    requires net.prefix <= Width(net.ip) && Address(net.ip) && Address(a) && SameFamily(net.ip, a)
    ensures MaskIp(net.ip, net.prefix) == MaskIp(a, net.prefix) <==> Member(net, a)
  {
    if net.prefix == 0 {
      DivUnique(a.bits, BlockSize(net), 0, a.bits);
      DivUnique(net.ip.bits, BlockSize(net), 0, net.ip.bits);
    } else {
      MulCancel(net.ip.bits / BlockSize(net), a.bits / BlockSize(net), BlockSize(net));
    }
  }

  /** cidr_contains_ip says yes exactly when the address is in the network. */
  lemma ContainsIpIsMembership(x: Syntax, cidr: string, ip: string)
    requires Lawful(x)
    ensures CidrContainsIp(x, cidr, ip).Some? <==> ParseCidr(x, cidr).Some? && x.parse(Trim(ip)).Some?
    ensures CidrContainsIp(x, cidr, ip).Some? ==>
              (CidrContainsIp(x, cidr, ip).value <==> Member(ParseCidr(x, cidr).value, x.parse(Trim(ip)).value))
  {
    if ParseCidr(x, cidr).Some? && x.parse(Trim(ip)).Some? {
      var net, a := ParseCidr(x, cidr).value, x.parse(Trim(ip)).value;
      if SameFamily(net.ip, a) {
        MaskIsBlock(net, a);
      }
    }
  }

  lemma LongerPrefixWithin(outer: Net, inner: Net)
    requires Address(outer.ip) && Address(inner.ip) && SameFamily(outer.ip, inner.ip)
    requires outer.prefix <= inner.prefix <= Width(inner.ip)
    ensures Within(inner, outer) <==> Member(outer, inner.ip)
  {
    if Member(outer, inner.ip) {
      forall a | Member(inner, a) ensures Member(outer, a) {
        var ratio := Pow2(inner.prefix - outer.prefix);
        Pow2Adds(Width(inner.ip) - inner.prefix, inner.prefix - outer.prefix);
        assert BlockSize(outer) == BlockSize(inner) * ratio;
        DivDiv(a.bits, BlockSize(inner), ratio);
        DivDiv(inner.ip.bits, BlockSize(inner), ratio);
      }
    } else {
      assert Member(inner, inner.ip);
    }
  }

  lemma ShorterPrefixEscapes(outer: Net, inner: Net)
    requires Address(outer.ip) && Address(inner.ip) && SameFamily(outer.ip, inner.ip)
    requires inner.prefix < outer.prefix <= Width(outer.ip)
    ensures !Within(inner, outer)
  {
    var w := Width(outer.ip);
    Pow2Adds(w - outer.prefix, outer.prefix - inner.prefix);
    Pow2Adds(inner.prefix, w - inner.prefix);
    var first, last :=
      TwoBlocks(inner.ip.bits, BlockSize(inner), BlockSize(outer), Pow2(outer.prefix - inner.prefix), Pow2(inner.prefix));
    var a, b := inner.ip.(bits := first), inner.ip.(bits := last);
    assert Member(inner, a) && Member(inner, b);
    assert !(Member(outer, a) && Member(outer, b));
  }

  /** cidr_contains_net says yes exactly when every address of the inner network is an
      address of the outer one: IPv4 and IPv6, every prefix, mixed families. */
  lemma ContainsNetIsSubset(x: Syntax, outer: string, inner: string)
    requires Lawful(x)
    ensures CidrContainsNet(x, outer, inner).Some? <==> ParseCidr(x, outer).Some? && ParseCidr(x, inner).Some?
    ensures CidrContainsNet(x, outer, inner).Some? ==>
              (CidrContainsNet(x, outer, inner).value <==>
               Within(ParseCidr(x, inner).value, ParseCidr(x, outer).value))
  {
    if ParseCidr(x, outer).Some? && ParseCidr(x, inner).Some? {
      var o, i := ParseCidr(x, outer).value, ParseCidr(x, inner).value;
      assert Member(i, i.ip);
      if !SameFamily(o.ip, i.ip) {
        assert !Member(o, i.ip);
      } else if i.prefix < o.prefix {
        ShorterPrefixEscapes(o, i);
      } else {
        ContainsIpIsMembership(x, outer, x.print_(i.ip));
        LongerPrefixWithin(o, i);
      }
    }
  }

  // ------------------------------------------------------------------ network specs

  datatype Iface = Iface(name: string, kind: string, bridgeMember: bool)

  datatype Spec = Spec(
    name: string,
    driver: string,
    parent: Option<string>,
    subnet: Option<string>,
    gateway: Option<string>,
    ipRange: Option<string>,
    vlan: Option<nat>,
    hostShim: bool,
    shimIp: Option<string>)

  datatype SpecError =
    | BadName | BadDriver | ShimDriver | ShimSubnet | ShimMissing | ShimOutside | ShimIsGateway
    | BadVlan | NoParentIface | BridgedParent | InfinibandParent | ParentOnBridge | ParentRequired
    | BadSubnet | GatewayOutside | RangeOutside | SubnetRequired

  predicate NameChar(c: char) {
    'a' <= c <= 'z' || 'A' <= c <= 'Z' || IsDigit(c) || c == '_' || c == '-' || c == '.'
  }

  predicate ValidName(name: string) {
    0 < |name| <= 64 && forall i | 0 <= i < |name| :: NameChar(name[i])
  }

  // The address part of the shim's CIDR text.
  function ShimAddress(shim: string): string {
    Split(shim, '/')[0]
  }

  function FindIface(ifaces: seq<Iface>, name: string): Option<Iface> {
    if ifaces == [] then None
    else if ifaces[0].name == name then Some(ifaces[0])
    else FindIface(ifaces[1..], name)
  }

  function CheckShim(x: Syntax, spec: Spec): Option<SpecError> {
    if !spec.hostShim then None
    else if spec.driver != "macvlan" then Some(ShimDriver)
    else if spec.subnet.None? then Some(ShimSubnet)
    else if spec.shimIp.None? || spec.shimIp.value == "" then Some(ShimMissing)
    else
      var shim := ShimAddress(spec.shimIp.value);
      if CidrContainsIp(x, spec.subnet.value, shim) != Some(true) then Some(ShimOutside)
      else if spec.gateway == Some(shim) then Some(ShimIsGateway)
      else None
  }

  function CheckParent(spec: Spec, ifaces: seq<Iface>): Option<SpecError> {
    var needs := spec.driver == "macvlan" || spec.driver == "ipvlan";
    if spec.parent.None? then if needs then Some(ParentRequired) else None
    else if !needs then Some(ParentOnBridge)
    else if spec.vlan.Some? && !(1 <= spec.vlan.value <= 4094) then Some(BadVlan)
    else match FindIface(ifaces, spec.parent.value)
      case None => Some(NoParentIface)
      case Some(i) =>
        if i.bridgeMember then Some(BridgedParent)
        else if i.kind == "infiniband" then Some(InfinibandParent)
        else None
  }

  function CheckAddresses(x: Syntax, spec: Spec): Option<SpecError> {
    match spec.subnet
    case None => if spec.gateway.Some? || spec.ipRange.Some? then Some(SubnetRequired) else None
    case Some(subnet) =>
      if ParseCidr(x, subnet).None? then Some(BadSubnet)
      else if spec.gateway.Some? && CidrContainsIp(x, subnet, spec.gateway.value) != Some(true) then Some(GatewayOutside)
      else if spec.ipRange.Some? && CidrContainsNet(x, subnet, spec.ipRange.value) != Some(true) then Some(RangeOutside)
      else None
  }

  function ValidateSpec(x: Syntax, spec: Spec, ifaces: seq<Iface>): Option<SpecError> {
    if !ValidName(spec.name) then Some(BadName)
    else if spec.driver != "bridge" && spec.driver != "macvlan" && spec.driver != "ipvlan" then Some(BadDriver)
    else
      var shim := CheckShim(x, spec);
      if shim.Some? then shim
      else
        var parent := CheckParent(spec, ifaces);
        if parent.Some? then parent else CheckAddresses(x, spec)
  }

  /** Every accepted spec: the gateway, the shim and the whole ip_range lie in the subnet. */
  lemma AcceptedSpecIsContained(x: Syntax, spec: Spec, ifaces: seq<Iface>)
    requires Lawful(x) && ValidateSpec(x, spec, ifaces).None?
    ensures spec.gateway.Some? || spec.ipRange.Some? || spec.hostShim ==>
              spec.subnet.Some? && ParseCidr(x, spec.subnet.value).Some?
    ensures spec.gateway.Some? ==>
              && x.parse(Trim(spec.gateway.value)).Some?
              && Member(ParseCidr(x, spec.subnet.value).value, x.parse(Trim(spec.gateway.value)).value)
    ensures spec.ipRange.Some? ==>
              && ParseCidr(x, spec.ipRange.value).Some?
              && Within(ParseCidr(x, spec.ipRange.value).value, ParseCidr(x, spec.subnet.value).value)
    ensures spec.hostShim ==>
              && spec.shimIp.Some? && x.parse(Trim(ShimAddress(spec.shimIp.value))).Some?
              && Member(ParseCidr(x, spec.subnet.value).value, x.parse(Trim(ShimAddress(spec.shimIp.value))).value)
  {
    if spec.subnet.Some? {
      if spec.gateway.Some? {
        ContainsIpIsMembership(x, spec.subnet.value, spec.gateway.value);
      }
      if spec.ipRange.Some? {
        ContainsNetIsSubset(x, spec.subnet.value, spec.ipRange.value);
      }
      if spec.hostShim {
        ContainsIpIsMembership(x, spec.subnet.value, ShimAddress(spec.shimIp.value));
      }
    }
  }

  // The text is how the address prints.
  predicate Canonical(x: Syntax, text: string) {
    var ip := x.parse(Trim(text));
    ip.Some? && text == x.print_(ip.value)
  }

  function GatewayAddress(x: Syntax, spec: Spec): Option<Ip> {
    if spec.gateway.None? then None else x.parse(Trim(spec.gateway.value))
  }

  function ShimIp(x: Syntax, spec: Spec): Option<Ip> {
    if spec.shimIp.None? then None else x.parse(Trim(ShimAddress(spec.shimIp.value)))
  }

  /** Shim and gateway are compared as text.  For a spec whose shim is otherwise in order, and
      whose two addresses are written canonically, the refusal comes exactly when the addresses
      are the same. */
  lemma CanonicalShimRefusedIff(x: Syntax, spec: Spec, ifaces: seq<Iface>)
    requires ValidName(spec.name) && spec.hostShim && spec.driver == "macvlan" && spec.subnet.Some?
    requires spec.shimIp.Some? && spec.shimIp.value != ""
    requires CidrContainsIp(x, spec.subnet.value, ShimAddress(spec.shimIp.value)) == Some(true)
    requires spec.gateway.Some? && Canonical(x, spec.gateway.value) && Canonical(x, ShimAddress(spec.shimIp.value))
    ensures ValidateSpec(x, spec, ifaces) == Some(ShimIsGateway) <==> GatewayAddress(x, spec) == ShimIp(x, spec)
  {
    NoOtherCheckSaysGateway(x, spec, ifaces);
  }

  lemma NoOtherCheckSaysGateway(x: Syntax, spec: Spec, ifaces: seq<Iface>)
    ensures CheckParent(spec, ifaces) != Some(ShimIsGateway) && CheckAddresses(x, spec) != Some(ShimIsGateway)
  {
  }

  lemma {:induction false} TrimStartPadded(s: string)
    ensures TrimEnd(TrimStart(s + " ")) == TrimEnd(TrimStart(s))
  {
    if s == "" {
      assert s + " " == " ";
      assert TrimStart(" ") == TrimStart(" "[1..]);
    } else if IsSpace(s[0]) {
      assert (s + " ")[1..] == s[1..] + " ";
      TrimStartPadded(s[1..]);
    } else {
      assert TrimStart(s + " ") == s + " ";
      assert (s + " ")[..|s + " "| - 1] == s;
    }
  }

  // The spec with its gateway set to the shim's address and a space.
  function Respelled(spec: Spec): Spec
    requires spec.shimIp.Some?
  {
    spec.(gateway := Some(ShimAddress(spec.shimIp.value) + " "))
  }

  /** Otherwise they can be the same address: every accepted spec with a shim is still accepted
      when its gateway becomes the shim's own address followed by a space. */
  lemma RespelledGatewayIsAccepted(x: Syntax, spec: Spec, ifaces: seq<Iface>)
    requires spec.hostShim && ValidateSpec(x, spec, ifaces).None?
    ensures ValidateSpec(x, Respelled(spec), ifaces).None?
    ensures GatewayAddress(x, Respelled(spec)).Some? && GatewayAddress(x, Respelled(spec)) == ShimIp(x, Respelled(spec))
  {
    var shim := ShimAddress(spec.shimIp.value);
    TrimStartPadded(shim);
    assert shim + " " != shim;
    assert CidrContainsIp(x, spec.subnet.value, shim + " ") == CidrContainsIp(x, spec.subnet.value, shim);
  }
}
