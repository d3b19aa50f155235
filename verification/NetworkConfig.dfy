// The network section of the configuration and its normalising validation.
module NetworkConfig {
  import opened Text

  const DEFAULT_DNS_IP := "10.8.0.1"
  const DEFAULT_PORT_FORWARD_IP := "10.8.0.2"
  const DEFAULT_RANGES: seq<string> := ["10.8.0.0/24", "10.9.0.0/24"]
  const DEFAULT_PORT_FORWARD_INTERFACE := "kube-proxy0"
  const DEFAULT_VIRTUAL_INTERFACE := "kube-dns0"

  /** The part reads as a number from 0 to `max`. */
  predicate NumberUpTo(part: string, max: int) {
    var n := Atoi(part);
    n.Some? && 0 <= n.value <= max
  }

  predicate IsValidIP(ip: string) {
    var parts := Split(ip, '.');
    |parts| == 4 && forall p :: p in parts ==> NumberUpTo(p, 255)
  }

  predicate IsValidCIDR(cidr: string) {
    var parts := Split(cidr, '/');
    |parts| == 2 && IsValidIP(parts[0]) && NumberUpTo(parts[1], 32)
  }

  datatype Network = Network(
    dnsBindIP: string,
    portForwardBindIP: string,
    portForwardInterfaceName: string,
    portForwardInterfaceIP: string,
    useVirtualInterface: bool,
    virtualInterfaceName: string,
    virtualInterfaceIP: string,
    ranges: seq<string>)

  /** The valid ranges, in their order. */
  function ValidRanges(ranges: seq<string>): seq<string> {
    if ranges == [] then []
    else
      var last, rest := ranges[|ranges| - 1], ValidRanges(ranges[..|ranges| - 1]);
      if IsValidCIDR(last) then rest + [last] else rest
  }

  /** Filtering drops exactly the invalid ranges, and nothing when there are none. */
  lemma {:induction false} ValidRangesExact(ranges: seq<string>)
    ensures forall c :: c in ValidRanges(ranges) <==> c in ranges && IsValidCIDR(c)
    ensures |ValidRanges(ranges)| <= |ranges|
    ensures ValidRanges(ranges) == ranges <==> forall c :: c in ranges ==> IsValidCIDR(c)
  {
    if ranges != [] {
      var front, last := ranges[..|ranges| - 1], ranges[|ranges| - 1];
      ValidRangesExact(front);
      assert ranges == front + [last];
      if IsValidCIDR(last) {
        assert ValidRanges(ranges)[..|ValidRanges(front)|] == ValidRanges(front);
      }
    }
  }

  function OrDefault(ip: string, default: string): string {
    if IsValidIP(ip) then ip else default
  }

  /** What every validated configuration satisfies. */
  predicate Valid(n: Network) {
    && IsValidIP(n.dnsBindIP)
    && IsValidIP(n.portForwardBindIP)
    && n.portForwardInterfaceName != ""
    && IsValidIP(n.portForwardInterfaceIP)
    && (n.useVirtualInterface ==> n.virtualInterfaceName != "" && IsValidIP(n.virtualInterfaceIP))
    && n.ranges != [] && (forall c :: c in n.ranges ==> IsValidCIDR(c))
  }

  /** The configuration validation arrives at, field by field. */
  function Normal(n: Network): Network {
    var dns := OrDefault(n.dnsBindIP, DEFAULT_DNS_IP);
    var bind := OrDefault(n.portForwardBindIP, DEFAULT_PORT_FORWARD_IP);
    var ranges := ValidRanges(n.ranges);
    Network(
      dns,
      bind,
      if n.portForwardInterfaceName == "" then DEFAULT_PORT_FORWARD_INTERFACE else n.portForwardInterfaceName,
      OrDefault(n.portForwardInterfaceIP, bind),
      n.useVirtualInterface,
      if n.useVirtualInterface && n.virtualInterfaceName == "" then DEFAULT_VIRTUAL_INTERFACE
      else n.virtualInterfaceName,
      if n.useVirtualInterface then OrDefault(n.virtualInterfaceIP, dns) else n.virtualInterfaceIP,
      if ranges == [] then DEFAULT_RANGES else ranges)
  }

  lemma EmptyIsNoIP()
    ensures !IsValidIP("")
  {
  }

  method ValidateDNSConfig(network: Network) returns (n: Network)
    ensures n == network.(dnsBindIP := OrDefault(network.dnsBindIP, DEFAULT_DNS_IP))
  {
    EmptyIsNoIP();
    n := network;
    if n.dnsBindIP == "" {
      n := n.(dnsBindIP := DEFAULT_DNS_IP);
    } else if !IsValidIP(n.dnsBindIP) {
      n := n.(dnsBindIP := DEFAULT_DNS_IP);
    }
  }

  method ValidatePortForwardConfig(network: Network) returns (n: Network)
    ensures n.portForwardBindIP == OrDefault(network.portForwardBindIP, DEFAULT_PORT_FORWARD_IP)
    ensures n.portForwardInterfaceIP == OrDefault(network.portForwardInterfaceIP, n.portForwardBindIP)
    ensures n.portForwardInterfaceName == if network.portForwardInterfaceName == "" then DEFAULT_PORT_FORWARD_INTERFACE
                                          else network.portForwardInterfaceName
    ensures n == network.(portForwardBindIP := n.portForwardBindIP,
                          portForwardInterfaceIP := n.portForwardInterfaceIP,
                          portForwardInterfaceName := n.portForwardInterfaceName)
  {
    EmptyIsNoIP();
    n := network;
    if n.portForwardBindIP == "" {
      n := n.(portForwardBindIP := DEFAULT_PORT_FORWARD_IP);
    } else if !IsValidIP(n.portForwardBindIP) {
      n := n.(portForwardBindIP := DEFAULT_PORT_FORWARD_IP);
    }
    if n.portForwardInterfaceName == "" {
      n := n.(portForwardInterfaceName := DEFAULT_PORT_FORWARD_INTERFACE);
    }
    if n.portForwardInterfaceIP == "" {
      n := n.(portForwardInterfaceIP := n.portForwardBindIP);
    } else if !IsValidIP(n.portForwardInterfaceIP) {
      n := n.(portForwardInterfaceIP := n.portForwardBindIP);
    }
  }

  method ValidateVirtualInterfaceConfig(network: Network) returns (n: Network)
    ensures network.useVirtualInterface ==>
              && n.virtualInterfaceIP == OrDefault(network.virtualInterfaceIP, network.dnsBindIP)
              && n.virtualInterfaceName == if network.virtualInterfaceName == "" then DEFAULT_VIRTUAL_INTERFACE
                                           else network.virtualInterfaceName
    ensures !network.useVirtualInterface ==> n == network
    ensures n == network.(virtualInterfaceIP := n.virtualInterfaceIP,
                          virtualInterfaceName := n.virtualInterfaceName)
  {
    EmptyIsNoIP();
    n := network;
    if n.useVirtualInterface && n.virtualInterfaceName == "" {
      n := n.(virtualInterfaceName := DEFAULT_VIRTUAL_INTERFACE);
    }
    if n.useVirtualInterface && n.virtualInterfaceIP == "" {
      n := n.(virtualInterfaceIP := n.dnsBindIP);
    } else if n.useVirtualInterface && !IsValidIP(n.virtualInterfaceIP) {
      n := n.(virtualInterfaceIP := n.dnsBindIP);
    }
  }

  method KeepValidRanges(ranges: seq<string>) returns (valid: seq<string>)
    ensures valid == ValidRanges(ranges)
  {
    valid := [];
    for i := 0 to |ranges|
      invariant valid == ValidRanges(ranges[..i])
    {
      var cidr := ranges[i];
      assert ranges[..i + 1][..i] == ranges[..i];
      var ok := IsValidCIDR(cidr);
      if ok {
        valid := valid + [cidr];
      }
    }
    assert ranges[..|ranges|] == ranges;
  }

  /** Only valid ranges are kept, in their order; the defaults stand in for none. */
  method ValidateIPRanges(network: Network) returns (n: Network)
    ensures var kept := ValidRanges(network.ranges);
            n == network.(ranges := if kept == [] then DEFAULT_RANGES else kept)
  {
    if |network.ranges| == 0 {
      return network.(ranges := DEFAULT_RANGES);
    }
    var valid := KeepValidRanges(network.ranges);
    n := network.(ranges := if |valid| == 0 then DEFAULT_RANGES else valid);
  }

  method ValidateNetworkConfig(network: Network) returns (n: Network)
    ensures n == Normal(network)
  {
    n := ValidateDNSConfig(network);
    n := ValidatePortForwardConfig(n);
    n := ValidateVirtualInterfaceConfig(n);
    n := ValidateIPRanges(n);
  }

  // What the checks accept.

  function Dots(a: string, b: string, c: string, d: string): string {
    a + "." + (b + "." + (c + "." + d))
  }

  /** An address is valid exactly when its four parts read as octets. */
  lemma DotsIsValidIff(a: string, b: string, c: string, d: string)
    requires '.' !in a && '.' !in b && '.' !in c && '.' !in d
    ensures IsValidIP(Dots(a, b, c, d)) <==>
            NumberUpTo(a, 255) && NumberUpTo(b, 255) && NumberUpTo(c, 255) && NumberUpTo(d, 255)
  {
    SplitAtFirst(a, '.', b + "." + (c + "." + d));
    SplitAtFirst(b, '.', c + "." + d);
    SplitAtFirst(c, '.', d);
    SplitNoSeparator(d, '.');
    var parts := Split(Dots(a, b, c, d), '.');
    assert parts == [a, b, c, d];
    assert parts[0] in parts && parts[1] in parts && parts[2] in parts && parts[3] in parts;
  }

  /** Four printed numbers are a valid address exactly when each is an octet. */
  lemma PrintedIsValidIff(a: int, b: int, c: int, d: int)
    ensures IsValidIP(Dots(Dec(a), Dec(b), Dec(c), Dec(d))) <==>
            0 <= a <= 255 && 0 <= b <= 255 && 0 <= c <= 255 && 0 <= d <= 255
  {
    DotsIsValidIff(Dec(a), Dec(b), Dec(c), Dec(d));
    AtoiDec(a);
    AtoiDec(b);
    AtoiDec(c);
    AtoiDec(d);
  }

  /** An address with a printed prefix length is valid exactly from 0 to 32 bits. */
  lemma PrintedCIDRIsValidIff(ip: string, bits: int)
    requires IsValidIP(ip) && '/' !in ip
    ensures IsValidCIDR(ip + "/" + Dec(bits)) <==> 0 <= bits <= 32
  {
    AtoiDec(bits);
    SplitAtFirst(ip, '/', Dec(bits));
    SplitNoSeparator(Dec(bits), '/');
    assert Split(ip + "/" + Dec(bits), '/') == [ip, Dec(bits)];
  }

  lemma SmallTexts()
    ensures Dec(0) == "0" && Dec(1) == "1" && Dec(2) == "2" && Dec(8) == "8" && Dec(9) == "9"
    ensures Dec(10) == "10" && Dec(24) == "24"
  {
    assert DecNat(10) == DecNat(1) + [Digit(0)];
    assert DecNat(24) == DecNat(2) + [Digit(4)];
  }

  /** The check is looser than dotted decimal: a sign or a leading zero passes
      wherever the bare number does. */
  lemma LooseNumbersPass(n: nat)
    requires n <= 255
    ensures NumberUpTo("+" + Dec(n), 255) && NumberUpTo("0" + Dec(n), 255)
  {
    AtoiDec(n);
    assert ("+" + Dec(n))[1..] == Dec(n);
    assert IsDigit(Dec(n)[0]) by {
      assert Dec(n)[0] in Dec(n);
    }
    LeadingZero(Dec(n));
    assert forall ch :: ch in "0" + Dec(n) ==> ch == '0' || ch in Dec(n);
  }

  lemma {:induction false} LeadingZero(s: string)
    requires AllDigits(s)
    ensures AllDigits("0" + s) && DigitsValue("0" + s) == DigitsValue(s)
  {
    var t := "0" + s;
    if s == "" {
      assert t[..0] == "";
    } else {
      assert t[..|t| - 1] == "0" + s[..|s| - 1];
      assert AllDigits(s[..|s| - 1]);
      LeadingZero(s[..|s| - 1]);
    }
  }

  lemma DefaultAddressesAreValid()
    ensures IsValidIP(DEFAULT_DNS_IP) && IsValidIP(DEFAULT_PORT_FORWARD_IP)
  {
    SmallTexts();
    PrintedIsValidIff(10, 8, 0, 1);
    PrintedIsValidIff(10, 8, 0, 2);
    assert Dots("10", "8", "0", "1") == "10.8.0.1";
    assert Dots("10", "8", "0", "2") == "10.8.0.2";
  }

  lemma DefaultRangeIsValid(second: nat, range: string)
    requires second <= 255
    requires range == Dots("10", Dec(second), "0", "0") + "/24"
    ensures IsValidCIDR(range)
  {
    SmallTexts();
    var ip := Dots("10", Dec(second), "0", "0");
    PrintedIsValidIff(10, second, 0, 0);
    assert '/' !in Dec(second);
    PrintedCIDRIsValidIff(ip, 24);
    assert range == ip + "/" + "24";
  }

  lemma DefaultRangesAreValid()
    ensures forall c :: c in DEFAULT_RANGES ==> IsValidCIDR(c)
  {
    SmallTexts();
    assert "10.8.0.0/24" == Dots("10", "8", "0", "0") + "/24";
    assert "10.9.0.0/24" == Dots("10", "9", "0", "0") + "/24";
    DefaultRangeIsValid(8, "10.8.0.0/24");
    DefaultRangeIsValid(9, "10.9.0.0/24");
  }

  /** What validation repairs a bad address with: the default for the two bind addresses,
      and one of the two, validated, for the interface addresses. */
  lemma RepairsAddresses(n: Network)
    ensures Normal(n).dnsBindIP == n.dnsBindIP || (!IsValidIP(n.dnsBindIP) && Normal(n).dnsBindIP == "10.8.0.1")
    ensures || Normal(n).portForwardBindIP == n.portForwardBindIP
            || (!IsValidIP(n.portForwardBindIP) && Normal(n).portForwardBindIP == "10.8.0.2")
    ensures Normal(n).portForwardInterfaceIP
            == if IsValidIP(n.portForwardInterfaceIP) then n.portForwardInterfaceIP else Normal(n).portForwardBindIP
    ensures Normal(n).virtualInterfaceIP
            == if !n.useVirtualInterface || IsValidIP(n.virtualInterfaceIP) then n.virtualInterfaceIP
               else Normal(n).dnsBindIP
  {
  }

  /** Validation always arrives at a valid configuration. */
  lemma NormalIsValid(n: Network)
    ensures Valid(Normal(n))
  {
    DefaultAddressesAreValid();
    DefaultRangesAreValid();
    ValidRangesExact(n.ranges);
  }

  /** It changes nothing exactly when the configuration is valid already, so
      validating twice is validating once. */
  lemma NormalFixesValidIff(n: Network)
    ensures Normal(n) == n <==> Valid(n)
    ensures Normal(Normal(n)) == Normal(n)
  {
    NormalIsValid(n);
    ValidRangesExact(n.ranges);
    ValidRangesExact(Normal(n).ranges);
  }
}
