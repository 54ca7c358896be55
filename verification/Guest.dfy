/**
 The network identity a guest is told: the settings derived for it, and the
 four places they are written to (environment, cloud-init, kernel command line
 and the hypervisor's network device).
 */
module Guest {
  import opened Outcomes
  import opened Text
  import opened Ipv4
  import opened Subnet
  import opened Pool

  /** The bridge block of a task's network interface. */
  datatype Bridge = Bridge(name: string, ports: seq<string>, staticIP: string, gateway: string, netmask: string,
      dns: seq<string>)

  datatype DomainConfig = DomainConfig(
    name: string, hostName: string, bridge: Option<Bridge>, mounts: seq<string>,
    kernel: string, initramfs: string, cmdline: string, vfioDevices: seq<string>)

  /** The driver-wide settings a guest's configuration draws on. */
  datatype Defaults = Defaults(net: Net, gatewayText: string, kernel: string, initramfs: string)

  datatype NetworkSettings = NetworkSettings(address: string, gateway: string, cidrBits: nat,
      nameservers: seq<string>, interfaceName: string)

  predicate AllDigits(s: string) {
    s != "" && forall c :: c in s ==> IsDigit(c)
  }

  /** strconv.Atoi, whose overflow error concerns no length in 0..32. */
  function ParseInt(s: string): Option<int> {
    if s != "" && s[0] == '-' && AllDigits(s[1..]) then Some(-Text.Atoi(s[1..]))
    else if s != "" && s[0] == '+' && AllDigits(s[1..]) then Some(Text.Atoi(s[1..]))
    else if AllDigits(s) then Some(Text.Atoi(s))
    else None
  }

  /** The prefix length a task's netmask gives, when it gives one. */
  function NetmaskBits(netmask: string): (bits: Option<nat>)
    ensures bits.Some? ==> bits.value <= 32
  {
    match ParseInt(netmask)
    case Some(n) => if 0 <= n <= 32 then Some(n) else None
    case None => None
  }

  function StaticAddress(cfg: DomainConfig): string {
    if cfg.bridge.Some? then cfg.bridge.value.staticIP else ""
  }

  /** deriveNetworkSettings for a process that was given address ip. */
  function Derive(d: Defaults, cfg: DomainConfig, ip: string): (r: Option<NetworkSettings>)
    ensures r.Some? ==> r.value.cidrBits <= 32
  {
    var subnetBits := if d.net.subnet.Some? then d.net.subnet.value.bits else 24;
    var driverGateway := if d.net.gateway.Some? then Dotted(d.net.gateway.value) else d.gatewayText;
    var address := if StaticAddress(cfg) != "" then StaticAddress(cfg) else ip;
    if address == "" then None
    else if cfg.bridge.None? then
      Some(NetworkSettings(address, driverGateway, subnetBits, ["8.8.8.8", "8.8.4.4"], "eth0"))
    else
      var b := cfg.bridge.value;
      var bits := NetmaskBits(b.netmask);
      Some(NetworkSettings(
        address,
        if b.gateway != "" then b.gateway else driverGateway,
        if bits.Some? then bits.value else subnetBits,
        if b.dns != [] then b.dns else ["8.8.8.8", "8.8.4.4"],
        "eth0"))
  }

  /** Which settings a VM gets: the task's where it gives them, the driver's elsewhere. */
  lemma {:induction false} DerivedSettings(d: Defaults, cfg: DomainConfig, ip: string)
    ensures var own := cfg.bridge.Some? && cfg.bridge.value.staticIP != "";
            && (Derive(d, cfg, ip).Some? <==> own || ip != "")
            && (Derive(d, cfg, ip).Some? ==>
                  Derive(d, cfg, ip).value.address == if own then cfg.bridge.value.staticIP else ip)
    ensures Derive(d, cfg, ip).Some? ==>
              var s := Derive(d, cfg, ip).value;
              var b := if cfg.bridge.Some? then cfg.bridge.value else Bridge("", [], "", "", "", []);
              && s.interfaceName == "eth0"
              && s.gateway == (if b.gateway != "" then b.gateway
                               else if d.net.gateway.Some? then Dotted(d.net.gateway.value) else d.gatewayText)
              && s.nameservers == (if b.dns != [] then b.dns else ["8.8.8.8", "8.8.4.4"])
              && s.cidrBits == (if LengthText(b.netmask) then Text.Atoi(Digits(b.netmask))
                                else if d.net.subnet.Some? then d.net.subnet.value.bits else 24)
  {
    hide Text.Atoi, NetmaskBits, LengthText;
    assert !AllDigits("");
    LengthRead("");
    if cfg.bridge.Some? {
      LengthRead(cfg.bridge.value.netmask);
    }
  }

  lemma {:induction false} AtoiIsNatural(s: string)
    requires forall c :: c in s ==> IsDigit(c)
    ensures Text.Atoi(s) >= 0
  {
    if s != "" {
      AtoiIsNatural(s[..|s| - 1]);
      assert s[|s| - 1] in s;
    }
  }

  /** A netmask gives a length exactly when its text is one. */
  lemma {:induction false} LengthRead(s: string)
    ensures NetmaskBits(s) == if LengthText(s) then Some(Text.Atoi(Digits(s))) else None
    ensures !LengthText("")
  {
    hide Text.Atoi;
    assert !AllDigits("");
    assert s != "" ==> s[0] in s;
    if AllDigits(Digits(s)) {
      AtoiIsNatural(Digits(s));
    }
  }

  /** A numeral without its sign. */
  function Digits(s: string): string {
    if s != "" && (s[0] == '+' || s[0] == '-') then s[1..] else s
  }

  /** The text is a decimal numeral for a length of 0 to 32, zero perhaps written with a minus. */
  predicate LengthText(s: string) {
    && AllDigits(Digits(s))
    && (if s[0] == '-' then Text.Atoi(s[1..]) == 0 else 0 <= Text.Atoi(Digits(s)) <= 32)
  }

  /** A length written as a plain numeral is that length; an empty field is none. */
  lemma {:induction false} LengthOfNumeral(n: nat)
    ensures LengthText(Itoa(n)) <==> n <= 32
    ensures Text.Atoi(Digits(Itoa(n))) == n && !LengthText("")
  {
    AtoiItoa(n);
    assert Itoa(n)[0] in Itoa(n);
  }

  /** netmaskDotted, with its fallback for a length that has no mask. */
  function NetmaskDotted(s: NetworkSettings): string {
    var mask := PrefixBitsToNetmask(s.cidrBits);
    if mask == "" then "255.255.255.0" else mask
  }

  /** The environment CreateDomain writes into the guest. */
  function GuestEnv(env: map<string, string>, settings: Option<NetworkSettings>): map<string, string> {
    match settings
    case None => env
    case Some(s) =>
      var addressed := env["VM_IP" := s.address]["VM_CIDR" := Itoa(s.cidrBits)];
      var routed := if s.gateway != "" then addressed["VM_GATEWAY" := s.gateway] else addressed - {"VM_GATEWAY"};
      if s.nameservers != [] then routed["VM_DNS" := Join(s.nameservers, " ")] else routed - {"VM_DNS"}
  }

  /** The variables the guest is told, and that the task's other ones are left alone. */
  lemma {:induction false} EnvTold(env: map<string, string>, s: NetworkSettings)
    ensures var told := GuestEnv(env, Some(s));
            && "VM_IP" in told && told["VM_IP"] == s.address
            && "VM_CIDR" in told && told["VM_CIDR"] == Itoa(s.cidrBits)
            && ("VM_GATEWAY" in told <==> s.gateway != "")
            && (s.gateway != "" ==> told["VM_GATEWAY"] == s.gateway)
            && ("VM_DNS" in told <==> s.nameservers != [])
            && (s.nameservers != [] ==> told["VM_DNS"] == Join(s.nameservers, " "))
    ensures forall k :: k !in ["VM_IP", "VM_CIDR", "VM_GATEWAY", "VM_DNS"] ==>
              (k in GuestEnv(env, Some(s)) <==> k in env)
              && (k in env ==> GuestEnv(env, Some(s))[k] == env[k])
    ensures GuestEnv(env, None) == env
  {
    hide Itoa, Join;
  }

  /** The network block createCloudInit passes to cloud-init. */
  datatype CloudInitNetwork = CloudInitNetwork(address: string, gateway: string, netmask: string,
      interfaceName: string, nameservers: seq<string>)

  function CloudInit(settings: Option<NetworkSettings>): Option<CloudInitNetwork> {
    match settings
    case None => None
    case Some(s) => Some(CloudInitNetwork(s.address, s.gateway, Itoa(s.cidrBits), s.interfaceName, s.nameservers))
  }

  /** Cloud-init is given the settings, field by field, with the mask as a bit count. */
  lemma {:induction false} CloudInitTold(s: NetworkSettings)
    ensures CloudInit(None) == None && CloudInit(Some(s)).Some?
    ensures var n := CloudInit(Some(s)).value;
            && n.address == s.address && n.gateway == s.gateway && n.netmask == Itoa(s.cidrBits)
            && n.interfaceName == s.interfaceName && n.nameservers == s.nameservers
  {
  }

  // ----- Kernel command line -----

  predicate NamesAddress(cmdline: string) {
    HasSubstring(cmdline, " ip=") || HasPrefix(TrimSpace(cmdline), "ip=")
  }

  /** At i an "ip=" stands behind a blank, or behind nothing but white space. */
  predicate AddressAt(cmdline: string, i: nat)
    requires i + 3 <= |cmdline|
  {
    cmdline[i..i + 3] == "ip=" && ((i > 0 && cmdline[i - 1] == ' ') || forall j :: 0 <= j < i ==> IsSpace(cmdline[j]))
  }

  /** Which command lines count as naming an address. */
  lemma {:induction false} NamesAddressIff(cmdline: string)
    ensures NamesAddress(cmdline) <==> exists i :: 0 <= i <= |cmdline| - 3 && AddressAt(cmdline, i)
  {
    if NamesAddress(cmdline) {
      NamedSomewhere(cmdline);
    }
    hide NamesAddress;
    forall i | 0 <= i <= |cmdline| - 3 && AddressAt(cmdline, i) ensures NamesAddress(cmdline) {
      SomewhereNamed(cmdline, i);
    }
  }

  lemma {:induction false} NamedSomewhere(cmdline: string)
    requires NamesAddress(cmdline)
    ensures exists i :: 0 <= i <= |cmdline| - 3 && AddressAt(cmdline, i)
  {
    hide TrimSpace, HasSubstring, IsSpace;
    if HasSubstring(cmdline, " ip=") {
      SubstringIff(cmdline, " ip=");
      var i :| 0 <= i <= |cmdline| && OccursAt(cmdline, " ip=", i);
      assert cmdline[i + 1..i + 4] == cmdline[i..i + 4][1..] == "ip=";
      assert cmdline[i] == cmdline[i..i + 4][0];
      assert AddressAt(cmdline, i + 1);
    } else {
      var before, after := TrimSpaceShape(cmdline);
      var n := |before|;
      assert cmdline[n..n + 3] == TrimSpace(cmdline)[..3] == "ip=";
      assert AddressAt(cmdline, n);
    }
  }

  lemma {:induction false} SomewhereNamed(cmdline: string, i: nat)
    requires i + 3 <= |cmdline| && AddressAt(cmdline, i)
    ensures NamesAddress(cmdline)
  {
    hide TrimSpace, HasSubstring;
    if i > 0 && cmdline[i - 1] == ' ' {
      hide IsSpace;
      assert cmdline[i - 1..i + 3] == [' '] + cmdline[i..i + 3] == " ip=";
      assert OccursAt(cmdline, " ip=", i - 1);
      SubstringIff(cmdline, " ip=");
    } else {
      assert !IsSpace('i') && !IsSpace('p') && !IsSpace('=');
      hide IsSpace;
      var before, after := TrimSpaceShape(cmdline);
      FirstWord(cmdline, i, before, TrimSpace(cmdline), after);
    }
  }

  lemma {:induction false} FirstWord(s: string, i: nat, before: string, t: string, after: string)
    requires i + 3 <= |s| && s[i..i + 3] == "ip=" && forall j :: 0 <= j < i ==> IsSpace(s[j])
    requires s == before + t + after && (forall c :: c in before || c in after ==> IsSpace(c))
    requires t != "" ==> !IsSpace(t[0])
    requires !IsSpace('i') && !IsSpace('p') && !IsSpace('=')
    ensures HasPrefix(t, "ip=")
  {
    hide IsSpace;
    var n := |before|;
    assert s[i] == s[i..i + 3][0] && s[i + 1] == s[i..i + 3][1] && s[i + 2] == s[i..i + 3][2];
    forall j | 0 <= j < n ensures IsSpace(s[j]) {
      assert s[j] == before[j] && before[j] in before;
    }
    forall j | n + |t| <= j < |s| ensures IsSpace(s[j]) {
      assert s[j] == after[j - n - |t|] && s[j] in after;
    }
    assert n <= i < i + 2 < n + |t|;
    assert s[n] == t[0];
    assert t[..3] == s[n..n + 3];
  }

  /** The kernel's ip= parameter, with no server address. */
  function KernelToken(address: string, gateway: string, mask: string, hostname: string,
      interfaceName: string): string {
    "ip=" + address + "::" + gateway + ":" + mask + ":" + hostname + ":" + interfaceName + ":none"
  }

  function IpToken(s: NetworkSettings, hostname: string): string {
    KernelToken(s.address, OrElse(s.gateway, "0.0.0.0"), NetmaskDotted(s), hostname, s.interfaceName)
  }

  /** The command line with an ip= token, unless it names an address already. */
  function AddIpToken(cmdline: string, s: NetworkSettings, hostname: string): string {
    if NamesAddress(cmdline) then cmdline
    else
      var trimmed := TrimSpace(cmdline);
      if trimmed == "" then IpToken(s, hostname) else trimmed + " " + IpToken(s, hostname)
  }

  lemma {:induction false} TokenShape(address: string, gateway: string, mask: string, hostname: string, iface: string)
    ensures "ip=" <= KernelToken(address, gateway, mask, hostname, iface)
    ensures ':' in KernelToken(address, gateway, mask, hostname, iface)
  {
    var rest := "::" + gateway + ":" + mask + ":" + hostname + ":" + iface + ":none";
    assert KernelToken(address, gateway, mask, hostname, iface) == "ip=" + address + rest;
    assert rest[0] == ':' && ("ip=" + address + rest)[3 + |address|] == ':';
  }

  /** The fields of the ip= parameter, as the kernel reads them: split at the colons. */
  datatype KernelAddress = KernelAddress(client: string, server: string, gateway: string, netmask: string,
      hostname: string, device: string, autoconf: string)

  function ReadKernelAddress(token: string): Option<KernelAddress> {
    if !HasPrefix(token, "ip=") then None
    else
      var fields := Split(token[3..], ':');
      if |fields| != 7 then None
      else Some(KernelAddress(fields[0], fields[1], fields[2], fields[3], fields[4], fields[5], fields[6]))
  }

  /** The kernel reads from the token what was put into it, when no part holds a colon. */
  lemma {:induction false} TokenReads(address: string, gateway: string, mask: string, hostname: string, iface: string)
    requires ':' !in address && ':' !in gateway && ':' !in mask && ':' !in hostname && ':' !in iface
    ensures ReadKernelAddress(KernelToken(address, gateway, mask, hostname, iface))
         == Some(KernelAddress(address, "", gateway, mask, hostname, iface, "none"))
  {
    TokenText(address, gateway, mask, hostname, iface);
    hide KernelToken, Split, Join;
    var fields := [address, "", gateway, mask, hostname, iface, "none"];
    assert ":" == [':'];
    SplitJoin(fields, ':');
    var token := KernelToken(address, gateway, mask, hostname, iface);
    assert token[3..] == Join(fields, ":");
  }

  /** The token's text: the seven fields in the kernel's order. */
  lemma {:induction false} TokenText(address: string, gateway: string, mask: string, hostname: string, iface: string)
    ensures KernelToken(address, gateway, mask, hostname, iface)
         == "ip=" + Join([address, "", gateway, mask, hostname, iface, "none"], ":")
  {
    var last := [hostname, iface, "none"];
    var tail := [gateway, mask] + last;
    hide Join;
    TailText(gateway, mask, hostname, iface);
    JoinOneMore("", tail);
    JoinOneMore(address, [""] + tail);
    assert [address] + ([""] + tail) == [address, "", gateway, mask, hostname, iface, "none"];
    assert "::" == ":" + ":";
    assert "ip=" + (address + ":" + ("" + ":" + Join(tail, ":"))) == "ip=" + address + "::" + Join(tail, ":");
    assert KernelToken(address, gateway, mask, hostname, iface)
        == "ip=" + address + "::" + (gateway + ":" + mask + ":" + hostname + ":" + iface + ":none");
  }

  lemma {:induction false} TailText(gateway: string, mask: string, hostname: string, iface: string)
    ensures Join([gateway, mask] + [hostname, iface, "none"], ":")
         == gateway + ":" + mask + ":" + hostname + ":" + iface + ":none"
  {
    var last := [hostname, iface, "none"];
    hide Join;
    JoinThree(hostname, iface, "none");
    JoinOneMore(mask, last);
    JoinOneMore(gateway, [mask] + last);
    assert [gateway, mask] + last == [gateway] + ([mask] + last);
    assert ":none" == ":" + "none";
    assert gateway + ":" + (mask + ":" + Join(last, ":")) == gateway + ":" + mask + ":" + Join(last, ":");
  }

  lemma {:induction false} JoinOneMore(first: string, rest: seq<string>)
    requires rest != []
    ensures Join([first] + rest, ":") == first + ":" + Join(rest, ":")
  {
    assert ([first] + rest)[1..] == rest;
  }

  lemma {:induction false} JoinThree(a: string, b: string, c: string)
    ensures Join([a, b, c], ":") == a + ":" + b + ":" + c
  {
    JoinOneMore(b, [c]);
    JoinOneMore(a, [b, c]);
    assert [b] + [c] == [b, c] && [a] + [b, c] == [a, b, c];
  }

  lemma {:induction false} TokenNamesAddress(before: string, s: NetworkSettings, hostname: string)
    ensures NamesAddress(IpToken(s, hostname))
    ensures NamesAddress(before + " " + IpToken(s, hostname))
  {
    hide NamesAddress, KernelToken, NetmaskDotted;
    TokenShape(s.address, OrElse(s.gateway, "0.0.0.0"), NetmaskDotted(s), hostname, s.interfaceName);
    StartNamesAddress(IpToken(s, hostname));
    EndNamesAddress(before, IpToken(s, hostname));
  }

  lemma {:induction false} StartNamesAddress(token: string)
    requires "ip=" <= token
    ensures NamesAddress(token)
  {
    hide TrimLeft, TrimRight, HasSubstring;
    assert token[0] == "ip="[0] == 'i';
    TrimLeftKeeps(token);
    TrimKeepsToken(token);
  }

  lemma {:induction false} EndNamesAddress(before: string, token: string)
    requires "ip=" <= token
    ensures NamesAddress(before + " " + token)
  {
    hide HasSubstring, TrimSpace;
    assert token == "ip=" + token[3..];
    SubstringAt(before, " ip=", token[3..]);
    assert before + " " + token == before + " ip=" + token[3..];
  }

  lemma {:induction false} TrimLeftKeeps(s: string)
    requires s != "" && !IsSpace(s[0])
    ensures TrimLeft(s) == s
  {
  }

  /** Trimming the right end of a text keeps a prefix that ends in a printable character. */
  lemma {:induction false} TrimKeepsToken(s: string)
    requires "ip=" <= s
    ensures "ip=" <= TrimRight(s)
  {
    if IsSpace(s[|s| - 1]) {
      assert s[..3] == "ip=";
      assert s[2] == '=';
      TrimKeepsToken(s[..|s| - 1]);
    }
  }

  /** Adding the token a second time, whatever the settings then, changes nothing, on any command line. */
  lemma {:induction false} AddIpTokenIdempotent(cmdline: string, s: NetworkSettings, h: string, s': NetworkSettings,
      h': string)
    ensures NamesAddress(AddIpToken(cmdline, s, h))
    ensures AddIpToken(AddIpToken(cmdline, s, h), s', h') == AddIpToken(cmdline, s, h)
  {
    TokenNamesAddress(TrimSpace(cmdline), s, h);
  }

  // ----- Hypervisor configuration -----

  /** The payload and network device of the configuration sent to Cloud Hypervisor. */
  datatype VMConfig = VMConfig(kernel: string, initramfs: string, cmdline: string, tap: string, ip: string,
      mask: string)

  function OrElse(text: string, fallback: string): string {
    if text == "" then fallback else text
  }

  /** The command line before an address is added to it. */
  function RequestedLine(cfg: DomainConfig): string {
    OrElse(cfg.cmdline, "console=hvc0 root=/dev/vda1 rw")
  }

  /** buildVMConfig; None when no kernel or initramfs is known. */
  function BuildVMConfig(d: Defaults, cfg: DomainConfig, tap: string, ip: string): Option<VMConfig> {
    var kernel := OrElse(cfg.kernel, d.kernel);
    var initramfs := OrElse(cfg.initramfs, d.initramfs);
    var requested := RequestedLine(cfg);
    var settings := Derive(d, cfg, ip);
    var cmdline := if settings.Some? then AddIpToken(requested, settings.value, OrElse(cfg.hostName, cfg.name))
                   else requested;
    if kernel == "" || initramfs == "" then None
    else
      var mask := if settings.Some? then NetmaskDotted(settings.value)
                  else if ip != "" && d.net.subnet.Some? then MaskStringFromPrefix(d.net.subnet.value)
                  else "";
      Some(VMConfig(kernel, initramfs, cmdline, tap, if settings.Some? then settings.value.address else ip, mask))
  }

  /** The address in a process's reservation is the static one whenever the task names one. */
  predicate Reserved(cfg: DomainConfig, ip: string) {
    ip != "" && (StaticAddress(cfg) != "" ==> ip == StaticAddress(cfg))
  }

  /** The environment and cloud-init name the reserved address, with the bits of one prefix length. */
  lemma {:induction false} SettingsAgree(d: Defaults, cfg: DomainConfig, ip: string, env: map<string, string>)
    requires Reserved(cfg, ip)
    ensures Derive(d, cfg, ip).Some?
    ensures var s := Derive(d, cfg, ip).value;
            var told := GuestEnv(env, Some(s));
            && s.address == ip
            && "VM_IP" in told && told["VM_IP"] == ip
            && "VM_CIDR" in told && told["VM_CIDR"] == Itoa(s.cidrBits)
            && CloudInit(Some(s)).value.address == ip && CloudInit(Some(s)).value.netmask == Itoa(s.cidrBits)
  {
  }

  lemma {:induction false} MaskTextNonEmpty(bits: nat)
    requires bits <= 32
    ensures PrefixBitsToNetmask(bits) == Dotted(Mask(bits)) != ""
  {
    ParseDotted(Mask(bits));
  }

  /** A command line without an address ends in the token; one that names an address is left alone. */
  predicate CarriesToken(cmdline: string, requested: string, token: string) {
    cmdline == if NamesAddress(requested) then requested
               else if TrimSpace(requested) == "" then token
               else TrimSpace(requested) + " " + token
  }

  lemma {:induction false} TokenAdded(requested: string, s: NetworkSettings, hostname: string)
    ensures CarriesToken(AddIpToken(requested, s, hostname), requested, IpToken(s, hostname))
    ensures NamesAddress(AddIpToken(requested, s, hostname))
  {
    AddIpTokenIdempotent(requested, s, hostname, s, hostname);
  }

  /**
   The kernel is given the token exactly when the task's own command line names no address,
   or holds this very token.
   */
  lemma {:induction false} TokenGivenIff(cmdline: string, requested: string, token: string)
    requires CarriesToken(cmdline, requested, token)
    ensures HasSubstring(cmdline, token) <==> !NamesAddress(requested) || HasSubstring(requested, token)
  {
    if !NamesAddress(requested) {
      if TrimSpace(requested) == "" {
        SubstringAt("", token, "");
        assert "" + token + "" == token;
      } else {
        SubstringAt(TrimSpace(requested) + " ", token, "");
        assert TrimSpace(requested) + " " + token + "" == cmdline;
      }
    }
  }

  lemma {:induction false} SubstringCharacters(s: string, sub: string, c: char)
    requires HasSubstring(s, sub) && c in sub
    ensures c in s
  {
    if sub <= s {
      var i :| 0 <= i < |sub| && sub[i] == c;
      assert s[i] == c;
    } else {
      SubstringCharacters(s[1..], sub, c);
    }
  }

  /** A task that names another address keeps it, and its kernel is never given the reserved one. */
  lemma {:induction false} OwnAddressWins(s: NetworkSettings, hostname: string)
    ensures AddIpToken("ro ip=1.2.3.4", s, hostname) == "ro ip=1.2.3.4"
    ensures !HasSubstring("ro ip=1.2.3.4", IpToken(s, hostname))
  {
    hide KernelToken, NetmaskDotted, HasSubstring;
    SubstringAt("ro", " ip=", "1.2.3.4");
    assert "ro" + " ip=" + "1.2.3.4" == "ro ip=1.2.3.4";
    TokenShape(s.address, OrElse(s.gateway, "0.0.0.0"), NetmaskDotted(s), hostname, s.interfaceName);
    if HasSubstring("ro ip=1.2.3.4", IpToken(s, hostname)) {
      SubstringCharacters("ro ip=1.2.3.4", IpToken(s, hostname), ':');
    }
  }

  /**
   The hypervisor is given the same address and the mask of the same prefix
   length, the kernel and initramfs asked for or else the driver's, and the command
   line treated as above with the parameter that tells the kernel this address, this
   mask and the gateway.
   */
  lemma {:induction false} HypervisorAgrees(d: Defaults, cfg: DomainConfig, tap: string, ip: string)
    requires Reserved(cfg, ip)
    ensures var kernel := if cfg.kernel != "" then cfg.kernel else d.kernel;
            var initramfs := if cfg.initramfs != "" then cfg.initramfs else d.initramfs;
            && (BuildVMConfig(d, cfg, tap, ip).Some? <==> kernel != "" && initramfs != "")
            && (BuildVMConfig(d, cfg, tap, ip).Some? ==>
                  var vm := BuildVMConfig(d, cfg, tap, ip).value;
                  vm.kernel == kernel && vm.initramfs == initramfs && vm.tap == tap)
    ensures BuildVMConfig(d, cfg, tap, ip).Some? ==>
              var vm := BuildVMConfig(d, cfg, tap, ip).value;
              var s := Derive(d, cfg, ip).value;
              var mask := Dotted(Mask(s.cidrBits));
              var gateway := if s.gateway != "" then s.gateway else "0.0.0.0";
              var host := if cfg.hostName != "" then cfg.hostName else cfg.name;
              && vm.ip == ip && vm.mask == mask
              && NamesAddress(vm.cmdline)
              && CarriesToken(vm.cmdline, RequestedLine(cfg),
                              "ip=" + Join([ip, "", gateway, mask, host, "eth0", "none"], ":"))
  {
    hide KernelToken, AddIpToken, NamesAddress, Join;
    var s := Derive(d, cfg, ip).value;
    var hostname := OrElse(cfg.hostName, cfg.name);
    MaskTextNonEmpty(s.cidrBits);
    TokenAdded(RequestedLine(cfg), s, hostname);
    TokenText(ip, OrElse(s.gateway, "0.0.0.0"), Dotted(Mask(s.cidrBits)), hostname, "eth0");
  }
}
