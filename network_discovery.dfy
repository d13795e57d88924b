/** The network discovery service (Services/NetworkDiscoveryService.cs): it expands an
    address range, probes each address (ping, reverse DNS, a fixed table of TCP ports),
    classifies what answers, and upserts a discovered device into the device table. The
    network's answers are parameters; the concurrent fan-out is modelled sequentially. */
module Discovery {
  import opened Common
  import opened DeviceStore
  import opened DevicesApi

  // ---------------------------------------------------------------------------
  // The port table

  /** The service's port table (`_commonPorts`), in declaration order. */
  const PortTable: seq<(int, string)> :=
    [(22, "SSH"), (23, "Telnet"), (25, "SMTP"), (53, "DNS"), (80, "HTTP"), (110, "POP3"),
     (143, "IMAP"), (443, "HTTPS"), (993, "IMAPS"), (995, "POP3S"), (3389, "RDP"),
     (5432, "PostgreSQL"), (3306, "MySQL"), (1433, "SQL Server"), (21, "FTP"), (161, "SNMP")]

  /** The ports of the table. */
  function TablePorts(): (ps: seq<int>)
    ensures |ps| == |PortTable|
    ensures forall i :: 0 <= i < |PortTable| ==> ps[i] == PortTable[i].0
  {
    seq(|PortTable|, i requires 0 <= i < |PortTable| => PortTable[i].0)
  }

  /** The table has sixteen distinct ports, all in the port range. */
  lemma PortTableDistinct()
    ensures |PortTable| == 16
    ensures forall i, j :: 0 <= i < j < |PortTable| ==> PortTable[i].0 != PortTable[j].0
    ensures forall i :: 0 <= i < |PortTable| ==> PortInRange(PortTable[i].0)
  {
    assert TablePorts() == [22, 23, 25, 53, 80, 110, 143, 443, 993, 995, 3389, 5432, 3306, 1433, 21, 161];
  }

  /** On the ports the table shares with the device controller's list the two give the
      same service name. */
  lemma PortTableAgreesWithServiceNames()
    ensures forall i :: 0 <= i < |PortTable| && PortTable[i].0 in CommonPorts ==>
              GetServiceName(PortTable[i].0) == PortTable[i].1
  {
    forall i | 0 <= i < |PortTable| && PortTable[i].0 in CommonPorts
      ensures GetServiceName(PortTable[i].0) == PortTable[i].1
    {
      ServiceNamesCoverCommonPorts(PortTable[i].0);
    }
  }

  /** Of the device controller's list only the WinRM ports are missing from the table. */
  lemma WinRmNotInPortTable()
    ensures forall p :: p in CommonPorts ==> (p in TablePorts() <==> p != 5985 && p != 5986)
  {
    assert TablePorts() == [22, 23, 25, 53, 80, 110, 143, 443, 993, 995, 3389, 5432, 3306, 1433, 21, 161];
  }

  // ---------------------------------------------------------------------------
  // The result records

  /** A discovered open port (the service's DiscoveredPort). */
  datatype DiscoveredPort = DiscoveredPort(port: int, protocol: string, service: string)

  /** A discovered device (the service's DiscoveredDevice; the response time is the ping's
      round trip in milliseconds). */
  datatype DiscoveredDevice = DiscoveredDevice(
    ipAddress: string,
    hostname: string,
    isResponding: bool,
    responseTime: int,
    openPorts: seq<DiscoveredPort>,
    deviceType: string,
    discoveredAt: Time,
    alreadyExists: bool)

  // ---------------------------------------------------------------------------
  // Device type classification

  /** The labels the classifier can return. */
  const DeviceTypeLabels: seq<string> :=
    ["Router/Gateway", "Network Switch", "Server", "Printer", "Web Server", "Web Service",
     "Database Server", "Network Device", "Mail Server", "Unknown Device"]

  /** The set of open port numbers (`ToHashSet`). */
  function PortNumbers(openPorts: seq<DiscoveredPort>): set<int>
  {
    set p | p in openPorts :: p.port
  }

  /** The hostname rule: the lower-cased name's keywords, in order of priority. */
  function HostnameLabel(hostname: string): Option<string>
  {
    var h := ToLowerAscii(hostname);
    if Contains(h, "router") || Contains(h, "gateway") then Some("Router/Gateway")
    else if Contains(h, "switch") then Some("Network Switch")
    else if Contains(h, "server") || Contains(h, "srv") then Some("Server")
    else if Contains(h, "printer") then Some("Printer")
    else None
  }

  /** The port rules, in order; a device with some other open port is a network device. */
  function PortsLabel(ports: set<int>): string
  {
    if 80 in ports || 443 in ports then
      (if 22 in ports || 3389 in ports then "Web Server" else "Web Service")
    else if 3306 in ports || 5432 in ports || 1433 in ports then "Database Server"
    else if 22 in ports || 3389 in ports then "Server"
    else if 161 in ports then "Network Device"
    else if 25 in ports || 110 in ports || 143 in ports then "Mail Server"
    else if |ports| > 0 then "Network Device"
    else "Unknown Device"
  }

  /** DetermineDeviceType: a hostname keyword wins, else the open ports decide. */
  function DetermineDeviceType(openPorts: seq<DiscoveredPort>, hostname: string): (kind: string)
    ensures kind in DeviceTypeLabels
  {
    match HostnameLabel(hostname)
    case Some(l) => l
    case None => PortsLabel(PortNumbers(openPorts))
  }

  /** A hostname with a keyword decides the label whatever the ports; without one, only
      the set of port numbers matters (not their order or repetitions); and the hostname
      is compared ignoring (ASCII) case. */
  lemma DeviceTypeDependencies(ps1: seq<DiscoveredPort>, ps2: seq<DiscoveredPort>, h1: string, h2: string)
    ensures HostnameLabel(h1).Some? ==> DetermineDeviceType(ps1, h1) == DetermineDeviceType(ps2, h1)
    ensures HostnameLabel(h1).None? && HostnameLabel(h2).None? ==>
              DetermineDeviceType(ps1, h1) == DetermineDeviceType(ps1, h2)
    ensures PortNumbers(ps1) == PortNumbers(ps2) ==> DetermineDeviceType(ps1, h1) == DetermineDeviceType(ps2, h1)
    ensures DetermineDeviceType(ps1, h1) == DetermineDeviceType(ps1, ToLowerAscii(h1))
  {
    ToLowerAsciiIdempotent(h1);
  }

  /** Keyword priority: a router or gateway name wins over every other keyword, and a
      switch wins over server and printer, a server over printer. */
  lemma KeywordPriority(ps: seq<DiscoveredPort>, hostname: string)
    ensures var h := ToLowerAscii(hostname);
      ((Contains(h, "router") || Contains(h, "gateway")) ==> DetermineDeviceType(ps, hostname) == "Router/Gateway")
      && (Contains(h, "switch") && !Contains(h, "router") && !Contains(h, "gateway") ==>
            DetermineDeviceType(ps, hostname) == "Network Switch")
      && (DetermineDeviceType(ps, hostname) == "Printer" ==>
            Contains(h, "printer") && !Contains(h, "server") && !Contains(h, "srv") && !Contains(h, "switch"))
  {
  }

  /** Without a hostname keyword, each port-derived label holds exactly under its rule. */
  lemma PortRules(ps: seq<DiscoveredPort>, hostname: string)
    requires HostnameLabel(hostname).None?
    ensures var ports := PortNumbers(ps);
      var web := 80 in ports || 443 in ports;
      var remote := 22 in ports || 3389 in ports;
      var database := 3306 in ports || 5432 in ports || 1433 in ports;
      var kind := DetermineDeviceType(ps, hostname);
      (kind == "Web Server" <==> web && remote)
      && (kind == "Web Service" <==> web && !remote)
      && (kind == "Database Server" <==> !web && database)
      && (kind == "Server" <==> !web && !database && remote)
      && (kind == "Unknown Device" <==> |ps| == 0)
  {
    var ports := PortNumbers(ps);
    if |ps| > 0 {
      assert ps[0].port in ports;
    }
  }

  // ---------------------------------------------------------------------------
  // Address ranges

  /** The first four bytes of an address as IPAddress.Parse yields them (an IPv6 address
      has more; only these four are ever read). */
  datatype Octets = Octets(b0: Byte, b1: Byte, b2: Byte, b3: Byte)

  /** The "b0.b1.b2" network part printed from an address. */
  function OctetBase(o: Octets): string
  {
    NatToString(o.b0) + "." + NatToString(o.b1) + "." + NatToString(o.b2)
  }

  /** GetNetworkRange: the local /24 as a dash range over the last octet. */
  function GetNetworkRange(o: Octets): string
  {
    OctetBase(o) + ".1-254"
  }

  /** The addresses base.s, base.(s+1), …, base.e; none when s > e. */
  function HostRange(base: string, s: int, e: int): (r: seq<string>)
    ensures |r| == if s <= e then e - s + 1 else 0
  {
    seq(if s <= e then e - s + 1 else 0, k requires 0 <= k <= e - s => base + "." + IntToString(s + k))
  }

  /** The dash form "a.b.c.S-E": the text before the first dash split at dots, the fourth
      field and the text after the first dash parsed as integers; fewer than four fields
      or a number that does not parse yields nothing (the exception is caught). */
  function DashRange(range: string): seq<string>
    requires '-' in range
  {
    var parts := Split(range, '-');
    var baseParts := Split(parts[0], '.');
    if |baseParts| < 4 then []
    else
      var start := ParseInt32(baseParts[3]);
      var end := ParseInt32(parts[1]);
      if start.None? || end.None? then []
      else HostRange(baseParts[0] + "." + baseParts[1] + "." + baseParts[2], start.value, end.value)
  }

  /** The CIDR form "address/prefix": only a prefix of 24 is expanded, to hosts 1..254 of
      the address's first three octets; an address or prefix that does not parse yields
      nothing. */
  function CidrRange(range: string, parseAddress: string -> Option<Octets>): seq<string>
    requires '/' in range
  {
    var parts := Split(range, '/');
    var address := parseAddress(parts[0]);
    var prefix := ParseInt32(parts[1]);
    if address.None? || prefix.None? then []
    else if prefix.value == 24 then HostRange(OctetBase(address.value), 1, 254)
    else []
  }

  /** ParseNetworkRange: the dash form is tried first, then the CIDR form; any other
      string is taken as a single address, unchecked. */
  function ParsedRange(range: string, parseAddress: string -> Option<Octets>): seq<string>
  {
    if '-' in range then DashRange(range)
    else if '/' in range then CidrRange(range, parseAddress)
    else [range]
  }

  /** Each generated address is the base, a dot and its own number. */
  lemma HostRangeAt(base: string, s: nat, e: int, k: nat)
    requires k < |HostRange(base, s, e)|
    ensures HostRange(base, s, e)[k] == base + "." + NatToString(s + k)
  {
    assert HostRange(base, s, e)[k] == base + "." + IntToString(s + k);
  }

  /** For a non-negative start the generated addresses are distinct. */
  lemma HostRangeDistinct(base: string, s: nat, e: int)
    ensures forall i, j :: 0 <= i < j < |HostRange(base, s, e)| ==> HostRange(base, s, e)[i] != HostRange(base, s, e)[j]
  {
    var r := HostRange(base, s, e);
    var prefix := base + ".";
    forall i, j | 0 <= i < j < |r|
      ensures r[i] != r[j]
    {
      HostRangeAt(base, s, e, i);
      HostRangeAt(base, s, e, j);
      if r[i] == r[j] {
        assert r[i][|prefix|..] == NatToString(s + i);
        assert r[j][|prefix|..] == NatToString(s + j);
        NatToStringRoundTrip(s + i);
        NatToStringRoundTrip(s + j);
      }
    }
  }

  /** "a.b.c.S-E" with dot- and dash-free a, b, c expands to a.b.c.S … a.b.c.E: E−S+1
      addresses when S ≤ E, none otherwise; the dash form is chosen even when the text
      also holds a slash. */
  lemma {:induction false} DashRangeForm(a: string, b: string, c: string, s: nat, e: nat, parseAddress: string -> Option<Octets>)
    requires '.' !in a && '.' !in b && '.' !in c
    requires '-' !in a && '-' !in b && '-' !in c
    requires s <= Int32Max && e <= Int32Max
    ensures ParsedRange(a + "." + b + "." + c + "." + NatToString(s) + "-" + NatToString(e), parseAddress)
         == HostRange(a + "." + b + "." + c, s, e)
  {
    var start := NatToString(s);
    var end := NatToString(e);
    DigitsHaveNoSeparators(start);
    DigitsHaveNoSeparators(end);
    var head := a + "." + b + "." + c + "." + start;
    assert '-' !in head;
    SplitAtDash(head, end);
    SplitAtDots(a, b, c, start);
    ParsePrintedNat(s);
    ParsePrintedNat(e);
  }

  /** A dotted quad of dot-free fields splits into its four fields. */
  lemma SplitAtDots(a: string, b: string, c: string, d: string)
    requires '.' !in a && '.' !in b && '.' !in c && '.' !in d
    ensures Split(a + "." + b + "." + c + "." + d, '.') == [a, b, c, d]
  {
    assert a + "." + b + "." + c + "." + d == a + ['.'] + (b + ['.'] + (c + ['.'] + d));
    SplitFourFields(a, b, c, d);
  }


  /** The local range round trip: GetNetworkRange's text expands to exactly the 254 hosts
      1..254 of the address's network. */
  lemma GetNetworkRangeRoundTrip(o: Octets, parseAddress: string -> Option<Octets>)
    ensures ParsedRange(GetNetworkRange(o), parseAddress) == HostRange(OctetBase(o), 1, 254)
    ensures |ParsedRange(GetNetworkRange(o), parseAddress)| == 254
  {
    var a, b, c := NatToString(o.b0), NatToString(o.b1), NatToString(o.b2);
    DigitsHaveNoSeparators(a);
    DigitsHaveNoSeparators(b);
    DigitsHaveNoSeparators(c);
    assert NatToString(1) == "1";
    assert NatToString(254) == "254" by {
      assert NatToString(2) == "2";
      assert NatToString(25) == NatToString(2) + ['5'];
    }
    assert GetNetworkRange(o) == a + "." + b + "." + c + "." + NatToString(1) + "-" + NatToString(254);
    DashRangeForm(a, b, c, 1, 254, parseAddress);
  }

  /** "address/prefix" without a dash: a parsed address with prefix 24 gives its 254 hosts
      1..254 whatever its last octet; any other prefix, or an address that does not
      parse, gives nothing. */
  lemma {:induction false} CidrRangeForm(address: string, prefix: nat, parseAddress: string -> Option<Octets>)
    requires '-' !in address && '/' !in address
    requires prefix <= Int32Max
    ensures var r := ParsedRange(address + "/" + NatToString(prefix), parseAddress);
      (parseAddress(address).Some? && prefix == 24 ==> r == HostRange(OctetBase(parseAddress(address).value), 1, 254))
      && (parseAddress(address).None? || prefix != 24 ==> r == [])
  {
    var p := NatToString(prefix);
    DigitsHaveNoSeparators(p);
    var range := address + "/" + p;
    assert range == address + ['/'] + p;
    assert range[|address|] == '/';
    assert '-' !in range by {
      forall i | 0 <= i < |range| ensures range[i] != '-' {
        if i < |address| {
          assert range[i] == address[i];
        } else if i > |address| {
          assert range[i] == p[i - |address| - 1];
        }
      }
    }
    var parts := Split(range, '/');
    assert parts == [address, p] by {
      SplitFirst(address, '/', p);
      SplitNoSeparator(p, '/');
    }
    assert ParsedRange(range, parseAddress) == CidrRange(range, parseAddress);
    ParsePrintedNat(prefix);
    assert ParseInt32(parts[1]) == Some(prefix);
  }

  /** A string with neither a dash nor a slash is returned as the only address, without
      consulting the address parser. */
  lemma SingleAddressRange(range: string, parseAddress: string -> Option<Octets>)
    requires '-' !in range && '/' !in range
    ensures ParsedRange(range, parseAddress) == [range]
  {
  }

  /** No form of range yields an address twice: the dash form's start has no minus sign,
      so its hosts are numbered upwards from a non-negative start. */
  lemma ParsedRangeDistinct(range: string, parseAddress: string -> Option<Octets>)
    ensures var ips := ParsedRange(range, parseAddress);
      forall i, j :: 0 <= i < j < |ips| ==> ips[i] != ips[j]
  {
    if '-' in range {
      var parts := Split(range, '-');
      var baseParts := Split(parts[0], '.');
      if |baseParts| >= 4 {
        var start := ParseInt32(baseParts[3]);
        var end := ParseInt32(parts[1]);
        if start.Some? && end.Some? {
          SplitPieces(range, '-');
          SplitPieces(parts[0], '.');
          assert parts[0] in parts;
          assert baseParts[3] in baseParts;
          ParseWithoutMinus(baseParts[3]);
          HostRangeDistinct(baseParts[0] + "." + baseParts[1] + "." + baseParts[2], start.value, end.value);
        }
      }
    } else if '/' in range {
      var parts := Split(range, '/');
      var address := parseAddress(parts[0]);
      var prefix := ParseInt32(parts[1]);
      if address.Some? && prefix.Some? && prefix.value == 24 {
        HostRangeDistinct(OctetBase(address.value), 1, 254);
      }
    }
  }

  /** ExpandHosts: the `for` loop from start to end, appending base.i. */
  method ExpandHosts(base: string, s: int, e: int) returns (ips: seq<string>)
    ensures ips == HostRange(base, s, e)
  {
    ips := [];
    var i := s;
    while i <= e
      invariant s <= i && (i <= e + 1 || i == s)
      invariant ips == HostRange(base, s, i - 1)
      decreases e - i
    {
      ips := ips + [base + "." + IntToString(i)];
      i := i + 1;
    }
  }

  /** ParseNetworkRange. */
  method ParseNetworkRange(range: string, parseAddress: string -> Option<Octets>) returns (ips: seq<string>)
    ensures ips == ParsedRange(range, parseAddress)
  {
    if '-' in range {
      var parts := Split(range, '-');
      var baseParts := Split(parts[0], '.');
      if |baseParts| < 4 {
        return [];
      }
      var start := ParseInt32(baseParts[3]);
      var end := ParseInt32(parts[1]);
      if start.None? || end.None? {
        return [];
      }
      ips := ExpandHosts(baseParts[0] + "." + baseParts[1] + "." + baseParts[2], start.value, end.value);
    } else if '/' in range {
      var parts := Split(range, '/');
      var address := parseAddress(parts[0]);
      var prefix := ParseInt32(parts[1]);
      if address.None? || prefix.None? || prefix.value != 24 {
        return [];
      }
      ips := ExpandHosts(OctetBase(address.value), 1, 254);
    } else {
      ips := [range];
    }
  }

  // ---------------------------------------------------------------------------
  // Probing

  /** What the network answers for one address: the ping, the reverse DNS lookup (None
      where it throws) and whether each TCP port accepts a connection in time. */
  datatype HostAnswers = HostAnswers(ping: PingReply, dns: Option<string>, open: int -> bool)

  /** The open ports among table entries, in table order. */
  function OpenTablePorts(entries: seq<(int, string)>, open: int -> bool): (r: seq<DiscoveredPort>)
    ensures |r| <= |entries|
    ensures forall d :: d in r ==> d.protocol == "TCP" && (d.port, d.service) in entries && open(d.port)
    decreases |entries|
  {
    if |entries| == 0 then []
    else
      var last := entries[|entries| - 1];
      OpenTablePorts(entries[..|entries| - 1], open) + (if open(last.0) then [DiscoveredPort(last.0, "TCP", last.1)] else [])
  }

  /** Every open entry is reported. */
  lemma {:induction false} OpenTablePortsComplete(entries: seq<(int, string)>, open: int -> bool, i: nat)
    requires i < |entries| && open(entries[i].0)
    ensures DiscoveredPort(entries[i].0, "TCP", entries[i].1) in OpenTablePorts(entries, open)
    decreases |entries|
  {
    if i < |entries| - 1 {
      OpenTablePortsComplete(entries[..|entries| - 1], open, i);
    }
  }

  /** Entries with distinct ports are reported with distinct ports. */
  lemma {:induction false} OpenTablePortsDistinct(entries: seq<(int, string)>, open: int -> bool)
    requires forall i, j :: 0 <= i < j < |entries| ==> entries[i].0 != entries[j].0
    ensures forall i, j :: 0 <= i < j < |OpenTablePorts(entries, open)| ==>
              OpenTablePorts(entries, open)[i].port != OpenTablePorts(entries, open)[j].port
    decreases |entries|
  {
    if |entries| > 0 {
      var init := entries[..|entries| - 1];
      var last := entries[|entries| - 1];
      OpenTablePortsDistinct(init, open);
      var r0 := OpenTablePorts(init, open);
      forall i | 0 <= i < |r0|
        ensures r0[i].port != last.0
      {
        assert r0[i] in r0;
        var k :| 0 <= k < |init| && init[k] == (r0[i].port, r0[i].service);
      }
      var r := OpenTablePorts(entries, open);
      assert r == r0 + (if open(last.0) then [DiscoveredPort(last.0, "TCP", last.1)] else []);
      forall i, j | 0 <= i < j < |r|
        ensures r[i].port != r[j].port
      {
        if j >= |r0| {
          assert r[j].port == last.0;
          assert r[i] == r0[i];
        } else {
          assert r[i] == r0[i] && r[j] == r0[j];
        }
      }
    }
  }

  /** ProbePortsAsync's result, the open ports of the table in table order. */
  function ProbedPorts(open: int -> bool): seq<DiscoveredPort>
  {
    OpenTablePorts(PortTable, open)
  }

  /** A port is reported exactly when it is in the table and open, once, over TCP, with
      the table's service name, and within the port range. */
  lemma ProbedPortsExact(open: int -> bool)
    ensures forall p :: p in PortNumbers(ProbedPorts(open)) <==> p in TablePorts() && open(p)
    ensures forall d :: d in ProbedPorts(open) ==> d.protocol == "TCP" && (d.port, d.service) in PortTable && PortInRange(d.port)
    ensures forall i, j :: 0 <= i < j < |ProbedPorts(open)| ==> ProbedPorts(open)[i].port != ProbedPorts(open)[j].port
  {
    PortTableDistinct();
    OpenTablePortsDistinct(PortTable, open);
    var r := ProbedPorts(open);
    forall p | p in TablePorts() && open(p)
      ensures p in PortNumbers(r)
    {
      var i :| 0 <= i < |PortTable| && TablePorts()[i] == p;
      OpenTablePortsComplete(PortTable, open, i);
    }
    forall d | d in r
      ensures d.port in TablePorts() && PortInRange(d.port)
    {
      var i :| 0 <= i < |PortTable| && PortTable[i] == (d.port, d.service);
      assert TablePorts()[i] == d.port;
    }
  }

  /** ProbePortsAsync, with the table's ports tried one after another. */
  method ProbePorts(open: int -> bool) returns (openPorts: seq<DiscoveredPort>)
    ensures openPorts == ProbedPorts(open)
  {
    openPorts := ProbeEntries(PortTable, open);
  }

  /** The probing loop over a list of table entries. */
  method ProbeEntries(entries: seq<(int, string)>, open: int -> bool) returns (openPorts: seq<DiscoveredPort>)
    ensures openPorts == OpenTablePorts(entries, open)
  {
    openPorts := [];
    var i := 0;
    while i < |entries|
      invariant 0 <= i <= |entries|
      invariant openPorts == OpenTablePorts(entries[..i], open)
    {
      var entry := entries[i];
      assert entries[..i + 1][..i] == entries[..i];
      if open(entry.0) {
        openPorts := openPorts + [DiscoveredPort(entry.0, "TCP", entry.1)];
      }
      i := i + 1;
    }
    assert entries[..i] == entries;
  }

  /** The prefix of the name given to an address whose reverse lookup fails. */
  const UnknownHostPrefix: string := "Unknown-"

  /** ProbeDeviceAsync: nothing unless the ping answers Success; then the DNS name (or
      "Unknown-" and the address), the open table ports and the derived device type. */
  function Probed(ip: string, answers: HostAnswers, now: Time): (r: Option<DiscoveredDevice>)
    ensures r.Some? <==> PingDevice(answers.ping).isReachable
  {
    if !(answers.ping.Replied? && answers.ping.status == SuccessStatus) then None
    else
      var hostname := OrElse(answers.dns, UnknownHostPrefix + ip);
      var ports := ProbedPorts(answers.open);
      Some(DiscoveredDevice(ip, hostname, true, answers.ping.roundtripMs, ports,
                            DetermineDeviceType(ports, hostname), now, false))
  }

  /** What a responding probe reports: the address, responding, the ping's round trip,
      the DNS name or the fallback, exactly the open table ports, and a classified type;
      it is not yet marked as stored. */
  lemma ProbeFindings(ip: string, answers: HostAnswers, now: Time)
    requires Probed(ip, answers, now).Some?
    ensures var d := Probed(ip, answers, now).value;
      d.ipAddress == ip && d.isResponding && !d.alreadyExists && d.discoveredAt == now
      && d.responseTime == PingDevice(answers.ping).responseTime
      && (answers.dns.Some? ==> d.hostname == answers.dns.value)
      && (answers.dns.None? ==> d.hostname == UnknownHostPrefix + ip)
      && (forall p :: p in PortNumbers(d.openPorts) <==> p in TablePorts() && answers.open(p))
      && d.deviceType in DeviceTypeLabels
  {
    ProbedPortsExact(answers.open);
  }

  /** ProbeDeviceAsync. */
  method ProbeDevice(ip: string, answers: HostAnswers, now: Time) returns (r: Option<DiscoveredDevice>)
    ensures r == Probed(ip, answers, now)
  {
    if !answers.ping.Replied? || answers.ping.status != SuccessStatus {
      return None;
    }
    var hostname := if answers.dns.Some? then answers.dns.value else UnknownHostPrefix + ip;
    var ports := ProbePorts(answers.open);
    var kind := DetermineDeviceType(ports, hostname);
    r := Some(DiscoveredDevice(ip, hostname, true, answers.ping.roundtripMs, ports, kind, now, false));
  }

  // ---------------------------------------------------------------------------
  // Discovery over a range

  /** The responding addresses' probe results, in address order. */
  function Responding(addresses: seq<string>, network: string -> HostAnswers, now: Time): (found: seq<DiscoveredDevice>)
    ensures |found| <= |addresses|
    ensures forall d :: d in found ==> d.ipAddress in addresses && Probed(d.ipAddress, network(d.ipAddress), now) == Some(d)
    decreases |addresses|
  {
    if |addresses| == 0 then []
    else
      var ip := addresses[|addresses| - 1];
      var probe := Probed(ip, network(ip), now);
      Responding(addresses[..|addresses| - 1], network, now) + (if probe.Some? then [probe.value] else [])
  }

  /** Every responding address is found. */
  lemma {:induction false} RespondingComplete(addresses: seq<string>, network: string -> HostAnswers, now: Time, i: nat)
    requires i < |addresses| && Probed(addresses[i], network(addresses[i]), now).Some?
    ensures Probed(addresses[i], network(addresses[i]), now).value in Responding(addresses, network, now)
    decreases |addresses|
  {
    if i < |addresses| - 1 {
      RespondingComplete(addresses[..|addresses| - 1], network, now, i);
    }
  }

  function AddressOf(d: DiscoveredDevice): string { d.ipAddress }

  /** Distinct addresses give responders with distinct addresses. */
  lemma {:induction false} RespondingOnce(addresses: seq<string>, network: string -> HostAnswers, now: Time)
    requires forall i, j :: 0 <= i < j < |addresses| ==> addresses[i] != addresses[j]
    ensures KeysDistinct(Responding(addresses, network, now), AddressOf)
    decreases |addresses|
  {
    if |addresses| > 0 {
      var init := addresses[..|addresses| - 1];
      var ip := addresses[|addresses| - 1];
      RespondingOnce(init, network, now);
      if Probed(ip, network(ip), now).Some? {
        ProbeFindings(ip, network(ip), now);
        var front := Responding(init, network, now);
        assert ip !in init by {
          forall k | 0 <= k < |init| ensures init[k] != ip { assert init[k] == addresses[k]; }
        }
        forall k | 0 <= k < |front| ensures front[k].ipAddress != ip { assert front[k] in front; }
      }
    }
  }

  /** The sort key: the fourth byte of the parsed address. */
  function LastOctet(parseAddress: string -> Option<Octets>): DiscoveredDevice -> int
  {
    (d: DiscoveredDevice) => if parseAddress(d.ipAddress).Some? then parseAddress(d.ipAddress).value.b3 else 0
  }

  /** Whether every found address parses (IPAddress.Parse in the ordering throws otherwise). */
  predicate AllParse(found: seq<DiscoveredDevice>, parseAddress: string -> Option<Octets>)
  {
    forall i :: 0 <= i < |found| ==> parseAddress(found[i].ipAddress).Some?
  }

  /** DiscoverDevicesAsync: the responding addresses of the range, ordered by their last
      octet; None where the ordering throws. */
  function Discovered(range: string, network: string -> HostAnswers, parseAddress: string -> Option<Octets>, now: Time)
    : Option<seq<DiscoveredDevice>>
  {
    var found := Responding(ParsedRange(range, parseAddress), network, now);
    if AllParse(found, parseAddress) then Some(SortBy(found, LastOctet(parseAddress))) else None
  }

  /** The discovery result holds exactly the probes of the range's responding addresses,
      each once, ascending by last octet; it fails only when a responding address does not
      parse as an address. */
  lemma DiscoveryOutput(range: string, network: string -> HostAnswers, parseAddress: string -> Option<Octets>, now: Time)
    ensures var found := Responding(ParsedRange(range, parseAddress), network, now);
      var r := Discovered(range, network, parseAddress, now);
      (r.None? <==> exists d :: d in found && parseAddress(d.ipAddress).None?)
      && (r.Some? ==>
            SortedBy(r.value, LastOctet(parseAddress)) && |r.value| == |found|
            && forall d :: d in r.value <==>
                 d.ipAddress in ParsedRange(range, parseAddress) && Probed(d.ipAddress, network(d.ipAddress), now) == Some(d))
  {
    var addresses := ParsedRange(range, parseAddress);
    var found := Responding(addresses, network, now);
    var key := LastOctet(parseAddress);
    if AllParse(found, parseAddress) {
      var sorted := SortBy(found, key);
      assert Discovered(range, network, parseAddress, now) == Some(sorted);
      SortByLength(found, key);
      SortBySameMembers(found, key);
      RespondingMembers(addresses, network, now);
    } else {
      var i :| 0 <= i < |found| && parseAddress(found[i].ipAddress).None?;
      assert found[i] in found;
    }
  }

  /** Every responding address of the range is reported, and reported once. */
  lemma DiscoveredOnce(range: string, network: string -> HostAnswers, parseAddress: string -> Option<Octets>, now: Time)
    requires Discovered(range, network, parseAddress, now).Some?
    ensures KeysDistinct(Discovered(range, network, parseAddress, now).value, AddressOf)
    ensures forall ip :: ip in ParsedRange(range, parseAddress) && Probed(ip, network(ip), now).Some? ==>
              Probed(ip, network(ip), now).value in Discovered(range, network, parseAddress, now).value
  {
    var addresses := ParsedRange(range, parseAddress);
    var found := Responding(addresses, network, now);
    ParsedRangeDistinct(range, parseAddress);
    RespondingOnce(addresses, network, now);
    KeysDistinctPermutation(found, SortBy(found, LastOctet(parseAddress)), AddressOf);
    DiscoveryOutput(range, network, parseAddress, now);
    forall ip | ip in addresses && Probed(ip, network(ip), now).Some?
      ensures Probed(ip, network(ip), now).value in Discovered(range, network, parseAddress, now).value
    {
      ProbeFindings(ip, network(ip), now);
    }
  }

  /** The found devices are exactly the responding probes of the addresses. */
  lemma RespondingMembers(addresses: seq<string>, network: string -> HostAnswers, now: Time)
    ensures forall d :: d in Responding(addresses, network, now) <==>
              d.ipAddress in addresses && Probed(d.ipAddress, network(d.ipAddress), now) == Some(d)
  {
    forall d: DiscoveredDevice | d.ipAddress in addresses && Probed(d.ipAddress, network(d.ipAddress), now) == Some(d)
      ensures d in Responding(addresses, network, now)
    {
      var i :| 0 <= i < |addresses| && addresses[i] == d.ipAddress;
      RespondingComplete(addresses, network, now, i);
    }
  }

  /** Everything discovered answered its ping. */
  lemma DiscoveredResponded(range: string, network: string -> HostAnswers, parseAddress: string -> Option<Octets>, now: Time)
    requires Discovered(range, network, parseAddress, now).Some?
    ensures forall d :: d in Discovered(range, network, parseAddress, now).value ==>
              PingDevice(network(d.ipAddress).ping).isReachable && d.isResponding
  {
    DiscoveryOutput(range, network, parseAddress, now);
  }

  /** DiscoverDevicesAsync, probing the addresses one after another. */
  method DiscoverDevices(range: string, network: string -> HostAnswers, parseAddress: string -> Option<Octets>, now: Time)
    returns (r: Option<seq<DiscoveredDevice>>)
    ensures r == Discovered(range, network, parseAddress, now)
  {
    var addresses := ParseNetworkRange(range, parseAddress);
    var found := ProbeAll(addresses, network, now);
    if !AllParse(found, parseAddress) {
      return None;
    }
    r := Some(SortBy(found, LastOctet(parseAddress)));
  }

  /** The probing loop: each address in turn, keeping the ones that respond. */
  method ProbeAll(addresses: seq<string>, network: string -> HostAnswers, now: Time) returns (found: seq<DiscoveredDevice>)
    ensures found == Responding(addresses, network, now)
  {
    found := [];
    var i := 0;
    while i < |addresses|
      invariant 0 <= i <= |addresses|
      invariant found == Responding(addresses[..i], network, now)
    {
      var device := ProbeDevice(addresses[i], network(addresses[i]), now);
      assert addresses[..i + 1][..i] == addresses[..i];
      if device.Some? {
        found := found + [device.value];
      }
      i := i + 1;
    }
    assert addresses[..i] == addresses;
  }

  /** DiscoverLocalNetworkAsync: nothing when the local address is unknown, else the
      discovery of its /24 range. */
  function DiscoveredLocal(localIp: Option<Octets>, network: string -> HostAnswers,
                           parseAddress: string -> Option<Octets>, now: Time): Option<seq<DiscoveredDevice>>
  {
    if localIp.None? then Some([]) else Discovered(GetNetworkRange(localIp.value), network, parseAddress, now)
  }

  /** The local scan probes exactly the hosts 1..254 of the local network. */
  lemma LocalScanRange(localIp: Octets, network: string -> HostAnswers, parseAddress: string -> Option<Octets>, now: Time)
    ensures DiscoveredLocal(Some(localIp), network, parseAddress, now)
         == (var found := Responding(HostRange(OctetBase(localIp), 1, 254), network, now);
             if AllParse(found, parseAddress) then Some(SortBy(found, LastOctet(parseAddress))) else None)
  {
    GetNetworkRangeRoundTrip(localIp, parseAddress);
  }

  method DiscoverLocalNetwork(localIp: Option<Octets>, network: string -> HostAnswers,
                              parseAddress: string -> Option<Octets>, now: Time)
    returns (r: Option<seq<DiscoveredDevice>>)
    ensures r == DiscoveredLocal(localIp, network, parseAddress, now)
  {
    if localIp.None? {
      return Some([]);
    }
    r := DiscoverDevices(GetNetworkRange(localIp.value), network, parseAddress, now);
  }

  // ---------------------------------------------------------------------------
  // Adding a discovered device

  /** Where saving can fail: the save of a new device, or the final save (of the update,
      or of the new device's ports). */
  datatype SaveFault = NoFault | DeviceSaveFails | FinalSaveFails

  /** The monitored port stored for a discovered port. */
  function PortRecord(deviceId: int, p: DiscoveredPort, now: Time): MonitoredPort
  {
    MonitoredPort(deviceId, p.port, p.protocol, p.service, true, PortStatus.Unknown, MinDate, now, now)
  }

  function PortRecords(deviceId: int, ps: seq<DiscoveredPort>, now: Time): (r: seq<MonitoredPort>)
    ensures |r| == |ps|
  {
    seq(|ps|, i requires 0 <= i < |ps| => PortRecord(deviceId, ps[i], now))
  }

  datatype Upsert = Upsert(db: Db, added: bool)

  /** AddDiscoveredDeviceAsync: a stored device with the address is renamed, marked Online
      and stamped; otherwise a new Online device is stored and saved, then one monitored
      port per discovered port. A failing save, or port keys the unique index refuses,
      returns false; a new device saved before the failure stays. */
  function UpsertEffect(db: Db, d: DiscoveredDevice, fault: SaveFault, now: Time): Upsert
  {
    match FindByIp(db.devices, d.ipAddress)
    case Some(k) =>
      if fault == FinalSaveFails then Upsert(db, false)
      else
        var before := db.devices[k];
        Upsert(db.(devices := db.devices[k := before.(hostname := d.hostname, status := Online,
                                                    lastSeen := Some(now), updatedAt := now)]), true)
    case None =>
      if fault == DeviceSaveFails then Upsert(db, false)
      else
        var stored := Inserted(db, d.hostname, d.ipAddress, Online, Some(now), now);
        var ports := PortRecords(db.nextDeviceId, d.openPorts, now);
        if fault == FinalSaveFails || !DistinctKeys(ports) then Upsert(stored, false)
        else Upsert(stored.(ports := stored.ports + ports), true)
  }

  /** An address already stored: only that device changes (new name, Online, LastSeen and
      UpdatedAt now), no port is added; a failing save changes nothing. */
  lemma UpsertExisting(db: Db, d: DiscoveredDevice, fault: SaveFault, now: Time)
    requires FindByIp(db.devices, d.ipAddress).Some?
    ensures var k := FindByIp(db.devices, d.ipAddress).value;
      var u := UpsertEffect(db, d, fault, now);
      (u.added <==> fault != FinalSaveFails)
      && (!u.added ==> u.db == db)
      && (u.added ==>
            |u.db.devices| == |db.devices| && u.db.ports == db.ports && u.db.nextDeviceId == db.nextDeviceId
            && (forall i :: 0 <= i < |db.devices| && i != k ==> u.db.devices[i] == db.devices[i])
            && u.db.devices[k].id == db.devices[k].id && u.db.devices[k].ipAddress == d.ipAddress
            && u.db.devices[k].hostname == d.hostname && u.db.devices[k].status == Online
            && u.db.devices[k].lastSeen == Some(now) && u.db.devices[k].createdAt == db.devices[k].createdAt)
  {
  }

  /** A new address: the device is stored Online unless its own save fails, and on
      success one monitored port per discovered port follows, enabled, with the
      discovered number, protocol and service. */
  lemma UpsertNew(db: Db, d: DiscoveredDevice, fault: SaveFault, now: Time)
    requires FindByIp(db.devices, d.ipAddress).None?
    ensures var u := UpsertEffect(db, d, fault, now);
      var n := |db.devices|;
      (fault == DeviceSaveFails ==> u == Upsert(db, false))
      && (fault != DeviceSaveFails ==>
            |u.db.devices| == n + 1 && u.db.devices[..n] == db.devices
            && u.db.devices[n] == Device(db.nextDeviceId, d.hostname, d.ipAddress, Online, Some(now), now, now)
            && u.db.ports[..|db.ports|] == db.ports)
      && (u.added <==> fault == NoFault && DistinctKeys(PortRecords(db.nextDeviceId, d.openPorts, now)))
      && (u.added ==>
            |u.db.ports| == |db.ports| + |d.openPorts|
            && forall i :: 0 <= i < |d.openPorts| ==>
                 (var p := u.db.ports[|db.ports| + i];
                  p.deviceId == db.nextDeviceId && p.port == d.openPorts[i].port && p.protocol == d.openPorts[i].protocol
                  && p.serviceName == d.openPorts[i].service && p.isEnabled && p.status == PortStatus.Unknown))
      && (!u.added ==> u.db.ports == db.ports)
  {
  }

  /** A probed device's ports always fit the unique index, so adding a newly discovered
      device succeeds unless a save fails. */
  lemma ProbedDeviceAdds(db: Db, ip: string, answers: HostAnswers, fault: SaveFault, now: Time)
    requires Probed(ip, answers, now).Some? && FindByIp(db.devices, ip).None?
    ensures UpsertEffect(db, Probed(ip, answers, now).value, fault, now).added <==> fault == NoFault
  {
    var d := Probed(ip, answers, now).value;
    ProbedPortsExact(answers.open);
    var ports := PortRecords(db.nextDeviceId, d.openPorts, now);
    forall i, j | 0 <= i < j < |ports|
      ensures Key(ports[i]) != Key(ports[j])
    {
      assert ports[i].port == d.openPorts[i].port;
      assert ports[j].port == d.openPorts[j].port;
    }
  }

  /** The upsert keeps the schema's constraints. */
  lemma UpsertKeepsValid(db: Db, d: DiscoveredDevice, fault: SaveFault, now: Time)
    requires Valid(db)
    ensures Valid(UpsertEffect(db, d, fault, now).db)
  {
    match FindByIp(db.devices, d.ipAddress)
    case Some(k) =>
      if fault != FinalSaveFails {
        var before := db.devices[k];
        ReplaceKeepsValid(db, k, before.(hostname := d.hostname, status := Online, lastSeen := Some(now), updatedAt := now));
      }
    case None =>
      if fault != DeviceSaveFails {
        InsertKeepsValid(db, d.hostname, d.ipAddress, Online, Some(now), now);
        var ports := PortRecords(db.nextDeviceId, d.openPorts, now);
        if fault == NoFault && DistinctKeys(ports) {
          InsertWithPortsKeepsValid(db, d.hostname, d.ipAddress, Online, Some(now), now, ports);
        }
      }
  }

  /** AddDiscoveredDeviceAsync on the context. */
  method AddDiscoveredDevice(ctx: DeviceContext, d: DiscoveredDevice, fault: SaveFault, now: Time) returns (added: bool)
    modifies ctx
    ensures ctx.Snapshot() == UpsertEffect(old(ctx.Snapshot()), d, fault, now).db
    ensures added == UpsertEffect(old(ctx.Snapshot()), d, fault, now).added
  {
    var existing := FindByIp(ctx.devices, d.ipAddress);
    if existing.Some? {
      if fault == FinalSaveFails {
        return false;
      }
      var k := existing.value;
      var device := ctx.devices[k];
      ctx.Replace(k, device.(hostname := d.hostname, status := Online, lastSeen := Some(now), updatedAt := now));
      return true;
    }
    if fault == DeviceSaveFails {
      return false;
    }
    var id := ctx.Insert(d.hostname, d.ipAddress, Online, Some(now), now);
    var ports := PortRecords(id, d.openPorts, now);
    if fault == FinalSaveFails || !DistinctKeys(ports) {
      return false;
    }
    ctx.AddPorts(ports);
    added := true;
  }
}
