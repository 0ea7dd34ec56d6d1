/**
  DNS enumeration of one target (`EnumScan.EnumDNS`): every open port that is either port 53 or
  runs a service whose lower-cased name contains "dns" gets one UDP version scan.
 */
module Enum {
  import opened Seqs
  import opened Strings

  /** A port of the target as `GetPorts` returns it, with the name of its service (`GetService`). */
  datatype Port = Port(number: int, status: string, service: string)

  /** One recorded call `runNmap(name, target, folder, file, nmapArgs)`. */
  datatype NmapRun = NmapRun(name: string, target: string, folder: string, file: string, args: string)

  /** The eligibility test of `EnumDNS` for one port. */
  predicate DnsEligible(p: Port) {
    p.status == "open" && (p.number == 53 || Contains(ToLower(p.service), "dns"))
  }

  const DnsArgsPrefix := "-sV -Pn -sU -p53,"

  /** The nmap arguments for a port: `fmt.Sprintf("-sV -Pn -sU -p53,%d", number)`. */
  function DnsArgs(number: int): string {
    DnsArgsPrefix + IntToDecimal(number)
  }

  /** The scan request for one eligible port of the target at `address`. */
  function DnsRun(address: string, p: Port): NmapRun {
    var name := address + "_dns_nmap";
    NmapRun(name, address, "DNS", name, DnsArgs(p.number))
  }

  /** The scan requests for the eligible ports, one each, in port order. */
  function DnsRuns(address: string, ports: seq<Port>): seq<NmapRun> {
    var eligible := Filter(DnsEligible, ports);
    seq(|eligible|, k requires 0 <= k < |eligible| => DnsRun(address, eligible[k]))
  }

  /**
    `EnumDNS`: nothing without a database; otherwise the `runNmap` calls it makes, in the
    order it makes them, for the ports `GetPorts` returned.
   */
  method EnumDns(dbAvailable: bool, address: string, ports: seq<Port>) returns (runs: seq<NmapRun>)
    ensures !dbAvailable ==> runs == []
    ensures dbAvailable ==> runs == DnsRuns(address, ports)
  {
    runs := [];
    if !dbAvailable {
      return;
    }
    for i := 0 to |ports|
      invariant runs == DnsRuns(address, ports[..i])
    {
      var port := ports[i];
      assert ports[..i + 1][..i] == ports[..i];
      if port.status == "open" {
        var service := port.service;
        if port.number == 53 || Contains(ToLower(service), "dns") {
          var name := address + "_dns_nmap";
          var nmapArgs := "-sV -Pn -sU -p53," + IntToDecimal(port.number);
          runs := runs + [NmapRun(name, address, "DNS", name, nmapArgs)];
        }
      }
    }
    assert ports[..|ports|] == ports;
  }

  /** "dns" in any mix of upper and lower case starts at index `i` of `s`. */
  predicate DnsAt(s: string, i: int) {
    0 <= i && i + 3 <= |s| &&
    (s[i] == 'd' || s[i] == 'D') && (s[i + 1] == 'n' || s[i + 1] == 'N') && (s[i + 2] == 's' || s[i + 2] == 'S')
  }

  /**
    The eligibility test, case-insensitively: an open port qualifies exactly when it is port 53
    or its service name spells "dns" in any case somewhere. A port that is not open never does.
   */
  lemma DnsEligibleIff(p: Port)
    ensures DnsEligible(p) <==>
      p.status == "open" && (p.number == 53 || exists i :: DnsAt(p.service, i))
  {
    var s := p.service;
    var low := ToLower(s);
    ContainsIff(low, "dns");
    forall i ensures OccursAt(low, "dns", i) <==> DnsAt(s, i) {
      if 0 <= i && i + 3 <= |s| {
        assert low[i..i + 3] == [low[i], low[i + 1], low[i + 2]];
      }
    }
  }

  /** Example service names: "DNS", "Dns" and "mdns" qualify on an open port; a closed port 53 does not. */
  lemma DnsEligibleExamples()
    ensures DnsEligible(Port(5353, "open", "DNS"))
    ensures DnsEligible(Port(5353, "open", "Dns"))
    ensures DnsEligible(Port(5353, "open", "mdns"))
    ensures DnsEligible(Port(53, "open", "domain"))
    ensures !DnsEligible(Port(53, "closed", "domain"))
    ensures !DnsEligible(Port(53, "filtered", "dns"))
    ensures !DnsEligible(Port(80, "open", "http"))
  {
    DnsEligibleIff(Port(5353, "open", "DNS"));
    assert DnsAt("DNS", 0);
    DnsEligibleIff(Port(5353, "open", "Dns"));
    assert DnsAt("Dns", 0);
    DnsEligibleIff(Port(5353, "open", "mdns"));
    assert DnsAt("mdns", 1);
    DnsEligibleIff(Port(80, "open", "http"));
  }

  /** A scan request is issued for a port exactly when the port is one of the target's eligible ports. */
  lemma DnsRunsMembership(address: string, ports: seq<Port>, p: Port)
    ensures DnsRun(address, p) in DnsRuns(address, ports) <==> exists q :: q in ports && DnsEligible(q) && q.number == p.number
  {
    var eligible := Filter(DnsEligible, ports);
    var runs := DnsRuns(address, ports);
    if DnsRun(address, p) in runs {
      var k :| 0 <= k < |runs| && runs[k] == DnsRun(address, p);
      DnsArgsInjective(eligible[k].number, p.number);
      FilterMembership(DnsEligible, ports, eligible[k]);
    }
    if exists q :: q in ports && DnsEligible(q) && q.number == p.number {
      var q :| q in ports && DnsEligible(q) && q.number == p.number;
      FilterMembership(DnsEligible, ports, q);
      var k :| 0 <= k < |eligible| && eligible[k] == q;
      assert runs[k] == DnsRun(address, p);
    }
  }

  /** One request per eligible port and in port order: requests for a concatenation concatenate. */
  lemma DnsRunsOrder(address: string, a: seq<Port>, b: seq<Port>)
    ensures DnsRuns(address, a + b) == DnsRuns(address, a) + DnsRuns(address, b)
    ensures |DnsRuns(address, a)| == |Filter(DnsEligible, a)|
  {
    FilterAppend(DnsEligible, a, b);
    var ea, eb := Filter(DnsEligible, a), Filter(DnsEligible, b);
    var whole, parts := DnsRuns(address, a + b), DnsRuns(address, a) + DnsRuns(address, b);
    assert |whole| == |ea| + |eb| == |parts|;
    forall k | 0 <= k < |whole| ensures whole[k] == parts[k] {
      if k < |ea| {
        assert (ea + eb)[k] == ea[k];
      } else {
        assert (ea + eb)[k] == eb[k - |ea|];
      }
    }
  }

  /**
    Every request names and files its output after the target and scans UDP port 53 and its own
    port, written as `%d` writes it: an optional minus sign, then digits without a leading zero.
   */
  lemma DnsRunsShape(address: string, ports: seq<Port>)
    ensures var runs, eligible := DnsRuns(address, ports), Filter(DnsEligible, ports);
      forall k :: 0 <= k < |runs| ==>
        runs[k].name == runs[k].file == address + "_dns_nmap" &&
        runs[k].folder == "DNS" && runs[k].target == address &&
        runs[k].args == DnsArgsPrefix + IntToDecimal(eligible[k].number) &&
        DecimalForm(runs[k].args[|DnsArgsPrefix|..]) &&
        ParseInt(runs[k].args[|DnsArgsPrefix|..]) == eligible[k].number
  {
    var eligible := Filter(DnsEligible, ports);
    forall k | 0 <= k < |eligible|
      ensures DecimalForm(DnsArgs(eligible[k].number)[|DnsArgsPrefix|..])
      ensures ParseInt(DnsArgs(eligible[k].number)[|DnsArgsPrefix|..]) == eligible[k].number
    {
      IntToDecimalRoundTrip(eligible[k].number);
      IntToDecimalForm(eligible[k].number);
      assert DnsArgs(eligible[k].number)[|DnsArgsPrefix|..] == IntToDecimal(eligible[k].number);
    }
  }

  /** Distinct port numbers give distinct arguments: the port is recoverable from the request. */
  lemma DnsArgsInjective(m: int, n: int)
    requires DnsArgs(m) == DnsArgs(n)
    ensures m == n
  {
    assert DnsArgs(m)[|DnsArgsPrefix|..] == IntToDecimal(m);
    assert DnsArgs(n)[|DnsArgsPrefix|..] == IntToDecimal(n);
    IntToDecimalRoundTrip(m);
    IntToDecimalRoundTrip(n);
  }

  /** Port 53 is scanned with "-p53,53". */
  lemma DnsArgsPort53()
    ensures DnsArgs(53) == "-sV -Pn -sU -p53,53"
  {
    assert NatToDecimal(53) == NatToDecimal(5) + ['3'];
  }
}
