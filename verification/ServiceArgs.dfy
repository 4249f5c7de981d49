/** The controller's side of the argument language: a Service's ports become one forwarding rule
    per port and address family, printed as proxy flags. */
module ServiceArgs {
  import opened Api
  import opened Cluster
  import opened HostPort
  import opened Ordering
  import opened ProxyFlags
  import opened ProxyArgs
  import R = RoundRobin
  import T = Text

  function TargetText(p: ServicePort): string {
    if p.target == "" || p.target == "0" then T.Itoa(p.port) else p.target
  }

  function ProtocolOf(p: ServicePort): R.RuleProtocol {
    if p.protocol == UDP then R.UDP else R.TCP
  }

  function EndpointUpstream(e: Endpoint): string {
    JoinHostPort(e.host.text, T.Itoa(e.port))
  }

  /** Endpoints of one family, in the order given. */
  function OfFamily(endpoints: seq<Endpoint>, kind: IPKind): seq<string> {
    if endpoints == [] then []
    else
      var r, e := OfFamily(endpoints[..|endpoints| - 1], kind), endpoints[|endpoints| - 1];
      if SplitHostPort(EndpointUpstream(e)).Some? && e.host.kind == kind then r + [EndpointUpstream(e)] else r
  }

  function FamilyUpstreams(endpoints: seq<Endpoint>, kind: IPKind): seq<string> {
    Sort(T.StringLe, OfFamily(endpoints, kind))
  }

  method EndpointUpstreamsForFamily(endpoints: seq<Endpoint>, ipv6: bool) returns (out: seq<string>)
    ensures out == FamilyUpstreams(endpoints, if ipv6 then V6 else V4)
    ensures Ascending(T.StringLe, out)
  {
    out := [];
    var kind := if ipv6 then V6 else V4;
    for i := 0 to |endpoints|
      invariant out == OfFamily(endpoints[..i], kind)
    {
      assert endpoints[..i + 1][..i] == endpoints[..i];
      var text := EndpointUpstream(endpoints[i]);
      if SplitHostPort(text).None? { continue; }
      if endpoints[i].host.kind == NotIP { continue; }
      if (endpoints[i].host.kind == V6) == ipv6 { out := out + [text]; }
    }
    assert endpoints[..|endpoints|] == endpoints;
    T.StringOrder();
    SortAscends(T.StringLe, out);
    out := Sort(T.StringLe, out);
  }

  function Listed(endpoints: ServiceEndpoints, name: string): seq<Endpoint> {
    if name in endpoints then endpoints[name] else []
  }

  function Rule4(p: ServicePort, ip: string, endpoints: ServiceEndpoints): R.Spec {
    R.Spec("0.0.0.0:" + T.Itoa(p.port), ip + ":" + TargetText(p), ProtocolOf(p),
           FamilyUpstreams(Listed(endpoints, p.name), V4))
  }

  function Rule6(p: ServicePort, ip: string, endpoints: ServiceEndpoints): R.Spec {
    R.Spec("[::]:" + T.Itoa(p.port), "[" + ip + "]:" + TargetText(p), ProtocolOf(p),
           FamilyUpstreams(Listed(endpoints, p.name), V6))
  }

  /** The rules of one port: one per address family the Service has. */
  function PortRules(p: ServicePort, v4: string, v6: string, endpoints: ServiceEndpoints): seq<R.Spec> {
    (if v4 == "" then [] else [Rule4(p, v4, endpoints)]) + (if v6 == "" then [] else [Rule6(p, v6, endpoints)])
  }

  function Rules(ports: seq<ServicePort>, v4: string, v6: string, endpoints: ServiceEndpoints): seq<R.Spec> {
    if ports == [] then []
    else PortRules(ports[0], v4, v6, endpoints) + Rules(ports[1..], v4, v6, endpoints)
  }

  function ServiceRules(svc: Service, endpoints: ServiceEndpoints): seq<R.Spec> {
    Rules(svc.ports, FirstOf(Candidates(svc), V4), FirstOf(Candidates(svc), V6), endpoints)
  }

  lemma {:induction false} PrintConcat(a: seq<R.Spec>, b: seq<R.Spec>)
    ensures Print(a + b) == Print(a) + Print(b)
  {
    if a == [] {
      assert a + b == b;
    } else {
      assert (a + b)[1..] == a[1..] + b;
      PrintConcat(a[1..], b);
    }
  }

  method AppendRule(args: seq<string>, s: R.Spec) returns (out: seq<string>)
    ensures out == args + Print([s])
  {
    out := args + ["--" + FlagName(s.protocol) + "=" + s.listen + "=" + s.upstream];
    if |s.endpoints| != 0 {
      out := out + ["--endpoint=" + s.listen + "=" + T.Join(s.endpoints, ',')];
    }
    assert Print([s]) == PrintSpec(s);
    assert "--" + FlagName(s.protocol) + "=" + PairText(s) == "--" + FlagName(s.protocol) + "=" + s.listen + "=" + s.upstream;
    assert "--endpoint=" + EndpointText(s) == "--endpoint=" + s.listen + "=" + T.Join(s.endpoints, ',');
  }

  /** One port's flags: the IPv4 rule, then the IPv6 rule. */
  method AppendPort(args: seq<string>, p: ServicePort, v4: string, v6: string, endpoints: ServiceEndpoints)
    returns (out: seq<string>)
    ensures out == args + Print(PortRules(p, v4, v6, endpoints))
  {
    out := args;
    ghost var first, second := [], [];
    if v4 != "" {
      var upstreams := EndpointUpstreamsForFamily(Listed(endpoints, p.name), false);
      out := AppendRule(out, R.Spec("0.0.0.0:" + T.Itoa(p.port), v4 + ":" + TargetText(p), ProtocolOf(p), upstreams));
      first := [Rule4(p, v4, endpoints)];
    }
    assert out == args + Print(first);
    if v6 != "" {
      var upstreams := EndpointUpstreamsForFamily(Listed(endpoints, p.name), true);
      out := AppendRule(out, R.Spec("[::]:" + T.Itoa(p.port), "[" + v6 + "]:" + TargetText(p), ProtocolOf(p), upstreams));
      second := [Rule6(p, v6, endpoints)];
    }
    assert out == args + Print(first) + Print(second);
    PrintConcat(first, second);
  }

  lemma {:induction false} RulesConcat(a: seq<ServicePort>, b: seq<ServicePort>, v4: string, v6: string, endpoints: ServiceEndpoints)
    ensures Rules(a + b, v4, v6, endpoints) == Rules(a, v4, v6, endpoints) + Rules(b, v4, v6, endpoints)
  {
    if a == [] {
      assert a + b == b;
    } else {
      assert (a + b)[0] == a[0] && (a + b)[1..] == a[1..] + b;
      RulesConcat(a[1..], b, v4, v6, endpoints);
    }
  }

  /** goal[i] holds the flags of the first i ports. */
  ghost predicate Step(goal: seq<seq<string>>, ports: seq<ServicePort>, i: nat, v4: string, v6: string, endpoints: ServiceEndpoints)
    requires i < |ports| == |goal| - 1
  {
    goal[i + 1] == goal[i] + Print(PortRules(ports[i], v4, v6, endpoints))
  }

  ghost predicate Steps(goal: seq<seq<string>>, ports: seq<ServicePort>, v4: string, v6: string, endpoints: ServiceEndpoints) {
    && |goal| == |ports| + 1 && goal[0] == []
    && forall i :: 0 <= i < |ports| ==> Step(goal, ports, i, v4, v6, endpoints)
  }

  ghost function Prefixes(ports: seq<ServicePort>, v4: string, v6: string, endpoints: ServiceEndpoints): seq<seq<string>> {
    seq(|ports| + 1, i requires 0 <= i <= |ports| => Print(Rules(ports[..i], v4, v6, endpoints)))
  }

  lemma PrefixStep(ports: seq<ServicePort>, i: nat, v4: string, v6: string, endpoints: ServiceEndpoints)
    requires i < |ports|
    ensures Step(Prefixes(ports, v4, v6, endpoints), ports, i, v4, v6, endpoints)
  {
    assert ports[..i + 1] == ports[..i] + [ports[i]];
    RulesConcat(ports[..i], [ports[i]], v4, v6, endpoints);
    assert Rules([ports[i]], v4, v6, endpoints) == PortRules(ports[i], v4, v6, endpoints);
    PrintConcat(Rules(ports[..i], v4, v6, endpoints), PortRules(ports[i], v4, v6, endpoints));
  }

  lemma PrefixesStep(ports: seq<ServicePort>, v4: string, v6: string, endpoints: ServiceEndpoints)
    ensures Steps(Prefixes(ports, v4, v6, endpoints), ports, v4, v6, endpoints)
    ensures Prefixes(ports, v4, v6, endpoints)[|ports|] == Print(Rules(ports, v4, v6, endpoints))
  {
    assert ports[..0] == [] && ports[..|ports|] == ports;
    forall i | 0 <= i < |ports| ensures Step(Prefixes(ports, v4, v6, endpoints), ports, i, v4, v6, endpoints) {
      PrefixStep(ports, i, v4, v6, endpoints);
    }
  }

  predicate Supported(ports: seq<ServicePort>) {
    forall i :: 0 <= i < |ports| ==> ports[i].protocol != SCTP
  }

  method PrintPort(ports: seq<ServicePort>, i: nat, v4: string, v6: string, endpoints: ServiceEndpoints,
                   args: seq<string>, ghost goal: seq<seq<string>>)
    returns (r: Result<seq<string>>)
    requires Steps(goal, ports, v4, v6, endpoints) && i < |ports| && args == goal[i]
    ensures r == if ports[i].protocol == SCTP then Err else Ok(goal[i + 1])
  {
    if ports[i].protocol == SCTP { return Err; }
    var out := AppendPort(args, ports[i], v4, v6, endpoints);
    assert Step(goal, ports, i, v4, v6, endpoints);
    r := Ok(out);
  }

  method PrintPorts(ports: seq<ServicePort>, v4: string, v6: string, endpoints: ServiceEndpoints, ghost goal: seq<seq<string>>)
    returns (r: Result<seq<string>>)
    requires Steps(goal, ports, v4, v6, endpoints)
    ensures r == if Supported(ports) then Ok(goal[|ports|]) else Err
  {
    var args: seq<string> := [];
    for i := 0 to |ports|
      invariant args == goal[i]
      invariant forall j :: 0 <= j < i ==> ports[j].protocol != SCTP
    {
      r := PrintPort(ports, i, v4, v6, endpoints, args, goal);
      if r.Err? { return; }
      args := r.value;
    }
    r := Ok(args);
  }

  /** portsAndArgs without the container ports: an unsupported protocol is the only error. */
  method PortsAndArgs(svc: Service, endpoints: ServiceEndpoints) returns (r: Result<seq<string>>)
    ensures r == if Supported(svc.ports) then Ok(Print(ServiceRules(svc, endpoints))) else Err
  {
    var v4, v6 := SplitClusterIPs(svc);
    PrefixesStep(svc.ports, v4, v6, endpoints);
    r := PrintPorts(svc.ports, v4, v6, endpoints, Prefixes(svc.ports, v4, v6, endpoints));
  }

  // ---- every rule is printable ----

  /** What Kubernetes promises of the texts: dotted IPv4 addresses, unbracketed IPv6 ones, port
      names without address punctuation, endpoint addresses without spaces or commas. */
  ghost predicate CanonicalIPs(addresses: seq<Address>) {
    forall a :: a in addresses ==> (a.kind == V4 ==> Bare(a.text)) && (a.kind == V6 ==> Lacks(a.text, '[') && Lacks(a.text, ']'))
  }

  ghost predicate PlainText(s: string) {
    T.Free(s, T.IsSpace) && T.Free(s, T.IsComma)
  }

  ghost predicate PlainEndpoints(endpoints: ServiceEndpoints) {
    forall name :: name in endpoints ==> forall e :: e in endpoints[name] ==> PlainText(e.host.text)
  }

  ghost predicate PlainPorts(ports: seq<ServicePort>) {
    forall p :: p in ports ==> Bare(p.target)
  }

  ghost predicate DistinctNumbers(ports: seq<ServicePort>) {
    forall i, j :: 0 <= i < j < |ports| ==> ports[i].port != ports[j].port
  }

  lemma ItoaPlain(n: int)
    ensures Bare(T.Itoa(n)) && PlainText(T.Itoa(n)) && T.Itoa(n) != "" && Lacks(T.Itoa(n), '=')
  {
    var m: nat := if n < 0 then -n else n;
    T.DecimalDigits(m);
    var d := T.Decimal(m);
    forall i | 0 <= i < |d| ensures d[i] != ':' && d[i] != '[' && d[i] != ']' && d[i] != '=' && !T.IsSpace(d[i]) && !T.IsComma(d[i]) {
      assert T.IsDigit(d[i]);
    }
  }

  lemma {:induction false} FirstOfFacts(addresses: seq<Address>, kind: IPKind)
    ensures var t := FirstOf(addresses, kind);
            t != "" ==> exists a :: a in addresses && a.text == t && a.kind == kind
  {
    if addresses != [] {
      FirstOfFacts(addresses[1..], kind);
      assert addresses[0] in addresses;
    }
  }

  lemma {:induction false} OfFamilyFacts(endpoints: seq<Endpoint>, kind: IPKind)
    ensures forall t :: t in OfFamily(endpoints, kind) ==>
              SplitHostPort(t).Some? && exists e :: e in endpoints && e.host.kind == kind && t == EndpointUpstream(e)
  {
    if endpoints != [] {
      var front, last := endpoints[..|endpoints| - 1], endpoints[|endpoints| - 1];
      OfFamilyFacts(front, kind);
      assert last in endpoints;
      assert forall e :: e in front ==> e in endpoints;
    }
  }

  lemma UpstreamPlain(e: Endpoint)
    requires PlainText(e.host.text)
    ensures PlainText(EndpointUpstream(e)) && EndpointUpstream(e) != ""
  {
    ItoaPlain(e.port);
  }

  lemma FamilyGood(endpoints: ServiceEndpoints, name: string, kind: IPKind)
    requires PlainEndpoints(endpoints)
    ensures var u := FamilyUpstreams(Listed(endpoints, name), kind);
            forall i :: 0 <= i < |u| ==> GoodEndpoint(u[i])
  {
    var eps := Listed(endpoints, name);
    var u := FamilyUpstreams(eps, kind);
    OfFamilyFacts(eps, kind);
    SortPermutes(T.StringLe, OfFamily(eps, kind));
    forall i | 0 <= i < |u| ensures GoodEndpoint(u[i]) {
      assert u[i] in u;
      assert u[i] in OfFamily(eps, kind);
      var e :| e in eps && e.host.kind == kind && u[i] == EndpointUpstream(e);
      UpstreamPlain(e);
    }
  }

  lemma TargetBare(p: ServicePort)
    requires Bare(p.target)
    ensures Bare(TargetText(p))
  {
    ItoaPlain(p.port);
  }

  lemma AnyHost4()
    ensures Bare("0.0.0.0") && Lacks("0.0.0.0", '=') && "0.0.0.0" != "" && "0.0.0.0" + ":" == "0.0.0.0:"
  {
  }

  lemma HostGood(host: string, n: int)
    requires Bare(host) && Lacks(host, '=') && host != ""
    ensures Lacks(host + ":" + T.Itoa(n), '=') && SplitHostPort(host + ":" + T.Itoa(n)).Some?
  {
    ItoaPlain(n);
    SplitBare(host, T.Itoa(n));
  }

  lemma Listen4Good(n: int)
    ensures Lacks("0.0.0.0:" + T.Itoa(n), '=') && SplitHostPort("0.0.0.0:" + T.Itoa(n)).Some?
  {
    AnyHost4();
    HostGood("0.0.0.0", n);
  }

  lemma Listen6Good(n: int)
    ensures Lacks("[::]:" + T.Itoa(n), '=') && SplitHostPort("[::]:" + T.Itoa(n)).Some?
  {
    ItoaPlain(n);
    SplitBracketed("::", T.Itoa(n));
    assert "[" + "::" + "]:" + T.Itoa(n) == "[::]:" + T.Itoa(n);
  }

  lemma Rule4Good(p: ServicePort, ip: string, endpoints: ServiceEndpoints)
    requires ip != "" && Bare(ip) && Bare(p.target) && PlainEndpoints(endpoints)
    ensures Good(Rule4(p, ip, endpoints))
  {
    Listen4Good(p.port);
    TargetBare(p);
    SplitBare(ip, TargetText(p));
    FamilyGood(endpoints, p.name, V4);
  }

  lemma Rule6Good(p: ServicePort, ip: string, endpoints: ServiceEndpoints)
    requires ip != "" && Lacks(ip, '[') && Lacks(ip, ']') && Bare(p.target) && PlainEndpoints(endpoints)
    ensures Good(Rule6(p, ip, endpoints))
  {
    Listen6Good(p.port);
    TargetBare(p);
    SplitBracketed(ip, TargetText(p));
    FamilyGood(endpoints, p.name, V6);
  }

  /** s is the rule of port p for one of the Service's families. */
  ghost predicate RuleOf(s: R.Spec, p: ServicePort, v4: string, v6: string, endpoints: ServiceEndpoints) {
    (v4 != "" && s == Rule4(p, v4, endpoints)) || (v6 != "" && s == Rule6(p, v6, endpoints))
  }

  function Families(v4: string, v6: string): nat {
    (if v4 == "" then 0 else 1) + (if v6 == "" then 0 else 1)
  }

  lemma {:induction false} RulesSize(ports: seq<ServicePort>, v4: string, v6: string, endpoints: ServiceEndpoints)
    ensures |Rules(ports, v4, v6, endpoints)| == |ports| * Families(v4, v6)
  {
    if ports != [] {
      RulesSize(ports[1..], v4, v6, endpoints);
      PortRulesFacts(ports[0], v4, v6, endpoints);
      var n := |ports| - 1;
      assert (n + 1) * Families(v4, v6) == n * Families(v4, v6) + Families(v4, v6);
    }
  }

  lemma {:induction false} RulesMembers(ports: seq<ServicePort>, v4: string, v6: string, endpoints: ServiceEndpoints, s: R.Spec)
    ensures s in Rules(ports, v4, v6, endpoints) <==> exists p :: p in ports && RuleOf(s, p, v4, v6, endpoints)
  {
    if ports != [] {
      var p, rest := ports[0], ports[1..];
      RulesMembers(rest, v4, v6, endpoints, s);
      PortRulesFacts(p, v4, v6, endpoints);
      assert forall q :: q in ports <==> q == p || q in rest;
    }
  }

  /** One rule per port and family, and no others. */
  lemma RulesExact(ports: seq<ServicePort>, v4: string, v6: string, endpoints: ServiceEndpoints)
    ensures |Rules(ports, v4, v6, endpoints)| == |ports| * Families(v4, v6)
    ensures forall s :: s in Rules(ports, v4, v6, endpoints) <==> exists p :: p in ports && RuleOf(s, p, v4, v6, endpoints)
  {
    RulesSize(ports, v4, v6, endpoints);
    forall s ensures s in Rules(ports, v4, v6, endpoints) <==> exists p :: p in ports && RuleOf(s, p, v4, v6, endpoints) {
      RulesMembers(ports, v4, v6, endpoints, s);
    }
  }

  lemma ListensDiffer(m: int, n: int)
    ensures "0.0.0.0:" + T.Itoa(m) != "[::]:" + T.Itoa(n)
    ensures m != n ==> "0.0.0.0:" + T.Itoa(m) != "0.0.0.0:" + T.Itoa(n)
    ensures m != n ==> "[::]:" + T.Itoa(m) != "[::]:" + T.Itoa(n)
  {
    var a, b := "0.0.0.0:" + T.Itoa(m), "[::]:" + T.Itoa(n);
    assert a[0] == '0' && b[0] == '[';
    if m != n {
      if T.Itoa(m) == T.Itoa(n) { T.ItoaInjective(m, n); }
      var c, d := "0.0.0.0:" + T.Itoa(n), "[::]:" + T.Itoa(m);
      assert a[8..] == T.Itoa(m) && c[8..] == T.Itoa(n);
      assert b[5..] == T.Itoa(n) && d[5..] == T.Itoa(m);
    }
  }

  lemma PortsApart(p: ServicePort, q: ServicePort, s: R.Spec, t: R.Spec, v4: string, v6: string, endpoints: ServiceEndpoints)
    requires p.port != q.port && RuleOf(s, p, v4, v6, endpoints) && RuleOf(t, q, v4, v6, endpoints)
    ensures s.listen != t.listen
  {
    ListensDiffer(p.port, q.port);
    ListensDiffer(q.port, p.port);
  }

  lemma PortRulesFacts(p: ServicePort, v4: string, v6: string, endpoints: ServiceEndpoints)
    ensures DistinctListens(PortRules(p, v4, v6, endpoints))
    ensures |PortRules(p, v4, v6, endpoints)| == Families(v4, v6)
    ensures forall s :: s in PortRules(p, v4, v6, endpoints) <==> RuleOf(s, p, v4, v6, endpoints)
  {
    ListensDiffer(p.port, p.port);
  }

  lemma {:induction false} RulesDistinct(ports: seq<ServicePort>, v4: string, v6: string, endpoints: ServiceEndpoints)
    requires DistinctNumbers(ports)
    ensures DistinctListens(Rules(ports, v4, v6, endpoints))
  {
    if ports != [] {
      var p, rest := ports[0], ports[1..];
      var here, there := PortRules(p, v4, v6, endpoints), Rules(rest, v4, v6, endpoints);
      RulesDistinct(rest, v4, v6, endpoints);
      RulesExact(rest, v4, v6, endpoints);
      PortRulesFacts(p, v4, v6, endpoints);
      forall s, t | s in here && t in there ensures s.listen != t.listen {
        var q :| q in rest && RuleOf(t, q, v4, v6, endpoints);
        PortsApart(p, q, s, t, v4, v6, endpoints);
      }
      DistinctConcat(here, there);
    }
  }

  lemma DistinctConcat(a: seq<R.Spec>, b: seq<R.Spec>)
    requires DistinctListens(a) && DistinctListens(b)
    requires forall s, t :: s in a && t in b ==> s.listen != t.listen
    ensures DistinctListens(a + b)
  {
    forall i, j | 0 <= i < j < |a + b| ensures (a + b)[i].listen != (a + b)[j].listen {
      if i < |a| <= j { assert a[i] in a && b[j - |a|] in b; }
    }
  }

  lemma RulesGood(svc: Service, endpoints: ServiceEndpoints)
    requires CanonicalIPs(Candidates(svc)) && PlainPorts(svc.ports) && PlainEndpoints(endpoints)
    ensures AllGood(ServiceRules(svc, endpoints))
  {
    var v4, v6 := FirstOf(Candidates(svc), V4), FirstOf(Candidates(svc), V6);
    FirstOfFacts(Candidates(svc), V4);
    FirstOfFacts(Candidates(svc), V6);
    RulesExact(svc.ports, v4, v6, endpoints);
    forall s | s in ServiceRules(svc, endpoints) ensures Good(s) {
      var p :| p in svc.ports && RuleOf(s, p, v4, v6, endpoints);
      if v4 != "" && s == Rule4(p, v4, endpoints) {
        Rule4Good(p, v4, endpoints);
      } else {
        Rule6Good(p, v6, endpoints);
      }
    }
  }

  // ---- the whole command line ----

  const DRAIN := "drain-timeout"
  const HEALTH := "health-bind-address"

  /** The container's arguments after the subcommand name. */
  function CommandLine(svc: Service, endpoints: ServiceEndpoints): seq<string> {
    ["--" + DRAIN + "=" + "30s", "--" + HEALTH + "=" + ":8081"] + Print(ServiceRules(svc, endpoints))
  }

  lemma OtherFlag(name: string, value: string, rest: seq<string>, f: Flags)
    requires name == DRAIN || name == HEALTH
    ensures ParseFlags(["--" + name + "=" + value] + rest, f) == ParseFlags(rest, f)
  {
    assert OTHER_FLAGS[0] == DRAIN && OTHER_FLAGS[2] == HEALTH;
    assert name in OTHER_FLAGS;
    assert name[0] != 'u' && name[0] != 'e';
    assert "upstream"[0] == 'u' && "udp-upstream"[0] == 'u' && "endpoint"[0] == 'e';
    FlagStep(name, value, rest, f);
  }

  lemma PrefixFlags(args: seq<string>)
    ensures ParseArgs(["--" + DRAIN + "=" + "30s", "--" + HEALTH + "=" + ":8081"] + args) == ParseArgs(args)
  {
    var a, b := "--" + DRAIN + "=" + "30s", "--" + HEALTH + "=" + ":8081";
    var f := Flags([], [], []);
    assert [a, b] + args == [a] + ([b] + args);
    OtherFlag(DRAIN, "30s", [b] + args, f);
    OtherFlag(HEALTH, ":8081", args, f);
  }

  lemma {:induction false} OnlyPermutes(specs: seq<R.Spec>)
    requires forall s :: s in specs ==> s.protocol != R.Unset
    ensures multiset(Only(specs, R.TCP) + Only(specs, R.UDP)) == multiset(specs)
  {
    if specs != [] {
      OnlyPermutes(specs[1..]);
      assert specs == [specs[0]] + specs[1..];
      assert specs[0] in specs;
    }
  }

  /** The proxy started with the arguments the controller prints forwards exactly one rule per
      port and address family of the Service, each with its own listen address, upstream,
      protocol and endpoints. */
  lemma ArgumentRoundTrip(svc: Service, endpoints: ServiceEndpoints)
    requires svc.ports != [] && DistinctNumbers(svc.ports)
    requires FirstOf(Candidates(svc), V4) != "" || FirstOf(Candidates(svc), V6) != ""
    requires CanonicalIPs(Candidates(svc)) && PlainPorts(svc.ports) && PlainEndpoints(endpoints)
    ensures var r := ParseArgs(CommandLine(svc, endpoints));
            var v4, v6 := FirstOf(Candidates(svc), V4), FirstOf(Candidates(svc), V6);
            && r.Ok? && multiset(r.value) == multiset(ServiceRules(svc, endpoints))
            && |r.value| == |svc.ports| * Families(v4, v6)
            && (forall s :: s in r.value <==> exists p :: p in svc.ports && RuleOf(s, p, v4, v6, endpoints))
  {
    var rules := ServiceRules(svc, endpoints);
    var v4, v6 := FirstOf(Candidates(svc), V4), FirstOf(Candidates(svc), V6);
    RulesExact(svc.ports, v4, v6, endpoints);
    RulesDistinct(svc.ports, v4, v6, endpoints);
    RulesGood(svc, endpoints);
    SomeRule(svc.ports, v4, v6, endpoints);
    PrefixFlags(Print(rules));
    PrintRoundTrip(rules);
    OnlyPermutes(rules);
    var r := Only(rules, R.TCP) + Only(rules, R.UDP);
    assert |r| == |multiset(r)|;
    assert forall s :: s in r <==> s in multiset(r);
    assert forall s :: s in rules <==> s in multiset(rules);
  }

  lemma SomeRule(ports: seq<ServicePort>, v4: string, v6: string, endpoints: ServiceEndpoints)
    requires ports != [] && (v4 != "" || v6 != "")
    ensures Rules(ports, v4, v6, endpoints) != []
  {
  }

  /** The endpoints of a rule are its family's addresses, ascending. */
  lemma FamilyExact(endpoints: seq<Endpoint>, kind: IPKind)
    requires forall e :: e in endpoints ==> Canonical(e.host.text)
    ensures Ascending(T.StringLe, FamilyUpstreams(endpoints, kind))
    ensures forall t :: t in FamilyUpstreams(endpoints, kind)
              <==> exists e :: e in endpoints && e.host.kind == kind && t == EndpointUpstream(e)
  {
    T.StringOrder();
    SortAscends(T.StringLe, OfFamily(endpoints, kind));
    SortPermutes(T.StringLe, OfFamily(endpoints, kind));
    OfFamilyFacts(endpoints, kind);
    forall e | e in endpoints && e.host.kind == kind ensures EndpointUpstream(e) in OfFamily(endpoints, kind) {
      OfFamilyHas(endpoints, kind, e);
    }
  }

  lemma {:induction false} OfFamilyHas(endpoints: seq<Endpoint>, kind: IPKind, e: Endpoint)
    requires e in endpoints && e.host.kind == kind && Canonical(e.host.text)
    ensures EndpointUpstream(e) in OfFamily(endpoints, kind)
  {
    var front, last := endpoints[..|endpoints| - 1], endpoints[|endpoints| - 1];
    if e == last {
      ItoaPlain(e.port);
      SplitJoin(e.host.text, T.Itoa(e.port));
    } else {
      OfFamilyHas(front, kind, e);
    }
  }

  // ---- the rules as the Service intends them ----

  /** The rule that a Service with address ip asks for on one port and family: protocol as declared,
      the port on every address of the family, forwarding to the target port or, without one, to the
      same number, and the family's ready endpoints in ascending order. */
  ghost predicate Intended(x: R.Spec, p: ServicePort, kind: IPKind, ip: string, ready: seq<Endpoint>) {
    var target := if p.target == "" || p.target == "0" then T.Itoa(p.port) else p.target;
    && (if p.protocol == UDP then x.protocol == R.UDP else x.protocol == R.TCP)
    && x.listen == (if kind == V6 then "[::]:" + T.Itoa(p.port) else "0.0.0.0:" + T.Itoa(p.port))
    && x.upstream == (if kind == V6 then "[" + ip + "]:" + target else ip + ":" + target)
    && Ascending(T.StringLe, x.endpoints)
    && (forall t :: t in x.endpoints
          <==> exists e :: e in ready && e.host.kind == kind && t == JoinHostPort(e.host.text, T.Itoa(e.port)))
  }

  /** Exactly one of the rules is the intended one. */
  ghost predicate OneIntended(rules: seq<R.Spec>, p: ServicePort, kind: IPKind, ip: string, ready: seq<Endpoint>) {
    exists i :: 0 <= i < |rules| && Intended(rules[i], p, kind, ip, ready)
                && forall j :: 0 <= j < |rules| && Intended(rules[j], p, kind, ip, ready) ==> j == i
  }

  ghost predicate CanonicalHosts(endpoints: ServiceEndpoints) {
    forall name :: name in endpoints ==> forall e :: e in endpoints[name] ==> Canonical(e.host.text)
  }

  ghost function Ready(endpoints: ServiceEndpoints, p: ServicePort): seq<Endpoint> {
    if p.name in endpoints then endpoints[p.name] else []
  }

  lemma Rule4Intended(p: ServicePort, ip: string, endpoints: ServiceEndpoints)
    requires CanonicalHosts(endpoints)
    ensures Intended(Rule4(p, ip, endpoints), p, V4, ip, Ready(endpoints, p))
  {
    FamilyExact(Ready(endpoints, p), V4);
  }

  lemma Rule6Intended(p: ServicePort, ip: string, endpoints: ServiceEndpoints)
    requires CanonicalHosts(endpoints)
    ensures Intended(Rule6(p, ip, endpoints), p, V6, ip, Ready(endpoints, p))
  {
    FamilyExact(Ready(endpoints, p), V6);
  }

  lemma {:induction false} OnlyDistinct(specs: seq<R.Spec>, p: R.RuleProtocol)
    requires DistinctListens(specs)
    ensures DistinctListens(Only(specs, p))
  {
    if specs != [] {
      var rest := specs[1..];
      OnlyDistinct(rest, p);
      OnlyFacts(rest, p);
      forall t | t in Only(rest, p) ensures t.listen != specs[0].listen {
        var j :| 0 <= j < |rest| && rest[j] == t;
        assert specs[j + 1] == t;
      }
      if specs[0].protocol == p { DistinctConcat([specs[0]], Only(rest, p)); }
    }
  }

  lemma ListenTells(specs: seq<R.Spec>, s: R.Spec, t: R.Spec)
    requires DistinctListens(specs) && s in specs && t in specs && s.listen == t.listen
    ensures s == t
  {
    var i :| 0 <= i < |specs| && specs[i] == s;
    var j :| 0 <= j < |specs| && specs[j] == t;
    assert i == j;
  }

  lemma BothDistinct(specs: seq<R.Spec>)
    requires DistinctListens(specs)
    ensures DistinctListens(Only(specs, R.TCP) + Only(specs, R.UDP))
  {
    OnlyDistinct(specs, R.TCP);
    OnlyDistinct(specs, R.UDP);
    OnlyFacts(specs, R.TCP);
    OnlyFacts(specs, R.UDP);
    forall s, t | s in Only(specs, R.TCP) && t in Only(specs, R.UDP) ensures s.listen != t.listen {
      if s.listen == t.listen { ListenTells(specs, s, t); }
    }
    DistinctConcat(Only(specs, R.TCP), Only(specs, R.UDP));
  }

  lemma OneOf(rules: seq<R.Spec>, x: R.Spec, p: ServicePort, kind: IPKind, ip: string, ready: seq<Endpoint>)
    requires DistinctListens(rules) && x in rules && Intended(x, p, kind, ip, ready)
    ensures OneIntended(rules, p, kind, ip, ready)
  {
    var i :| 0 <= i < |rules| && rules[i] == x;
    forall j | 0 <= j < |rules| && Intended(rules[j], p, kind, ip, ready) ensures j == i {
      assert rules[i].listen == rules[j].listen;
    }
  }

  lemma ParsedDistinct(svc: Service, endpoints: ServiceEndpoints)
    requires svc.ports != [] && DistinctNumbers(svc.ports)
    requires FirstOf(Candidates(svc), V4) != "" || FirstOf(Candidates(svc), V6) != ""
    requires CanonicalIPs(Candidates(svc)) && PlainPorts(svc.ports) && PlainEndpoints(endpoints)
    ensures var r := ParseArgs(CommandLine(svc, endpoints)); r.Ok? && DistinctListens(r.value)
  {
    var rules := ServiceRules(svc, endpoints);
    RulesDistinct(svc.ports, FirstOf(Candidates(svc), V4), FirstOf(Candidates(svc), V6), endpoints);
    RulesGood(svc, endpoints);
    SomeRule(svc.ports, FirstOf(Candidates(svc), V4), FirstOf(Candidates(svc), V6), endpoints);
    PrefixFlags(Print(rules));
    PrintRoundTrip(rules);
    BothDistinct(rules);
  }

  /** What the proxy forwards when started with the printed arguments: for every port and every family
      the Service has an address of, exactly one rule, as intended; and no other rules. */
  lemma ForwardsAsIntended(svc: Service, endpoints: ServiceEndpoints, v4: string, v6: string)
    requires svc.ports != [] && DistinctNumbers(svc.ports)
    requires LeastUsable(Addresses(svc), V4, v4) && LeastUsable(Addresses(svc), V6, v6) && (v4 != "" || v6 != "")
    requires CanonicalIPs(Addresses(svc)) && PlainPorts(svc.ports) && PlainEndpoints(endpoints) && CanonicalHosts(endpoints)
    ensures var r := ParseArgs(CommandLine(svc, endpoints));
            && r.Ok? && |r.value| == |svc.ports| * ((if v4 == "" then 0 else 1) + (if v6 == "" then 0 else 1))
            && (forall p :: p in svc.ports && v4 != "" ==> OneIntended(r.value, p, V4, v4, Ready(endpoints, p)))
            && (forall p :: p in svc.ports && v6 != "" ==> OneIntended(r.value, p, V6, v6, Ready(endpoints, p)))
  {
    CandidatesLeast(svc, V4);
    CandidatesLeast(svc, V6);
    LeastUnique(Addresses(svc), V4, v4, FirstOf(Candidates(svc), V4));
    LeastUnique(Addresses(svc), V6, v6, FirstOf(Candidates(svc), V6));
    ArgumentRoundTrip(svc, endpoints);
    ParsedDistinct(svc, endpoints);
    var r := ParseArgs(CommandLine(svc, endpoints)).value;
    forall p | p in svc.ports && v4 != "" ensures OneIntended(r, p, V4, v4, Ready(endpoints, p)) {
      assert RuleOf(Rule4(p, v4, endpoints), p, v4, v6, endpoints);
      Rule4Intended(p, v4, endpoints);
      OneOf(r, Rule4(p, v4, endpoints), p, V4, v4, Ready(endpoints, p));
    }
    forall p | p in svc.ports && v6 != "" ensures OneIntended(r, p, V6, v6, Ready(endpoints, p)) {
      assert RuleOf(Rule6(p, v6, endpoints), p, v4, v6, endpoints);
      Rule6Intended(p, v6, endpoints);
      OneOf(r, Rule6(p, v6, endpoints), p, V6, v6, Ready(endpoints, p));
    }
  }

  /** The texts themselves. */
  lemma PrintedText(s: R.Spec)
    requires s.protocol != R.Unset
    ensures PrintSpec(s)[0] == (if s.protocol == R.UDP then "--udp-upstream=" else "--upstream=") + s.listen + "=" + s.upstream
    ensures s.endpoints != [] ==> PrintSpec(s) == [PrintSpec(s)[0], "--endpoint=" + s.listen + "=" + T.Join(s.endpoints, ',')]
    ensures s.endpoints == [] ==> |PrintSpec(s)| == 1
  {
    var flag := if s.protocol == R.UDP then "--udp-upstream=" else "--upstream=";
    assert "--" + FlagName(s.protocol) + "=" == flag;
    assert "--" + FlagName(s.protocol) + "=" + PairText(s) == flag + s.listen + "=" + s.upstream;
    assert "--endpoint=" + EndpointText(s) == "--endpoint=" + s.listen + "=" + T.Join(s.endpoints, ',');
  }

  lemma PrefixText(svc: Service, endpoints: ServiceEndpoints)
    ensures var args := CommandLine(svc, endpoints);
            |args| >= 2 && args[0] == "--drain-timeout=30s" && args[1] == "--health-bind-address=:8081"
  {
    var a, b := "--" + DRAIN + "=" + "30s", "--" + HEALTH + "=" + ":8081";
    assert a == "--drain-timeout=30s" && b == "--health-bind-address=:8081";
    assert CommandLine(svc, endpoints)[..2] == [a, b];
  }
}
