/** The Kubernetes objects the controller reads: Services, Nodes and Endpoints. */
module Cluster {
  import opened Api
  import opened Wrappers

  /** What net.ParseIP says about a text, IPv4-mapped addresses counting as V4. */
  datatype IPKind = NotIP | V4 | V6

  datatype Address = Address(text: string, kind: IPKind)

  datatype Endpoint = Endpoint(host: Address, port: int)

  /** Ready endpoints by Service port name. */
  type ServiceEndpoints = map<string, seq<Endpoint>>

  /** `target` is what TargetPort prints: a number, a name, or nothing. */
  datatype ServicePort = ServicePort(name: string, port: int, protocol: Protocol, target: string)

  type Labels = map<string, string>

  /** The node annotation: absent, not a selector, or a predicate on node labels. */
  datatype Selector = Everywhere | Unparsable | Matching(matches: Labels -> bool)

  datatype ServiceId = ServiceId(ns: string, name: string)

  datatype Service = Service(
    loadBalancer: bool, lbClass: Option<string>, selector: Selector,
    allowPrivileged: bool, local: bool, keep: bool,
    clusterIP: Address, clusterIPs: seq<Address>, ports: seq<ServicePort>)

  datatype Node = Node(schedulable: bool, labels: Labels)

  /** What users and Kubernetes decide; the controller only reads it. */
  datatype Inputs = Inputs(
    services: map<ServiceId, Service>, nodes: map<string, Node>, endpoints: map<ServiceId, ServiceEndpoints>)

  const LB_CLASS := "bulb"

  /** Whether the Service asks bulb for a load balancer. */
  predicate ServiceMatches(svc: Service) {
    svc.loadBalancer && (svc.lbClass.None? || svc.lbClass.value == "" || svc.lbClass.value == LB_CLASS)
  }

  const NO_IP := "None"

  /** The usable ClusterIPs: the dual-stack list, or the single field when that list is empty. */
  function Candidates(svc: Service): seq<Address> {
    if svc.clusterIPs == [] && svc.clusterIP.text != "" then [svc.clusterIP] else svc.clusterIPs
  }

  /** The first address of a kind, or "". */
  function FirstOf(addresses: seq<Address>, kind: IPKind): string {
    if addresses == [] then ""
    else if addresses[0].text != "" && addresses[0].text != NO_IP && addresses[0].kind == kind then addresses[0].text
    else FirstOf(addresses[1..], kind)
  }

  /** The address can serve the family. */
  predicate Usable(a: Address, kind: IPKind) {
    a.kind == kind && a.text != "" && a.text != "None"
  }

  ghost predicate LeastAt(addresses: seq<Address>, kind: IPKind, i: int) {
    0 <= i < |addresses| && Usable(addresses[i], kind) && forall j :: 0 <= j < i ==> !Usable(addresses[j], kind)
  }

  /** t is the text at the least usable index, or "" when none is usable. */
  ghost predicate LeastUsable(addresses: seq<Address>, kind: IPKind, t: string) {
    || (exists i :: LeastAt(addresses, kind, i) && addresses[i].text == t)
    || (t == "" && forall i :: 0 <= i < |addresses| ==> !Usable(addresses[i], kind))
  }

  /** The dual-stack list whenever there is one, else the single address. */
  function Addresses(svc: Service): seq<Address> {
    if svc.clusterIPs != [] then svc.clusterIPs else [svc.clusterIP]
  }

  lemma {:induction false} FirstOfLeast(addresses: seq<Address>, kind: IPKind)
    ensures LeastUsable(addresses, kind, FirstOf(addresses, kind))
  {
    if addresses != [] {
      var rest := addresses[1..];
      FirstOfLeast(rest, kind);
      if Usable(addresses[0], kind) {
        assert LeastAt(addresses, kind, 0);
      } else if i :| LeastAt(rest, kind, i) && rest[i].text == FirstOf(rest, kind) {
        assert addresses[i + 1] == rest[i];
        forall j | 0 <= j < i + 1 ensures !Usable(addresses[j], kind) { assert j > 0 ==> addresses[j] == rest[j - 1]; }
        assert LeastAt(addresses, kind, i + 1);
      } else {
        forall j | 0 <= j < |addresses| ensures !Usable(addresses[j], kind) { assert j > 0 ==> addresses[j] == rest[j - 1]; }
      }
    }
  }

  lemma CandidatesLeast(svc: Service, kind: IPKind)
    ensures LeastUsable(Addresses(svc), kind, FirstOf(Candidates(svc), kind))
  {
    FirstOfLeast(Candidates(svc), kind);
  }

  lemma LeastUnique(addresses: seq<Address>, kind: IPKind, t: string, u: string)
    requires LeastUsable(addresses, kind, t) && LeastUsable(addresses, kind, u)
    ensures t == u
  {
    if i :| LeastAt(addresses, kind, i) && addresses[i].text == t {
      if j :| LeastAt(addresses, kind, j) && addresses[j].text == u {
        assert i == j;
      }
    }
  }

  method SplitClusterIPs(svc: Service) returns (v4: string, v6: string)
    ensures v4 == FirstOf(Candidates(svc), V4) && v6 == FirstOf(Candidates(svc), V6)
    ensures LeastUsable(Addresses(svc), V4, v4) && LeastUsable(Addresses(svc), V6, v6)
  {
    CandidatesLeast(svc, V4);
    CandidatesLeast(svc, V6);
    var candidates := Candidates(svc);
    v4, v6 := "", "";
    for i := 0 to |candidates|
      invariant FirstOf(candidates, V4) == if v4 != "" then v4 else FirstOf(candidates[i..], V4)
      invariant FirstOf(candidates, V6) == if v6 != "" then v6 else FirstOf(candidates[i..], V6)
    {
      var raw := candidates[i];
      assert candidates[i..][0] == raw && candidates[i..][1..] == candidates[i + 1..];
      if raw.text == "" || raw.text == NO_IP { continue; }
      if raw.kind == NotIP { continue; }
      if raw.kind == V4 {
        if v4 == "" { v4 := raw.text; }
      } else {
        if v6 == "" { v6 := raw.text; }
      }
    }
  }
}
