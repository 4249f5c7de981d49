/** The controller together with a node's firewall agent and with the proxy: what is open on a node
    is one Service's, and what a Reconciled Service asks for is open and forwarded. */
module EndToEnd {
  import opened Api
  import opened Cluster
  import opened Conflicts
  import opened Naming
  import opened Ports
  import opened Store
  import opened Passes
  import opened ControllerRuns
  import opened Wrappers
  import A = ServiceArgs
  import E = Exposure
  import F = ProxyFlags
  import W = FirewalldRuns

  /** The agent's listing of the stored LBPorts, in any order. */
  ghost predicate Enumerates(list: seq<LBPort>, lbports: map<string, LBPort>) {
    && (forall p :: p in list ==> exists n :: n in lbports && lbports[n] == p)
    && (forall n :: n in lbports ==> lbports[n] in list)
  }

  /** The LBPort of this name opens the port on the node. */
  ghost predicate Claims(lbports: map<string, LBPort>, n: string, node: string, k: PortKey) {
    n in lbports && AppliesToNode(lbports[n].spec.nodes, node) && E.KeyOf(lbports[n]) == k
  }

  /** Every LBPort is a settled Service's. */
  ghost predicate AllSettled(lbports: map<string, LBPort>, settled: set<ServiceId>) {
    forall n :: n in lbports ==> exists id :: id in settled && CarriedAt(lbports, id, n).Some?
  }

  lemma NamedClaims(list: seq<LBPort>, lbports: map<string, LBPort>, node: string, k: PortKey)
    requires Enumerates(list, lbports)
    ensures E.Named(list, node, k) <==> exists n :: Claims(lbports, n, node, k)
  {
    if E.Named(list, node, k) {
      var i :| 0 <= i < |list| && AppliesToNode(list[i].spec.nodes, node) && E.KeyOf(list[i]) == k;
      assert list[i] in list;
      var n :| n in lbports && lbports[n] == list[i];
      assert Claims(lbports, n, node, k);
    }
    if n :| Claims(lbports, n, node, k) {
      var i :| 0 <= i < |list| && list[i] == lbports[n];
      assert AppliesToNode(list[i].spec.nodes, node) && E.KeyOf(list[i]) == k;
    }
  }

  lemma ClaimsSameKey(lbports: map<string, LBPort>, list: seq<LBPort>, m: string, n: string, node: string, k: PortKey)
    requires Enumerates(list, lbports) && E.Admitted(list) && Claims(lbports, m, node, k) && Claims(lbports, n, node, k)
    ensures SameKey(lbports[m], lbports[n])
  {
    var i :| 0 <= i < |list| && list[i] == lbports[m];
    var j :| 0 <= j < |list| && list[j] == lbports[n];
    assert list[i].spec.protocol != SCTP && list[j].spec.protocol != SCTP;
  }

  lemma ClaimUnique(stores: seq<Store>, events: seq<Event>, ids: set<ServiceId>, list: seq<LBPort>,
                    m: string, n: string, node: string, k: PortKey)
    requires Run(stores, events) && Fair(stores, events, ids) && NodesNamed(stores[|events|].inputs)
    requires AllSettled(stores[|events|].lbports, Settled(events))
    requires Enumerates(list, stores[|events|].lbports) && E.Admitted(list)
    requires Claims(stores[|events|].lbports, m, node, k) && Claims(stores[|events|].lbports, n, node, k)
    ensures m == n
  {
    var lbports := stores[|events|].lbports;
    if m != n {
      var a :| a in Settled(events) && CarriedAt(lbports, a, m).Some?;
      var b :| b in Settled(events) && CarriedAt(lbports, b, n).Some?;
      ClaimsSameKey(lbports, list, m, n, node, k);
      Exclusion(stores, events, ids, a, b, m, n, node);
    }
  }

  /** In every run that has settled the Services of all LBPorts, a port that an agent is to open on its
      node is claimed there by exactly one LBPort, which exactly one Service of ours asks for. */
  lemma ExposedForOneService(stores: seq<Store>, events: seq<Event>, ids: set<ServiceId>, list: seq<LBPort>,
                             node: string, denied: seq<int>, k: PortKey)
    returns (n: string, id: ServiceId)
    requires Run(stores, events) && Fair(stores, events, ids) && NodesNamed(stores[|events|].inputs)
    requires AllSettled(stores[|events|].lbports, Settled(events))
    requires Enumerates(list, stores[|events|].lbports) && E.Admitted(list) && E.Exposed(list, node, denied, k)
    ensures SoleClaim(stores[|events|], Settled(events), n, id, node, k)
  {
    var s := stores[|events|];
    NamedClaims(list, s.lbports, node, k);
    n :| Claims(s.lbports, n, node, k);
    forall m | Claims(s.lbports, m, node, k) ensures m == n { ClaimUnique(stores, events, ids, list, m, n, node, k); }
    id :| id in Settled(events) && CarriedAt(s.lbports, id, n).Some?;
    RunOrderly(stores, events, ids);
    assert Orderly(s, id);
    forall other | CarriedAt(s.lbports, other, n).Some? ensures other == id { LabelsTellService(s.lbports[n].labels, other, id); }
  }

  /** LBPort n alone claims the port on the node, and the settled Service id alone asks for it. */
  ghost predicate SoleClaim(s: Store, settled: set<ServiceId>, n: string, id: ServiceId, node: string, k: PortKey) {
    && Claims(s.lbports, n, node, k) && (forall m :: Claims(s.lbports, m, node, k) ==> m == n)
    && id in settled && Asked(s.inputs, id, n, s.lbports[n])
    && (forall other :: CarriedAt(s.lbports, other, n).Some? ==> other == id)
  }

  /** The agent's passes over firewalld, the last of them over this list. */
  ghost predicate AgentRan(zone0: set<PortKey>, calls: seq<W.Call>, lists: seq<seq<LBPort>>, node: string, denied: seq<int>, list: seq<LBPort>) {
    && |calls| == |lists| > 0 && lists[|lists| - 1] == list && W.AllSucceed(W.Fresh(zone0), calls)
    && forall i :: 0 <= i < |calls| ==> E.Handed(calls[i].desired, lists[i], node, denied)
  }

  lemma AgentZone(zone0: set<PortKey>, calls: seq<W.Call>, lists: seq<seq<LBPort>>, node: string, denied: seq<int>, list: seq<LBPort>, k: PortKey)
    requires AgentRan(zone0, calls, lists, node, denied, list)
    ensures k in W.Run(W.Fresh(zone0), calls).zone <==> k in zone0 || E.Exposed(list, node, denied, k)
  {
    E.AgentClosedForm(zone0, calls, lists, node, denied, k);
  }

  /** So a port that is open in a node's firewalld zone, and was not open before bulb came, is one
      Service's and no other's. */
  lemma OpenForOneService(stores: seq<Store>, events: seq<Event>, ids: set<ServiceId>, list: seq<LBPort>,
                          zone0: set<PortKey>, calls: seq<W.Call>, lists: seq<seq<LBPort>>, node: string, denied: seq<int>, k: PortKey)
    returns (n: string, id: ServiceId)
    requires Run(stores, events) && Fair(stores, events, ids) && NodesNamed(stores[|events|].inputs)
    requires AllSettled(stores[|events|].lbports, Settled(events))
    requires Enumerates(list, stores[|events|].lbports) && E.Admitted(list)
    requires AgentRan(zone0, calls, lists, node, denied, list)
    requires k in W.Run(W.Fresh(zone0), calls).zone && k !in zone0
    ensures SoleClaim(stores[|events|], Settled(events), n, id, node, k)
  {
    AgentZone(zone0, calls, lists, node, denied, list, k);
    n, id := ExposedForOneService(stores, events, ids, list, node, denied, k);
  }

  // ---- a Reconciled Service is served ----

  function KeyFor(p: ServicePort): PortKey {
    PortKey(p.port, if p.protocol == UDP then Udp else Tcp)
  }

  lemma AppliedObject(s: Store, id: ServiceId, blind: set<ServiceId>, i: nat)
    requires OutcomeOf(s, id, blind) == Applied && i < |DesiredOf(s, id, blind)|
    ensures var p := DesiredOf(s, id, blind)[i]; At(After(s, id, blind).lbports, p.name) == Some(p)
  {
    AppliedFacts(s, id, blind);
    WantAt(DesiredOf(s, id, blind), i);
    AfterAt(s, id, blind, DesiredOf(s, id, blind)[i].name);
  }

  /** After a pass that applies a Service, the agent of every node the Service picks is to open every
      port of it that is not denied. */
  lemma ExposedWhereAsked(s: Store, id: ServiceId, blind: set<ServiceId>, list: seq<LBPort>,
                       i: nat, node: string, denied: seq<int>)
    requires OutcomeOf(s, id, blind) == Applied && NodesNamed(s.inputs) && Enumerates(list, After(s, id, blind).lbports)
    requires i < |s.inputs.services[id].ports| && Picks(s.inputs, s.inputs.services[id], node)
    requires s.inputs.services[id].ports[i].port !in denied
    ensures E.Exposed(list, node, denied, KeyFor(s.inputs.services[id].ports[i]))
  {
    var svc := s.inputs.services[id];
    AppliedFacts(s, id, blind);
    PortAllowed(svc, i);
    BuildExact(s.inputs, id, blind, i, node);
    AppliedObject(s, id, blind, i);
    var p := DesiredOf(s, id, blind)[i];
    StoredListed(list, After(s, id, blind).lbports, p);
    ListedExposes(list, p, node, denied, KeyFor(svc.ports[i]));
  }

  /** And once it has run, the port is open in that node's firewalld zone. */
  lemma OpenWhereAsked(s: Store, id: ServiceId, blind: set<ServiceId>, list: seq<LBPort>, i: nat,
                       zone0: set<PortKey>, calls: seq<W.Call>, lists: seq<seq<LBPort>>, node: string, denied: seq<int>)
    requires OutcomeOf(s, id, blind) == Applied && NodesNamed(s.inputs) && Enumerates(list, After(s, id, blind).lbports)
    requires i < |s.inputs.services[id].ports| && Picks(s.inputs, s.inputs.services[id], node)
    requires s.inputs.services[id].ports[i].port !in denied && AgentRan(zone0, calls, lists, node, denied, list)
    ensures KeyFor(s.inputs.services[id].ports[i]) in W.Run(W.Fresh(zone0), calls).zone
  {
    ExposedWhereAsked(s, id, blind, list, i, node, denied);
    AgentZone(zone0, calls, lists, node, denied, list, KeyFor(s.inputs.services[id].ports[i]));
  }

  lemma PortAllowed(svc: Service, i: nat)
    requires Renders(svc) && i < |svc.ports|
    ensures svc.ports[i].protocol != SCTP && (svc.ports[i].port >= 1024 || svc.allowPrivileged)
  {
  }

  lemma StoredListed(list: seq<LBPort>, lbports: map<string, LBPort>, p: LBPort)
    requires Enumerates(list, lbports) && At(lbports, p.name) == Some(p)
    ensures p in list
  {
  }

  lemma ListedExposes(list: seq<LBPort>, p: LBPort, node: string, denied: seq<int>, k: PortKey)
    requires p in list && AppliesToNode(p.spec.nodes, node) && E.KeyOf(p) == k
    requires k.port !in denied && (k.port >= 1024 || p.spec.allowPrivileged)
    ensures E.Exposed(list, node, denied, k)
  {
    var j :| 0 <= j < |list| && list[j] == p;
    assert AppliesToNode(list[j].spec.nodes, node) && E.KeyOf(list[j]) == k;
  }

  /** The ready endpoints a Service asks to be forwarded to directly. */
  function LocalEndpoints(inputs: Inputs, id: ServiceId, svc: Service): ServiceEndpoints {
    if svc.local && id in inputs.endpoints then inputs.endpoints[id] else map[]
  }

  /** The proxy of an applied Service, started with its DaemonSet's arguments, forwards exactly one
      rule per port and address family, each as the Service intends it. */
  lemma ProxyServes(s: Store, id: ServiceId, blind: set<ServiceId>, v4: string, v6: string)
    requires OutcomeOf(s, id, blind) == Applied && A.DistinctNumbers(s.inputs.services[id].ports)
    requires LeastUsable(Addresses(s.inputs.services[id]), V4, v4) && LeastUsable(Addresses(s.inputs.services[id]), V6, v6)
    requires A.CanonicalIPs(Addresses(s.inputs.services[id])) && A.PlainPorts(s.inputs.services[id].ports)
    requires var eps := LocalEndpoints(s.inputs, id, s.inputs.services[id]); A.PlainEndpoints(eps) && A.CanonicalHosts(eps)
    ensures DaemonSetName(id) in After(s, id, blind).daemonSets
    ensures var svc := s.inputs.services[id];
            var eps := LocalEndpoints(s.inputs, id, svc);
            var r := F.ParseArgs(After(s, id, blind).daemonSets[DaemonSetName(id)].args);
            && r.Ok? && |r.value| == |svc.ports| * ((if v4 == "" then 0 else 1) + (if v6 == "" then 0 else 1))
            && (forall p :: p in svc.ports && v4 != "" ==> A.OneIntended(r.value, p, V4, v4, A.Ready(eps, p)))
            && (forall p :: p in svc.ports && v6 != "" ==> A.OneIntended(r.value, p, V6, v6, A.Ready(eps, p)))
  {
    var svc := s.inputs.services[id];
    AppliedFacts(s, id, blind);
    CandidatesLeast(svc, V4);
    CandidatesLeast(svc, V6);
    LeastUnique(Addresses(svc), V4, v4, FirstOf(Candidates(svc), V4));
    LeastUnique(Addresses(svc), V6, v6, FirstOf(Candidates(svc), V6));
    A.ForwardsAsIntended(svc, EndpointsOf(s.inputs, id, svc), v4, v6);
    AppliedDaemonSet(s, id, blind);
  }

  lemma AppliedDaemonSet(s: Store, id: ServiceId, blind: set<ServiceId>)
    requires OutcomeOf(s, id, blind) == Applied
    ensures At(After(s, id, blind).daemonSets, DaemonSetName(id))
         == Some(DaemonSetOf(id, s.inputs.services[id], EndpointsOf(s.inputs, id, s.inputs.services[id])))
  {
    AppliedFacts(s, id, blind);
  }
}
