/** The LBPorts a Service asks for, and the ways in which they can be refused: a port declared
    twice, a name already taken, or another Service on a common node. */
module Conflicts {
  import opened Api
  import opened Cluster
  import opened Naming
  import opened Ordering
  import opened Wrappers
  import T = Text

  // ---- node lists ----

  predicate IsAllNodes(nodes: seq<string>) {
    |nodes| == 1 && nodes[0] == ALL_NODES
  }

  predicate Concrete(node: string) {
    node != "" && node != ALL_NODES
  }

  function Among(nodes: seq<string>): string -> bool {
    n => n in nodes
  }

  /** The nodes two lists share, as the controller names them. */
  function Shared(a: seq<string>, b: seq<string>): seq<string> {
    if a == [] || b == [] then []
    else if IsAllNodes(a) && IsAllNodes(b) then [ALL_NODES]
    else if IsAllNodes(a) then Sort(T.StringLe, Keep(b, Concrete))
    else if IsAllNodes(b) then Sort(T.StringLe, Keep(a, Concrete))
    else Sort(T.StringLe, Keep(b, Among(a)))
  }

  method SortedConcreteNodes(nodes: seq<string>) returns (out: seq<string>)
    ensures out == Sort(T.StringLe, Keep(nodes, Concrete))
  {
    out := [];
    for i := 0 to |nodes|
      invariant out == Keep(nodes[..i], Concrete)
    {
      assert nodes[..i + 1][..i] == nodes[..i];
      if nodes[i] != "" && nodes[i] != ALL_NODES { out := out + [nodes[i]]; }
    }
    assert nodes[..|nodes|] == nodes;
    out := Sort(T.StringLe, out);
  }

  method OverlappingNodes(a: seq<string>, b: seq<string>) returns (out: seq<string>)
    ensures out == Shared(a, b)
  {
    if |a| == 0 || |b| == 0 { return []; }
    if IsAllNodes(a) && IsAllNodes(b) { return [ALL_NODES]; }
    if IsAllNodes(a) { out := SortedConcreteNodes(b); return; }
    if IsAllNodes(b) { out := SortedConcreteNodes(a); return; }
    var present: set<string> := {};
    for i := 0 to |a|
      invariant forall n :: n in present <==> n in a[..i]
    {
      present := present + {a[i]};
    }
    assert a[..|a|] == a;
    out := [];
    for i := 0 to |b|
      invariant out == Keep(b[..i], Among(a))
    {
      assert b[..i + 1][..i] == b[..i];
      if b[i] in present { out := out + [b[i]]; }
    }
    assert b[..|b|] == b;
    out := Sort(T.StringLe, out);
  }

  predicate Overlaps(a: seq<string>, b: seq<string>) {
    Shared(a, b) != []
  }

  /** The node lists the controller writes: every node, or names of nodes. */
  ghost predicate NodeList(nodes: seq<string>) {
    IsAllNodes(nodes) || forall n :: n in nodes ==> Concrete(n)
  }

  lemma AppliesExact(nodes: seq<string>, n: string)
    requires NodeList(nodes)
    ensures AppliesToNode(nodes, n) <==> IsAllNodes(nodes) || n in nodes
  {
    if IsAllNodes(nodes) {
      assert nodes[0] == ALL_NODES;
    } else {
      forall i | 0 <= i < |nodes| ensures nodes[i] != ALL_NODES { assert nodes[i] in nodes; }
    }
  }

  lemma KeepSome(s: seq<string>, ok: string -> bool)
    ensures Sort(T.StringLe, Keep(s, ok)) != [] <==> exists n :: n in s && ok(n)
  {
    SortPermutes(T.StringLe, Keep(s, ok));
    if Keep(s, ok) != [] { KeepMembers(s, ok, Keep(s, ok)[0]); }
    if n :| n in s && ok(n) { KeepMembers(s, ok, n); }
  }

  lemma OverlapMembers(a: seq<string>, b: seq<string>)
    requires NodeList(a) && NodeList(b)
    ensures Overlaps(a, b) <==> exists n :: (IsAllNodes(a) || n in a) && (IsAllNodes(b) || n in b)
  {
    KeepSome(b, Concrete);
    KeepSome(a, Concrete);
    KeepSome(b, Among(a));
    assert a != [] ==> a[0] in a;
    assert b != [] ==> b[0] in b;
    assert forall n :: n in b && Among(a)(n) <==> n in b && n in a;
  }

  /** The controller finds an overlap exactly when the agent of some node would serve both
      lists; so it does not matter which of the two it looks from. */
  lemma OverlapExact(a: seq<string>, b: seq<string>)
    requires NodeList(a) && NodeList(b)
    ensures Overlaps(a, b) <==> exists n :: AppliesToNode(a, n) && AppliesToNode(b, n)
    ensures Overlaps(a, b) == Overlaps(b, a)
  {
    forall n ensures AppliesToNode(a, n) <==> IsAllNodes(a) || n in a { AppliesExact(a, n); }
    forall n ensures AppliesToNode(b, n) <==> IsAllNodes(b) || n in b { AppliesExact(b, n); }
    OverlapMembers(a, b);
    OverlapMembers(b, a);
    if Overlaps(a, b) {
      var n :| (IsAllNodes(a) || n in a) && (IsAllNodes(b) || n in b);
      assert AppliesToNode(a, n) && AppliesToNode(b, n);
    }
  }

  // ---- the LBPorts of a Service ----

  ghost function Ascend(s: set<string>): seq<string> {
    if s == {} then [] else var x :| x in s; Insert(T.StringLe, x, Ascend(s - {x}))
  }

  lemma {:induction false} AscendFacts(s: set<string>)
    ensures Strict(T.StringLe, Ascend(s)) && forall n :: n in Ascend(s) <==> n in s
  {
    if s != {} {
      var x: string :| x in s && Ascend(s) == Insert(T.StringLe, x, Ascend(s - {x}));
      var rest := Ascend(s - {x});
      AscendFacts(s - {x});
      T.StringOrder();
      forall y | y in rest ensures !T.StringLe(x, y) || !T.StringLe(y, x) { T.StringTotal(x, y); }
      InsertStrict(T.StringLe, x, rest);
      InsertPermutes(T.StringLe, x, rest);
      var r := Insert(T.StringLe, x, rest);
      assert forall n :: n in r <==> n in multiset(r);
      assert forall n :: n in rest <==> n in multiset(rest);
    }
  }

  ghost function Matched(nodes: map<string, Node>, matches: Labels -> bool): set<string> {
    set n | n in nodes && nodes[n].schedulable && matches(nodes[n].labels)
  }

  /** The nodes a Service wants its ports on.  A selector is an error when it does not parse and
      also when the nodes could not be listed. */
  ghost function Scope(nodes: map<string, Node>, selector: Selector, listed: bool): Option<seq<string>> {
    match selector
    case Everywhere => Some([ALL_NODES])
    case Unparsable => None
    case Matching(matches) => if listed then Some(Ascend(Matched(nodes, matches))) else None
  }

  method MatchNodes(nodes: map<string, Node>, matches: Labels -> bool) returns (names: seq<string>)
    ensures names == Ascend(Matched(nodes, matches))
  {
    var left := nodes.Keys;
    names := [];
    while left != {}
      invariant left <= nodes.Keys
      invariant Distinct(names)
      invariant forall n :: n in names <==> n in Matched(nodes, matches) && n !in left
      decreases |left|
    {
      var n :| n in left;
      left := left - {n};
      if nodes[n].schedulable && matches(nodes[n].labels) { names := names + [n]; }
    }
    SortDistinct(names);
    SortPermutes(T.StringLe, names);
    AscendFacts(Matched(nodes, matches));
    names := Sort(T.StringLe, names);
    StrictUnique(T.StringLe, names, Ascend(Matched(nodes, matches)));
  }

  lemma SortDistinct(s: seq<string>)
    requires Distinct(s)
    ensures Strict(T.StringLe, Sort(T.StringLe, s))
  {
    T.StringOrder();
    forall i, j | 0 <= i < j < |s| ensures !T.StringLe(s[i], s[j]) || !T.StringLe(s[j], s[i]) {
      T.StringTotal(s[i], s[j]);
    }
    SortStrict(T.StringLe, s);
  }

  function PortObject(id: ServiceId, svc: Service, p: ServicePort, scope: seq<string>): LBPort {
    LBPort(LBPortName(id, p.port, p.protocol), ServiceLabels(id),
           LBPortSpec(p.port, Normalized(p.protocol), scope, OWNER, svc.allowPrivileged))
  }

  function Desired(id: ServiceId, svc: Service, scope: seq<string>): seq<LBPort> {
    seq(|svc.ports|, i requires 0 <= i < |svc.ports| => PortObject(id, svc, svc.ports[i], scope))
  }

  method RenderPorts(id: ServiceId, svc: Service, scope: seq<string>) returns (ports: seq<LBPort>)
    ensures ports == Desired(id, svc, scope)
  {
    ports := [];
    for i := 0 to |svc.ports|
      invariant |ports| == i
      invariant forall j :: 0 <= j < i ==> ports[j] == PortObject(id, svc, svc.ports[j], scope)
    {
      var p := svc.ports[i];
      var protocol := if p.protocol == Unset then TCP else p.protocol;
      ports := ports + [LBPort(LBPortName(id, p.port, p.protocol), ServiceLabels(id),
                               LBPortSpec(p.port, protocol, scope, OWNER, svc.allowPrivileged))];
    }
  }

  /** BuildLBPorts.  `blind` holds the Services whose nodes could not be listed. */
  ghost function Build(inputs: Inputs, id: ServiceId, blind: set<ServiceId>): Option<seq<LBPort>>
    requires id in inputs.services
  {
    var svc := inputs.services[id];
    var scope := Scope(inputs.nodes, svc.selector, id !in blind);
    if scope.None? then None else Some(Desired(id, svc, scope.value))
  }

  /** Kubernetes object names are never empty and never "*". */
  ghost predicate NodesNamed(inputs: Inputs) {
    forall n :: n in inputs.nodes ==> Concrete(n)
  }

  lemma BuildFacts(inputs: Inputs, id: ServiceId, blind: set<ServiceId>, want: LBPort)
    requires id in inputs.services && Build(inputs, id, blind).Some? && want in Build(inputs, id, blind).value
    ensures want.labels == ServiceLabels(id) && want.spec.owner == OWNER
    ensures want.spec.protocol == Normalized(want.spec.protocol)
    ensures want.name == LBPortName(id, want.spec.port, want.spec.protocol)
    ensures NodesNamed(inputs) ==> NodeList(want.spec.nodes)
  {
    var svc := inputs.services[id];
    if svc.selector.Matching? { AscendFacts(Matched(inputs.nodes, svc.selector.matches)); }
  }

  /** The node annotation picks the node. */
  ghost predicate Picks(inputs: Inputs, svc: Service, node: string) {
    match svc.selector
    case Everywhere => true
    case Unparsable => false
    case Matching(matches) => node in inputs.nodes && inputs.nodes[node].schedulable && matches(inputs.nodes[node].labels)
  }

  /** The LBPorts stand for the Service's ports, in order, and apply to exactly the nodes it picks. */
  lemma BuildExact(inputs: Inputs, id: ServiceId, blind: set<ServiceId>, i: nat, node: string)
    requires NodesNamed(inputs) && id in inputs.services && Build(inputs, id, blind).Some? && i < |inputs.services[id].ports|
    ensures var svc, built := inputs.services[id], Build(inputs, id, blind).value;
            && |built| == |svc.ports|
            && built[i].spec.port == svc.ports[i].port && built[i].spec.protocol == Normalized(svc.ports[i].protocol)
            && (built[i].spec.allowPrivileged <==> svc.allowPrivileged)
            && (AppliesToNode(built[i].spec.nodes, node) <==> Picks(inputs, svc, node))
            && (svc.selector.Everywhere? ==> built[i].spec.nodes == ["*"])
            && Strict(T.StringLe, built[i].spec.nodes)
  {
    var svc := inputs.services[id];
    var scope := Scope(inputs.nodes, svc.selector, id !in blind).value;
    if svc.selector.Matching? { AscendFacts(Matched(inputs.nodes, svc.selector.matches)); }
    AppliesExact(scope, node);
  }

  // ---- a port declared twice ----

  predicate SameKey(a: LBPort, b: LBPort) {
    a.spec.port == b.spec.port && Normalized(a.spec.protocol) == Normalized(b.spec.protocol)
  }

  predicate Repeats(desired: seq<LBPort>) {
    exists i, j :: 0 <= i < j < |desired| && SameKey(desired[i], desired[j])
  }

  function ClaimKey(p: LBPort): string {
    PortKeyText(p.spec.port, p.spec.protocol)
  }

  function ClaimKeys(desired: seq<LBPort>): seq<string> {
    seq(|desired|, i requires 0 <= i < |desired| => ClaimKey(desired[i]))
  }

  lemma KeyTells(a: LBPort, b: LBPort)
    ensures ClaimKey(a) == ClaimKey(b) <==> SameKey(a, b)
  {
    PortKeyTextInjective(a.spec.port, a.spec.protocol, b.spec.port, b.spec.protocol);
  }

  lemma KeysTell(desired: seq<LBPort>)
    ensures Repeats(desired) <==> !Distinct(ClaimKeys(desired))
  {
    forall i, j | 0 <= i < j < |desired|
      ensures ClaimKeys(desired)[i] == ClaimKeys(desired)[j] <==> SameKey(desired[i], desired[j])
    {
      KeyTells(desired[i], desired[j]);
    }
  }

  /** `seen` holds exactly the first i keys, and they are pairwise different. */
  ghost predicate SeenFirst(keys: seq<string>, i: nat, seen: set<string>)
    requires i <= |keys|
  {
    Distinct(keys[..i]) && forall k :: k in seen <==> k in keys[..i]
  }

  lemma SeenStep(keys: seq<string>, i: nat, seen: set<string>)
    requires i < |keys| && SeenFirst(keys, i, seen)
    ensures if keys[i] in seen then !Distinct(keys) else SeenFirst(keys, i + 1, seen + {keys[i]})
  {
    assert keys[..i + 1] == keys[..i] + [keys[i]];
    if keys[i] in seen {
      var j :| 0 <= j < i && keys[..i][j] == keys[i];
      assert keys[j] == keys[i];
    }
  }

  method DuplicateServicePortConflict(desired: seq<LBPort>) returns (found: bool)
    ensures found == Repeats(desired)
  {
    var seen: set<string> := {};
    ghost var keys := ClaimKeys(desired);
    KeysTell(desired);
    for i := 0 to |desired|
      invariant SeenFirst(keys, i, seen)
    {
      var key := ClaimKey(desired[i]);
      SeenStep(keys, i, seen);
      if key in seen { return true; }
      seen := seen + {key};
    }
    assert keys[..|desired|] == keys;
    found := false;
  }

  // ---- a name already taken ----

  /** An object of the wanted name belongs to someone else. */
  predicate TakenBy(existing: LBPort, want: LBPort) {
    || (existing.spec.owner != "" && existing.spec.owner != OWNER)
    || !SameMap(existing.labels, want.labels)
  }

  predicate Taken(lbports: map<string, LBPort>, want: LBPort) {
    want.name in lbports && TakenBy(lbports[want.name], want)
  }

  predicate OwnerConflict(lbports: map<string, LBPort>, desired: seq<LBPort>) {
    exists i :: 0 <= i < |desired| && Taken(lbports, desired[i])
  }

  // ---- another Service on a common node ----

  predicate Clash(left: LBPort, right: LBPort) {
    SameKey(left, right) && Overlaps(left.spec.nodes, right.spec.nodes)
  }

  predicate AnyClash(desired: seq<LBPort>, others: seq<LBPort>) {
    exists i, j :: 0 <= i < |desired| && 0 <= j < |others| && Clash(desired[i], others[j])
  }

  method OverlappingPortConflict(desired: seq<LBPort>, others: seq<LBPort>) returns (found: bool)
    ensures found == AnyClash(desired, others)
  {
    for i := 0 to |desired|
      invariant forall k, j :: 0 <= k < i && 0 <= j < |others| ==> !Clash(desired[k], others[j])
    {
      for j := 0 to |others|
        invariant forall k :: 0 <= k < j ==> !Clash(desired[i], others[k])
      {
        var left, right := desired[i], others[j];
        if left.spec.port != right.spec.port || Normalized(left.spec.protocol) != Normalized(right.spec.protocol) { continue; }
        var nodes := OverlappingNodes(left.spec.nodes, right.spec.nodes);
        if |nodes| == 0 { continue; }
        return true;
      }
    }
    found := false;
  }

  /** Another Service of ours whose ports overlap the desired ones. */
  ghost predicate Rival(inputs: Inputs, id: ServiceId, other: ServiceId, desired: seq<LBPort>, blind: set<ServiceId>) {
    && other in inputs.services && other != id && ServiceMatches(inputs.services[other])
    && Build(inputs, other, blind).Some? && AnyClash(desired, Build(inputs, other, blind).value)
  }

  ghost predicate ServiceConflict(inputs: Inputs, id: ServiceId, desired: seq<LBPort>, blind: set<ServiceId>) {
    exists other :: Rival(inputs, id, other, desired, blind)
  }

  /** Two Services that overlap are each other's rivals. */
  lemma RivalrySymmetric(inputs: Inputs, a: ServiceId, b: ServiceId, blind: set<ServiceId>)
    requires NodesNamed(inputs) && a in inputs.services && b in inputs.services
    requires ServiceMatches(inputs.services[a]) && ServiceMatches(inputs.services[b])
    requires Build(inputs, a, blind).Some? && Build(inputs, b, blind).Some?
    ensures Rival(inputs, a, b, Build(inputs, a, blind).value, blind)
       <==> Rival(inputs, b, a, Build(inputs, b, blind).value, blind)
  {
    var x, y := Build(inputs, a, blind).value, Build(inputs, b, blind).value;
    forall i, j | 0 <= i < |x| && 0 <= j < |y| ensures Clash(x[i], y[j]) == Clash(y[j], x[i]) {
      BuildFacts(inputs, a, blind, x[i]);
      BuildFacts(inputs, b, blind, y[j]);
      OverlapExact(x[i].spec.nodes, y[j].spec.nodes);
    }
    ClashesBothWays(x, y);
    ClashesBothWays(y, x);
  }

  lemma ClashesBothWays(x: seq<LBPort>, y: seq<LBPort>)
    requires forall i, j :: 0 <= i < |x| && 0 <= j < |y| ==> Clash(x[i], y[j]) == Clash(y[j], x[i])
    ensures AnyClash(x, y) ==> AnyClash(y, x)
  {
    if AnyClash(x, y) {
      var i, j :| 0 <= i < |x| && 0 <= j < |y| && Clash(x[i], y[j]);
      assert Clash(y[j], x[i]);
    }
  }

  // ---- what a conflict means for the Services ----

  /** Same number, and both TCP, both UDP or both SCTP, where a port without protocol is TCP. */
  predicate SamePort(p: ServicePort, q: ServicePort) {
    && p.port == q.port
    && (p.protocol == UDP <==> q.protocol == UDP) && (p.protocol == SCTP <==> q.protocol == SCTP)
  }

  ghost predicate SharePort(a: Service, b: Service) {
    exists i, j :: 0 <= i < |a.ports| && 0 <= j < |b.ports| && SamePort(a.ports[i], b.ports[j])
  }

  ghost predicate ShareNode(inputs: Inputs, a: Service, b: Service) {
    exists node :: Picks(inputs, a, node) && Picks(inputs, b, node)
  }

  /** The other is a load balancer of bulb's class or of none, its nodes are known, and the two want
      the same port on the same node. */
  ghost predicate Competes(inputs: Inputs, id: ServiceId, other: ServiceId, blind: set<ServiceId>) {
    && id in inputs.services && other in inputs.services && other != id
    && var a, b := inputs.services[id], inputs.services[other];
    && b.loadBalancer && (b.lbClass == None || b.lbClass == Some("") || b.lbClass == Some("bulb"))
    && (b.selector.Everywhere? || (b.selector.Matching? && other !in blind))
    && SharePort(a, b) && ShareNode(inputs, a, b)
  }

  lemma ClashExactly(inputs: Inputs, a: ServiceId, b: ServiceId, blind: set<ServiceId>, i: nat, j: nat)
    requires NodesNamed(inputs) && a in inputs.services && b in inputs.services
    requires Build(inputs, a, blind).Some? && Build(inputs, b, blind).Some?
    requires i < |inputs.services[a].ports| && j < |inputs.services[b].ports|
    ensures |Build(inputs, a, blind).value| == |inputs.services[a].ports| && |Build(inputs, b, blind).value| == |inputs.services[b].ports|
    ensures Clash(Build(inputs, a, blind).value[i], Build(inputs, b, blind).value[j])
       <==> SamePort(inputs.services[a].ports[i], inputs.services[b].ports[j]) && ShareNode(inputs, inputs.services[a], inputs.services[b])
  {
    var x, y := Build(inputs, a, blind).value[i], Build(inputs, b, blind).value[j];
    BuildFacts(inputs, a, blind, x);
    BuildFacts(inputs, b, blind, y);
    OverlapExact(x.spec.nodes, y.spec.nodes);
    forall n ensures AppliesToNode(x.spec.nodes, n) <==> Picks(inputs, inputs.services[a], n) { BuildExact(inputs, a, blind, i, n); }
    forall n ensures AppliesToNode(y.spec.nodes, n) <==> Picks(inputs, inputs.services[b], n) { BuildExact(inputs, b, blind, j, n); }
    BuildExact(inputs, a, blind, i, "");
    BuildExact(inputs, b, blind, j, "");
    if ShareNode(inputs, inputs.services[a], inputs.services[b]) {
      var n :| Picks(inputs, inputs.services[a], n) && Picks(inputs, inputs.services[b], n);
      assert AppliesToNode(x.spec.nodes, n) && AppliesToNode(y.spec.nodes, n);
    }
    if n :| AppliesToNode(x.spec.nodes, n) && AppliesToNode(y.spec.nodes, n) {
      assert Picks(inputs, inputs.services[a], n) && Picks(inputs, inputs.services[b], n);
    }
  }

  lemma AnyClashExactly(inputs: Inputs, a: ServiceId, b: ServiceId, blind: set<ServiceId>)
    requires NodesNamed(inputs) && a in inputs.services && b in inputs.services
    requires Build(inputs, a, blind).Some? && Build(inputs, b, blind).Some?
    ensures AnyClash(Build(inputs, a, blind).value, Build(inputs, b, blind).value)
       <==> SharePort(inputs.services[a], inputs.services[b]) && ShareNode(inputs, inputs.services[a], inputs.services[b])
  {
    var p, q := inputs.services[a].ports, inputs.services[b].ports;
    var x, y := Build(inputs, a, blind).value, Build(inputs, b, blind).value;
    forall i, j | 0 <= i < |p| && 0 <= j < |q|
      ensures Clash(x[i], y[j]) <==> SamePort(p[i], q[j]) && ShareNode(inputs, inputs.services[a], inputs.services[b])
    {
      ClashExactly(inputs, a, b, blind, i, j);
    }
    if i, j :| 0 <= i < |p| && 0 <= j < |q| && SamePort(p[i], q[j]) {
      assert Clash(x[i], y[j]) <==> ShareNode(inputs, inputs.services[a], inputs.services[b]);
    }
    if i, j :| 0 <= i < |x| && 0 <= j < |y| && Clash(x[i], y[j]) {
      assert SamePort(p[i], q[j]);
    }
  }

  /** A Service is refused because of another exactly when such a competitor exists. */
  lemma ConflictMeaning(inputs: Inputs, id: ServiceId, blind: set<ServiceId>)
    requires NodesNamed(inputs) && id in inputs.services && Build(inputs, id, blind).Some?
    ensures ServiceConflict(inputs, id, Build(inputs, id, blind).value, blind)
       <==> exists other :: Competes(inputs, id, other, blind)
  {
    var desired := Build(inputs, id, blind).value;
    forall other ensures Rival(inputs, id, other, desired, blind) <==> Competes(inputs, id, other, blind) {
      if other in inputs.services && Build(inputs, other, blind).Some? { AnyClashExactly(inputs, id, other, blind); }
    }
    if o :| Competes(inputs, id, o, blind) { assert Rival(inputs, id, o, desired, blind); }
    if o :| Rival(inputs, id, o, desired, blind) { assert Competes(inputs, id, o, blind); }
  }

  /** The built ports repeat exactly when two of the Service's ports are the same. */
  lemma RepeatsMeaning(inputs: Inputs, id: ServiceId, blind: set<ServiceId>)
    requires id in inputs.services && Build(inputs, id, blind).Some?
    ensures var ports := inputs.services[id].ports;
            Repeats(Build(inputs, id, blind).value) <==> exists i, j :: 0 <= i < j < |ports| && SamePort(ports[i], ports[j])
  {
    var ports, x := inputs.services[id].ports, Build(inputs, id, blind).value;
    assert forall i, j :: 0 <= i < j < |ports| ==> (SameKey(x[i], x[j]) <==> SamePort(ports[i], ports[j]));
  }

  /** The name is free for the Service: unused, or held by an LBPort of no owner or of the controller
      whose labels read as the Service's. */
  predicate NameFree(lbports: map<string, LBPort>, id: ServiceId, p: ServicePort) {
    var n := LBPortName(id, p.port, p.protocol);
    n in lbports ==>
      && (lbports[n].spec.owner == "" || lbports[n].spec.owner == "bulb-controller")
      && SameMap(lbports[n].labels, ServiceLabels(id))
  }

  lemma OwnerMeaning(inputs: Inputs, lbports: map<string, LBPort>, id: ServiceId, blind: set<ServiceId>)
    requires id in inputs.services && Build(inputs, id, blind).Some?
    ensures var ports := inputs.services[id].ports;
            OwnerConflict(lbports, Build(inputs, id, blind).value) <==> exists i :: 0 <= i < |ports| && !NameFree(lbports, id, ports[i])
  {
    var ports, x := inputs.services[id].ports, Build(inputs, id, blind).value;
    assert forall i :: 0 <= i < |ports| ==> (Taken(lbports, x[i]) <==> !NameFree(lbports, id, ports[i]));
  }
}
