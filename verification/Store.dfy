/** The objects the controller owns, and what one reconcile pass is meant to do to them. */
module Store {
  import opened Api
  import opened Cluster
  import opened Conflicts
  import opened Naming
  import opened Ordering
  import opened Wrappers
  import A = ServiceArgs

  datatype DaemonSet = DaemonSet(labels: Labels, keep: bool, args: seq<string>)

  /** Status conditions by type. */
  type Conditions = map<string, bool>

  datatype Store = Store(
    inputs: Inputs, lbports: map<string, LBPort>, daemonSets: map<string, DaemonSet>,
    conditions: map<ServiceId, Conditions>)

  /** What a pass does with a Service. */
  datatype Outcome = Gone | NotOurs | NoEndpoints | Invalid | Conflicted | Applied

  // ---- the decision ----

  function EndpointsOf(inputs: Inputs, id: ServiceId, svc: Service): ServiceEndpoints {
    if svc.local && id in inputs.endpoints then inputs.endpoints[id] else map[]
  }

  predicate NoReady(endpoints: ServiceEndpoints) {
    forall name :: name in endpoints ==> endpoints[name] == []
  }

  predicate PrivilegesGranted(svc: Service) {
    forall i :: 0 <= i < |svc.ports| ==> svc.ports[i].port >= 1024 || svc.allowPrivileged
  }

  /** BuildDaemonSet accepts the Service. */
  predicate Renders(svc: Service) {
    && (FirstOf(Candidates(svc), V4) != "" || FirstOf(Candidates(svc), V6) != "")
    && svc.ports != [] && PrivilegesGranted(svc) && A.Supported(svc.ports) && !svc.selector.Unparsable?
  }

  ghost predicate Refused(inputs: Inputs, lbports: map<string, LBPort>, id: ServiceId, desired: seq<LBPort>, blind: set<ServiceId>) {
    Repeats(desired) || OwnerConflict(lbports, desired) || ServiceConflict(inputs, id, desired, blind)
  }

  ghost function Decide(inputs: Inputs, lbports: map<string, LBPort>, id: ServiceId, blind: set<ServiceId>): Outcome {
    if id !in inputs.services then Gone
    else
      var svc := inputs.services[id];
      if !ServiceMatches(svc) then NotOurs
      else if svc.local && NoReady(EndpointsOf(inputs, id, svc)) then NoEndpoints
      else
        var desired := Build(inputs, id, blind);
        if desired.None? then Invalid
        else if Refused(inputs, lbports, id, desired.value, blind) then Conflicted
        else if !Renders(svc) then Invalid
        else Applied
  }

  // ---- the effects ----

  const RECONCILED := "Reconciled"
  const PORT_CONFLICT := "PortConflict"
  const INVALID_SERVICE := "InvalidService"
  const NO_READY_ENDPOINTS := "NoReadyEndpoints"

  function Verdict(o: Outcome): string {
    match o
    case Applied => RECONCILED
    case Conflicted => PORT_CONFLICT
    case NoEndpoints => NO_READY_ENDPOINTS
    case _ => INVALID_SERVICE
  }

  function ConditionsOf(conditions: map<ServiceId, Conditions>, id: ServiceId): Conditions {
    if id in conditions then conditions[id] else map[]
  }

  /** All four conditions set, one of them true. */
  function Flagged(c: Conditions, verdict: string): Conditions {
    c + map[RECONCILED := verdict == RECONCILED, PORT_CONFLICT := verdict == PORT_CONFLICT,
            INVALID_SERVICE := verdict == INVALID_SERVICE, NO_READY_ENDPOINTS := verdict == NO_READY_ENDPOINTS]
  }

  function Marked(conditions: map<ServiceId, Conditions>, id: ServiceId, o: Outcome): map<ServiceId, Conditions> {
    conditions[id := Flagged(ConditionsOf(conditions, id), Verdict(o))]
  }

  function DaemonSetOf(id: ServiceId, svc: Service, endpoints: ServiceEndpoints): DaemonSet {
    DaemonSet(ServiceLabels(id), svc.keep, A.CommandLine(svc, endpoints))
  }

  /** The labels say that the DaemonSet is this Service's. */
  predicate OwnedBy(labels: Labels, id: ServiceId) {
    Read(labels, SERVICE) == id.name && Read(labels, SERVICE_NS) == id.ns && Read(labels, MANAGED_BY) == BULB
  }

  function Cleared(lbports: map<string, LBPort>, id: ServiceId): map<string, LBPort> {
    map n | n in lbports && !Carries(lbports[n].labels, id) :: lbports[n]
  }

  /** The desired object of a name. */
  function Want(desired: seq<LBPort>, name: string): Option<LBPort> {
    if desired == [] then None
    else if desired[|desired| - 1].name == name then Some(desired[|desired| - 1])
    else Want(desired[..|desired| - 1], name)
  }

  function Names(desired: seq<LBPort>): set<string> {
    set i | 0 <= i < |desired| :: desired[i].name
  }

  /** The desired objects in place, and no others with the Service's labels. */
  function Installed(lbports: map<string, LBPort>, id: ServiceId, desired: seq<LBPort>): map<string, LBPort> {
    map n | n in lbports.Keys + Names(desired)
            && (Want(desired, n).Some? || (n in lbports && !Carries(lbports[n].labels, id)))
         :: if Want(desired, n).Some? then Want(desired, n).value else lbports[n]
  }

  predicate DaemonSetForeign(daemonSets: map<string, DaemonSet>, id: ServiceId) {
    DaemonSetName(id) in daemonSets && !OwnedBy(daemonSets[DaemonSetName(id)].labels, id)
  }

  /** cleanupByName: a DaemonSet of that name that is not this Service's stops it short. */
  function Cleaned(s: Store, id: ServiceId, honorKeep: bool): Store {
    var name := DaemonSetName(id);
    if DaemonSetForeign(s.daemonSets, id) then s
    else if name in s.daemonSets && honorKeep && s.daemonSets[name].keep then s.(lbports := Cleared(s.lbports, id))
    else s.(daemonSets := s.daemonSets - {name}, lbports := Cleared(s.lbports, id))
  }

  function Marking(s: Store, id: ServiceId, o: Outcome): Store {
    s.(conditions := Marked(s.conditions, id, o))
  }

  ghost function Installing(s: Store, id: ServiceId, desired: seq<LBPort>): Store
    requires id in s.inputs.services
  {
    var svc := s.inputs.services[id];
    Store(s.inputs, Installed(s.lbports, id, desired),
          s.daemonSets[DaemonSetName(id) := DaemonSetOf(id, svc, EndpointsOf(s.inputs, id, svc))],
          Marked(s.conditions, id, Applied))
  }

  /** The store after a pass that met no error. */
  ghost function After(s: Store, id: ServiceId, blind: set<ServiceId>): Store {
    match Decide(s.inputs, s.lbports, id, blind)
    case Gone => Cleaned(s, id, true)
    case NotOurs => Cleaned(s, id, s.inputs.services[id].keep)
    case Applied => Installing(s, id, Build(s.inputs, id, blind).value)
    case o => Cleaned(Marking(s, id, o), id, false)
  }

  // ---- interrupted passes ----

  ghost function At<K, V>(m: map<K, V>, k: K): Option<V> {
    if k in m then Some(m[k]) else None
  }

  /** Every entry is as before or already as intended. */
  ghost predicate Between<K(!new), V>(before: map<K, V>, now: map<K, V>, goal: map<K, V>) {
    forall k :: At(now, k) == At(before, k) || At(now, k) == At(goal, k)
  }

  ghost predicate Partly(s: Store, now: Store, goal: Store) {
    && now.inputs == s.inputs
    && Between(s.lbports, now.lbports, goal.lbports)
    && Between(s.daemonSets, now.daemonSets, goal.daemonSets)
    && Between(s.conditions, now.conditions, goal.conditions)
  }

  /** The store after a pass that met an error: some of its writes are done. */
  ghost predicate Interrupted(s: Store, now: Store, id: ServiceId, blind: set<ServiceId>) {
    Partly(s, now, After(s, id, blind))
  }

  /** Exactly the logged names have been written, once each, and each was changed by it into
      what is intended. */
  ghost predicate Progress(before: map<string, LBPort>, now: map<string, LBPort>, goal: map<string, LBPort>, log: seq<string>) {
    && Distinct(log)
    && (forall n :: n in log ==> At(now, n) == At(goal, n) && At(before, n) != At(goal, n))
    && (forall n :: n !in log ==> At(now, n) == At(before, n))
  }

  /** Objects are stored under their own names. */
  ghost predicate Keyed(lbports: map<string, LBPort>) {
    forall n :: n in lbports ==> lbports[n].name == n
  }

  // ---- facts about the effects ----

  lemma SameEntries<K, V>(a: map<K, V>, b: map<K, V>)
    requires forall k :: At(a, k) == At(b, k)
    ensures a == b
  {
    forall k ensures k in a <==> k in b { assert At(a, k) == At(b, k); }
    forall k | k in a ensures a[k] == b[k] { assert At(a, k) == At(b, k); }
  }

  lemma {:induction false} WantFacts(desired: seq<LBPort>, name: string)
    ensures Want(desired, name).Some? <==> name in Names(desired)
    ensures Want(desired, name).Some? ==> Want(desired, name).value in desired && Want(desired, name).value.name == name
  {
    if desired != [] {
      var front, last := desired[..|desired| - 1], desired[|desired| - 1];
      WantFacts(front, name);
      assert desired[|desired| - 1].name in Names(desired);
      if name in Names(front) {
        var i :| 0 <= i < |front| && front[i].name == name;
        assert desired[i].name == name;
      }
      if name in Names(desired) && last.name != name {
        var i :| 0 <= i < |desired| && desired[i].name == name;
        assert front[i].name == name;
      }
    }
  }

  ghost predicate DistinctNames(desired: seq<LBPort>) {
    forall i, j :: 0 <= i < j < |desired| ==> desired[i].name != desired[j].name
  }

  lemma WantAt(desired: seq<LBPort>, i: nat)
    requires i < |desired| && DistinctNames(desired)
    ensures Want(desired, desired[i].name) == Some(desired[i])
  {
    var name := desired[i].name;
    assert name in Names(desired);
    WantFacts(desired, name);
    var j :| 0 <= j < |desired| && desired[j] == Want(desired, name).value;
    assert j < i ==> desired[j].name != desired[i].name;
    assert i < j ==> desired[i].name != desired[j].name;
  }

  lemma InstalledAt(lbports: map<string, LBPort>, id: ServiceId, desired: seq<LBPort>, n: string)
    ensures At(Installed(lbports, id, desired), n)
         == if Want(desired, n).Some? then Want(desired, n)
            else if n in lbports && Carries(lbports[n].labels, id) then None
            else At(lbports, n)
  {
    WantFacts(desired, n);
  }

  lemma ClearedAt(lbports: map<string, LBPort>, id: ServiceId, n: string)
    ensures At(Cleared(lbports, id), n)
         == if n in lbports && Carries(lbports[n].labels, id) then None else At(lbports, n)
  {
  }

  /** Names repeat among the ports a Service asks for only when a port and protocol do. */
  lemma BuildDistinct(inputs: Inputs, id: ServiceId, blind: set<ServiceId>)
    requires id in inputs.services && Build(inputs, id, blind).Some?
    ensures DistinctNames(Build(inputs, id, blind).value) <==> !Repeats(Build(inputs, id, blind).value)
  {
    var desired := Build(inputs, id, blind).value;
    forall i, j | 0 <= i < j < |desired| ensures desired[i].name == desired[j].name <==> SameKey(desired[i], desired[j]) {
      BuildFacts(inputs, id, blind, desired[i]);
      BuildFacts(inputs, id, blind, desired[j]);
      NameInjective(id, desired[i].spec.port, desired[i].spec.protocol, desired[j].spec.port, desired[j].spec.protocol);
    }
  }

  /** A DaemonSet counts as the Service's by three labels. */
  lemma OwnedText(labels: Labels, id: ServiceId)
    ensures OwnedBy(labels, id) <==>
              Read(labels, "app.kubernetes.io/managed-by") == "bulb" && Read(labels, "bulb.toturi.tech/service") == id.name
              && Read(labels, "bulb.toturi.tech/service-namespace") == id.ns
  {
  }
}
