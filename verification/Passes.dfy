/** What one reconcile pass promises: whose LBPorts it touches, what it leaves of its own, the
    conditions it sets, and what a second pass does. */
module Passes {
  import opened Api
  import opened Cluster
  import opened Conflicts
  import opened Naming
  import opened Store
  import opened Wrappers

  // ---- what a pass leaves under a name ----

  ghost function OutcomeOf(s: Store, id: ServiceId, blind: set<ServiceId>): Outcome {
    Decide(s.inputs, s.lbports, id, blind)
  }

  /** The ports of an applied Service. */
  ghost function DesiredOf(s: Store, id: ServiceId, blind: set<ServiceId>): seq<LBPort>
    requires OutcomeOf(s, id, blind) == Applied
  {
    Build(s.inputs, id, blind).value
  }

  ghost predicate Lists(s: Store, id: ServiceId, blind: set<ServiceId>, n: string) {
    OutcomeOf(s, id, blind) == Applied && Want(DesiredOf(s, id, blind), n).Some?
  }

  lemma AppliedFacts(s: Store, id: ServiceId, blind: set<ServiceId>)
    requires OutcomeOf(s, id, blind) == Applied
    ensures id in s.inputs.services && ServiceMatches(s.inputs.services[id]) && Renders(s.inputs.services[id])
    ensures Build(s.inputs, id, blind) == Some(DesiredOf(s, id, blind)) && DesiredOf(s, id, blind) != []
    ensures !Repeats(DesiredOf(s, id, blind)) && !OwnerConflict(s.lbports, DesiredOf(s, id, blind))
    ensures !ServiceConflict(s.inputs, id, DesiredOf(s, id, blind), blind)
    ensures DistinctNames(DesiredOf(s, id, blind))
  {
    BuildDistinct(s.inputs, id, blind);
  }

  lemma AfterInputs(s: Store, id: ServiceId, blind: set<ServiceId>)
    ensures After(s, id, blind).inputs == s.inputs
  {
  }

  lemma CompletedIsInterrupted(s: Store, id: ServiceId, blind: set<ServiceId>)
    ensures Interrupted(s, After(s, id, blind), id, blind)
  {
    AfterInputs(s, id, blind);
  }

  lemma AfterAt(s: Store, id: ServiceId, blind: set<ServiceId>, n: string)
    ensures At(After(s, id, blind).lbports, n)
         == if Lists(s, id, blind, n) then Want(DesiredOf(s, id, blind), n)
            else if OutcomeOf(s, id, blind) != Applied && DaemonSetForeign(s.daemonSets, id) then At(s.lbports, n)
            else if n in s.lbports && Carries(s.lbports[n].labels, id) then None
            else At(s.lbports, n)
  {
    if OutcomeOf(s, id, blind) == Applied {
      AppliedFacts(s, id, blind);
      InstalledAt(s.lbports, id, DesiredOf(s, id, blind), n);
    } else {
      ClearedAt(s.lbports, id, n);
    }
  }

  lemma ListedFacts(s: Store, id: ServiceId, blind: set<ServiceId>, n: string)
    requires Lists(s, id, blind, n)
    ensures var want := Want(DesiredOf(s, id, blind), n).value;
            && want in DesiredOf(s, id, blind) && want.name == n && want.labels == ServiceLabels(id) && Carries(want.labels, id)
            && want.spec.owner == OWNER && n == LBPortName(id, want.spec.port, want.spec.protocol)
            && !Taken(s.lbports, want)
  {
    AppliedFacts(s, id, blind);
    var desired := DesiredOf(s, id, blind);
    WantFacts(desired, n);
    var want := Want(desired, n).value;
    BuildFacts(s.inputs, id, blind, want);
    OwnLabels(id);
    var i :| 0 <= i < |desired| && desired[i] == want;
    assert !Taken(s.lbports, desired[i]);
  }

  // ---- frame ----

  /** A pass leaves an LBPort without the Service's labels alone, except when it applies the
      Service and the name is one of its ports; then the labels there have an empty value. */
  lemma Frame(s: Store, id: ServiceId, blind: set<ServiceId>, n: string)
    requires n in s.lbports && !Carries(s.lbports[n].labels, id)
    ensures At(After(s, id, blind).lbports, n) == At(s.lbports, n) <==> !Lists(s, id, blind, n)
    ensures Lists(s, id, blind, n) ==> !NoEmptyValue(s.lbports[n].labels)
  {
    AfterAt(s, id, blind, n);
    if Lists(s, id, blind, n) {
      ListedFacts(s, id, blind, n);
      if NoEmptyValue(s.lbports[n].labels) { SameIsEqual(s.lbports[n].labels, ServiceLabels(id)); }
    }
  }

  /** The same holds at every point where a pass can be interrupted. */
  lemma FrameInterrupted(s: Store, now: Store, id: ServiceId, blind: set<ServiceId>, n: string)
    requires Interrupted(s, now, id, blind)
    requires n in s.lbports && !Carries(s.lbports[n].labels, id) && NoEmptyValue(s.lbports[n].labels)
    ensures At(now.lbports, n) == At(s.lbports, n)
  {
    Frame(s, id, blind, n);
  }

  /** An LBPort of another Service is never touched, whatever its labels. */
  lemma OthersUntouched(s: Store, now: Store, id: ServiceId, blind: set<ServiceId>, n: string, other: ServiceId)
    requires Interrupted(s, now, id, blind)
    requires n in s.lbports && Carries(s.lbports[n].labels, other) && other != id
    ensures At(now.lbports, n) == At(s.lbports, n)
  {
    if Carries(s.lbports[n].labels, id) { LabelsTellService(s.lbports[n].labels, other, id); }
    AfterAt(s, id, blind, n);
    if Lists(s, id, blind, n) {
      ListedFacts(s, id, blind, n);
      LabelsTellService(s.lbports[n].labels, other, id);
    }
  }

  // ---- what is left of the Service's own ----

  ghost function CarriedAt(lbports: map<string, LBPort>, id: ServiceId, n: string): Option<LBPort> {
    if n in lbports && Carries(lbports[n].labels, id) then Some(lbports[n]) else None
  }

  /** Of its own LBPorts a completed pass leaves exactly the desired ones, unless it meets a
      foreign DaemonSet while cleaning up: then it leaves them all. */
  lemma OwnExactly(s: Store, id: ServiceId, blind: set<ServiceId>, n: string)
    ensures CarriedAt(After(s, id, blind).lbports, id, n)
         == if OutcomeOf(s, id, blind) == Applied then Want(DesiredOf(s, id, blind), n)
            else if DaemonSetForeign(s.daemonSets, id) then CarriedAt(s.lbports, id, n)
            else None
  {
    AfterAt(s, id, blind, n);
    if Lists(s, id, blind, n) { ListedFacts(s, id, blind, n); }
  }

  ghost predicate HasLBPort(s: Store, id: ServiceId) {
    exists n :: CarriedAt(s.lbports, id, n).Some?
  }

  ghost predicate HasDaemonSet(s: Store, id: ServiceId) {
    DaemonSetName(id) in s.daemonSets && OwnedBy(s.daemonSets[DaemonSetName(id)].labels, id)
  }

  // ---- conditions ----

  predicate IsTrue(c: Conditions, t: string) {
    t in c && c[t]
  }

  lemma ConditionsDiffer()
    ensures RECONCILED != PORT_CONFLICT && RECONCILED != INVALID_SERVICE && RECONCILED != NO_READY_ENDPOINTS
    ensures PORT_CONFLICT != INVALID_SERVICE && PORT_CONFLICT != NO_READY_ENDPOINTS && INVALID_SERVICE != NO_READY_ENDPOINTS
  {
    assert RECONCILED[0] == 'R' && PORT_CONFLICT[0] == 'P' && INVALID_SERVICE[0] == 'I' && NO_READY_ENDPOINTS[0] == 'N';
  }

  /** Exactly the named one of the four conditions is true. */
  ghost predicate OnlyTrue(c: Conditions, verdict: string) {
    && (IsTrue(c, RECONCILED) <==> verdict == RECONCILED)
    && (IsTrue(c, PORT_CONFLICT) <==> verdict == PORT_CONFLICT)
    && (IsTrue(c, INVALID_SERVICE) <==> verdict == INVALID_SERVICE)
    && (IsTrue(c, NO_READY_ENDPOINTS) <==> verdict == NO_READY_ENDPOINTS)
    && (verdict == RECONCILED || verdict == PORT_CONFLICT || verdict == INVALID_SERVICE || verdict == NO_READY_ENDPOINTS)
  }

  lemma FlaggedOnly(c: Conditions, o: Outcome)
    ensures OnlyTrue(Flagged(c, Verdict(o)), Verdict(o))
    ensures Verdict(o) == RECONCILED <==> o == Applied
  {
    ConditionsDiffer();
  }

  /** After a completed pass over a Service of ours exactly one of the four conditions is true,
      whatever they were before: the one the decision names. */
  lemma OneVerdict(s: Store, id: ServiceId, blind: set<ServiceId>)
    requires id in s.inputs.services && ServiceMatches(s.inputs.services[id])
    ensures OnlyTrue(ConditionsOf(After(s, id, blind).conditions, id), Verdict(OutcomeOf(s, id, blind)))
    ensures Verdict(OutcomeOf(s, id, blind)) == RECONCILED <==> OutcomeOf(s, id, blind) == Applied
  {
    var o := OutcomeOf(s, id, blind);
    AfterMarks(s, id, blind);
    FlaggedOnly(ConditionsOf(s.conditions, id), o);
  }

  lemma AfterMarks(s: Store, id: ServiceId, blind: set<ServiceId>)
    requires id in s.inputs.services && ServiceMatches(s.inputs.services[id])
    ensures After(s, id, blind).conditions == Marked(s.conditions, id, OutcomeOf(s, id, blind))
  {
    var o := OutcomeOf(s, id, blind);
    if o != Applied {
      assert After(s, id, blind) == Cleaned(Marking(s, id, o), id, false);
      CleanedKeeps(Marking(s, id, o), id, false);
    }
  }

  lemma CleanedKeeps(s: Store, id: ServiceId, honorKeep: bool)
    ensures Cleaned(s, id, honorKeep).conditions == s.conditions && Cleaned(s, id, honorKeep).inputs == s.inputs
  {
  }

  /** What each condition means, in terms of the inputs and of the LBPorts before the pass. */
  lemma VerdictMeaning(s: Store, id: ServiceId, blind: set<ServiceId>)
    requires id in s.inputs.services && ServiceMatches(s.inputs.services[id])
    ensures var c, svc, built := ConditionsOf(After(s, id, blind).conditions, id), s.inputs.services[id], Build(s.inputs, id, blind);
            var starved := svc.local && NoReady(EndpointsOf(s.inputs, id, svc));
            var refused := built.Some? && Refused(s.inputs, s.lbports, id, built.value, blind);
            && (IsTrue(c, NO_READY_ENDPOINTS) <==> starved)
            && (IsTrue(c, PORT_CONFLICT) <==> !starved && refused)
            && (IsTrue(c, INVALID_SERVICE) <==> !starved && !refused && (built.None? || !Renders(svc)))
            && (IsTrue(c, RECONCILED) <==> !starved && !refused && built.Some? && Renders(svc))
  {
    OneVerdict(s, id, blind);
    VerdictNames(OutcomeOf(s, id, blind));
  }

  lemma VerdictNames(o: Outcome)
    ensures Verdict(o) == NO_READY_ENDPOINTS <==> o == NoEndpoints
    ensures Verdict(o) == PORT_CONFLICT <==> o == Conflicted
    ensures Verdict(o) == RECONCILED <==> o == Applied
  {
    ConditionsDiffer();
  }

  // ---- the conditions spelled out ----

  /** Asks for local endpoints and has none. */
  ghost predicate Starved(inputs: Inputs, id: ServiceId, svc: Service) {
    svc.local && (id !in inputs.endpoints || forall name :: name in inputs.endpoints[id] ==> inputs.endpoints[id][name] == [])
  }

  /** Its nodes are known: no annotation, or a readable one with the nodes listed. */
  ghost predicate Scoped(id: ServiceId, svc: Service, blind: set<ServiceId>) {
    svc.selector.Everywhere? || (svc.selector.Matching? && id !in blind)
  }

  /** A port twice, a name taken, or a competitor. */
  ghost predicate Contested(s: Store, id: ServiceId, blind: set<ServiceId>)
    requires id in s.inputs.services
  {
    var ports := s.inputs.services[id].ports;
    || (exists i, j :: 0 <= i < j < |ports| && SamePort(ports[i], ports[j]))
    || (exists i :: 0 <= i < |ports| && !NameFree(s.lbports, id, ports[i]))
    || (exists other :: Competes(s.inputs, id, other, blind))
  }

  /** An address, ports, TCP or UDP only, and leave for every port below 1024. */
  ghost predicate Sound(svc: Service) {
    && (exists a :: a in Addresses(svc) && (Usable(a, V4) || Usable(a, V6)))
    && svc.ports != []
    && (forall p :: p in svc.ports ==> p.protocol != SCTP && (p.port >= 1024 || svc.allowPrivileged))
  }

  lemma AddressMeaning(svc: Service, kind: IPKind)
    ensures FirstOf(Candidates(svc), kind) != "" <==> exists a :: a in Addresses(svc) && Usable(a, kind)
  {
    CandidatesLeast(svc, kind);
    var t := FirstOf(Candidates(svc), kind);
    if i :| LeastAt(Addresses(svc), kind, i) && Addresses(svc)[i].text == t {
      assert Addresses(svc)[i] in Addresses(svc);
    }
  }

  lemma SoundExactly(svc: Service)
    requires !svc.selector.Unparsable?
    ensures Renders(svc) <==> Sound(svc)
  {
    AddressMeaning(svc, V4);
    AddressMeaning(svc, V6);
    assert forall i :: 0 <= i < |svc.ports| ==> svc.ports[i] in svc.ports;
  }

  lemma ContestedExactly(s: Store, id: ServiceId, blind: set<ServiceId>)
    requires NodesNamed(s.inputs) && id in s.inputs.services && Build(s.inputs, id, blind).Some?
    ensures Refused(s.inputs, s.lbports, id, Build(s.inputs, id, blind).value, blind) <==> Contested(s, id, blind)
  {
    RepeatsMeaning(s.inputs, id, blind);
    OwnerMeaning(s.inputs, s.lbports, id, blind);
    ConflictMeaning(s.inputs, id, blind);
  }

  /** Which of the four conditions is true after a completed pass over a load balancer of ours. */
  lemma VerdictsSpelledOut(s: Store, id: ServiceId, blind: set<ServiceId>)
    requires NodesNamed(s.inputs) && id in s.inputs.services
    requires var svc := s.inputs.services[id];
             svc.loadBalancer && (svc.lbClass == None || svc.lbClass == Some("") || svc.lbClass == Some("bulb"))
    ensures var c, svc := ConditionsOf(After(s, id, blind).conditions, id), s.inputs.services[id];
            var starved, scoped, contested := Starved(s.inputs, id, svc), Scoped(id, svc, blind), Contested(s, id, blind);
            && (IsTrue(c, "NoReadyEndpoints") <==> starved)
            && (IsTrue(c, "PortConflict") <==> !starved && scoped && contested)
            && (IsTrue(c, "InvalidService") <==> !starved && (!scoped || (!contested && !Sound(svc))))
            && (IsTrue(c, "Reconciled") <==> !starved && scoped && !contested && Sound(svc))
  {
    var svc := s.inputs.services[id];
    VerdictMeaning(s, id, blind);
    assert Build(s.inputs, id, blind).Some? <==> Scoped(id, svc, blind);
    if Build(s.inputs, id, blind).Some? {
      ContestedExactly(s, id, blind);
      SoundExactly(svc);
    }
  }

  /** A Service that asks to be kept keeps its DaemonSet through its deletion, and no other does. */
  lemma KeptExactly(s: Store, id: ServiceId, blind: set<ServiceId>, later: Store, seen: set<ServiceId>)
    requires OutcomeOf(s, id, blind) == Applied && id !in later.inputs.services
    requires later.daemonSets == After(s, id, blind).daemonSets
    ensures HasDaemonSet(After(later, id, seen), id) <==> s.inputs.services[id].keep
  {
    AppliedFacts(s, id, blind);
    OwnLabels(id);
    assert !DaemonSetForeign(later.daemonSets, id);
    Uninstalled(later, id, seen);
  }

  /** The Service has LBPorts, and has a DaemonSet, exactly when it is Reconciled, whether or not
      its DaemonSet asks to be kept. */
  lemma OutcomeAgreement(s: Store, id: ServiceId, blind: set<ServiceId>)
    requires id in s.inputs.services && ServiceMatches(s.inputs.services[id]) && !DaemonSetForeign(s.daemonSets, id)
    ensures var t := After(s, id, blind);
            && (HasLBPort(t, id) <==> IsTrue(ConditionsOf(t.conditions, id), RECONCILED))
            && (HasDaemonSet(t, id) <==> IsTrue(ConditionsOf(t.conditions, id), RECONCILED))
  {
    var t := After(s, id, blind);
    OneVerdict(s, id, blind);
    forall n ensures CarriedAt(t.lbports, id, n) == if OutcomeOf(s, id, blind) == Applied then Want(DesiredOf(s, id, blind), n) else None {
      OwnExactly(s, id, blind, n);
    }
    if OutcomeOf(s, id, blind) == Applied {
      AppliedFacts(s, id, blind);
      var desired := DesiredOf(s, id, blind);
      WantAt(desired, 0);
      assert CarriedAt(t.lbports, id, desired[0].name).Some?;
      OwnLabels(id);
    }
  }

  /** When the Service is gone or no longer ours nothing of it is left but a DaemonSet that asked
      to be kept. */
  lemma Uninstalled(s: Store, id: ServiceId, blind: set<ServiceId>)
    requires OutcomeOf(s, id, blind) == Gone || OutcomeOf(s, id, blind) == NotOurs
    requires !DaemonSetForeign(s.daemonSets, id)
    ensures var t := After(s, id, blind);
            && !HasLBPort(t, id) && t.conditions == s.conditions
            && (HasDaemonSet(t, id) <==> HasDaemonSet(s, id) && s.daemonSets[DaemonSetName(id)].keep
                                         && (id in s.inputs.services ==> s.inputs.services[id].keep))
  {
    forall n ensures CarriedAt(After(s, id, blind).lbports, id, n) == None { OwnExactly(s, id, blind, n); }
  }
}
