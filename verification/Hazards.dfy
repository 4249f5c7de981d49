/** Where the controller's promises stop: foreign DaemonSets, empty label values and failed node
    listings.  Each comes with the exact condition and an input that meets it. */
module Hazards {
  import opened Api
  import opened Cluster
  import opened Conflicts
  import opened Naming
  import opened Store
  import opened Passes
  import opened Wrappers
  import P = SecondPass

  // ---- a DaemonSet name that two Services share ----

  /** A completed pass that does not apply the Service leaves LBPorts of it exactly when it had
      some and the DaemonSet of its name is someone else's. */
  lemma LeftoverExactly(s: Store, id: ServiceId, blind: set<ServiceId>)
    requires OutcomeOf(s, id, blind) != Applied
    ensures HasLBPort(After(s, id, blind), id) <==> HasLBPort(s, id) && DaemonSetForeign(s.daemonSets, id)
  {
    var t := After(s, id, blind);
    forall n ensures CarriedAt(t.lbports, id, n) == if DaemonSetForeign(s.daemonSets, id) then CarriedAt(s.lbports, id, n) else None {
      OwnExactly(s, id, blind, n);
    }
    if HasLBPort(s, id) && DaemonSetForeign(s.daemonSets, id) {
      var n :| CarriedAt(s.lbports, id, n).Some?;
      assert CarriedAt(t.lbports, id, n).Some?;
    }
  }

  const FIRST := ServiceId("a", "b-c")
  const SECOND := ServiceId("a-b", "c")

  /** FIRST is gone and has left an LBPort; SECOND's DaemonSet stands under the same name. */
  function Collided(): Store {
    var n := LBPortName(FIRST, 8080, TCP);
    Store(Inputs(map[], map[], map[]),
          map[n := LBPort(n, ServiceLabels(FIRST), LBPortSpec(8080, TCP, [ALL_NODES], OWNER, false))],
          map[DaemonSetName(SECOND) := DaemonSet(ServiceLabels(SECOND), false, [])], map[])
  }

  lemma CollisionExample()
    ensures DaemonSetForeign(Collided().daemonSets, FIRST)
    ensures OutcomeOf(Collided(), FIRST, {}) == Gone && HasLBPort(After(Collided(), FIRST, {}), FIRST)
  {
    var s := Collided();
    NamesCollide();
    OwnLabels(FIRST);
    OwnLabels(SECOND);
    assert |FIRST.name| != |SECOND.name|;
    assert CarriedAt(s.lbports, FIRST, LBPortName(FIRST, 8080, TCP)).Some?;
    LeftoverExactly(s, FIRST, {});
  }

  // ---- a label with an empty value ----

  /** An LBPort of a wanted name that lacks the Service's namespace label but has an empty one. */
  function HalfLabelled(): Store {
    Store(Inputs(map[P.ID := P.WEB], map[], map[]),
          map[P.WEB_PORT := LBPort(P.WEB_PORT, map[MANAGED_BY := BULB, SERVICE := P.ID.name, "z" := ""],
                                   LBPortSpec(9090, UDP, [ALL_NODES], "", false))],
          map[], map[])
  }

  lemma HalfLabelledReadsSame()
    ensures SameMap(HalfLabelled().lbports[P.WEB_PORT].labels, ServiceLabels(P.ID))
  {
    var a, b := HalfLabelled().lbports[P.WEB_PORT].labels, ServiceLabels(P.ID);
    KeysDiffer();
    assert |"z"| != |MANAGED_BY| && |"z"| != |SERVICE| && |"z"| != |SERVICE_NS|;
    assert a.Keys == {MANAGED_BY, SERVICE, "z"} && b.Keys == {MANAGED_BY, SERVICE, SERVICE_NS};
    assert |a| == |a.Keys| && |b| == |b.Keys|;
    assert Read(b, "z") == "";
  }

  /** The pass overwrites an LBPort that does not carry the Service's labels. */
  lemma AdoptionExample()
    ensures !Carries(HalfLabelled().lbports[P.WEB_PORT].labels, P.ID)
    ensures At(After(HalfLabelled(), P.ID, {}).lbports, P.WEB_PORT) != At(HalfLabelled().lbports, P.WEB_PORT)
  {
    var s := HalfLabelled();
    KeysDiffer();
    assert |"z"| != |SERVICE_NS|;
    P.WebAcceptable();
    assert s.inputs == P.Obstructed().inputs;
    var desired := Build(s.inputs, P.ID, {}).value;
    HalfLabelledReadsSame();
    forall i | 0 <= i < |desired| ensures !Taken(s.lbports, desired[i]) { }
    P.AppliedExactly(s, P.ID, {});
    AppliedFacts(s, P.ID, {});
    WantAt(desired, 0);
    Frame(s, P.ID, {}, P.WEB_PORT);
  }

  // ---- a node listing that fails ----

  /** A rival is overlooked exactly when its nodes could not be listed and it needs the list. */
  lemma RivalSeen(inputs: Inputs, id: ServiceId, other: ServiceId, desired: seq<LBPort>, blind: set<ServiceId>)
    ensures Rival(inputs, id, other, desired, blind)
       <==> Rival(inputs, id, other, desired, {}) && !(other in blind && inputs.services[other].selector.Matching?)
  {
  }

  ghost predicate AllRivalsHidden(inputs: Inputs, id: ServiceId, desired: seq<LBPort>, blind: set<ServiceId>) {
    forall other :: Rival(inputs, id, other, desired, {}) ==> other in blind && inputs.services[other].selector.Matching?
  }

  /** A pass misses every overlap with other Services exactly when all rivals are hidden from it. */
  lemma ConflictMissed(inputs: Inputs, id: ServiceId, desired: seq<LBPort>, blind: set<ServiceId>)
    ensures ServiceConflict(inputs, id, desired, blind)
       <==> ServiceConflict(inputs, id, desired, {}) && !AllRivalsHidden(inputs, id, desired, blind)
  {
    forall other
      ensures Rival(inputs, id, other, desired, blind)
         <==> Rival(inputs, id, other, desired, {}) && !(other in blind && inputs.services[other].selector.Matching?)
    {
      RivalSeen(inputs, id, other, desired, blind);
    }
  }

  const ONE := ServiceId("d", "x")
  const TWO := ServiceId("d", "y")

  function Edge(): Service {
    P.WEB.(selector := Matching(l => true))
  }

  /** Two Services that want the same port on the same node. */
  function Rivals(): Store {
    Store(Inputs(map[ONE := Edge(), TWO := Edge()], map["n" := Node(true, map[])], map[]), map[], map[], map[])
  }

  lemma EdgeBuild(id: ServiceId, blind: set<ServiceId>)
    requires id == ONE || id == TWO
    ensures if id in blind then Build(Rivals().inputs, id, blind).None?
            else var b := Build(Rivals().inputs, id, blind);
                 b.Some? && |b.value| == 1 && b.value[0].name == LBPortName(id, 8080, TCP)
                 && b.value[0].spec.port == 8080 && b.value[0].spec.protocol == TCP && AppliesToNode(b.value[0].spec.nodes, "n")
  {
    var inputs := Rivals().inputs;
    assert Matched(inputs.nodes, Edge().selector.matches) == {"n"};
    AscendFacts({"n"});
    var nodes := Ascend({"n"});
    assert "n" in nodes;
    assert AppliesToNode(nodes, "n");
  }

  lemma EdgeRenders()
    ensures Renders(Edge()) && ServiceMatches(Edge())
  {
    assert Candidates(Edge()) == [Edge().clusterIP];
    assert "10.0.0.1"[0] == '1' && NO_IP[0] == 'N';
    assert FirstOf(Candidates(Edge()), V4) == "10.0.0.1";
  }

  lemma EdgeApplied(s: Store, id: ServiceId, other: ServiceId)
    requires s.inputs == Rivals().inputs && {id, other} == {ONE, TWO} && id != other
    requires LBPortName(id, 8080, TCP) !in s.lbports
    ensures OutcomeOf(s, id, {other}) == Applied
    ensures CarriedAt(After(s, id, {other}).lbports, id, LBPortName(id, 8080, TCP)) == Some(Build(s.inputs, id, {other}).value[0])
  {
    EdgeBuild(id, {other});
    EdgeBuild(other, {other});
    EdgeRenders();
    var desired := Build(s.inputs, id, {other}).value;
    forall x ensures !Rival(s.inputs, id, x, desired, {other}) { }
    P.AppliedExactly(s, id, {other});
    AppliedFacts(s, id, {other});
    WantAt(desired, 0);
    OwnExactly(s, id, {other}, LBPortName(id, 8080, TCP));
  }

  /** Two completed passes, each with the other Service's nodes unlisted, and both hold the port
      on the node. */
  lemma BlindExample()
    ensures var t := After(After(Rivals(), ONE, {TWO}), TWO, {ONE});
            var p, q := CarriedAt(t.lbports, ONE, LBPortName(ONE, 8080, TCP)), CarriedAt(t.lbports, TWO, LBPortName(TWO, 8080, TCP));
            && p.Some? && q.Some? && SameKey(p.value, q.value)
            && AppliesToNode(p.value.spec.nodes, "n") && AppliesToNode(q.value.spec.nodes, "n")
  {
    var s := Rivals();
    var m, n := LBPortName(ONE, 8080, TCP), LBPortName(TWO, 8080, TCP);
    NamesDiffer();
    EdgeApplied(s, ONE, TWO);
    var u := After(s, ONE, {TWO});
    AfterInputs(s, ONE, {TWO});
    NotListed(s);
    EdgeApplied(u, TWO, ONE);
    EdgeBuild(ONE, {TWO});
    EdgeBuild(TWO, {ONE});
    CompletedIsInterrupted(u, TWO, {ONE});
    OthersUntouched(u, After(u, TWO, {ONE}), TWO, {ONE}, m, ONE);
  }

  lemma NamesDiffer()
    ensures LBPortName(ONE, 8080, TCP) != LBPortName(TWO, 8080, TCP)
  {
    var a, b := DaemonSetName(ONE), DaemonSetName(TWO);
    assert a[|a| - 1] == 'x' && b[|b| - 1] == 'y';
    if LBPortName(ONE, 8080, TCP) == LBPortName(TWO, 8080, TCP) { NameTellsService(ONE, 8080, TCP, TWO, 8080, TCP); }
  }

  lemma NotListed(s: Store)
    requires s == Rivals() && OutcomeOf(s, ONE, {TWO}) == Applied
    ensures LBPortName(TWO, 8080, TCP) !in After(s, ONE, {TWO}).lbports
  {
    var n := LBPortName(TWO, 8080, TCP);
    AfterAt(s, ONE, {TWO}, n);
    EdgeBuild(ONE, {TWO});
    NamesDiffer();
    WantFacts(DesiredOf(s, ONE, {TWO}), n);
  }

  // ---- the Service's own node listing fails ----

  /** Failing to list the nodes for the Service itself turns the decision into Invalid exactly when the
      annotation needs the list and the ports would have been looked at. */
  lemma OwnListingExactly(s: Store, id: ServiceId)
    ensures OutcomeOf(s, id, {id}) != OutcomeOf(s, id, {})
       <==> id in s.inputs.services && s.inputs.services[id].selector.Matching?
            && (OutcomeOf(s, id, {}) == Applied || OutcomeOf(s, id, {}) == Conflicted)
    ensures OutcomeOf(s, id, {id}) != OutcomeOf(s, id, {}) ==> OutcomeOf(s, id, {id}) == Invalid
  {
    if id in s.inputs.services && Build(s.inputs, id, {id}).Some? {
      var desired := Build(s.inputs, id, {id}).value;
      forall other ensures Rival(s.inputs, id, other, desired, {id}) <==> Rival(s.inputs, id, other, desired, {}) {
        RivalSeen(s.inputs, id, other, desired, {id});
      }
    }
  }

  /** Such a pass completes without an error, calls a Service it would have applied invalid, and takes
      down its LBPorts and DaemonSet. */
  lemma OwnListingTearsDown(s: Store, id: ServiceId)
    requires OutcomeOf(s, id, {}) == Applied && s.inputs.services[id].selector.Matching? && !DaemonSetForeign(s.daemonSets, id)
    ensures var t := After(s, id, {id});
            && IsTrue(ConditionsOf(t.conditions, id), INVALID_SERVICE) && !HasLBPort(t, id) && !HasDaemonSet(t, id)
  {
    OwnListingExactly(s, id);
    AppliedFacts(s, id, {});
    OneVerdict(s, id, {id});
    OutcomeAgreement(s, id, {id});
  }

  /** One Service whose annotation picks a node. */
  function Alone(): Store {
    Store(Inputs(map[ONE := Edge()], map["n" := Node(true, map[])], map[]), map[], map[], map[])
  }

  lemma AloneApplied()
    ensures OutcomeOf(Alone(), ONE, {}) == Applied
  {
    var s := Alone();
    EdgeRenders();
    var desired := Build(s.inputs, ONE, {}).value;
    forall x ensures !Rival(s.inputs, ONE, x, desired, {}) { }
    P.AppliedExactly(s, ONE, {});
  }

  /** A Service that one pass applies and the next, which fails to list the nodes, takes down. */
  lemma TearDownExample()
    ensures var t := After(Alone(), ONE, {});
            HasLBPort(t, ONE) && OutcomeOf(t, ONE, {ONE}) == Invalid && !HasLBPort(After(t, ONE, {ONE}), ONE)
  {
    var s := Alone();
    var t := After(s, ONE, {});
    AloneApplied();
    AfterInputs(s, ONE, {});
    EdgeRenders();
    OutcomeAgreement(s, ONE, {});
    OneVerdict(s, ONE, {});
    P.AfterForeign(s, ONE, {});
    assert OutcomeOf(t, ONE, {ONE}) == Invalid;
    LeftoverExactly(t, ONE, {ONE});
  }
}
