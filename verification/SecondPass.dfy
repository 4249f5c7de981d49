/** Running a pass again.  Nothing is written the second time, except in one case: the first pass
    refused the Service because of an LBPort with the Service's own labels, and deleted it. */
module SecondPass {
  import opened Api
  import opened Cluster
  import opened Conflicts
  import opened Naming
  import opened Store
  import opened Passes
  import opened Wrappers

  /** Nothing but a taken name can stand in the Service's way. */
  ghost predicate Acceptable(inputs: Inputs, id: ServiceId, blind: set<ServiceId>) {
    && id in inputs.services && ServiceMatches(inputs.services[id]) && Renders(inputs.services[id])
    && !(inputs.services[id].local && NoReady(EndpointsOf(inputs, id, inputs.services[id])))
    && Build(inputs, id, blind).Some? && !Repeats(Build(inputs, id, blind).value)
    && !ServiceConflict(inputs, id, Build(inputs, id, blind).value, blind)
  }

  lemma AppliedExactly(s: Store, id: ServiceId, blind: set<ServiceId>)
    ensures OutcomeOf(s, id, blind) == Applied
       <==> Acceptable(s.inputs, id, blind) && !OwnerConflict(s.lbports, Build(s.inputs, id, blind).value)
  {
  }

  /** Only LBPorts with the Service's own labels, owned by someone else or labelled further, are in
      the way, and the pass will delete them. */
  ghost predicate SelfObstructed(s: Store, id: ServiceId, blind: set<ServiceId>) {
    && Acceptable(s.inputs, id, blind) && !DaemonSetForeign(s.daemonSets, id)
    && OwnerConflict(s.lbports, Build(s.inputs, id, blind).value)
    && OwnObstacles(s.lbports, id, Build(s.inputs, id, blind).value)
  }

  ghost predicate OwnObstacles(lbports: map<string, LBPort>, id: ServiceId, desired: seq<LBPort>) {
    forall i :: 0 <= i < |desired| && Taken(lbports, desired[i]) ==> Carries(lbports[desired[i].name].labels, id)
  }

  lemma AfterForeign(s: Store, id: ServiceId, blind: set<ServiceId>)
    ensures DaemonSetForeign(After(s, id, blind).daemonSets, id)
       <==> DaemonSetForeign(s.daemonSets, id) && OutcomeOf(s, id, blind) != Applied
  {
    OwnLabels(id);
  }

  /** After clearing, a name is taken exactly when an object without the Service's labels took it
      before. */
  lemma ClearedObstacles(s: Store, id: ServiceId, blind: set<ServiceId>, want: LBPort)
    requires OutcomeOf(s, id, blind) != Applied && !DaemonSetForeign(s.daemonSets, id)
    ensures Taken(After(s, id, blind).lbports, want)
       <==> Taken(s.lbports, want) && !Carries(s.lbports[want.name].labels, id)
  {
    AfterAt(s, id, blind, want.name);
    var t := After(s, id, blind).lbports;
    assert At(t, want.name).Some? ==> t[want.name] == At(t, want.name).value;
  }

  lemma AgainApplied(s: Store, id: ServiceId, blind: set<ServiceId>)
    requires OutcomeOf(s, id, blind) == Applied
    ensures After(After(s, id, blind), id, blind).lbports == After(s, id, blind).lbports
  {
    var t := After(s, id, blind);
    AppliedFacts(s, id, blind);
    AppliedExactly(s, id, blind);
    var desired := DesiredOf(s, id, blind);
    forall i | 0 <= i < |desired| ensures !Taken(t.lbports, desired[i]) {
      WantAt(desired, i);
      AfterAt(s, id, blind, desired[i].name);
      ListedFacts(s, id, blind, desired[i].name);
      OwnLabels(id);
    }
    AppliedExactly(t, id, blind);
    forall n ensures At(After(t, id, blind).lbports, n) == At(t.lbports, n) {
      AfterAt(s, id, blind, n);
      AfterAt(t, id, blind, n);
      OwnExactly(s, id, blind, n);
    }
    SameEntries(After(t, id, blind).lbports, t.lbports);
  }

  lemma AgainForeign(s: Store, id: ServiceId, blind: set<ServiceId>)
    requires OutcomeOf(s, id, blind) != Applied && DaemonSetForeign(s.daemonSets, id)
    ensures After(After(s, id, blind), id, blind).lbports == After(s, id, blind).lbports
  {
    var t := After(s, id, blind);
    AfterInputs(s, id, blind);
    forall n ensures At(t.lbports, n) == At(s.lbports, n) { AfterAt(s, id, blind, n); }
    SameEntries(t.lbports, s.lbports);
    AfterForeign(s, id, blind);
    forall n ensures At(After(t, id, blind).lbports, n) == At(t.lbports, n) { AfterAt(t, id, blind, n); }
    SameEntries(After(t, id, blind).lbports, t.lbports);
  }

  lemma ClearedThenApplied(s: Store, id: ServiceId, blind: set<ServiceId>)
    requires OutcomeOf(s, id, blind) != Applied && !DaemonSetForeign(s.daemonSets, id)
    ensures OutcomeOf(After(s, id, blind), id, blind) == Applied <==> SelfObstructed(s, id, blind)
  {
    var t := After(s, id, blind);
    AfterInputs(s, id, blind);
    AppliedExactly(s, id, blind);
    AppliedExactly(t, id, blind);
    if Acceptable(s.inputs, id, blind) {
      var desired := Build(s.inputs, id, blind).value;
      forall i | 0 <= i < |desired|
        ensures Taken(t.lbports, desired[i]) <==> Taken(s.lbports, desired[i]) && !Carries(s.lbports[desired[i].name].labels, id)
      {
        ClearedObstacles(s, id, blind, desired[i]);
      }
    }
  }

  lemma AgainCleared(s: Store, id: ServiceId, blind: set<ServiceId>)
    requires OutcomeOf(s, id, blind) != Applied && !DaemonSetForeign(s.daemonSets, id)
    ensures After(After(s, id, blind), id, blind).lbports == After(s, id, blind).lbports <==> !SelfObstructed(s, id, blind)
  {
    var t := After(s, id, blind);
    ClearedThenApplied(s, id, blind);
    if OutcomeOf(t, id, blind) == Applied {
      AppliedFacts(t, id, blind);
      var name := DesiredOf(t, id, blind)[0].name;
      WantAt(DesiredOf(t, id, blind), 0);
      OwnExactly(t, id, blind, name);
      OwnExactly(s, id, blind, name);
    } else {
      forall n ensures At(After(t, id, blind).lbports, n) == At(t.lbports, n) {
        AfterAt(t, id, blind, n);
        OwnExactly(s, id, blind, n);
      }
      SameEntries(After(t, id, blind).lbports, t.lbports);
    }
  }

  /** A second pass changes no LBPort, exactly unless the first found only obstacles of the
      Service's own making. */
  lemma SecondPassIdle(s: Store, id: ServiceId, blind: set<ServiceId>)
    ensures After(After(s, id, blind), id, blind).lbports == After(s, id, blind).lbports <==> !SelfObstructed(s, id, blind)
  {
    if OutcomeOf(s, id, blind) == Applied {
      AppliedExactly(s, id, blind);
      AgainApplied(s, id, blind);
    } else if DaemonSetForeign(s.daemonSets, id) {
      AgainForeign(s, id, blind);
    } else {
      AgainCleared(s, id, blind);
    }
  }

  /** When nothing has to change nothing is written, completed or not. */
  lemma NoWrite(before: map<string, LBPort>, now: map<string, LBPort>, log: seq<string>)
    requires Progress(before, now, before, log)
    ensures log == [] && now == before
  {
    if log != [] { assert log[0] in log; }
    SameEntries(now, before);
  }

  /** Whatever the first pass wrote, the second writes no LBPort at all. */
  lemma SecondPassSilent(s: Store, id: ServiceId, blind: set<ServiceId>, now: map<string, LBPort>, log: seq<string>)
    requires !SelfObstructed(s, id, blind)
    requires Progress(After(s, id, blind).lbports, now, After(After(s, id, blind), id, blind).lbports, log)
    ensures log == []
  {
    SecondPassIdle(s, id, blind);
    NoWrite(After(s, id, blind).lbports, now, log);
  }

  // ---- the exception occurs ----

  const ID := ServiceId("d", "x")
  const WEB := Service(true, None, Everywhere, false, false, false, Address("10.0.0.1", V4), [], [ServicePort("", 8080, TCP, "")])
  const WEB_PORT := LBPortName(ID, 8080, TCP)

  /** A Service and an LBPort with its labels that names another owner. */
  function Obstructed(): Store {
    Store(Inputs(map[ID := WEB], map[], map[]),
          map[WEB_PORT := LBPort(WEB_PORT, ServiceLabels(ID), LBPortSpec(8080, TCP, [ALL_NODES], "someone", false))],
          map[], map[])
  }

  lemma WebAcceptable()
    ensures Acceptable(Obstructed().inputs, ID, {}) && Build(Obstructed().inputs, ID, {}).Some?
    ensures Build(Obstructed().inputs, ID, {}).value == [PortObject(ID, WEB, WEB.ports[0], [ALL_NODES])]
  {
    var inputs := Obstructed().inputs;
    var desired := Build(inputs, ID, {}).value;
    assert desired == [PortObject(ID, WEB, WEB.ports[0], [ALL_NODES])];
    assert Candidates(WEB) == [WEB.clusterIP];
    assert "10.0.0.1"[0] == '1' && NO_IP[0] == 'N';
    assert FirstOf(Candidates(WEB), V4) == "10.0.0.1";
    forall other ensures !Rival(inputs, ID, other, desired, {}) { }
  }

  /** The first pass refuses the Service and the second applies it. */
  lemma ObstructionExample()
    ensures SelfObstructed(Obstructed(), ID, {})
    ensures OutcomeOf(Obstructed(), ID, {}) == Conflicted
    ensures OutcomeOf(After(Obstructed(), ID, {}), ID, {}) == Applied
  {
    var s := Obstructed();
    WebAcceptable();
    OwnLabels(ID);
    var desired := Build(s.inputs, ID, {}).value;
    assert "someone"[0] == 's' && OWNER[0] == 'b';
    assert Taken(s.lbports, desired[0]);
    AppliedExactly(s, ID, {});
    ClearedThenApplied(s, ID, {});
  }
}
