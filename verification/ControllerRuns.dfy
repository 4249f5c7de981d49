/** Whole runs of the controller: passes over any Services in any order, completed or
    interrupted, between arbitrary edits of the cluster. */
module ControllerRuns {
  import opened Api
  import opened Cluster
  import opened Conflicts
  import opened Naming
  import opened Store
  import opened Passes

  /** An edit may change anything.  A pass says whether it completed and which Services' nodes it
      failed to list. */
  datatype Event = Edit | Pass(id: ServiceId, ok: bool, blind: set<ServiceId>)

  ghost predicate Step(s: Store, e: Event, t: Store) {
    match e
    case Edit => true
    case Pass(id, ok, blind) => if ok then t == After(s, id, blind) else Interrupted(s, t, id, blind)
  }

  ghost predicate Run(stores: seq<Store>, events: seq<Event>) {
    |stores| == |events| + 1 && forall i :: 0 <= i < |events| ==> Step(stores[i], events[i], stores[i + 1])
  }

  /** The Services that completed a pass with all nodes listed since the last edit, and met no
      failed listing afterwards. */
  ghost function Settled(events: seq<Event>): set<ServiceId> {
    if events == [] then {}
    else
      var front := Settled(events[..|events| - 1]);
      match events[|events| - 1]
      case Edit => {}
      case Pass(id, ok, blind) => if blind != {} then front - {id} else if ok then front + {id} else front
  }

  ghost predicate NamesApart(ids: set<ServiceId>) {
    forall a, b :: a in ids && b in ids && a != b ==> DaemonSetName(a) != DaemonSetName(b)
  }

  /** No DaemonSet of these names belongs to anyone else. */
  ghost predicate NoForeign(s: Store, ids: set<ServiceId>) {
    forall id :: id in ids ==> !DaemonSetForeign(s.daemonSets, id)
  }

  /** Passes stay within ids, whose DaemonSet names differ, and edits bring no foreign one. */
  ghost predicate Fair(stores: seq<Store>, events: seq<Event>, ids: set<ServiceId>)
    requires Run(stores, events)
  {
    && NamesApart(ids) && NoForeign(stores[0], ids)
    && (forall i :: 0 <= i < |events| && events[i].Pass? ==> events[i].id in ids)
    && (forall i :: 0 <= i < |events| && events[i].Edit? ==> NoForeign(stores[i + 1], ids))
  }

  // ---- DaemonSets ----

  lemma AfterDaemonSets(s: Store, id: ServiceId, blind: set<ServiceId>, name: string)
    ensures name != DaemonSetName(id) ==> At(After(s, id, blind).daemonSets, name) == At(s.daemonSets, name)
    ensures var d := At(After(s, id, blind).daemonSets, name);
            name == DaemonSetName(id) ==> d == At(s.daemonSets, name) || d.None? || d.value.labels == ServiceLabels(id)
  {
  }

  lemma ForeignKept(s: Store, t: Store, id: ServiceId, blind: set<ServiceId>, ids: set<ServiceId>)
    requires Interrupted(s, t, id, blind) && NamesApart(ids) && id in ids && NoForeign(s, ids)
    ensures NoForeign(t, ids)
  {
    forall x | x in ids ensures !DaemonSetForeign(t.daemonSets, x) {
      var name := DaemonSetName(x);
      AfterDaemonSets(s, id, blind, name);
      assert At(t.daemonSets, name) == At(s.daemonSets, name) || At(t.daemonSets, name) == At(After(s, id, blind).daemonSets, name);
      assert !DaemonSetForeign(s.daemonSets, x);
      OwnLabels(x);
    }
  }

  // ---- exclusion ----

  /** Every LBPort with the Service's labels is one it asks for, and no other Service of ours
      overlaps it. */
  ghost predicate Orderly(s: Store, id: ServiceId) {
    forall n :: CarriedAt(s.lbports, id, n).Some? ==> Asked(s.inputs, id, n, CarriedAt(s.lbports, id, n).value)
  }

  ghost predicate Asked(inputs: Inputs, id: ServiceId, n: string, p: LBPort) {
    && id in inputs.services && ServiceMatches(inputs.services[id]) && Build(inputs, id, {}).Some?
    && !ServiceConflict(inputs, id, Build(inputs, id, {}).value, {})
    && p in Build(inputs, id, {}).value && p.name == n
  }

  lemma AppliedAsked(s: Store, id: ServiceId, n: string)
    requires Lists(s, id, {}, n)
    ensures Asked(s.inputs, id, n, Want(DesiredOf(s, id, {}), n).value)
  {
    AppliedFacts(s, id, {});
    ListedFacts(s, id, {}, n);
  }

  lemma OrderlyEstablished(s: Store, id: ServiceId)
    requires !DaemonSetForeign(s.daemonSets, id)
    ensures Orderly(After(s, id, {}), id)
  {
    var t := After(s, id, {});
    AfterInputs(s, id, {});
    forall n | CarriedAt(t.lbports, id, n).Some? ensures Asked(t.inputs, id, n, CarriedAt(t.lbports, id, n).value) {
      OwnExactly(s, id, {}, n);
      AppliedAsked(s, id, n);
    }
  }

  lemma OrderlyKept(s: Store, t: Store, passed: ServiceId, blind: set<ServiceId>, id: ServiceId)
    requires Interrupted(s, t, passed, blind) && Orderly(s, id) && (passed == id ==> blind == {})
    ensures Orderly(t, id)
  {
    forall n | CarriedAt(t.lbports, id, n).Some? ensures Asked(t.inputs, id, n, CarriedAt(t.lbports, id, n).value) {
      assert At(t.lbports, n) == At(s.lbports, n) || At(t.lbports, n) == At(After(s, passed, blind).lbports, n);
      AfterAt(s, passed, blind, n);
      if Lists(s, passed, blind, n) && At(t.lbports, n) != At(s.lbports, n) {
        ListedFacts(s, passed, blind, n);
        LabelsTellService(ServiceLabels(passed), passed, id);
        AppliedAsked(s, id, n);
      } else {
        assert CarriedAt(s.lbports, id, n) == CarriedAt(t.lbports, id, n);
      }
    }
  }

  lemma SettledStep(s: Store, t: Store, e: Event, before: set<ServiceId>, after: set<ServiceId>, ids: set<ServiceId>)
    requires e.Pass? && Step(s, e, t) && e.id in ids && NoForeign(s, ids) && NamesApart(ids)
    requires after == if e.blind != {} then before - {e.id} else if e.ok then before + {e.id} else before
    requires forall id :: id in before ==> Orderly(s, id)
    ensures NoForeign(t, ids) && forall id :: id in after ==> Orderly(t, id)
  {
    CompletedIsInterrupted(s, e.id, e.blind);
    ForeignKept(s, t, e.id, e.blind, ids);
    forall id | id in after ensures Orderly(t, id) {
      if id in before {
        OrderlyKept(s, t, e.id, e.blind, id);
      } else {
        OrderlyEstablished(s, id);
      }
    }
  }

  lemma {:induction false} RunOrderly(stores: seq<Store>, events: seq<Event>, ids: set<ServiceId>)
    requires Run(stores, events) && Fair(stores, events, ids)
    ensures NoForeign(stores[|events|], ids)
    ensures forall id :: id in Settled(events) ==> Orderly(stores[|events|], id)
    decreases |events|
  {
    if events != [] {
      var k := |events| - 1;
      var es, e := events[..k], events[k];
      assert Step(stores[k], e, stores[k + 1]);
      assert Run(stores[..k + 1], es);
      RunOrderly(stores[..k + 1], es, ids);
      if e.Pass? {
        SettledStep(stores[k], stores[k + 1], e, Settled(es), Settled(events), ids);
      }
    }
  }

  lemma OrderlyApart(s: Store, a: ServiceId, b: ServiceId, m: string, n: string, node: string)
    requires Orderly(s, a) && Orderly(s, b) && NodesNamed(s.inputs)
    requires CarriedAt(s.lbports, a, m).Some? && CarriedAt(s.lbports, b, n).Some? && m != n
    ensures SameKey(s.lbports[m], s.lbports[n]) ==>
              a != b && !(AppliesToNode(s.lbports[m].spec.nodes, node) && AppliesToNode(s.lbports[n].spec.nodes, node))
  {
    var p, q := s.lbports[m], s.lbports[n];
    assert Asked(s.inputs, a, m, p) && Asked(s.inputs, b, n, q);
    BuildFacts(s.inputs, a, {}, p);
    BuildFacts(s.inputs, b, {}, q);
    if SameKey(p, q) {
      NameInjective(a, p.spec.port, p.spec.protocol, q.spec.port, q.spec.protocol);
      var x, y := Build(s.inputs, a, {}).value, Build(s.inputs, b, {}).value;
      var i :| 0 <= i < |x| && x[i] == p;
      var j :| 0 <= j < |y| && y[j] == q;
      assert !Rival(s.inputs, a, b, x, {});
      assert a != b ==> !Clash(x[i], y[j]);
      OverlapExact(p.spec.nodes, q.spec.nodes);
    }
  }

  /** In every run, two LBPorts of settled Services never claim the same port and protocol on the
      same node, and one Service never claims a port and protocol twice. */
  lemma Exclusion(stores: seq<Store>, events: seq<Event>, ids: set<ServiceId>,
                  a: ServiceId, b: ServiceId, m: string, n: string, node: string)
    requires Run(stores, events) && Fair(stores, events, ids) && NodesNamed(stores[|events|].inputs)
    requires a in Settled(events) && b in Settled(events) && m != n
    requires CarriedAt(stores[|events|].lbports, a, m).Some? && CarriedAt(stores[|events|].lbports, b, n).Some?
    ensures var p, q := stores[|events|].lbports[m], stores[|events|].lbports[n];
            SameKey(p, q) ==> a != b && !(AppliesToNode(p.spec.nodes, node) && AppliesToNode(q.spec.nodes, node))
  {
    RunOrderly(stores, events, ids);
    OrderlyApart(stores[|events|], a, b, m, n, node);
  }

  /** Two Services that overlap are both refused, whatever LBPorts exist and whichever goes first. */
  lemma BothRefused(inputs: Inputs, lbports: map<string, LBPort>, a: ServiceId, b: ServiceId)
    requires NodesNamed(inputs) && a in inputs.services && b in inputs.services && a != b
    requires ServiceMatches(inputs.services[a]) && ServiceMatches(inputs.services[b])
    requires Build(inputs, a, {}).Some? && Build(inputs, b, {}).Some?
    requires AnyClash(Build(inputs, a, {}).value, Build(inputs, b, {}).value)
    ensures Decide(inputs, lbports, a, {}) != Applied && Decide(inputs, lbports, b, {}) != Applied
  {
    assert Rival(inputs, a, b, Build(inputs, a, {}).value, {});
    RivalrySymmetric(inputs, a, b, {});
    assert Rival(inputs, b, a, Build(inputs, b, {}).value, {});
  }
}
