/** The Service reconciler: one pass over one Service, any of whose API calls may fail. */
module Reconciler {
  import opened Api
  import opened Cluster
  import opened Conflicts
  import opened Naming
  import opened Store
  import opened Wrappers
  import A = ServiceArgs

  method Empty(endpoints: ServiceEndpoints) returns (empty: bool)
    ensures empty == NoReady(endpoints)
  {
    var names := endpoints.Keys;
    while names != {}
      invariant names <= endpoints.Keys
      invariant forall n :: n in endpoints && n !in names ==> endpoints[n] == []
      decreases |names|
    {
      var n :| n in names;
      if |endpoints[n]| > 0 { return false; }
      names := names - {n};
    }
    empty := true;
  }

  method BuildDaemonSet(id: ServiceId, svc: Service, endpoints: ServiceEndpoints) returns (r: Option<DaemonSet>)
    ensures r == if Renders(svc) then Some(DaemonSetOf(id, svc, endpoints)) else None
  {
    var v4, v6 := SplitClusterIPs(svc);
    if v4 == "" && v6 == "" { return None; }
    if |svc.ports| == 0 { return None; }
    for i := 0 to |svc.ports|
      invariant forall j :: 0 <= j < i ==> svc.ports[j].port >= 1024 || svc.allowPrivileged
    {
      if svc.ports[i].port < 1024 && !svc.allowPrivileged { return None; }
    }
    var args := A.PortsAndArgs(svc, endpoints);
    if args.Err? || svc.selector.Unparsable? { return None; }
    r := Some(DaemonSet(ServiceLabels(id), svc.keep,
                        ["--" + A.DRAIN + "=" + "30s", "--" + A.HEALTH + "=" + ":8081"] + args.value));
  }

  /** SetStatusCondition for each in turn. */
  function Upserts(c: Conditions, changes: seq<(string, bool)>): Conditions {
    if changes == [] then c
    else
      var last := changes[|changes| - 1];
      Upserts(c, changes[..|changes| - 1])[last.0 := last.1]
  }

  function Changes(verdict: string): seq<(string, bool)> {
    [(RECONCILED, verdict == RECONCILED), (PORT_CONFLICT, verdict == PORT_CONFLICT),
     (INVALID_SERVICE, verdict == INVALID_SERVICE), (NO_READY_ENDPOINTS, verdict == NO_READY_ENDPOINTS)]
  }

  lemma ChangesFlag(c: Conditions, verdict: string)
    ensures Upserts(c, Changes(verdict)) == Flagged(c, verdict)
  {
    var ch := Changes(verdict);
    assert ch[..3] == [ch[0], ch[1], ch[2]] && [ch[0], ch[1], ch[2]][..2] == [ch[0], ch[1]] && [ch[0], ch[1]][..1] == [ch[0]];
    assert Upserts(c, [ch[0]]) == c[ch[0].0 := ch[0].1];
    assert Upserts(c, [ch[0], ch[1]]) == Upserts(c, [ch[0]])[ch[1].0 := ch[1].1];
    assert Upserts(c, [ch[0], ch[1], ch[2]]) == Upserts(c, [ch[0], ch[1]])[ch[2].0 := ch[2].1];
  }

  lemma ProgressBetween(before: map<string, LBPort>, now: map<string, LBPort>, goal: map<string, LBPort>, log: seq<string>)
    requires Progress(before, now, goal, log)
    ensures Between(before, now, goal)
  {
    forall n ensures At(now, n) == At(before, n) || At(now, n) == At(goal, n) { assert n in log || n !in log; }
  }

  /** Writing one more changed name is progress. */
  lemma ProgressStep(before: map<string, LBPort>, now: map<string, LBPort>, next: map<string, LBPort>,
                     goal: map<string, LBPort>, log: seq<string>, name: string)
    requires Progress(before, now, goal, log) && name !in log && At(before, name) != At(goal, name)
    requires At(next, name) == At(goal, name) && forall n :: n != name ==> At(next, n) == At(now, n)
    ensures Progress(before, next, goal, log + [name])
  {
  }

  /** The names that carry the Service's labels. */
  function Mine(lbports: map<string, LBPort>, id: ServiceId): set<string> {
    set n | n in lbports && Carries(lbports[n].labels, id)
  }

  /** Kept names end as they are now; of the others, `mine` go and the rest stay. */
  ghost predicate KeptOrCleared(before: map<string, LBPort>, now: map<string, LBPort>, goal: map<string, LBPort>,
                                keep: set<string>, mine: set<string>) {
    && mine <= before.Keys
    && (forall n :: n in keep ==> At(now, n) == At(goal, n))
    && (forall n :: n !in keep ==> At(goal, n) == if n in mine then None else At(before, n))
  }

  /** Of the names to delete, `items` are left and the others are logged. */
  ghost predicate Deleting(before: map<string, LBPort>, now: map<string, LBPort>, goal: map<string, LBPort>,
                           keep: set<string>, mine: set<string>, items: set<string>, log: seq<string>) {
    && Progress(before, now, goal, log) && KeptOrCleared(before, now, goal, keep, mine)
    && (forall n :: n in items && n !in keep ==> n in mine && n !in log)
    && (forall n :: n in mine && n !in keep && n !in items ==> n in log)
  }

  lemma DeleteStarts(before: map<string, LBPort>, now: map<string, LBPort>, goal: map<string, LBPort>,
                     id: ServiceId, keep: set<string>, log: seq<string>)
    requires Progress(before, now, goal, log) && (forall n :: n !in keep ==> n !in log)
    requires KeptOrCleared(before, now, goal, keep, Mine(before, id))
    ensures Deleting(before, now, goal, keep, Mine(before, id), Mine(now, id), log)
  {
    forall n | n !in keep ensures n in Mine(now, id) <==> n in Mine(before, id) {
      assert At(now, n) == At(before, n);
    }
  }

  lemma DeleteStep(before: map<string, LBPort>, now: map<string, LBPort>, goal: map<string, LBPort>,
                   keep: set<string>, mine: set<string>, items: set<string>, item: string, log: seq<string>)
    requires Deleting(before, now, goal, keep, mine, items, log) && item in items && item !in keep
    ensures Deleting(before, now - {item}, goal, keep, mine, items - {item}, log + [item])
  {
    assert At(now, item) == At(before, item);
    forall n | n != item ensures At(now - {item}, n) == At(now, n) { }
    ProgressStep(before, now, now - {item}, goal, log, item);
  }

  lemma DeletesDone(before: map<string, LBPort>, now: map<string, LBPort>, goal: map<string, LBPort>,
                    keep: set<string>, mine: set<string>, log: seq<string>)
    requires Deleting(before, now, goal, keep, mine, {}, log)
    ensures now == goal
  {
    forall n ensures At(now, n) == At(goal, n) {
      if n !in keep && n !in log { assert At(now, n) == At(before, n); }
    }
    SameEntries(now, goal);
  }

  /** The first i desired objects are in place and the others untouched. */
  ghost predicate Writing(before: map<string, LBPort>, now: map<string, LBPort>, goal: map<string, LBPort>,
                          desired: seq<LBPort>, i: nat, log: seq<string>)
    requires i <= |desired|
  {
    && Progress(before, now, goal, log)
    && (forall n :: n in log ==> n in Names(desired))
    && (forall j :: i <= j < |desired| ==> desired[j].name !in log)
    && (forall j :: 0 <= j < i ==> At(now, desired[j].name) == Some(desired[j]))
  }

  lemma WriteStep(before: map<string, LBPort>, now: map<string, LBPort>, goal: map<string, LBPort>,
                  desired: seq<LBPort>, i: nat, log: seq<string>)
    requires i < |desired| && DistinctNames(desired) && Writing(before, now, goal, desired, i, log)
    requires At(goal, desired[i].name) == Some(desired[i])
    ensures var want := desired[i];
            if At(now, want.name) == Some(want) then Writing(before, now, goal, desired, i + 1, log)
            else Writing(before, now[want.name := want], goal, desired, i + 1, log + [want.name])
  {
    var want := desired[i];
    if At(now, want.name) != Some(want) {
      var next := now[want.name := want];
      assert At(now, want.name) == At(before, want.name);
      forall n | n != want.name ensures At(next, n) == At(now, n) { }
      ProgressStep(before, now, next, goal, log, want.name);
      assert want.name in Names(desired);
      forall j | 0 <= j < i ensures At(next, desired[j].name) == Some(desired[j]) {
        assert desired[j].name != want.name;
      }
      forall j | i < j < |desired| ensures desired[j].name !in log + [want.name] {
        assert desired[j].name != want.name;
      }
    }
  }

  lemma WritesDone(before: map<string, LBPort>, now: map<string, LBPort>, id: ServiceId, desired: seq<LBPort>, log: seq<string>)
    requires DistinctNames(desired) && Writing(before, now, Installed(before, id, desired), desired, |desired|, log)
    ensures KeptOrCleared(before, now, Installed(before, id, desired), Names(desired), Mine(before, id))
  {
    var goal := Installed(before, id, desired);
    forall n ensures n in Names(desired) ==> At(now, n) == At(goal, n) {
      InstalledAt(before, id, desired, n);
      if n in Names(desired) {
        var j :| 0 <= j < |desired| && desired[j].name == n;
        WantAt(desired, j);
      }
    }
    forall n | n !in Names(desired) ensures At(goal, n) == if n in Mine(before, id) then None else At(before, n) {
      InstalledAt(before, id, desired, n);
      WantFacts(desired, n);
    }
  }

  lemma NamesStep(desired: seq<LBPort>, i: nat)
    requires i < |desired|
    ensures Names(desired[..i + 1]) == Names(desired[..i]) + {desired[i].name}
  {
    forall n | n in Names(desired[..i]) ensures n in Names(desired[..i + 1]) {
      var j :| 0 <= j < i && desired[..i][j].name == n;
      assert desired[..i + 1][j].name == n;
    }
    assert desired[..i + 1][i].name in Names(desired[..i + 1]);
    forall n | n in Names(desired[..i + 1]) && n != desired[i].name ensures n in Names(desired[..i]) {
      var j :| 0 <= j < i + 1 && desired[..i + 1][j].name == n;
      assert desired[..i][j].name == n;
    }
  }

  lemma GoalNames(before: map<string, LBPort>, id: ServiceId, desired: seq<LBPort>)
    requires DistinctNames(desired)
    ensures forall i :: 0 <= i < |desired| ==> At(Installed(before, id, desired), desired[i].name) == Some(desired[i])
  {
    forall i | 0 <= i < |desired| ensures At(Installed(before, id, desired), desired[i].name) == Some(desired[i]) {
      WantAt(desired, i);
      InstalledAt(before, id, desired, desired[i].name);
    }
  }

  lemma NothingDone(s: Store, goal: Store)
    ensures Partly(s, s, goal) && Progress(s.lbports, s.lbports, goal.lbports, [])
  {
  }

  class ServiceReconciler {
    var store: Store
    var calls: nat
    const fails: nat -> bool
    /** The names of the LBPorts written, in order, and the number of calls that failed. */
    ghost var log: seq<string>
    ghost var faults: nat

    constructor (store: Store, fails: nat -> bool)
      ensures this.store == store && this.fails == fails && calls == 0 && log == [] && faults == 0
    {
      this.store, this.fails, calls, log, faults := store, fails, 0, [], 0;
    }

    /** The API server answers, or does not. */
    method Call() returns (ok: bool)
      modifies this`calls, this`faults
      ensures ok == !fails(old(calls)) && calls == old(calls) + 1
      ensures faults == old(faults) + if ok then 0 else 1
    {
      ok := !fails(calls);
      calls := calls + 1;
      faults := faults + if ok then 0 else 1;
    }

    method PutLBPort(want: LBPort) returns (ok: bool)
      modifies this
      ensures faults == old(faults) + if ok then 0 else 1
      ensures ok ==> store == old(store).(lbports := old(store.lbports)[want.name := want]) && log == old(log) + [want.name]
      ensures !ok ==> store == old(store) && log == old(log)
    {
      ok := Call();
      if ok {
        store := store.(lbports := store.lbports[want.name := want]);
        log := log + [want.name];
      }
    }

    method DeleteLBPort(name: string) returns (ok: bool)
      modifies this
      ensures faults == old(faults) + if ok then 0 else 1
      ensures ok ==> store == old(store).(lbports := old(store.lbports) - {name}) && log == old(log) + [name]
      ensures !ok ==> store == old(store) && log == old(log)
    {
      ok := Call();
      if ok {
        store := store.(lbports := store.lbports - {name});
        log := log + [name];
      }
    }

    // ---- reading ----

    method ServiceEndpoints(id: ServiceId, svc: Service) returns (ok: bool, endpoints: ServiceEndpoints)
      modifies this`calls, this`faults
      ensures faults == old(faults) + if ok then 0 else 1
      ensures ok ==> endpoints == EndpointsOf(store.inputs, id, svc)
    {
      if !svc.local { return true, map[]; }
      ok := Call();
      endpoints := if id in store.inputs.endpoints then store.inputs.endpoints[id] else map[];
    }

    method LBPortNodes(svc: Service) returns (scope: Option<seq<string>>, blinded: bool)
      modifies this`calls, this`faults
      ensures faults == old(faults) + if blinded then 1 else 0
      ensures scope == Scope(store.inputs.nodes, svc.selector, !blinded)
      ensures blinded ==> svc.selector.Matching?
    {
      if svc.selector.Everywhere? { return Some([ALL_NODES]), false; }
      if svc.selector.Unparsable? { return None, false; }
      var ok := Call();
      if !ok { return None, true; }
      var names := MatchNodes(store.inputs.nodes, svc.selector.matches);
      return Some(names), false;
    }

    method BuildLBPorts(id: ServiceId) returns (ports: Option<seq<LBPort>>, blinded: bool)
      requires id in store.inputs.services
      modifies this`calls, this`faults
      ensures faults == old(faults) + if blinded then 1 else 0
      ensures ports == Build(store.inputs, id, if blinded then {id} else {})
      ensures blinded ==> store.inputs.services[id].selector.Matching?
    {
      var scope;
      scope, blinded := LBPortNodes(store.inputs.services[id]);
      if scope.None? { return None, blinded; }
      var p := RenderPorts(id, store.inputs.services[id], scope.value);
      ports := Some(p);
    }

    // ---- conflicts ----

    method LBPortOwnerConflict(desired: seq<LBPort>) returns (ok: bool, found: bool)
      modifies this`calls, this`faults
      ensures faults == old(faults) + if ok then 0 else 1
      ensures ok ==> found == OwnerConflict(store.lbports, desired)
    {
      for i := 0 to |desired|
        invariant faults == old(faults)
        invariant forall j :: 0 <= j < i ==> !Taken(store.lbports, desired[j])
      {
        var got := Call();
        if !got { return false, false; }
        if desired[i].name !in store.lbports { continue; }
        var existing := store.lbports[desired[i].name];
        if existing.spec.owner != "" && existing.spec.owner != OWNER { return true, true; }
        var same := SameStringMap(existing.labels, desired[i].labels);
        if !same { return true, true; }
      }
      return true, false;
    }

    method ServicePortConflict(id: ServiceId, desired: seq<LBPort>) returns (ok: bool, found: bool, blind: set<ServiceId>)
      modifies this`calls, this`faults
      ensures faults == old(faults) + |blind| + if ok then 0 else 1
      ensures ok ==> found == ServiceConflict(store.inputs, id, desired, blind)
      ensures id !in blind
    {
      blind := {};
      found := false;
      ok := Call();
      if !ok { return; }
      var left := store.inputs.services.Keys;
      while left != {}
        invariant faults == old(faults) + |blind|
        invariant left <= store.inputs.services.Keys && left !! blind && id !in blind
        invariant forall other :: other !in left ==> !Rival(store.inputs, id, other, desired, blind)
        decreases |left|
      {
        var other :| other in left;
        ghost var before := blind;
        left := left - {other};
        if other == id { continue; }
        if !ServiceMatches(store.inputs.services[other]) { continue; }
        var ports, blinded := BuildLBPorts(other);
        if blinded { blind := blind + {other}; }
        assert Build(store.inputs, other, blind) == ports;
        forall o | o != other && o !in left ensures !Rival(store.inputs, id, o, desired, blind) {
          assert !Rival(store.inputs, id, o, desired, before);
        }
        if ports.None? { continue; }
        var clash := OverlappingPortConflict(desired, ports.value);
        if clash {
          assert Rival(store.inputs, id, other, desired, blind);
          return true, true, blind;
        }
      }
    }

    method DetectPortConflict(id: ServiceId, desired: seq<LBPort>) returns (ok: bool, found: bool, blind: set<ServiceId>)
      modifies this`calls, this`faults
      ensures faults == old(faults) + |blind| + if ok then 0 else 1
      ensures ok ==> found == Refused(store.inputs, store.lbports, id, desired, blind)
      ensures id !in blind
    {
      blind := {};
      found := DuplicateServicePortConflict(desired);
      if found { return true, true, {}; }
      ok, found := LBPortOwnerConflict(desired);
      if found || !ok { return; }
      ok, found, blind := ServicePortConflict(id, desired);
    }

    // ---- writing ----

    method UpdateStatus(id: ServiceId, changes: seq<(string, bool)>) returns (ok: bool)
      modifies this
      ensures faults == old(faults) + if ok then 0 else 1
      ensures log == old(log)
      ensures ok ==> store == old(store).(conditions := old(store.conditions)[id := Upserts(ConditionsOf(old(store.conditions), id), changes)])
      ensures !ok ==> store == old(store)
    {
      var patched := ConditionsOf(store.conditions, id);
      for i := 0 to |changes|
        invariant faults == old(faults)
        invariant store == old(store) && log == old(log)
        invariant patched == Upserts(ConditionsOf(store.conditions, id), changes[..i])
      {
        assert changes[..i + 1][..i] == changes[..i];
        patched := patched[changes[i].0 := changes[i].1];
      }
      assert changes[..|changes|] == changes;
      ok := Call();
      if ok { store := store.(conditions := store.conditions[id := patched]); }
    }

    method ApplyDaemonSet(name: string, desired: DaemonSet) returns (ok: bool)
      modifies this
      ensures faults == old(faults) + if ok then 0 else 1
      ensures log == old(log)
      ensures ok ==> store == old(store).(daemonSets := old(store.daemonSets)[name := desired])
      ensures !ok ==> store == old(store)
    {
      ok := Call();
      if !ok { return; }
      if name in store.daemonSets && store.daemonSets[name] == desired {
        assert store.daemonSets == store.daemonSets[name := desired];
        return;
      }
      ok := Call();
      if ok { store := store.(daemonSets := store.daemonSets[name := desired]); }
    }

    /** Delete the listed LBPorts, except those to keep. */
    method DeleteItems(listed: set<string>, keep: set<string>, ghost before: map<string, LBPort>,
                       ghost goal: map<string, LBPort>, ghost mine: set<string>, ghost start: nat)
      returns (ok: bool)
      requires start <= |log| && Deleting(before, store.lbports, goal, keep, mine, listed, log[start..])
      modifies this
      ensures faults == old(faults) + if ok then 0 else 1
      ensures store == old(store).(lbports := store.lbports) && old(log) <= log
      ensures Progress(before, store.lbports, goal, log[start..])
      ensures ok ==> store.lbports == goal
    {
      var items := listed;
      while items != {}
        invariant faults == old(faults)
        invariant store == old(store).(lbports := store.lbports) && old(log) <= log
        invariant Deleting(before, store.lbports, goal, keep, mine, items, log[start..])
        decreases |items|
      {
        var item :| item in items;
        if item !in keep {
          ghost var now, soFar := store.lbports, log[start..];
          ok := DeleteLBPort(item);
          if !ok { return; }
          assert log[start..] == soFar + [item];
          DeleteStep(before, now, goal, keep, mine, items, item, soFar);
        }
        items := items - {item};
      }
      DeletesDone(before, store.lbports, goal, keep, mine, log[start..]);
      ok := true;
    }

    method DeleteLabelled(id: ServiceId, keep: set<string>, ghost before: map<string, LBPort>, ghost goal: map<string, LBPort>, ghost start: nat)
      returns (ok: bool)
      requires start <= |log| && Progress(before, store.lbports, goal, log[start..])
      requires forall n :: n !in keep ==> n !in log[start..]
      requires KeptOrCleared(before, store.lbports, goal, keep, Mine(before, id))
      modifies this
      ensures faults == old(faults) + if ok then 0 else 1
      ensures store == old(store).(lbports := store.lbports) && old(log) <= log
      ensures Progress(before, store.lbports, goal, log[start..])
      ensures ok ==> store.lbports == goal
    {
      ok := Call();
      if !ok { return; }
      DeleteStarts(before, store.lbports, goal, id, keep, log[start..]);
      ok := DeleteItems(Mine(store.lbports, id), keep, before, goal, Mine(before, id), start);
    }

    method CleanupLBPorts(id: ServiceId) returns (ok: bool)
      modifies this
      ensures faults == old(faults) + if ok then 0 else 1
      ensures store == old(store).(lbports := store.lbports) && old(log) <= log
      ensures Progress(old(store.lbports), store.lbports, Cleared(old(store.lbports), id), log[|old(log)|..])
      ensures ok ==> store.lbports == Cleared(old(store.lbports), id)
    {
      ghost var before, start := store.lbports, |log|;
      forall n ensures At(Cleared(before, id), n) == if n in before && Carries(before[n].labels, id) then None else At(before, n) {
        ClearedAt(before, id, n);
      }
      ok := DeleteLabelled(id, {}, before, Cleared(before, id), start);
    }

    /** Create or update the i-th desired object unless it is in place. */
    method PutDesired(desired: seq<LBPort>, i: nat, ghost before: map<string, LBPort>, ghost goal: map<string, LBPort>, ghost start: nat)
      returns (ok: bool)
      requires i < |desired| && DistinctNames(desired) && Keyed(before) && At(goal, desired[i].name) == Some(desired[i])
      requires start <= |log| && Writing(before, store.lbports, goal, desired, i, log[start..])
      modifies this
      ensures faults == old(faults) + if ok then 0 else 1
      ensures store == old(store).(lbports := store.lbports) && old(log) <= log
      ensures if ok then Writing(before, store.lbports, goal, desired, i + 1, log[start..])
              else Writing(before, store.lbports, goal, desired, i, log[start..])
    {
      var want := desired[i];
      ghost var now, soFar := store.lbports, log[start..];
      WriteStep(before, now, goal, desired, i, soFar);
      assert At(now, want.name) == At(before, want.name);
      ok := Call();
      if !ok { return; }
      if want.name !in store.lbports {
        ok := PutLBPort(want);
      } else {
        var existing := store.lbports[want.name];
        assert existing.name == want.name;
        if existing.spec == want.spec && existing.labels == want.labels { return; }
        ok := PutLBPort(existing.(spec := want.spec, labels := want.labels));
      }
      if ok { assert log[start..] == soFar + [want.name]; }
    }

    /** Create or update each desired object that is not in place. */
    method WriteDesired(desired: seq<LBPort>, ghost id: ServiceId) returns (ok: bool, keep: set<string>)
      requires DistinctNames(desired) && Keyed(store.lbports)
      modifies this
      ensures faults == old(faults) + if ok then 0 else 1
      ensures store == old(store).(lbports := store.lbports) && old(log) <= log
      ensures Progress(old(store.lbports), store.lbports, Installed(old(store.lbports), id, desired), log[|old(log)|..])
      ensures ok ==> keep == Names(desired)
      ensures ok ==> Writing(old(store.lbports), store.lbports, Installed(old(store.lbports), id, desired), desired, |desired|, log[|old(log)|..])
    {
      keep := {};
      ghost var before, start, goal := store.lbports, |log|, Installed(store.lbports, id, desired);
      GoalNames(before, id, desired);
      for i := 0 to |desired|
        invariant faults == old(faults)
        invariant store == old(store).(lbports := store.lbports) && old(log) <= log
        invariant keep == Names(desired[..i])
        invariant Writing(before, store.lbports, goal, desired, i, log[start..])
      {
        NamesStep(desired, i);
        keep := keep + {desired[i].name};
        ok := PutDesired(desired, i, before, goal, start);
        if !ok { return; }
      }
      assert desired[..|desired|] == desired;
      ok := true;
    }

    method ApplyLBPorts(desired: seq<LBPort>, id: ServiceId) returns (ok: bool)
      requires DistinctNames(desired) && Keyed(store.lbports)
      modifies this
      ensures faults == old(faults) + if ok then 0 else 1
      ensures store == old(store).(lbports := store.lbports) && old(log) <= log
      ensures Progress(old(store.lbports), store.lbports, Installed(old(store.lbports), id, desired), log[|old(log)|..])
      ensures ok ==> store.lbports == Installed(old(store.lbports), id, desired)
    {
      ghost var before, start := store.lbports, |log|;
      var keep;
      ok, keep := WriteDesired(desired, id);
      if !ok { return; }
      WritesDone(before, store.lbports, id, desired, log[start..]);
      ok := DeleteLabelled(id, keep, before, Installed(before, id, desired), start);
    }

    // ---- the pass ----

    method CleanupByName(id: ServiceId, honorKeep: bool) returns (ok: bool)
      modifies this
      ensures faults == old(faults) + if ok then 0 else 1
      ensures Partly(old(store), store, Cleaned(old(store), id, honorKeep)) && old(log) <= log
      ensures Progress(old(store.lbports), store.lbports, Cleaned(old(store), id, honorKeep).lbports, log[|old(log)|..])
      ensures ok ==> store == Cleaned(old(store), id, honorKeep)
    {
      var name := DaemonSetName(id);
      ok := Call();
      if !ok { return; }
      if name !in store.daemonSets {
        ok := CleanupLBPorts(id);
        assert old(store.daemonSets) - {name} == old(store.daemonSets);
        ProgressBetween(old(store.lbports), store.lbports, Cleared(old(store.lbports), id), log[|old(log)|..]);
        return;
      }
      var ds := store.daemonSets[name];
      if Read(ds.labels, SERVICE) != id.name || Read(ds.labels, SERVICE_NS) != id.ns || Read(ds.labels, MANAGED_BY) != BULB {
        return;
      }
      if !honorKeep || !ds.keep {
        ok := Call();
        if !ok { return; }
        store := store.(daemonSets := store.daemonSets - {name});
      }
      ok := CleanupLBPorts(id);
      ProgressBetween(old(store.lbports), store.lbports, Cleared(old(store.lbports), id), log[|old(log)|..]);
    }

    /** Set the conditions, then clean up whatever the Service still has. */
    method Refuse(id: ServiceId, o: Outcome) returns (ok: bool)
      modifies this
      ensures faults == old(faults) + if ok then 0 else 1
      ensures Partly(old(store), store, Cleaned(Marking(old(store), id, o), id, false)) && old(log) <= log
      ensures Progress(old(store.lbports), store.lbports, Cleaned(Marking(old(store), id, o), id, false).lbports, log[|old(log)|..])
      ensures ok ==> store == Cleaned(Marking(old(store), id, o), id, false)
    {
      ChangesFlag(ConditionsOf(store.conditions, id), Verdict(o));
      ok := UpdateStatus(id, Changes(Verdict(o)));
      if !ok { return; }
      assert store == Marking(old(store), id, o);
      ok := CleanupByName(id, false);
    }

    method Install(id: ServiceId, desired: seq<LBPort>, ds: DaemonSet) returns (ok: bool)
      requires id in store.inputs.services && Keyed(store.lbports) && DistinctNames(desired)
      requires ds == DaemonSetOf(id, store.inputs.services[id], EndpointsOf(store.inputs, id, store.inputs.services[id]))
      modifies this
      ensures faults == old(faults) + if ok then 0 else 1
      ensures Partly(old(store), store, Installing(old(store), id, desired)) && old(log) <= log
      ensures Progress(old(store.lbports), store.lbports, Installed(old(store.lbports), id, desired), log[|old(log)|..])
      ensures ok ==> store == Installing(old(store), id, desired)
    {
      ok := ApplyDaemonSet(DaemonSetName(id), ds);
      if !ok { return; }
      ok := ApplyLBPorts(desired, id);
      ProgressBetween(old(store.lbports), store.lbports, Installed(old(store.lbports), id, desired), log[|old(log)|..]);
      if !ok { return; }
      ok := Call();
      if !ok { return; }
      ChangesFlag(ConditionsOf(store.conditions, id), Verdict(Applied));
      ok := UpdateStatus(id, Changes(Verdict(Applied)));
    }

    /** Everything a pass reads before its first write. */
    method Judge(id: ServiceId) returns (ok: bool, o: Outcome, desired: seq<LBPort>, ds: Option<DaemonSet>, blind: set<ServiceId>)
      modifies this`calls, this`faults
      ensures faults == old(faults) + |blind| + if ok then 0 else 1
      ensures ok ==> o == Decide(store.inputs, store.lbports, id, blind)
      ensures ok && o == Applied ==> Build(store.inputs, id, blind) == Some(desired)
      ensures ok && o == Applied ==> ds == Some(DaemonSetOf(id, store.inputs.services[id], EndpointsOf(store.inputs, id, store.inputs.services[id])))
    {
      o, desired, ds, blind := Gone, [], None, {};
      ok := Call();
      if !ok || id !in store.inputs.services { return; }
      var svc := store.inputs.services[id];
      if !ServiceMatches(svc) { o := NotOurs; return; }
      var endpoints;
      ok, endpoints := ServiceEndpoints(id, svc);
      if !ok { return; }
      var empty := Empty(endpoints);
      if svc.local && empty { o := NoEndpoints; return; }
      var lbports, blinded := BuildLBPorts(id);
      if lbports.None? {
        o, blind := Invalid, if blinded then {id} else {};
        return;
      }
      desired := lbports.value;
      var found;
      ok, found, blind := DetectPortConflict(id, desired);
      if !ok { return; }
      assert Build(store.inputs, id, blind) == lbports;
      if found { o := Conflicted; return; }
      ds := BuildDaemonSet(id, svc, endpoints);
      o := if ds.None? then Invalid else Applied;
    }

    /** One pass.  Without an error the store is exactly what the decision asks for; with one,
        each object is as before or as asked.  Only LBPorts that have to change are written.
        `blind` holds the Services whose node listing failed along the way; a pass without an error
        has met no other failure. */
    method Reconcile(id: ServiceId) returns (ok: bool, blind: set<ServiceId>)
      requires Keyed(store.lbports)
      modifies this
      ensures faults == old(faults) + |blind| + if ok then 0 else 1
      ensures ok ==> store == After(old(store), id, blind)
      ensures !ok ==> Interrupted(old(store), store, id, blind)
      ensures old(log) <= log
      ensures Progress(old(store.lbports), store.lbports, After(old(store), id, blind).lbports, log[|old(log)|..])
    {
      var o, desired, ds;
      ok, o, desired, ds, blind := Judge(id);
      if !ok {
        NothingDone(store, After(store, id, blind));
        return;
      }
      match o {
        case Gone => ok := CleanupByName(id, true);
        case NotOurs => ok := CleanupByName(id, store.inputs.services[id].keep);
        case Applied =>
          BuildDistinct(store.inputs, id, blind);
          ok := Install(id, desired, ds.value);
        case _ => ok := Refuse(id, o);
      }
    }
  }
}
