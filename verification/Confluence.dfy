/** The settled LBPorts do not depend on the order of passes. */
module Confluence {
  import opened Api
  import opened Cluster
  import opened Conflicts
  import opened Naming
  import opened Store
  import opened Passes
  import opened ControllerRuns
  import opened Wrappers

  /** The labels name some Service. */
  predicate Labelled(labels: Labels) {
    MANAGED_BY in labels && labels[MANAGED_BY] == BULB && SERVICE in labels && SERVICE_NS in labels
  }

  function OwnerOf(labels: Labels): ServiceId
    requires Labelled(labels)
  {
    ServiceId(labels[SERVICE_NS], labels[SERVICE])
  }

  /** The LBPorts that are no Service's. */
  function Outside(lbports: map<string, LBPort>): map<string, LBPort> {
    map n | n in lbports && !Labelled(lbports[n].labels) :: lbports[n]
  }

  /** Every Service-labelled LBPort was written by bulb for one of ids. */
  ghost predicate ByBulb(lbports: map<string, LBPort>, ids: set<ServiceId>) {
    forall n :: n in lbports && Labelled(lbports[n].labels) ==> WrittenFor(lbports[n], n, OwnerOf(lbports[n].labels), ids)
  }

  ghost predicate WrittenFor(p: LBPort, n: string, id: ServiceId, ids: set<ServiceId>) {
    && id in ids && p.labels == ServiceLabels(id) && p.spec.owner == OWNER
    && p.spec.port >= 0 && n == LBPortName(id, p.spec.port, p.spec.protocol)
  }

  /** Other LBPorts have no empty label values, and Services only natural port numbers. */
  ghost predicate PlainOutside(lbports: map<string, LBPort>) {
    forall n :: n in lbports && !Labelled(lbports[n].labels) ==> NoEmptyValue(lbports[n].labels)
  }

  ghost predicate NaturalPorts(inputs: Inputs) {
    forall id :: id in inputs.services ==> forall p :: p in inputs.services[id].ports ==> p.port >= 0
  }

  ghost predicate Tidy(s: Store, ids: set<ServiceId>) {
    NamesApart(ids) && ByBulb(s.lbports, ids) && PlainOutside(s.lbports) && NaturalPorts(s.inputs)
  }

  lemma CarriesLabelled(labels: Labels, id: ServiceId)
    ensures Carries(labels, id) <==> Labelled(labels) && OwnerOf(labels) == id
  {
  }

  // ---- the decision depends on the inputs and the outside only ----

  lemma DesiredNatural(inputs: Inputs, id: ServiceId, blind: set<ServiceId>, want: LBPort)
    requires NaturalPorts(inputs) && id in inputs.services && Build(inputs, id, blind).Some? && want in Build(inputs, id, blind).value
    ensures want.spec.port >= 0
  {
    var svc, desired := inputs.services[id], Build(inputs, id, blind).value;
    var i :| 0 <= i < |desired| && desired[i] == want;
    assert svc.ports[i] in svc.ports;
  }

  lemma TakenOutside(s: Store, id: ServiceId, blind: set<ServiceId>, ids: set<ServiceId>, want: LBPort)
    requires Tidy(s, ids) && id in ids
    requires id in s.inputs.services && Build(s.inputs, id, blind).Some? && want in Build(s.inputs, id, blind).value
    ensures Taken(s.lbports, want) <==> Taken(Outside(s.lbports), want)
  {
    var n := want.name;
    if n in s.lbports && Labelled(s.lbports[n].labels) {
      var p, other := s.lbports[n], OwnerOf(s.lbports[n].labels);
      BuildFacts(s.inputs, id, blind, want);
      DesiredNatural(s.inputs, id, blind, want);
      NameTellsService(other, p.spec.port, p.spec.protocol, id, want.spec.port, want.spec.protocol);
      OwnLabels(id);
    }
  }

  lemma OwnerConflictOutside(s: Store, id: ServiceId, blind: set<ServiceId>, ids: set<ServiceId>)
    requires Tidy(s, ids) && id in ids && id in s.inputs.services && Build(s.inputs, id, blind).Some?
    ensures OwnerConflict(s.lbports, Build(s.inputs, id, blind).value) <==> OwnerConflict(Outside(s.lbports), Build(s.inputs, id, blind).value)
  {
    var desired := Build(s.inputs, id, blind).value;
    forall i | 0 <= i < |desired| ensures Taken(s.lbports, desired[i]) <==> Taken(Outside(s.lbports), desired[i]) {
      TakenOutside(s, id, blind, ids, desired[i]);
    }
  }

  lemma DecidedOutside(s: Store, id: ServiceId, blind: set<ServiceId>, ids: set<ServiceId>)
    requires Tidy(s, ids) && id in ids
    ensures Decide(s.inputs, s.lbports, id, blind) == Decide(s.inputs, Outside(s.lbports), id, blind)
  {
    if id in s.inputs.services && Build(s.inputs, id, blind).Some? { OwnerConflictOutside(s, id, blind, ids); }
  }

  // ---- passes keep the outside ----

  /** A listed name is free, or already the Service's. */
  lemma ListedWasOwn(s: Store, id: ServiceId, blind: set<ServiceId>, n: string, ids: set<ServiceId>)
    requires Tidy(s, ids) && Lists(s, id, blind, n) && n in s.lbports
    ensures Labelled(s.lbports[n].labels)
  {
    ListedFacts(s, id, blind, n);
    OwnLabels(id);
    if !Labelled(s.lbports[n].labels) { SameIsEqual(s.lbports[n].labels, ServiceLabels(id)); }
  }

  lemma WrittenTidily(s: Store, id: ServiceId, blind: set<ServiceId>, n: string, ids: set<ServiceId>)
    requires Tidy(s, ids) && id in ids && Lists(s, id, blind, n)
    ensures var want := Want(DesiredOf(s, id, blind), n).value;
            Labelled(want.labels) && OwnerOf(want.labels) == id && WrittenFor(want, n, id, ids)
  {
    AppliedFacts(s, id, blind);
    ListedFacts(s, id, blind, n);
    DesiredNatural(s.inputs, id, blind, Want(DesiredOf(s, id, blind), n).value);
    CarriesLabelled(ServiceLabels(id), id);
  }

  /** Under a name a pass leaves what was there, or replaces nothing or its own by its own. */
  lemma ChangeIsOwn(s: Store, t: Store, id: ServiceId, blind: set<ServiceId>, n: string, ids: set<ServiceId>)
    requires Interrupted(s, t, id, blind) && Tidy(s, ids) && id in ids && At(t.lbports, n) != At(s.lbports, n)
    ensures n in s.lbports ==> Labelled(s.lbports[n].labels)
    ensures n in t.lbports ==> Labelled(t.lbports[n].labels) && WrittenFor(t.lbports[n], n, OwnerOf(t.lbports[n].labels), ids)
  {
    assert At(t.lbports, n) == At(After(s, id, blind).lbports, n);
    AfterAt(s, id, blind, n);
    if Lists(s, id, blind, n) {
      WrittenTidily(s, id, blind, n, ids);
      if n in s.lbports { ListedWasOwn(s, id, blind, n, ids); }
    } else if n in s.lbports {
      CarriesLabelled(s.lbports[n].labels, id);
    }
  }

  lemma TidyKept(s: Store, t: Store, id: ServiceId, blind: set<ServiceId>, ids: set<ServiceId>)
    requires Interrupted(s, t, id, blind) && Tidy(s, ids) && id in ids
    ensures Tidy(t, ids) && Outside(t.lbports) == Outside(s.lbports)
  {
    forall n | n in t.lbports
      ensures Labelled(t.lbports[n].labels) ==> WrittenFor(t.lbports[n], n, OwnerOf(t.lbports[n].labels), ids)
      ensures !Labelled(t.lbports[n].labels) ==> NoEmptyValue(t.lbports[n].labels)
    {
      if At(t.lbports, n) != At(s.lbports, n) { ChangeIsOwn(s, t, id, blind, n, ids); }
    }
    forall n ensures At(Outside(t.lbports), n) == At(Outside(s.lbports), n) {
      if At(t.lbports, n) != At(s.lbports, n) { ChangeIsOwn(s, t, id, blind, n, ids); }
    }
    SameEntries(Outside(t.lbports), Outside(s.lbports));
  }

  // ---- the settled LBPorts ----

  /** What a Service's LBPorts come to, from the inputs and the outside alone. */
  ghost function Goal(inputs: Inputs, outside: map<string, LBPort>, id: ServiceId, n: string): Option<LBPort> {
    if Decide(inputs, outside, id, {}) == Applied then Want(Build(inputs, id, {}).value, n) else None
  }

  ghost predicate Exact(s: Store, id: ServiceId) {
    forall n :: CarriedAt(s.lbports, id, n) == Goal(s.inputs, Outside(s.lbports), id, n)
  }

  lemma GoalReached(s: Store, id: ServiceId, ids: set<ServiceId>, n: string)
    requires Tidy(s, ids) && id in ids
    requires !DaemonSetForeign(s.daemonSets, id) || Exact(s, id)
    ensures CarriedAt(After(s, id, {}).lbports, id, n) == Goal(s.inputs, Outside(s.lbports), id, n)
  {
    OwnExactly(s, id, {}, n);
    DecidedOutside(s, id, {}, ids);
  }

  lemma ExactEstablished(s: Store, id: ServiceId, ids: set<ServiceId>)
    requires Tidy(s, ids) && id in ids && !DaemonSetForeign(s.daemonSets, id)
    ensures Exact(After(s, id, {}), id)
  {
    var t := After(s, id, {});
    CompletedIsInterrupted(s, id, {});
    TidyKept(s, t, id, {}, ids);
    forall n ensures CarriedAt(t.lbports, id, n) == Goal(t.inputs, Outside(t.lbports), id, n) { GoalReached(s, id, ids, n); }
  }

  lemma CarriedKept(s: Store, t: Store, passed: ServiceId, blind: set<ServiceId>, id: ServiceId, n: string)
    requires Interrupted(s, t, passed, blind) && passed != id
    ensures CarriedAt(t.lbports, id, n) == CarriedAt(s.lbports, id, n)
  {
    if CarriedAt(s.lbports, id, n).Some? {
      OthersUntouched(s, t, passed, blind, n, id);
    } else if At(t.lbports, n) != At(s.lbports, n) {
      assert At(t.lbports, n) == At(After(s, passed, blind).lbports, n);
      AfterAt(s, passed, blind, n);
      if Lists(s, passed, blind, n) {
        ListedFacts(s, passed, blind, n);
        if Carries(ServiceLabels(passed), id) { LabelsTellService(ServiceLabels(passed), passed, id); }
      }
    }
  }

  lemma ExactKept(s: Store, t: Store, passed: ServiceId, blind: set<ServiceId>, id: ServiceId, ids: set<ServiceId>)
    requires Interrupted(s, t, passed, blind) && Tidy(s, ids) && passed in ids && id in ids
    requires Exact(s, id) && (passed == id ==> blind == {})
    ensures Exact(t, id)
  {
    TidyKept(s, t, passed, blind, ids);
    forall n ensures CarriedAt(t.lbports, id, n) == Goal(t.inputs, Outside(t.lbports), id, n) {
      assert CarriedAt(s.lbports, id, n) == Goal(s.inputs, Outside(s.lbports), id, n);
      if passed != id {
        CarriedKept(s, t, passed, blind, id, n);
      } else {
        GoalReached(s, id, ids, n);
        assert At(t.lbports, n) == At(s.lbports, n) || At(t.lbports, n) == At(After(s, id, {}).lbports, n);
      }
    }
  }

  // ---- runs ----

  /** A run of passes over ids, from a store where bulb's own LBPorts are its own. */
  ghost predicate Passing(stores: seq<Store>, events: seq<Event>, ids: set<ServiceId>) {
    && Run(stores, events) && Tidy(stores[0], ids) && NoForeign(stores[0], ids)
    && forall i :: 0 <= i < |events| ==> events[i].Pass? && events[i].id in ids
  }

  ghost predicate Reached(first: Store, last: Store, settled: set<ServiceId>, ids: set<ServiceId>) {
    && last.inputs == first.inputs && Outside(last.lbports) == Outside(first.lbports)
    && Tidy(last, ids) && NoForeign(last, ids) && settled <= ids
    && forall id :: id in settled ==> Exact(last, id)
  }

  lemma ReachedStep(first: Store, s: Store, t: Store, e: Event, before: set<ServiceId>, after: set<ServiceId>, ids: set<ServiceId>)
    requires Reached(first, s, before, ids) && e.Pass? && Step(s, e, t) && e.id in ids
    requires after == if e.blind != {} then before - {e.id} else if e.ok then before + {e.id} else before
    ensures Reached(first, t, after, ids)
  {
    CompletedIsInterrupted(s, e.id, e.blind);
    ForeignKept(s, t, e.id, e.blind, ids);
    TidyKept(s, t, e.id, e.blind, ids);
    forall id | id in after ensures Exact(t, id) {
      if id in before {
        ExactKept(s, t, e.id, e.blind, id, ids);
      } else {
        ExactEstablished(s, id, ids);
      }
    }
  }

  lemma {:induction false} RunExact(stores: seq<Store>, events: seq<Event>, ids: set<ServiceId>)
    requires Passing(stores, events, ids)
    ensures Reached(stores[0], stores[|events|], Settled(events), ids)
    decreases |events|
  {
    if events != [] {
      var k := |events| - 1;
      var es, e := events[..k], events[k];
      assert Step(stores[k], e, stores[k + 1]);
      assert Run(stores[..k + 1], es);
      RunExact(stores[..k + 1], es, ids);
      ReachedStep(stores[0], stores[k], stores[k + 1], e, Settled(es), Settled(events), ids);
    }
  }

  ghost predicate Claimed(inputs: Inputs, outside: map<string, LBPort>, ids: set<ServiceId>, n: string) {
    exists id :: id in ids && Goal(inputs, outside, id, n).Some?
  }

  ghost function Claim(inputs: Inputs, outside: map<string, LBPort>, ids: set<ServiceId>, n: string): LBPort
    requires Claimed(inputs, outside, ids, n)
  {
    var id :| id in ids && Goal(inputs, outside, id, n).Some?;
    Goal(inputs, outside, id, n).value
  }

  /** The outside LBPorts and what the Services come to; nothing here mentions an order. */
  ghost predicate IsFinal(lbports: map<string, LBPort>, inputs: Inputs, outside: map<string, LBPort>, ids: set<ServiceId>) {
    forall n :: At(lbports, n) == FinalAt(inputs, outside, ids, n)
  }

  ghost function FinalAt(inputs: Inputs, outside: map<string, LBPort>, ids: set<ServiceId>, n: string): Option<LBPort> {
    if n in outside then Some(outside[n])
    else if Claimed(inputs, outside, ids, n) then Some(Claim(inputs, outside, ids, n))
    else None
  }

  lemma ExactFinal(s: Store, ids: set<ServiceId>, n: string)
    requires ByBulb(s.lbports, ids) && forall id :: id in ids ==> Exact(s, id)
    ensures At(s.lbports, n) == FinalAt(s.inputs, Outside(s.lbports), ids, n)
  {
    var inputs, outside := s.inputs, Outside(s.lbports);
    if n !in outside {
      if Claimed(inputs, outside, ids, n) {
        var id :| id in ids && Goal(inputs, outside, id, n).Some? && Claim(inputs, outside, ids, n) == Goal(inputs, outside, id, n).value;
        assert Exact(s, id);
        assert CarriedAt(s.lbports, id, n) == Goal(inputs, outside, id, n);
      } else if n in s.lbports {
        var id := OwnerOf(s.lbports[n].labels);
        CarriesLabelled(s.lbports[n].labels, id);
        assert Exact(s, id);
        assert CarriedAt(s.lbports, id, n) == Goal(inputs, outside, id, n);
      }
    }
  }

  /** A run that has settled every Service ends with exactly the LBPorts that the inputs and the
      outside LBPorts determine. */
  lemma SettledLBPorts(stores: seq<Store>, events: seq<Event>, ids: set<ServiceId>)
    requires Passing(stores, events, ids) && Settled(events) == ids
    ensures IsFinal(stores[|events|].lbports, stores[0].inputs, Outside(stores[0].lbports), ids)
  {
    RunExact(stores, events, ids);
    var s := stores[|events|];
    forall n ensures At(s.lbports, n) == FinalAt(s.inputs, Outside(s.lbports), ids, n) { ExactFinal(s, ids, n); }
  }

  lemma FinalUnique(a: map<string, LBPort>, b: map<string, LBPort>, inputs: Inputs, outside: map<string, LBPort>, ids: set<ServiceId>)
    requires IsFinal(a, inputs, outside, ids) && IsFinal(b, inputs, outside, ids)
    ensures a == b
  {
    forall n ensures At(a, n) == At(b, n) { assert At(a, n) == FinalAt(inputs, outside, ids, n); }
    SameEntries(a, b);
  }

  /** Some run of passes leads from x to s and settles every Service. */
  ghost predicate SettlesTo(x: Store, s: Store, ids: set<ServiceId>) {
    exists stores, events :: Passing(stores, events, ids) && Settled(events) == ids && stores[0] == x && stores[|events|] == s
  }

  lemma SettledFinal(x: Store, s: Store, ids: set<ServiceId>)
    requires SettlesTo(x, s, ids)
    ensures IsFinal(s.lbports, x.inputs, Outside(x.lbports), ids)
  {
    var stores, events :| Passing(stores, events, ids) && Settled(events) == ids && stores[0] == x && stores[|events|] == s;
    SettledLBPorts(stores, events, ids);
  }

  /** Two runs from stores with the same inputs and the same outside LBPorts, whatever their
      passes, orders and interruptions, end with the same LBPorts once every Service is settled. */
  lemma SameLBPorts(x: Store, s: Store, y: Store, t: Store, ids: set<ServiceId>)
    requires SettlesTo(x, s, ids) && SettlesTo(y, t, ids)
    requires x.inputs == y.inputs && Outside(x.lbports) == Outside(y.lbports)
    ensures s.lbports == t.lbports
  {
    SettledFinal(x, s, ids);
    SettledFinal(y, t, ids);
    FinalUnique(s.lbports, t.lbports, x.inputs, Outside(x.lbports), ids);
  }

  // ---- one pass each is enough ----

  /** Completed passes over the Services of a list, one after the other. */
  ghost function PassAll(s: Store, order: seq<ServiceId>): Store {
    if order == [] then s else After(PassAll(s, order[..|order| - 1]), order[|order| - 1], {})
  }

  ghost function Stores(s: Store, order: seq<ServiceId>): seq<Store> {
    seq(|order| + 1, i requires 0 <= i <= |order| => PassAll(s, order[..i]))
  }

  ghost function Events(order: seq<ServiceId>): seq<Event> {
    seq(|order|, i requires 0 <= i < |order| => Pass(order[i], true, {}))
  }

  lemma PassAllStep(s: Store, order: seq<ServiceId>, i: nat)
    requires i < |order|
    ensures PassAll(s, order[..i + 1]) == After(PassAll(s, order[..i]), order[i], {})
  {
    assert order[..i + 1][..i] == order[..i];
  }

  lemma PassAllRuns(s: Store, order: seq<ServiceId>)
    ensures Run(Stores(s, order), Events(order))
    ensures Stores(s, order)[0] == s && Stores(s, order)[|order|] == PassAll(s, order)
  {
    var stores, events := Stores(s, order), Events(order);
    forall i | 0 <= i < |events| ensures Step(stores[i], events[i], stores[i + 1]) { PassAllStep(s, order, i); }
    assert order[..0] == [] && order[..|order|] == order;
  }

  lemma {:induction false} PassAllSettles(order: seq<ServiceId>)
    ensures forall id :: id in Settled(Events(order)) <==> id in order
  {
    if order != [] {
      var front, last := order[..|order| - 1], order[|order| - 1];
      PassAllSettles(front);
      assert Events(order)[..|order| - 1] == Events(front);
      assert order == front + [last];
    }
  }

  /** From a tidy store one completed pass per Service, in any order, settles them all. */
  lemma OnePassEach(s: Store, order: seq<ServiceId>, ids: set<ServiceId>)
    requires Tidy(s, ids) && NoForeign(s, ids) && forall id :: id in ids <==> id in order
    ensures SettlesTo(s, PassAll(s, order), ids)
  {
    var stores, events := Stores(s, order), Events(order);
    PassAllRuns(s, order);
    PassAllSettles(order);
    assert Settled(events) == ids;
    forall i | 0 <= i < |events| ensures events[i].Pass? && events[i].id in ids { assert order[i] in order; }
    assert Passing(stores, events, ids);
  }

  /** So the LBPorts after one pass per Service are the same in every order. */
  lemma EveryOrder(s: Store, one: seq<ServiceId>, two: seq<ServiceId>, ids: set<ServiceId>)
    requires Tidy(s, ids) && NoForeign(s, ids)
    requires (forall id :: id in ids <==> id in one) && (forall id :: id in ids <==> id in two)
    ensures PassAll(s, one).lbports == PassAll(s, two).lbports
  {
    OnePassEach(s, one, ids);
    OnePassEach(s, two, ids);
    SameLBPorts(s, PassAll(s, one), s, PassAll(s, two), ids);
  }
}
