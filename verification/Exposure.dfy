/** From LBPort objects to the ports a node opens: DesiredPortsForNode and FirewallPolicy.Filter. */
module Exposure {
  import opened Api
  import opened Ordering
  import opened Ports
  import FirewalldRuns

  const PRIVILEGED_LIMIT := 1024

  /** The LBPort schema admits TCP and UDP. */
  ghost predicate Admitted(lbports: seq<LBPort>) {
    forall i :: 0 <= i < |lbports| ==> lbports[i].spec.protocol != SCTP
  }

  function KeyOf(lb: LBPort): PortKey {
    PortKey(lb.spec.port, if lb.spec.protocol == UDP then Udp else Tcp)
  }

  /** Some LBPort that applies to the node names this port. */
  ghost predicate Named(lbports: seq<LBPort>, node: string, k: PortKey) {
    exists i :: 0 <= i < |lbports| && AppliesToNode(lbports[i].spec.nodes, node) && KeyOf(lbports[i]) == k
  }

  /** Some LBPort that applies to the node names this port and lets it be privileged. */
  ghost predicate Privileged(lbports: seq<LBPort>, node: string, k: PortKey) {
    exists i :: 0 <= i < |lbports| && AppliesToNode(lbports[i].spec.nodes, node) && KeyOf(lbports[i]) == k
                && lbports[i].spec.allowPrivileged
  }

  function Wanted(k: PortKey, privileged: bool): PortSpec {
    PortSpec(k.port, if k.protocol == Udp then UDP else TCP, privileged)
  }

  /** `out` lists every named port once, ascending, privileged if any LBPort says so. */
  ghost predicate Exact(out: seq<PortSpec>, lbports: seq<LBPort>, node: string) {
    && Strict(PortLe, out)
    && (forall k :: k in KeySet(out) <==> Named(lbports, node, k))
    && (forall i :: 0 <= i < |out| ==> out[i] == Wanted(out[i].Key(), Privileged(lbports, node, out[i].Key())))
  }

  ghost predicate Gathered(seen: map<PortKey, PortSpec>, lbports: seq<LBPort>, node: string) {
    && (forall k :: k in seen <==> Named(lbports, node, k))
    && (forall k :: k in seen ==> seen[k] == Wanted(k, Privileged(lbports, node, k)))
  }

  lemma GatherMore(lbports: seq<LBPort>, lb: LBPort, node: string, k: PortKey)
    ensures var hit := AppliesToNode(lb.spec.nodes, node) && KeyOf(lb) == k;
            && (Named(lbports + [lb], node, k) <==> Named(lbports, node, k) || hit)
            && (Privileged(lbports + [lb], node, k) <==> Privileged(lbports, node, k) || (hit && lb.spec.allowPrivileged))
  {
    var all := lbports + [lb];
    assert all[|lbports|] == lb;
    if Named(lbports, node, k) {
      var i :| 0 <= i < |lbports| && AppliesToNode(lbports[i].spec.nodes, node) && KeyOf(lbports[i]) == k;
      assert all[i] == lbports[i];
    }
    if Privileged(lbports, node, k) {
      var i :| 0 <= i < |lbports| && AppliesToNode(lbports[i].spec.nodes, node) && KeyOf(lbports[i]) == k && lbports[i].spec.allowPrivileged;
      assert all[i] == lbports[i];
    }
  }

  /** The map entry for one more LBPort. */
  function Merged(seen: map<PortKey, PortSpec>, lb: LBPort): map<PortKey, PortSpec>
    requires lb.spec.protocol != SCTP
  {
    var k := KeyOf(lb);
    seen[k := PortSpec(lb.spec.port, Normalized(lb.spec.protocol), lb.spec.allowPrivileged || (k in seen && seen[k].allowPrivileged))]
  }

  lemma GatherSkip(done: seq<LBPort>, lb: LBPort, node: string, seen: map<PortKey, PortSpec>)
    requires Gathered(seen, done, node) && !AppliesToNode(lb.spec.nodes, node)
    ensures Gathered(seen, done + [lb], node)
  {
    forall k ensures Named(done + [lb], node, k) <==> Named(done, node, k) { GatherMore(done, lb, node, k); }
    forall k ensures Privileged(done + [lb], node, k) <==> Privileged(done, node, k) { GatherMore(done, lb, node, k); }
  }

  lemma GatherHit(done: seq<LBPort>, lb: LBPort, node: string, seen: map<PortKey, PortSpec>)
    requires Gathered(seen, done, node) && AppliesToNode(lb.spec.nodes, node) && lb.spec.protocol != SCTP
    ensures Gathered(Merged(seen, lb), done + [lb], node)
  {
    var next := Merged(seen, lb);
    forall k
      ensures k in next <==> Named(done + [lb], node, k)
      ensures k in next ==> next[k] == Wanted(k, Privileged(done + [lb], node, k))
    {
      GatherMore(done, lb, node, k);
      assert Privileged(done, node, k) ==> Named(done, node, k);
    }
  }

  method Gather(lbports: seq<LBPort>, node: string) returns (seen: map<PortKey, PortSpec>)
    requires Admitted(lbports)
    ensures Gathered(seen, lbports, node)
  {
    seen := map[];
    for i := 0 to |lbports|
      invariant Gathered(seen, lbports[..i], node)
    {
      var lb := lbports[i];
      assert lbports[..i + 1] == lbports[..i] + [lb];
      if !AppliesToNode(lb.spec.nodes, node) {
        GatherSkip(lbports[..i], lb, node, seen);
        continue;
      }
      GatherHit(lbports[..i], lb, node, seen);
      var protocol := Normalized(lb.spec.protocol);
      var key := KeyOf(lb);
      var current := PortSpec(lb.spec.port, protocol, lb.spec.allowPrivileged);
      if key in seen && seen[key].allowPrivileged {
        current := current.(allowPrivileged := true);
      }
      seen := seen[key := current];
    }
    assert lbports[..|lbports|] == lbports;
  }

  /** Go yields the keys of a map in any order, each once. */
  method AnyOrder(seen: map<PortKey, PortSpec>) returns (order: seq<PortKey>)
    ensures Distinct(order) && forall k :: k in order <==> k in seen
  {
    order := [];
    var rest := seen.Keys;
    while rest != {}
      invariant Distinct(order) && rest <= seen.Keys
      invariant forall k :: k in order <==> k in seen.Keys - rest
      decreases |rest|
    {
      var k :| k in rest;
      forall i | 0 <= i < |order| ensures order[i] != k { assert order[i] in order; }
      order := order + [k];
      rest := rest - {k};
    }
  }

  lemma SortedStrict(found: seq<PortSpec>)
    requires KeysDistinct(found) && forall i :: 0 <= i < |found| ==> found[i].protocol != Unset
    ensures Strict(PortLe, Sort(PortLe, found))
    ensures forall p :: p in Sort(PortLe, found) <==> p in found
  {
    SortStrict(PortLe, found);
    SortPermutes(PortLe, found);
  }

  lemma SortedExact(out: seq<PortSpec>, seen: map<PortKey, PortSpec>, lbports: seq<LBPort>, node: string)
    requires Gathered(seen, lbports, node) && Strict(PortLe, out)
    requires forall p :: p in out <==> p.Key() in seen && p == seen[p.Key()]
    ensures Exact(out, lbports, node)
  {
    forall k ensures k in KeySet(out) <==> k in seen {
      if k in seen { assert seen[k].Key() == k && seen[k] in out; }
    }
    forall i | 0 <= i < |out| ensures out[i] == Wanted(out[i].Key(), Privileged(lbports, node, out[i].Key())) {
      assert out[i] in out;
    }
  }

  method DesiredPortsForNode(lbports: seq<LBPort>, node: string) returns (out: seq<PortSpec>)
    requires Admitted(lbports)
    ensures Exact(out, lbports, node)
  {
    var seen := Gather(lbports, node);
    var order := AnyOrder(seen);
    var found := seq(|order|, i requires 0 <= i < |order| && order[i] in seen => seen[order[i]]);
    forall i | 0 <= i < |order| ensures found[i].Key() == order[i] { assert order[i] in seen; }
    out := Sort(PortLe, found);
    SortedStrict(found);
    forall p ensures p in out <==> p.Key() in seen && p == seen[p.Key()] {
      if p.Key() in seen && p == seen[p.Key()] {
        var i :| 0 <= i < |order| && order[i] == p.Key();
        assert found[i] == p;
      }
    }
    SortedExact(out, seen, lbports, node);
  }

  /** The list depends only on which LBPorts there are: neither the order they are listed in nor
      Go's map order shows. */
  lemma DesiredIsCanonical(a: seq<PortSpec>, b: seq<PortSpec>, la: seq<LBPort>, lb: seq<LBPort>, node: string)
    requires Exact(a, la, node) && Exact(b, lb, node)
    requires forall x :: x in la <==> x in lb
    ensures a == b
  {
    forall k ensures Named(la, node, k) <==> Named(lb, node, k) {
      SameNames(la, lb, node, k);
      SameNames(lb, la, node, k);
    }
    forall k ensures Privileged(la, node, k) <==> Privileged(lb, node, k) {
      SameNames(la, lb, node, k);
      SameNames(lb, la, node, k);
    }
    forall x ensures x in a <==> x in b {
      SameSpec(a, b, la, lb, node, x);
      SameSpec(b, a, lb, la, node, x);
    }
    StrictUnique(PortLe, a, b);
  }

  lemma SameNames(la: seq<LBPort>, lb: seq<LBPort>, node: string, k: PortKey)
    requires forall x :: x in la ==> x in lb
    ensures Named(la, node, k) ==> Named(lb, node, k)
    ensures Privileged(la, node, k) ==> Privileged(lb, node, k)
  {
    if Named(la, node, k) {
      var i :| 0 <= i < |la| && AppliesToNode(la[i].spec.nodes, node) && KeyOf(la[i]) == k;
      assert la[i] in lb;
    }
    if Privileged(la, node, k) {
      var i :| 0 <= i < |la| && AppliesToNode(la[i].spec.nodes, node) && KeyOf(la[i]) == k && la[i].spec.allowPrivileged;
      assert la[i] in lb;
    }
  }

  lemma SameSpec(a: seq<PortSpec>, b: seq<PortSpec>, la: seq<LBPort>, lb: seq<LBPort>, node: string, x: PortSpec)
    requires Exact(a, la, node) && Exact(b, lb, node)
    requires forall k :: Named(la, node, k) <==> Named(lb, node, k)
    requires forall k :: Privileged(la, node, k) <==> Privileged(lb, node, k)
    ensures x in a ==> x in b
  {
    if x in a {
      assert x.Key() in KeySet(a);
      assert Named(lb, node, x.Key());
      assert x.Key() in KeySet(b);
      var y :| y in b && y.Key() == x.Key();
    }
  }

  // ---- policy ----

  datatype Reason = Denylist | PrivilegedPort

  datatype Rejection = Rejection(spec: PortSpec, reason: Reason)

  predicate Kept(p: PortSpec, denied: seq<int>) {
    p.port !in denied && (p.port >= PRIVILEGED_LIMIT || p.allowPrivileged)
  }

  function Filtered(desired: seq<PortSpec>, denied: seq<int>): seq<PortSpec> {
    if desired == [] then [] else
      var r, last := Filtered(desired[..|desired| - 1], denied), desired[|desired| - 1];
      if Kept(last, denied) then r + [last] else r
  }

  function RejectedSpecs(rejected: seq<Rejection>): seq<PortSpec> {
    seq(|rejected|, i requires 0 <= i < |rejected| => rejected[i].spec)
  }

  /** Kept and rejected ports partition those looked at, and every rejection carries the reason
      that applied first. */
  ghost predicate Partitioned(done: seq<PortSpec>, denied: seq<int>, out: seq<PortSpec>, rejected: seq<Rejection>) {
    && out == Filtered(done, denied)
    && multiset(out) + multiset(RejectedSpecs(rejected)) == multiset(done)
    && (forall p :: p in out ==> Kept(p, denied))
    && (forall r :: r in rejected ==> RightlyRejected(r, denied))
  }

  predicate RightlyRejected(r: Rejection, denied: seq<int>) {
    !Kept(r.spec, denied) && (r.reason == Denylist <==> r.spec.port in denied)
  }

  lemma KeepOne(done: seq<PortSpec>, denied: seq<int>, out: seq<PortSpec>, rejected: seq<Rejection>, p: PortSpec)
    requires Partitioned(done, denied, out, rejected) && Kept(p, denied)
    ensures Partitioned(done + [p], denied, out + [p], rejected)
  {
    assert (done + [p])[..|done|] == done;
  }

  lemma RejectOne(done: seq<PortSpec>, denied: seq<int>, out: seq<PortSpec>, rejected: seq<Rejection>, r: Rejection)
    requires Partitioned(done, denied, out, rejected) && RightlyRejected(r, denied)
    ensures Partitioned(done + [r.spec], denied, out, rejected + [r])
  {
    assert (done + [r.spec])[..|done|] == done;
    assert RejectedSpecs(rejected + [r]) == RejectedSpecs(rejected) + [r.spec];
  }

  method Filter(desired: seq<PortSpec>, denied: seq<int>) returns (out: seq<PortSpec>, rejected: seq<Rejection>)
    ensures Partitioned(desired, denied, out, rejected)
  {
    out, rejected := [], [];
    for i := 0 to |desired|
      invariant Partitioned(desired[..i], denied, out, rejected)
    {
      var spec := desired[i];
      assert desired[..i + 1] == desired[..i] + [spec];
      if spec.port in denied {
        RejectOne(desired[..i], denied, out, rejected, Rejection(spec, Denylist));
        rejected := rejected + [Rejection(spec, Denylist)];
      } else if spec.port < PRIVILEGED_LIMIT && !spec.allowPrivileged {
        RejectOne(desired[..i], denied, out, rejected, Rejection(spec, PrivilegedPort));
        rejected := rejected + [Rejection(spec, PrivilegedPort)];
      } else {
        KeepOne(desired[..i], denied, out, rejected, spec);
        out := out + [spec];
      }
    }
    assert desired[..|desired|] == desired;
  }

  lemma {:induction false} FilteredMembers(desired: seq<PortSpec>, denied: seq<int>, p: PortSpec)
    ensures p in Filtered(desired, denied) <==> p in desired && Kept(p, denied)
  {
    if desired != [] {
      FilteredMembers(desired[..|desired| - 1], denied, p);
      assert desired == desired[..|desired| - 1] + [desired[|desired| - 1]];
    }
  }

  /** The ports a node must open. */
  ghost predicate Exposed(lbports: seq<LBPort>, node: string, denied: seq<int>, k: PortKey) {
    && Named(lbports, node, k)
    && k.port !in denied
    && (k.port >= PRIVILEGED_LIMIT || Privileged(lbports, node, k))
  }

  /** A port reaches the backend if and only if some LBPort applying to the node names it, it is
      not denied, and it is unprivileged or some applying LBPort with that key allows it. */
  lemma ExactExposure(raw: seq<PortSpec>, lbports: seq<LBPort>, node: string, denied: seq<int>, k: PortKey)
    requires Exact(raw, lbports, node)
    ensures k in KeySet(Filtered(raw, denied)) <==> Exposed(lbports, node, denied, k)
  {
    if k in KeySet(Filtered(raw, denied)) {
      var p :| p in Filtered(raw, denied) && p.Key() == k;
      FilteredMembers(raw, denied, p);
      assert k in KeySet(raw);
      var i :| 0 <= i < |raw| && raw[i] == p;
    }
    if Exposed(lbports, node, denied, k) {
      assert k in KeySet(raw);
      var i :| 0 <= i < |raw| && raw[i].Key() == k;
      FilteredMembers(raw, denied, raw[i]);
      assert raw[i] in raw;
    }
  }

  lemma RejectedHas(raw: seq<PortSpec>, denied: seq<int>, out: seq<PortSpec>, rejected: seq<Rejection>, p: PortSpec)
    requires Partitioned(raw, denied, out, rejected) && p in raw && !Kept(p, denied)
    ensures exists r :: r in rejected && r.spec == p
  {
    assert p in multiset(raw) && p !in out;
    assert p !in multiset(out);
    assert p in multiset(RejectedSpecs(rejected));
    var i :| 0 <= i < |RejectedSpecs(rejected)| && RejectedSpecs(rejected)[i] == p;
    assert rejected[i] in rejected && rejected[i].spec == p;
  }

  /** What becomes of a port that some applying LBPort names: denied ones are rejected as such; others
      from 1024 up are handed over; below 1024 those are that some applying LBPort allows, and the rest
      are rejected for want of privilege. */
  lemma PrivilegeGate(raw: seq<PortSpec>, lbports: seq<LBPort>, node: string, denied: seq<int>,
                      out: seq<PortSpec>, rejected: seq<Rejection>, k: PortKey)
    requires Exact(raw, lbports, node) && Partitioned(raw, denied, out, rejected) && Named(lbports, node, k)
    ensures var allowed := k.port >= 1024 || Privileged(lbports, node, k);
            && (k in KeySet(out) <==> k.port !in denied && allowed)
            && (k.port in denied ==> exists r :: r in rejected && r.spec.Key() == k && r.reason == Denylist)
            && (k.port !in denied && !allowed ==> exists r :: r in rejected && r.spec.Key() == k && r.reason == PrivilegedPort)
  {
    ExactExposure(raw, lbports, node, denied, k);
    assert k in KeySet(raw);
    var i :| 0 <= i < |raw| && raw[i].Key() == k;
    assert raw[i] in raw;
    if !Kept(raw[i], denied) {
      RejectedHas(raw, denied, out, rejected, raw[i]);
      var r :| r in rejected && r.spec == raw[i];
      assert RightlyRejected(r, denied);
    }
  }

  // ---- the agent over firewalld ----

  /** What one agent pass hands to the backend. */
  ghost predicate Handed(desired: seq<PortSpec>, lbports: seq<LBPort>, node: string, denied: seq<int>) {
    exists raw :: Exact(raw, lbports, node) && desired == Filtered(raw, denied)
  }

  /** Over any sequence of successful agent passes, each over its own LBPort list, a port is open
      exactly if the operator had it open or the last list exposes it on this node. */
  lemma AgentClosedForm(zone0: set<PortKey>, calls: seq<FirewalldRuns.Call>, lists: seq<seq<LBPort>>,
                        node: string, denied: seq<int>, k: PortKey)
    requires |calls| == |lists| > 0
    requires FirewalldRuns.AllSucceed(FirewalldRuns.Fresh(zone0), calls)
    requires forall i :: 0 <= i < |calls| ==> Handed(calls[i].desired, lists[i], node, denied)
    ensures k in FirewalldRuns.Run(FirewalldRuns.Fresh(zone0), calls).zone
       <==> k in zone0 || Exposed(lists[|lists| - 1], node, denied, k)
  {
    var n := |calls| - 1;
    FirewalldRuns.ClosedForm(zone0, calls);
    assert FirewalldRuns.Run(FirewalldRuns.Fresh(zone0), calls).zone == zone0 + KeySet(calls[n].desired);
    HandedExactly(calls[n].desired, lists[n], node, denied, k);
  }

  lemma HandedExactly(desired: seq<PortSpec>, lbports: seq<LBPort>, node: string, denied: seq<int>, k: PortKey)
    requires Handed(desired, lbports, node, denied)
    ensures k in KeySet(desired) <==> Exposed(lbports, node, denied, k)
  {
    var raw :| Exact(raw, lbports, node) && desired == Filtered(raw, denied);
    ExactExposure(raw, lbports, node, denied, k);
  }

  /** So in a node's zone a port below 1024 is open only if the operator opened it or an applying LBPort
      allows it, and every other named port that is not denied is open. */
  lemma PrivilegedInZone(zone0: set<PortKey>, calls: seq<FirewalldRuns.Call>, lists: seq<seq<LBPort>>,
                         node: string, denied: seq<int>, k: PortKey)
    requires |calls| == |lists| > 0
    requires FirewalldRuns.AllSucceed(FirewalldRuns.Fresh(zone0), calls)
    requires forall i :: 0 <= i < |calls| ==> Handed(calls[i].desired, lists[i], node, denied)
    ensures var zone, last := FirewalldRuns.Run(FirewalldRuns.Fresh(zone0), calls).zone, lists[|lists| - 1];
            && (k.port < 1024 && k in zone ==> k in zone0 || Privileged(last, node, k))
            && (k.port >= 1024 && k.port !in denied && Named(last, node, k) ==> k in zone)
  {
    AgentClosedForm(zone0, calls, lists, node, denied, k);
  }
}
