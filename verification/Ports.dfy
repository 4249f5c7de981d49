/** The port lists of internal/firewall: PortSpec, its key, and the list helpers
    stableUniquePorts, diffPorts, intersectPorts and nextManagedPorts. */
module Ports {
  import opened Api
  import opened Ordering

  /** What `protocolString` prints. */
  datatype Wire = Tcp | Udp

  /** The protocols the LBPort schema admits. */
  type LBProtocol = p: Protocol | p != SCTP witness TCP

  datatype PortKey = PortKey(port: int, protocol: Wire)

  datatype PortSpec = PortSpec(port: int, protocol: LBProtocol, allowPrivileged: bool) {
    function Key(): PortKey {
      PortKey(port, if protocol == UDP then Udp else Tcp)
    }
    function Base(): PortSpec {
      PortSpec(port, protocol, false)
    }
  }

  /** `protocolFromString` on what `protocolString` prints. */
  function Spec(k: PortKey): PortSpec {
    PortSpec(k.port, if k.protocol == Udp then UDP else TCP, false)
  }

  function KeySet(ports: seq<PortSpec>): set<PortKey> {
    set p | p in ports :: p.Key()
  }

  function Keys(ports: seq<PortSpec>): seq<PortKey> {
    seq(|ports|, i requires 0 <= i < |ports| => ports[i].Key())
  }

  function Specs(keys: seq<PortKey>): seq<PortSpec> {
    seq(|keys|, i requires 0 <= i < |keys| => Spec(keys[i]))
  }

  function Elems(keys: seq<PortKey>): set<PortKey> {
    set k | k in keys
  }

  ghost predicate KeysDistinct(ports: seq<PortSpec>) {
    forall i, j :: 0 <= i < j < |ports| ==> ports[i].Key() != ports[j].Key()
  }

  /** Go compares the protocol strings "", "TCP" and "UDP". */
  function Rank(p: LBProtocol): int {
    match p case Unset => 0 case TCP => 1 case UDP => 2
  }

  predicate PortLe(a: PortSpec, b: PortSpec) {
    a.port < b.port || (a.port == b.port && Rank(a.protocol) <= Rank(b.protocol))
  }

  predicate KeyLe(a: PortKey, b: PortKey) {
    a.port < b.port || (a.port == b.port && (a.protocol == Tcp || b.protocol == Udp))
  }

  // ---- specification functions ----

  /** First occurrence of every key, privilege dropped. */
  function Unique(ports: seq<PortSpec>): seq<PortSpec> {
    if ports == [] then [] else
      var u, last := Unique(ports[..|ports| - 1]), ports[|ports| - 1];
      if last.Key() in KeySet(u) then u else u + [last.Base()]
  }

  function StableUnique(ports: seq<PortSpec>): seq<PortSpec> {
    Sort(PortLe, Unique(ports))
  }

  /** The entries of `left` whose key is in `right`, or is not, as `inside` says. */
  function Select(left: seq<PortSpec>, right: set<PortKey>, inside: bool): seq<PortSpec> {
    if left == [] then [] else
      var r, last := Select(left[..|left| - 1], right, inside), left[|left| - 1];
      if (last.Key() in right) == inside then r + [last.Base()] else r
  }

  function Diff(left: seq<PortSpec>, right: set<PortKey>): seq<PortSpec> {
    StableUnique(Select(left, right, false))
  }

  function Intersect(left: seq<PortSpec>, right: set<PortKey>): seq<PortSpec> {
    StableUnique(Select(left, right, true))
  }

  function NextManaged(managed: seq<PortSpec>, desired: set<PortKey>, current: set<PortKey>,
                       added: seq<PortSpec>): seq<PortSpec> {
    StableUnique(Select(managed, desired * current, true) + added)
  }

  // ---- what the specification functions compute ----

  lemma KeysMembers(ports: seq<PortSpec>)
    ensures Elems(Keys(ports)) == KeySet(ports)
  {
    forall k ensures k in Elems(Keys(ports)) <==> k in KeySet(ports) {
      if k in KeySet(ports) {
        var i :| 0 <= i < |ports| && ports[i].Key() == k;
        assert Keys(ports)[i] == k;
      }
    }
  }

  lemma SpecsMembers(keys: seq<PortKey>)
    ensures KeySet(Specs(keys)) == Elems(keys)
    ensures Keys(Specs(keys)) == keys
  {
    forall k ensures k in KeySet(Specs(keys)) <==> k in Elems(keys) {
      if k in Elems(keys) {
        var i :| 0 <= i < |keys| && keys[i] == k;
        assert Specs(keys)[i].Key() == k;
      }
    }
  }

  lemma KeySetConcat(a: seq<PortSpec>, b: seq<PortSpec>)
    ensures KeySet(a + b) == KeySet(a) + KeySet(b)
  {
  }

  lemma KeySetOne(p: PortSpec)
    ensures KeySet([p]) == {p.Key()}
  {
    assert p in [p];
  }

  lemma {:induction false} UniqueKeys(ports: seq<PortSpec>)
    ensures KeysDistinct(Unique(ports))
    ensures KeySet(Unique(ports)) == KeySet(ports)
    ensures forall p :: p in Unique(ports) ==> exists q :: q in ports && p == q.Base()
  {
    if ports != [] {
      var front, last := ports[..|ports| - 1], ports[|ports| - 1];
      UniqueKeys(front);
      assert ports == front + [last];
      KeySetConcat(front, [last]);
      KeySetConcat(Unique(front), [last.Base()]);
      KeySetOne(last);
      KeySetOne(last.Base());
      forall i | 0 <= i < |Unique(front)| ensures Unique(front)[i].Key() in KeySet(Unique(front)) {
      }
      forall p | p in Unique(ports) ensures exists q :: q in ports && p == q.Base() {
        if p in Unique(front) {
          var q :| q in front && p == q.Base();
          assert q in ports;
        } else {
          assert last in ports;
        }
      }
    }
  }

  lemma UniqueSorts(ports: seq<PortSpec>)
    ensures Strict(PortLe, StableUnique(ports))
  {
    UniqueKeys(ports);
    SortStrict(PortLe, Unique(ports));
  }

  /** Entries with different keys, in order, have their keys in order. */
  lemma KeysFollow(a: PortSpec, b: PortSpec)
    requires PortLe(a, b) && !PortLe(b, a) && a.Key() != b.Key()
    ensures KeyLe(a.Key(), b.Key()) && !KeyLe(b.Key(), a.Key())
  {
  }

  lemma SortedKeys(ports: seq<PortSpec>)
    ensures var r := StableUnique(ports);
            forall i, j :: 0 <= i < j < |r| ==> KeyLe(r[i].Key(), r[j].Key()) && !KeyLe(r[j].Key(), r[i].Key())
  {
    var u, r := Unique(ports), StableUnique(ports);
    UniqueKeys(ports);
    SortPermutes(PortLe, u);
    UniqueSorts(ports);
    forall i, j | 0 <= i < j < |r| ensures KeyLe(r[i].Key(), r[j].Key()) && !KeyLe(r[j].Key(), r[i].Key()) {
      assert r[i] in u && r[j] in u;
      var a :| 0 <= a < |u| && u[a] == r[i];
      var b :| 0 <= b < |u| && u[b] == r[j];
      assert a != b;
      KeysFollow(r[i], r[j]);
    }
  }

  /** stableUniquePorts returns every key of its input exactly once, in ascending order, and
      the list of keys depends on nothing but that set. */
  lemma StableUniqueKeys(ports: seq<PortSpec>)
    ensures KeySet(StableUnique(ports)) == KeySet(ports)
    ensures Strict(KeyLe, Keys(StableUnique(ports)))
    ensures Distinct(Keys(StableUnique(ports)))
    ensures Elems(Keys(StableUnique(ports))) == KeySet(ports)
    ensures forall p :: p in StableUnique(ports) ==> exists q :: q in ports && p == q.Base()
  {
    var u, r := Unique(ports), StableUnique(ports);
    UniqueKeys(ports);
    SortPermutes(PortLe, u);
    assert KeySet(r) == KeySet(u);
    KeysMembers(r);
    SortedKeys(ports);
  }

  lemma StableUniqueCanonical(a: seq<PortSpec>, b: seq<PortSpec>)
    requires KeySet(a) == KeySet(b)
    ensures Keys(StableUnique(a)) == Keys(StableUnique(b))
  {
    StableUniqueKeys(a);
    StableUniqueKeys(b);
    var x, y := Keys(StableUnique(a)), Keys(StableUnique(b));
    forall k ensures k in x <==> k in y {
      assert k in x <==> k in Elems(x);
      assert k in y <==> k in Elems(y);
    }
    StrictUnique(KeyLe, x, y);
  }

  lemma {:induction false} SelectKeys(left: seq<PortSpec>, right: set<PortKey>, inside: bool)
    ensures KeySet(Select(left, right, inside))
         == if inside then KeySet(left) * right else KeySet(left) - right
  {
    if left != [] {
      var front, last := left[..|left| - 1], left[|left| - 1];
      SelectKeys(front, right, inside);
      assert left == front + [last];
      KeySetConcat(front, [last]);
      KeySetConcat(Select(front, right, inside), [last.Base()]);
      KeySetOne(last);
      KeySetOne(last.Base());
    }
  }

  lemma DiffKeys(left: seq<PortSpec>, right: set<PortKey>)
    ensures KeySet(Diff(left, right)) == KeySet(left) - right
    ensures Distinct(Keys(Diff(left, right))) && Strict(KeyLe, Keys(Diff(left, right)))
    ensures Elems(Keys(Diff(left, right))) == KeySet(left) - right
  {
    SelectKeys(left, right, false);
    StableUniqueKeys(Select(left, right, false));
  }

  lemma IntersectKeys(left: seq<PortSpec>, right: set<PortKey>)
    ensures KeySet(Intersect(left, right)) == KeySet(left) * right
  {
    SelectKeys(left, right, true);
    StableUniqueKeys(Select(left, right, true));
  }

  lemma NextManagedKeys(managed: seq<PortSpec>, desired: set<PortKey>, current: set<PortKey>, added: seq<PortSpec>)
    ensures KeySet(NextManaged(managed, desired, current, added))
         == KeySet(managed) * desired * current + KeySet(added)
    ensures Strict(KeyLe, Keys(NextManaged(managed, desired, current, added)))
    ensures Elems(Keys(NextManaged(managed, desired, current, added)))
         == KeySet(managed) * desired * current + KeySet(added)
  {
    var kept := Select(managed, desired * current, true);
    SelectKeys(managed, desired * current, true);
    KeySetConcat(kept, added);
    StableUniqueKeys(kept + added);
  }

  // ---- the loops ----

  method CollectKeys(ports: seq<PortSpec>) returns (keys: set<PortKey>)
    ensures keys == KeySet(ports)
  {
    keys := {};
    for i := 0 to |ports|
      invariant keys == KeySet(ports[..i])
    {
      assert ports[..i + 1] == ports[..i] + [ports[i]];
      KeySetConcat(ports[..i], [ports[i]]);
      KeySetOne(ports[i]);
      keys := keys + {ports[i].Key()};
    }
    assert ports[..|ports|] == ports;
  }

  method StableUniquePorts(ports: seq<PortSpec>) returns (out: seq<PortSpec>)
    ensures out == StableUnique(ports)
    ensures KeySet(out) == KeySet(ports)
    ensures Strict(KeyLe, Keys(out))
  {
    var seen: set<PortKey> := {};
    var firsts: seq<PortSpec> := [];
    for i := 0 to |ports|
      invariant firsts == Unique(ports[..i])
      invariant seen == KeySet(firsts)
    {
      var base := ports[i].Base();
      assert ports[..i + 1][..i] == ports[..i];
      if base.Key() !in seen {
        KeySetConcat(firsts, [base]);
        KeySetOne(base);
        seen := seen + {base.Key()};
        firsts := firsts + [base];
      }
    }
    assert ports[..|ports|] == ports;
    out := Sort(PortLe, firsts);
    StableUniqueKeys(ports);
  }

  method SelectPorts(left: seq<PortSpec>, right: set<PortKey>, inside: bool) returns (out: seq<PortSpec>)
    ensures out == Select(left, right, inside)
  {
    out := [];
    for i := 0 to |left|
      invariant out == Select(left[..i], right, inside)
    {
      assert left[..i + 1][..i] == left[..i];
      if (left[i].Key() in right) == inside {
        out := out + [left[i].Base()];
      }
    }
    assert left[..|left|] == left;
  }

  method DiffPorts(left: seq<PortSpec>, right: seq<PortSpec>) returns (out: seq<PortSpec>)
    ensures out == Diff(left, KeySet(right))
    ensures KeySet(out) == KeySet(left) - KeySet(right)
    ensures Strict(KeyLe, Keys(out))
  {
    var rightSet := CollectKeys(right);
    out := SelectPorts(left, rightSet, false);
    out := StableUniquePorts(out);
    DiffKeys(left, KeySet(right));
  }

  method IntersectPorts(left: seq<PortSpec>, right: seq<PortSpec>) returns (out: seq<PortSpec>)
    ensures out == Intersect(left, KeySet(right))
    ensures KeySet(out) == KeySet(left) * KeySet(right)
    ensures Strict(KeyLe, Keys(out))
  {
    var rightSet := CollectKeys(right);
    out := SelectPorts(left, rightSet, true);
    out := StableUniquePorts(out);
    IntersectKeys(left, KeySet(right));
  }

  method NextManagedPorts(previous: seq<PortSpec>, desired: seq<PortSpec>, current: seq<PortSpec>,
                          added: seq<PortSpec>) returns (out: seq<PortSpec>)
    ensures out == NextManaged(previous, KeySet(desired), KeySet(current), added)
    ensures KeySet(out) == KeySet(previous) * KeySet(desired) * KeySet(current) + KeySet(added)
    ensures Strict(KeyLe, Keys(out))
  {
    var desiredSet := CollectKeys(desired);
    var currentSet := CollectKeys(current);
    var kept := SelectPorts(previous, desiredSet * currentSet, true);
    out := StableUniquePorts(kept + added);
    NextManagedKeys(previous, KeySet(desired), KeySet(current), added);
  }

  /** The order of the lists: by port number, and TCP before UDP. */
  lemma PortOrder(a: PortSpec, b: PortSpec)
    requires a.protocol != Unset && b.protocol != Unset
    ensures PortLe(a, b) <==> a.port < b.port || (a.port == b.port && (a.protocol == TCP || b.protocol == UDP))
  {
  }

  /** What the firewall sees of a port: udp for UDP and tcp for everything else. */
  lemma KeyMeaning(p: PortSpec)
    ensures p.Key().port == p.port && (p.Key().protocol == Udp <==> p.protocol == UDP)
    ensures Spec(p.Key()).port == p.port && (Spec(p.Key()).protocol == UDP <==> p.protocol == UDP)
  {
  }
}
