/** The names, labels and keys the controller derives from a Service. */
module Naming {
  import opened Api
  import opened Cluster
  import H = HostPort
  import T = Text

  const MANAGED_BY := "app.kubernetes.io/managed-by"
  const SERVICE := "bulb.toturi.tech/service"
  const SERVICE_NS := "bulb.toturi.tech/service-namespace"
  const BULB := "bulb"
  const OWNER := "bulb-controller"

  function ProtocolName(p: Protocol): string {
    match Normalized(p)
    case UDP => "udp"
    case SCTP => "sctp"
    case _ => "tcp"
  }

  function DaemonSetName(id: ServiceId): string {
    "bulb-" + id.ns + "-" + id.name
  }

  function LBPortName(id: ServiceId, port: int, protocol: Protocol): string {
    DaemonSetName(id) + "-" + T.Itoa(port) + "-" + ProtocolName(protocol)
  }

  function PortKeyText(port: int, protocol: Protocol): string {
    T.Itoa(port) + "/" + ProtocolName(protocol)
  }

  function ServiceLabels(id: ServiceId): Labels {
    map[MANAGED_BY := BULB, SERVICE := id.name, SERVICE_NS := id.ns]
  }

  /** Go's map read: a missing key gives "". */
  function Read(m: Labels, key: string): string {
    if key in m then m[key] else ""
  }

  /** The label selector `client.MatchingLabels` builds from ServiceLabels. */
  predicate Carries(labels: Labels, id: ServiceId) {
    && MANAGED_BY in labels && labels[MANAGED_BY] == BULB
    && SERVICE in labels && labels[SERVICE] == id.name
    && SERVICE_NS in labels && labels[SERVICE_NS] == id.ns
  }

  // ---- names ----

  lemma ProtocolNames(p: Protocol, q: Protocol)
    ensures H.Lacks(ProtocolName(p), '-') && H.Lacks(ProtocolName(p), '/')
    ensures ProtocolName(p) == ProtocolName(q) ==> Normalized(p) == Normalized(q)
  {
    assert "tcp"[0] == 't' && "udp"[0] == 'u' && "sctp"[0] == 's';
  }

  /** A text is determined by what stands before and after its last separator. */
  lemma LastParts(a: string, b: string, x: string, y: string, c: char)
    requires H.Lacks(b, c) && H.Lacks(y, c) && a + [c] + b == x + [c] + y
    ensures a == x && b == y
  {
    H.LastIndexLast(a, c, b);
    H.LastIndexLast(x, c, y);
    var s, t := a + [c] + b, x + [c] + y;
    assert s[..|a|] == a && s[|a| + 1..] == b;
    assert t[..|x|] == x && t[|x| + 1..] == y;
  }

  lemma DigitsLack(n: int, c: char)
    requires !T.IsDigit(c) && (n >= 0 || c != '-')
    ensures H.Lacks(T.Itoa(n), c)
  {
    var m: nat := if n < 0 then -n else n;
    T.DecimalDigits(m);
    var d := T.Decimal(m);
    forall i | 0 <= i < |d| ensures d[i] != c { assert T.IsDigit(d[i]); }
  }

  /** Two keys are equal exactly when port and protocol are. */
  lemma PortKeyTextInjective(m: int, p: Protocol, n: int, q: Protocol)
    ensures PortKeyText(m, p) == PortKeyText(n, q) <==> m == n && Normalized(p) == Normalized(q)
  {
    if PortKeyText(m, p) == PortKeyText(n, q) {
      ProtocolNames(p, q);
      ProtocolNames(q, p);
      assert PortKeyText(m, p) == T.Itoa(m) + ['/'] + ProtocolName(p) && PortKeyText(n, q) == T.Itoa(n) + ['/'] + ProtocolName(q);
      LastParts(T.Itoa(m), ProtocolName(p), T.Itoa(n), ProtocolName(q), '/');
      T.ItoaInjective(m, n);
    }
  }

  lemma NameSplits(a: ServiceId, m: int, p: Protocol, b: ServiceId, n: int, q: Protocol)
    requires LBPortName(a, m, p) == LBPortName(b, n, q)
    ensures DaemonSetName(a) + "-" + T.Itoa(m) == DaemonSetName(b) + "-" + T.Itoa(n) && Normalized(p) == Normalized(q)
  {
    ProtocolNames(p, q);
    ProtocolNames(q, p);
    var x, y := DaemonSetName(a) + "-" + T.Itoa(m), DaemonSetName(b) + "-" + T.Itoa(n);
    assert LBPortName(a, m, p) == x + ['-'] + ProtocolName(p) && LBPortName(b, n, q) == y + ['-'] + ProtocolName(q);
    LastParts(x, ProtocolName(p), y, ProtocolName(q), '-');
  }

  /** Within one Service a name stands for one port and protocol. */
  lemma NameInjective(id: ServiceId, m: int, p: Protocol, n: int, q: Protocol)
    ensures LBPortName(id, m, p) == LBPortName(id, n, q) <==> m == n && Normalized(p) == Normalized(q)
  {
    if LBPortName(id, m, p) == LBPortName(id, n, q) {
      NameSplits(id, m, p, id, n, q);
      var d := DaemonSetName(id) + "-";
      assert (d + T.Itoa(m))[|d|..] == T.Itoa(m) && (d + T.Itoa(n))[|d|..] == T.Itoa(n);
      T.ItoaInjective(m, n);
    }
  }

  /** Across Services a name stands for one DaemonSet name, port and protocol. */
  lemma NameTellsService(a: ServiceId, m: int, p: Protocol, b: ServiceId, n: int, q: Protocol)
    requires m >= 0 && n >= 0 && LBPortName(a, m, p) == LBPortName(b, n, q)
    ensures DaemonSetName(a) == DaemonSetName(b) && m == n && Normalized(p) == Normalized(q)
  {
    NameSplits(a, m, p, b, n, q);
    DigitsLack(m, '-');
    DigitsLack(n, '-');
    assert DaemonSetName(a) + ['-'] + T.Itoa(m) == DaemonSetName(b) + ['-'] + T.Itoa(n);
    LastParts(DaemonSetName(a), T.Itoa(m), DaemonSetName(b), T.Itoa(n), '-');
    T.ItoaInjective(m, n);
  }

  /** DaemonSet names do not tell Services apart: a dash may belong to either part. */
  lemma NamesCollide()
    ensures DaemonSetName(ServiceId("a", "b-c")) == DaemonSetName(ServiceId("a-b", "c"))
  {
  }

  // ---- sameStringMap ----

  predicate SameMap(a: Labels, b: Labels) {
    |a| == |b| && forall key :: key in a ==> Read(b, key) == a[key]
  }

  method SameStringMap(a: Labels, b: Labels) returns (same: bool)
    ensures same == SameMap(a, b)
  {
    if |a| != |b| { return false; }
    var keys := a.Keys;
    while keys != {}
      invariant keys <= a.Keys
      invariant forall key :: key in a && key !in keys ==> Read(b, key) == a[key]
      decreases |keys|
    {
      var key :| key in keys;
      if Read(b, key) != a[key] { return false; }
      keys := keys - {key};
    }
    same := true;
  }

  ghost predicate NoEmptyValue(m: Labels) {
    forall key :: key in m ==> m[key] != ""
  }

  lemma {:induction false} SubsetSize<T>(a: set<T>, b: set<T>)
    requires a <= b
    ensures |a| <= |b|
    ensures |a| == |b| ==> a == b
  {
    if a != {} {
      var x :| x in a;
      SubsetSize(a - {x}, b - {x});
    }
  }

  lemma MapSize(m: Labels)
    ensures |m| == |m.Keys|
  {
  }

  lemma SameIsEqual(a: Labels, b: Labels)
    requires NoEmptyValue(a)
    ensures SameMap(a, b) <==> a == b
  {
    if SameMap(a, b) {
      forall key | key in a ensures key in b && b[key] == a[key] { assert Read(b, key) == a[key]; }
      assert a.Keys <= b.Keys;
      MapSize(a);
      MapSize(b);
      SubsetSize(a.Keys, b.Keys);
      assert a.Keys == b.Keys;
    }
  }

  lemma {:induction false} Longest(s: set<string>) returns (n: nat)
    ensures forall x :: x in s ==> |x| <= n
  {
    if s == {} {
      n := 0;
    } else {
      var x :| x in s;
      n := Longest(s - {x});
      if n < |x| { n := |x|; }
    }
  }

  /** Comparing lengths and reading missing keys as "" decides equality exactly for maps without
      empty values: any other map is also found the same as one it is not equal to. */
  lemma SameMapSound(a: Labels)
    ensures (forall b: Labels :: SameMap(a, b) ==> a == b) <==> NoEmptyValue(a)
  {
    if NoEmptyValue(a) {
      forall b: Labels | SameMap(a, b) ensures a == b { SameIsEqual(a, b); }
    } else {
      var key :| key in a && a[key] == "";
      var n := Longest(a.Keys);
      var unused := seq(n + 1, _ => 'x');
      assert unused !in a;
      var rest := a - {key};
      assert rest.Keys == a.Keys - {key};
      var b := rest[unused := "other"];
      assert b.Keys == rest.Keys + {unused};
      assert |b| == |a| by { MapSize(a); MapSize(b); }
      assert SameMap(a, b) && unused in b;
    }
  }

  lemma OwnLabels(id: ServiceId)
    ensures Carries(ServiceLabels(id), id) && SameMap(ServiceLabels(id), ServiceLabels(id))
    ensures Read(ServiceLabels(id), SERVICE) == id.name && Read(ServiceLabels(id), SERVICE_NS) == id.ns
  {
    KeysDiffer();
  }

  lemma KeysDiffer()
    ensures MANAGED_BY != SERVICE && MANAGED_BY != SERVICE_NS && SERVICE != SERVICE_NS
  {
    assert MANAGED_BY[0] == 'a' && SERVICE[0] == 'b';
    assert |SERVICE| != |SERVICE_NS|;
  }

  /** One Service's labels are never another's. */
  lemma LabelsTellService(labels: Labels, a: ServiceId, b: ServiceId)
    requires Carries(labels, a) && (Carries(labels, b) || SameMap(labels, ServiceLabels(b)))
    ensures a == b
  {
    OwnLabels(b);
    if SameMap(labels, ServiceLabels(b)) {
      assert Read(ServiceLabels(b), SERVICE) == labels[SERVICE];
      assert Read(ServiceLabels(b), SERVICE_NS) == labels[SERVICE_NS];
    }
  }

  /** The texts themselves. */
  lemma NameText(id: ServiceId, port: int, protocol: Protocol)
    ensures DaemonSetName(id) == "bulb-" + id.ns + "-" + id.name
    ensures LBPortName(id, port, protocol)
         == "bulb-" + id.ns + "-" + id.name + "-" + T.Itoa(port) + "-"
            + (if protocol == UDP then "udp" else if protocol == SCTP then "sctp" else "tcp")
  {
  }

  lemma LabelText(labels: Labels, id: ServiceId)
    ensures Carries(labels, id) <==>
              Read(labels, "app.kubernetes.io/managed-by") == "bulb" && "bulb.toturi.tech/service" in labels
              && Read(labels, "bulb.toturi.tech/service") == id.name && "bulb.toturi.tech/service-namespace" in labels
              && Read(labels, "bulb.toturi.tech/service-namespace") == id.ns
    ensures Carries(ServiceLabels(id), id) && |ServiceLabels(id)| == 3
  {
    OwnLabels(id);
    KeysDiffer();
    assert ServiceLabels(id).Keys == {MANAGED_BY, SERVICE, SERVICE_NS};
    assert |ServiceLabels(id)| == |ServiceLabels(id).Keys|;
  }
}
