/** How the proxy picks an endpoint: a wrapping 64-bit counter per protocol and listen address. */
module RoundRobin {
  import opened Ordering

  const WRAP: nat := 0x1_0000_0000_0000_0000

  type Uint64 = n: nat | n < 0x1_0000_0000_0000_0000

  datatype RuleProtocol = Unset | TCP | UDP

  /** An unset protocol is TCP. */
  function ProtocolText(p: RuleProtocol): string {
    if p == UDP then "udp" else "tcp"
  }

  /** One forwarding rule. */
  datatype Spec = Spec(listen: string, upstream: string, protocol: RuleProtocol, endpoints: seq<string>)

  function CounterKey(spec: Spec): string {
    ProtocolText(spec.protocol) + ":" + spec.listen
  }

  type Counters = map<string, Uint64>

  function Counter(c: Counters, key: string): Uint64 {
    if key in c then c[key] else 0
  }

  /** The endpoint number that a call picks. */
  function Picks(c: Counters, spec: Spec): (r: nat)
    requires spec.endpoints != []
    ensures r < |spec.endpoints|
  {
    Counter(c, CounterKey(spec)) % |spec.endpoints|
  }

  function Chosen(c: Counters, spec: Spec): string {
    if spec.endpoints == [] then spec.upstream else spec.endpoints[Picks(c, spec)]
  }

  function Bumped(c: Counters, spec: Spec): Counters {
    if spec.endpoints == [] then c
    else c[CounterKey(spec) := (Counter(c, CounterKey(spec)) + 1) % WRAP]
  }

  class EndpointCounters {
    var counters: Counters

    constructor ()
      ensures counters == map[]
    {
      counters := map[];
    }

    /** Add one, wrapping, and return the value before. */
    method Inc(key: string) returns (before: Uint64)
      modifies this
      ensures before == Counter(old(counters), key)
      ensures counters == old(counters)[key := (Counter(old(counters), key) + 1) % WRAP]
    {
      var count: Uint64 := (Counter(counters, key) + 1) % WRAP;
      counters := counters[key := count];
      before := if count == 0 then WRAP - 1 else count - 1;
    }

    method UpstreamFor(spec: Spec) returns (upstream: string)
      modifies this
      ensures upstream == Chosen(old(counters), spec)
      ensures counters == Bumped(old(counters), spec)
    {
      if |spec.endpoints| == 0 { return spec.upstream; }
      var before := Inc(CounterKey(spec));
      upstream := spec.endpoints[before % |spec.endpoints|];
    }
  }

  // ---- the counter of one listener among calls for all ----

  function After(c: Counters, calls: seq<Spec>): Counters {
    if calls == [] then c else Bumped(After(c, calls[..|calls| - 1]), calls[|calls| - 1])
  }

  predicate Counts(spec: Spec, key: string) {
    spec.endpoints != [] && CounterKey(spec) == key
  }

  /** How many of the calls use the counter `key`. */
  function Own(calls: seq<Spec>, key: string): nat {
    if calls == [] then 0
    else Own(calls[..|calls| - 1], key) + if Counts(calls[|calls| - 1], key) then 1 else 0
  }

  lemma ModStep(a: nat, b: nat)
    ensures ((a + b) % WRAP + 1) % WRAP == (a + b + 1) % WRAP
  {
  }

  /** Only a listener's own calls move its counter: after any calls whatever it stands at its
      start plus the number of its own, modulo 2^64. */
  lemma {:induction false} CounterValue(c: Counters, calls: seq<Spec>, key: string)
    ensures Counter(After(c, calls), key) == (Counter(c, key) + Own(calls, key)) % WRAP
  {
    if calls != [] {
      var front := calls[..|calls| - 1];
      CounterValue(c, front, key);
      ModStep(Counter(c, key), Own(front, key));
    }
  }

  /** Two listeners share a counter only if protocol and address agree. */
  lemma CounterKeyInjective(a: Spec, b: Spec)
    requires CounterKey(a) == CounterKey(b)
    ensures ProtocolText(a.protocol) == ProtocolText(b.protocol) && a.listen == b.listen
  {
    assert CounterKey(a)[..3] == ProtocolText(a.protocol) && CounterKey(b)[..3] == ProtocolText(b.protocol);
    assert CounterKey(a)[4..] == a.listen && CounterKey(b)[4..] == b.listen;
  }

  /** A listener's call picks by the number of its own earlier calls alone. */
  lemma OwnPick(c: Counters, calls: seq<Spec>, spec: Spec)
    requires spec.endpoints != []
    ensures Picks(After(c, calls), spec) == (Counter(c, CounterKey(spec)) + Own(calls, CounterKey(spec))) % WRAP % |spec.endpoints|
  {
    CounterValue(c, calls, CounterKey(spec));
  }

  // ---- counting remainders ----

  /** The endpoint index of own call number k, among n endpoints. */
  function Pick(k: nat, n: nat): nat
    requires n > 0
  {
    k % WRAP % n
  }

  /** How often index r is picked by the own calls a, ..., a + w - 1. */
  function Hits(a: nat, w: nat, n: nat, r: nat): nat
    requires n > 0
  {
    if w == 0 then 0 else Hits(a, w - 1, n, r) + if Pick(a + w - 1, n) == r then 1 else 0
  }

  /** How many numbers below m leave remainder r. */
  function Below(m: nat, n: nat, r: nat): nat
    requires r < n
  {
    (m + n - 1 - r) / n
  }

  lemma DivUnique(x: int, n: nat, q: int, t: int)
    requires n > 0 && x == q * n + t && 0 <= t < n
    ensures x / n == q && x % n == t
  {
    var d := x / n - q;
    assert x == (x / n) * n + x % n;
    assert d * n == t - x % n;
    MulFar(d, n);
  }

  lemma MulFar(d: int, n: nat)
    ensures d >= 1 ==> d * n >= n
    ensures d <= -1 ==> d * n <= 0 - n
  {
  }

  lemma BelowStep(m: nat, n: nat, r: nat)
    requires r < n
    ensures Below(m + 1, n, r) == Below(m, n, r) + if m % n == r then 1 else 0
  {
    var q, t := m / n, m % n;
    assert m == q * n + t;
    if t < r {
      DivUnique(m + n - 1 - r, n, q, t + n - 1 - r);
      DivUnique(m + n - r, n, q, t + n - r);
    } else if t == r {
      DivUnique(m + n - 1 - r, n, q, n - 1);
      assert m + n - r == (q + 1) * n by { assert (q + 1) * n == q * n + n; }
      DivUnique(m + n - r, n, q + 1, 0);
    } else {
      assert (q + 1) * n == q * n + n;
      DivUnique(m + n - 1 - r, n, q + 1, t - 1 - r);
      DivUnique(m + n - r, n, q + 1, t - r);
    }
  }

  /** The picks do not see the wrap. */
  ghost predicate Unwrapped(a: nat, w: nat, n: nat) {
    a + w <= WRAP || (n > 0 && WRAP % n == 0)
  }

  lemma ModMod(k: nat, n: nat)
    requires n > 0 && WRAP % n == 0
    ensures k % WRAP % n == k % n
  {
    var q, t, u := k / WRAP, k % WRAP, WRAP / n;
    assert k == q * WRAP + t && WRAP == u * n;
    assert k == (q * u + t / n) * n + t % n by {
      assert q * WRAP == q * (u * n) == (q * u) * n;
      assert t == (t / n) * n + t % n;
      assert (q * u + t / n) * n == (q * u) * n + (t / n) * n;
    }
    DivUnique(k, n, q * u + t / n, t % n);
  }

  lemma {:induction false} HitsBelow(a: nat, w: nat, n: nat, r: nat)
    requires r < n && Unwrapped(a, w, n)
    ensures Hits(a, w, n, r) == Below(a + w, n, r) - Below(a, n, r)
    decreases w
  {
    if w > 0 {
      var k := a + w - 1;
      HitsBelow(a, w - 1, n, r);
      BelowStep(k, n, r);
      PickUnwrapped(k, n);
    }
  }

  lemma PickUnwrapped(k: nat, n: nat)
    requires n > 0 && (k < WRAP || WRAP % n == 0)
    ensures Pick(k, n) == k % n
  {
    if k < WRAP { assert k % WRAP == k; } else { ModMod(k, n); }
  }

  lemma DivSum(x: nat, w: nat, n: nat)
    requires n > 0
    ensures (x + w) / n == x / n + w / n + if x % n + w % n < n then 0 else 1
  {
    var q, t, p, u := x / n, x % n, w / n, w % n;
    assert x == q * n + t && w == p * n + u;
    assert (q + p) * n == q * n + p * n;
    assert (q + p + 1) * n == (q + p) * n + n;
    if t + u < n {
      DivUnique(x + w, n, q + p, t + u);
    } else {
      DivUnique(x + w, n, q + p + 1, t + u - n);
    }
  }

  lemma DivWindow(x: nat, w: nat, n: nat)
    requires n > 0
    ensures w / n <= (x + w) / n - x / n <= (w + n - 1) / n
  {
    DivSum(x, w, n);
    DivSum(n - 1, w, n);
    DivUnique(n - 1, n, 0, n - 1);
  }

  lemma HitsFair(a: nat, w: nat, n: nat, r: nat)
    requires r < n && Unwrapped(a, w, n)
    ensures w / n <= Hits(a, w, n, r) <= (w + n - 1) / n
  {
    HitsBelow(a, w, n, r);
    DivWindow(a + n - 1 - r, w, n);
  }

  lemma HitsOnce(a: nat, n: nat, r: nat)
    requires r < n && Unwrapped(a, n, n)
    ensures Hits(a, n, n, r) == 1
  {
    HitsFair(a, n, n, r);
    DivUnique(n, n, 1, 0);
    DivUnique(n + n - 1, n, 1, n - 1);
  }

  lemma {:induction false} HitsAfterWrap(w: nat, n: nat)
    requires 0 < w <= n <= WRAP
    ensures Hits(WRAP - 1, w, n, n - 1) == if (WRAP - 1) % n == n - 1 then 1 else 0
    decreases w
  {
    if w > 1 {
      HitsAfterWrap(w - 1, n);
      assert (WRAP - 1 + w - 1) % WRAP == w - 2;
      DivUnique(w - 2, n, 0, w - 2);
    } else {
      assert Hits(WRAP - 1, 0, n, n - 1) == 0;
    }
  }

  lemma WrapMisses(n: nat)
    requires 0 < n <= WRAP && WRAP % n != 0
    ensures Hits(WRAP - 1, n, n, n - 1) == 0
  {
    HitsAfterWrap(n, n);
    var q, t := WRAP / n, WRAP % n;
    assert WRAP == q * n + t;
    DivUnique(WRAP - 1, n, q, t - 1);
  }

  // ---- fairness of one listener among all calls ----

  /** The calls that share the listener's counter are for the listener's own rule. */
  ghost predicate OneRule(calls: seq<Spec>, spec: Spec) {
    forall s :: s in calls && Counts(s, CounterKey(spec)) ==> s.endpoints == spec.endpoints
  }

  /** Which calls are the listener's. */
  function OwnFlags(calls: seq<Spec>, spec: Spec): seq<bool> {
    seq(|calls|, i requires 0 <= i < |calls| => Counts(calls[i], CounterKey(spec)))
  }

  /** Which calls are the listener's and pick its endpoint r. */
  function PickFlags(c: Counters, calls: seq<Spec>, spec: Spec, r: nat): seq<bool> {
    seq(|calls|, i requires 0 <= i < |calls| =>
      Counts(calls[i], CounterKey(spec)) && Picks(After(c, calls[..i]), calls[i]) == r)
  }

  function CountTrue(b: seq<bool>): nat {
    if b == [] then 0 else CountTrue(b[..|b| - 1]) + if b[|b| - 1] then 1 else 0
  }

  /** How many calls with numbers lo, ..., hi - 1 are the listener's, all listeners' calls being
      numbered together. */
  function OwnIn(calls: seq<Spec>, spec: Spec, lo: nat, hi: nat): nat
    requires lo <= hi <= |calls|
  {
    CountTrue(OwnFlags(calls, spec)[lo..hi])
  }

  /** How many of them pick endpoint r. */
  function Picked(c: Counters, calls: seq<Spec>, spec: Spec, lo: nat, hi: nat, r: nat): nat
    requires lo <= hi <= |calls|
  {
    CountTrue(PickFlags(c, calls, spec, r)[lo..hi])
  }

  /** How many of the numbers a, ..., a + w - 1 satisfy f. */
  function Tally(f: nat -> bool, a: nat, w: nat): nat {
    if w == 0 then 0 else Tally(f, a, w - 1) + if f(a + w - 1) then 1 else 0
  }

  lemma {:induction false} HitsTally(f: nat -> bool, a: nat, w: nat, n: nat, r: nat)
    requires n > 0 && forall k: nat :: f(k) <==> Pick(k, n) == r
    ensures Hits(a, w, n, r) == Tally(f, a, w)
    decreases w
  {
    if w > 0 { HitsTally(f, a, w - 1, n, r); }
  }

  lemma {:induction false} CountConcat(a: seq<bool>, b: seq<bool>)
    ensures CountTrue(a + b) == CountTrue(a) + CountTrue(b)
    decreases |b|
  {
    if b == [] {
      assert a + b == a;
    } else {
      assert (a + b)[..|a + b| - 1] == a + b[..|b| - 1];
      CountConcat(a, b[..|b| - 1]);
    }
  }

  lemma CountWindow(b: seq<bool>, lo: nat, i: nat)
    requires lo <= i < |b|
    ensures CountTrue(b[lo..i + 1]) == CountTrue(b[lo..i]) + if b[i] then 1 else 0
  {
    assert b[lo..i + 1][..i - lo] == b[lo..i];
  }

  lemma CountSplit(b: seq<bool>, lo: nat, i: nat)
    requires lo <= i <= |b|
    ensures CountTrue(b[..i]) == CountTrue(b[..lo]) + CountTrue(b[lo..i])
  {
    assert b[..i] == b[..lo] + b[lo..i];
    CountConcat(b[..lo], b[lo..i]);
  }

  /** f tells from the number of own calls before whether call i is an own call that hits. */
  ghost predicate Tells(f: nat -> bool, own: seq<bool>, hit: seq<bool>, base: nat, i: nat)
    requires i < |own| == |hit|
  {
    hit[i] <==> own[i] && f(base + CountTrue(own[..i]))
  }

  /** Then the hits in a window are a tally over consecutive numbers. */
  lemma {:induction false} WindowTally(f: nat -> bool, own: seq<bool>, hit: seq<bool>, base: nat, lo: nat, hi: nat)
    requires lo <= hi <= |own| == |hit| && forall i :: 0 <= i < |own| ==> Tells(f, own, hit, base, i)
    ensures CountTrue(hit[lo..hi]) == Tally(f, base + CountTrue(own[..lo]), CountTrue(own[lo..hi]))
    decreases hi
  {
    if lo < hi {
      var i := hi - 1;
      WindowTally(f, own, hit, base, lo, i);
      CountWindow(own, lo, i);
      CountWindow(hit, lo, i);
      CountSplit(own, lo, i);
      assert Tells(f, own, hit, base, i);
    }
  }

  lemma {:induction false} OwnCount(calls: seq<Spec>, spec: Spec, i: nat)
    requires i <= |calls|
    ensures CountTrue(OwnFlags(calls, spec)[..i]) == Own(calls[..i], CounterKey(spec))
  {
    if i > 0 {
      OwnCount(calls, spec, i - 1);
      assert OwnFlags(calls, spec)[..i][..i - 1] == OwnFlags(calls, spec)[..i - 1];
      assert calls[..i][..i - 1] == calls[..i - 1];
    }
  }

  /** The picks of the window are those of consecutive counter values. */
  lemma PickedHits(c: Counters, calls: seq<Spec>, spec: Spec, lo: nat, hi: nat, r: nat)
    requires lo <= hi <= |calls| && spec.endpoints != [] && OneRule(calls, spec)
    ensures Picked(c, calls, spec, lo, hi, r)
         == Hits(Counter(c, CounterKey(spec)) + Own(calls[..lo], CounterKey(spec)), OwnIn(calls, spec, lo, hi), |spec.endpoints|, r)
  {
    var f := (k: nat) => Pick(k, |spec.endpoints|) == r;
    var own, hit, base := OwnFlags(calls, spec), PickFlags(c, calls, spec, r), Counter(c, CounterKey(spec));
    forall i | 0 <= i < |calls| ensures Tells(f, own, hit, base, i) { PickTold(f, c, calls, spec, r, i); }
    WindowTally(f, own, hit, base, lo, hi);
    OwnCount(calls, spec, lo);
    HitsTally(f, base + CountTrue(own[..lo]), OwnIn(calls, spec, lo, hi), |spec.endpoints|, r);
  }

  lemma PickTold(f: nat -> bool, c: Counters, calls: seq<Spec>, spec: Spec, r: nat, i: nat)
    requires i < |calls| && spec.endpoints != [] && OneRule(calls, spec)
    requires forall k: nat :: f(k) <==> Pick(k, |spec.endpoints|) == r
    ensures Tells(f, OwnFlags(calls, spec), PickFlags(c, calls, spec, r), Counter(c, CounterKey(spec)), i)
  {
    OwnCount(calls, spec, i);
    if Counts(calls[i], CounterKey(spec)) { PickAt(c, calls, spec, i); }
  }

  lemma PickAt(c: Counters, calls: seq<Spec>, spec: Spec, i: nat)
    requires i < |calls| && spec.endpoints != [] && OneRule(calls, spec) && Counts(calls[i], CounterKey(spec))
    ensures Picks(After(c, calls[..i]), calls[i]) == Pick(Counter(c, CounterKey(spec)) + Own(calls[..i], CounterKey(spec)), |spec.endpoints|)
  {
    assert calls[i] in calls;
    OwnPick(c, calls[..i], calls[i]);
  }

  lemma OwnSplit(calls: seq<Spec>, spec: Spec, lo: nat, hi: nat)
    requires lo <= hi <= |calls|
    ensures Own(calls[..hi], CounterKey(spec)) == Own(calls[..lo], CounterKey(spec)) + OwnIn(calls, spec, lo, hi)
  {
    var own := OwnFlags(calls, spec);
    OwnCount(calls, spec, lo);
    OwnCount(calls, spec, hi);
    CountSplit(own, lo, hi);
  }

  /** The listener's counter does not pass 2^64 before call hi, or the wrap cannot be seen. */
  ghost predicate NoWrap(c: Counters, calls: seq<Spec>, spec: Spec, hi: nat)
    requires hi <= |calls| && spec.endpoints != []
  {
    || Counter(c, CounterKey(spec)) + Own(calls[..hi], CounterKey(spec)) <= 0x1_0000_0000_0000_0000
    || 0x1_0000_0000_0000_0000 % |spec.endpoints| == 0
  }

  lemma WindowUnwrapped(c: Counters, calls: seq<Spec>, spec: Spec, lo: nat, hi: nat)
    requires lo <= hi <= |calls| && spec.endpoints != [] && NoWrap(c, calls, spec, hi)
    ensures Unwrapped(Counter(c, CounterKey(spec)) + Own(calls[..lo], CounterKey(spec)), OwnIn(calls, spec, lo, hi), |spec.endpoints|)
  {
    OwnSplit(calls, spec, lo, hi);
  }

  /** The endpoint numbers of any window are fair, whatever calls for other listeners lie between. */
  lemma FairPicks(c: Counters, calls: seq<Spec>, spec: Spec, lo: nat, hi: nat, r: nat)
    requires lo <= hi <= |calls| && r < |spec.endpoints| && OneRule(calls, spec) && NoWrap(c, calls, spec, hi)
    ensures var w, n := OwnIn(calls, spec, lo, hi), |spec.endpoints|;
            w / n <= Picked(c, calls, spec, lo, hi, r) <= (w + n - 1) / n
  {
    PickedHits(c, calls, spec, lo, hi, r);
    WindowUnwrapped(c, calls, spec, lo, hi);
    HitsFair(Counter(c, CounterKey(spec)) + Own(calls[..lo], CounterKey(spec)), OwnIn(calls, spec, lo, hi), |spec.endpoints|, r);
  }

  lemma PickedOnce(c: Counters, calls: seq<Spec>, spec: Spec, lo: nat, hi: nat, r: nat)
    requires lo <= hi <= |calls| && r < |spec.endpoints| && OneRule(calls, spec) && NoWrap(c, calls, spec, hi)
    requires OwnIn(calls, spec, lo, hi) == |spec.endpoints|
    ensures Picked(c, calls, spec, lo, hi, r) == 1
  {
    PickedHits(c, calls, spec, lo, hi, r);
    WindowUnwrapped(c, calls, spec, lo, hi);
    HitsOnce(Counter(c, CounterKey(spec)) + Own(calls[..lo], CounterKey(spec)), |spec.endpoints|, r);
  }

  // ---- fairness of the answers ----

  /** What call i answers, all calls being made in order from counters c. */
  function Answer(c: Counters, calls: seq<Spec>, i: nat): string
    requires i < |calls|
  {
    Chosen(After(c, calls[..i]), calls[i])
  }

  /** Every answer is one of the call's own endpoints, or its ClusterIP if it has none. */
  lemma AnswerOwn(c: Counters, calls: seq<Spec>, i: nat)
    requires i < |calls|
    ensures if calls[i].endpoints == [] then Answer(c, calls, i) == calls[i].upstream
            else Answer(c, calls, i) in calls[i].endpoints
  {
  }

  /** Which calls are the listener's and are answered with e. */
  function AnswerFlags(c: Counters, calls: seq<Spec>, spec: Spec, e: string): seq<bool> {
    seq(|calls|, i requires 0 <= i < |calls| => Counts(calls[i], CounterKey(spec)) && Answer(c, calls, i) == e)
  }

  /** How many of the listener's calls with numbers lo, ..., hi - 1 are answered with e. */
  function Answered(c: Counters, calls: seq<Spec>, spec: Spec, lo: nat, hi: nat, e: string): nat
    requires lo <= hi <= |calls|
  {
    CountTrue(AnswerFlags(c, calls, spec, e)[lo..hi])
  }

  lemma AnsweredPicked(c: Counters, calls: seq<Spec>, spec: Spec, lo: nat, hi: nat, r: nat)
    requires lo <= hi <= |calls| && r < |spec.endpoints| && OneRule(calls, spec) && Distinct(spec.endpoints)
    ensures Answered(c, calls, spec, lo, hi, spec.endpoints[r]) == Picked(c, calls, spec, lo, hi, r)
  {
    var a, p := AnswerFlags(c, calls, spec, spec.endpoints[r]), PickFlags(c, calls, spec, r);
    forall i | 0 <= i < |calls| ensures a[i] == p[i] {
      if Counts(calls[i], CounterKey(spec)) {
        assert calls[i] in calls;
        var k := Picks(After(c, calls[..i]), calls[i]);
        assert k < r ==> spec.endpoints[k] != spec.endpoints[r];
        assert r < k ==> spec.endpoints[r] != spec.endpoints[k];
      }
    }
    assert a == p;
  }

  /** Fairness: whatever calls for other listeners lie between, in any window of calls each of the
      listener's endpoints is the answer to floor or ceiling of its share of the listener's calls. */
  lemma Fairness(c: Counters, calls: seq<Spec>, spec: Spec, lo: nat, hi: nat, e: string)
    requires lo <= hi <= |calls| && e in spec.endpoints && Distinct(spec.endpoints)
    requires OneRule(calls, spec) && NoWrap(c, calls, spec, hi)
    ensures var w, n := OwnIn(calls, spec, lo, hi), |spec.endpoints|;
            w / n <= Answered(c, calls, spec, lo, hi, e) <= (w + n - 1) / n
  {
    var r :| 0 <= r < |spec.endpoints| && spec.endpoints[r] == e;
    AnsweredPicked(c, calls, spec, lo, hi, r);
    FairPicks(c, calls, spec, lo, hi, r);
  }

  /** A window with as many of the listener's calls as it has endpoints answers each exactly once. */
  lemma Permutation(c: Counters, calls: seq<Spec>, spec: Spec, lo: nat, hi: nat, e: string)
    requires lo <= hi <= |calls| && e in spec.endpoints && Distinct(spec.endpoints)
    requires OneRule(calls, spec) && NoWrap(c, calls, spec, hi) && OwnIn(calls, spec, lo, hi) == |spec.endpoints|
    ensures Answered(c, calls, spec, lo, hi, e) == 1
  {
    var r :| 0 <= r < |spec.endpoints| && spec.endpoints[r] == e;
    AnsweredPicked(c, calls, spec, lo, hi, r);
    PickedOnce(c, calls, spec, lo, hi, r);
  }

  /** Every such window of every run, wrapping or not, answers each endpoint exactly once. */
  ghost predicate AlwaysFair(spec: Spec) {
    forall c: Counters, calls: seq<Spec>, lo: nat, hi: nat, e: string ::
      lo <= hi <= |calls| && e in spec.endpoints && OneRule(calls, spec) && OwnIn(calls, spec, lo, hi) == |spec.endpoints|
      ==> Answered(c, calls, spec, lo, hi, e) == 1
  }

  function Repeated(spec: Spec, n: nat): seq<Spec> {
    seq(n, _ => spec)
  }

  lemma {:induction false} OwnRepeated(spec: Spec, n: nat)
    requires spec.endpoints != []
    ensures Own(Repeated(spec, n), CounterKey(spec)) == n
  {
    if n > 0 {
      assert Repeated(spec, n)[..n - 1] == Repeated(spec, n - 1);
      OwnRepeated(spec, n - 1);
    }
  }

  lemma RepeatedOwn(spec: Spec, n: nat)
    requires spec.endpoints != []
    ensures OneRule(Repeated(spec, n), spec) && Own(Repeated(spec, n)[..0], CounterKey(spec)) == 0
    ensures OwnIn(Repeated(spec, n), spec, 0, n) == n
  {
    var calls := Repeated(spec, n);
    assert calls[..n] == calls && calls[..0] == [];
    OwnRepeated(spec, n);
    OwnSplit(calls, spec, 0, n);
  }

  /** A run that starts just below 2^64 and never answers with the last endpoint. */
  lemma WrapExample(spec: Spec)
    requires 0 < |spec.endpoints| <= WRAP && WRAP % |spec.endpoints| != 0 && Distinct(spec.endpoints)
    ensures !AlwaysFair(spec)
  {
    var n := |spec.endpoints|;
    var c: Counters, calls := map[CounterKey(spec) := WRAP - 1], Repeated(spec, n);
    RepeatedOwn(spec, n);
    PickedHits(c, calls, spec, 0, n, n - 1);
    WrapMisses(n);
    AnsweredPicked(c, calls, spec, 0, n, n - 1);
    assert Answered(c, calls, spec, 0, n, spec.endpoints[n - 1]) == 0;
  }

  /** The wrap of the counter is never seen if and only if the number of endpoints divides 2^64. */
  lemma FairAcrossWrap(spec: Spec)
    requires 0 < |spec.endpoints| <= 0x1_0000_0000_0000_0000 && Distinct(spec.endpoints)
    ensures AlwaysFair(spec) <==> 0x1_0000_0000_0000_0000 % |spec.endpoints| == 0
  {
    if WRAP % |spec.endpoints| == 0 {
      forall c: Counters, calls: seq<Spec>, lo: nat, hi: nat, e: string
        | lo <= hi <= |calls| && e in spec.endpoints && OneRule(calls, spec) && OwnIn(calls, spec, lo, hi) == |spec.endpoints|
        ensures Answered(c, calls, spec, lo, hi, e) == 1
      {
        Permutation(c, calls, spec, lo, hi, e);
      }
    } else {
      WrapExample(spec);
    }
  }
}
