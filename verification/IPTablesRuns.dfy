/** What holds at every point of an iptables Apply and over interrupted and repeated ones.
    Each address family is a chain of its own, so the statements are about one chain. */
module IPTablesRuns {
  import opened Ordering
  import opened Ports
  import opened RuleListing
  import opened IPTables

  function Count(c: Chain, k: PortKey): nat {
    multiset(c.rules)[k]
  }

  ghost predicate Wellkept(c: Chain) {
    Valid(c) && c.jumps <= 1 && Distinct(c.rules)
  }

  // ---- counting rules ----

  lemma {:induction false} DistinctCount(s: seq<PortKey>)
    ensures Distinct(s) <==> forall k :: multiset(s)[k] <= 1
  {
    if s != [] {
      var f, x := s[..|s| - 1], s[|s| - 1];
      assert s == f + [x];
      DistinctCount(f);
      assert forall k :: multiset(s)[k] == multiset(f)[k] + (if k == x then 1 else 0);
      assert x in f <==> multiset(f)[x] > 0;
      assert Distinct(s) <==> Distinct(f) && x !in f by {
        if x in f {
          var i :| 0 <= i < |f| && f[i] == x;
          assert s[i] == s[|s| - 1];
        }
        if Distinct(s) {
          forall i, j | 0 <= i < j < |f| ensures f[i] != f[j] { assert s[i] != s[j]; }
        }
      }
    }
  }

  lemma PrefixCount(s: seq<PortKey>, n: nat, k: PortKey)
    requires n <= |s| && Distinct(s)
    ensures multiset(s[..n])[k] <= multiset(s)[k] == (if k in s then 1 else 0)
  {
    assert s == s[..n] + s[n..];
    DistinctCount(s);
    assert k in s <==> k in multiset(s);
  }

  lemma {:induction false} RemoveFirstCount(s: seq<PortKey>, x: PortKey, k: PortKey)
    ensures multiset(RemoveFirst(s, x))[k] == if k == x && k in s then multiset(s)[k] - 1 else multiset(s)[k]
  {
    if s != [] {
      assert s == [s[0]] + s[1..];
      if s[0] != x { RemoveFirstCount(s[1..], x, k); }
    }
  }

  lemma CountLast(f: seq<PortKey>, x: PortKey, k: PortKey)
    ensures multiset(f + [x])[k] == multiset(f)[k] + if k == x then 1 else 0
  {
  }

  function Less(a: nat, b: nat): nat {
    if a < b then 0 else a - b
  }

  lemma DeletesLast(c: Chain, f: seq<PortKey>, x: PortKey)
    ensures PerformAll(c, Deletes(f + [x])) == Perform(PerformAll(c, Deletes(f)), Delete(x))
  {
    assert Deletes(f + [x]) == Deletes(f) + [Delete(x)];
    PerformLast(c, Deletes(f), Delete(x));
  }

  lemma {:induction false} DeletesState(c: Chain, keys: seq<PortKey>, k: PortKey)
    ensures var d := PerformAll(c, Deletes(keys));
            d.made == c.made && d.jumps == c.jumps && Count(d, k) == Less(Count(c, k), multiset(keys)[k])
    decreases |keys|
  {
    if keys != [] {
      var f, x := keys[..|keys| - 1], keys[|keys| - 1];
      DeletesState(c, f, k);
      assert keys == f + [x];
      DeletesLast(c, f, x);
      var r := PerformAll(c, Deletes(f)).rules;
      RemoveFirstCount(r, x, k);
      assert k in r <==> k in multiset(r);
      CountLast(f, x, k);
    }
  }

  lemma {:induction false} AppendsState(c: Chain, keys: seq<PortKey>)
    ensures PerformAll(c, Appends(keys)) == c.(rules := c.rules + keys)
    decreases |keys|
  {
    if keys == [] {
      assert c.rules + keys == c.rules;
    } else {
      var f, k := keys[..|keys| - 1], keys[|keys| - 1];
      AppendsState(c, f);
      assert Appends(keys) == Appends(f) + [Append(k)];
      PerformLast(c, Appends(f), Append(k));
      assert c.rules + f + [k] == c.rules + keys;
    }
  }

  // ---- one Apply ----

  /** What Apply decides on: delete each unwanted port once, append each missing one. */
  lemma SyncKeys(rules: seq<PortKey>, desired: seq<PortSpec>)
    requires forall k :: k in rules ==> 1 <= k.port <= 65535
    ensures Elems(ToDelete(rules, desired)) == Elems(rules) - KeySet(desired)
    ensures Elems(ToAppend(rules, desired)) == KeySet(desired) - Elems(rules)
    ensures Distinct(ToDelete(rules, desired)) && Distinct(ToAppend(rules, desired))
  {
    var printed := Printed(rules);
    forall r | r in printed ensures WellFormed(r) {
      var i :| 0 <= i < |printed| && printed[i] == r;
      assert rules[i] in rules;
    }
    ListingRoundTrip(printed);
    assert RuleKeys(printed) == Elems(rules) by {
      forall k ensures k in RuleKeys(printed) <==> k in Elems(rules) {
        if k in Elems(rules) {
          var i :| 0 <= i < |rules| && rules[i] == k;
          assert printed[i] in printed && printed[i].key == k;
        }
        if k in RuleKeys(printed) {
          var i :| 0 <= i < |printed| && printed[i].key == k;
          assert rules[i] == k;
        }
      }
    }
    StableUniqueKeys(desired);
    DiffKeys(Current(rules), KeySet(StableUnique(desired)));
    DiffKeys(StableUnique(desired), KeySet(Current(rules)));
  }

  ghost predicate Moved(c: Chain, d: Chain, k: PortKey, gone: nat, come: nat) {
    d.made == c.made && d.jumps == c.jumps && Count(d, k) == Less(Count(c, k), gone) + come
  }

  lemma DeletesPart(c: Chain, del: seq<PortKey>, n: nat, k: PortKey)
    requires n <= |del| && Distinct(del)
    ensures Moved(c, PerformAll(c, Deletes(del)[..n]), k, multiset(del[..n])[k], 0)
    ensures multiset(del[..n])[k] <= if k in del then 1 else 0
    ensures n == |del| ==> multiset(del[..n])[k] == if k in del then 1 else 0
  {
    assert Deletes(del)[..n] == Deletes(del[..n]);
    DeletesState(c, del[..n], k);
    PrefixCount(del, n, k);
    assert n == |del| ==> del[..n] == del;
  }

  lemma AppendsPart(c: Chain, app: seq<PortKey>, n: nat, k: PortKey)
    requires n <= |app| && Distinct(app)
    ensures Moved(c, PerformAll(c, Appends(app)[..n]), k, 0, multiset(app[..n])[k])
    ensures multiset(app[..n])[k] <= if k in app then 1 else 0
    ensures n == |app| ==> multiset(app[..n])[k] == if k in app then 1 else 0
  {
    assert Appends(app)[..n] == Appends(app[..n]);
    AppendsState(c, app[..n]);
    PrefixCount(app, n, k);
    assert multiset(c.rules + app[..n])[k] == multiset(c.rules)[k] + multiset(app[..n])[k];
    assert n == |app| ==> app[..n] == app;
  }

  /** One port part-way through "delete these, then append those". */
  lemma SyncPrefix(c: Chain, del: seq<PortKey>, app: seq<PortKey>, n: nat, k: PortKey)
    requires n <= |del| + |app|
    requires Distinct(del) && Distinct(app)
    ensures var d := PerformAll(c, (Deletes(del) + Appends(app))[..n]);
            && d.made == c.made && d.jumps == c.jumps
            && Less(Count(c, k), if k in del then 1 else 0) <= Count(d, k) <= Count(c, k) + (if k in app then 1 else 0)
            && (n == |del| + |app| ==>
                  Count(d, k) == Less(Count(c, k), if k in del then 1 else 0) + if k in app then 1 else 0)
  {
    PrefixBoth(c, Deletes(del), Appends(app), n);
    if n <= |del| {
      DeletesPart(c, del, n, k);
    } else {
      assert Deletes(del)[..|del|] == Deletes(del);
      DeletesPart(c, del, |del|, k);
      AppendsPart(PerformAll(c, Deletes(del)), app, n - |del|, k);
    }
  }

  lemma InRules(c: Chain, k: PortKey)
    ensures k in Elems(c.rules) <==> Count(c, k) > 0
  {
    assert k in c.rules <==> k in multiset(c.rules);
  }

  /** The chain after the first n commands of an Apply, and after all of them. */
  function Mid(c: Chain, desired: seq<PortSpec>, n: nat): Chain
    requires n <= |Plan(c, desired)|
  {
    PerformAll(c, Plan(c, desired)[..n])
  }

  function After(c: Chain, desired: seq<PortSpec>): Chain {
    PerformAll(c, Plan(c, desired))
  }

  /** One port after n commands of "set up, delete these, append those". */
  lemma PlanPort(c: Chain, del: seq<PortKey>, app: seq<PortKey>, n: nat, k: PortKey)
    requires n <= |Setup(c) + (Deletes(del) + Appends(app))|
    requires Distinct(del) && Distinct(app)
    ensures var d := PerformAll(c, (Setup(c) + (Deletes(del) + Appends(app)))[..n]);
            && Less(Count(c, k), if k in del then 1 else 0) <= Count(d, k) <= Count(c, k) + (if k in app then 1 else 0)
            && (d.jumps == c.jumps || (c.jumps == 0 && d.jumps == 1))
  {
    PrefixBoth(c, Setup(c), Deletes(del) + Appends(app), n);
    if n <= |Setup(c)| {
      SetupPrefix(c, n);
    } else {
      SetupState(c);
      SyncPrefix(PerformAll(c, Setup(c)), del, app, n - |Setup(c)|, k);
    }
  }

  lemma PlanPortDone(c: Chain, del: seq<PortKey>, app: seq<PortKey>, k: PortKey)
    requires Distinct(del) && Distinct(app)
    ensures var d := PerformAll(c, Setup(c) + (Deletes(del) + Appends(app)));
            && d.made && d.jumps == (if c.jumps == 0 then 1 else c.jumps)
            && Count(d, k) == Less(Count(c, k), if k in del then 1 else 0) + if k in app then 1 else 0
  {
    var sync := Deletes(del) + Appends(app);
    SetupState(c);
    PerformAllConcat(c, Setup(c), sync);
    assert sync[..|del| + |app|] == sync;
    SyncPrefix(PerformAll(c, Setup(c)), del, app, |del| + |app|, k);
  }

  /** Which list a port is on. */
  lemma SyncPort(c: Chain, desired: seq<PortSpec>, k: PortKey)
    requires Valid(c)
    ensures k in ToDelete(c.rules, desired) <==> k !in KeySet(desired) && Count(c, k) > 0
    ensures k in ToAppend(c.rules, desired) <==> k in KeySet(desired) && Count(c, k) == 0
    ensures Distinct(ToDelete(c.rules, desired)) && Distinct(ToAppend(c.rules, desired))
  {
    SyncKeys(c.rules, desired);
    assert k in ToDelete(c.rules, desired) <==> k in Elems(ToDelete(c.rules, desired));
    assert k in ToAppend(c.rules, desired) <==> k in Elems(ToAppend(c.rules, desired));
    InRules(c, k);
  }

  /** At every point of an Apply: a wanted port keeps its rules, an unwanted one loses at most
      one, a wanted port without a rule gains at most one, and a missing jump appears at most once. */
  lemma MidPort(c: Chain, desired: seq<PortSpec>, n: nat, k: PortKey)
    requires Valid(c) && n <= |Plan(c, desired)|
    ensures var d := Mid(c, desired, n);
            && (k in KeySet(desired) ==> Count(d, k) == Count(c, k) || (Count(c, k) == 0 && Count(d, k) == 1))
            && (k !in KeySet(desired) ==> Count(d, k) == Count(c, k) || Count(d, k) == Count(c, k) - 1)
            && (d.jumps == c.jumps || (c.jumps == 0 && d.jumps == 1))
  {
    SyncPort(c, desired, k);
    PlanPort(c, ToDelete(c.rules, desired), ToAppend(c.rules, desired), n, k);
  }

  lemma MidMade(c: Chain, desired: seq<PortSpec>, n: nat)
    requires Valid(c) && n <= |Plan(c, desired)|
    ensures !Mid(c, desired, n).made ==> Mid(c, desired, n).rules == [] && Mid(c, desired, n).jumps == 0
  {
    PrefixBoth(c, Setup(c), Sync(c.rules, desired), n);
    if n <= |Setup(c)| {
      SetupPrefix(c, n);
    } else {
      SyncKeys(c.rules, desired);
      SetupState(c);
      SyncPrefix(PerformAll(c, Setup(c)), ToDelete(c.rules, desired), ToAppend(c.rules, desired), n - |Setup(c)|, PortKey(0, Tcp));
    }
  }

  /** No gap: at every point of an Apply, including where it stops, each port that was open and
      is wanted is open, and nothing is open that was neither open nor wanted. */
  lemma NoGap(c: Chain, desired: seq<PortSpec>, n: nat)
    requires Valid(c) && n <= |Plan(c, desired)|
    ensures Elems(c.rules) * KeySet(desired) <= Elems(Mid(c, desired, n).rules) <= Elems(c.rules) + KeySet(desired)
  {
    var d := Mid(c, desired, n);
    forall k ensures && (k in Elems(c.rules) * KeySet(desired) ==> k in Elems(d.rules))
                     && (k in Elems(d.rules) ==> k in Elems(c.rules) + KeySet(desired))
    {
      MidPort(c, desired, n, k);
      InRules(c, k);
      InRules(d, k);
    }
  }

  /** A completed Apply, on any chain whatever: each unwanted port loses one rule, each wanted
      port has at least one, and the jump is there. */
  lemma AfterPort(c: Chain, desired: seq<PortSpec>, k: PortKey)
    requires Valid(c)
    ensures var d := After(c, desired);
            && d.made && d.jumps == (if c.jumps == 0 then 1 else c.jumps)
            && Count(d, k) == if k in KeySet(desired) then (if Count(c, k) == 0 then 1 else Count(c, k))
                              else Less(Count(c, k), 1)
  {
    SyncPort(c, desired, k);
    PlanPortDone(c, ToDelete(c.rules, desired), ToAppend(c.rules, desired), k);
  }

  /** A completed Apply makes the open ports exactly the wanted ones if and only if no unwanted
      port had more than one rule. */
  lemma ApplyExact(c: Chain, desired: seq<PortSpec>)
    requires Valid(c)
    ensures Elems(After(c, desired).rules) == KeySet(desired)
       <==> forall k :: k !in KeySet(desired) ==> Count(c, k) <= 1
  {
    var d := After(c, desired);
    forall k ensures k in Elems(d.rules) <==> k in KeySet(desired) || Count(c, k) > 1 {
      AfterPort(c, desired, k);
      InRules(d, k);
    }
  }

  /** The condition is needed: a port listed twice survives one Apply that does not want it. */
  lemma DuplicateSurvives()
    ensures var k := PortKey(8443, Tcp);
            k in Elems(After(Chain(true, [k, k], 1), []).rules)
  {
    var k := PortKey(8443, Tcp);
    var c := Chain(true, [k, k], 1);
    AfterPort(c, [], k);
    InRules(After(c, []), k);
    CountLast([k], k, k);
    assert [k] + [k] == [k, k];
  }

  // ---- runs ----

  lemma ValidStays(c: Chain, desired: seq<PortSpec>, n: nat)
    requires Valid(c) && n <= |Plan(c, desired)| && ValidPorts(desired)
    ensures Valid(Mid(c, desired, n))
  {
    var d := Mid(c, desired, n);
    MidMade(c, desired, n);
    NoGap(c, desired, n);
    forall k | k in d.rules ensures 1 <= k.port <= 65535 {
      assert k in Elems(d.rules);
      if k in KeySet(desired) {
        var p :| p in desired && p.Key() == k;
      } else {
        assert k in Elems(c.rules);
      }
    }
  }

  lemma AfterValid(c: Chain, desired: seq<PortSpec>)
    requires Valid(c) && ValidPorts(desired)
    ensures Valid(After(c, desired))
  {
    var plan := Plan(c, desired);
    assert plan[..|plan|] == plan;
    ValidStays(c, desired, |plan|);
  }

  /** Stopping anywhere keeps a well-kept chain well-kept. */
  lemma StopKeeps(c: Chain, desired: seq<PortSpec>, n: nat)
    requires Wellkept(c) && n <= |Plan(c, desired)| && ValidPorts(desired)
    ensures Wellkept(Mid(c, desired, n))
  {
    var d := Mid(c, desired, n);
    ValidStays(c, desired, n);
    DistinctCount(c.rules);
    MidPort(c, desired, n, PortKey(0, Tcp));
    forall k ensures multiset(d.rules)[k] <= 1 {
      MidPort(c, desired, n, k);
      assert multiset(c.rules)[k] <= 1;
    }
    DistinctCount(d.rules);
  }

  /** An attempt to apply a list, stopped after some number of commands. */
  datatype Attempt = Attempt(desired: seq<PortSpec>, stop: nat)

  function Stopped(c: Chain, a: Attempt): Chain {
    Mid(c, a.desired, if a.stop < |Plan(c, a.desired)| then a.stop else |Plan(c, a.desired)|)
  }

  function Attempts(c: Chain, tries: seq<Attempt>): Chain {
    if tries == [] then c else Stopped(Attempts(c, tries[..|tries| - 1]), tries[|tries| - 1])
  }

  lemma {:induction false} AttemptsKeep(c: Chain, tries: seq<Attempt>)
    requires Wellkept(c) && forall i :: 0 <= i < |tries| ==> ValidPorts(tries[i].desired)
    ensures Wellkept(Attempts(c, tries))
  {
    if tries != [] {
      var front, last := tries[..|tries| - 1], tries[|tries| - 1];
      AttemptsKeep(c, front);
      var d := Attempts(c, front);
      StopKeeps(d, last.desired, if last.stop < |Plan(d, last.desired)| then last.stop else |Plan(d, last.desired)|);
    }
  }

  /** Crash and retry: after any number of attempts stopped after any number of commands, one
      Apply that completes leaves exactly the wanted ports, each with one rule, and one jump. */
  lemma CrashAndRetry(c: Chain, tries: seq<Attempt>, desired: seq<PortSpec>)
    requires Wellkept(c) && forall i :: 0 <= i < |tries| ==> ValidPorts(tries[i].desired)
    ensures Attempts(c, tries).jumps <= 1
    ensures var d := After(Attempts(c, tries), desired);
            d.made && d.jumps == 1 && Distinct(d.rules) && Elems(d.rules) == KeySet(desired)
  {
    AttemptsKeep(c, tries);
    var s := Attempts(c, tries);
    RetryExact(s, desired);
  }

  /** Both address families. */
  datatype Chains = Chains(v4: Chain, v6: Chain)

  /** An Apply stopped after n4 commands for iptables and n6 for ip6tables. */
  datatype DualAttempt = DualAttempt(desired: seq<PortSpec>, n4: nat, n6: nat)

  /** ip6tables is touched only once iptables is done. */
  ghost function DualStopped(c: Chains, a: DualAttempt): Chains {
    Chains(Stopped(c.v4, Attempt(a.desired, a.n4)),
           if a.n4 < |Plan(c.v4, a.desired)| then c.v6 else Stopped(c.v6, Attempt(a.desired, a.n6)))
  }

  ghost function DualAttempts(c: Chains, tries: seq<DualAttempt>): Chains {
    if tries == [] then c else DualStopped(DualAttempts(c, tries[..|tries| - 1]), tries[|tries| - 1])
  }

  /** These are the ways in which the backend's Apply can end. */
  lemma DualMatchesApply(c: Chains, d: Chains, desired: seq<PortSpec>, n4: nat, n6: nat)
    requires n4 <= |Plan(c.v4, desired)| && d.v4 == PerformAll(c.v4, Plan(c.v4, desired)[..n4])
    requires n6 <= |Plan(c.v6, desired)| && d.v6 == PerformAll(c.v6, Plan(c.v6, desired)[..n6])
    requires n6 > 0 ==> n4 == |Plan(c.v4, desired)|
    ensures d == DualStopped(c, DualAttempt(desired, n4, n6))
  {
    assert Plan(c.v6, desired)[..0] == [];
  }

  lemma StoppedKeeps(c: Chain, a: Attempt)
    requires Wellkept(c) && ValidPorts(a.desired)
    ensures Wellkept(Stopped(c, a))
  {
    StopKeeps(c, a.desired, if a.stop < |Plan(c, a.desired)| then a.stop else |Plan(c, a.desired)|);
  }

  lemma {:induction false} DualKeeps(c: Chains, tries: seq<DualAttempt>)
    requires Wellkept(c.v4) && Wellkept(c.v6) && forall i :: 0 <= i < |tries| ==> ValidPorts(tries[i].desired)
    ensures Wellkept(DualAttempts(c, tries).v4) && Wellkept(DualAttempts(c, tries).v6)
  {
    if tries != [] {
      var front, last := tries[..|tries| - 1], tries[|tries| - 1];
      DualKeeps(c, front);
      var d := DualAttempts(c, front);
      StoppedKeeps(d.v4, Attempt(last.desired, last.n4));
      StoppedKeeps(d.v6, Attempt(last.desired, last.n6));
    }
  }

  /** Crash and retry for both families: after any number of Applies stopped anywhere, one that
      completes leaves both chains with exactly the wanted ports, each once, and one jump. */
  lemma DualCrashAndRetry(c: Chains, tries: seq<DualAttempt>, desired: seq<PortSpec>)
    requires Wellkept(c.v4) && Wellkept(c.v6) && forall i :: 0 <= i < |tries| ==> ValidPorts(tries[i].desired)
    ensures DualAttempts(c, tries).v4.jumps <= 1 && DualAttempts(c, tries).v6.jumps <= 1
    ensures var s := DualAttempts(c, tries);
            var d4, d6 := After(s.v4, desired), After(s.v6, desired);
            && d4.made && d4.jumps == 1 && Distinct(d4.rules) && Elems(d4.rules) == KeySet(desired)
            && d6.made && d6.jumps == 1 && Distinct(d6.rules) && Elems(d6.rules) == KeySet(desired)
  {
    DualKeeps(c, tries);
    RetryExact(DualAttempts(c, tries).v4, desired);
    RetryExact(DualAttempts(c, tries).v6, desired);
  }

  lemma RetryExact(s: Chain, desired: seq<PortSpec>)
    requires Wellkept(s)
    ensures var d := After(s, desired);
            d.made && d.jumps == 1 && Distinct(d.rules) && Elems(d.rules) == KeySet(desired)
  {
    var d := After(s, desired);
    DistinctCount(s.rules);
    AfterPort(s, desired, PortKey(0, Tcp));
    forall k ensures multiset(d.rules)[k] <= 1 && Count(s, k) <= 1 {
      AfterPort(s, desired, k);
      assert multiset(s.rules)[k] <= 1;
    }
    DistinctCount(d.rules);
    ApplyExact(s, desired);
  }

  /** The chains seen while the same Apply is completed over and over. */
  ghost predicate Rounds(trace: seq<Chain>, desired: seq<PortSpec>) {
    trace != [] && forall i :: 0 < i < |trace| ==> trace[i] == After(trace[i - 1], desired)
  }

  lemma {:induction false} RoundsValid(trace: seq<Chain>, desired: seq<PortSpec>, n: nat)
    requires Rounds(trace, desired) && Valid(trace[0]) && ValidPorts(desired) && n < |trace|
    ensures Valid(trace[n])
  {
    if n > 0 {
      RoundsValid(trace, desired, n - 1);
      AfterValid(trace[n - 1], desired);
    }
  }

  lemma {:induction false} RoundsPort(trace: seq<Chain>, desired: seq<PortSpec>, n: nat, k: PortKey)
    requires Rounds(trace, desired) && Valid(trace[0]) && ValidPorts(desired) && n < |trace|
    requires k !in KeySet(desired)
    ensures Count(trace[n], k) == Less(Count(trace[0], k), n)
  {
    if n > 0 {
      RoundsPort(trace, desired, n - 1, k);
      RoundsValid(trace, desired, n - 1);
      AfterPort(trace[n - 1], desired, k);
    }
  }

  /** Completing the same Apply again and again removes one surplus rule of every unwanted port
      each time: the chain is right after n rounds if and only if no unwanted port had more than
      n rules. */
  lemma RoundsConverge(trace: seq<Chain>, desired: seq<PortSpec>, n: nat)
    requires Rounds(trace, desired) && Valid(trace[0]) && ValidPorts(desired) && 0 < n < |trace|
    ensures Elems(trace[n].rules) == KeySet(desired)
       <==> forall k :: k !in KeySet(desired) ==> Count(trace[0], k) <= n
  {
    RoundsValid(trace, desired, n - 1);
    ApplyExact(trace[n - 1], desired);
    forall k | k !in KeySet(desired) ensures Count(trace[n - 1], k) <= 1 <==> Count(trace[0], k) <= n {
      RoundsPort(trace, desired, n - 1, k);
    }
  }
}
