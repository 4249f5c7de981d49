/** What holds over whole runs of the firewalld backend: ownership under failures and operator
    edits, the closed form of undisturbed runs, the absence of gaps, and what an interrupted
    Apply leaves behind. */
module FirewalldRuns {
  import opened Ordering
  import opened Ports
  import opened Firewalld

  /** One call of Apply. */
  datatype Call = Call(desired: seq<PortSpec>, env: Env)

  function Run(s: State, calls: seq<Call>): State {
    if calls == [] then s else
      ApplyRun(Run(s, calls[..|calls| - 1]), calls[|calls| - 1].desired, calls[|calls| - 1].env).0
  }

  /** The operator's zone and an empty state file. */
  function Fresh(zone0: set<PortKey>): State {
    State(zone0, [], [], zone0)
  }

  // ---- ownership ----

  function Added(log: seq<Cmd>): set<PortKey> {
    set c | c in log && c.Add? :: c.key
  }

  /** bulb only claims ports it opened, only closes ports it opened before, and every other
      port is exactly as the operator left it. */
  ghost predicate Owned(s: State) {
    && Elems(s.store) <= Added(s.log)
    && (forall i :: 0 <= i < |s.log| && s.log[i].Remove? ==> s.log[i].key in Added(s.log[..i]))
    && (forall k :: k !in Added(s.log) ==> (k in s.zone <==> k in s.outside))
  }

  /** The commands may be issued one after another when `added` have been opened before. */
  ghost predicate Licensed(added: set<PortKey>, cmds: seq<Cmd>)
    decreases |cmds|
  {
    cmds == [] ||
    match cmds[0]
    case Add(k) => Licensed(added + {k}, cmds[1..])
    case Remove(k) => k in added && Licensed(added, cmds[1..])
    case Save(ks) => Elems(ks) <= added && Licensed(added, cmds[1..])
  }

  lemma {:induction false} LicensedAdds(added: set<PortKey>, keys: seq<PortKey>, tail: seq<Cmd>)
    requires Licensed(added + Elems(keys), tail)
    ensures Licensed(added, Adds(keys) + tail)
    decreases |keys|
  {
    if keys == [] {
      assert Adds(keys) + tail == tail && added + Elems(keys) == added;
    } else {
      assert (Adds(keys) + tail)[1..] == Adds(keys[1..]) + tail;
      assert added + {keys[0]} + Elems(keys[1..]) == added + Elems(keys);
      LicensedAdds(added + {keys[0]}, keys[1..], tail);
    }
  }

  lemma {:induction false} LicensedRemoves(added: set<PortKey>, keys: seq<PortKey>, tail: seq<Cmd>)
    requires Elems(keys) <= added && Licensed(added, tail)
    ensures Licensed(added, Removes(keys) + tail)
    decreases |keys|
  {
    if keys == [] {
      assert Removes(keys) + tail == tail;
    } else {
      assert (Removes(keys) + tail)[1..] == Removes(keys[1..]) + tail;
      assert keys[0] in Elems(keys);
      LicensedRemoves(added, keys[1..], tail);
    }
  }

  lemma PlanLicensed(store: seq<PortKey>, current: set<PortKey>, desired: seq<PortSpec>, added: set<PortKey>)
    requires Elems(store) <= added
    ensures Licensed(added, Plan(store, current, desired))
  {
    PlanKeys(store, current, desired);
    var adds, removes, next := ToAdd(current, desired), ToRemove(store, current, desired), NextStore(store, current, desired);
    assert Licensed(added + Elems(adds), [Save(next)]);
    LicensedRemoves(added + Elems(adds), removes, [Save(next)]);
    LicensedAdds(added, adds, Removes(removes) + [Save(next)]);
    assert Adds(adds) + (Removes(removes) + [Save(next)]) == Plan(store, current, desired);
  }

  lemma PerformOwned(s: State, c: Cmd)
    requires Owned(s)
    requires c.Remove? ==> c.key in Added(s.log)
    requires c.Save? ==> Elems(c.keys) <= Added(s.log)
    ensures Owned(Perform(s, c))
    ensures Added(Perform(s, c).log) == Added(s.log) + if c.Add? then {c.key} else {}
  {
    var t := Perform(s, c);
    assert c in t.log;
    forall d | d in t.log ensures d in s.log || d == c {}
    forall d | d in s.log ensures d in t.log {}
    assert t.log[..|s.log|] == s.log;
    forall i | 0 <= i < |t.log| && t.log[i].Remove? ensures t.log[i].key in Added(t.log[..i]) {
      if i < |s.log| { assert t.log[..i] == s.log[..i]; }
    }
  }

  lemma {:induction false} ExecOwned(s: State, cmds: seq<Cmd>, env: Env, k: nat)
    requires Owned(s) && Licensed(Added(s.log), cmds)
    ensures Owned(Exec(s, cmds, env, k).0)
    decreases |cmds|
  {
    if cmds != [] {
      var e := Edited(s, env(k));
      assert Owned(e);
      if !env(k).fails {
        PerformOwned(e, cmds[0]);
        assert Added(e.log) + (if cmds[0].Add? then {cmds[0].key} else {}) ==
               if cmds[0].Add? then Added(e.log) + {cmds[0].key} else Added(e.log);
        ExecOwned(Perform(e, cmds[0]), cmds[1..], env, k + 1);
      }
    }
  }

  lemma ApplyOwned(s: State, desired: seq<PortSpec>, env: Env)
    requires Owned(s)
    ensures Owned(ApplyRun(s, desired, env).0)
  {
    var s1 := Edited(Edited(s, env(0)), env(1));
    assert Owned(Edited(s, env(0))) && Owned(s1);
    PlanLicensed(s1.store, s1.zone, desired, Added(s1.log));
    ExecOwned(s1, Plan(s1.store, s1.zone, desired), env, 2);
  }

  /** Over every run, whatever calls fail and whatever the operator does to the zone between
      any two calls, ownership is respected. */
  lemma {:induction false} OwnershipSafety(zone0: set<PortKey>, calls: seq<Call>)
    ensures Owned(Run(Fresh(zone0), calls))
  {
    if calls != [] {
      OwnershipSafety(zone0, calls[..|calls| - 1]);
      ApplyOwned(Run(Fresh(zone0), calls[..|calls| - 1]), calls[|calls| - 1].desired, calls[|calls| - 1].env);
    }
  }

  // ---- undisturbed execution ----

  /** The operator keeps away. */
  ghost predicate Quiet(env: Env) {
    forall k :: env(k).opens == {} && env(k).closes == {}
  }

  ghost predicate Clean(env: Env) {
    Quiet(env) && forall k :: !env(k).fails
  }

  function PerformAll(s: State, cmds: seq<Cmd>): State {
    if cmds == [] then s else Perform(PerformAll(s, cmds[..|cmds| - 1]), cmds[|cmds| - 1])
  }

  /** How many of `len` calls, numbered from k, are answered before one fails. */
  function Answered(env: Env, k: nat, len: nat): (n: nat)
    ensures n <= len
    decreases len
  {
    if len == 0 || env(k).fails then 0 else 1 + Answered(env, k + 1, len - 1)
  }

  lemma {:induction false} PerformAllConcat(s: State, a: seq<Cmd>, b: seq<Cmd>)
    ensures PerformAll(s, a + b) == PerformAll(PerformAll(s, a), b)
    decreases |b|
  {
    if b == [] {
      assert a + b == a;
    } else {
      var f := b[..|b| - 1];
      assert (a + b)[..|a + b| - 1] == a + f;
      PerformAllConcat(s, a, f);
    }
  }

  lemma {:induction false} ExecQuiet(s: State, cmds: seq<Cmd>, env: Env, k: nat)
    requires Quiet(env)
    ensures var n := Answered(env, k, |cmds|);
            Exec(s, cmds, env, k) == (PerformAll(s, cmds[..n]), n == |cmds|)
    decreases |cmds|
  {
    assert cmds[..0] == [];
    if cmds != [] {
      assert Edited(s, env(k)) == s;
      if !env(k).fails {
        var n := Answered(env, k, |cmds|);
        ExecQuiet(Perform(s, cmds[0]), cmds[1..], env, k + 1);
        assert cmds[..n] == [cmds[0]] + cmds[1..][..n - 1];
        PerformAllConcat(s, [cmds[0]], cmds[1..][..n - 1]);
        assert [cmds[0]][..0] == [];
        assert PerformAll(s, [cmds[0]]) == Perform(s, cmds[0]);
      }
    }
  }

  /** An Apply the operator does not disturb performs a prefix of its plan, and all of it
      exactly when it reports success. */
  lemma ApplyQuiet(s: State, desired: seq<PortSpec>, env: Env) returns (n: nat)
    requires Quiet(env)
    ensures var plan := Plan(s.store, s.zone, desired);
            && n <= |plan|
            && ApplyRun(s, desired, env) == (PerformAll(s, plan[..n]), n == |plan|)
    ensures Clean(env) ==> n == |Plan(s.store, s.zone, desired)|
  {
    var plan := Plan(s.store, s.zone, desired);
    assert Edited(s, env(0)) == s && Edited(s, env(1)) == s;
    assert plan[..0] == [];
    if env(0).fails || env(1).fails {
      n := 0;
    } else {
      ExecQuiet(s, plan, env, 2);
      n := Answered(env, 2, |plan|);
      if Clean(env) { AnsweredAll(env, 2, |plan|); }
    }
  }

  lemma {:induction false} AnsweredAll(env: Env, k: nat, len: nat)
    requires Clean(env)
    ensures Answered(env, k, len) == len
    decreases len
  {
    if len != 0 { AnsweredAll(env, k + 1, len - 1); }
  }

  lemma {:induction false} PerformAdds(s: State, keys: seq<PortKey>)
    ensures PerformAll(s, Adds(keys)) == s.(zone := s.zone + Elems(keys), log := s.log + Adds(keys))
    decreases |keys|
  {
    if keys == [] {
      assert s.zone + Elems(keys) == s.zone && s.log + Adds(keys) == s.log;
    } else {
      var f, k := keys[..|keys| - 1], keys[|keys| - 1];
      PerformAdds(s, f);
      assert Adds(keys)[..|keys| - 1] == Adds(f);
      assert s.log + Adds(f) + [Add(k)] == s.log + Adds(keys);
      assert Elems(f) + {k} == Elems(keys);
      assert s.zone + Elems(f) + {k} == s.zone + Elems(keys);
    }
  }

  lemma {:induction false} PerformRemoves(s: State, keys: seq<PortKey>)
    ensures PerformAll(s, Removes(keys)) == s.(zone := s.zone - Elems(keys), log := s.log + Removes(keys))
    decreases |keys|
  {
    if keys == [] {
      assert s.zone - Elems(keys) == s.zone && s.log + Removes(keys) == s.log;
    } else {
      var f, k := keys[..|keys| - 1], keys[|keys| - 1];
      PerformRemoves(s, f);
      assert Removes(keys)[..|keys| - 1] == Removes(f);
      assert s.log + Removes(f) + [Remove(k)] == s.log + Removes(keys);
      assert Elems(f) + {k} == Elems(keys);
      assert s.zone - Elems(f) - {k} == s.zone - Elems(keys);
    }
  }

  lemma PlanKeys(store: seq<PortKey>, current: set<PortKey>, desired: seq<PortSpec>)
    ensures Elems(ToAdd(current, desired)) == KeySet(desired) - current
    ensures Elems(ToRemove(store, current, desired)) == Elems(store) * current - KeySet(desired)
    ensures Elems(NextStore(store, current, desired))
         == Elems(store) * KeySet(desired) * current + (KeySet(desired) - current)
    ensures Strict(KeyLe, NextStore(store, current, desired))
  {
    DiffKeys(desired, current);
    SpecsMembers(store);
    IntersectKeys(Specs(store), current);
    DiffKeys(Intersect(Specs(store), current), KeySet(desired));
    NextManagedKeys(Specs(store), KeySet(desired), current, Diff(desired, current));
  }

  /** The state after the first n commands of "open a, close r, save". */
  lemma PrefixOpening(s: State, a: seq<PortKey>, tail: seq<Cmd>, n: nat)
    requires n <= |a|
    ensures PerformAll(s, (Adds(a) + tail)[..n])
         == s.(zone := s.zone + Elems(a[..n]), log := s.log + Adds(a[..n]))
  {
    assert (Adds(a) + tail)[..n] == Adds(a[..n]);
    PerformAdds(s, a[..n]);
  }

  lemma PrefixClosing(s: State, a: seq<PortKey>, r: seq<PortKey>, tail: seq<Cmd>, n: nat)
    requires n <= |r|
    ensures PerformAll(s, (Adds(a) + Removes(r) + tail)[..|a| + n])
         == s.(zone := s.zone + Elems(a) - Elems(r[..n]), log := s.log + Adds(a) + Removes(r[..n]))
  {
    assert (Adds(a) + Removes(r) + tail)[..|a| + n] == Adds(a) + Removes(r[..n]);
    PerformAllConcat(s, Adds(a), Removes(r[..n]));
    PerformAdds(s, a);
    PerformRemoves(PerformAll(s, Adds(a)), r[..n]);
  }

  lemma PrefixSaved(s: State, a: seq<PortKey>, r: seq<PortKey>, next: seq<PortKey>)
    ensures PerformAll(s, Adds(a) + Removes(r) + [Save(next)])
         == State(s.zone + Elems(a) - Elems(r), next, s.log + (Adds(a) + Removes(r) + [Save(next)]), s.outside)
  {
    var cmds := Adds(a) + Removes(r) + [Save(next)];
    PrefixClosing(s, a, r, [Save(next)], |r|);
    assert r[..|r|] == r;
    assert cmds[..|cmds| - 1] == cmds[..|a| + |r|];
    assert s.log + Adds(a) + Removes(r) + [Save(next)] == s.log + cmds;
  }

  lemma PrefixShape(s: State, a: seq<PortKey>, r: seq<PortKey>, next: seq<PortKey>, n: nat)
    requires n <= |a| + |r| + 1
    ensures var cmds := Adds(a) + Removes(r) + [Save(next)];
            var t := PerformAll(s, cmds[..n]);
            && (n <= |a| ==> t.zone == s.zone + Elems(a[..n]) && t.store == s.store)
            && (|a| <= n <= |a| + |r| ==> t.zone == s.zone + Elems(a) - Elems(r[..n - |a|]) && t.store == s.store)
            && (n > |a| + |r| ==> t == State(s.zone + Elems(a) - Elems(r), next, s.log + cmds, s.outside))
  {
    var cmds := Adds(a) + Removes(r) + [Save(next)];
    if n <= |a| {
      assert cmds == Adds(a) + (Removes(r) + [Save(next)]);
      PrefixOpening(s, a, Removes(r) + [Save(next)], n);
    }
    if |a| <= n <= |a| + |r| {
      PrefixClosing(s, a, r, [Save(next)], n - |a|);
    } else if n > |a| {
      assert cmds[..n] == cmds;
      PrefixSaved(s, a, r, next);
    }
  }

  /** The zone and the state file after the first n commands of a plan. */
  lemma PrefixState(s: State, desired: seq<PortSpec>, n: nat)
    requires n <= |Plan(s.store, s.zone, desired)|
    ensures var a, r := ToAdd(s.zone, desired), ToRemove(s.store, s.zone, desired);
            var t := PerformAll(s, Plan(s.store, s.zone, desired)[..n]);
            && (n <= |a| ==> t.zone == s.zone + Elems(a[..n]) && t.store == s.store)
            && (|a| <= n <= |a| + |r| ==> t.zone == s.zone + Elems(a) - Elems(r[..n - |a|]) && t.store == s.store)
            && (n > |a| + |r| ==> t == State(s.zone + Elems(a) - Elems(r), NextStore(s.store, s.zone, desired),
                                             s.log + Plan(s.store, s.zone, desired), s.outside))
  {
    PrefixShape(s, ToAdd(s.zone, desired), ToRemove(s.store, s.zone, desired), NextStore(s.store, s.zone, desired), n);
  }

  lemma {:induction false} ElemsPrefix(keys: seq<PortKey>, n: nat)
    requires n <= |keys|
    ensures Elems(keys[..n]) <= Elems(keys)
  {
  }

  // ---- no gap while changing ----

  /** At every point of an undisturbed Apply a port that was open and is wanted stays open,
      nothing opens that was neither open nor wanted, and no port is closed before everything
      wanted is open. */
  lemma NoGap(s: State, desired: seq<PortSpec>, n: nat)
    requires n <= |Plan(s.store, s.zone, desired)|
    ensures var plan := Plan(s.store, s.zone, desired);
            var z := PerformAll(s, plan[..n]).zone;
            && s.zone * KeySet(desired) <= z <= s.zone + KeySet(desired)
            && (n < |plan| && plan[n].Remove? ==> KeySet(desired) <= z)
  {
    var a, r := ToAdd(s.zone, desired), ToRemove(s.store, s.zone, desired);
    PlanKeys(s.store, s.zone, desired);
    PrefixState(s, desired, n);
    if n <= |a| { ElemsPrefix(a, n); }
    if |a| <= n <= |a| + |r| { ElemsPrefix(r, n - |a|); }
  }

  // ---- closed form ----

  /** The zone is the operator's plus what is wanted, and the state file records, in ascending
      order, exactly the wanted ports that were not the operator's. */
  ghost predicate Converged(s: State, zone0: set<PortKey>, wanted: set<PortKey>) {
    && s.zone == zone0 + wanted
    && Elems(s.store) == wanted - zone0
    && Strict(KeyLe, s.store)
  }

  /** The operator keeps away and the call reports success. */
  ghost predicate Succeeds(s: State, desired: seq<PortSpec>, env: Env) {
    Quiet(env) && ApplyRun(s, desired, env).1
  }

  ghost predicate AllSucceed(s: State, calls: seq<Call>) {
    calls != [] ==>
      var front, last := calls[..|calls| - 1], calls[|calls| - 1];
      AllSucceed(s, front) && Succeeds(Run(s, front), last.desired, last.env)
  }

  lemma {:induction false} SuccessQuiet(s: State, calls: seq<Call>, i: nat)
    requires AllSucceed(s, calls) && i < |calls|
    ensures Quiet(calls[i].env)
    decreases |calls|
  {
    var front, last := calls[..|calls| - 1], calls[|calls| - 1];
    if i < |front| {
      SuccessQuiet(s, front, i);
    } else {
      assert Succeeds(Run(s, front), last.desired, last.env);
    }
  }

  /** Calls that no failure reaches succeed. */
  lemma {:induction false} CleanSucceeds(s: State, calls: seq<Call>)
    requires forall i :: 0 <= i < |calls| ==> Clean(calls[i].env)
    ensures AllSucceed(s, calls)
  {
    if calls != [] {
      var front, last := calls[..|calls| - 1], calls[|calls| - 1];
      CleanSucceeds(s, front);
      var _ := ApplyQuiet(Run(s, front), last.desired, last.env);
    }
  }

  lemma ApplySettles(s: State, zone0: set<PortKey>, wanted: set<PortKey>, desired: seq<PortSpec>, env: Env)
    requires Converged(s, zone0, wanted) && Succeeds(s, desired, env)
    ensures Converged(ApplyRun(s, desired, env).0, zone0, KeySet(desired))
    ensures ApplyRun(s, desired, env).0.log == s.log + Plan(s.store, s.zone, desired)
  {
    var n := ApplyQuiet(s, desired, env);
    PlanKeys(s.store, s.zone, desired);
    PrefixState(s, desired, n);
  }

  /** Closed form: after any sequence of successful, undisturbed calls the zone is the
      operator's zone plus the last wanted set and the state file is the difference. */
  lemma {:induction false} ClosedForm(zone0: set<PortKey>, calls: seq<Call>)
    requires AllSucceed(Fresh(zone0), calls)
    ensures Converged(Run(Fresh(zone0), calls), zone0, if calls == [] then {} else KeySet(calls[|calls| - 1].desired))
  {
    if calls != [] {
      var front, last := calls[..|calls| - 1], calls[|calls| - 1];
      ClosedForm(zone0, front);
      ApplySettles(Run(Fresh(zone0), front), zone0,
                   if front == [] then {} else KeySet(front[|front| - 1].desired), last.desired, last.env);
    }
  }

  lemma ElemsEmpty(keys: seq<PortKey>)
    ensures Elems(keys) == {} <==> keys == []
  {
    if keys != [] { assert keys[0] in Elems(keys); }
  }

  /** Repeating a call touches no port and rewrites the state file unchanged. */
  lemma RepeatIsSilent(s: State, zone0: set<PortKey>, desired: seq<PortSpec>, env: Env)
    requires Converged(s, zone0, KeySet(desired)) && Succeeds(s, desired, env)
    ensures ApplyRun(s, desired, env) == (s.(log := s.log + [Save(s.store)]), true)
  {
    var a, r, next := ToAdd(s.zone, desired), ToRemove(s.store, s.zone, desired), NextStore(s.store, s.zone, desired);
    PlanKeys(s.store, s.zone, desired);
    ElemsEmpty(a);
    ElemsEmpty(r);
    assert Elems(next) == Elems(s.store);
    forall k ensures k in next <==> k in s.store {
      assert k in next <==> k in Elems(next);
      assert k in s.store <==> k in Elems(s.store);
    }
    StrictUnique(KeyLe, next, s.store);
    var n := ApplyQuiet(s, desired, env);
    PrefixState(s, desired, n);
    assert Plan(s.store, s.zone, desired) == [Save(s.store)];
    assert s.zone + Elems(a) - Elems(r) == s.zone;
  }

  /** Wanting nothing hands the zone back and empties the state file. */
  lemma EmptyRestores(s: State, zone0: set<PortKey>, wanted: set<PortKey>, env: Env)
    requires Converged(s, zone0, wanted) && Succeeds(s, [], env)
    ensures ApplyRun(s, [], env).0.zone == zone0 && ApplyRun(s, [], env).0.store == []
  {
    ApplySettles(s, zone0, wanted, [], env);
    var t := ApplyRun(s, [], env).0;
    assert KeySet([]) == {};
    assert Elems(t.store) == {};
    ElemsEmpty(t.store);
  }

  // ---- what an interrupted Apply leaves behind ----

  /** The ports an Apply opened before it stopped after n commands.  The state file does not
      mention them, because it is written last. */
  function Unrecorded(s: State, desired: seq<PortSpec>, n: nat): set<PortKey> {
    var a := ToAdd(s.zone, desired);
    if n <= |a| then Elems(a[..n]) else Elems(a)
  }

  /** The zone shows, besides the operator's ports and some that the state file mentions, the
      `lost` ones, which it does not. */
  ghost predicate Littered(s: State, zone0: set<PortKey>, lost: set<PortKey>) {
    && lost !! zone0 && lost !! Elems(s.store) && zone0 !! Elems(s.store)
    && zone0 + lost <= s.zone <= zone0 + lost + Elems(s.store)
  }

  /** What a call that did not succeed opened without the state file mentioning it. */
  function LostBy(s: State, desired: seq<PortSpec>, env: Env): set<PortKey> {
    var (t, ok) := ApplyRun(s, desired, env);
    if ok then {} else t.zone - s.zone - Elems(s.store)
  }

  function Lost(s: State, calls: seq<Call>): set<PortKey> {
    if calls == [] then {} else
      var front, last := calls[..|calls| - 1], calls[|calls| - 1];
      Lost(s, front) + LostBy(Run(s, front), last.desired, last.env)
  }

  lemma LitterAdding(s: State, t: State, zone0: set<PortKey>, lost: set<PortKey>, a: set<PortKey>, done: set<PortKey>)
    requires Littered(s, zone0, lost) && a !! s.zone && done <= a
    requires t.zone == s.zone + done && t.store == s.store
    ensures Littered(t, zone0, lost + (done - Elems(s.store))) && t.zone - s.zone == done
  {
  }

  lemma LitterRemoving(s: State, t: State, zone0: set<PortKey>, lost: set<PortKey>,
                       a: set<PortKey>, r: set<PortKey>, done: set<PortKey>)
    requires Littered(s, zone0, lost) && a !! s.zone && r <= Elems(s.store) * s.zone && done <= r
    requires t.zone == s.zone + a - done && t.store == s.store
    ensures Littered(t, zone0, lost + (a - Elems(s.store))) && t.zone - s.zone == a
  {
  }

  /** Stopping short of the save loses exactly the ports opened that the state file lacks. */
  lemma StopLitters(s: State, zone0: set<PortKey>, lost: set<PortKey>, desired: seq<PortSpec>, n: nat)
    requires Littered(s, zone0, lost) && n < |Plan(s.store, s.zone, desired)|
    ensures var t := PerformAll(s, Plan(s.store, s.zone, desired)[..n]);
            && t.store == s.store && t.zone - s.zone == Unrecorded(s, desired, n)
            && Littered(t, zone0, lost + (Unrecorded(s, desired, n) - Elems(s.store)))
  {
    var a, r := ToAdd(s.zone, desired), ToRemove(s.store, s.zone, desired);
    PlanKeys(s.store, s.zone, desired);
    PrefixState(s, desired, n);
    var t := PerformAll(s, Plan(s.store, s.zone, desired)[..n]);
    if n <= |a| {
      ElemsPrefix(a, n);
      LitterAdding(s, t, zone0, lost, Elems(a), Elems(a[..n]));
    } else {
      ElemsPrefix(r, n - |a|);
      LitterRemoving(s, t, zone0, lost, Elems(a), Elems(r), Elems(r[..n - |a|]));
    }
  }

  lemma LitterSaved(zone: set<PortKey>, store: set<PortKey>, want: set<PortKey>, zone0: set<PortKey>, lost: set<PortKey>)
    requires lost !! zone0 && lost !! store && zone0 !! store && zone0 + lost <= zone <= zone0 + lost + store
    ensures zone + (want - zone) - (store * zone - want) == zone0 + want + lost
    ensures store * want * zone + (want - zone) == want - zone0 - lost
  {
  }

  /** A successful call closes none of them, and has everything else as intended. */
  lemma LitterStays(s: State, zone0: set<PortKey>, lost: set<PortKey>, desired: seq<PortSpec>, env: Env)
    requires Littered(s, zone0, lost) && Succeeds(s, desired, env)
    ensures var t := ApplyRun(s, desired, env).0;
            && Littered(t, zone0, lost)
            && t.zone == zone0 + KeySet(desired) + lost && Elems(t.store) == KeySet(desired) - zone0 - lost
  {
    var n := ApplyQuiet(s, desired, env);
    PlanKeys(s.store, s.zone, desired);
    PrefixState(s, desired, n);
    LitterSaved(s.zone, Elems(s.store), KeySet(desired), zone0, lost);
  }

  /** One undisturbed call, wherever it stops. */
  lemma LitterGrows(s: State, zone0: set<PortKey>, lost: set<PortKey>, desired: seq<PortSpec>, env: Env)
    requires Littered(s, zone0, lost) && Quiet(env)
    ensures Littered(ApplyRun(s, desired, env).0, zone0, lost + LostBy(s, desired, env))
  {
    if Succeeds(s, desired, env) {
      LitterStays(s, zone0, lost, desired, env);
      assert lost + {} == lost;
    } else {
      var n := ApplyQuiet(s, desired, env);
      StopLitters(s, zone0, lost, desired, n);
    }
  }

  /** Any number of undisturbed calls, each stopping wherever it does. */
  lemma {:induction false} LitterForever(s: State, zone0: set<PortKey>, lost: set<PortKey>, calls: seq<Call>)
    requires Littered(s, zone0, lost) && forall i :: 0 <= i < |calls| ==> Quiet(calls[i].env)
    ensures Littered(Run(s, calls), zone0, lost + Lost(s, calls))
  {
    if calls == [] {
      assert lost + {} == lost;
    } else {
      var front, last := calls[..|calls| - 1], calls[|calls| - 1];
      LitterForever(s, zone0, lost, front);
      LitterGrows(Run(s, front), zone0, lost + Lost(s, front), last.desired, last.env);
      assert lost + Lost(s, calls) == lost + Lost(s, front) + LostBy(Run(s, front), last.desired, last.env);
    }
  }

  lemma LostDecides(zone0: set<PortKey>, want: set<PortKey>, lost: set<PortKey>)
    requires lost !! zone0
    ensures zone0 + want + lost == zone0 + want <==> lost <= want
    ensures want == {} ==> (zone0 + want + lost == zone0 <==> lost == {})
  {
    if want == {} && zone0 + want + lost == zone0 { assert forall k :: k in lost ==> k in zone0; }
  }

  /** Over every undisturbed run, with failures at any calls: after a call that succeeds the zone is
      the operator's, what is wanted and what earlier failed calls lost.  So it is as intended
      exactly when the call happens to want all that was lost, and wanting nothing hands the zone
      back exactly when nothing was. */
  lemma ExactDespiteFailures(zone0: set<PortKey>, calls: seq<Call>, last: Call)
    requires forall i :: 0 <= i < |calls| ==> Quiet(calls[i].env)
    requires Succeeds(Run(Fresh(zone0), calls), last.desired, last.env)
    ensures var lost, want := Lost(Fresh(zone0), calls), KeySet(last.desired);
            var end := ApplyRun(Run(Fresh(zone0), calls), last.desired, last.env).0;
            && lost !! zone0
            && end.zone == zone0 + want + lost && Elems(end.store) == want - zone0 - lost
            && (end.zone == zone0 + want <==> lost <= want)
            && (want == {} ==> (end.zone == zone0 <==> lost == {}))
  {
    var s, lost := Run(Fresh(zone0), calls), Lost(Fresh(zone0), calls);
    LitterForever(Fresh(zone0), zone0, {}, calls);
    assert {} + lost == lost;
    LitterStays(s, zone0, lost, last.desired, last.env);
    LostDecides(zone0, KeySet(last.desired), lost);
  }

  lemma {:induction false} NothingLost(s: State, calls: seq<Call>)
    requires AllSucceed(s, calls)
    ensures Lost(s, calls) == {}
  {
    if calls != [] {
      NothingLost(s, calls[..|calls| - 1]);
    }
  }

  /** The case of a single stop: an Apply stops after n commands, short of the last, and any number
      of successful calls follow. */
  lemma InterruptedApply(s: State, zone0: set<PortKey>, wanted: set<PortKey>,
                         first: seq<PortSpec>, n: nat, later: seq<Call>)
    requires Converged(s, zone0, wanted) && n < |Plan(s.store, s.zone, first)|
    requires later != [] && AllSucceed(PerformAll(s, Plan(s.store, s.zone, first)[..n]), later)
    ensures var lost, want := Unrecorded(s, first, n), KeySet(later[|later| - 1].desired);
            var end := Run(PerformAll(s, Plan(s.store, s.zone, first)[..n]), later);
            && end.zone == zone0 + want + lost
            && (end.zone == zone0 + want <==> lost <= want)
            && (want == {} ==> (end.zone == zone0 <==> n == 0 || KeySet(first) <= s.zone))
  {
    var t, lost := PerformAll(s, Plan(s.store, s.zone, first)[..n]), Unrecorded(s, first, n);
    var front, last := later[..|later| - 1], later[|later| - 1];
    StopLitters(s, zone0, {}, first, n);
    UnrecordedNew(s, first, n);
    assert {} + (lost - Elems(s.store)) == lost;
    NothingLost(t, front);
    forall i | 0 <= i < |front| ensures Quiet(front[i].env) { SuccessQuiet(t, front, i); }
    LitterForever(t, zone0, lost, front);
    assert lost + {} == lost;
    LitterStays(Run(t, front), zone0, lost, last.desired, last.env);
    LostDecides(zone0, KeySet(last.desired), lost);
    UnrecordedEmpty(s, first, n);
  }

  lemma UnrecordedNew(s: State, desired: seq<PortSpec>, n: nat)
    ensures Unrecorded(s, desired, n) !! s.zone
  {
    var a := ToAdd(s.zone, desired);
    PlanKeys(s.store, s.zone, desired);
    if n <= |a| { ElemsPrefix(a, n); }
  }

  lemma UnrecordedEmpty(s: State, desired: seq<PortSpec>, n: nat)
    ensures Unrecorded(s, desired, n) == {} <==> n == 0 || KeySet(desired) <= s.zone
  {
    var a := ToAdd(s.zone, desired);
    PlanKeys(s.store, s.zone, desired);
    if n > 0 && a != [] {
      assert a[0] in Elems(a);
      assert n <= |a| ==> a[0] in a[..n];
      assert a[0] in Unrecorded(s, desired, n);
    } else if a == [] {
      assert KeySet(desired) - s.zone == {};
      assert forall k :: k in KeySet(desired) ==> k !in KeySet(desired) - s.zone;
    }
  }

  /** The smallest such loss: one wanted port, opened just before the state file could not be
      written, survives a successful retry and then a call that wants nothing. */
  lemma LeakExample(env: Env)
    requires Clean(env)
    ensures var k := PortKey(8443, Tcp);
            var s := State({}, [], [], {});
            var s1 := PerformAll(s, Plan(s.store, s.zone, [Spec(k)])[..1]);
            Run(s1, [Call([Spec(k)], env), Call([], env)]).zone == {k}
  {
    var k := PortKey(8443, Tcp);
    var s := State({}, [], [], {});
    OneUnrecorded(s, k);
    CleanSucceeds(PerformAll(s, Plan(s.store, s.zone, [Spec(k)])[..1]), [Call([Spec(k)], env), Call([], env)]);
    InterruptedApply(s, {}, {}, [Spec(k)], 1, [Call([Spec(k)], env), Call([], env)]);
    assert KeySet([]) == {};
  }

  lemma OneUnrecorded(s: State, k: PortKey)
    requires k !in s.zone
    ensures Unrecorded(s, [Spec(k)], 1) == {k} && |Plan(s.store, s.zone, [Spec(k)])| > 1
  {
    var a := ToAdd(s.zone, [Spec(k)]);
    KeySetOne(Spec(k));
    PlanKeys(s.store, s.zone, [Spec(k)]);
    assert k in Elems(a);
    assert a[0] in Elems(a) && a[0] in a[..1];
    assert Elems(a[..1]) == {k};
  }
}
