/** The iptables backend.  It owns the chain BULB-INPUT in iptables and in ip6tables, reads it
    back on every Apply, deletes what is not wanted and then appends what is missing. */
module IPTables {
  import opened Ports
  import opened RuleListing

  /** One address family: whether the chain exists, its accept rules in order, and how many
      jumps to it INPUT holds. */
  datatype Chain = Chain(made: bool, rules: seq<PortKey>, jumps: nat)

  datatype Cmd = New | Jump | Delete(key: PortKey) | Append(key: PortKey)

  ghost predicate ValidPorts(ports: seq<PortSpec>) {
    forall p :: p in ports ==> 1 <= p.port <= 65535
  }

  /** Ports are port numbers, and a chain that does not exist holds nothing and is not jumped to. */
  ghost predicate Valid(c: Chain) {
    && (forall k :: k in c.rules ==> 1 <= k.port <= 65535)
    && (!c.made ==> c.rules == [] && c.jumps == 0)
  }

  function RemoveFirst(s: seq<PortKey>, k: PortKey): seq<PortKey> {
    if s == [] then [] else if s[0] == k then s[1..] else [s[0]] + RemoveFirst(s[1..], k)
  }

  function Perform(c: Chain, cmd: Cmd): Chain {
    match cmd
    case New => c.(made := true)
    case Jump => c.(jumps := c.jumps + 1)
    case Delete(k) => c.(rules := RemoveFirst(c.rules, k))
    case Append(k) => c.(rules := c.rules + [k])
  }

  function PerformAll(c: Chain, cmds: seq<Cmd>): Chain {
    if cmds == [] then c else Perform(PerformAll(c, cmds[..|cmds| - 1]), cmds[|cmds| - 1])
  }

  function Deletes(keys: seq<PortKey>): seq<Cmd> {
    seq(|keys|, i requires 0 <= i < |keys| => Delete(keys[i]))
  }

  function Appends(keys: seq<PortKey>): seq<Cmd> {
    seq(|keys|, i requires 0 <= i < |keys| => Append(keys[i]))
  }

  /** What `iptables -S BULB-INPUT` prints: a rule names its protocol and loads its match. */
  function Printed(rules: seq<PortKey>): seq<Rule> {
    seq(|rules|, i requires 0 <= i < |rules| =>
      Rule(rules[i], [], ["-m", ProtocolString(rules[i].protocol)], []))
  }

  function Current(rules: seq<PortKey>): seq<PortSpec> {
    ParseChain(Listing(Printed(rules)))
  }

  function ToDelete(rules: seq<PortKey>, desired: seq<PortSpec>): seq<PortKey> {
    Keys(Diff(Current(rules), KeySet(StableUnique(desired))))
  }

  function ToAppend(rules: seq<PortKey>, desired: seq<PortSpec>): seq<PortKey> {
    Keys(Diff(StableUnique(desired), KeySet(Current(rules))))
  }

  function Sync(rules: seq<PortKey>, desired: seq<PortSpec>): seq<Cmd> {
    Deletes(ToDelete(rules, desired)) + Appends(ToAppend(rules, desired))
  }

  function Setup(c: Chain): seq<Cmd> {
    (if c.made then [] else [New]) + (if c.jumps == 0 then [Jump] else [])
  }

  /** The commands of an Apply that change this family. */
  function Plan(c: Chain, desired: seq<PortSpec>): seq<Cmd> {
    Setup(c) + Sync(c.rules, desired)
  }

  class IPTablesBackend {
    var v4: Chain
    var v6: Chain
    /** How many more commands the runner will carry out. */
    var calls: nat

    method Call() returns (ok: bool)
      modifies this`calls
      ensures ok == (old(calls) > 0) && calls == old(calls) - (if ok then 1 else 0)
    {
      ok := calls > 0;
      if ok { calls := calls - 1; }
    }

    method RunAll(c: Chain, cmds: seq<Cmd>) returns (ok: bool, r: Chain, ghost n: nat)
      modifies this`calls
      ensures n <= |cmds| && r == PerformAll(c, cmds[..n]) && (ok <==> n == |cmds|)
      ensures calls == old(calls) - n && (old(calls) >= |cmds| ==> ok)
    {
      r, n := c, 0;
      for i := 0 to |cmds|
        invariant n == i && calls == old(calls) - n && r == PerformAll(c, cmds[..n])
      {
        ok := Call();
        if !ok { return; }
        assert cmds[..i + 1][..i] == cmds[..i];
        r, n := Perform(r, cmds[i]), n + 1;
      }
      ok := true;
    }

    /** ensureChain and ensureJump: creating the chain is always tried, and finding more than
        one jump among INPUT's rules is an error. */
    method Ensure(c: Chain, input: seq<string>) returns (ok: bool, r: Chain, ghost n: nat)
      requires Jumps(input, c.jumps)
      modifies this`calls
      ensures n <= |Setup(c)| && r == PerformAll(c, Setup(c)[..n])
      ensures ok ==> n == |Setup(c)| && c.jumps <= 1
      ensures calls <= old(calls) <= calls + 3
      ensures old(calls) >= 3 && c.jumps <= 1 ==> ok
    {
      r, n := c, 0;
      assert Setup(c)[..0] == [];
      ok := Call();
      if !ok { return; }
      if !c.made {
        r, n := Perform(r, New), 1;
        assert Setup(c)[..1] == [] + [New];
        PerformLast(c, [], New);
      }
      ok := Call();
      if !ok { return; }
      var jumps := CountLine(InputListing(input), JUMP);
      JumpsCounted(input, c.jumps);
      if jumps == 1 { return; }
      if jumps > 1 { ok := false; return; }
      ok := Call();
      if !ok { return; }
      r := Perform(r, Jump);
      assert Setup(c)[..n + 1] == Setup(c)[..n] + [Jump];
      PerformLast(c, Setup(c)[..n], Jump);
      n := n + 1;
    }

    method ReconcileOwnedRules(c: Chain, desired: seq<PortSpec>) returns (ok: bool, r: Chain, ghost n: nat)
      modifies this`calls
      ensures n <= |Sync(c.rules, desired)| && r == PerformAll(c, Sync(c.rules, desired)[..n])
      ensures ok ==> n == |Sync(c.rules, desired)|
      ensures old(calls) > |Sync(c.rules, desired)| ==> ok
      ensures calls <= old(calls) <= calls + 1 + |Sync(c.rules, desired)|
    {
      r, n := c, 0;
      ok := Call();
      if !ok { return; }
      var current := ParseChainRules(Listing(Printed(c.rules)));
      var want := StableUniquePorts(desired);
      var surplus := DiffPorts(current, want);
      var missing := DiffPorts(want, current);
      ok, r, n := RunAll(c, Deletes(Keys(surplus)) + Appends(Keys(missing)));
    }

    method Family(c: Chain, input: seq<string>, desired: seq<PortSpec>) returns (ok: bool, r: Chain, ghost n: nat)
      requires Jumps(input, c.jumps)
      modifies this`calls
      ensures n <= |Plan(c, desired)| && r == PerformAll(c, Plan(c, desired)[..n])
      ensures ok ==> n == |Plan(c, desired)| && c.jumps <= 1
      ensures old(calls) >= 4 + |Plan(c, desired)| && c.jumps <= 1 ==> ok
      ensures calls <= old(calls) <= calls + 4 + |Plan(c, desired)|
    {
      ok, r, n := Ensure(c, input);
      PlanSetup(c, desired, n);
      if !ok { return; }
      SetupState(c);
      assert Setup(c)[..n] == Setup(c);
      ghost var m := 0;
      ok, r, m := ReconcileOwnedRules(r, desired);
      PlanSync(c, desired, m);
      n := n + m;
    }

    /** Each family is left after a prefix of its plan; ip6tables is touched only once iptables
        is done; success means both plans ran to the end and neither INPUT had two jumps.  The
        inputs are the rules that the two INPUT chains hold. */
    method Apply(desired: seq<PortSpec>, input4: seq<string>, input6: seq<string>) returns (ok: bool, ghost n4: nat, ghost n6: nat)
      requires Jumps(input4, v4.jumps) && Jumps(input6, v6.jumps)
      modifies this
      ensures n4 <= |Plan(old(v4), desired)| && v4 == PerformAll(old(v4), Plan(old(v4), desired)[..n4])
      ensures n6 <= |Plan(old(v6), desired)| && v6 == PerformAll(old(v6), Plan(old(v6), desired)[..n6])
      ensures n6 > 0 ==> n4 == |Plan(old(v4), desired)| && old(v4).jumps <= 1
      ensures ok ==> && n4 == |Plan(old(v4), desired)| && old(v4).jumps <= 1
                     && n6 == |Plan(old(v6), desired)| && old(v6).jumps <= 1
      ensures (old(v4).jumps <= 1 && old(v6).jumps <= 1
               && old(calls) >= 8 + |Plan(old(v4), desired)| + |Plan(old(v6), desired)|) ==> ok
    {
      n4, n6 := 0, 0;
      assert Plan(v6, desired)[..0] == [];
      ok, v4, n4 := Family(v4, input4, desired);
      if !ok { return; }
      ok, v6, n6 := Family(v6, input6, desired);
    }
  }

  lemma {:induction false} PerformAllConcat(c: Chain, a: seq<Cmd>, b: seq<Cmd>)
    ensures PerformAll(c, a + b) == PerformAll(PerformAll(c, a), b)
    decreases |b|
  {
    if b == [] {
      assert a + b == a;
    } else {
      var f := b[..|b| - 1];
      assert (a + b)[..|a + b| - 1] == a + f;
      PerformAllConcat(c, a, f);
    }
  }

  /** A prefix of two command lists run one after the other. */
  lemma PrefixBoth(c: Chain, a: seq<Cmd>, b: seq<Cmd>, n: nat)
    requires n <= |a| + |b|
    ensures PerformAll(c, (a + b)[..n])
         == if n <= |a| then PerformAll(c, a[..n]) else PerformAll(PerformAll(c, a), b[..n - |a|])
    ensures n == |a| ==> PerformAll(PerformAll(c, a), b[..0]) == PerformAll(c, a[..n])
  {
    if n <= |a| {
      assert (a + b)[..n] == a[..n];
      assert a[..|a|] == a && b[..0] == [];
    } else {
      assert (a + b)[..n] == a + b[..n - |a|];
      PerformAllConcat(c, a, b[..n - |a|]);
    }
  }

  lemma PrefixAfter(c: Chain, a: seq<Cmd>, b: seq<Cmd>, m: nat)
    requires m <= |b|
    ensures PerformAll(c, (a + b)[..|a| + m]) == PerformAll(PerformAll(c, a), b[..m])
  {
    assert (a + b)[..|a| + m] == a + b[..m];
    PerformAllConcat(c, a, b[..m]);
  }

  lemma PlanSetup(c: Chain, desired: seq<PortSpec>, n: nat)
    requires n <= |Setup(c)|
    ensures n <= |Plan(c, desired)| && PerformAll(c, Plan(c, desired)[..n]) == PerformAll(c, Setup(c)[..n])
  {
    PrefixBoth(c, Setup(c), Sync(c.rules, desired), n);
  }

  lemma PlanSync(c: Chain, desired: seq<PortSpec>, m: nat)
    requires m <= |Sync(c.rules, desired)|
    ensures |Plan(c, desired)| == |Setup(c)| + |Sync(c.rules, desired)|
    ensures PerformAll(c, Plan(c, desired)[..|Setup(c)| + m]) == PerformAll(PerformAll(c, Setup(c)), Sync(c.rules, desired)[..m])
  {
    PrefixAfter(c, Setup(c), Sync(c.rules, desired), m);
  }

  lemma PerformLast(c: Chain, cmds: seq<Cmd>, x: Cmd)
    ensures PerformAll(c, cmds + [x]) == Perform(PerformAll(c, cmds), x)
  {
    assert (cmds + [x])[..|cmds|] == cmds;
  }

  lemma SetupState(c: Chain)
    ensures PerformAll(c, Setup(c)) == c.(made := true, jumps := if c.jumps == 0 then 1 else c.jumps)
    ensures Setup(c)[..|Setup(c)|] == Setup(c)
  {
    PerformLast(c, [], New);
    PerformLast(c, if c.made then [] else [New], Jump);
    assert [] + [New] == [New];
  }

  /** Half-way through, the rules are as before and a jump appears only with the chain. */
  lemma SetupPrefix(c: Chain, n: nat)
    requires n <= |Setup(c)|
    ensures var d := PerformAll(c, Setup(c)[..n]);
            && d.rules == c.rules
            && (c.made ==> d.made)
            && (d.jumps == c.jumps || (c.jumps == 0 && d.jumps == 1 && d.made))
  {
    var s := Setup(c);
    SetupState(c);
    if n == 0 {
      assert s[..0] == [];
    } else if n == 1 {
      assert s[..1] == [] + [s[0]];
      PerformLast(c, [], s[0]);
    } else {
      assert s[..2] == s;
    }
  }
}
