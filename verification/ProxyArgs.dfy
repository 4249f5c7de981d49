/** The argument language between controller and proxy: the controller prints a Service's
    forwarding rules as proxy flags, and the proxy parses exactly those rules back. */
module ProxyArgs {
  import opened HostPort
  import opened ProxyFlags
  import R = RoundRobin
  import T = Text

  // ---- printing rules ----

  function FlagName(p: R.RuleProtocol): string {
    if p == R.UDP then "udp-upstream" else "upstream"
  }

  function PairText(s: R.Spec): string {
    s.listen + "=" + s.upstream
  }

  function EndpointText(s: R.Spec): string {
    s.listen + "=" + T.Join(s.endpoints, ',')
  }

  function PrintSpec(s: R.Spec): seq<string> {
    ["--" + FlagName(s.protocol) + "=" + PairText(s)]
    + if s.endpoints == [] then [] else ["--endpoint=" + EndpointText(s)]
  }

  function Print(specs: seq<R.Spec>): seq<string> {
    if specs == [] then [] else PrintSpec(specs[0]) + Print(specs[1..])
  }

  /** The rules of one protocol, in order. */
  function Only(specs: seq<R.Spec>, p: R.RuleProtocol): seq<R.Spec> {
    if specs == [] then []
    else (if specs[0].protocol == p then [specs[0]] else []) + Only(specs[1..], p)
  }

  // ---- what makes rules printable ----

  ghost predicate GoodEndpoint(e: string) {
    e != "" && T.Free(e, T.IsSpace) && T.Free(e, T.IsComma) && SplitHostPort(e).Some?
  }

  ghost predicate Good(s: R.Spec) {
    && s.protocol != R.Unset
    && s.listen != "" && Lacks(s.listen, '=') && SplitHostPort(s.listen).Some?
    && s.upstream != "" && SplitHostPort(s.upstream).Some?
    && forall i :: 0 <= i < |s.endpoints| ==> GoodEndpoint(s.endpoints[i])
  }

  ghost predicate AllGood(specs: seq<R.Spec>) {
    forall s :: s in specs ==> Good(s)
  }

  ghost predicate DistinctListens(specs: seq<R.Spec>) {
    forall i, j :: 0 <= i < j < |specs| ==> specs[i].listen != specs[j].listen
  }

  // ---- flags ----

  lemma FlagStep(name: string, value: string, rest: seq<string>, f: Flags)
    requires name != "" && name[0] != '-' && name[0] != '=' && Lacks(name, '=')
    ensures var g := SetFlag(f, name, value);
            ParseFlags(["--" + name + "=" + value] + rest, f) == if g.Err? then Err else ParseFlags(rest, g.value)
  {
    var s := "--" + name + "=" + value;
    var args := [s] + rest;
    assert s[2..] == name + ['='] + value;
    IndexFirst(name, '=', value);
    var n := s[2..];
    assert n[..|name|] == name && n[|name| + 1..] == value;
    assert args[0] == s && args[1..] == rest && s != "--";
  }

  function Values(specs: seq<R.Spec>): seq<string> {
    if specs == [] then [] else [PairText(specs[0])] + Values(specs[1..])
  }

  function EndpointValues(specs: seq<R.Spec>): seq<string> {
    if specs == [] then []
    else (if specs[0].endpoints == [] then [] else [EndpointText(specs[0])]) + EndpointValues(specs[1..])
  }

  function Gathered(f: Flags, specs: seq<R.Spec>): Flags {
    Flags(f.tcp + Values(Only(specs, R.TCP)), f.udp + Values(Only(specs, R.UDP)), f.endpoints + EndpointValues(specs))
  }

  function GatheredOne(f: Flags, s: R.Spec): Flags {
    Flags(if s.protocol == R.TCP then f.tcp + [PairText(s)] else f.tcp,
          if s.protocol == R.UDP then f.udp + [PairText(s)] else f.udp,
          if s.endpoints == [] then f.endpoints else f.endpoints + [EndpointText(s)])
  }

  function WithPair(f: Flags, s: R.Spec): Flags {
    if s.protocol == R.UDP then f.(udp := f.udp + [PairText(s)]) else f.(tcp := f.tcp + [PairText(s)])
  }

  lemma PairFlag(s: R.Spec, tail: seq<string>, f: Flags)
    ensures ParseFlags(["--" + FlagName(s.protocol) + "=" + PairText(s)] + tail, f) == ParseFlags(tail, WithPair(f, s))
  {
    var name := FlagName(s.protocol);
    assert name[0] == 'u' && Lacks(name, '=');
    assert |"udp-upstream"| != |"upstream"|;
    FlagStep(name, PairText(s), tail, f);
  }

  lemma EndpointFlag(value: string, rest: seq<string>, f: Flags)
    ensures ParseFlags(["--endpoint=" + value] + rest, f) == ParseFlags(rest, f.(endpoints := f.endpoints + [value]))
  {
    assert "--" + "endpoint" + "=" + value == "--endpoint=" + value;
    assert "endpoint"[0] == 'e' && "upstream"[0] == 'u' && "udp-upstream"[0] == 'u';
    FlagStep("endpoint", value, rest, f);
  }

  lemma FlagsOfSpec(s: R.Spec, rest: seq<string>, f: Flags)
    requires s.protocol != R.Unset
    ensures ParseFlags(PrintSpec(s) + rest, f) == ParseFlags(rest, GatheredOne(f, s))
  {
    var first := "--" + FlagName(s.protocol) + "=" + PairText(s);
    var tail := if s.endpoints == [] then rest else ["--endpoint=" + EndpointText(s)] + rest;
    assert PrintSpec(s) + rest == [first] + tail;
    PairFlag(s, tail, f);
    if s.endpoints != [] { EndpointFlag(EndpointText(s), rest, WithPair(f, s)); }
  }

  lemma GatheredStep(f: Flags, specs: seq<R.Spec>)
    requires specs != [] && specs[0].protocol != R.Unset
    ensures Gathered(GatheredOne(f, specs[0]), specs[1..]) == Gathered(f, specs)
  {
    var s, rest := specs[0], specs[1..];
    if s.protocol == R.TCP {
      assert Only(specs, R.TCP) == [s] + Only(rest, R.TCP);
      assert ([s] + Only(rest, R.TCP))[1..] == Only(rest, R.TCP);
      assert f.tcp + [PairText(s)] + Values(Only(rest, R.TCP)) == f.tcp + Values(Only(specs, R.TCP));
      assert Only(specs, R.UDP) == Only(rest, R.UDP);
    } else {
      assert Only(specs, R.UDP) == [s] + Only(rest, R.UDP);
      assert ([s] + Only(rest, R.UDP))[1..] == Only(rest, R.UDP);
      assert f.udp + [PairText(s)] + Values(Only(rest, R.UDP)) == f.udp + Values(Only(specs, R.UDP));
      assert Only(specs, R.TCP) == Only(rest, R.TCP);
    }
    if s.endpoints == [] {
      assert EndpointValues(specs) == EndpointValues(rest);
    } else {
      assert f.endpoints + [EndpointText(s)] + EndpointValues(rest) == f.endpoints + EndpointValues(specs);
    }
  }

  lemma {:induction false} FlagsOfPrint(specs: seq<R.Spec>, f: Flags)
    requires forall i :: 0 <= i < |specs| ==> specs[i].protocol != R.Unset
    ensures ParseFlags(Print(specs), f) == Ok(Gathered(f, specs))
    decreases |specs|
  {
    if specs == [] {
      assert Gathered(f, specs) == f;
    } else {
      FlagsOfSpec(specs[0], Print(specs[1..]), f);
      FlagsOfPrint(specs[1..], GatheredOne(f, specs[0]));
      GatheredStep(f, specs);
    }
  }

  // ---- pairs ----

  function Stripped(s: R.Spec): R.Spec {
    s.(endpoints := [])
  }

  function StripAll(specs: seq<R.Spec>): seq<R.Spec> {
    seq(|specs|, i requires 0 <= i < |specs| => Stripped(specs[i]))
  }

  lemma PairParses(s: R.Spec)
    requires Good(s)
    ensures ParsePair(PairText(s)) == Ok((s.listen, s.upstream))
  {
    CutFirst(s.listen, '=', s.upstream);
    assert PairText(s) == s.listen + ['='] + s.upstream;
  }

  lemma {:induction false} ValuesLast(specs: seq<R.Spec>)
    requires specs != []
    ensures Values(specs) == Values(specs[..|specs| - 1]) + [PairText(specs[|specs| - 1])]
  {
    if |specs| == 1 {
      assert specs[..0] == [] && specs[1..] == [];
    } else {
      ValuesLast(specs[1..]);
      assert specs[1..][..|specs| - 2] == specs[..|specs| - 1][1..];
    }
  }

  lemma PairsLast(raw: seq<string>, x: string, p: R.RuleProtocol, r: seq<R.Spec>, pair: (string, string))
    requires Pairs(raw, p) == Ok(r) && ParsePair(x) == Ok(pair)
    ensures Pairs(raw + [x], p) == Ok(r + [R.Spec(pair.0, pair.1, p, [])])
  {
    assert (raw + [x])[..|raw|] == raw;
  }

  ghost predicate PairsBack(specs: seq<R.Spec>, p: R.RuleProtocol) {
    Pairs(Values(specs), p) == Ok(StripAll(specs))
  }

  lemma PairsStep(front: seq<R.Spec>, last: R.Spec, p: R.RuleProtocol)
    requires PairsBack(front, p) && last.protocol == p
    requires ParsePair(PairText(last)) == Ok((last.listen, last.upstream))
    ensures PairsBack(front + [last], p)
  {
    var specs := front + [last];
    assert specs[..|specs| - 1] == front;
    ValuesLast(specs);
    PairsLast(Values(front), PairText(last), p, StripAll(front), (last.listen, last.upstream));
    assert StripAll(front) + [Stripped(last)] == StripAll(specs);
  }

  lemma {:induction false} PairsParse(specs: seq<R.Spec>, p: R.RuleProtocol)
    requires forall s :: s in specs ==> Good(s) && s.protocol == p
    ensures PairsBack(specs, p)
    decreases |specs|
  {
    if specs == [] {
      assert StripAll(specs) == [];
    } else {
      var front, last := specs[..|specs| - 1], specs[|specs| - 1];
      assert specs == front + [last];
      PairsParse(front, p);
      PairParses(last);
      PairsStep(front, last, p);
    }
  }

  // ---- endpoints ----

  lemma {:induction false} EntriesParse(endpoints: seq<string>)
    requires forall i :: 0 <= i < |endpoints| ==> GoodEndpoint(endpoints[i])
    ensures Entries(endpoints) == Ok(endpoints)
  {
    if endpoints != [] {
      EntriesParse(endpoints[1..]);
      T.TrimNothing(endpoints[0]);
      assert [endpoints[0]] + endpoints[1..] == endpoints;
    }
  }

  lemma EndpointParses(s: R.Spec)
    requires Good(s) && s.endpoints != []
    ensures ParseEndpointPair(EndpointText(s)) == Ok((s.listen, s.endpoints))
  {
    var list := T.Join(s.endpoints, ',');
    CutFirst(s.listen, '=', list);
    assert EndpointText(s) == s.listen + ['='] + list;
    T.SplitJoin(s.endpoints, ',', T.IsComma);
    EntriesParse(s.endpoints);
    T.JoinTail(s.endpoints, ',');
  }

  /** The endpoints by listen address, for rules whose addresses are distinct. */
  ghost predicate Lookup(m: map<string, seq<string>>, specs: seq<R.Spec>) {
    && (forall i :: 0 <= i < |specs| ==>
          if specs[i].endpoints == [] then specs[i].listen !in m
          else specs[i].listen in m && m[specs[i].listen] == specs[i].endpoints)
    && (forall l :: l in m ==> exists i :: 0 <= i < |specs| && specs[i].listen == l)
  }

  lemma {:induction false} EndpointValuesLast(specs: seq<R.Spec>)
    requires specs != []
    ensures EndpointValues(specs) == EndpointValues(specs[..|specs| - 1])
            + if specs[|specs| - 1].endpoints == [] then [] else [EndpointText(specs[|specs| - 1])]
  {
    if |specs| == 1 {
      assert specs[..0] == [] && specs[1..] == [];
    } else {
      EndpointValuesLast(specs[1..]);
      assert specs[1..][..|specs| - 2] == specs[..|specs| - 1][1..];
    }
  }

  lemma EndpointMapLast(raw: seq<string>, x: string, m: map<string, seq<string>>, pair: (string, seq<string>))
    requires EndpointMap(raw) == Ok(m) && ParseEndpointPair(x) == Ok(pair)
    ensures EndpointMap(raw + [x]) == Ok(m[pair.0 := pair.1])
  {
    assert (raw + [x])[..|raw|] == raw;
  }

  lemma EndpointsStep(front: seq<R.Spec>, last: R.Spec)
    requires EndpointMap(EndpointValues(front)).Ok? && Lookup(EndpointMap(EndpointValues(front)).value, front)
    requires Good(last) && DistinctListens(front + [last])
    ensures EndpointMap(EndpointValues(front + [last])).Ok?
    ensures Lookup(EndpointMap(EndpointValues(front + [last])).value, front + [last])
  {
    var specs := front + [last];
    var m := EndpointMap(EndpointValues(front)).value;
    assert specs[..|specs| - 1] == front;
    EndpointValuesLast(specs);
    forall i | 0 <= i < |front| ensures front[i].listen != last.listen { assert specs[i].listen != specs[|front|].listen; }
    if last.endpoints == [] {
      assert EndpointValues(front) + [] == EndpointValues(front);
      LookupMore(m, m, front, last);
    } else {
      EndpointParses(last);
      EndpointMapLast(EndpointValues(front), EndpointText(last), m, (last.listen, last.endpoints));
      LookupMore(m, m[last.listen := last.endpoints], front, last);
    }
  }

  lemma {:induction false} EndpointsParse(specs: seq<R.Spec>)
    requires AllGood(specs) && DistinctListens(specs)
    ensures EndpointMap(EndpointValues(specs)).Ok? && Lookup(EndpointMap(EndpointValues(specs)).value, specs)
    decreases |specs|
  {
    if specs != [] {
      var front, last := specs[..|specs| - 1], specs[|specs| - 1];
      EndpointsParse(front);
      assert specs == front + [last];
      EndpointsStep(front, last);
    }
  }

  lemma LookupMore(m: map<string, seq<string>>, n: map<string, seq<string>>, front: seq<R.Spec>, last: R.Spec)
    requires Lookup(m, front) && last.listen !in m && DistinctListens(front + [last])
    requires n == if last.endpoints == [] then m else m[last.listen := last.endpoints]
    ensures Lookup(n, front + [last])
  {
    var specs := front + [last];
    forall i | 0 <= i < |specs|
      ensures if specs[i].endpoints == [] then specs[i].listen !in n
              else specs[i].listen in n && n[specs[i].listen] == specs[i].endpoints
    {
      if i < |front| { assert specs[i] == front[i] && specs[i].listen != specs[|front|].listen; }
    }
    forall l | l in n ensures exists i :: 0 <= i < |specs| && specs[i].listen == l {
      if l in m {
        var i :| 0 <= i < |front| && front[i].listen == l;
        assert specs[i].listen == l;
      } else {
        assert specs[|front|].listen == l;
      }
    }
  }

  // ---- rules survive the command line ----

  lemma {:induction false} OnlyFacts(specs: seq<R.Spec>, p: R.RuleProtocol)
    ensures forall s :: s in Only(specs, p) ==> s in specs && s.protocol == p
  {
    if specs != [] {
      OnlyFacts(specs[1..], p);
      assert specs == [specs[0]] + specs[1..];
    }
  }

  lemma PairsOnly(specs: seq<R.Spec>, p: R.RuleProtocol)
    requires AllGood(specs)
    ensures PairsBack(Only(specs, p), p)
  {
    OnlyFacts(specs, p);
    PairsParse(Only(specs, p), p);
  }

  lemma AttachRestores(m: map<string, seq<string>>, specs: seq<R.Spec>, some: seq<R.Spec>)
    requires Lookup(m, specs) && forall s :: s in some ==> s in specs
    ensures AttachAll(StripAll(some), m) == some
  {
    forall i | 0 <= i < |some| ensures Attach(Stripped(some[i]), m) == some[i] {
      assert some[i] in some;
      var j :| 0 <= j < |specs| && specs[j] == some[i];
    }
  }

  lemma AttachOnly(m: map<string, seq<string>>, specs: seq<R.Spec>)
    requires Lookup(m, specs)
    ensures var tcp, udp := Only(specs, R.TCP), Only(specs, R.UDP);
            AttachAll(StripAll(tcp) + StripAll(udp), m) == tcp + udp
  {
    var tcp, udp := Only(specs, R.TCP), Only(specs, R.UDP);
    OnlyFacts(specs, R.TCP);
    OnlyFacts(specs, R.UDP);
    assert StripAll(tcp) + StripAll(udp) == StripAll(tcp + udp);
    AttachRestores(m, specs, tcp + udp);
  }

  lemma FlagsGathered(specs: seq<R.Spec>)
    requires forall i :: 0 <= i < |specs| ==> specs[i].protocol != R.Unset
    ensures ParseFlags(Print(specs), Flags([], [], []))
         == Ok(Flags(Values(Only(specs, R.TCP)), Values(Only(specs, R.UDP)), EndpointValues(specs)))
  {
    FlagsOfPrint(specs, Flags([], [], []));
    GatheredEmpty(specs);
  }

  lemma GatheredEmpty(specs: seq<R.Spec>)
    ensures Gathered(Flags([], [], []), specs)
         == Flags(Values(Only(specs, R.TCP)), Values(Only(specs, R.UDP)), EndpointValues(specs))
  {
  }

  lemma ArgsOf(args: seq<string>, f: Flags, tcp: seq<R.Spec>, udp: seq<R.Spec>, m: map<string, seq<string>>)
    requires ParseFlags(args, Flags([], [], [])) == Ok(f) && (f.tcp != [] || f.udp != [])
    requires Pairs(f.tcp, R.TCP) == Ok(tcp) && Pairs(f.udp, R.UDP) == Ok(udp) && EndpointMap(f.endpoints) == Ok(m)
    ensures ParseArgs(args) == Ok(AttachAll(tcp + udp, m))
  {
  }

  /** Rules with distinct listen addresses, printed as flags, are parsed back exactly: TCP rules
      first, then UDP rules, each in the order printed and with its own endpoints. */
  lemma PrintRoundTrip(specs: seq<R.Spec>)
    requires specs != [] && AllGood(specs) && DistinctListens(specs)
    ensures ParseArgs(Print(specs)) == Ok(Only(specs, R.TCP) + Only(specs, R.UDP))
  {
    var tcp, udp := Only(specs, R.TCP), Only(specs, R.UDP);
    forall i | 0 <= i < |specs| ensures specs[i].protocol != R.Unset { assert specs[i] in specs; }
    FlagsGathered(specs);
    PairsOnly(specs, R.TCP);
    PairsOnly(specs, R.UDP);
    EndpointsParse(specs);
    assert specs[0] in specs;
    SomeValue(specs);
    var m := EndpointMap(EndpointValues(specs)).value;
    ArgsOf(Print(specs), Flags(Values(tcp), Values(udp), EndpointValues(specs)), StripAll(tcp), StripAll(udp), m);
    AttachOnly(m, specs);
  }

  lemma SomeValue(specs: seq<R.Spec>)
    requires specs != [] && specs[0].protocol != R.Unset
    ensures Values(Only(specs, R.TCP)) != [] || Values(Only(specs, R.UDP)) != []
  {
  }
}
