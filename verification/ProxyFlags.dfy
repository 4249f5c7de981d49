/** The proxy's command line: Go's flag syntax, the listen=upstream pairs, the endpoint lists,
    and how Run assembles them into forwarding rules. */
module ProxyFlags {
  import opened HostPort
  import opened RoundRobin
  import opened Wrappers
  import Text

  datatype Result<+T> = Ok(value: T) | Err

  // ---- flags ----

  datatype Flags = Flags(tcp: seq<string>, udp: seq<string>, endpoints: seq<string>)

  /** Flags whose values do not become forwarding rules. */
  const OTHER_FLAGS: seq<string> :=
    ["drain-timeout", "udp-idle-timeout", "health-bind-address", "health-check-timeout", "proxy-protocol"]

  function SetFlag(f: Flags, name: string, value: string): Result<Flags> {
    if name == "upstream" then Ok(f.(tcp := f.tcp + [value]))
    else if name == "udp-upstream" then Ok(f.(udp := f.udp + [value]))
    else if name == "endpoint" then Ok(f.(endpoints := f.endpoints + [value]))
    else if name in OTHER_FLAGS then Ok(f)
    else Err
  }

  /** Flags up to the first argument that is not one; a flag without "=" takes the next argument. */
  function ParseFlags(args: seq<string>, f: Flags): Result<Flags>
    decreases |args|
  {
    if args == [] || |args[0]| < 2 || args[0][0] != '-' || args[0] == "--" then Ok(f)
    else
      var name := args[0][if args[0][1] == '-' then 2 else 1..];
      if name == "" || name[0] == '-' || name[0] == '=' then Err
      else
        var i := Index(name, '=');
        if i < 0 then
          if |args| < 2 then Err
          else
            var g := SetFlag(f, name, args[1]);
            if g.Err? then Err else ParseFlags(args[2..], g.value)
        else
          var g := SetFlag(f, name[..i], name[i + 1..]);
          if g.Err? then Err else ParseFlags(args[1..], g.value)
  }

  // ---- pairs ----

  function ParsePair(s: string): Result<(string, string)> {
    match Cut(s, '=')
    case None => Err
    case Some((listen, upstream)) =>
      if listen == "" || upstream == "" || SplitHostPort(listen).None? || SplitHostPort(upstream).None? then Err
      else Ok((listen, upstream))
  }

  function Pairs(raw: seq<string>, protocol: RuleProtocol): Result<seq<Spec>> {
    if raw == [] then Ok([])
    else
      var front, last := Pairs(raw[..|raw| - 1], protocol), ParsePair(raw[|raw| - 1]);
      if front.Err? || last.Err? then Err
      else Ok(front.value + [Spec(last.value.0, last.value.1, protocol, [])])
  }

  method ParsePairsWithProtocol(raw: seq<string>, protocol: RuleProtocol) returns (r: Result<seq<Spec>>)
    ensures r == Pairs(raw, protocol)
  {
    var specs: seq<Spec> := [];
    for i := 0 to |raw|
      invariant Pairs(raw[..i], protocol) == Ok(specs)
    {
      assert raw[..i + 1][..i] == raw[..i];
      var pair := ParsePair(raw[i]);
      if pair.Err? {
        PairsFail(raw, protocol, i + 1);
        return Err;
      }
      specs := specs + [Spec(pair.value.0, pair.value.1, protocol, [])];
    }
    assert raw[..|raw|] == raw;
    r := Ok(specs);
  }

  lemma {:induction false} PairsFail(raw: seq<string>, protocol: RuleProtocol, n: nat)
    requires n <= |raw| && Pairs(raw[..n], protocol) == Err
    ensures Pairs(raw, protocol) == Err
    decreases |raw|
  {
    if n == |raw| {
      assert raw[..n] == raw;
    } else {
      assert raw[..|raw| - 1][..n] == raw[..n];
      PairsFail(raw[..|raw| - 1], protocol, n);
    }
  }

  // ---- endpoints ----

  /** Blank entries are skipped, every other one must be host:port. */
  function Entries(raw: seq<string>): Result<seq<string>> {
    if raw == [] then Ok([])
    else
      var rest, t := Entries(raw[1..]), Text.TrimSpace(raw[0]);
      if t == "" then rest
      else if SplitHostPort(t).None? || rest.Err? then Err
      else Ok([t] + rest.value)
  }

  function ParseEndpointPair(s: string): Result<(string, seq<string>)> {
    match Cut(s, '=')
    case None => Err
    case Some((listen, endpoints)) =>
      if listen == "" || endpoints == "" || SplitHostPort(listen).None? then Err
      else
        var e := Entries(Text.Split(endpoints, Text.IsComma));
        if e.Err? || e.value == [] then Err else Ok((listen, e.value))
  }

  /** A later flag for the same listen address replaces an earlier one. */
  function EndpointMap(raw: seq<string>): Result<map<string, seq<string>>> {
    if raw == [] then Ok(map[])
    else
      var front, last := EndpointMap(raw[..|raw| - 1]), ParseEndpointPair(raw[|raw| - 1]);
      if front.Err? || last.Err? then Err else Ok(front.value[last.value.0 := last.value.1])
  }

  method ParseEndpointPairs(raw: seq<string>) returns (r: Result<map<string, seq<string>>>)
    ensures r == EndpointMap(raw)
  {
    var result: map<string, seq<string>> := map[];
    for i := 0 to |raw|
      invariant EndpointMap(raw[..i]) == Ok(result)
    {
      assert raw[..i + 1][..i] == raw[..i];
      var pair := ParseEndpointPair(raw[i]);
      if pair.Err? {
        EndpointMapFail(raw, i + 1);
        return Err;
      }
      result := result[pair.value.0 := pair.value.1];
    }
    assert raw[..|raw|] == raw;
    r := Ok(result);
  }

  lemma {:induction false} EndpointMapFail(raw: seq<string>, n: nat)
    requires n <= |raw| && EndpointMap(raw[..n]) == Err
    ensures EndpointMap(raw) == Err
    decreases |raw|
  {
    if n == |raw| {
      assert raw[..n] == raw;
    } else {
      assert raw[..|raw| - 1][..n] == raw[..n];
      EndpointMapFail(raw[..|raw| - 1], n);
    }
  }

  // ---- Run ----

  function Attach(spec: Spec, endpoints: map<string, seq<string>>): Spec {
    if spec.listen in endpoints then spec.(endpoints := endpoints[spec.listen]) else spec
  }

  function AttachAll(specs: seq<Spec>, endpoints: map<string, seq<string>>): seq<Spec> {
    seq(|specs|, i requires 0 <= i < |specs| => Attach(specs[i], endpoints))
  }

  /** The forwarding rules a command line asks for. */
  function ParseArgs(args: seq<string>): Result<seq<Spec>> {
    var f := ParseFlags(args, Flags([], [], []));
    if f.Err? || (f.value.tcp == [] && f.value.udp == []) then Err
    else
      var tcp, udp, eps := Pairs(f.value.tcp, TCP), Pairs(f.value.udp, UDP), EndpointMap(f.value.endpoints);
      if tcp.Err? || udp.Err? || eps.Err? then Err else Ok(AttachAll(tcp.value + udp.value, eps.value))
  }

  method Run(args: seq<string>) returns (r: Result<seq<Spec>>)
    ensures r == ParseArgs(args)
  {
    var f := ParseFlags(args, Flags([], [], []));
    if f.Err? { return Err; }
    if |f.value.tcp| == 0 && |f.value.udp| == 0 { return Err; }
    var tcp := ParsePairsWithProtocol(f.value.tcp, TCP);
    if tcp.Err? { return Err; }
    var udp := ParsePairsWithProtocol(f.value.udp, UDP);
    if udp.Err? { return Err; }
    var specs := tcp.value + udp.value;
    var endpoints := ParseEndpointPairs(f.value.endpoints);
    if endpoints.Err? { return Err; }
    specs := AttachEndpoints(specs, endpoints.value);
    r := Ok(specs);
  }

  method AttachEndpoints(before: seq<Spec>, endpoints: map<string, seq<string>>) returns (specs: seq<Spec>)
    ensures specs == AttachAll(before, endpoints)
  {
    specs := before;
    for i := 0 to |specs|
      invariant |specs| == |before|
      invariant forall j :: 0 <= j < i ==> specs[j] == Attach(before[j], endpoints)
      invariant forall j :: i <= j < |specs| ==> specs[j] == before[j]
    {
      if specs[i].listen in endpoints {
        specs := specs[i := specs[i].(endpoints := endpoints[specs[i].listen])];
      }
    }
  }

  // ---- what is accepted ----

  lemma CutExact(s: string, c: char, a: string, b: string)
    ensures Cut(s, c) == Some((a, b)) <==> s == a + [c] + b && Lacks(a, c)
  {
    if Cut(s, c) == Some((a, b)) {
      IndexFound(s, c);
      assert s == s[..Index(s, c)] + [c] + s[Index(s, c) + 1..];
    }
    if s == a + [c] + b && Lacks(a, c) { CutFirst(a, c, b); }
  }

  /** A pair is accepted exactly if it is two texts with host and port, separated by its first "=". */
  lemma PairExact(s: string, listen: string, upstream: string)
    ensures ParsePair(s) == Ok((listen, upstream))
       <==> s == listen + ['='] + upstream && Lacks(listen, '=') && SplitHostPort(listen).Some? && SplitHostPort(upstream).Some?
  {
    CutExact(s, '=', listen, upstream);
  }

  function Trimmed(raw: seq<string>): seq<string> {
    seq(|raw|, i requires 0 <= i < |raw| => Text.TrimSpace(raw[i]))
  }

  /** Entries are trimmed, blank ones skipped, and each of the others must have host and port. */
  lemma {:induction false} EntriesExact(raw: seq<string>)
    ensures Entries(raw).Ok? <==> forall i :: 0 <= i < |raw| ==> Trimmed(raw)[i] == "" || SplitHostPort(Trimmed(raw)[i]).Some?
    ensures Entries(raw).Ok? ==> Entries(raw).value == Text.NonEmpty(Trimmed(raw))
  {
    if raw != [] {
      EntriesExact(raw[1..]);
      assert Trimmed(raw)[1..] == Trimmed(raw[1..]);
      assert forall i :: 0 < i < |raw| ==> Trimmed(raw)[i] == Trimmed(raw[1..])[i - 1];
      assert Entries(raw).Ok? ==> Entries(raw[1..]).Ok?;
      if forall i :: 0 <= i < |raw| ==> Trimmed(raw)[i] == "" || SplitHostPort(Trimmed(raw)[i]).Some? {
        forall i | 0 <= i < |raw[1..]| ensures Trimmed(raw[1..])[i] == "" || SplitHostPort(Trimmed(raw[1..])[i]).Some? {
          assert Trimmed(raw)[i + 1] == Trimmed(raw[1..])[i];
        }
        assert Trimmed(raw)[0] == "" || SplitHostPort(Trimmed(raw)[0]).Some?;
      }
    }
  }
}
