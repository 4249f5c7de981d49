/** The owned iptables chain as text: what `iptables -S BULB-INPUT` prints and how
    parseIPTablesChainRules reads it back. */
module RuleListing {
  import opened Api
  import opened Ordering
  import opened Ports
  import opened Text

  const CHAIN := "BULB-INPUT"

  function Upper(c: char): char {
    if 'a' <= c <= 'z' then c - 'a' + 'A' else c
  }

  function ToUpper(s: string): string {
    seq(|s|, i requires 0 <= i < |s| => Upper(s[i]))
  }

  /** Everything that is not UDP counts as TCP. */
  function ProtocolFromString(s: string): LBProtocol {
    if ToUpper(s) == "UDP" then UDP else TCP
  }

  function ProtocolString(w: Wire): string {
    if w == Udp then "udp" else "tcp"
  }

  // ---- the parser ----

  /** Later flags win, and a flag in last place has no value. */
  function Scan(fields: seq<string>, port: int, protocol: string): (int, string) {
    if fields == [] then (port, protocol) else
      Scan(fields[1..],
           if fields[0] == "--dport" && 1 < |fields| then ParsePort(fields[1]) else port,
           if fields[0] == "-p" && 1 < |fields| then fields[1] else protocol)
  }

  function ParseLine(raw: string): seq<PortSpec> {
    var line := TrimSpace(raw);
    if line == "" || line == "-N " + CHAIN then [] else
    var (port, protocol) := Scan(Fields(line), 0, "");
    if port == 0 then [] else [PortSpec(port, ProtocolFromString(protocol), false)]
  }

  function ParseLines(lines: seq<string>): seq<PortSpec> {
    if lines == [] then [] else ParseLine(lines[0]) + ParseLines(lines[1..])
  }

  function ParseChain(raw: string): seq<PortSpec> {
    StableUnique(ParseLines(Split(TrimSpace(raw), IsNewline)))
  }

  /** One turn of the parser's outer loop: the fields of a line, scanned left to right. */
  method ParseRule(raw: string) returns (found: seq<PortSpec>)
    ensures found == ParseLine(raw)
  {
    var line := TrimSpace(raw);
    if line == "" || line == "-N " + CHAIN { return []; }
    var fields := Fields(line);
    var port, protocol := 0, "";
    for i := 0 to |fields|
      invariant Scan(fields, 0, "") == Scan(fields[i..], port, protocol)
    {
      assert fields[i..][1..] == fields[i + 1..];
      if fields[i] == "-p" && i + 1 < |fields| { protocol := fields[i + 1]; }
      if fields[i] == "--dport" && i + 1 < |fields| { port := ParsePort(fields[i + 1]); }
    }
    found := if port == 0 then [] else [PortSpec(port, ProtocolFromString(protocol), false)];
  }

  method ParseChainRules(raw: string) returns (out: seq<PortSpec>)
    ensures out == ParseChain(raw)
    ensures Strict(KeyLe, Keys(out))
  {
    var lines := Split(TrimSpace(raw), IsNewline);
    out := [];
    for n := 0 to |lines|
      invariant ParseLines(lines) == out + ParseLines(lines[n..])
    {
      assert lines[n..][0] == lines[n] && lines[n..][1..] == lines[n + 1..];
      var found := ParseRule(lines[n]);
      out := out + found;
    }
    assert lines[|lines|..] == [] && out == ParseLines(lines);
    out := StableUniquePorts(out);
  }

  // ---- counting lines ----

  function LineCount(lines: seq<string>, want: string): nat {
    if lines == [] then 0
    else LineCount(lines[..|lines| - 1], want) + if TrimSpace(lines[|lines| - 1]) == want then 1 else 0
  }

  method CountLine(raw: string, want: string) returns (count: nat)
    ensures count == LineCount(Split(raw, IsNewline), want)
  {
    var lines := Split(raw, IsNewline);
    count := 0;
    for n := 0 to |lines|
      invariant count == LineCount(lines[..n], want)
    {
      assert lines[..n + 1][..n] == lines[..n];
      if TrimSpace(lines[n]) == want { count := count + 1; }
    }
    assert lines[..|lines|] == lines;
  }

  const JUMP := "-A INPUT -j " + CHAIN

  /** What `iptables -S INPUT` prints: rules of any kind, one per line. */
  function InputListing(lines: seq<string>): string {
    Join(lines + [""], '\n')
  }

  /** INPUT rules of which n jump to the owned chain. */
  ghost predicate Jumps(lines: seq<string>, n: nat) {
    && AllFree(lines, IsNewline)
    && n == |set i | 0 <= i < |lines| && TrimSpace(lines[i]) == "-A INPUT -j BULB-INPUT"|
  }

  ghost function JumpLines(lines: seq<string>): set<int> {
    set i | 0 <= i < |lines| && TrimSpace(lines[i]) == JUMP
  }

  lemma {:induction false} LineCountExact(lines: seq<string>)
    ensures LineCount(lines, JUMP) == |JumpLines(lines)|
  {
    if lines != [] {
      var n := |lines| - 1;
      var front := lines[..n];
      LineCountExact(front);
      assert JumpLines(lines) == JumpLines(front) + if TrimSpace(lines[n]) == JUMP then {n} else {};
    }
  }

  /** The jumps are counted right among whatever other rules INPUT has. */
  lemma JumpsCounted(lines: seq<string>, n: nat)
    requires Jumps(lines, n)
    ensures LineCount(Split(InputListing(lines), IsNewline), JUMP) == n
  {
    assert JUMP == "-A INPUT -j BULB-INPUT";
    LineCountExact(lines);
    assert JumpLines(lines) == set i | 0 <= i < |lines| && TrimSpace(lines[i]) == "-A INPUT -j BULB-INPUT";
    var all := lines + [""];
    SplitJoin(all, '\n', IsNewline);
    assert all[..|all| - 1] == lines;
    TrimNothing("");
    assert JUMP[0] == '-';
  }

  // ---- the printed chain ----

  /** An accept rule with whatever further match tokens iptables prints. */
  datatype Rule = Rule(key: PortKey, before: seq<string>, between: seq<string>, after: seq<string>)

  ghost predicate Plain(tokens: seq<string>) {
    forall i :: 0 <= i < |tokens| ==>
      tokens[i] != "" && tokens[i] != "-p" && tokens[i] != "--dport" && Free(tokens[i], IsSpace)
  }

  ghost predicate WellFormed(r: Rule) {
    1 <= r.key.port <= 65535 && Plain(r.before) && Plain(r.between) && Plain(r.after)
  }

  function Tokens(r: Rule): seq<string> {
    ["-A"] + ([CHAIN] + r.before) + ["-p"] + ([ProtocolString(r.key.protocol)] + r.between)
    + ["--dport"] + ([Itoa(r.key.port)] + r.after + ["-j", "ACCEPT"])
  }

  function Line(r: Rule): string {
    Join(Tokens(r), ' ')
  }

  function Lines(rules: seq<Rule>): seq<string> {
    if rules == [] then [] else [Line(rules[0])] + Lines(rules[1..])
  }

  function Listing(rules: seq<Rule>): string {
    Join(["-N " + CHAIN] + Lines(rules), '\n') + "\n"
  }

  function RuleKeys(rules: seq<Rule>): set<PortKey> {
    set r | r in rules :: r.key
  }

  // ---- round trip ----

  lemma {:induction false} ScanPlain(tokens: seq<string>, rest: seq<string>, port: int, protocol: string)
    requires Plain(tokens)
    ensures Scan(tokens + rest, port, protocol) == Scan(rest, port, protocol)
  {
    if tokens == [] {
      assert tokens + rest == rest;
    } else {
      assert (tokens + rest)[1..] == tokens[1..] + rest;
      ScanPlain(tokens[1..], rest, port, protocol);
    }
  }

  lemma PlainParts(r: Rule)
    requires WellFormed(r)
    ensures Plain(["-A"] + ([CHAIN] + r.before))
    ensures Plain([ProtocolString(r.key.protocol)] + r.between)
    ensures Plain([Itoa(r.key.port)] + r.after + ["-j", "ACCEPT"])
  {
    var digits := Itoa(r.key.port);
    DecimalDigits(r.key.port);
    assert digits[0] != '-';
    assert forall i :: 0 <= i < |digits| ==> IsDigit(digits[i]);
  }

  lemma ScanTokens(r: Rule)
    requires WellFormed(r)
    ensures Scan(Tokens(r), 0, "") == (r.key.port, ProtocolString(r.key.protocol))
  {
    PlainParts(r);
    var a := ["-A"] + ([CHAIN] + r.before);
    var b := [ProtocolString(r.key.protocol)] + r.between;
    var c := [Itoa(r.key.port)] + r.after + ["-j", "ACCEPT"];
    var fromPort := ["--dport"] + c;
    var fromProtocol := ["-p"] + (b + fromPort);
    assert Tokens(r) == a + fromProtocol;
    ScanPlain(a, fromProtocol, 0, "");
    assert fromProtocol[1..] == b + fromPort && fromProtocol[1] == b[0];
    ScanPlain(b, fromPort, 0, b[0]);
    assert fromPort[1..] == c && fromPort[1] == c[0];
    ParseItoa(r.key.port);
    ScanPlain(c, [], r.key.port, b[0]);
    assert c + [] == c;
  }

  lemma TokensClean(r: Rule)
    requires WellFormed(r)
    ensures AllFree(Tokens(r), IsSpace) && forall i :: 0 <= i < |Tokens(r)| ==> Tokens(r)[i] != ""
  {
    PlainParts(r);
    var a := ["-A"] + ([CHAIN] + r.before);
    var b := [ProtocolString(r.key.protocol)] + r.between;
    var c := [Itoa(r.key.port)] + r.after + ["-j", "ACCEPT"];
    assert Tokens(r) == a + ["-p"] + b + ["--dport"] + c;
    assert Free("-p", IsSpace) && Free("--dport", IsSpace);
  }

  lemma LineShape(r: Rule)
    requires WellFormed(r)
    ensures Line(r) != "" && Line(r)[0] == '-' && Line(r)[|Line(r)| - 1] == 'T'
    ensures Free(Line(r), IsNewline)
  {
    var t := Tokens(r);
    TokensClean(r);
    assert t[0] == "-A" && t[|t| - 1] == "ACCEPT";
    JoinEnds(t, ' ');
    assert forall i :: 0 <= i < |t| ==> Free(t[i], IsNewline);
    JoinFree(t, ' ', IsNewline);
  }

  lemma LineParses(r: Rule)
    requires WellFormed(r)
    ensures ParseLine(Line(r)) == [Spec(r.key)]
  {
    var t := Tokens(r);
    TokensClean(r);
    LineShape(r);
    TrimNothing(Line(r));
    assert t[0] == "-A" && Line(r)[1] == 'A';
    assert ("-N " + CHAIN)[1] == 'N';
    FieldsJoin(t);
    ScanTokens(r);
    assert ToUpper("udp") == "UDP";
    assert ToUpper("tcp")[0] == 'T';
  }

  lemma {:induction false} LinesShape(rules: seq<Rule>)
    requires forall r :: r in rules ==> WellFormed(r)
    ensures AllFree(Lines(rules), IsNewline) && |Lines(rules)| == |rules|
    ensures rules != [] ==> Lines(rules)[|rules| - 1] == Line(rules[|rules| - 1])
  {
    if rules != [] {
      LinesShape(rules[1..]);
      LineShape(rules[0]);
    }
  }

  lemma {:induction false} LinesParse(rules: seq<Rule>)
    requires forall r :: r in rules ==> WellFormed(r)
    ensures KeySet(ParseLines(Lines(rules))) == RuleKeys(rules)
    ensures forall p :: p in ParseLines(Lines(rules)) ==> p == Spec(p.Key())
  {
    if rules != [] {
      var first, rest := rules[0], rules[1..];
      LinesParse(rest);
      LineParses(first);
      assert Lines(rules)[1..] == Lines(rest);
      KeySetConcat([Spec(first.key)], ParseLines(Lines(rest)));
      KeySetOne(Spec(first.key));
      assert RuleKeys(rules) == {first.key} + RuleKeys(rest) by {
        assert rules == [first] + rest;
        assert first in rules;
      }
    }
  }

  lemma HeadParses()
    ensures var head := "-N " + CHAIN;
            head[0] == '-' && head[|head| - 1] == 'T' && Free(head, IsNewline) && ParseLine(head) == []
  {
    TrimNothing("-N " + CHAIN);
  }

  lemma Unlist(lines: seq<string>)
    requires lines != [] && AllFree(lines, IsNewline)
    requires lines[0] != "" && lines[0][0] == '-'
    requires lines[|lines| - 1] != "" && lines[|lines| - 1][|lines[|lines| - 1]| - 1] == 'T'
    ensures Split(TrimSpace(Join(lines, '\n') + "\n"), IsNewline) == lines
  {
    JoinEnds(lines, '\n');
    TrimTrailing(Join(lines, '\n'), '\n');
    SplitJoin(lines, '\n', IsNewline);
  }

  lemma ParseAfter(head: string, lines: seq<string>)
    requires ParseLine(head) == []
    ensures ParseLines([head] + lines) == ParseLines(lines)
  {
    assert ([head] + lines)[1..] == lines;
    assert [] + ParseLines(lines) == ParseLines(lines);
  }

  lemma ListingSplits(rules: seq<Rule>)
    requires forall r :: r in rules ==> WellFormed(r)
    ensures Split(TrimSpace(Listing(rules)), IsNewline) == ["-N " + CHAIN] + Lines(rules)
  {
    var all := ["-N " + CHAIN] + Lines(rules);
    HeadParses();
    LinesShape(rules);
    if rules != [] { LineShape(rules[|rules| - 1]); }
    Unlist(all);
  }

  /** The listing splits back into its lines. */
  lemma ListingLines(rules: seq<Rule>)
    requires forall r :: r in rules ==> WellFormed(r)
    ensures ParseLines(Split(TrimSpace(Listing(rules)), IsNewline)) == ParseLines(Lines(rules))
  {
    ListingSplits(rules);
    HeadParses();
    ParseAfter("-N " + CHAIN, Lines(rules));
  }

  /** Round trip: parsing the printed chain yields the ports of its rules, each once, in
      ascending order, whatever further match tokens the rules carry. */
  lemma ListingRoundTrip(rules: seq<Rule>)
    requires forall r :: r in rules ==> WellFormed(r)
    ensures KeySet(ParseChain(Listing(rules))) == RuleKeys(rules)
    ensures Strict(KeyLe, Keys(ParseChain(Listing(rules))))
    ensures ParseChain(Listing(rules)) == Specs(Keys(ParseChain(Listing(rules))))
  {
    ListingLines(rules);
    LinesParse(rules);
    var parsed := ParseLines(Lines(rules));
    StableUniqueKeys(parsed);
    forall p | p in StableUnique(parsed) ensures p == Spec(p.Key()) {
      var q :| q in parsed && p == q.Base();
    }
    forall i | 0 <= i < |StableUnique(parsed)| ensures StableUnique(parsed)[i] == Spec(StableUnique(parsed)[i].Key()) {
      assert StableUnique(parsed)[i] in StableUnique(parsed);
    }
  }

  /** The result depends on the set of ports alone, so on neither order, repetition nor extra tokens. */
  lemma ListingOrder(a: seq<Rule>, b: seq<Rule>)
    requires forall r :: r in a ==> WellFormed(r)
    requires forall r :: r in b ==> WellFormed(r)
    requires RuleKeys(a) == RuleKeys(b)
    ensures ParseChain(Listing(a)) == ParseChain(Listing(b))
  {
    ListingRoundTrip(a);
    ListingRoundTrip(b);
    ListingLines(a);
    ListingLines(b);
    LinesParse(a);
    LinesParse(b);
    StableUniqueCanonical(ParseLines(Lines(a)), ParseLines(Lines(b)));
  }

  /** The texts themselves: how a plain rule is printed. */
  lemma RuleText(k: PortKey)
    ensures Line(Rule(k, [], [], []))
         == Join(["-A", "BULB-INPUT", "-p", if k.protocol == Udp then "udp" else "tcp", "--dport", Itoa(k.port), "-j", "ACCEPT"], ' ')
  {
    assert Tokens(Rule(k, [], [], []))
        == ["-A", "BULB-INPUT", "-p", if k.protocol == Udp then "udp" else "tcp", "--dport", Itoa(k.port), "-j", "ACCEPT"];
  }

  /** Lines that name no port, of whatever kind, are passed over. */
  lemma NoPortIgnored(raw: string)
    requires "--dport" !in Fields(TrimSpace(raw))
    ensures ParseLine(raw) == []
  {
    ScanNoPort(Fields(TrimSpace(raw)), "");
  }

  lemma {:induction false} ScanNoPort(fields: seq<string>, protocol: string)
    requires "--dport" !in fields
    ensures Scan(fields, 0, protocol).0 == 0
    decreases |fields|
  {
    if fields != [] {
      assert fields == [fields[0]] + fields[1..];
      ScanNoPort(fields[1..], if fields[0] == "-p" && 1 < |fields| then fields[1] else protocol);
    }
  }
}
