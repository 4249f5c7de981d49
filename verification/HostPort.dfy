/** net.SplitHostPort and net.JoinHostPort. */
module HostPort {
  import opened Wrappers

  /** Position of the first c, or -1. */
  function Index(s: string, c: char): (i: int)
    ensures -1 <= i < |s|
  {
    if s == "" then -1 else if s[0] == c then 0
    else var r := Index(s[1..], c); if r < 0 then -1 else r + 1
  }

  /** Position of the last c, or -1. */
  function LastIndex(s: string, c: char): (i: int)
    ensures -1 <= i < |s|
  {
    if s == "" then -1 else if s[|s| - 1] == c then |s| - 1 else LastIndex(s[..|s| - 1], c)
  }

  /** The text before and after the first c. */
  function Cut(s: string, c: char): Option<(string, string)> {
    var i := Index(s, c);
    if i < 0 then None else Some((s[..i], s[i + 1..]))
  }

  function SplitHostPort(s: string): Option<(string, string)> {
    var i := LastIndex(s, ':');
    if i < 0 then None
    else if s[0] == '[' then
      var end := Index(s, ']');
      if end < 0 || end + 1 != i then None
      else if Index(s[1..], '[') >= 0 || Index(s[end + 1..], ']') >= 0 then None
      else Some((s[1..end], s[i + 1..]))
    else if Index(s[..i], ':') >= 0 || Index(s, '[') >= 0 || Index(s, ']') >= 0 then None
    else Some((s[..i], s[i + 1..]))
  }

  function JoinHostPort(host: string, port: string): string {
    if Index(host, ':') >= 0 then "[" + host + "]:" + port else host + ":" + port
  }

  ghost predicate Lacks(s: string, c: char) {
    forall i :: 0 <= i < |s| ==> s[i] != c
  }

  lemma {:induction false} IndexLacks(s: string, c: char)
    ensures Index(s, c) < 0 <==> Lacks(s, c)
  {
    if s != "" {
      IndexLacks(s[1..], c);
      assert s == [s[0]] + s[1..];
      if Index(s, c) >= 0 && s[0] != c {
        var j :| 0 <= j < |s[1..]| && s[1..][j] == c;
        assert s[j + 1] == c;
      } else if Index(s, c) >= 0 {
        assert s[0] == c;
      }
    }
  }

  lemma {:induction false} IndexFirst(a: string, c: char, b: string)
    requires Lacks(a, c)
    ensures Index(a + [c] + b, c) == |a|
  {
    var s := a + [c] + b;
    if a != "" {
      assert s[1..] == a[1..] + [c] + b;
      IndexFirst(a[1..], c, b);
    }
  }

  lemma CutFirst(a: string, c: char, b: string)
    requires Lacks(a, c)
    ensures Cut(a + [c] + b, c) == Some((a, b))
  {
    IndexFirst(a, c, b);
    var s := a + [c] + b;
    assert s[..|a|] == a && s[|a| + 1..] == b;
  }

  lemma {:induction false} LastIndexLast(a: string, c: char, b: string)
    requires Lacks(b, c)
    ensures LastIndex(a + [c] + b, c) == |a|
    decreases |b|
  {
    var s := a + [c] + b;
    if b != "" {
      assert s[..|s| - 1] == a + [c] + b[..|b| - 1];
      LastIndexLast(a, c, b[..|b| - 1]);
    }
  }

  /** Free of the characters that structure an address. */
  ghost predicate Bare(s: string) {
    Lacks(s, ':') && Lacks(s, '[') && Lacks(s, ']')
  }

  lemma SplitBare(host: string, port: string)
    requires Bare(host) && Bare(port) && host != ""
    ensures SplitHostPort(host + ":" + port) == Some((host, port))
  {
    var s := host + ":" + port;
    LastIndexLast(host, ':', port);
    assert s == host + [':'] + port;
    assert s[..|host|] == host && s[|host| + 1..] == port;
    IndexLacks(host, ':');
    IndexLacks(s, '[');
    IndexLacks(s, ']');
  }

  lemma SplitBracketed(host: string, port: string)
    requires Lacks(host, '[') && Lacks(host, ']') && Bare(port)
    ensures SplitHostPort("[" + host + "]:" + port) == Some((host, port))
  {
    var s := "[" + host + "]:" + port;
    var h := "[" + host;
    assert s == h + [']'] + (":" + port);
    assert s == (h + "]") + [':'] + port;
    LastIndexLast(h + "]", ':', port);
    IndexFirst(h, ']', ":" + port);
    var e := |h|;
    assert s[1..] == host + "]:" + port;
    assert s[e + 1..] == ":" + port;
    IndexLacks(s[1..], '[');
    IndexLacks(s[e + 1..], ']');
    assert s[1..e] == host && s[e + 2..] == port;
  }

  /** An address is written so that it can be told apart from its port. */
  ghost predicate Canonical(host: string) {
    host != "" && Lacks(host, '[') && Lacks(host, ']')
  }

  /** Splitting undoes joining, for IPv4 and IPv6 texts alike. */
  lemma SplitJoin(host: string, port: string)
    requires Canonical(host) && Bare(port)
    ensures SplitHostPort(JoinHostPort(host, port)) == Some((host, port))
  {
    IndexLacks(host, ':');
    if Index(host, ':') >= 0 { SplitBracketed(host, port); } else { SplitBare(host, port); }
  }

  lemma {:induction false} IndexFound(s: string, c: char)
    requires Index(s, c) >= 0
    ensures s[Index(s, c)] == c && Lacks(s[..Index(s, c)], c)
  {
    if s[0] != c {
      IndexFound(s[1..], c);
      var i := Index(s[1..], c);
      assert s[..i + 1] == [s[0]] + s[1..][..i];
    }
  }

  lemma {:induction false} LastIndexFound(s: string, c: char)
    requires LastIndex(s, c) >= 0
    ensures s[LastIndex(s, c)] == c && Lacks(s[LastIndex(s, c) + 1..], c)
  {
    if s[|s| - 1] != c {
      var f := s[..|s| - 1];
      LastIndexFound(f, c);
      var i := LastIndex(f, c);
      assert s[i + 1..] == f[i + 1..] + [s[|s| - 1]];
    }
  }

  /** The two forms of a text with a host and a port. */
  ghost predicate Forms(s: string, host: string, port: string) {
    || (s == host + ":" + port && Bare(host) && Bare(port))
    || (s == "[" + host + "]:" + port && Lacks(host, '[') && Lacks(host, ']') && Bare(port))
  }

  lemma SplitPlain(s: string)
    requires SplitHostPort(s).Some? && s[0] != '['
    ensures Forms(s, SplitHostPort(s).value.0, SplitHostPort(s).value.1)
  {
    var i := LastIndex(s, ':');
    LastIndexFound(s, ':');
    IndexLacks(s[..i], ':');
    IndexLacks(s, '[');
    IndexLacks(s, ']');
    assert s == s[..i] + ":" + s[i + 1..];
  }

  lemma SplitInBrackets(s: string)
    requires SplitHostPort(s).Some? && s[0] == '['
    ensures Forms(s, SplitHostPort(s).value.0, SplitHostPort(s).value.1)
  {
    var i, end := LastIndex(s, ':'), Index(s, ']');
    LastIndexFound(s, ':');
    IndexFound(s, ']');
    IndexLacks(s[1..], '[');
    IndexLacks(s[end + 1..], ']');
    var host, port := s[1..end], s[i + 1..];
    assert s == "[" + host + "]:" + port;
    forall j | 0 <= j < |host| ensures host[j] != '[' && host[j] != ']' { assert host[j] == s[1..][j] && host[j] == s[..end][j + 1]; }
    forall j | 0 <= j < |port| ensures port[j] != '[' && port[j] != ']' { assert port[j] == s[1..][i + j] && port[j] == s[end + 1..][j + 1]; }
  }

  lemma SplitEmptyHost(port: string)
    requires Bare(port)
    ensures SplitHostPort(":" + port) == Some(("", port))
  {
    var s := ":" + port;
    assert s == "" + [':'] + port;
    LastIndexLast("", ':', port);
    assert s[..0] == "" && s[1..] == port;
    IndexLacks("", ':');
    IndexLacks(s, '[');
    IndexLacks(s, ']');
  }

  /** Exactly the texts of these two forms have a host and a port, and they have these. */
  lemma SplitExact(s: string, host: string, port: string)
    ensures SplitHostPort(s) == Some((host, port)) <==> Forms(s, host, port)
  {
    if SplitHostPort(s).Some? { if s[0] == '[' { SplitInBrackets(s); } else { SplitPlain(s); } }
    if Forms(s, host, port) {
      if s == host + ":" + port && Bare(host) && Bare(port) {
        if host == "" {
          assert "" + ":" + port == ":" + port;
          SplitEmptyHost(port);
        } else {
          SplitBare(host, port);
        }
      } else {
        SplitBracketed(host, port);
      }
    }
  }
}
