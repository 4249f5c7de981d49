/** Whose datagrams go where, what refreshes a session and what ends one. */
module UDPTraffic {
  import opened UDPSessions

  // ---- every socket serves the client it was dialled for ----

  /** The client for whom each socket was dialled. */
  ghost function Clients(s: State, actions: seq<Action>): map<Sock, string> {
    if actions == [] then map[]
    else Grown(Clients(s, actions[..|actions| - 1]), Run(s, actions[..|actions| - 1]), actions[|actions| - 1])
  }

  ghost function Grown(m: map<Sock, string>, s: State, a: Action): map<Sock, string> {
    if a.Dial? && Enabled(s, a) then m[s.next := At(s, Reader(a.i)).key] else m
  }

  ghost predicate For(m: map<Sock, string>, x: Sock, k: string) {
    x in m && m[x] == k
  }

  /** What a thread holds belongs to the client it holds it for. */
  ghost predicate PCMatched(pc: PC, m: map<Sock, string>) {
    match pc
    case Dialled(k, x) => For(m, x, k)
    case Lost(k, x, other) => For(m, x, k) && For(m, other, k)
    case Serving(k, x) => For(m, x, k)
    case _ => true
  }

  ghost predicate Matched(s: State, m: map<Sock, string>) {
    && (forall x: Sock :: x in m <==> x < s.next)
    && (forall k :: k in s.sessions ==> For(m, s.sessions[k], k))
    && (forall t :: t in s.pcs ==> PCMatched(s.pcs[t], m))
    && (forall x: Sock :: Loop(x) in s.pcs && s.pcs[Loop(x)].Pumping? ==> For(m, x, s.pcs[Loop(x)].key))
  }

  lemma GoMatched(s: State, m: map<Sock, string>, t: Tid, pc: PC)
    requires Matched(s, m) && PCMatched(pc, m) && (t.Loop? && pc.Pumping? ==> For(m, t.sock, pc.key))
    ensures Matched(Go(s, t, pc), m)
  {
  }

  lemma DialMatched(s: State, m: map<Sock, string>, i: nat, now: int)
    requires Matched(s, m) && At(s, Reader(i)).Miss?
    ensures Matched(Next(s, Dial(i, now)), Grown(m, s, Dial(i, now)))
  {
    var key := At(s, Reader(i)).key;
    var n := m[s.next := key];
    assert Next(s, Dial(i, now)) == Born(s, i, key, now);
    forall t | t in s.pcs ensures PCMatched(s.pcs[t], n) { assert PCMatched(s.pcs[t], m); }
  }

  lemma InsertMatched(s: State, m: map<Sock, string>, i: nat)
    requires Matched(s, m) && Enabled(s, Insert(i))
    ensures Matched(Next(s, Insert(i)), m)
  {
    var p := At(s, Reader(i));
    assert PCMatched(p, m);
    if p.key in s.sessions {
      GoMatched(s, m, Reader(i), Lost(p.key, p.sock, s.sessions[p.key]));
    } else {
      GoMatched(s.(sessions := s.sessions[p.key := p.sock], gauge := s.gauge + 1, place := s.place[p.sock := Table(p.key)]),
                m, Reader(i), Serving(p.key, p.sock));
      GoMatched(Tabled(s, i, p.key, p.sock), m, Loop(p.sock), Pumping(p.key));
    }
  }

  lemma ReaderMatched(s: State, m: map<Sock, string>, a: Action)
    requires Matched(s, m) && Enabled(s, a) && (a.Receive? || a.DialFails? || a.CloseLost? || a.Forward?)
    ensures Matched(Next(s, a), m)
  {
    var p := At(s, Reader(a.i));
    assert PCMatched(p, m);
    match a {
      case Receive(i, key) => GoMatched(s, m, Reader(i), if key in s.sessions then Serving(key, s.sessions[key]) else Miss(key));
      case DialFails(i) => GoMatched(s, m, Reader(i), Idle);
      case CloseLost(i) =>
        GoMatched(s.(closes := s.closes + multiset{p.sock}, place := s.place[p.sock := Shut]), m, Reader(i), Serving(p.key, p.other));
      case Forward(i, now, ok) =>
        GoMatched(s.(active := s.active[p.sock := now]), m, Reader(i), if ok then Idle else Dropping(p.key, []));
    }
  }

  lemma DropMatched(s: State, m: map<Sock, string>, t: Tid)
    requires Matched(s, m) && Enabled(s, Drop(t))
    ensures Matched(Next(s, Drop(t)), m)
  {
    var p := At(s, t);
    if p.key in s.sessions {
      GoMatched(s.(sessions := s.sessions - {p.key}, place := s.place[s.sessions[p.key] := Taken(t)]), m, t, Detached(s.sessions[p.key], p.rest));
    } else {
      GoMatched(s, m, t, Rest(t, p.rest));
    }
  }

  lemma QuietMatched(s: State, m: map<Sock, string>, a: Action)
    requires Matched(s, m) && Enabled(s, a) && (a.PumpFails? || a.Close? || a.Count? || a.Finish?)
    ensures Matched(Next(s, a), m)
  {
    match a {
      case PumpFails(x) => GoMatched(s, m, Loop(x), Dropping(At(s, Loop(x)).key, []));
      case Close(t) =>
        var p := At(s, t);
        GoMatched(s.(closes := s.closes + multiset{p.sock}, place := s.place[p.sock := Shut]), m, t, Uncounted(p.sock, p.rest));
      case Count(t) => GoMatched(s.(gauge := s.gauge - 1), m, t, Rest(t, At(s, t).rest));
      case Finish(t) => GoMatched(s, m, t, Done);
    }
  }

  lemma SweepMatched(s: State, m: map<Sock, string>, a: Action)
    requires Matched(s, m) && Enabled(s, a) && (a.Scan? || a.Load? || a.Unlock? || a.Sweep?)
    ensures Matched(Next(s, a), m)
  {
    match a {
      case Scan(cutoff, keys) => GoMatched(s, m, Reaper, Scanning(cutoff, keys, []));
      case Load => GoMatched(s, m, Reaper, Loaded(s, At(s, Reaper)));
      case Unlock => GoMatched(s, m, Reaper, Rest(Reaper, At(s, Reaper).stale));
      case Sweep(keys) => GoMatched(s, m, Closer, Rest(Closer, keys));
    }
  }

  lemma NextMatched(s: State, m: map<Sock, string>, a: Action)
    requires Matched(s, m)
    ensures Matched(Next(s, a), Grown(m, s, a))
  {
    if Enabled(s, a) {
      match a {
        case Dial(i, now) => DialMatched(s, m, i, now);
        case Insert(i) => InsertMatched(s, m, i);
        case Drop(t) => DropMatched(s, m, t);
        case Pump(_, _) =>
        case Stop =>
        case Receive(_, _) => ReaderMatched(s, m, a);
        case DialFails(_) => ReaderMatched(s, m, a);
        case CloseLost(_) => ReaderMatched(s, m, a);
        case Forward(_, _, _) => ReaderMatched(s, m, a);
        case Scan(_, _) => SweepMatched(s, m, a);
        case Load => SweepMatched(s, m, a);
        case Unlock => SweepMatched(s, m, a);
        case Sweep(_) => SweepMatched(s, m, a);
        case _ => QuietMatched(s, m, a);
      }
    }
  }

  lemma {:induction false} RunMatched(readers: nat, actions: seq<Action>)
    ensures Matched(Run(Start(readers), actions), Clients(Start(readers), actions))
  {
    if actions != [] {
      var front := actions[..|actions| - 1];
      RunMatched(readers, front);
      NextMatched(Run(Start(readers), front), Clients(Start(readers), front), actions[|actions| - 1]);
    }
  }

  /** Action number i dialled socket x for client k, who had no session. */
  ghost predicate DialsFor(readers: nat, actions: seq<Action>, i: nat, x: Sock, k: string)
    requires i < |actions|
  {
    var s := Run(Start(readers), actions[..i]);
    actions[i].Dial? && At(s, Reader(actions[i].i)) == Miss(k) && s.next == x
  }

  ghost predicate DialledFor(readers: nat, actions: seq<Action>, x: Sock, k: string) {
    exists i :: 0 <= i < |actions| && DialsFor(readers, actions, i, x, k)
  }

  lemma {:induction false} ClientsDialled(readers: nat, actions: seq<Action>, x: Sock, k: string)
    ensures For(Clients(Start(readers), actions), x, k) <==> DialledFor(readers, actions, x, k)
    decreases |actions|
  {
    if actions != [] {
      var n := |actions| - 1;
      var front := actions[..n];
      ClientsDialled(readers, front, x, k);
      RunMatched(readers, front);
      FrontDials(readers, actions, x, k);
      assert x == Run(Start(readers), front).next ==> x !in Clients(Start(readers), front);
      if DialsFor(readers, actions, n, x, k) {
        assert For(Clients(Start(readers), actions), x, k);
      }
    }
  }

  lemma FrontDials(readers: nat, actions: seq<Action>, x: Sock, k: string)
    requires actions != []
    ensures var n := |actions| - 1;
            DialledFor(readers, actions, x, k) <==> DialledFor(readers, actions[..n], x, k) || DialsFor(readers, actions, n, x, k)
  {
    var n := |actions| - 1;
    var front := actions[..n];
    forall i | 0 <= i < n ensures DialsFor(readers, actions, i, x, k) <==> DialsFor(readers, front, i, x, k) {
      assert front[..i] == actions[..i] && front[i] == actions[i];
    }
  }

  /** The socket carries the client's datagrams: a reader is about to write one to it, its read loop
      passes replies on to the client, or the table has it for the client. */
  ghost predicate Carries(s: State, x: Sock, k: string) {
    || (exists i :: At(s, Reader(i)) == Serving(k, x))
    || At(s, Loop(x)) == Pumping(k)
    || (k in s.sessions && s.sessions[k] == x)
  }

  /** In every run a reader writes a client's datagram only to a socket dialled for that client, and a
      read loop that serves a client reads from one; and a socket is dialled for one client only. */
  lemma ServesOwnClient(readers: nat, actions: seq<Action>, x: Sock, k: string)
    requires Carries(Run(Start(readers), actions), x, k)
    ensures forall c :: DialledFor(readers, actions, x, c) <==> c == k
  {
    var s, m := Run(Start(readers), actions), Clients(Start(readers), actions);
    RunMatched(readers, actions);
    forall c ensures DialledFor(readers, actions, x, c) <==> For(m, x, c) { ClientsDialled(readers, actions, x, c); }
    if i :| At(s, Reader(i)) == Serving(k, x) { assert PCMatched(s.pcs[Reader(i)], m); }
  }

  // ---- activity ----

  ghost predicate ActiveAt(s: State, x: Sock, now: int) {
    x in s.active && s.active[x] == now
  }

  /** A datagram in either direction refreshes the session it went through, and no other. */
  lemma RefreshesOwn(s: State, a: Action, y: Sock)
    requires Enabled(s, a)
    ensures var t := Next(s, a);
            match a
            case Forward(i, now, _) =>
              if y == At(s, Reader(i)).sock then ActiveAt(t, y, now) else forall z :: ActiveAt(t, y, z) <==> ActiveAt(s, y, z)
            case Pump(x, now) => if y == x then ActiveAt(t, y, now) else forall z :: ActiveAt(t, y, z) <==> ActiveAt(s, y, z)
            case Dial(_, now) => if y == s.next then ActiveAt(t, y, now) else forall z :: ActiveAt(t, y, z) <==> ActiveAt(s, y, z)
            case _ => t.active == s.active
  {
  }

  // ---- what ends a session ----

  /** The table changes only under the lock: a session enters it when a reader inserts the socket it
      dialled, and leaves it when a thread drops its client. */
  lemma TableChanges(s: State, a: Action, k: string)
    ensures k in s.sessions && k !in Next(s, a).sessions ==> a.Drop? && Enabled(s, a) && At(s, a.t).key == k
    ensures k !in s.sessions && k in Next(s, a).sessions ==>
              a.Insert? && Enabled(s, a) && At(s, Reader(a.i)) == Dialled(k, Next(s, a).sessions[k])
    ensures k in s.sessions && k in Next(s, a).sessions ==> Next(s, a).sessions[k] == s.sessions[k]
  {
  }

  /** A thread takes up dropping a client only because a write to that client's upstream failed, because
      its own read loop failed, because the reaper found the client idle, or because the program stops;
      or it goes on with the next client it had found. */
  lemma DropCauses(s: State, a: Action, t: Tid)
    requires !At(s, t).Dropping? && At(Next(s, a), t).Dropping?
    ensures var k := At(Next(s, a), t).key;
            match a
            case Forward(i, _, ok) => !ok && t == Reader(i) && At(s, t).Serving? && k == At(s, t).key
            case PumpFails(x) => t == Loop(x) && At(s, t) == Pumping(k)
            case Unlock => t == Reaper && At(s, t).Scanning? && k in At(s, t).stale
            case Sweep(keys) => t == Closer && k in s.sessions
            case Count(u) => t == u && At(s, t).Uncounted? && k in At(s, t).rest
            case _ => false
  {
  }

  /** And in these cases it does, while a write that went through ends the datagram's handling. */
  lemma DropStarts(s: State, a: Action)
    requires Enabled(s, a)
    ensures a.Forward? ==> At(Next(s, a), Reader(a.i)) == if a.ok then Idle else Dropping(At(s, Reader(a.i)).key, [])
    ensures a.PumpFails? ==> At(Next(s, a), Loop(a.sock)) == Dropping(At(s, Loop(a.sock)).key, [])
    ensures a.Unlock? ==> Queue(At(Next(s, a), Reaper)) == At(s, Reaper).stale
    ensures a.Sweep? ==> Queue(At(Next(s, a), Closer)) == a.keys
  {
  }

  /** The clients a thread is to drop. */
  function Queue(pc: PC): seq<string> {
    if pc.Dropping? then [pc.key] + pc.rest else []
  }

  // ---- one reap ----

  ghost predicate IdleAt(s: State, k: string, cutoff: int) {
    k in s.sessions && s.sessions[k] in s.active && s.active[s.sessions[k]] < cutoff
  }

  /** The reaper is still scanning after every prefix of mid. */
  ghost predicate StillScanning(s: State, mid: seq<Action>) {
    forall i :: 0 <= i <= |mid| ==> At(Run(s, mid[..i]), Reaper).Scanning?
  }

  lemma ScanStep(s: State, a: Action)
    requires At(s, Reaper).Scanning? && At(Next(s, a), Reaper).Scanning?
    ensures At(Next(s, a), Reaper) == if a.Load? && Enabled(s, a) then Loaded(s, At(s, Reaper)) else At(s, Reaper)
  {
  }

  lemma ScanStepKeeps(s: State, a: Action, k: string)
    requires At(s, Reaper).Scanning? && At(Next(s, a), Reaper).Scanning?
    ensures var p, q := At(s, Reaper), At(Next(s, a), Reaper);
            && q.cutoff == p.cutoff
            && ((k in p.todo || k in p.stale) && IdleAt(s, k, p.cutoff) ==> k in q.todo || k in q.stale)
            && (k !in p.stale && !IdleAt(s, k, p.cutoff) ==> k !in q.stale)
  {
    ScanStep(s, a);
  }

  lemma {:induction false} ScanKeeps(s: State, mid: seq<Action>, k: string, cutoff: int)
    requires At(s, Reaper).Scanning? && At(s, Reaper).cutoff == cutoff && StillScanning(s, mid)
    ensures var p := At(Run(s, mid), Reaper);
            && p.Scanning? && p.cutoff == cutoff
            && ((k in At(s, Reaper).todo && forall i :: 0 <= i <= |mid| ==> IdleAt(Run(s, mid[..i]), k, cutoff)) ==> k in p.todo || k in p.stale)
            && ((k !in At(s, Reaper).stale && forall i :: 0 <= i <= |mid| ==> !IdleAt(Run(s, mid[..i]), k, cutoff)) ==> k !in p.stale)
    decreases |mid|
  {
    assert mid[..|mid|] == mid && mid[..0] == [];
    assert At(Run(s, mid[..|mid|]), Reaper).Scanning?;
    if mid != [] {
      var n := |mid| - 1;
      var front := mid[..n];
      forall i | 0 <= i <= n ensures front[..i] == mid[..i] { }
      forall i | 0 <= i <= |front| ensures At(Run(s, front[..i]), Reaper).Scanning? { assert At(Run(s, mid[..i]), Reaper).Scanning?; }
      ScanKeeps(s, front, k, cutoff);
      ScanStepKeeps(Run(s, front), mid[n], k);
      assert IdleAt(Run(s, mid[..n]), k, cutoff) == IdleAt(Run(s, front), k, cutoff);
    }
  }

  /** One reap, from taking the lock to giving it up: a session that is idle before the cutoff all the
      while is taken up, and one that is never so is not. */
  lemma ReapExact(s: State, mid: seq<Action>, keys: seq<string>, k: string, cutoff: int)
    requires Enabled(s, Scan(cutoff, keys)) && k in s.sessions
    requires var l := Next(s, Scan(cutoff, keys)); StillScanning(l, mid) && Enabled(Run(l, mid), Unlock)
    ensures var l := Next(s, Scan(cutoff, keys));
            var taken := Queue(At(Next(Run(l, mid), Unlock), Reaper));
            && ((forall i :: 0 <= i <= |mid| ==> IdleAt(Run(l, mid[..i]), k, cutoff)) ==> k in taken)
            && ((forall i :: 0 <= i <= |mid| ==> !IdleAt(Run(l, mid[..i]), k, cutoff)) ==> k !in taken)
  {
    var l := Next(s, Scan(cutoff, keys));
    assert At(l, Reaper) == Scanning(cutoff, keys, []);
    ScanKeeps(l, mid, k, cutoff);
    DropStarts(Run(l, mid), Unlock);
  }
}
