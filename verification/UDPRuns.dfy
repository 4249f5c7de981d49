/** Conservation of sockets and of the session gauge over every interleaving, and what shutdown
    guarantees. */
module UDPRuns {
  import opened UDPSessions

  lemma {:induction false} RunInv(readers: nat, actions: seq<Action>)
    ensures Inv(Run(Start(readers), actions))
  {
    if actions != [] {
      RunInv(readers, actions[..|actions| - 1]);
      NextInv(Run(Start(readers), actions[..|actions| - 1]), actions[|actions| - 1]);
    }
  }

  // ---- sockets ----

  ghost predicate HeldInFlight(s: State, x: Sock, t: Tid) {
    t in s.pcs && InHand(s.pcs[t]) && s.pcs[t].sock == x
  }

  ghost predicate MappedAt(s: State, x: Sock, k: string) {
    k in s.sessions && s.sessions[k] == x
  }

  ghost predicate AwaitsClose(s: State, x: Sock, t: Tid) {
    t in s.pcs && s.pcs[t].Detached? && s.pcs[t].sock == x
  }

  ghost predicate InFlight(s: State, x: Sock) { exists t :: HeldInFlight(s, x, t) }

  ghost predicate Mapped(s: State, x: Sock) { exists k :: MappedAt(s, x, k) }

  ghost predicate Awaiting(s: State, x: Sock) { exists t :: AwaitsClose(s, x, t) }

  /** Socket conservation: under every interleaving each dialled socket is in exactly one of four
      places - held by the one thread that dialled it, in the table under one key, taken out by
      one thread that is about to close it, or closed - and none is ever closed twice. */
  lemma SocketConservation(readers: nat, actions: seq<Action>, x: Sock)
    ensures var s := Run(Start(readers), actions);
            && s.closes[x] <= 1
            && (x >= s.next ==> s.closes[x] == 0 && !InFlight(s, x) && !Mapped(s, x) && !Awaiting(s, x))
            && (x < s.next ==>
                 && (InFlight(s, x) || Mapped(s, x) || Awaiting(s, x) || s.closes[x] == 1)
                 && !(InFlight(s, x) && Mapped(s, x)) && !(InFlight(s, x) && Awaiting(s, x)) && !(Mapped(s, x) && Awaiting(s, x))
                 && (s.closes[x] == 1 ==> !InFlight(s, x) && !Mapped(s, x) && !Awaiting(s, x)))
            && (forall t, u :: HeldInFlight(s, x, t) && HeldInFlight(s, x, u) ==> t == u)
            && (forall k, l :: MappedAt(s, x, k) && MappedAt(s, x, l) ==> k == l)
            && (forall t, u :: AwaitsClose(s, x, t) && AwaitsClose(s, x, u) ==> t == u)
  {
    RunInv(readers, actions);
    var s := Run(Start(readers), actions);
    if x < s.next {
      match s.place[x] {
        case Flight(t) => assert HeldInFlight(s, x, t);
        case Table(k) => assert MappedAt(s, x, k);
        case Taken(t) => assert AwaitsClose(s, x, t);
        case Shut =>
      }
    }
  }

  // ---- the gauge ----

  lemma PendingUpdate(pcs: map<Tid, PC>, t: Tid, pc: PC)
    ensures |Pending(pcs[t := pc])| == |Pending(pcs)|
             + (if Owing(pc) && t !in Pending(pcs) then 1 else 0)
             - (if !Owing(pc) && t in Pending(pcs) then 1 else 0)
  {
    assert Pending(pcs[t := pc]) == if Owing(pc) then Pending(pcs) + {t} else Pending(pcs) - {t};
  }

  /** A thread that owes nothing before or after a move changes no count. */
  lemma MoveGauged(s: State, t: Tid, pc: PC)
    requires Gauged(s) && !Owing(pc) && !Owing(At(s, t))
    ensures Gauged(Go(s, t, pc))
  {
    PendingUpdate(s.pcs, t, pc);
  }

  lemma AdoptedGauged(s: State, i: nat, key: string, sock: Sock)
    requires Inv(s) && Gauged(s) && At(s, Reader(i)) == Dialled(key, sock) && key !in s.sessions
    ensures Gauged(Adopted(s, i, key, sock))
  {
    TabledInv(s, i, key, sock);
    PendingUpdate(s.pcs, Reader(i), Serving(key, sock));
    PendingUpdate(s.pcs[Reader(i) := Serving(key, sock)], Loop(sock), Pumping(key));
  }

  lemma InsertGauged(s: State, i: nat)
    requires Inv(s) && Gauged(s) && Enabled(s, Insert(i))
    ensures Gauged(Next(s, Insert(i)))
  {
    var p := At(s, Reader(i));
    if p.key in s.sessions {
      MoveGauged(s, Reader(i), Lost(p.key, p.sock, s.sessions[p.key]));
    } else {
      AdoptedGauged(s, i, p.key, p.sock);
    }
  }

  lemma ReaderGauged(s: State, a: Action)
    requires Inv(s) && Gauged(s) && Enabled(s, a)
    requires a.Receive? || a.DialFails? || a.Dial? || a.CloseLost? || a.Forward?
    ensures Gauged(Next(s, a))
  {
    var p := At(s, Reader(a.i));
    match a {
      case Receive(i, key) => MoveGauged(s, Reader(i), if key in s.sessions then Serving(key, s.sessions[key]) else Miss(key));
      case DialFails(i) => MoveGauged(s, Reader(i), Idle);
      case Dial(i, now) => PendingUpdate(s.pcs, Reader(i), Dialled(p.key, s.next));
      case CloseLost(i) => PendingUpdate(s.pcs, Reader(i), Serving(p.key, p.other));
      case Forward(i, now, ok) => PendingUpdate(s.pcs, Reader(i), if ok then Idle else Dropping(p.key, []));
    }
  }

  lemma DropGauged(s: State, t: Tid)
    requires Gauged(s) && At(s, t).Dropping?
    ensures Gauged(Next(s, Drop(t)))
  {
    var p := At(s, t);
    if p.key in s.sessions {
      assert (s.sessions - {p.key}).Keys == s.sessions.Keys - {p.key};
      PendingUpdate(s.pcs, t, Detached(s.sessions[p.key], p.rest));
    } else {
      MoveGauged(s, t, Rest(t, p.rest));
    }
  }

  lemma NextGauged(s: State, a: Action)
    requires Inv(s) && Gauged(s)
    ensures Gauged(Next(s, a))
  {
    if Enabled(s, a) {
      match a {
        case Pump(_, _) =>
        case Stop =>
        case PumpFails(sock) => MoveGauged(s, Loop(sock), Dropping(At(s, Loop(sock)).key, []));
        case Scan(cutoff, keys) => MoveGauged(s, Reaper, Scanning(cutoff, keys, []));
        case Load => MoveGauged(s, Reaper, Loaded(s, At(s, Reaper)));
        case Unlock => MoveGauged(s, Reaper, Rest(Reaper, At(s, Reaper).stale));
        case Drop(t) => DropGauged(s, t);
        case Close(t) => PendingUpdate(s.pcs, t, Uncounted(At(s, t).sock, At(s, t).rest));
        case Count(t) => PendingUpdate(s.pcs, t, Rest(t, At(s, t).rest));
        case Finish(t) => MoveGauged(s, t, Done);
        case Sweep(keys) => MoveGauged(s, Closer, Rest(Closer, keys));
        case Insert(i) => InsertGauged(s, i);
        case _ => ReaderGauged(s, a);
      }
    }
  }

  /** Gauge conservation: under every interleaving the gauge is the number of sessions in the
      table plus the number of threads that took one out and have yet to lower the gauge. */
  lemma {:induction false} GaugeConservation(readers: nat, actions: seq<Action>)
    ensures var s := Run(Start(readers), actions); s.gauge == |s.sessions| + |Pending(s.pcs)|
  {
    if actions != [] {
      var front := actions[..|actions| - 1];
      GaugeConservation(readers, front);
      RunInv(readers, front);
      NextGauged(Run(Start(readers), front), actions[|actions| - 1]);
    }
  }

  // ---- shutdown ----

  /** The keys the closer still has to drop. */
  function Remaining(pc: PC): seq<string> {
    match pc
    case Dropping(k, rest) => [k] + rest
    case Detached(_, rest) => rest
    case Uncounted(_, rest) => rest
    case _ => []
  }

  ghost predicate Shutting(s: State) {
    At(s, Closer) != Idle ==>
      RunReturned(s) && forall k :: k in s.sessions ==> k in Remaining(At(s, Closer))
  }

  /** A finished reader, reaper or closer never moves again. */
  lemma DoneKeeps(s: State, a: Action, t: Tid)
    requires At(s, t) == Done && !t.Loop?
    ensures At(Next(s, a), t) == Done
  {
  }

  lemma ReturnedKeeps(s: State, a: Action)
    requires RunReturned(s)
    ensures RunReturned(Next(s, a))
  {
    var r := Next(s, a);
    assert r.readers == s.readers;
    forall i: nat | i < s.readers ensures At(r, Reader(i)) == Done { DoneKeeps(s, a, Reader(i)); }
    DoneKeeps(s, a, Reaper);
  }

  lemma NoNewSessions(s: State, a: Action)
    requires Inv(s) && RunReturned(s)
    ensures forall k :: k in Next(s, a).sessions ==> k in s.sessions
  {
    assert forall i: nat :: Reader(i) in s.pcs ==> At(s, Reader(i)) == Done;
  }

  lemma RestRemains(t: Tid, rest: seq<string>)
    ensures Remaining(Rest(t, rest)) == rest
  {
  }

  lemma CloserKeeps(s: State, a: Action)
    requires At(s, Closer) != Idle && a != Drop(Closer) && a != Count(Closer)
    ensures At(Next(s, a), Closer) != Idle
    ensures Remaining(At(Next(s, a), Closer)) == Remaining(At(s, Closer))
  {
  }

  lemma CloserDrops(s: State)
    requires Unlocked(s) && At(s, Closer).Dropping?
    ensures var r := Next(s, Drop(Closer));
            && At(r, Closer) != Idle
            && r.sessions == s.sessions - {At(s, Closer).key}
            && Remaining(At(r, Closer)) == At(s, Closer).rest
  {
    RestRemains(Closer, At(s, Closer).rest);
  }

  lemma NextShutting(s: State, a: Action)
    requires Inv(s) && Shutting(s)
    ensures Shutting(Next(s, a))
  {
    if At(s, Closer) != Idle {
      ReturnedKeeps(s, a);
      NoNewSessions(s, a);
      if a == Drop(Closer) && Enabled(s, a) {
        CloserDrops(s);
      } else if a == Count(Closer) && Enabled(s, a) {
        RestRemains(Closer, At(s, Closer).rest);
      } else if Enabled(s, a) {
        CloserKeeps(s, a);
      }
    } else {
      SweepStarts(s, a);
    }
  }

  lemma SweepStarts(s: State, a: Action)
    requires Inv(s) && At(s, Closer) == Idle
    ensures Shutting(Next(s, a))
  {
    if Enabled(s, a) && a.Sweep? {
      RestRemains(Closer, a.keys);
      ReturnedKeeps(s, a);
    }
  }

  lemma {:induction false} RunShutting(readers: nat, actions: seq<Action>)
    ensures Shutting(Run(Start(readers), actions))
  {
    if actions != [] {
      var front := actions[..|actions| - 1];
      RunShutting(readers, front);
      RunInv(readers, front);
      NextShutting(Run(Start(readers), front), actions[|actions| - 1]);
    }
  }

  lemma {:induction false} DoneStays(s: State, actions: seq<Action>)
    requires At(s, Closer) == Done
    ensures At(Run(s, actions), Closer) == Done
  {
    if actions != [] {
      DoneStays(s, actions[..|actions| - 1]);
      DoneKeeps(Run(s, actions[..|actions| - 1]), actions[|actions| - 1], Closer);
    }
  }

  lemma {:induction false} RunConcat(s: State, a: seq<Action>, b: seq<Action>)
    ensures Run(s, a + b) == Run(Run(s, a), b)
    decreases |b|
  {
    if b == [] {
      assert a + b == a;
    } else {
      assert (a + b)[..|a + b| - 1] == a + b[..|b| - 1];
      RunConcat(s, a, b[..|b| - 1]);
    }
  }

  /** Shutdown: once closeAllSessions has returned, the table is empty and stays empty whatever
      else runs, and every socket ever dialled is closed or in the hands of one read loop that
      has removed it from the table and whose next step closes it. */
  lemma Shutdown(readers: nat, actions: seq<Action>, later: seq<Action>, x: Sock)
    requires At(Run(Start(readers), actions), Closer) == Done
    ensures var s := Run(Start(readers), actions + later);
            && s.sessions == map[]
            && (x < s.next ==> s.closes[x] == 1 || exists y: Sock :: AwaitsClose(s, x, Loop(y)))
  {
    RunConcat(Start(readers), actions, later);
    DoneStays(Run(Start(readers), actions), later);
    var s := Run(Start(readers), actions + later);
    RunShutting(readers, actions + later);
    RunInv(readers, actions + later);
    assert s.sessions.Keys == {};
    assert forall i: nat :: Reader(i) in s.pcs ==> At(s, Reader(i)) == Done;
    if x < s.next && s.place[x] != Shut {
      var t := s.place[x].t;
      assert t in s.pcs && s.pcs[t] != Done;
      assert t.Loop?;
      assert AwaitsClose(s, x, Loop(t.sock));
    }
  }

  // ---- one reader ----

  ghost predicate NoRace(s: State) {
    var p := At(s, Reader(0));
    s.readers == 1 ==> !p.Lost? && ((p.Miss? || p.Dialled?) ==> p.key !in s.sessions)
  }

  /** How the reader can come to look for, dial for, or lose a key. */
  lemma ReaderZero(s: State, a: Action)
    ensures var p, q := At(s, Reader(0)), At(Next(s, a), Reader(0));
            || q == p
            || !(q.Miss? || q.Dialled? || q.Lost?)
            || (a.Receive? && q.Miss? && q.key !in s.sessions)
            || (a.Dial? && p.Miss? && q.Dialled? && q.key == p.key)
            || (a.Insert? && p.Dialled? && q.Lost? && p.key in s.sessions)
  {
  }

  lemma NextNoRace(s: State, a: Action)
    requires Inv(s) && NoRace(s) && s.readers == 1
    ensures NoRace(Next(s, a))
  {
    SameReaders(s, a);
    ReaderZero(s, a);
    if a.Insert? {
      InsertZero(s, a.i);
    } else {
      OnlyInsertAdds(s, a);
    }
  }

  lemma InsertZero(s: State, i: nat)
    requires Inv(s) && NoRace(s) && s.readers == 1
    ensures NoRace(Next(s, Insert(i)))
  {
    assert forall i: nat :: Reader(i) in s.pcs ==> i == 0;
  }

  lemma OnlyInsertAdds(s: State, a: Action)
    requires !a.Insert?
    ensures forall k :: k in Next(s, a).sessions ==> k in s.sessions
  {
  }

  /** With the single reader the program has, the "lost the race" branch is never taken. */
  lemma {:induction false} LostIsUnreachable(actions: seq<Action>)
    ensures NoRace(Run(Start(1), actions))
    ensures forall t :: !At(Run(Start(1), actions), t).Lost?
  {
    RunInv(1, actions);
    RunReaders(1, actions);
    if actions != [] {
      var front := actions[..|actions| - 1];
      LostIsUnreachable(front);
      RunInv(1, front);
      RunReaders(1, front);
      NextNoRace(Run(Start(1), front), actions[|actions| - 1]);
    }
    OnlyReaderZero(Run(Start(1), actions));
  }

  lemma OnlyReaderZero(s: State)
    requires Inv(s) && s.readers == 1 && NoRace(s)
    ensures forall t :: !At(s, t).Lost?
  {
    assert forall i: nat :: Reader(i) in s.pcs ==> i == 0;
    assert forall t :: At(s, t).Lost? ==> t.Reader? && t in s.pcs;
  }

  lemma SameReaders(s: State, a: Action)
    ensures Next(s, a).readers == s.readers
  {
  }

  lemma {:induction false} RunReaders(readers: nat, actions: seq<Action>)
    ensures Run(Start(readers), actions).readers == readers
  {
    if actions != [] {
      RunReaders(readers, actions[..|actions| - 1]);
      SameReaders(Run(Start(readers), actions[..|actions| - 1]), actions[|actions| - 1]);
    }
  }

  // ---- a session dropped by another one's read loop ----

  /** The reader is about to write to the session of `key`, whose read loop is waiting. */
  ghost predicate Talking(s: State, key: string, x: Sock) {
    && s.readers >= 1 && Unlocked(s) && MappedAt(s, x, key)
    && At(s, Reader(0)) == Serving(key, x) && At(s, Loop(x)) == Pumping(key)
  }

  /** A datagram from an unknown client: look up, dial, insert. */
  ghost function Opened(s: State, key: string, now: int): State {
    Next(Next(Next(s, Receive(0, key)), Dial(0, now)), Insert(0))
  }

  /** A write that fails: drop, close, lower the gauge. */
  ghost function Failed(s: State, now: int): State {
    Next(Next(Next(Next(s, Forward(0, now, false)), Drop(Reader(0))), Close(Reader(0))), Count(Reader(0)))
  }

  /** The first session's loop fails on its closed socket and drops by client address. */
  ghost function Woken(s: State, x: Sock): State {
    Next(Next(s, PumpFails(x)), Drop(Loop(x)))
  }

  lemma OpenedState(s: State, key: string, now: int)
    requires s.readers >= 1 && Unlocked(s) && At(s, Reader(0)) == Idle && key !in s.sessions
    ensures Opened(s, key, now) == Adopted(Born(Go(s, Reader(0), Miss(key)), 0, key, now), 0, key, s.next)
  {
    var s1 := Go(s, Reader(0), Miss(key));
    var s2 := Born(s1, 0, key, now);
    assert Next(s, Receive(0, key)) == s1;
    assert Next(s1, Dial(0, now)) == s2;
    assert Next(s2, Insert(0)) == Adopted(s2, 0, key, s.next);
  }

  lemma OpenedTalks(s: State, key: string, now: int)
    requires s.readers >= 1 && Unlocked(s) && At(s, Reader(0)) == Idle && key !in s.sessions
    ensures Talking(Opened(s, key, now), key, s.next)
    ensures Opened(s, key, now).next == s.next + 1
    ensures forall x: Sock :: x != s.next ==> At(Opened(s, key, now), Loop(x)) == At(s, Loop(x))
  {
    OpenedState(s, key, now);
  }

  lemma FailedState(s: State, key: string, x: Sock, now: int)
    requires Talking(s, key, x)
    ensures var r := Failed(s, now);
            && r.readers >= 1 && Unlocked(r) && At(r, Reader(0)) == Idle && key !in r.sessions
            && At(r, Loop(x)) == Pumping(key) && r.next == s.next
  {
    var s1 := Go(s.(active := s.active[x := now]), Reader(0), Dropping(key, []));
    var s2 := Removed(s1, Reader(0), key, []);
    var s3 := Closing(s2, Reader(0), x, Uncounted(x, []));
    assert Next(s, Forward(0, now, false)) == s1;
    assert Next(s1, Drop(Reader(0))) == s2;
    assert Next(s2, Close(Reader(0))) == s3;
    assert Next(s3, Count(Reader(0))) == Go(s3.(gauge := s3.gauge - 1), Reader(0), Idle);
  }

  lemma WokenState(s: State, key: string, x: Sock, y: Sock)
    requires Unlocked(s) && MappedAt(s, y, key) && At(s, Loop(x)) == Pumping(key)
    ensures key !in Woken(s, x).sessions && AwaitsClose(Woken(s, x), y, Loop(x))
  {
    var s1 := Go(s, Loop(x), Dropping(key, []));
    assert Next(s, PumpFails(x)) == s1;
    assert Next(s1, Drop(Loop(x))) == Removed(s1, Loop(x), key, []);
  }

  /** A read loop drops by client address, not by session: when a client's session is dropped
      and the client at once opens another, the first session's read loop, woken by its closed
      socket, takes the second session out of the table.  This is so for every client. */
  lemma LoopDropsSuccessor(key: string)
    ensures var s := Opened(Failed(Opened(Start(1), key, 0), 1), key, 2);
            Talking(s, key, 1) && key !in Woken(s, 0).sessions && AwaitsClose(Woken(s, 0), 1, Loop(0))
  {
    var s0 := Start(1);
    OpenedTalks(s0, key, 0);
    var s1 := Opened(s0, key, 0);
    FailedState(s1, key, 0, 1);
    var s2 := Failed(s1, 1);
    OpenedTalks(s2, key, 2);
    WokenState(Opened(s2, key, 2), key, 0, 1);
  }

  lemma DropOwn(s: State, x: Sock)
    requires Inv(s) && Enabled(s, Drop(Loop(x)))
    ensures AwaitsClose(Next(s, Drop(Loop(x))), x, Loop(x)) <==> MappedAt(s, x, At(s, Loop(x)).key)
  {
    var p := At(s, Loop(x));
    if p.key in s.sessions { assert Next(s, Drop(Loop(x))) == Removed(s, Loop(x), p.key, p.rest); }
  }

  /** A read loop's drop takes out its own session if and only if the table still maps its
      client to its socket. */
  lemma LoopDropsOwn(readers: nat, actions: seq<Action>, x: Sock)
    ensures var s := Run(Start(readers), actions);
            Enabled(s, Drop(Loop(x))) ==>
              (AwaitsClose(Next(s, Drop(Loop(x))), x, Loop(x)) <==> MappedAt(s, x, At(s, Loop(x)).key))
  {
    RunInv(readers, actions);
    var s := Run(Start(readers), actions);
    if Enabled(s, Drop(Loop(x))) { DropOwn(s, x); }
  }
}
