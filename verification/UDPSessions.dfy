/** The UDP session table of one listener, as threads interleaving at lock granularity: readers
    of the frontend socket, the idle reaper, one read loop per session, and the closer that runs
    at shutdown.  A step is what a thread does between two points where others may run.  The
    program has one reader; the model admits any number, since getOrCreate is written for that. */
module UDPSessions {

  /** Upstream sockets, numbered as they are dialled. */
  type Sock = nat

  datatype Tid = Reader(i: nat) | Reaper | Closer | Loop(sock: Sock)

  datatype PC =
    | Idle
    | Miss(key: string)                               // no session found, about to dial
    | Dialled(key: string, sock: Sock)                // holds a socket not yet in the table
    | Lost(key: string, sock: Sock, other: Sock)      // another reader was first; about to close
    | Serving(key: string, sock: Sock)                // about to write to the upstream
    | Dropping(key: string, rest: seq<string>)        // inside dropSession, before the lock
    | Detached(sock: Sock, rest: seq<string>)         // removed from the table, about to close
    | Uncounted(sock: Sock, rest: seq<string>)        // closed, about to lower the gauge
    | Pumping(key: string)                            // a read loop between two reads
    | Scanning(cutoff: int, todo: seq<string>, stale: seq<string>)  // the reaper, holding the lock
    | Done

  /** Where a dialled socket is; a history variable that no step reads. */
  datatype Place = Flight(t: Tid) | Table(key: string) | Taken(t: Tid) | Shut

  datatype State = State(
    readers: nat, sessions: map<string, Sock>, next: Sock, closes: multiset<Sock>, gauge: int,
    pcs: map<Tid, PC>, active: map<Sock, int>, stopping: bool, place: map<Sock, Place>)

  datatype Action =
    | Receive(i: nat, key: string)
    | DialFails(i: nat)
    | Dial(i: nat, now: int)
    | Insert(i: nat)
    | CloseLost(i: nat)
    | Forward(i: nat, now: int, ok: bool)
    | Pump(sock: Sock, now: int)
    | PumpFails(sock: Sock)
    | Scan(cutoff: int, keys: seq<string>)
    | Load
    | Unlock
    | Drop(t: Tid)
    | Close(t: Tid)
    | Count(t: Tid)
    | Stop
    | Finish(t: Tid)
    | Sweep(keys: seq<string>)

  function Start(readers: nat): State {
    State(readers, map[], 0, multiset{}, 0, map[], map[], false, map[])
  }

  function At(s: State, t: Tid): PC {
    if t in s.pcs then s.pcs[t] else Idle
  }

  function Go(s: State, t: Tid, pc: PC): State {
    s.(pcs := s.pcs[t := pc])
  }

  function Born(s: State, i: nat, key: string, now: int): State {
    Go(s.(next := s.next + 1, active := s.active[s.next := now], place := s.place[s.next := Flight(Reader(i))]),
       Reader(i), Dialled(key, s.next))
  }

  /** The new socket enters the table, the gauge rises and its read loop starts. */
  function Adopted(s: State, i: nat, key: string, sock: Sock): State {
    Go(Tabled(s, i, key, sock), Loop(sock), Pumping(key))
  }

  function Tabled(s: State, i: nat, key: string, sock: Sock): State {
    Go(s.(sessions := s.sessions[key := sock], gauge := s.gauge + 1, place := s.place[sock := Table(key)]),
       Reader(i), Serving(key, sock))
  }

  function Removed(s: State, t: Tid, key: string, rest: seq<string>): State
    requires key in s.sessions
  {
    Go(s.(sessions := s.sessions - {key}, place := s.place[s.sessions[key] := Taken(t)]), t,
       Detached(s.sessions[key], rest))
  }

  function Closing(s: State, t: Tid, sock: Sock, pc: PC): State {
    Go(s.(closes := s.closes + multiset{sock}, place := s.place[sock := Shut]), t, pc)
  }

  /** Where a thread continues after dropSession. */
  function Rest(t: Tid, rest: seq<string>): PC {
    if rest != [] then Dropping(rest[0], rest[1..])
    else if t.Closer? || t.Loop? then Done else Idle
  }

  function Loaded(s: State, p: PC): PC
    requires p.Scanning? && p.todo != []
  {
    var k := p.todo[0];
    var idle := k in s.sessions && s.sessions[k] in s.active && s.active[s.sessions[k]] < p.cutoff;
    p.(todo := p.todo[1..], stale := if idle then p.stale + [k] else p.stale)
  }

  /** The reaper holds the lock while it looks at every session; all others hold it for one step. */
  ghost predicate Unlocked(s: State) {
    !At(s, Reaper).Scanning?
  }

  ghost predicate RunReturned(s: State) {
    (forall i :: 0 <= i < s.readers ==> At(s, Reader(i)) == Done) && At(s, Reaper) == Done
  }

  ghost predicate Enabled(s: State, a: Action) {
    match a
    case Receive(i, _) => Unlocked(s) && i < s.readers && At(s, Reader(i)) == Idle
    case DialFails(i) => At(s, Reader(i)).Miss?
    case Dial(i, _) => At(s, Reader(i)).Miss?
    case Insert(i) => Unlocked(s) && At(s, Reader(i)).Dialled?
    case CloseLost(i) => At(s, Reader(i)).Lost?
    case Forward(i, _, _) => At(s, Reader(i)).Serving?
    case Pump(sock, _) => At(s, Loop(sock)).Pumping?
    case PumpFails(sock) => At(s, Loop(sock)).Pumping?
    case Scan(_, keys) => At(s, Reaper) == Idle && forall k :: k in keys <==> k in s.sessions
    case Load => At(s, Reaper).Scanning? && At(s, Reaper).todo != []
    case Unlock => At(s, Reaper).Scanning? && At(s, Reaper).todo == []
    case Drop(t) => Unlocked(s) && At(s, t).Dropping?
    case Close(t) => At(s, t).Detached?
    case Count(t) => At(s, t).Uncounted?
    case Stop => true
    case Finish(t) => s.stopping && At(s, t) == Idle && (t.Reaper? || (t.Reader? && t.i < s.readers))
    case Sweep(keys) => RunReturned(s) && At(s, Closer) == Idle && forall k :: k in keys <==> k in s.sessions
  }

  /** One step; an action that is not enabled changes nothing. */
  ghost function Next(s: State, a: Action): State {
    if !Enabled(s, a) then s else
    match a
    case Receive(i, key) =>
      Go(s, Reader(i), if key in s.sessions then Serving(key, s.sessions[key]) else Miss(key))
    case DialFails(i) => Go(s, Reader(i), Idle)
    case Dial(i, now) => Born(s, i, At(s, Reader(i)).key, now)
    case Insert(i) =>
      var key, sock := At(s, Reader(i)).key, At(s, Reader(i)).sock;
      if key in s.sessions then Go(s, Reader(i), Lost(key, sock, s.sessions[key]))
      else Adopted(s, i, key, sock)
    case CloseLost(i) =>
      var p := At(s, Reader(i));
      Closing(s, Reader(i), p.sock, Serving(p.key, p.other))
    case Forward(i, now, ok) =>
      var p := At(s, Reader(i));
      Go(s.(active := s.active[p.sock := now]), Reader(i), if ok then Idle else Dropping(p.key, []))
    case Pump(sock, now) => s.(active := s.active[sock := now])
    case PumpFails(sock) => Go(s, Loop(sock), Dropping(At(s, Loop(sock)).key, []))
    case Scan(cutoff, keys) => Go(s, Reaper, Scanning(cutoff, keys, []))
    case Load => Go(s, Reaper, Loaded(s, At(s, Reaper)))
    case Unlock => Go(s, Reaper, Rest(Reaper, At(s, Reaper).stale))
    case Drop(t) =>
      var p := At(s, t);
      if p.key in s.sessions then Removed(s, t, p.key, p.rest) else Go(s, t, Rest(t, p.rest))
    case Close(t) =>
      var p := At(s, t);
      Closing(s, t, p.sock, Uncounted(p.sock, p.rest))
    case Count(t) => Go(s.(gauge := s.gauge - 1), t, Rest(t, At(s, t).rest))
    case Stop => s.(stopping := true)
    case Finish(t) => Go(s, t, Done)
    case Sweep(keys) => Go(s, Closer, Rest(Closer, keys))
  }

  ghost function Run(s: State, actions: seq<Action>): State {
    if actions == [] then s else Next(Run(s, actions[..|actions| - 1]), actions[|actions| - 1])
  }

  // ---- the invariant ----

  predicate InHand(pc: PC) {
    pc.Dialled? || pc.Lost?
  }

  predicate Owing(pc: PC) {
    pc.Detached? || pc.Uncounted?
  }

  /** Threads that took a session out of the table and have not lowered the gauge for it. */
  function Pending(pcs: map<Tid, PC>): set<Tid> {
    set t | t in pcs && Owing(pcs[t])
  }

  /** The table and the threads agree with the places, both ways. */
  ghost predicate Placed(s: State) {
    && (forall x: Sock :: x in s.place <==> x < s.next)
    && (forall k :: k in s.sessions ==> s.sessions[k] in s.place && s.place[s.sessions[k]] == Table(k))
    && (forall t :: t in s.pcs && InHand(s.pcs[t]) ==> s.pcs[t].sock in s.place && s.place[s.pcs[t].sock] == Flight(t))
    && (forall t :: t in s.pcs && s.pcs[t].Detached? ==> s.pcs[t].sock in s.place && s.place[s.pcs[t].sock] == Taken(t))
  }

  ghost predicate PlacesMeant(s: State) {
    forall x :: x in s.place ==>
      match s.place[x]
      case Flight(t) => t in s.pcs && InHand(s.pcs[t]) && s.pcs[t].sock == x
      case Table(k) => k in s.sessions && s.sessions[k] == x
      case Taken(t) => t in s.pcs && s.pcs[t].Detached? && s.pcs[t].sock == x
      case Shut => true
  }

  ghost predicate Closed(s: State) {
    forall x: Sock :: s.closes[x] == if x in s.place && s.place[x] == Shut then 1 else 0
  }

  /** A read loop exists only for a socket that reached the table; only readers dial. */
  ghost predicate Threads(s: State) {
    && (forall x: Sock :: Loop(x) in s.pcs ==> x in s.place && !s.place[x].Flight?)
    && (forall t :: t in s.pcs && (s.pcs[t].Miss? || InHand(s.pcs[t])) ==> t.Reader?)
    && (forall i: nat :: Reader(i) in s.pcs ==> i < s.readers)
  }

  ghost predicate Gauged(s: State) {
    s.gauge == |s.sessions| + |Pending(s.pcs)|
  }

  ghost predicate Inv(s: State) {
    Placed(s) && PlacesMeant(s) && Closed(s) && Threads(s)
  }

  /** A thread moves without touching the table or any socket. */
  lemma MoveInv(s: State, t: Tid, pc: PC)
    requires Inv(s)
    requires !InHand(At(s, t)) && !InHand(pc) && !At(s, t).Detached? && !pc.Detached?
    requires pc.Miss? ==> t.Reader?
    requires t.Reader? ==> t.i < s.readers
    requires t.Loop? ==> t in s.pcs
    ensures Inv(Go(s, t, pc))
  {
  }

  lemma LoseInv(s: State, i: nat, key: string, sock: Sock, other: Sock)
    requires Inv(s) && At(s, Reader(i)) == Dialled(key, sock)
    ensures Inv(Go(s, Reader(i), Lost(key, sock, other)))
  {
  }

  lemma BornInv(s: State, i: nat, key: string, now: int)
    requires Inv(s) && At(s, Reader(i)).Miss?
    ensures Inv(Born(s, i, key, now))
  {
  }

  lemma TabledPlaced(s: State, i: nat, key: string, sock: Sock)
    requires Inv(s) && At(s, Reader(i)) == Dialled(key, sock) && key !in s.sessions
    ensures Placed(Tabled(s, i, key, sock))
  {
  }

  lemma TabledInv(s: State, i: nat, key: string, sock: Sock)
    requires Inv(s) && At(s, Reader(i)) == Dialled(key, sock) && key !in s.sessions
    ensures Inv(Tabled(s, i, key, sock))
    ensures Loop(sock) !in s.pcs
  {
    TabledPlaced(s, i, key, sock);
    assert s.place[sock] == Flight(Reader(i));
  }

  lemma AdoptedInv(s: State, i: nat, key: string, sock: Sock)
    requires Inv(s) && At(s, Reader(i)) == Dialled(key, sock) && key !in s.sessions
    ensures Inv(Adopted(s, i, key, sock))
  {
    TabledInv(s, i, key, sock);
  }

  lemma RemovedPlaced(s: State, t: Tid, key: string, rest: seq<string>)
    requires Inv(s) && At(s, t).Dropping? && key in s.sessions
    ensures Placed(Removed(s, t, key, rest))
  {
    assert s.place[s.sessions[key]] == Table(key);
  }

  lemma RemovedInv(s: State, t: Tid, key: string, rest: seq<string>)
    requires Inv(s) && At(s, t).Dropping? && key in s.sessions
    ensures Inv(Removed(s, t, key, rest))
  {
    RemovedPlaced(s, t, key, rest);
    assert s.place[s.sessions[key]] == Table(key);
  }

  lemma ClosingInv(s: State, t: Tid, sock: Sock, pc: PC)
    requires Inv(s) && (At(s, t).Lost? || At(s, t).Detached?) && At(s, t).sock == sock
    requires !InHand(pc) && !pc.Detached? && !pc.Miss?
    ensures Inv(Closing(s, t, sock, pc))
  {
    assert s.place[sock] == Flight(t) || s.place[sock] == Taken(t);
  }

  lemma ReaderInv(s: State, a: Action)
    requires Inv(s) && Enabled(s, a)
    requires a.Receive? || a.DialFails? || a.Dial? || a.Insert? || a.CloseLost? || a.Forward?
    ensures Inv(Next(s, a))
  {
    var p := At(s, Reader(a.i));
    match a {
      case Receive(i, key) => MoveInv(s, Reader(i), if key in s.sessions then Serving(key, s.sessions[key]) else Miss(key));
      case DialFails(i) => MoveInv(s, Reader(i), Idle);
      case Dial(i, now) => BornInv(s, i, p.key, now);
      case Insert(i) =>
        if p.key in s.sessions { LoseInv(s, i, p.key, p.sock, s.sessions[p.key]); } else { AdoptedInv(s, i, p.key, p.sock); }
      case CloseLost(i) => ClosingInv(s, Reader(i), p.sock, Serving(p.key, p.other));
      case Forward(i, now, ok) =>
        MoveInv(s.(active := s.active[p.sock := now]), Reader(i), if ok then Idle else Dropping(p.key, []));
    }
  }

  lemma DropInv(s: State, t: Tid)
    requires Inv(s) && At(s, t).Dropping?
    ensures Inv(Next(s, Drop(t)))
  {
    var p := At(s, t);
    if p.key in s.sessions { RemovedInv(s, t, p.key, p.rest); } else { MoveInv(s, t, Rest(t, p.rest)); }
  }

  lemma BackgroundInv(s: State, a: Action)
    requires Inv(s) && Enabled(s, a)
    requires a.PumpFails? || a.Count? || a.Finish?
    ensures Inv(Next(s, a))
  {
    match a {
      case PumpFails(sock) => MoveInv(s, Loop(sock), Dropping(At(s, Loop(sock)).key, []));
      case Count(t) => MoveInv(s.(gauge := s.gauge - 1), t, Rest(t, At(s, t).rest));
      case Finish(t) => MoveInv(s, t, Done);
    }
  }

  lemma SweepInv(s: State, a: Action)
    requires Inv(s) && Enabled(s, a) && (a.Scan? || a.Load? || a.Unlock? || a.Sweep?)
    ensures Inv(Next(s, a))
  {
    match a {
      case Scan(cutoff, keys) => MoveInv(s, Reaper, Scanning(cutoff, keys, []));
      case Load => MoveInv(s, Reaper, Loaded(s, At(s, Reaper)));
      case Unlock => MoveInv(s, Reaper, Rest(Reaper, At(s, Reaper).stale));
      case Sweep(keys) => MoveInv(s, Closer, Rest(Closer, keys));
    }
  }

  lemma CloseInv(s: State, t: Tid)
    requires Inv(s) && At(s, t).Detached?
    ensures Inv(Next(s, Close(t)))
  {
    ClosingInv(s, t, At(s, t).sock, Uncounted(At(s, t).sock, At(s, t).rest));
  }

  lemma NextInv(s: State, a: Action)
    requires Inv(s)
    ensures Inv(Next(s, a))
  {
    if Enabled(s, a) {
      match a {
        case Pump(_, _) =>
        case Stop =>
        case Drop(t) => DropInv(s, t);
        case Close(t) => CloseInv(s, t);
        case PumpFails(_) => BackgroundInv(s, a);
        case Scan(_, _) => SweepInv(s, a);
        case Load => SweepInv(s, a);
        case Unlock => SweepInv(s, a);
        case Count(_) => BackgroundInv(s, a);
        case Finish(_) => BackgroundInv(s, a);
        case Sweep(_) => SweepInv(s, a);
        case _ => ReaderInv(s, a);
      }
    }
  }

  /** While the reaper looks for idle sessions nobody changes the table, though activity goes on. */
  lemma ScanFreezes(s: State, a: Action)
    requires At(s, Reaper).Scanning?
    ensures Next(s, a).sessions == s.sessions
  {
  }
}
