/** The firewalld backend.  It shares a zone with a human operator, remembers in a state file
    which ports it opened itself, and saves that file only after all zone calls went through.

    Every external call may fail without effect, and the operator may edit the zone before any
    call, also in the middle of an Apply.  `Turn` says what happens around one call. */
module Firewalld {
  import opened Ports

  datatype Cmd = Add(key: PortKey) | Remove(key: PortKey) | Save(keys: seq<PortKey>)

  /** What the world does around one external call: the operator's edit, then the answer. */
  datatype Turn = Turn(opens: set<PortKey>, closes: set<PortKey>, fails: bool)

  /** The turns of one Apply, by call number. */
  type Env = nat -> Turn

  /** `log` lists the commands that took effect; `outside` is the zone as it would be had only
      the operator touched it. */
  datatype State = State(zone: set<PortKey>, store: seq<PortKey>, log: seq<Cmd>, outside: set<PortKey>)

  function Edited(s: State, t: Turn): State {
    s.(zone := s.zone - t.closes + t.opens, outside := s.outside - t.closes + t.opens)
  }

  function Perform(s: State, c: Cmd): State {
    var t := s.(log := s.log + [c]);
    match c
    case Add(k) => t.(zone := s.zone + {k})
    case Remove(k) => t.(zone := s.zone - {k})
    case Save(ks) => t.(store := ks)
  }

  function Exec(s: State, cmds: seq<Cmd>, env: Env, k: nat): (State, bool)
    decreases |cmds|
  {
    if cmds == [] then (s, true) else
      var e := Edited(s, env(k));
      if env(k).fails then (e, false) else Exec(Perform(e, cmds[0]), cmds[1..], env, k + 1)
  }

  function Adds(keys: seq<PortKey>): seq<Cmd> {
    seq(|keys|, i requires 0 <= i < |keys| => Add(keys[i]))
  }

  function Removes(keys: seq<PortKey>): seq<Cmd> {
    seq(|keys|, i requires 0 <= i < |keys| => Remove(keys[i]))
  }

  function ToAdd(current: set<PortKey>, desired: seq<PortSpec>): seq<PortKey> {
    Keys(Diff(desired, current))
  }

  function ToRemove(store: seq<PortKey>, current: set<PortKey>, desired: seq<PortSpec>): seq<PortKey> {
    Keys(Diff(Intersect(Specs(store), current), KeySet(desired)))
  }

  function NextStore(store: seq<PortKey>, current: set<PortKey>, desired: seq<PortSpec>): seq<PortKey> {
    Keys(NextManaged(Specs(store), KeySet(desired), current, Diff(desired, current)))
  }

  /** The commands Apply decides on once it has read the state file and the zone. */
  function Plan(store: seq<PortKey>, current: set<PortKey>, desired: seq<PortSpec>): seq<Cmd> {
    Adds(ToAdd(current, desired)) + Removes(ToRemove(store, current, desired))
    + [Save(NextStore(store, current, desired))]
  }

  /** Apply as a function: calls 0 and 1 read the state file and the zone. */
  function ApplyRun(s: State, desired: seq<PortSpec>, env: Env): (State, bool) {
    var s0 := Edited(s, env(0));
    if env(0).fails then (s0, false) else
    var s1 := Edited(s0, env(1));
    if env(1).fails then (s1, false) else
    Exec(s1, Plan(s1.store, s1.zone, desired), env, 2)
  }

  class FirewalldBackend {
    var zone: set<PortKey>
    var store: seq<PortKey>
    ghost var log: seq<Cmd>
    ghost var outside: set<PortKey>

    ghost function Now(): State
      reads this
    {
      State(zone, store, log, outside)
    }

    constructor (zone0: set<PortKey>)
      ensures Now() == State(zone0, [], [], zone0)
    {
      zone, store, log, outside := zone0, [], [], zone0;
    }

    /** The operator's move before call k. */
    method Interfere(env: Env, k: nat) returns (ok: bool)
      modifies this
      ensures Now() == Edited(old(Now()), env(k)) && ok == !env(k).fails
    {
      zone := zone - env(k).closes + env(k).opens;
      outside := outside - env(k).closes + env(k).opens;
      ok := !env(k).fails;
    }

    method GetPorts() returns (ports: seq<PortSpec>)
      ensures KeySet(ports) == zone
    {
      ports := [];
      var rest := zone;
      while rest != {}
        invariant rest <= zone && KeySet(ports) == zone - rest
        decreases |rest|
      {
        var k :| k in rest;
        KeySetConcat(ports, [Spec(k)]);
        KeySetOne(Spec(k));
        ports := ports + [Spec(k)];
        rest := rest - {k};
      }
      ports := StableUniquePorts(ports);
    }

    method AddPort(key: PortKey, env: Env, k: nat) returns (ok: bool)
      modifies this
      ensures (Now(), ok) == if env(k).fails then (Edited(old(Now()), env(k)), false)
                             else (Perform(Edited(old(Now()), env(k)), Add(key)), true)
    {
      ok := Interfere(env, k);
      if ok {
        zone := zone + {key};
        log := log + [Add(key)];
      }
    }

    method RemovePort(key: PortKey, env: Env, k: nat) returns (ok: bool)
      modifies this
      ensures (Now(), ok) == if env(k).fails then (Edited(old(Now()), env(k)), false)
                             else (Perform(Edited(old(Now()), env(k)), Remove(key)), true)
    {
      ok := Interfere(env, k);
      if ok {
        zone := zone - {key};
        log := log + [Remove(key)];
      }
    }

    method AddPorts(ports: seq<PortSpec>, env: Env, k: nat) returns (ok: bool)
      modifies this
      ensures (Now(), ok) == Exec(old(Now()), Adds(Keys(ports)), env, k)
    {
      ghost var cmds := Adds(Keys(ports));
      for i := 0 to |ports|
        invariant Exec(old(Now()), cmds, env, k) == Exec(Now(), cmds[i..], env, k + i)
      {
        ExecStep(Now(), cmds, i, env, k + i);
        ok := AddPort(ports[i].Key(), env, k + i);
        if !ok { return; }
      }
      ok := true;
    }

    method RemovePorts(ports: seq<PortSpec>, env: Env, k: nat) returns (ok: bool)
      modifies this
      ensures (Now(), ok) == Exec(old(Now()), Removes(Keys(ports)), env, k)
    {
      ghost var cmds := Removes(Keys(ports));
      for i := 0 to |ports|
        invariant Exec(old(Now()), cmds, env, k) == Exec(Now(), cmds[i..], env, k + i)
      {
        ExecStep(Now(), cmds, i, env, k + i);
        ok := RemovePort(ports[i].Key(), env, k + i);
        if !ok { return; }
      }
      ok := true;
    }

    method Commit(toAdd: seq<PortSpec>, toRemove: seq<PortSpec>, nextManaged: seq<PortSpec>, env: Env) returns (ok: bool)
      modifies this
      ensures (Now(), ok)
           == Exec(old(Now()), Adds(Keys(toAdd)) + Removes(Keys(toRemove)) + [Save(Keys(nextManaged))], env, 2)
    {
      ghost var adds, removes := Adds(Keys(toAdd)), Removes(Keys(toRemove));
      ExecConcat(Now(), adds + removes, [Save(Keys(nextManaged))], env, 2);
      ExecConcat(Now(), adds, removes, env, 2);
      ok := AddPorts(toAdd, env, 2);
      if !ok { return; }
      ok := RemovePorts(toRemove, env, 2 + |toAdd|);
      if !ok { return; }
      ok := Interfere(env, 2 + |toAdd| + |toRemove|);
      if !ok { return; }
      store := Keys(nextManaged);
      log := log + [Save(store)];
    }

    /** The `k`-th external call of an Apply meets `env(k)`: whatever fails and whatever the
        operator does in between, the backend ends where `ApplyRun` says. */
    method Apply(desired: seq<PortSpec>, env: Env) returns (ok: bool)
      modifies this
      ensures (Now(), ok) == ApplyRun(old(Now()), desired, env)
    {
      ok := Interfere(env, 0);
      if !ok { return; }
      var managed := Specs(store);
      ok := Interfere(env, 1);
      if !ok { return; }
      var current := GetPorts();

      var toAdd := DiffPorts(desired, current);
      var trackedCurrent := IntersectPorts(managed, current);
      var toRemove := DiffPorts(trackedCurrent, desired);

      var nextManaged := NextManagedPorts(managed, desired, current, toAdd);
      ok := Commit(toAdd, toRemove, nextManaged, env);
    }
  }

  lemma ExecStep(s: State, cmds: seq<Cmd>, i: nat, env: Env, k: nat)
    requires i < |cmds|
    ensures Exec(s, cmds[i..], env, k) == if env(k).fails then (Edited(s, env(k)), false)
                                          else Exec(Perform(Edited(s, env(k)), cmds[i]), cmds[i + 1..], env, k + 1)
  {
    assert cmds[i..][0] == cmds[i] && cmds[i..][1..] == cmds[i + 1..];
  }

  lemma {:induction false} ExecConcat(s: State, a: seq<Cmd>, b: seq<Cmd>, env: Env, k: nat)
    ensures var r := Exec(s, a, env, k);
            Exec(s, a + b, env, k) == if r.1 then Exec(r.0, b, env, k + |a|) else r
    decreases |a|
  {
    if a == [] {
      assert a + b == b;
    } else {
      assert (a + b)[0] == a[0] && (a + b)[1..] == a[1..] + b;
      var e := Edited(s, env(k));
      if !env(k).fails { ExecConcat(Perform(e, a[0]), a[1..], b, env, k + 1); }
    }
  }
}
