/** The AppliedNodes list of an LBPort's status, written by one firewall agent per node and by
    the controller.  Every write is a read of the latest object followed by an update that the
    API server refuses if the object has changed since.  The controller's prune is different in
    one respect: it writes a list computed from an older read. */
module AgentStatus {
  import opened Ordering
  import opened Text
  import opened Wrappers

  // ---- the list operations ----

  function Without(nodes: seq<string>, node: string): seq<string> {
    Keep(nodes, n => n != node)
  }

  function Within(nodes: seq<string>, valid: set<string>): seq<string> {
    Keep(nodes, n => n in valid)
  }

  /** ensureNodeInStatus and ensureNodeNotInStatus on the list they read. */
  function Edited(nodes: seq<string>, node: string, present: bool): seq<string> {
    if (node in nodes) == present then nodes
    else if present then Sort(StringLe, nodes + [node])
    else Without(nodes, node)
  }

  method RemoveNode(nodes: seq<string>, node: string) returns (filtered: seq<string>)
    ensures filtered == Without(nodes, node)
    ensures forall n :: n in filtered <==> n in nodes && n != node
  {
    filtered := [];
    ghost var ok := (n: string) => n != node;
    for i := 0 to |nodes|
      invariant filtered == Keep(nodes[..i], ok)
    {
      assert nodes[..i + 1][..i] == nodes[..i];
      if nodes[i] != node { filtered := filtered + [nodes[i]]; }
    }
    assert nodes[..|nodes|] == nodes;
    forall n { KeepMembers(nodes, ok, n); }
  }

  method PruneNodes(nodes: seq<string>, valid: set<string>) returns (pruned: seq<string>)
    ensures pruned == Within(nodes, valid)
    ensures forall n :: n in pruned <==> n in nodes && n in valid
  {
    pruned := [];
    ghost var ok := (n: string) => n in valid;
    for i := 0 to |nodes|
      invariant pruned == Keep(nodes[..i], ok)
    {
      assert nodes[..i + 1][..i] == nodes[..i];
      if nodes[i] in valid { pruned := pruned + [nodes[i]]; }
    }
    assert nodes[..|nodes|] == nodes;
    forall n { KeepMembers(nodes, ok, n); }
  }

  /** An edit keeps the list ascending without repetition and changes one node's membership. */
  lemma EditedFacts(nodes: seq<string>, node: string, present: bool)
    requires Strict(StringLe, nodes)
    ensures Strict(StringLe, Edited(nodes, node, present))
    ensures forall n :: n in Edited(nodes, node, present) <==> if n == node then present else n in nodes
  {
    if (node in nodes) != present {
      if present {
        var all := nodes + [node];
        StringOrder();
        forall i, j | 0 <= i < j < |all| ensures !StringLe(all[i], all[j]) || !StringLe(all[j], all[i]) {
          if j == |nodes| {
            assert all[i] in nodes;
            StringTotal(all[i], node);
          }
        }
        SortStrict(StringLe, all);
        SortPermutes(StringLe, all);
      } else {
        var ok := (n: string) => n != node;
        KeepStrict(StringLe, nodes, ok);
        forall n { KeepMembers(nodes, ok, n); }
      }
    }
  }

  // ---- the protocol ----

  /** An agent between its read and its update: what it read, at which version, and whether its
      node is to be in the list. */
  datatype Agent = Idle | Holding(copy: seq<string>, version: nat, present: bool)

  /** The controller between listing, fetching the latest object and updating it. */
  datatype Pruner = Resting | Listed(valid: set<string>, pruned: seq<string>)
                  | Fetched(valid: set<string>, pruned: seq<string>, version: nat)

  datatype State = State(applied: seq<string>, version: nat, agents: map<string, Agent>, pruner: Pruner)

  datatype Action =
    | Read(node: string, present: bool)   // the agent reads the latest object
    | Write(node: string)                 // and updates it, refused if it has changed
    | GiveUp(node: string)                // or its call fails
    | List(valid: set<string>)            // the controller lists the LBPorts and the nodes
    | Fetch                               // reads the latest object
    | Overwrite                           // and updates it with the list computed before
    | Touch                               // someone changes the object otherwise

  function AgentOf(s: State, node: string): Agent {
    if node in s.agents then s.agents[node] else Idle
  }

  /** The agent's update is based on the latest version. */
  predicate Accepts(s: State, node: string) {
    AgentOf(s, node).Holding? && AgentOf(s, node).version == s.version
  }

  function Next(s: State, a: Action): State {
    match a
    case Read(node, present) =>
      if (node in s.applied) == present then s.(agents := s.agents[node := Idle])
      else s.(agents := s.agents[node := Holding(s.applied, s.version, present)])
    case Write(node) =>
      var h := AgentOf(s, node);
      var t := s.(agents := s.agents[node := Idle]);
      if Accepts(s, node) then t.(applied := Edited(h.copy, node, h.present), version := s.version + 1) else t
    case GiveUp(node) => s.(agents := s.agents[node := Idle])
    case List(valid) =>
      var pruned := Within(s.applied, valid);
      s.(pruner := if |pruned| == |s.applied| then Resting else Listed(valid, pruned))
    case Fetch =>
      if s.pruner.Listed? then s.(pruner := Fetched(s.pruner.valid, s.pruner.pruned, s.version)) else s
    case Overwrite =>
      if !s.pruner.Fetched? then s
      else if s.pruner.version == s.version
      then s.(applied := s.pruner.pruned, version := s.version + 1, pruner := Resting)
      else s.(pruner := Resting)
    case Touch => s.(version := s.version + 1)
  }

  function Run(s: State, actions: seq<Action>): State {
    if actions == [] then s else Next(Run(s, actions[..|actions| - 1]), actions[|actions| - 1])
  }

  function Start(applied: seq<string>): State {
    State(applied, 0, map[], Resting)
  }

  ghost predicate Inv(s: State) {
    && Strict(StringLe, s.applied)
    && (forall n :: n in s.agents && s.agents[n].Holding? ==>
          s.agents[n].version <= s.version && (s.agents[n].version == s.version ==> s.agents[n].copy == s.applied))
    && (!s.pruner.Resting? ==> Strict(StringLe, s.pruner.pruned))
  }

  lemma NextInv(s: State, a: Action)
    requires Inv(s)
    ensures Inv(Next(s, a))
  {
    match a {
      case Write(node) =>
        var h := AgentOf(s, node);
        if Accepts(s, node) { EditedFacts(h.copy, node, h.present); }
      case List(valid) => KeepStrict(StringLe, s.applied, n => n in valid);
      case _ =>
    }
  }

  lemma {:induction false} RunInv(s: State, actions: seq<Action>)
    requires Inv(s)
    ensures Inv(Run(s, actions))
  {
    if actions != [] {
      RunInv(s, actions[..|actions| - 1]);
      NextInv(Run(s, actions[..|actions| - 1]), actions[|actions| - 1]);
    }
  }

  /** Under every interleaving of agents, prunes and other writers the list stays ascending and
      free of repetition. */
  lemma AlwaysAscending(applied: seq<string>, actions: seq<Action>)
    requires Strict(StringLe, applied)
    ensures Strict(StringLe, Run(Start(applied), actions).applied)
  {
    RunInv(Start(applied), actions);
  }

  /** One update changes the list by one node at most, to what that node's agent wants. */
  lemma WriteFacts(s: State, node: string)
    requires Inv(s)
    ensures var t := Next(s, Write(node));
            && (forall n :: n != node ==> (n in t.applied <==> n in s.applied))
            && (Accepts(s, node) ==> (node in t.applied <==> AgentOf(s, node).present))
            && (!Accepts(s, node) ==> t.applied == s.applied)
  {
    if Accepts(s, node) { EditedFacts(s.applied, node, AgentOf(s, node).present); }
  }

  /** In every reachable state an agent's update leaves all other nodes alone, and if it is
      accepted its own node is as it wants. */
  lemma AgentWritesOwn(applied: seq<string>, actions: seq<Action>, node: string)
    requires Strict(StringLe, applied)
    ensures var s := Run(Start(applied), actions);
            var t := Next(s, Write(node));
            && (forall n :: n != node ==> (n in t.applied <==> n in s.applied))
            && (t.version != s.version ==> Accepts(s, node) && (node in t.applied <==> AgentOf(s, node).present))
  {
    RunInv(Start(applied), actions);
    WriteFacts(Run(Start(applied), actions), node);
  }

  /** The API server refuses an update made from an older read and accepts one made from the latest:
      every change of the list gives the object a new version, and only an update based on the current
      version changes it. */
  lemma Versioned(s: State, a: Action)
    ensures Next(s, a).applied != s.applied ==> Next(s, a).version > s.version
    ensures Next(s, a).applied != s.applied ==> (a.Write? && Accepts(s, a.node)) || (a.Overwrite? && PruneAccepted(s))
    ensures a.Read? && (a.node in s.applied) != a.present ==> Accepts(Next(s, a), a.node) && AgentOf(Next(s, a), a.node).present == a.present
    ensures a.Fetch? && s.pruner.Listed? ==> PruneAccepted(Next(s, a))
    ensures a.List? ==> (!Next(s, a).pruner.Resting? <==> |Within(s.applied, a.valid)| != |s.applied|)
  {
  }

  /** The update the controller is about to make will be accepted. */
  predicate PruneAccepted(s: State) {
    s.pruner.Fetched? && s.pruner.version == s.version
  }

  // ---- runs without a prune ----

  ghost predicate NoPrune(actions: seq<Action>) {
    forall a :: a in actions ==> !a.Overwrite?
  }

  /** What the node's latest accepted update made of its membership, if there was one. */
  function Latest(s: State, actions: seq<Action>, n: string): Option<bool> {
    if actions == [] then None
    else
      var front, a := actions[..|actions| - 1], actions[|actions| - 1];
      if a == Write(n) && Accepts(Run(s, front), n) then Some(AgentOf(Run(s, front), n).present)
      else Latest(s, front, n)
  }

  /** Without a prune, a node is in the list exactly if its own agent's latest accepted update
      says so, or it was there from the start and no update of its was accepted. */
  lemma {:induction false} LastWriteDecides(s: State, actions: seq<Action>, n: string)
    requires Inv(s) && NoPrune(actions)
    ensures n in Run(s, actions).applied <==> Latest(s, actions, n).UnwrapOr(n in s.applied)
  {
    if actions != [] {
      var front, a := actions[..|actions| - 1], actions[|actions| - 1];
      assert a in actions && forall x :: x in front ==> x in actions;
      LastWriteDecides(s, front, n);
      RunInv(s, front);
      if a.Write? { WriteFacts(Run(s, front), a.node); }
    }
  }

  /** So two runs in which every agent's latest accepted update agrees end with the same list,
      however they were interleaved. */
  lemma OrderIrrelevant(applied: seq<string>, one: seq<Action>, two: seq<Action>)
    requires Strict(StringLe, applied) && NoPrune(one) && NoPrune(two)
    requires forall n :: Latest(Start(applied), one, n) == Latest(Start(applied), two, n)
    ensures Run(Start(applied), one).applied == Run(Start(applied), two).applied
  {
    forall n ensures n in Run(Start(applied), one).applied <==> n in Run(Start(applied), two).applied {
      LastWriteDecides(Start(applied), one, n);
      LastWriteDecides(Start(applied), two, n);
      assert Latest(Start(applied), one, n) == Latest(Start(applied), two, n);
    }
    AlwaysAscending(applied, one);
    AlwaysAscending(applied, two);
    StrictUnique(StringLe, Run(Start(applied), one).applied, Run(Start(applied), two).applied);
  }

  // ---- every agent running once ----

  /** Specs are fixed: every agent reads for the same wish each time. */
  ghost predicate ByWish(actions: seq<Action>, wish: map<string, bool>) {
    forall a :: a in actions && a.Read? ==> a.node in wish && wish[a.node] == a.present
  }

  /** The agent's pass came through: it found nothing to do, or its update was accepted. */
  ghost predicate Reported(s: State, actions: seq<Action>, n: string) {
    actions != [] &&
      var front, a := actions[..|actions| - 1], actions[|actions| - 1];
      || Reported(s, front, n)
      || (a.Read? && a.node == n && (n in Run(s, front).applied) == a.present)
      || (a == Write(n) && Accepts(Run(s, front), n))
  }

  /** Agents hold on to nothing but their wish. */
  ghost predicate Wishful(s: State, wish: map<string, bool>) {
    forall n :: AgentOf(s, n).Holding? ==> n in wish && wish[n] == AgentOf(s, n).present
  }

  lemma {:induction false} RunWishful(s: State, actions: seq<Action>, wish: map<string, bool>)
    requires Wishful(s, wish) && ByWish(actions, wish)
    ensures Wishful(Run(s, actions), wish)
  {
    if actions != [] {
      var front, a := actions[..|actions| - 1], actions[|actions| - 1];
      assert a in actions && forall x :: x in front ==> x in actions;
      RunWishful(s, front, wish);
    }
  }

  /** A node whose agent came through is as wished from then on, and one without an agent never
      changes. */
  lemma {:induction false} WishGranted(s: State, actions: seq<Action>, wish: map<string, bool>, n: string)
    requires Inv(s) && Wishful(s, wish) && ByWish(actions, wish) && NoPrune(actions)
    ensures Reported(s, actions, n) ==> n in wish && (n in Run(s, actions).applied <==> wish[n])
    ensures n !in wish ==> (n in Run(s, actions).applied <==> n in s.applied)
  {
    if actions != [] {
      var front, a := actions[..|actions| - 1], actions[|actions| - 1];
      assert a in actions && forall x :: x in front ==> x in actions;
      WishGranted(s, front, wish, n);
      RunInv(s, front);
      RunWishful(s, front, wish);
      if a.Write? {
        WriteFacts(Run(s, front), a.node);
        assert AgentOf(Run(s, front), a.node).Holding? ==> a.node in wish;
      }
    }
  }

  /** With specs fixed and no prune, the list is the same after every interleaving in which each
      agent came through. */
  lemma PassesCommute(applied: seq<string>, wish: map<string, bool>, one: seq<Action>, two: seq<Action>)
    requires Strict(StringLe, applied) && NoPrune(one) && NoPrune(two) && ByWish(one, wish) && ByWish(two, wish)
    requires forall n :: n in wish ==> Reported(Start(applied), one, n) && Reported(Start(applied), two, n)
    ensures Run(Start(applied), one).applied == Run(Start(applied), two).applied
    ensures forall n :: n in Run(Start(applied), one).applied <==> if n in wish then wish[n] else n in applied
  {
    forall n
      ensures n in Run(Start(applied), one).applied <==> if n in wish then wish[n] else n in applied
      ensures n in Run(Start(applied), two).applied <==> if n in wish then wish[n] else n in applied
    {
      WishGranted(Start(applied), one, wish, n);
      WishGranted(Start(applied), two, wish, n);
    }
    AlwaysAscending(applied, one);
    AlwaysAscending(applied, two);
    StrictUnique(StringLe, Run(Start(applied), one).applied, Run(Start(applied), two).applied);
  }

  // ---- what a prune can lose ----

  /** One prune after its listing: no other listing, no overwrite yet. */
  ghost predicate MidPrune(mid: seq<Action>) {
    forall a :: a in mid ==> !a.List? && !a.Overwrite?
  }

  /** The pruner works from the list it saw when it listed. */
  lemma {:induction false} PrunerRemembers(s: State, valid: set<string>, mid: seq<Action>)
    requires MidPrune(mid)
    ensures var p := Run(Next(s, List(valid)), mid).pruner;
            !p.Resting? ==> p.valid == valid && p.pruned == Within(s.applied, valid)
  {
    if mid != [] {
      var front, a := mid[..|mid| - 1], mid[|mid| - 1];
      assert a in mid && forall x :: x in front ==> x in mid;
      PrunerRemembers(s, valid, front);
    }
  }

  lemma WithinFacts(nodes: seq<string>, valid: set<string>)
    requires Strict(StringLe, nodes)
    ensures Strict(StringLe, Within(nodes, valid))
    ensures forall n :: n in Within(nodes, valid) <==> n in nodes && n in valid
  {
    var ok := (n: string) => n in valid;
    KeepStrict(StringLe, nodes, ok);
    forall n { KeepMembers(nodes, ok, n); }
  }

  /** Every valid node whose agent's update was accepted since the listing ended as it was then. */
  ghost predicate NoNetReport(s: State, valid: set<string>, mid: seq<Action>) {
    forall n :: n in valid && Latest(Next(s, List(valid)), mid, n).Some? ==>
      Latest(Next(s, List(valid)), mid, n).value == (n in s.applied)
  }

  /** From any state: an accepted prune writes the list of its listing less the nodes gone then.  It
      removes exactly the gone nodes from the present list if and only if every valid node's latest
      accepted update since the listing left it as it was. */
  lemma PruneExactFrom(s: State, valid: set<string>, mid: seq<Action>)
    requires Inv(s) && MidPrune(mid) && PruneAccepted(Run(Next(s, List(valid)), mid))
    ensures var t := Run(Next(s, List(valid)), mid);
            && Next(t, Overwrite).applied == Within(s.applied, valid)
            && (Next(t, Overwrite).applied == Within(t.applied, valid) <==> NoNetReport(s, valid, mid))
  {
    var l := Next(s, List(valid));
    var t := Run(l, mid);
    NextInv(s, List(valid));
    RunInv(l, mid);
    PrunerRemembers(s, valid, mid);
    WithinFacts(s.applied, valid);
    WithinFacts(t.applied, valid);
    forall n ensures n in t.applied <==> Latest(l, mid, n).UnwrapOr(n in s.applied) { LastWriteDecides(l, mid, n); }
    if NoNetReport(s, valid, mid) {
      forall n ensures n in Within(s.applied, valid) <==> n in Within(t.applied, valid) { }
      StrictUnique(StringLe, Within(s.applied, valid), Within(t.applied, valid));
    } else {
      var n :| n in valid && Latest(l, mid, n).Some? && Latest(l, mid, n).value != (n in s.applied);
      assert n in Within(s.applied, valid) <==> n !in Within(t.applied, valid);
    }
  }

  lemma {:induction false} RunConcat(s: State, a: seq<Action>, b: seq<Action>)
    ensures Run(s, a + b) == Run(Run(s, a), b)
    decreases |b|
  {
    if b == [] {
      assert a + b == a;
    } else {
      assert (a + b)[..|a + b| - 1] == a + b[..|b| - 1];
      RunConcat(s, a, b[..|b| - 1]);
    }
  }

  lemma RunListing(s: State, before: seq<Action>, valid: set<string>, mid: seq<Action>)
    ensures Run(s, before + [List(valid)] + mid) == Run(Next(Run(s, before), List(valid)), mid)
  {
    RunConcat(s, before + [List(valid)], mid);
    RunConcat(s, before, [List(valid)]);
    assert [List(valid)][..0] == [];
    assert Run(Run(s, before), [List(valid)]) == Next(Run(s, before), List(valid));
  }

  /** The same over whole runs: `before` leads to the listing, `mid` from it to the overwrite. */
  lemma PruneExact(applied: seq<string>, before: seq<Action>, valid: set<string>, mid: seq<Action>)
    requires Strict(StringLe, applied) && MidPrune(mid)
    requires PruneAccepted(Run(Start(applied), before + [List(valid)] + mid))
    ensures var s, t := Run(Start(applied), before), Run(Start(applied), before + [List(valid)] + mid);
            && Next(t, Overwrite).applied == Within(s.applied, valid)
            && (Next(t, Overwrite).applied == Within(t.applied, valid) <==> NoNetReport(s, valid, mid))
  {
    RunInv(Start(applied), before);
    RunListing(Start(applied), before, valid, mid);
    PruneExactFrom(Run(Start(applied), before), valid, mid);
  }

  /** So every report of a valid node that changed its membership since the listing is lost. */
  lemma PruneForgets(applied: seq<string>, before: seq<Action>, valid: set<string>, mid: seq<Action>, node: string)
    requires Strict(StringLe, applied) && MidPrune(mid) && node in valid
    requires PruneAccepted(Run(Start(applied), before + [List(valid)] + mid))
    requires var s := Run(Start(applied), before);
             var w := Latest(Next(s, List(valid)), mid, node); w.Some? && w.value != (node in s.applied)
    ensures var s, t := Run(Start(applied), before), Run(Start(applied), before + [List(valid)] + mid);
            var w := Latest(Next(s, List(valid)), mid, node).value;
            (node in t.applied <==> w) && (node in Next(t, Overwrite).applied <==> !w)
  {
    var s := Run(Start(applied), before);
    PruneExact(applied, before, valid, mid);
    RunListing(Start(applied), before, valid, mid);
    RunInv(Start(applied), before);
    NextInv(s, List(valid));
    LastWriteDecides(Next(s, List(valid)), mid, node);
    WithinFacts(s.applied, valid);
  }

  lemma {:induction false} KeepShorter(nodes: seq<string>, ok: string -> bool)
    ensures |Keep(nodes, ok)| <= |nodes|
    ensures (exists n :: n in nodes && !ok(n)) ==> |Keep(nodes, ok)| < |nodes|
  {
    if nodes != [] {
      KeepShorter(nodes[..|nodes| - 1], ok);
      assert nodes == nodes[..|nodes| - 1] + [nodes[|nodes| - 1]];
    }
  }

  lemma RunLast(s: State, actions: seq<Action>, a: Action)
    ensures Run(s, actions + [a]) == Next(Run(s, actions), a)
  {
    assert (actions + [a])[..|actions|] == actions;
  }

  /** Such runs exist whenever some listed node is gone: a valid node's first report, accepted between
      the listing and the fetch, is lost. */
  lemma ForgetExample(applied: seq<string>, valid: set<string>, gone: string, node: string)
    requires Strict(StringLe, applied)
    requires gone in applied && gone !in valid && node in valid && node !in applied
    ensures var mid := [Read(node, true), Write(node), Fetch];
            var t := Run(Start(applied), [] + [List(valid)] + mid);
            PruneAccepted(t) && node in t.applied && node !in Next(t, Overwrite).applied
  {
    var s := Next(Start(applied), List(valid));
    var l1 := [Read(node, true)];
    var l2 := l1 + [Write(node)];
    var mid := [Read(node, true), Write(node), Fetch];
    KeepShorter(applied, n => n in valid);
    RunLast(s, [], Read(node, true));
    assert [] + [Read(node, true)] == l1;
    RunLast(s, l1, Write(node));
    RunLast(s, l2, Fetch);
    assert l2 + [Fetch] == mid;
    assert l2[..|l2| - 1] == l1 && mid[..|mid| - 1] == l2;
    assert Accepts(Run(s, l1), node);
    assert Latest(s, mid, node) == Some(true);
    RunListing(Start(applied), [], valid, mid);
    PruneForgets(applied, [], valid, mid, node);
  }
}
