/** Group events and removals seen across the whole network. */
module NetworkEvents {
  import opened ServiceNode
  import opened Mesh
  import opened GroupGossip
  import opened GossipBounds
  import GroupEvents

  // ---------- every callback on every node ----------

  function OpOf(act: GroupAct): GroupEvents.Op {
    match act
    case UserAdd(_, g, x) => GroupEvents.Added(g, x, true)
    case DeliverAdd(_, g, x) => GroupEvents.Added(g, x, false)
    case UserRemove(_, g, x) => GroupEvents.Removed(g, x, true)
    case DeliverRemove(_, g, x) => GroupEvents.Removed(g, x, false)
    case Listen(_, g, order) => GroupEvents.Listened(g, order)
    case Unlisten(_, g) => GroupEvents.Unlistened(g)
  }

  ghost predicate AllFaithful(s: Net) {
    forall n :: n in s.nodes ==> GroupEvents.Faithful(s.nodes[n])
  }

  /** A removal, requested or delivered, names a member that the node has. */
  ghost predicate NamesPresent(s: Net, act: Action) {
    act.Group? && act.group.n in s.nodes ==>
      GroupEvents.NamesPresent(s.nodes[act.group.n], OpOf(act.group))
  }

  lemma FaithfulIgnoresPeers(v: State, peers: set<Addr>)
    ensures GroupEvents.Faithful(v.(peers := peers)) <==> GroupEvents.Faithful(v)
  {
    var w := v.(peers := peers);
    forall g ensures GroupEvents.Counted(w, g) == GroupEvents.Counted(v, g)
      ensures GroupEvents.Tracked(w, g) == GroupEvents.Tracked(v, g)
    {
      assert w.MembersOf(g) == v.MembersOf(g) && w.ListenersOf(g) == v.ListenersOf(g);
    }
    if GroupEvents.Faithful(v) {
      assert forall g :: GroupEvents.Counted(w, g) && GroupEvents.Tracked(w, g);
    }
    if GroupEvents.Faithful(w) {
      assert forall g :: GroupEvents.Counted(v, g) && GroupEvents.Tracked(v, g);
    }
  }

  lemma PeersChangedFaithful(s: Net, s': Net, n: Addr, peers: set<Addr>)
    requires AllFaithful(s) && n in s.nodes && s'.nodes == s.nodes[n := s.nodes[n].(peers := peers)]
    ensures AllFaithful(s')
  {
    FaithfulIgnoresPeers(s.nodes[n], peers);
  }

  lemma CommitFaithful(s: Net, t: nat)
    requires MeshEnabled(s, Commit(t)) && AllFaithful(s)
    ensures AllFaithful(CommitTask(s, t))
  {
    var (n, a) := s.tasks[t];
    PeersChangedFaithful(s, CommitTask(s, t), n, s.nodes[n].peers + {a});
  }

  lemma MeshStepFaithful(s: Net, act: MeshAct)
    requires MeshEnabled(s, act) && AllFaithful(s)
    ensures AllFaithful(MeshStep(s, act))
  {
    match act
    case Commit(t) => CommitFaithful(s, t);
    case LosePeer(n, a) => PeersChangedFaithful(s, MeshStep(s, act), n, s.nodes[n].peers - {a});
    case _ => OtherStepsKeepNodes(s, act);
  }

  lemma OneNodeChanged(s: Net, s': Net, n: Addr)
    requires AllFaithful(s) && n in s.nodes && n in s'.nodes && s'.nodes == s.nodes[n := s'.nodes[n]]
    ensures AllFaithful(s') <==> GroupEvents.Faithful(s'.nodes[n])
  {
  }

  lemma GroupStepFaithful(s: Net, act: GroupAct)
    requires GroupEnabled(s, act) && AllFaithful(s)
    ensures AllFaithful(GroupStep(s, act)) <==> GroupEvents.NamesPresent(s.nodes[act.n], OpOf(act))
  {
    var v := s.nodes[act.n];
    assert GroupOp(v, act) == GroupEvents.Step(v, OpOf(act));
    GroupEvents.FaithfulStep(v, OpOf(act));
    OneNodeChanged(s, GroupStep(s, act), act.n);
  }

  lemma FaithfulStep(s: Net, act: Action)
    requires Enabled(s, act) && AllFaithful(s)
    ensures AllFaithful(Next(s, act)) <==> NamesPresent(s, act)
  {
    match act
    case Mesh(m) => MeshStepFaithful(s, m);
    case Group(a) => GroupStepFaithful(s, a);
  }

  ghost predicate AlwaysFaithful(s: Net, acts: seq<Action>)
    requires Runs(s, acts)
    decreases |acts|
  {
    AllFaithful(s) && (acts != [] ==> AlwaysFaithful(Next(s, acts[0]), acts[1..]))
  }

  ghost predicate RemovalsPresent(s: Net, acts: seq<Action>)
    requires Runs(s, acts)
    decreases |acts|
  {
    acts != [] ==> NamesPresent(s, acts[0]) && RemovalsPresent(Next(s, acts[0]), acts[1..])
  }

  /** In every run of the network, lost connections and lost calls included, the callbacks of all
      nodes are faithful all along exactly when every removal names a member present where it
      takes place. */
  lemma {:induction false} NetworkEventReplay(s: Net, acts: seq<Action>)
    requires AllFaithful(s) && Runs(s, acts)
    ensures AlwaysFaithful(s, acts) <==> RemovalsPresent(s, acts)
    decreases |acts|
  {
    if acts != [] {
      FaithfulStep(s, acts[0]);
      if NamesPresent(s, acts[0]) {
        NetworkEventReplay(Next(s, acts[0]), acts[1..]);
      }
    }
  }

  // ---------- each node by itself ----------

  /** What happens to the groups of one node in a run of the network. */
  function OpsAt(acts: seq<Action>, n: Addr): seq<GroupEvents.Op> {
    if acts == [] then []
    else if acts[0].Group? && acts[0].group.n == n then [OpOf(acts[0].group)] + OpsAt(acts[1..], n)
    else OpsAt(acts[1..], n)
  }

  ghost predicate SameGroups(v: State, w: State) { v.groups == w.groups && v.listeners == w.listeners }

  lemma StepIgnoresPeers(v: State, w: State, op: GroupEvents.Op)
    requires SameGroups(v, w)
    ensures SameGroups(GroupEvents.Step(v, op), GroupEvents.Step(w, op))
  {
    match op
    case Added(_, _, _) =>
    case Removed(_, _, _) =>
    case Listened(_, _) =>
    case Unlistened(_) =>
  }

  lemma {:induction false} AfterIgnoresPeers(v: State, w: State, ops: seq<GroupEvents.Op>)
    requires SameGroups(v, w)
    ensures SameGroups(GroupEvents.After(v, ops), GroupEvents.After(w, ops))
    decreases |ops|
  {
    if ops != [] {
      StepIgnoresPeers(v, w, ops[0]);
      AfterIgnoresPeers(GroupEvents.Step(v, ops[0]), GroupEvents.Step(w, ops[0]), ops[1..]);
    }
  }

  lemma MeshStepSameGroups(s: Net, act: MeshAct, n: Addr)
    requires MeshEnabled(s, act) && n in s.nodes
    ensures n in MeshStep(s, act).nodes && SameGroups(MeshStep(s, act).nodes[n], s.nodes[n])
  {
    match act
    case Commit(_) =>
    case LosePeer(_, _) =>
    case _ => OtherStepsKeepNodes(s, act);
  }

  lemma GroupStepAt(s: Net, act: GroupAct, n: Addr)
    requires GroupEnabled(s, act) && n in s.nodes
    ensures n in GroupStep(s, act).nodes
    ensures GroupStep(s, act).nodes[n] == if act.n == n then GroupEvents.Step(s.nodes[n], OpOf(act)) else s.nodes[n]
  {
  }

  /** In every run of the network, failures included, a node's groups and callbacks are those that
      its own operations make of them, so all that is proved of one node's runs holds there. */
  lemma {:induction false} NodeByItself(s: Net, acts: seq<Action>, n: Addr)
    requires Runs(s, acts) && n in s.nodes
    ensures n in After(s, acts).nodes
    ensures SameGroups(After(s, acts).nodes[n], GroupEvents.After(s.nodes[n], OpsAt(acts, n)))
    decreases |acts|
  {
    if acts != [] {
      var t, act := Next(s, acts[0]), acts[0];
      match act
      case Mesh(m) =>
        MeshStepSameGroups(s, m, n);
        NodeByItself(t, acts[1..], n);
        AfterIgnoresPeers(t.nodes[n], s.nodes[n], OpsAt(acts[1..], n));
      case Group(a) =>
        GroupStepAt(s, a, n);
        NodeByItself(t, acts[1..], n);
        if a.n == n {
          var ops := OpsAt(acts, n);
          assert ops[0] == OpOf(a) && ops[1..] == OpsAt(acts[1..], n);
        }
    }
  }

  // ---------- a removal that is lost ----------

  ghost function TwoNodes(a: Addr, b: Addr): Net {
    Net(map[a := State(a, {}, map[], map[]), b := State(b, {}, map[], map[])],
        multiset{}, map[], {}, {}, map[], map[])
  }

  /** One node adds a member and connects to the other, which connects back and thereby replays
      the member to where it came from. Then the node that added the member removes it. */
  function Story(a: Addr, b: Addr, g: string, x: string): seq<Action> {
    [Group(UserAdd(a, g, x)),
     Mesh(UserAddPeer(a, b, 0)),
     Mesh(Commit(0)),
     Group(DeliverAdd(b, g, x)),
     Mesh(DeliverAddPeer(b, a, 0)),
     Mesh(Commit(0)),
     Mesh(DeliverAddPeer(a, b, 0)),
     Group(DeliverAdd(a, g, x)),
     Group(UserRemove(a, g, x)),
     Group(DeliverRemove(b, g, x))]
  }

  /** Two nodes with the given peers and counts, what is under way and who added what. */
  ghost predicate Pair(s: Net, a: Addr, pa: set<Addr>, ga: map<string, Members>,
                       b: Addr, pb: set<Addr>, gb: map<string, Members>,
                       wire: multiset<Envelope>, tasks: map<nat, (Addr, Addr)>,
                       origins: set<(Addr, string, string)>)
  {
    && s.nodes.Keys == {a, b} && s.wire == wire && s.tasks == tasks && s.origins == origins
    && s.nodes[a].self == a && s.nodes[a].peers == pa && s.nodes[a].groups == ga
    && s.nodes[b].self == b && s.nodes[b].peers == pb && s.nodes[b].groups == gb
  }

  lemma CallsToNewPeer(v: State, c: Addr, g: string, x: string, n: int)
    requires v.peers == {} && v.groups == map[g := map[x := n]]
    ensures PeerCalls(v, c) == multiset{Envelope(c, AddPeer(v.self))}
    ensures GroupCalls(v, c) == multiset{Envelope(c, AddToGroup(g, x))}
  {
    assert v.peers - {c} == {};
    assert Introductions({}, c) == {};
    assert g in v.groups && x in v.groups[g];
    assert Replays(v.groups, c) == {Envelope(c, AddToGroup(g, x))};
  }

  /** Nothing is under way, the nodes are peers, and only the node that added the member, the
      only one to do so, still has it. */
  ghost predicate Split(s: Net, a: Addr, b: Addr, g: string, x: string) {
    && s.wire == multiset{} && s.tasks == map[] && MutualPeers(s, a, b) && s.origins == {(a, g, x)}
    && x in s.nodes[a].MembersOf(g) && x !in s.nodes[b].MembersOf(g)
  }

  ghost predicate Leads(s: Net, acts: seq<Action>, a: Addr, b: Addr, g: string, x: string) {
    Runs(s, acts) && HealthyRun(s, acts) && Split(After(s, acts), a, b, g, x)
  }

  /** One step back in the story. */
  lemma Back(s: Net, k: nat, a: Addr, b: Addr, g: string, x: string)
    requires k < 10 && Enabled(s, Story(a, b, g, x)[k]) && Healthy(s, Story(a, b, g, x)[k])
    requires Leads(Next(s, Story(a, b, g, x)[k]), Story(a, b, g, x)[k + 1..], a, b, g, x)
    ensures Leads(s, Story(a, b, g, x)[k..], a, b, g, x)
  {
    var acts := Story(a, b, g, x)[k..];
    assert acts[0] == Story(a, b, g, x)[k] && acts[1..] == Story(a, b, g, x)[k + 1..];
  }

  /** The removal reaches the other node, which has counted the member once. */
  lemma From9(s: Net, a: Addr, b: Addr, g: string, x: string)
    requires a != b && Pair(s, a, {b}, map[g := map[x := 2]], b, {a}, map[g := map[x := 1]],
                            multiset{Envelope(b, RemoveFromGroup(g, x))}, map[], {(a, g, x)})
    ensures Leads(s, Story(a, b, g, x)[9..], a, b, g, x)
  {
    var act := Group(DeliverRemove(b, g, x));
    assert Split(Next(s, act), a, b, g, x);
    assert Story(a, b, g, x)[10..] == [];
    Back(s, 9, a, b, g, x);
  }

  /** The node that added the member removes it; its count of two stays. */
  lemma From8(s: Net, a: Addr, b: Addr, g: string, x: string)
    requires a != b && Pair(s, a, {b}, map[g := map[x := 2]], b, {a}, map[g := map[x := 1]],
                            multiset{}, map[], {(a, g, x)})
    ensures Leads(s, Story(a, b, g, x)[8..], a, b, g, x)
  {
    var act := Group(UserRemove(a, g, x));
    assert Broadcasts({b}, RemoveFromGroup(g, x)) == {Envelope(b, RemoveFromGroup(g, x))};
    From9(Next(s, act), a, b, g, x);
    Back(s, 8, a, b, g, x);
  }

  /** The replayed member comes back to the node that added it and is counted again. */
  lemma From7(s: Net, a: Addr, b: Addr, g: string, x: string)
    requires a != b && Pair(s, a, {b}, map[g := map[x := 1]], b, {a}, map[g := map[x := 1]],
                            multiset{Envelope(a, AddToGroup(g, x))}, map[], {(a, g, x)})
    ensures Leads(s, Story(a, b, g, x)[7..], a, b, g, x)
  {
    var act := Group(DeliverAdd(a, g, x));
    assert map[x := 1][x := 2] == map[x := 2];
    assert Next(s, act).nodes[a].groups == map[g := map[x := 2]];
    From8(Next(s, act), a, b, g, x);
    Back(s, 7, a, b, g, x);
  }

  lemma From6(s: Net, a: Addr, b: Addr, g: string, x: string)
    requires a != b && Pair(s, a, {b}, map[g := map[x := 1]], b, {a}, map[g := map[x := 1]],
                            multiset{Envelope(a, AddPeer(b)), Envelope(a, AddToGroup(g, x))}, map[], {(a, g, x)})
    ensures Leads(s, Story(a, b, g, x)[6..], a, b, g, x)
  {
    var act := Mesh(DeliverAddPeer(a, b, 0));
    assert Next(s, act).wire == multiset{Envelope(a, AddToGroup(g, x))};
    From7(Next(s, act), a, b, g, x);
    Back(s, 6, a, b, g, x);
  }

  /** The handler's critical section on a node without peers, both nodes' groups being kept. */
  lemma CommitOnly(s: Net, c: Addr, d: Addr, g: string, x: string)
    requires c != d && s.nodes.Keys == {c, d} && s.tasks == map[0 := (c, d)] && s.wire == multiset{}
    requires s.nodes[c].self == c && s.nodes[c].peers == {} && s.nodes[c].groups == map[g := map[x := 1]]
    ensures var t := CommitTask(s, 0);
      && t.nodes == s.nodes[c := s.nodes[c].(peers := {d})] && t.tasks == map[] && t.origins == s.origins
      && t.wire == multiset{Envelope(d, AddPeer(c)), Envelope(d, AddToGroup(g, x))}
  {
    CallsToNewPeer(s.nodes[c], d, g, x, 1);
    assert {} + {d} == {d};
    assert CommitTask(s, 0).tasks == map[];
  }

  /** The other node connects back and replays the member to where it came from. */
  lemma From5(s: Net, a: Addr, b: Addr, g: string, x: string)
    requires a != b && Pair(s, a, {b}, map[g := map[x := 1]], b, {}, map[g := map[x := 1]],
                            multiset{}, map[0 := (b, a)], {(a, g, x)})
    ensures Leads(s, Story(a, b, g, x)[5..], a, b, g, x)
  {
    CommitOnly(s, b, a, g, x);
    From6(CommitTask(s, 0), a, b, g, x);
    Back(s, 5, a, b, g, x);
  }

  lemma From4(s: Net, a: Addr, b: Addr, g: string, x: string)
    requires a != b && Pair(s, a, {b}, map[g := map[x := 1]], b, {}, map[g := map[x := 1]],
                            multiset{Envelope(b, AddPeer(a))}, map[], {(a, g, x)})
    ensures Leads(s, Story(a, b, g, x)[4..], a, b, g, x)
  {
    var act := Mesh(DeliverAddPeer(b, a, 0));
    assert Next(s, act).tasks == map[0 := (b, a)] && Next(s, act).wire == multiset{};
    From5(Next(s, act), a, b, g, x);
    Back(s, 4, a, b, g, x);
  }

  lemma From3(s: Net, a: Addr, b: Addr, g: string, x: string)
    requires a != b && Pair(s, a, {b}, map[g := map[x := 1]], b, {}, map[],
                            multiset{Envelope(b, AddPeer(a)), Envelope(b, AddToGroup(g, x))}, map[], {(a, g, x)})
    ensures Leads(s, Story(a, b, g, x)[3..], a, b, g, x)
  {
    var act := Group(DeliverAdd(b, g, x));
    assert Next(s, act).nodes[b].groups == map[g := map[x := 1]];
    assert Next(s, act).wire == multiset{Envelope(b, AddPeer(a))};
    From4(Next(s, act), a, b, g, x);
    Back(s, 3, a, b, g, x);
  }

  /** The first node connects, telling the other of itself and of the member. */
  lemma From2(s: Net, a: Addr, b: Addr, g: string, x: string)
    requires a != b && Pair(s, a, {}, map[g := map[x := 1]], b, {}, map[], multiset{}, map[0 := (a, b)], {(a, g, x)})
    ensures Leads(s, Story(a, b, g, x)[2..], a, b, g, x)
  {
    CommitOnly(s, a, b, g, x);
    From3(CommitTask(s, 0), a, b, g, x);
    Back(s, 2, a, b, g, x);
  }

  lemma From1(s: Net, a: Addr, b: Addr, g: string, x: string)
    requires a != b && Pair(s, a, {}, map[g := map[x := 1]], b, {}, map[], multiset{}, map[], {(a, g, x)})
    ensures Leads(s, Story(a, b, g, x)[1..], a, b, g, x)
  {
    var act := Mesh(UserAddPeer(a, b, 0));
    assert Next(s, act).tasks == map[0 := (a, b)];
    From2(Next(s, act), a, b, g, x);
    Back(s, 1, a, b, g, x);
  }

  lemma From0(s: Net, a: Addr, b: Addr, g: string, x: string)
    requires a != b && Pair(s, a, {}, map[], b, {}, map[], multiset{}, map[], {})
    ensures Leads(s, Story(a, b, g, x)[0..], a, b, g, x)
  {
    var act := Group(UserAdd(a, g, x));
    assert Broadcasts({}, AddToGroup(g, x)) == {};
    assert Next(s, act).nodes[a].groups == map[g := map[x := 1]];
    assert Next(s, act).origins == {(a, g, x)};
    From1(Next(s, act), a, b, g, x);
    Back(s, 0, a, b, g, x);
  }

  /** Removals do not converge: on any two nodes the story is a healthy run after which nothing is
      in flight and the nodes, peers of each other, disagree. The member was added once, by one
      node, and removed by that node; the other node has dropped it, and the node that added and
      removed it has it still. */
  lemma RemovalIsLost(a: Addr, b: Addr, g: string, x: string)
    requires a != b
    ensures Initial(TwoNodes(a, b)) && TwoNodes(a, b).nodes.Keys == {a, b}
    ensures var acts := Story(a, b, g, x);
      && Runs(TwoNodes(a, b), acts) && HealthyRun(TwoNodes(a, b), acts)
      && Split(After(TwoNodes(a, b), acts), a, b, g, x)
      && acts[8] == Group(UserRemove(a, g, x))
      && forall i :: 0 <= i < |acts| && acts[i].Group? && acts[i].group.UserAdd? ==>
           i == 0 && acts[i] == Group(UserAdd(a, g, x))
  {
    From0(TwoNodes(a, b), a, b, g, x);
    assert Story(a, b, g, x)[0..] == Story(a, b, g, x);
  }

  // ---------- when a removal takes effect ----------

  /** The node has counted the member exactly once. */
  ghost predicate CountedOnce(s: Net, n: Addr, g: string, x: string) {
    Has(s, n, g, x) && s.nodes[n].MembersOf(g)[x] == 1
  }

  /** What a removal makes of a node in the end. */
  ghost function Removed(s: Net, n: Addr, m: Addr, g: string, x: string): State
    requires n in s.nodes && m in s.nodes
  {
    if m == n then LocalRemove(s.nodes[n], g, x)
    else if m in s.nodes[n].peers then RemoteRemove(s.nodes[m], g, x)
    else s.nodes[m]
  }

  /** From the quiet state `s` the removal asked of `n` has reached some nodes in `t`. */
  ghost predicate Spreading(s: Net, t: Net, n: Addr, g: string, x: string)
    requires n in s.nodes
  {
    && t.tasks == map[] && t.nodes.Keys == s.nodes.Keys
    && (forall e :: e in t.wire ==>
          e.call == RemoveFromGroup(g, x) && e.dst != n && e.dst in s.nodes[n].peers && t.wire[e] == 1)
    && forall m :: m in s.nodes ==>
         t.nodes[m] == if Envelope(m, RemoveFromGroup(g, x)) in t.wire then s.nodes[m] else Removed(s, n, m, g, x)
  }

  lemma OneCallEach(v: State, c: Call, e: Envelope)
    ensures Broadcast(v, c)[e] == if e.dst in v.peers && e.call == c then 1 else 0
  {
    CallsOfBroadcast(v, c, e);
  }

  lemma RemovalSpreads(s: Net, n: Addr, g: string, x: string)
    requires Quiet(s) && n in s.nodes && n !in s.nodes[n].peers
    ensures Spreading(s, GroupStep(s, UserRemove(n, g, x)), n, g, x)
  {
    var c, t := RemoveFromGroup(g, x), GroupStep(s, UserRemove(n, g, x));
    assert t.wire == Broadcast(s.nodes[n], c);
    forall e ensures t.wire[e] == if e.dst in s.nodes[n].peers && e.call == c then 1 else 0 {
      OneCallEach(s.nodes[n], c, e);
    }
    assert t.nodes == s.nodes[n := Removed(s, n, n, g, x)];
  }

  /** All that can go on is one more delivery of the removal. */
  lemma OnlyDeliveries(s: Net, t: Net, act: Action, n: Addr, g: string, x: string)
    requires n in s.nodes && Spreading(s, t, n, g, x) && Enabled(t, act) && GossipBounds.Internal(t, act)
    ensures act.Group? && act.group == DeliverRemove(act.group.n, g, x)
    ensures Envelope(act.group.n, RemoveFromGroup(g, x)) in t.wire
  {
    match act
    case Mesh(_) =>
    case Group(a) => assert Incoming(a) <= t.wire;
  }

  lemma SpreadsByOne(s: Net, t: Net, m: Addr, n: Addr, g: string, x: string)
    requires n in s.nodes && m in t.nodes && Spreading(s, t, n, g, x)
    requires Envelope(m, RemoveFromGroup(g, x)) in t.wire
    ensures Spreading(s, GroupStep(t, DeliverRemove(m, g, x)), n, g, x)
  {
    var u, gone := GroupStep(t, DeliverRemove(m, g, x)), Envelope(m, RemoveFromGroup(g, x));
    assert u.wire == t.wire - multiset{gone};
    assert t.wire[gone] == 1 && u.wire[gone] == 0;
    assert u.nodes[m] == Removed(s, n, m, g, x);
    forall k | k in s.nodes && k != m
      ensures u.nodes[k] == if Envelope(k, RemoveFromGroup(g, x)) in u.wire then s.nodes[k] else Removed(s, n, k, g, x)
    {
      assert u.nodes[k] == t.nodes[k];
      assert Envelope(k, RemoveFromGroup(g, x)) in u.wire <==> Envelope(k, RemoveFromGroup(g, x)) in t.wire;
    }
  }

  lemma SpreadsOn(s: Net, t: Net, act: Action, n: Addr, g: string, x: string)
    requires n in s.nodes && Spreading(s, t, n, g, x) && Enabled(t, act) && GossipBounds.Internal(t, act)
    ensures Spreading(s, Next(t, act), n, g, x)
  {
    OnlyDeliveries(s, t, act, n, g, x);
    SpreadsByOne(s, t, act.group.n, n, g, x);
  }

  lemma {:induction false} SpreadsToTheEnd(s: Net, t: Net, more: seq<Action>, n: Addr, g: string, x: string)
    requires n in s.nodes && Spreading(s, t, n, g, x) && Runs(t, more) && InternalRun(t, more)
    ensures Spreading(s, After(t, more), n, g, x)
    decreases |more|
  {
    if more != [] {
      SpreadsOn(s, t, more[0], n, g, x);
      SpreadsToTheEnd(s, Next(t, more[0]), more[1..], n, g, x);
    }
  }

  lemma RemovedHas(s: Net, n: Addr, m: Addr, g: string, x: string)
    requires n in s.nodes && m in s.nodes && (m == n || m in s.nodes[n].peers)
    ensures x in Removed(s, n, m, g, x).MembersOf(g) <==> !CountedOnce(s, m, g, x)
  {
    GroupEvents.RemovalTakesEffect(s.nodes[m], GroupEvents.Removed(g, x, m == n));
  }

  lemma SpreadEverywhere(s: Net, t: Net, n: Addr, g: string, x: string, m: Addr)
    requires Sane(s) && n in s.nodes && Spreading(s, t, n, g, x) && AtRest(t)
    requires m == n || m in s.nodes[n].peers
    ensures Has(t, m, g, x) <==> !CountedOnce(s, m, g, x)
  {
    var e := Envelope(m, RemoveFromGroup(g, x));
    if e in t.wire {
      assert Enabled(t, Group(DeliverRemove(m, g, x)));
    }
    assert t.nodes[m] == Removed(s, n, m, g, x);
    RemovedHas(s, n, m, g, x);
  }

  /** A removal asked for in a quiet network, followed by any schedule of deliveries until no more
      is possible: the node and each of its peers is then without the member exactly if it had
      counted it once. A higher count stays, and a node without the member now has it. */
  lemma QuietRemoval(s: Net, n: Addr, g: string, x: string, more: seq<Action>, m: Addr)
    requires Sane(s) && Quiet(s) && n in s.nodes && n !in s.nodes[n].peers
    requires Runs(GroupStep(s, UserRemove(n, g, x)), more) && InternalRun(GroupStep(s, UserRemove(n, g, x)), more)
    requires AtRest(After(GroupStep(s, UserRemove(n, g, x)), more))
    requires m == n || m in s.nodes[n].peers
    ensures Has(After(GroupStep(s, UserRemove(n, g, x)), more), m, g, x) <==> !CountedOnce(s, m, g, x)
  {
    var t := GroupStep(s, UserRemove(n, g, x));
    RemovalSpreads(s, n, g, x);
    SpreadsToTheEnd(s, t, more, n, g, x);
    SpreadEverywhere(s, After(t, more), n, g, x, m);
  }

  /** So in a quiet healthy network the removal takes effect on all nodes linked to the one it was
      asked of if and only if each of them has counted the member exactly once. */
  lemma RemovalConverges(s0: Net, acts: seq<Action>, n: Addr, g: string, x: string, more: seq<Action>)
    requires Initial(s0) && Runs(s0, acts) && HealthyRun(s0, acts) && n in s0.nodes
    requires forall i :: 0 <= i < |acts| ==> NamesOther(acts[i])
    requires Quiet(After(s0, acts)) && Enabled(After(s0, acts), Group(UserRemove(n, g, x)))
    requires var t := Next(After(s0, acts), Group(UserRemove(n, g, x)));
      Runs(t, more) && InternalRun(t, more) && AtRest(After(t, more))
    ensures var s := After(s0, acts); var u := After(Next(s, Group(UserRemove(n, g, x))), more);
      (forall m :: m in s0.nodes && Linked(s.links, n, m) ==> !Has(u, m, g, x)) <==>
      (forall m :: m in s0.nodes && Linked(s.links, n, m) ==> CountedOnce(s, m, g, x))
  {
    var s := After(s0, acts);
    MeshInvHolds(s0, acts);
    NoSelfPeering(s0, acts);
    forall m | m in s0.nodes && Linked(s.links, n, m)
      ensures Has(After(GroupStep(s, UserRemove(n, g, x)), more), m, g, x) <==> !CountedOnce(s, m, g, x)
    {
      if m != n {
        MeshConverges(s0, acts, n, m);
      }
      QuietRemoval(s, n, g, x, more, m);
    }
  }
}
