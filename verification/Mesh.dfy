/** A network of service nodes: every node's value, the calls in flight as a bag, and the addPeer
    handlers that have passed their unlocked test but not yet entered the critical section. A run
    is any interleaving of user requests, deliveries and handler steps. */
module Mesh {
  import opened Common
  import opened ServiceNode

  /** `tasks` maps a running addPeer handler to (node it runs on, peer it is connecting to).
      The last four fields are history: user addPeer requests naming a live node, members added
      by each node's own user, addPeer calls each node has made, and how often a node's critical
      section found the peer already present. */
  datatype Net = Net(
    nodes: map<Addr, State>,
    wire: multiset<Envelope>,
    tasks: map<nat, (Addr, Addr)>,
    links: set<(Addr, Addr)>,
    origins: set<(Addr, string, string)>,
    calls: map<Addr, nat>,
    repeats: map<Addr, nat>)

  /** Connecting: user requests, handlers and what can go wrong on the way. */
  datatype MeshAct =
    | UserAddPeer(n: Addr, a: Addr, t: nat)
    | DeliverAddPeer(n: Addr, a: Addr, t: nat)
    | Commit(t: nat)
    | FailConnect(t: nat)
    | LosePeer(n: Addr, a: Addr)
    | LoseCall(e: Envelope)

  /** Group membership: user requests, deliveries and registrations at one node. */
  datatype GroupAct =
    | UserAdd(n: Addr, g: string, x: string)
    | DeliverAdd(n: Addr, g: string, x: string)
    | UserRemove(n: Addr, g: string, x: string)
    | DeliverRemove(n: Addr, g: string, x: string)
    | Listen(n: Addr, g: string, order: seq<string>)
    | Unlisten(n: Addr, g: string)

  datatype Action = Mesh(mesh: MeshAct) | Group(group: GroupAct)

  ghost predicate MeshEnabled(s: Net, act: MeshAct) {
    match act
    case UserAddPeer(n, a, t) => n in s.nodes && t !in s.tasks
    case DeliverAddPeer(n, a, t) =>
      n in s.nodes && t !in s.tasks && Envelope(n, AddPeer(a)) in s.wire
    case Commit(t) => t in s.tasks && s.tasks[t].0 in s.nodes && s.tasks[t].1 in s.nodes
    case FailConnect(t) => t in s.tasks
    case LosePeer(n, a) => n in s.nodes
    case LoseCall(e) => e in s.wire
  }

  ghost predicate GroupEnabled(s: Net, act: GroupAct) {
    act.n in s.nodes && Incoming(act) <= s.wire &&
    (act.Listen? ==> Enumerates(act.order, s.nodes[act.n].MembersOf(act.g).Keys))
  }

  ghost predicate Enabled(s: Net, act: Action) {
    match act
    case Mesh(m) => MeshEnabled(s, m)
    case Group(a) => GroupEnabled(s, a)
  }

  ghost function Consume(s: Net, e: Envelope): Net {
    s.(wire := s.wire - multiset{e})
  }

  /** The unlocked test: a handler goes on to connect only when the peer is not in the table. */
  ghost function Check(s: Net, n: Addr, a: Addr, t: nat): Net
    requires n in s.nodes
  {
    if a in s.nodes[n].peers then s else s.(tasks := s.tasks[t := (n, a)])
  }

  ghost function Count(m: map<Addr, nat>, n: Addr): nat { if n in m then m[n] else 0 }

  ghost function CommitTask(s: Net, t: nat): Net
    requires t in s.tasks && s.tasks[t].0 in s.nodes
  {
    var (n, a) := s.tasks[t];
    var v := s.nodes[n];
    s.(nodes := s.nodes[n := CommitPeer(v, a)],
        wire := s.wire + PeerCalls(v, a) + GroupCalls(v, a),
        tasks := s.tasks - {t},
        calls := s.calls[n := Count(s.calls, n) + |PeerCalls(v, a)|],
        repeats := if a in v.peers then s.repeats[n := Count(s.repeats, n) + 1] else s.repeats)
  }

  /** What a group action does to its node, the calls it makes and the call it consumes. */
  ghost function GroupOp(v: State, act: GroupAct): (r: State)
    ensures r.self == v.self && r.peers == v.peers
  {
    match act
    case UserAdd(_, g, x) => LocalAdd(v, g, x)
    case DeliverAdd(_, g, x) => RemoteAdd(v, g, x)
    case UserRemove(_, g, x) => LocalRemove(v, g, x)
    case DeliverRemove(_, g, x) => RemoteRemove(v, g, x)
    case Listen(_, g, order) => AddListener(v, g, order)
    case Unlisten(_, g) => RemoveListeners(v, g)
  }

  ghost function Outgoing(v: State, act: GroupAct): multiset<Envelope> {
    match act
    case UserAdd(_, g, x) => Broadcast(v, AddToGroup(g, x))
    case UserRemove(_, g, x) => Broadcast(v, RemoveFromGroup(g, x))
    case _ => multiset{}
  }

  ghost function Incoming(act: GroupAct): multiset<Envelope> {
    match act
    case DeliverAdd(n, g, x) => multiset{Envelope(n, AddToGroup(g, x))}
    case DeliverRemove(n, g, x) => multiset{Envelope(n, RemoveFromGroup(g, x))}
    case _ => multiset{}
  }

  ghost function GroupStep(s: Net, act: GroupAct): Net
    requires act.n in s.nodes
  {
    var v := s.nodes[act.n];
    s.(nodes := s.nodes[act.n := GroupOp(v, act)],
       wire := s.wire + Outgoing(v, act) - Incoming(act),
       origins := if act.UserAdd? then s.origins + {(act.n, act.g, act.x)} else s.origins)
  }

  ghost function MeshStep(s: Net, act: MeshAct): Net
    requires MeshEnabled(s, act)
  {
    match act
    case UserAddPeer(n, a, t) =>
      var s' := Check(s, n, a, t);
      if a in s.nodes then s'.(links := s.links + {(n, a)}) else s'
    case DeliverAddPeer(n, a, t) => Consume(Check(s, n, a, t), Envelope(n, AddPeer(a)))
    case Commit(t) => CommitTask(s, t)
    case FailConnect(t) => s.(tasks := s.tasks - {t})
    case LosePeer(n, a) => s.(nodes := s.nodes[n := RemovePeer(s.nodes[n], a)])
    case LoseCall(e) => Consume(s, e)
  }

  ghost function Next(s: Net, act: Action): Net
    requires Enabled(s, act)
  {
    match act
    case Mesh(m) => MeshStep(s, m)
    case Group(a) => GroupStep(s, a)
  }

  ghost predicate Initial(s: Net) {
    && (forall n :: n in s.nodes ==> s.nodes[n] == State(n, {}, map[], map[]))
    && s.wire == multiset{} && s.tasks == map[] && s.links == {} && s.origins == {}
    && s.calls == map[] && s.repeats == map[]
  }

  ghost predicate Runs(s: Net, acts: seq<Action>)
    decreases |acts|
  {
    acts == [] || (Enabled(s, acts[0]) && Runs(Next(s, acts[0]), acts[1..]))
  }

  ghost function After(s: Net, acts: seq<Action>): Net
    requires Runs(s, acts)
    decreases |acts|
  {
    if acts == [] then s else After(Next(s, acts[0]), acts[1..])
  }

  /** No connection is lost, no call is lost, and connecting to a live node succeeds. */
  ghost predicate HealthyAct(s: Net, act: MeshAct) {
    && !act.LosePeer? && !act.LoseCall?
    && (act.FailConnect? && act.t in s.tasks ==> s.tasks[act.t].1 !in s.nodes)
  }

  ghost predicate Healthy(s: Net, act: Action) { act.Mesh? ==> HealthyAct(s, act.mesh) }

  ghost predicate HealthyRun(s: Net, acts: seq<Action>)
    requires Runs(s, acts)
    decreases |acts|
  {
    acts == [] || (Healthy(s, acts[0]) && HealthyRun(Next(s, acts[0]), acts[1..]))
  }

  // ---------- chains of user requests ----------

  ghost predicate Joined(links: set<(Addr, Addr)>, x: Addr, y: Addr) {
    (x, y) in links || (y, x) in links
  }

  ghost predicate Chain(links: set<(Addr, Addr)>, p: seq<Addr>) {
    p != [] && forall i :: 0 <= i < |p| - 1 ==> Joined(links, p[i], p[i + 1])
  }

  ghost predicate ChainFrom(links: set<(Addr, Addr)>, p: seq<Addr>, x: Addr, y: Addr) {
    Chain(links, p) && p[0] == x && p[|p| - 1] == y
  }

  ghost predicate Linked(links: set<(Addr, Addr)>, x: Addr, y: Addr) {
    exists p :: ChainFrom(links, p, x, y)
  }

  lemma LinkedSelf(links: set<(Addr, Addr)>, x: Addr)
    ensures Linked(links, x, x)
  {
    assert ChainFrom(links, [x], x, x);
  }

  lemma LinkedStep(links: set<(Addr, Addr)>, x: Addr, y: Addr)
    requires Joined(links, x, y)
    ensures Linked(links, x, y)
  {
    assert ChainFrom(links, [x, y], x, y);
  }

  lemma LinkedSym(links: set<(Addr, Addr)>, x: Addr, y: Addr)
    requires Linked(links, x, y)
    ensures Linked(links, y, x)
  {
    var p :| ChainFrom(links, p, x, y);
    var q := seq(|p|, i requires 0 <= i < |p| => p[|p| - 1 - i]);
    forall i | 0 <= i < |q| - 1 ensures Joined(links, q[i], q[i + 1]) {
      var j := |p| - 2 - i;
      assert Joined(links, p[j], p[j + 1]);
    }
    assert ChainFrom(links, q, y, x);
  }

  lemma LinkedTrans(links: set<(Addr, Addr)>, x: Addr, y: Addr, z: Addr)
    requires Linked(links, x, y) && Linked(links, y, z)
    ensures Linked(links, x, z)
  {
    var p :| ChainFrom(links, p, x, y);
    var q :| ChainFrom(links, q, y, z);
    var r := p + q[1..];
    forall i | 0 <= i < |r| - 1 ensures Joined(links, r[i], r[i + 1]) {
      if i < |p| - 1 {
      } else {
        var j := i - (|p| - 1);
        assert r[i] == q[j] && r[i + 1] == q[j + 1];
      }
    }
    assert ChainFrom(links, r, x, z);
  }

  lemma LinkedGrows(links: set<(Addr, Addr)>, more: set<(Addr, Addr)>, x: Addr, y: Addr)
    requires links <= more && Linked(links, x, y)
    ensures Linked(more, x, y)
  {
    var p :| ChainFrom(links, p, x, y);
    assert ChainFrom(more, p, x, y);
  }

  // ---------- what every healthy step keeps ----------

  ghost predicate Sane(s: Net) {
    && (forall n :: n in s.nodes ==> s.nodes[n].self == n && s.nodes[n].peers <= s.nodes.Keys)
    && (forall e :: e in s.wire ==> e.dst in s.nodes && (e.call.AddPeer? ==> e.call.peer in s.nodes))
    && (forall t :: t in s.tasks ==> s.tasks[t].0 in s.nodes)
    && (forall x, y :: (x, y) in s.links ==> x in s.nodes && y in s.nodes)
  }

  /** `x` has `y` as a peer, or is still to be told of it, or is connecting to it right now. */
  ghost predicate Knows(s: Net, x: Addr, y: Addr) {
    x in s.nodes &&
    (|| y in s.nodes[x].peers
     || Envelope(x, AddPeer(y)) in s.wire
     || exists t :: t in s.tasks && s.tasks[t] == (x, y))
  }

  ghost predicate Asked(s: Net) {
    forall x, y :: (x, y) in s.links ==> Knows(s, x, y)
  }

  ghost predicate Mutual(s: Net) {
    forall x, y :: x in s.nodes && y in s.nodes[x].peers && y != x ==> Knows(s, y, x)
  }

  ghost predicate Introduced(s: Net) {
    forall x, y, z :: x in s.nodes && y in s.nodes[x].peers && z in s.nodes[x].peers && y != z ==>
      Knows(s, y, z) || Knows(s, z, y)
  }

  ghost predicate Sound(s: Net) {
    forall x, y :: Knows(s, x, y) && y in s.nodes ==> Linked(s.links, x, y)
  }

  ghost predicate MeshInv(s: Net) {
    Sane(s) && Asked(s) && Mutual(s) && Introduced(s) && Sound(s)
  }

  lemma CallsOfCommit(v: State, a: Addr, e: Envelope)
    ensures e in PeerCalls(v, a) + GroupCalls(v, a) <==>
      e.dst == a && match e.call
                    case AddPeer(p) => p == v.self || (p in v.peers && p != a)
                    case AddToGroup(g, x) => g in v.groups && x in v.groups[g]
                    case RemoveFromGroup(_, _) => false
  {
    match e.call
    case AddPeer(p) =>
      assert e in Introductions(v.peers - {a}, a) <==> e.dst == a && p in v.peers - {a};
    case AddToGroup(g, x) =>
      assert e in Replays(v.groups, a) <==> e.dst == a && g in v.groups && x in v.groups[g];
    case RemoveFromGroup(_, _) =>
  }

  lemma CallsOfBroadcast(v: State, c: Call, e: Envelope)
    ensures e in Broadcast(v, c) <==> e.dst in v.peers && e.call == c
  {
    assert e in Broadcasts(v.peers, c) <==> e.dst in v.peers && e.call == c;
  }

  /** Group operations leave the peers of every node and every addPeer call alone. */
  ghost predicate SameMesh(s: Net, s': Net) {
    && s'.nodes.Keys == s.nodes.Keys && s'.tasks == s.tasks && s'.links == s.links
    && (forall n :: n in s.nodes ==>
          s'.nodes[n].peers == s.nodes[n].peers && s'.nodes[n].self == s.nodes[n].self)
    && (forall x, y :: Envelope(x, AddPeer(y)) in s'.wire <==> Envelope(x, AddPeer(y)) in s.wire)
  }

  lemma CallsOfGroupAct(v: State, act: GroupAct, e: Envelope)
    ensures e in Outgoing(v, act) <==>
      e.dst in v.peers && ((act.UserAdd? && e.call == AddToGroup(act.g, act.x)) ||
                           (act.UserRemove? && e.call == RemoveFromGroup(act.g, act.x)))
  {
    match act
    case UserAdd(_, g, x) => CallsOfBroadcast(v, AddToGroup(g, x), e);
    case UserRemove(_, g, x) => CallsOfBroadcast(v, RemoveFromGroup(g, x), e);
    case _ =>
  }

  lemma GroupStepKeepsMesh(s: Net, act: GroupAct)
    requires act.n in s.nodes
    ensures SameMesh(s, GroupStep(s, act))
  {
    var s' := GroupStep(s, act);
    forall x, y
      ensures Envelope(x, AddPeer(y)) in s'.wire <==> Envelope(x, AddPeer(y)) in s.wire
    {
      var e := Envelope(x, AddPeer(y));
      assert e !in Outgoing(s.nodes[act.n], act) by { CallsOfGroupAct(s.nodes[act.n], act, e); }
      assert e !in Incoming(act);
    }
  }

  lemma SameMeshKnows(s: Net, s': Net, x: Addr, y: Addr)
    requires SameMesh(s, s')
    ensures Knows(s, x, y) <==> Knows(s', x, y)
  {
  }

  lemma PeerStays(s: Net, act: MeshAct, x: Addr, y: Addr)
    requires MeshEnabled(s, act) && !act.LosePeer? && x in s.nodes && y in s.nodes[x].peers
    ensures x in MeshStep(s, act).nodes && y in MeshStep(s, act).nodes[x].peers
  {
    if !act.Commit? {
      OtherStepsKeepNodes(s, act);
    }
  }

  lemma CallStays(s: Net, act: MeshAct, e: Envelope)
    requires MeshEnabled(s, act) && !act.LoseCall? && e in s.wire
    requires !(act.DeliverAddPeer? && e == Envelope(act.n, AddPeer(act.a)))
    ensures e in MeshStep(s, act).wire
  {
  }

  lemma TaskStays(s: Net, act: MeshAct, t: nat)
    requires MeshEnabled(s, act) && t in s.tasks && act != Commit(t) && act != FailConnect(t)
    ensures t in MeshStep(s, act).tasks && MeshStep(s, act).tasks[t] == s.tasks[t]
  {
    match act
    case UserAddPeer(n, a, u) => assert Check(s, n, a, u).tasks[t] == s.tasks[t];
    case DeliverAddPeer(n, a, u) => assert Check(s, n, a, u).tasks[t] == s.tasks[t];
    case Commit(u) => assert t in s.tasks - {u};
    case FailConnect(u) => assert t in s.tasks - {u};
    case _ =>
  }

  lemma DeliveryKnows(s: Net, x: Addr, y: Addr, t: nat)
    requires MeshEnabled(s, DeliverAddPeer(x, y, t))
    ensures Knows(MeshStep(s, DeliverAddPeer(x, y, t)), x, y)
  {
    var s' := MeshStep(s, DeliverAddPeer(x, y, t));
    assert y !in s.nodes[x].peers ==> t in s'.tasks && s'.tasks[t] == (x, y);
  }

  lemma ToldStaysKnown(s: Net, act: MeshAct, x: Addr, y: Addr)
    requires MeshEnabled(s, act) && HealthyAct(s, act) && x in s.nodes && Envelope(x, AddPeer(y)) in s.wire
    ensures Knows(MeshStep(s, act), x, y)
  {
    if act.DeliverAddPeer? && act.n == x && act.a == y {
      DeliveryKnows(s, x, y, act.t);
    } else {
      SameNodes(s, act);
      CallStays(s, act, Envelope(x, AddPeer(y)));
    }
  }

  lemma TriedStaysKnown(s: Net, act: MeshAct, t: nat, x: Addr, y: Addr)
    requires MeshEnabled(s, act) && HealthyAct(s, act) && x in s.nodes && y in s.nodes
    requires t in s.tasks && s.tasks[t] == (x, y)
    ensures Knows(MeshStep(s, act), x, y)
  {
    if act == Commit(t) {
      assert y in CommitTask(s, t).nodes[x].peers;
    } else {
      SameNodes(s, act);
      TaskStays(s, act, t);
    }
  }

  /** Which peers are known can only grow. */
  lemma MeshKnowsGrows(s: Net, act: MeshAct, x: Addr, y: Addr)
    requires MeshEnabled(s, act) && HealthyAct(s, act)
    requires Knows(s, x, y) && y in s.nodes
    ensures Knows(MeshStep(s, act), x, y)
  {
    if y in s.nodes[x].peers {
      PeerStays(s, act, x, y);
    } else if Envelope(x, AddPeer(y)) in s.wire {
      ToldStaysKnown(s, act, x, y);
    } else {
      var t :| t in s.tasks && s.tasks[t] == (x, y);
      TriedStaysKnown(s, act, t, x, y);
    }
  }

  ghost predicate NewByCommit(s: Net, t: nat, x: Addr, y: Addr)
    requires t in s.tasks && s.tasks[t].0 in s.nodes
  {
    var (n, a) := s.tasks[t];
    x == a && (y == s.nodes[n].self || y in s.nodes[n].peers)
  }

  lemma KnowsNewByCommit(s: Net, t: nat, x: Addr, y: Addr)
    requires t in s.tasks && s.tasks[t].0 in s.nodes
    requires Knows(CommitTask(s, t), x, y) && !Knows(s, x, y)
    ensures NewByCommit(s, t, x, y)
  {
    var (n, a) := s.tasks[t];
    CallsOfCommit(s.nodes[n], a, Envelope(x, AddPeer(y)));
    assert Knows(s, n, a);
  }

  lemma KnowsAfterCheck(s: Net, n: Addr, a: Addr, t: nat, x: Addr, y: Addr)
    requires n in s.nodes && t !in s.tasks
    ensures Knows(Check(s, n, a, t), x, y) <==> Knows(s, x, y) || (x, y) == (n, a)
  {
    var s' := Check(s, n, a, t);
    if a !in s.nodes[n].peers {
      assert s'.tasks[t] == (n, a);
    }
    if Knows(s, x, y) && y !in s.nodes[x].peers && Envelope(x, AddPeer(y)) !in s.wire {
      var u :| u in s.tasks && s.tasks[u] == (x, y);
      assert u in s'.tasks && s'.tasks[u] == (x, y);
    }
  }

  lemma KnowsAfterConsume(s: Net, e: Envelope, x: Addr, y: Addr)
    requires Knows(Consume(s, e), x, y)
    ensures Knows(s, x, y)
  {
  }

  /** Where new knowledge comes from: a user request, or a critical section that introduces the
      new peer to this node and to its other peers. */
  lemma KnowsNew(s: Net, act: MeshAct, x: Addr, y: Addr)
    requires MeshEnabled(s, act) && Knows(MeshStep(s, act), x, y) && !Knows(s, x, y)
    ensures (act.UserAddPeer? && act.n == x && act.a == y) || (act.Commit? && NewByCommit(s, act.t, x, y))
  {
    match act
    case UserAddPeer(n, a, t) =>
      assert Knows(Check(s, n, a, t), x, y);
      KnowsAfterCheck(s, n, a, t, x, y);
    case DeliverAddPeer(n, a, t) =>
      KnowsAfterConsume(Check(s, n, a, t), Envelope(n, AddPeer(a)), x, y);
      KnowsAfterCheck(s, n, a, t, x, y);
    case Commit(t) => KnowsNewByCommit(s, t, x, y);
    case FailConnect(_) =>
    case LosePeer(_, _) =>
    case LoseCall(e) => KnowsAfterConsume(s, e, x, y);
  }

  lemma PeersNew(s: Net, act: MeshAct, x: Addr, y: Addr)
    requires MeshEnabled(s, act) && x in s.nodes
    requires y in MeshStep(s, act).nodes[x].peers && y !in s.nodes[x].peers
    ensures act.Commit? && s.tasks[act.t] == (x, y)
  {
    if !act.Commit? && !act.LosePeer? {
      OtherStepsKeepNodes(s, act);
    }
  }

  lemma SaneCheck(s: Net, n: Addr, a: Addr, t: nat)
    requires n in s.nodes && Sane(s)
    ensures Sane(Check(s, n, a, t)) && Check(s, n, a, t).nodes == s.nodes
  {
  }

  lemma SaneConsume(s: Net, e: Envelope)
    requires Sane(s)
    ensures Sane(Consume(s, e))
  {
    assert forall d :: d in Consume(s, e).wire ==> d in s.wire;
  }

  lemma SaneWithout(s: Net, t: nat)
    requires Sane(s)
    ensures Sane(s.(tasks := s.tasks - {t}))
  {
  }

  lemma SaneLosing(s: Net, n: Addr, a: Addr)
    requires Sane(s) && n in s.nodes
    ensures Sane(s.(nodes := s.nodes[n := RemovePeer(s.nodes[n], a)]))
  {
  }

  lemma SaneKeptByCommit(s: Net, t: nat)
    requires t in s.tasks && s.tasks[t].0 in s.nodes && s.tasks[t].1 in s.nodes && Sane(s)
    ensures Sane(CommitTask(s, t)) && CommitTask(s, t).nodes.Keys == s.nodes.Keys
  {
    var s' := CommitTask(s, t);
    forall e | e in s'.wire
      ensures e.dst in s.nodes && (e.call.AddPeer? ==> e.call.peer in s.nodes)
    {
      CallsOfCommit(s.nodes[s.tasks[t].0], s.tasks[t].1, e);
    }
  }

  lemma SaneDelivery(s: Net, n: Addr, a: Addr, t: nat)
    requires n in s.nodes && Sane(s)
    ensures var s' := Consume(Check(s, n, a, t), Envelope(n, AddPeer(a))); Sane(s') && s'.nodes == s.nodes
  {
    SaneCheck(s, n, a, t);
    SaneConsume(Check(s, n, a, t), Envelope(n, AddPeer(a)));
  }

  lemma OtherStepsKeepNodes(s: Net, act: MeshAct)
    requires MeshEnabled(s, act) && !act.Commit? && !act.LosePeer?
    ensures MeshStep(s, act).nodes == s.nodes
  {
    match act
    case UserAddPeer(n, a, t) => assert Check(s, n, a, t).nodes == s.nodes;
    case DeliverAddPeer(n, a, t) => assert Check(s, n, a, t).nodes == s.nodes;
    case FailConnect(_) =>
    case LoseCall(_) =>
  }

  lemma OtherStepsSendNothing(s: Net, act: MeshAct, e: Envelope)
    requires MeshEnabled(s, act) && !act.Commit?
    ensures e in MeshStep(s, act).wire ==> e in s.wire
  {
    match act
    case UserAddPeer(n, a, t) => assert Check(s, n, a, t).wire == s.wire;
    case DeliverAddPeer(n, a, t) => assert Check(s, n, a, t).wire == s.wire;
    case FailConnect(_) =>
    case LosePeer(_, _) =>
    case LoseCall(_) =>
  }

  lemma SameNodes(s: Net, act: MeshAct)
    requires MeshEnabled(s, act)
    ensures MeshStep(s, act).nodes.Keys == s.nodes.Keys
  {
    match act
    case Commit(t) => assert CommitTask(s, t).nodes.Keys == s.nodes.Keys;
    case LosePeer(n, a) => assert s.nodes[n := RemovePeer(s.nodes[n], a)].Keys == s.nodes.Keys;
    case _ => OtherStepsKeepNodes(s, act);
  }

  lemma MeshStepSane(s: Net, act: MeshAct)
    requires MeshEnabled(s, act) && Sane(s)
    ensures Sane(MeshStep(s, act)) && MeshStep(s, act).nodes.Keys == s.nodes.Keys
  {
    SameNodes(s, act);
    match act
    case UserAddPeer(n, a, t) => SaneCheck(s, n, a, t);
    case DeliverAddPeer(n, a, t) => SaneDelivery(s, n, a, t);
    case Commit(t) => SaneKeptByCommit(s, t);
    case FailConnect(t) => SaneWithout(s, t);
    case LosePeer(n, a) => SaneLosing(s, n, a);
    case LoseCall(e) => SaneConsume(s, e);
  }

  lemma GroupStepSane(s: Net, act: GroupAct)
    requires act.n in s.nodes && Sane(s)
    ensures Sane(GroupStep(s, act)) && GroupStep(s, act).nodes.Keys == s.nodes.Keys
  {
    var s' := GroupStep(s, act);
    GroupStepKeepsMesh(s, act);
    forall e | e in s'.wire
      ensures e.dst in s.nodes && (e.call.AddPeer? ==> e.call.peer in s.nodes)
    {
      if e !in s.wire {
        CallsOfGroupAct(s.nodes[act.n], act, e);
      }
    }
  }

  lemma SaneKept(s: Net, act: Action)
    requires Enabled(s, act) && Sane(s)
    ensures Sane(Next(s, act)) && Next(s, act).nodes.Keys == s.nodes.Keys
  {
    match act
    case Mesh(m) => MeshStepSane(s, m);
    case Group(a) => GroupStepSane(s, a);
  }

  lemma AskedKept(s: Net, act: MeshAct)
    requires MeshEnabled(s, act) && HealthyAct(s, act) && Sane(s) && Asked(s)
    ensures Asked(MeshStep(s, act))
  {
    var s' := MeshStep(s, act);
    forall x, y | (x, y) in s'.links ensures Knows(s', x, y) {
      if (x, y) in s.links {
        MeshKnowsGrows(s, act, x, y);
      } else {
        KnowsAfterCheck(s, x, y, act.t, x, y);
        assert Knows(Check(s, x, y, act.t), x, y);
      }
    }
  }

  /** A critical section tells the new peer of this node and of every other peer. */
  lemma CommitIntroduces(s: Net, t: nat, z: Addr)
    requires t in s.tasks && s.tasks[t].0 in s.nodes && s.tasks[t].1 in s.nodes
    requires z == s.nodes[s.tasks[t].0].self || (z in CommitTask(s, t).nodes[s.tasks[t].0].peers && z != s.tasks[t].1)
    ensures Knows(CommitTask(s, t), s.tasks[t].1, z)
  {
    var (n, a) := s.tasks[t];
    CallsOfCommit(s.nodes[n], a, Envelope(a, AddPeer(z)));
  }

  lemma MutualKept(s: Net, act: MeshAct)
    requires MeshEnabled(s, act) && HealthyAct(s, act) && Sane(s) && Mutual(s)
    ensures Mutual(MeshStep(s, act))
  {
    var s' := MeshStep(s, act);
    MeshStepSane(s, act);
    forall x, y | x in s'.nodes && y in s'.nodes[x].peers && y != x ensures Knows(s', y, x) {
      if y in s.nodes[x].peers {
        MeshKnowsGrows(s, act, y, x);
      } else {
        PeersNew(s, act, x, y);
        CommitIntroduces(s, act.t, x);
      }
    }
  }

  lemma IntroducedKept(s: Net, act: MeshAct)
    requires MeshEnabled(s, act) && HealthyAct(s, act) && Sane(s) && Introduced(s)
    ensures Introduced(MeshStep(s, act))
  {
    var s' := MeshStep(s, act);
    MeshStepSane(s, act);
    forall x, y, z | x in s'.nodes && y in s'.nodes[x].peers && z in s'.nodes[x].peers && y != z
      ensures Knows(s', y, z) || Knows(s', z, y)
    {
      if y !in s.nodes[x].peers {
        PeersNew(s, act, x, y);
        CommitIntroduces(s, act.t, z);
      } else if z !in s.nodes[x].peers {
        PeersNew(s, act, x, z);
        CommitIntroduces(s, act.t, y);
      } else if Knows(s, y, z) {
        MeshKnowsGrows(s, act, y, z);
      } else {
        MeshKnowsGrows(s, act, z, y);
      }
    }
  }

  lemma NewByCommitLinked(s: Net, t: nat, x: Addr, y: Addr)
    requires Sane(s) && Sound(s) && t in s.tasks && s.tasks[t].1 in s.nodes
    requires NewByCommit(s, t, x, y)
    ensures Linked(s.links, x, y)
  {
    var n := s.tasks[t].0;
    assert Knows(s, n, x);
    LinkedSym(s.links, n, x);
    if y != n {
      assert Knows(s, n, y);
      LinkedTrans(s.links, x, n, y);
    }
  }

  lemma LinksGrow(s: Net, act: MeshAct)
    requires MeshEnabled(s, act)
    ensures s.links <= MeshStep(s, act).links && MeshStep(s, act).origins == s.origins
    ensures act.UserAddPeer? && act.a in s.nodes ==> (act.n, act.a) in MeshStep(s, act).links
  {
    match act
    case UserAddPeer(n, a, t) => assert Check(s, n, a, t).origins == s.origins;
    case DeliverAddPeer(n, a, t) => assert Check(s, n, a, t).origins == s.origins;
    case Commit(_) =>
    case FailConnect(_) =>
    case LosePeer(_, _) =>
    case LoseCall(_) =>
  }

  lemma SoundKept(s: Net, act: MeshAct)
    requires MeshEnabled(s, act) && Sane(s) && Sound(s)
    ensures Sound(MeshStep(s, act))
  {
    var s' := MeshStep(s, act);
    MeshStepSane(s, act);
    LinksGrow(s, act);
    forall x, y | Knows(s', x, y) && y in s'.nodes ensures Linked(s'.links, x, y) {
      if !Knows(s, x, y) {
        KnowsNew(s, act, x, y);
        if act.UserAddPeer? {
          LinkedStep(s'.links, x, y);
        } else {
          NewByCommitLinked(s, act.t, x, y);
          LinkedGrows(s.links, s'.links, x, y);
        }
      } else {
        LinkedGrows(s.links, s'.links, x, y);
      }
    }
  }

  lemma SameMeshInv(s: Net, s': Net)
    requires SameMesh(s, s') && MeshInv(s) && Sane(s')
    ensures MeshInv(s')
  {
    forall x, y ensures Knows(s, x, y) <==> Knows(s', x, y) {
      SameMeshKnows(s, s', x, y);
    }
  }

  lemma MeshInvKept(s: Net, act: Action)
    requires Enabled(s, act) && Healthy(s, act) && MeshInv(s)
    ensures MeshInv(Next(s, act))
  {
    SaneKept(s, act);
    match act
    case Mesh(m) =>
      AskedKept(s, m);
      MutualKept(s, m);
      IntroducedKept(s, m);
      SoundKept(s, m);
    case Group(a) =>
      GroupStepKeepsMesh(s, a);
      SameMeshInv(s, GroupStep(s, a));
  }

  lemma {:induction false} MeshInvHolds(s: Net, acts: seq<Action>)
    requires MeshInv(s) && Runs(s, acts) && HealthyRun(s, acts)
    ensures MeshInv(After(s, acts)) && After(s, acts).nodes.Keys == s.nodes.Keys
    decreases |acts|
  {
    if acts != [] {
      MeshInvKept(s, acts[0]);
      SaneKept(s, acts[0]);
      MeshInvHolds(Next(s, acts[0]), acts[1..]);
    }
  }

  // ---------- convergence ----------

  ghost predicate MeshQuiet(s: Net) {
    s.tasks == map[] && forall e :: e in s.wire ==> !e.call.AddPeer?
  }

  ghost predicate MutualPeers(s: Net, x: Addr, y: Addr) {
    x in s.nodes && y in s.nodes && x in s.nodes[y].peers && y in s.nodes[x].peers
  }

  lemma {:induction false} ChainMeansPeers(s: Net, p: seq<Addr>)
    requires MeshInv(s) && MeshQuiet(s) && Chain(s.links, p) && |p| > 1
    ensures p[0] != p[|p| - 1] ==> MutualPeers(s, p[0], p[|p| - 1])
  {
    var x, w, y := p[0], p[|p| - 2], p[|p| - 1];
    assert Joined(s.links, w, y);
    assert w != y ==> MutualPeers(s, w, y);
    if |p| > 2 && x != y {
      var q := p[..|p| - 1];
      forall i | 0 <= i < |q| - 1 ensures Joined(s.links, q[i], q[i + 1]) {
        assert Joined(s.links, p[i], p[i + 1]);
      }
      ChainMeansPeers(s, q);
      if x != w && w != y {
        assert Knows(s, x, y) || Knows(s, y, x);
      }
    }
  }

  /** Mesh convergence: in every healthy run, whenever no addPeer call is in flight or being
      handled, two distinct nodes are mutual peers exactly when a chain of user addPeer requests
      links them, and no node lists a peer without being listed back. */
  lemma MeshConverges(s0: Net, acts: seq<Action>, x: Addr, y: Addr)
    requires Initial(s0) && Runs(s0, acts) && HealthyRun(s0, acts)
    requires MeshQuiet(After(s0, acts))
    requires x in s0.nodes && y in s0.nodes && x != y
    ensures MutualPeers(After(s0, acts), x, y) <==> Linked(After(s0, acts).links, x, y)
    ensures x in After(s0, acts).nodes
    ensures y in After(s0, acts).nodes[x].peers ==> MutualPeers(After(s0, acts), x, y)
  {
    MeshInvHolds(s0, acts);
    var s := After(s0, acts);
    if y in s.nodes[x].peers {
      assert Knows(s, x, y);
      assert Knows(s, y, x);
    }
    if Linked(s.links, x, y) {
      var p :| ChainFrom(s.links, p, x, y);
      ChainMeansPeers(s, p);
    }
  }
}
