/** How much gossip the mesh costs: it always dies down, a node's addPeer calls are counted
    exactly, and no node ends up connected to itself. */
module GossipBounds {
  import opened ServiceNode
  import opened Mesh
  import opened GroupGossip

  // ---------- gossip dies down ----------

  /** Steps that are not new user requests: deliveries and handlers going on. */
  ghost predicate Internal(s: Net, act: Action) {
    match act
    case Mesh(m) =>
      || m.DeliverAddPeer? || m.Commit?
      || (m.FailConnect? && m.t in s.tasks && s.tasks[m.t].1 !in s.nodes)
    case Group(a) => a.DeliverAdd? || a.DeliverRemove?
  }

  /** Ordered pairs of nodes where the first does not have the second as a peer. */
  ghost function Missing(s: Net): set<(Addr, Addr)> {
    set x, y | x in s.nodes && y in s.nodes && y !in s.nodes[x].peers :: (x, y)
  }

  /** Handlers about to connect to a peer that has meanwhile become one. */
  ghost function Late(s: Net): set<nat> {
    set t | t in s.tasks && s.tasks[t].0 in s.nodes && s.tasks[t].1 in s.nodes[s.tasks[t].0].peers
  }

  datatype Measure = Measure(missing: nat, late: nat, wire: nat, tasks: nat) {
    ghost predicate Below(m: Measure) {
      || missing < m.missing
      || (missing == m.missing && late < m.late)
      || (missing == m.missing && late == m.late && wire < m.wire)
      || (missing == m.missing && late == m.late && wire == m.wire && tasks < m.tasks)
    }
  }

  ghost function Work(s: Net): Measure {
    Measure(|Missing(s)|, |Late(s)|, |s.wire|, |s.tasks|)
  }

  lemma StrictSubset<T>(a: set<T>, b: set<T>, x: T)
    requires a <= b && x in b && x !in a
    ensures |a| < |b|
  {
    assert a <= b - {x};
    SubsetSize(a, b - {x});
  }

  lemma {:induction false} SubsetSize<T>(a: set<T>, b: set<T>)
    requires a <= b
    ensures |a| <= |b|
  {
    if a != {} {
      var x :| x in a;
      SubsetSize(a - {x}, b - {x});
    }
  }

  lemma FewerTasks(tasks: map<nat, (Addr, Addr)>, t: nat)
    requires t in tasks
    ensures |tasks - {t}| == |tasks| - 1
  {
    assert (tasks - {t}).Keys == tasks.Keys - {t};
  }

  lemma DeliverAddPeerLowers(s: Net, n: Addr, a: Addr, t: nat)
    requires MeshEnabled(s, DeliverAddPeer(n, a, t))
    ensures Work(MeshStep(s, DeliverAddPeer(n, a, t))).Below(Work(s))
  {
    var s' := MeshStep(s, DeliverAddPeer(n, a, t));
    assert Missing(s') == Missing(s);
    assert Late(s') == Late(s);
  }

  lemma CommitLowers(s: Net, t: nat)
    requires MeshEnabled(s, Commit(t))
    ensures Work(CommitTask(s, t)).Below(Work(s))
  {
    var s' := CommitTask(s, t);
    var (n, a) := s.tasks[t];
    if a in s.nodes[n].peers {
      assert s'.nodes[n].peers == s.nodes[n].peers;
      assert Missing(s') == Missing(s);
      assert Late(s') == Late(s) - {t};
    } else {
      assert (n, a) in Missing(s) && (n, a) !in Missing(s');
      StrictSubset(Missing(s'), Missing(s), (n, a));
    }
  }

  lemma FailLowers(s: Net, t: nat)
    requires t in s.tasks
    ensures Work(s.(tasks := s.tasks - {t})).Below(Work(s))
  {
    FewerTasks(s.tasks, t);
    assert Missing(s.(tasks := s.tasks - {t})) == Missing(s);
    LateOfLosing(s, t);
  }

  lemma SameMeshWork(s: Net, s': Net)
    requires SameMesh(s, s')
    ensures Missing(s') == Missing(s) && Late(s') == Late(s)
  {
  }

  lemma GroupDeliveryLowers(s: Net, act: GroupAct)
    requires GroupEnabled(s, act) && (act.DeliverAdd? || act.DeliverRemove?)
    ensures Work(GroupStep(s, act)).Below(Work(s))
  {
    var s' := GroupStep(s, act);
    GroupStepKeepsMesh(s, act);
    SameMeshWork(s, s');
    assert s.wire == s'.wire + Incoming(act);
  }

  /** Termination: every step that is not a user request lowers, lexicographically, the number
      of missing ordered peer pairs, of handlers made late by a race, of calls in flight and of
      handlers. */
  lemma InternalStepLowers(s: Net, act: Action)
    requires Enabled(s, act) && Internal(s, act)
    ensures Work(Next(s, act)).Below(Work(s))
  {
    match act
    case Mesh(DeliverAddPeer(n, a, t)) => DeliverAddPeerLowers(s, n, a, t);
    case Mesh(Commit(t)) => CommitLowers(s, t);
    case Mesh(FailConnect(t)) => FailLowers(s, t);
    case Group(a) => GroupDeliveryLowers(s, a);
  }

  lemma LateOfLosing(s: Net, t: nat)
    requires t in s.tasks
    ensures |Late(s.(tasks := s.tasks - {t}))| <= |Late(s)|
  {
    SubsetSize(Late(s.(tasks := s.tasks - {t})), Late(s));
  }

  ghost predicate InternalRun(s: Net, acts: seq<Action>)
    requires Runs(s, acts)
    decreases |acts|
  {
    acts == [] || (Internal(s, acts[0]) && InternalRun(Next(s, acts[0]), acts[1..]))
  }

  /** As long as anything is left to do, some delivery or handler step is possible. */
  lemma SomethingToDo(s: Net) returns (act: Action)
    requires Sane(s) && !Quiet(s)
    ensures Enabled(s, act) && Internal(s, act)
  {
    if s.tasks != map[] {
      var t :| t in s.tasks;
      act := Mesh(if s.tasks[t].1 in s.nodes then Commit(t) else FailConnect(t));
    } else {
      var e :| e in s.wire;
      match e.call
      case AddPeer(a) => act := Mesh(DeliverAddPeer(e.dst, a, 0));
      case AddToGroup(g, x) => act := Group(DeliverAdd(e.dst, g, x));
      case RemoveFromGroup(g, x) => act := Group(DeliverRemove(e.dst, g, x));
    }
  }

  lemma DrainStep(s: Net) returns (act: Action)
    requires Sane(s) && !Quiet(s)
    ensures Enabled(s, act) && Internal(s, act) && Sane(Next(s, act)) && Work(Next(s, act)).Below(Work(s))
  {
    act := SomethingToDo(s);
    SaneKept(s, act);
    InternalStepLowers(s, act);
  }

  /** A run of deliveries and handler steps that leaves nothing to do. */
  ghost predicate Settles(s: Net, acts: seq<Action>) {
    Runs(s, acts) && InternalRun(s, acts) && Quiet(After(s, acts))
  }

  lemma PrependRun(s: Net, act: Action, rest: seq<Action>)
    requires Enabled(s, act) && Runs(Next(s, act), rest)
    ensures Runs(s, [act] + rest) && After(s, [act] + rest) == After(Next(s, act), rest)
  {
    var acts := [act] + rest;
    assert acts[0] == act && acts[1..] == rest;
  }

  lemma PrependInternal(s: Net, act: Action, rest: seq<Action>)
    requires Enabled(s, act) && Internal(s, act) && Runs(Next(s, act), rest) && InternalRun(Next(s, act), rest)
    requires Runs(s, [act] + rest)
    ensures InternalRun(s, [act] + rest)
  {
    var acts := [act] + rest;
    assert acts[0] == act && acts[1..] == rest;
  }

  lemma Prepend(s: Net, act: Action, rest: seq<Action>)
    requires Enabled(s, act) && Internal(s, act) && Settles(Next(s, act), rest)
    ensures Settles(s, [act] + rest)
  {
    PrependRun(s, act, rest);
    PrependInternal(s, act, rest);
  }

  lemma NothingToDo(s: Net)
    requires Quiet(s)
    ensures Settles(s, [])
  {
  }

  /** From every state whose calls and handlers belong to live nodes, delivering what is in
      flight in some order leads to a quiet state. */
  lemma {:induction false} Drains(s: Net) returns (acts: seq<Action>)
    requires Sane(s)
    ensures Settles(s, acts)
    decreases Work(s).missing, Work(s).late, Work(s).wire, Work(s).tasks
  {
    if Quiet(s) {
      acts := [];
      NothingToDo(s);
    } else {
      var act := DrainStep(s);
      var rest := DrainsOn(s, act);
      acts := [act] + rest;
      Prepend(s, act, rest);
    }
  }

  lemma {:induction false} DrainsOn(s: Net, act: Action) returns (rest: seq<Action>)
    requires Enabled(s, act) && Sane(Next(s, act)) && Work(Next(s, act)).Below(Work(s))
    ensures Settles(Next(s, act), rest)
    decreases Work(s).missing, Work(s).late, Work(s).wire, Work(s).tasks, 0
  {
    rest := Drains(Next(s, act));
  }

  // ---------- under every schedule ----------

  /** Nothing but a new user request can happen. */
  ghost predicate AtRest(s: Net) { forall act :: Enabled(s, act) ==> !Internal(s, act) }

  lemma RestIsQuiet(s: Net)
    requires Sane(s)
    ensures AtRest(s) <==> Quiet(s)
  {
    if !Quiet(s) {
      var act := SomethingToDo(s);
    }
  }

  ghost predicate Goes(run: nat -> Net, acts: nat -> Action, i: nat) {
    Enabled(run(i), acts(i)) && Internal(run(i), acts(i)) && run(i + 1) == Next(run(i), acts(i))
  }

  /** No schedule of deliveries and handler steps goes on for ever. */
  lemma {:induction false} GossipStops(run: nat -> Net, acts: nat -> Action, i: nat) returns (j: nat)
    ensures i <= j && !Goes(run, acts, j)
    decreases Work(run(i)).missing, Work(run(i)).late, Work(run(i)).wire, Work(run(i)).tasks
  {
    j := i;
    if Goes(run, acts, i) {
      InternalStepLowers(run(i), acts(i));
      j := GossipStops(run, acts, i + 1);
    }
  }

  lemma InternalIsHealthy(s: Net, act: Action, g: string, x: string)
    requires Internal(s, act)
    ensures Healthy(s, act) && KeepsName(act, g, x)
  {
  }

  lemma {:induction false} InternalRunsAreHealthy(s: Net, acts: seq<Action>, g: string, x: string)
    requires Runs(s, acts) && InternalRun(s, acts)
    ensures HealthyRun(s, acts) && KeepsNameRun(acts, g, x)
    decreases |acts|
  {
    if acts != [] {
      InternalIsHealthy(s, acts[0], g, x);
      InternalRunsAreHealthy(Next(s, acts[0]), acts[1..], g, x);
    }
  }

  /** Eventual consistency: let any healthy run be followed by any schedule of deliveries and
      handler steps that goes on until no more is possible. If no user removed the member, every
      node then has it exactly when it is owed to it. */
  lemma EventuallyConsistent(s0: Net, acts: seq<Action>, more: seq<Action>, n: Addr, g: string, x: string)
    requires Initial(s0) && Runs(s0, acts) && HealthyRun(s0, acts) && KeepsNameRun(acts, g, x)
    requires Runs(After(s0, acts), more) && InternalRun(After(s0, acts), more)
    requires AtRest(After(After(s0, acts), more)) && n in s0.nodes
    ensures var t := After(After(s0, acts), more);
      Quiet(t) && (Has(t, n, g, x) <==> Owed(t, n, g, x))
  {
    var s := After(s0, acts);
    GroupInvHolds(s0, acts, g, x);
    InternalRunsAreHealthy(s, more, g, x);
    GroupInvHolds(s, more, g, x);
    RestIsQuiet(After(s, more));
    QuietAgreement(After(s, more), n, g, x);
  }

  // ---------- what it costs ----------

  lemma {:induction false} IntroductionsSize(ps: set<Addr>, a: Addr)
    ensures |Introductions(ps, a)| == |ps|
  {
    if ps != {} {
      var p :| p in ps;
      IntroductionsSize(ps - {p}, a);
      assert Introductions(ps, a) == Introductions(ps - {p}, a) + {Envelope(a, AddPeer(p))};
    }
  }

  lemma PeerCallsSize(v: State, a: Addr)
    ensures |PeerCalls(v, a)| == |v.peers + {a}|
  {
    IntroductionsSize(v.peers - {a}, a);
    assert v.peers + {a} == (v.peers - {a}) + {a};
  }

  /** The addPeer calls of a node with d peers are at least d(d+1)/2, and exactly that many
      unless some critical section found its peer already connected. */
  ghost predicate Billed(s: Net, n: Addr)
    requires n in s.nodes
  {
    var d := |s.nodes[n].peers|;
    && 2 * Count(s.calls, n) >= d * (d + 1)
    && (2 * Count(s.calls, n) == d * (d + 1) <==> Count(s.repeats, n) == 0)
  }

  /** One more critical section: d calls when the peer was known, d + 1 when it is new. */
  lemma BillAdds(calls: nat, repeats: nat, d: nat, known: bool)
    requires 2 * calls >= d * (d + 1) && (2 * calls == d * (d + 1) <==> repeats == 0) && (known ==> d > 0)
    ensures var e := if known then d else d + 1; var again := if known then repeats + 1 else repeats;
      && 2 * (calls + e) >= e * (e + 1) && (2 * (calls + e) == e * (e + 1) <==> again == 0)
  {
    assert (d + 1) * (d + 2) == d * (d + 1) + 2 * (d + 1);
  }

  lemma CommitCounts(s: Net, t: nat)
    requires MeshEnabled(s, Commit(t))
    ensures var (n, a) := s.tasks[t]; var s' := CommitTask(s, t); var known := a in s.nodes[n].peers;
      && |s'.nodes[n].peers| == |s.nodes[n].peers| + (if known then 0 else 1)
      && Count(s'.calls, n) == Count(s.calls, n) + |s'.nodes[n].peers|
      && Count(s'.repeats, n) == Count(s.repeats, n) + (if known then 1 else 0)
  {
    var (n, a) := s.tasks[t];
    PeerCallsSize(s.nodes[n], a);
    assert a in s.nodes[n].peers ==> s.nodes[n].peers + {a} == s.nodes[n].peers;
  }

  lemma BilledAfterCommit(s: Net, t: nat)
    requires MeshEnabled(s, Commit(t)) && Billed(s, s.tasks[t].0)
    ensures Billed(CommitTask(s, t), s.tasks[t].0)
  {
    var (n, a) := s.tasks[t];
    CommitCounts(s, t);
    BillAdds(Count(s.calls, n), Count(s.repeats, n), |s.nodes[n].peers|, a in s.nodes[n].peers);
  }

  lemma MeshStepBilled(s: Net, act: MeshAct, n: Addr)
    requires MeshEnabled(s, act) && HealthyAct(s, act) && n in s.nodes && Billed(s, n)
    ensures n in MeshStep(s, act).nodes && Billed(MeshStep(s, act), n)
  {
    if act.Commit? {
      if n == s.tasks[act.t].0 {
        BilledAfterCommit(s, act.t);
      } else {
        SameBill(s, CommitTask(s, act.t), n);
      }
    } else {
      SameBill(s, MeshStep(s, act), n);
    }
  }

  lemma SameBill(s: Net, s': Net, n: Addr)
    requires n in s.nodes && n in s'.nodes && s'.nodes[n].peers == s.nodes[n].peers && Billed(s, n)
    requires Count(s'.calls, n) == Count(s.calls, n) && Count(s'.repeats, n) == Count(s.repeats, n)
    ensures Billed(s', n)
  {
  }

  lemma BilledKept(s: Net, act: Action, n: Addr)
    requires Enabled(s, act) && Healthy(s, act) && n in s.nodes && Billed(s, n)
    ensures n in Next(s, act).nodes && Billed(Next(s, act), n)
  {
    match act
    case Mesh(m) => MeshStepBilled(s, m, n);
    case Group(a) =>
      GroupStepKeepsMesh(s, a);
      SameBill(s, GroupStep(s, a), n);
  }

  lemma {:induction false} BilledHolds(s: Net, acts: seq<Action>, n: Addr)
    requires Runs(s, acts) && HealthyRun(s, acts) && n in s.nodes && Billed(s, n)
    ensures n in After(s, acts).nodes && Billed(After(s, acts), n)
    decreases |acts|
  {
    if acts != [] {
      BilledKept(s, acts[0], n);
      BilledHolds(Next(s, acts[0]), acts[1..], n);
    }
  }

  /** The exact cost of gossip, for every node of every healthy run. */
  lemma GossipCost(s0: Net, acts: seq<Action>, n: Addr)
    requires Initial(s0) && Runs(s0, acts) && HealthyRun(s0, acts) && n in s0.nodes
    ensures n in After(s0, acts).nodes && Billed(After(s0, acts), n)
  {
    BilledHolds(s0, acts, n);
  }

  ghost predicate Finishes(act: Action) { act.Mesh? && (act.mesh.Commit? || act.mesh.FailConnect?) }

  /** A run in which every addPeer handler finishes before another action starts. */
  ghost predicate SerialRun(s: Net, acts: seq<Action>)
    requires Runs(s, acts)
    decreases |acts|
  {
    acts == [] ||
    ((s.tasks != map[] ==> Finishes(acts[0])) &&
     SerialRun(Next(s, acts[0]), acts[1..]))
  }

  ghost predicate NeverRaced(s: Net) {
    && s.repeats == map[] && Late(s) == {}
    && forall t, u :: t in s.tasks && u in s.tasks ==> t == u
  }

  lemma NeverRacedAfterCommit(s: Net, t: nat)
    requires MeshEnabled(s, Commit(t)) && NeverRaced(s)
    ensures NeverRaced(CommitTask(s, t))
  {
    assert t !in Late(s);
    assert CommitTask(s, t).tasks.Keys == {};
  }

  lemma NeverRacedAfterCheck(s: Net, n: Addr, a: Addr, t: nat)
    requires NeverRaced(s) && s.tasks == map[] && n in s.nodes
    ensures NeverRaced(Check(s, n, a, t))
  {
    assert forall u :: u in Check(s, n, a, t).tasks ==> u == t;
  }

  lemma MeshStepNeverRaced(s: Net, act: MeshAct)
    requires MeshEnabled(s, act) && HealthyAct(s, act) && NeverRaced(s)
    requires s.tasks != map[] ==> act.Commit? || act.FailConnect?
    ensures NeverRaced(MeshStep(s, act))
  {
    match act
    case UserAddPeer(n, a, t) => NeverRacedAfterCheck(s, n, a, t);
    case DeliverAddPeer(n, a, t) =>
      NeverRacedAfterCheck(s, n, a, t);
      assert Late(MeshStep(s, act)) == Late(Check(s, n, a, t));
    case Commit(t) => NeverRacedAfterCommit(s, t);
    case FailConnect(t) => assert (s.tasks - {t}).Keys == {};
  }

  lemma NeverRacedKept(s: Net, act: Action)
    requires Enabled(s, act) && Healthy(s, act) && NeverRaced(s)
    requires s.tasks != map[] ==> Finishes(act)
    ensures NeverRaced(Next(s, act))
  {
    match act
    case Mesh(m) => MeshStepNeverRaced(s, m);
    case Group(a) =>
      GroupStepKeepsMesh(s, a);
      SameMeshWork(s, GroupStep(s, a));
  }

  lemma {:induction false} NeverRacedHolds(s: Net, acts: seq<Action>)
    requires Runs(s, acts) && HealthyRun(s, acts) && SerialRun(s, acts) && NeverRaced(s)
    ensures NeverRaced(After(s, acts))
    decreases |acts|
  {
    if acts != [] {
      NeverRacedKept(s, acts[0]);
      NeverRacedHolds(Next(s, acts[0]), acts[1..]);
    }
  }

  /** Without races a node with d peers has made exactly d(d+1)/2 addPeer calls. */
  lemma SerialGossipCost(s0: Net, acts: seq<Action>, n: Addr)
    requires Initial(s0) && Runs(s0, acts) && HealthyRun(s0, acts) && SerialRun(s0, acts)
    requires n in s0.nodes
    ensures n in After(s0, acts).nodes
    ensures var d := |After(s0, acts).nodes[n].peers|; 2 * Count(After(s0, acts).calls, n) == d * (d + 1)
  {
    assert Late(s0) == {};
    NeverRacedHolds(s0, acts);
    GossipCost(s0, acts, n);
  }

  // ---------- what is sent, call by call ----------

  /** How many times a critical section makes each call: its own address once, every other peer
      once, every member of every group once, and nothing else. */
  lemma SentOnce(v: State, a: Addr, e: Envelope)
    ensures (PeerCalls(v, a) + GroupCalls(v, a))[e] ==
      if e.dst != a then 0
      else match e.call
           case AddPeer(p) => (if p == v.self then 1 else 0) + (if p in v.peers && p != a then 1 else 0)
           case AddToGroup(g, x) => if g in v.groups && x in v.groups[g] then 1 else 0
           case RemoveFromGroup(_, _) => 0
  {
    assert e in Introductions(v.peers - {a}, a) <==> e.dst == a && e.call.AddPeer? && e.call.peer in v.peers - {a};
    assert e in Replays(v.groups, a) <==>
      e.dst == a && e.call.AddToGroup? && e.call.group in v.groups && e.call.name in v.groups[e.call.group];
  }

  /** A lost peer is forgotten, so that the next request for it connects anew: it is told of this
      node, of every other peer and of every member again. While it was a peer the same request
      did nothing. */
  lemma LostPeerReconnects(s: Net, n: Addr, a: Addr, t: nat)
    requires n in s.nodes && a in s.nodes && a in s.nodes[n].peers && t !in s.tasks
    ensures var known := MeshStep(s, UserAddPeer(n, a, t)); known.tasks == s.tasks && known.wire == s.wire
    ensures var lost := MeshStep(s, LosePeer(n, a));
      && a !in lost.nodes[n].peers
      && var asked := MeshStep(lost, UserAddPeer(n, a, t));
      && MeshEnabled(asked, Commit(t))
      && var again := MeshStep(asked, Commit(t));
      && again.nodes[n].peers == s.nodes[n].peers && again.tasks == s.tasks
      && again.wire == s.wire + PeerCalls(s.nodes[n], a) + GroupCalls(s.nodes[n], a)
  {
    var lost := MeshStep(s, LosePeer(n, a));
    var asked := MeshStep(lost, UserAddPeer(n, a, t));
    assert asked.tasks == s.tasks[t := (n, a)] && asked.tasks - {t} == s.tasks;
    assert asked.nodes[n].peers == s.nodes[n].peers - {a};
    assert s.nodes[n].peers - {a} - {a} == s.nodes[n].peers - {a};
    assert s.nodes[n].peers - {a} + {a} == s.nodes[n].peers;
  }

  // ---------- no node peers with itself ----------

  ghost predicate NoSelfPeer(s: Net) {
    && (forall n :: n in s.nodes ==> s.nodes[n].self == n && n !in s.nodes[n].peers)
    && (forall e :: e in s.wire && e.call.AddPeer? ==> e.call.peer != e.dst)
    && (forall t :: t in s.tasks ==> s.tasks[t].0 != s.tasks[t].1)
  }

  ghost predicate NamesOther(act: Action) {
    act.Mesh? && act.mesh.UserAddPeer? ==> act.mesh.n != act.mesh.a
  }

  lemma NoSelfPeerAfterCommit(s: Net, t: nat)
    requires MeshEnabled(s, Commit(t)) && NoSelfPeer(s)
    ensures NoSelfPeer(CommitTask(s, t))
  {
    var (n, a) := s.tasks[t];
    forall e | e in CommitTask(s, t).wire && e.call.AddPeer? ensures e.call.peer != e.dst {
      CallsOfCommit(s.nodes[n], a, e);
    }
  }

  lemma SameMeshNoSelfPeer(s: Net, s': Net)
    requires SameMesh(s, s') && NoSelfPeer(s)
    ensures NoSelfPeer(s')
  {
    forall e | e in s'.wire && e.call.AddPeer? ensures e.call.peer != e.dst {
      assert e == Envelope(e.dst, AddPeer(e.call.peer));
    }
  }

  lemma NoSelfPeerConsume(s: Net, e: Envelope)
    requires NoSelfPeer(s)
    ensures NoSelfPeer(Consume(s, e))
  {
    assert forall d :: d in Consume(s, e).wire ==> d in s.wire;
  }

  lemma NoSelfPeerCheck(s: Net, n: Addr, a: Addr, t: nat)
    requires n in s.nodes && n != a && NoSelfPeer(s)
    ensures NoSelfPeer(Check(s, n, a, t))
  {
  }

  lemma MeshStepNoSelfPeer(s: Net, act: MeshAct)
    requires MeshEnabled(s, act) && (act.UserAddPeer? ==> act.n != act.a) && NoSelfPeer(s)
    ensures NoSelfPeer(MeshStep(s, act))
  {
    match act
    case UserAddPeer(n, a, t) => NoSelfPeerCheck(s, n, a, t);
    case DeliverAddPeer(n, a, t) =>
      NoSelfPeerCheck(s, n, a, t);
      NoSelfPeerConsume(Check(s, n, a, t), Envelope(n, AddPeer(a)));
    case Commit(t) => NoSelfPeerAfterCommit(s, t);
    case FailConnect(_) =>
    case LosePeer(_, _) =>
    case LoseCall(e) => NoSelfPeerConsume(s, e);
  }

  lemma NoSelfPeerKept(s: Net, act: Action)
    requires Enabled(s, act) && NamesOther(act) && NoSelfPeer(s)
    ensures NoSelfPeer(Next(s, act))
  {
    match act
    case Mesh(m) => MeshStepNoSelfPeer(s, m);
    case Group(a) =>
      GroupStepKeepsMesh(s, a);
      SameMeshNoSelfPeer(s, GroupStep(s, a));
  }

  lemma {:induction false} NoSelfPeerHolds(s: Net, acts: seq<Action>)
    requires NoSelfPeer(s) && Runs(s, acts)
    requires forall i :: 0 <= i < |acts| ==> NamesOther(acts[i])
    ensures NoSelfPeer(After(s, acts))
    decreases |acts|
  {
    if acts != [] {
      assert NamesOther(acts[0]);
      NoSelfPeerKept(s, acts[0]);
      NoSelfPeerHolds(Next(s, acts[0]), acts[1..]);
    }
  }

  /** No self-peering: in every run, lost connections and lost calls included, in which no user
      names a node's own address, no node has itself as a peer or is asked to. */
  lemma NoSelfPeering(s0: Net, acts: seq<Action>)
    requires Initial(s0) && Runs(s0, acts)
    requires forall i :: 0 <= i < |acts| ==> NamesOther(acts[i])
    ensures NoSelfPeer(After(s0, acts))
  {
    NoSelfPeerHolds(s0, acts);
  }
}
