/** Eventual consistency of group membership over the mesh. A node never forwards a member it
    was told of to the peers it already has; agreement comes from the origin telling its peers
    and from each critical section replaying the groups to the new peer. */
module GroupGossip {
  import opened ServiceNode
  import opened Mesh

  ghost predicate Has(s: Net, n: Addr, g: string, x: string) {
    n in s.nodes && x in s.nodes[n].MembersOf(g)
  }

  /** `n` has the member or is still to be told of it. */
  ghost predicate Reaches(s: Net, n: Addr, g: string, x: string) {
    Has(s, n, g, x) || Envelope(n, AddToGroup(g, x)) in s.wire
  }

  /** Some node linked to `n` had the member added by its own user. */
  ghost predicate Owed(s: Net, n: Addr, g: string, x: string) {
    exists r :: (r, g, x) in s.origins && Linked(s.links, r, n)
  }

  ghost predicate OriginsHave(s: Net, g: string, x: string) {
    forall r :: (r, g, x) in s.origins ==> Has(s, r, g, x)
  }

  ghost predicate OriginsTell(s: Net, g: string, x: string) {
    forall r, a ::
      (r, g, x) in s.origins && r in s.nodes && a in s.nodes[r].peers ==> Reaches(s, a, g, x)
  }

  ghost predicate OnlyOwed(s: Net, g: string, x: string) {
    forall n :: Reaches(s, n, g, x) ==> Owed(s, n, g, x)
  }

  /** No removal of the member is under way. */
  ghost predicate NoRemoval(s: Net, g: string, x: string) {
    forall n :: Envelope(n, RemoveFromGroup(g, x)) !in s.wire
  }

  ghost predicate GroupInv(s: Net, g: string, x: string) {
    MeshInv(s) && NoRemoval(s, g, x) && OriginsHave(s, g, x) && OriginsTell(s, g, x) && OnlyOwed(s, g, x)
  }

  /** The action removes nothing, or another member. */
  ghost predicate Spares(act: GroupAct, g: string, x: string) {
    act.UserRemove? || act.DeliverRemove? ==> act.g != g || act.x != x
  }

  ghost predicate Adds(act: GroupAct, g: string, x: string) {
    (act.UserAdd? || act.DeliverAdd?) && act.g == g && act.x == x
  }

  /** No user asks for the removal of the member; other members may come and go. */
  ghost predicate KeepsName(act: Action, g: string, x: string) {
    act.Group? && act.group.UserRemove? ==> act.group.g != g || act.group.x != x
  }

  lemma SparedAfter(v: State, act: GroupAct, g: string, x: string)
    requires Spares(act, g, x)
    ensures x in GroupOp(v, act).MembersOf(g) <==> x in v.MembersOf(g) || Adds(act, g, x)
  {
  }

  // ---------- what group actions do ----------

  lemma DeliveriesSpare(s: Net, act: GroupAct, g: string, x: string)
    requires GroupEnabled(s, act) && KeepsName(Group(act), g, x) && NoRemoval(s, g, x)
    ensures Spares(act, g, x) && NoRemoval(GroupStep(s, act), g, x)
  {
    if act.DeliverRemove? {
      assert Envelope(act.n, RemoveFromGroup(act.g, act.x)) in s.wire;
    }
    forall n ensures Envelope(n, RemoveFromGroup(g, x)) !in GroupStep(s, act).wire {
      CallsOfGroupAct(s.nodes[act.n], act, Envelope(n, RemoveFromGroup(g, x)));
    }
  }

  lemma HasGrows(s: Net, act: GroupAct, n: Addr, g: string, x: string)
    requires act.n in s.nodes && Spares(act, g, x) && Has(s, n, g, x)
    ensures Has(GroupStep(s, act), n, g, x)
  {
    SparedAfter(s.nodes[act.n], act, g, x);
  }

  lemma ReachesGrows(s: Net, act: GroupAct, n: Addr, g: string, x: string)
    requires GroupEnabled(s, act) && Spares(act, g, x) && Reaches(s, n, g, x)
    requires Envelope(n, AddToGroup(g, x)) in s.wire ==> n in s.nodes
    ensures Reaches(GroupStep(s, act), n, g, x)
  {
    if Has(s, n, g, x) {
      HasGrows(s, act, n, g, x);
    } else if act == DeliverAdd(n, g, x) {
      SparedAfter(s.nodes[n], act, g, x);
      assert Has(GroupStep(s, act), n, g, x);
    } else {
      assert Envelope(n, AddToGroup(g, x)) !in Incoming(act);
    }
  }

  lemma ReachesNew(s: Net, act: GroupAct, n: Addr, g: string, x: string)
    requires GroupEnabled(s, act) && Spares(act, g, x)
    requires Reaches(GroupStep(s, act), n, g, x) && !Reaches(s, n, g, x)
    ensures act.UserAdd? && act.g == g && act.x == x && (n == act.n || n in s.nodes[act.n].peers)
  {
    SparedAfter(s.nodes[act.n], act, g, x);
    CallsOfGroupAct(s.nodes[act.n], act, Envelope(n, AddToGroup(g, x)));
  }

  lemma UserAddTells(s: Net, r: Addr, g: string, x: string, a: Addr)
    requires r in s.nodes && a in s.nodes[r].peers
    ensures Envelope(a, AddToGroup(g, x)) in GroupStep(s, UserAdd(r, g, x)).wire
  {
    CallsOfGroupAct(s.nodes[r], UserAdd(r, g, x), Envelope(a, AddToGroup(g, x)));
  }

  lemma OwedGrows(s: Net, s': Net, n: Addr, g: string, x: string)
    requires s.origins <= s'.origins && s.links <= s'.links && Owed(s, n, g, x)
    ensures Owed(s', n, g, x)
  {
    var r :| (r, g, x) in s.origins && Linked(s.links, r, n);
    LinkedGrows(s.links, s'.links, r, n);
  }

  lemma OwedByUserAdd(s: Net, act: GroupAct, n: Addr)
    requires act.UserAdd? && Sound(s) && Sane(s) && act.n in s.nodes
    requires n == act.n || n in s.nodes[act.n].peers
    ensures Owed(GroupStep(s, act), n, act.g, act.x)
  {
    if n == act.n {
      LinkedSelf(s.links, n);
    } else {
      assert Knows(s, act.n, n);
    }
    assert (act.n, act.g, act.x) in GroupStep(s, act).origins;
  }

  lemma GroupStepKeepsOwed(s: Net, act: GroupAct, g: string, x: string)
    requires GroupEnabled(s, act) && Spares(act, g, x) && Sound(s) && Sane(s) && OnlyOwed(s, g, x)
    ensures OnlyOwed(GroupStep(s, act), g, x)
  {
    var s' := GroupStep(s, act);
    forall n | Reaches(s', n, g, x) ensures Owed(s', n, g, x) {
      if Reaches(s, n, g, x) {
        OwedGrows(s, s', n, g, x);
      } else {
        ReachesNew(s, act, n, g, x);
        OwedByUserAdd(s, act, n);
      }
    }
  }

  lemma OriginHas(s: Net, act: GroupAct, r: Addr, g: string, x: string)
    requires GroupEnabled(s, act) && Spares(act, g, x) && OriginsHave(s, g, x)
    requires (r, g, x) in GroupStep(s, act).origins
    ensures Has(GroupStep(s, act), r, g, x)
  {
    if (r, g, x) in s.origins {
      HasGrows(s, act, r, g, x);
    } else {
      SparedAfter(s.nodes[act.n], act, g, x);
    }
  }

  lemma GroupStepKeepsOrigins(s: Net, act: GroupAct, g: string, x: string)
    requires GroupEnabled(s, act) && Spares(act, g, x) && Sane(s) && OriginsHave(s, g, x) && OriginsTell(s, g, x)
    ensures OriginsHave(GroupStep(s, act), g, x) && OriginsTell(GroupStep(s, act), g, x)
  {
    var s' := GroupStep(s, act);
    forall r | (r, g, x) in s'.origins ensures Has(s', r, g, x) {
      OriginHas(s, act, r, g, x);
    }
    forall r, a | (r, g, x) in s'.origins && r in s'.nodes && a in s'.nodes[r].peers
      ensures Reaches(s', a, g, x)
    {
      if (r, g, x) in s.origins {
        ReachesGrows(s, act, a, g, x);
      } else {
        UserAddTells(s, r, g, x, a);
      }
    }
  }

  // ---------- what connecting does ----------

  lemma CommitKeepsGroups(s: Net, t: nat, n: Addr)
    requires t in s.tasks && s.tasks[t].0 in s.nodes
    ensures n in CommitTask(s, t).nodes <==> n in s.nodes
    ensures n in s.nodes ==> CommitTask(s, t).nodes[n].groups == s.nodes[n].groups
  {
  }

  lemma MeshStepKeepsGroups(s: Net, act: MeshAct, n: Addr)
    requires MeshEnabled(s, act)
    ensures n in MeshStep(s, act).nodes <==> n in s.nodes
    ensures n in s.nodes ==> MeshStep(s, act).nodes[n].groups == s.nodes[n].groups
  {
    match act
    case Commit(t) => CommitKeepsGroups(s, t, n);
    case LosePeer(_, _) =>
    case _ => OtherStepsKeepNodes(s, act);
  }

  lemma MeshStepKeepsHas(s: Net, act: MeshAct, n: Addr, g: string, x: string)
    requires MeshEnabled(s, act)
    ensures Has(MeshStep(s, act), n, g, x) <==> Has(s, n, g, x)
  {
    MeshStepKeepsGroups(s, act, n);
  }

  lemma MeshStepKeepsNoRemoval(s: Net, act: MeshAct, g: string, x: string)
    requires MeshEnabled(s, act) && NoRemoval(s, g, x)
    ensures NoRemoval(MeshStep(s, act), g, x)
  {
    forall n ensures Envelope(n, RemoveFromGroup(g, x)) !in MeshStep(s, act).wire {
      if act.Commit? {
        CallsOfCommit(s.nodes[s.tasks[act.t].0], s.tasks[act.t].1, Envelope(n, RemoveFromGroup(g, x)));
      } else {
        OtherStepsSendNothing(s, act, Envelope(n, RemoveFromGroup(g, x)));
      }
    }
  }

  lemma MeshStepReaches(s: Net, act: MeshAct, n: Addr, g: string, x: string)
    requires MeshEnabled(s, act) && HealthyAct(s, act) && Reaches(s, n, g, x)
    ensures Reaches(MeshStep(s, act), n, g, x)
  {
    MeshStepKeepsHas(s, act, n, g, x);
    if !Has(s, n, g, x) {
      CallStays(s, act, Envelope(n, AddToGroup(g, x)));
    }
  }

  lemma CommitTells(s: Net, t: nat, g: string, x: string)
    requires t in s.tasks && Has(s, s.tasks[t].0, g, x)
    ensures Envelope(s.tasks[t].1, AddToGroup(g, x)) in CommitTask(s, t).wire
  {
    CallsOfCommit(s.nodes[s.tasks[t].0], s.tasks[t].1, Envelope(s.tasks[t].1, AddToGroup(g, x)));
  }

  lemma ReachesNewByCommit(s: Net, t: nat, n: Addr, g: string, x: string)
    requires t in s.tasks && s.tasks[t].0 in s.nodes
    requires Reaches(CommitTask(s, t), n, g, x) && !Reaches(s, n, g, x)
    ensures n == s.tasks[t].1 && Has(s, s.tasks[t].0, g, x)
  {
    CallsOfCommit(s.nodes[s.tasks[t].0], s.tasks[t].1, Envelope(n, AddToGroup(g, x)));
  }

  lemma OtherStepsReachNothing(s: Net, act: MeshAct, n: Addr, g: string, x: string)
    requires MeshEnabled(s, act) && !act.Commit? && Reaches(MeshStep(s, act), n, g, x)
    ensures Reaches(s, n, g, x)
  {
    MeshStepKeepsHas(s, act, n, g, x);
    OtherStepsSendNothing(s, act, Envelope(n, AddToGroup(g, x)));
  }

  lemma OwedByCommit(s: Net, t: nat, g: string, x: string)
    requires Sound(s) && Sane(s) && OnlyOwed(s, g, x) && t in s.tasks && s.tasks[t].1 in s.nodes
    requires Has(s, s.tasks[t].0, g, x)
    ensures Owed(s, s.tasks[t].1, g, x)
  {
    var (m, n) := s.tasks[t];
    assert Reaches(s, m, g, x);
    var r :| (r, g, x) in s.origins && Linked(s.links, r, m);
    assert Knows(s, m, n);
    LinkedTrans(s.links, r, m, n);
  }

  lemma MeshStepOwes(s: Net, act: MeshAct, n: Addr, g: string, x: string)
    requires MeshEnabled(s, act) && Sound(s) && Sane(s) && OnlyOwed(s, g, x)
    requires Reaches(MeshStep(s, act), n, g, x)
    ensures Owed(s, n, g, x)
  {
    if !Reaches(s, n, g, x) {
      if act.Commit? {
        ReachesNewByCommit(s, act.t, n, g, x);
        OwedByCommit(s, act.t, g, x);
      } else {
        OtherStepsReachNothing(s, act, n, g, x);
      }
    }
  }

  lemma MeshStepKeepsOwed(s: Net, act: MeshAct, g: string, x: string)
    requires MeshEnabled(s, act) && Sound(s) && Sane(s) && OnlyOwed(s, g, x)
    ensures OnlyOwed(MeshStep(s, act), g, x)
  {
    var s' := MeshStep(s, act);
    LinksGrow(s, act);
    forall n | Reaches(s', n, g, x) ensures Owed(s', n, g, x) {
      MeshStepOwes(s, act, n, g, x);
      OwedGrows(s, s', n, g, x);
    }
  }

  lemma OriginTells(s: Net, act: MeshAct, r: Addr, g: string, x: string, a: Addr)
    requires MeshEnabled(s, act) && HealthyAct(s, act) && OriginsHave(s, g, x) && OriginsTell(s, g, x)
    requires (r, g, x) in s.origins && r in s.nodes && r in MeshStep(s, act).nodes
    requires a in MeshStep(s, act).nodes[r].peers
    ensures Reaches(MeshStep(s, act), a, g, x)
  {
    if a in s.nodes[r].peers {
      MeshStepReaches(s, act, a, g, x);
    } else {
      PeersNew(s, act, r, a);
      CommitTells(s, act.t, g, x);
    }
  }

  lemma MeshStepKeepsOrigins(s: Net, act: MeshAct, g: string, x: string)
    requires MeshEnabled(s, act) && HealthyAct(s, act) && OriginsHave(s, g, x) && OriginsTell(s, g, x)
    ensures OriginsHave(MeshStep(s, act), g, x) && OriginsTell(MeshStep(s, act), g, x)
  {
    var s' := MeshStep(s, act);
    LinksGrow(s, act);
    forall r | (r, g, x) in s'.origins ensures Has(s', r, g, x) {
      MeshStepKeepsHas(s, act, r, g, x);
    }
    forall r, a | (r, g, x) in s'.origins && r in s'.nodes && a in s'.nodes[r].peers
      ensures Reaches(s', a, g, x)
    {
      OriginTells(s, act, r, g, x, a);
    }
  }

  lemma GroupInvKept(s: Net, act: Action, g: string, x: string)
    requires Enabled(s, act) && Healthy(s, act) && KeepsName(act, g, x) && GroupInv(s, g, x)
    ensures GroupInv(Next(s, act), g, x) && Next(s, act).nodes.Keys == s.nodes.Keys
  {
    MeshInvKept(s, act);
    SaneKept(s, act);
    match act
    case Mesh(m) =>
      MeshStepKeepsNoRemoval(s, m, g, x);
      MeshStepKeepsOwed(s, m, g, x);
      MeshStepKeepsOrigins(s, m, g, x);
    case Group(a) =>
      DeliveriesSpare(s, a, g, x);
      GroupStepKeepsOwed(s, a, g, x);
      GroupStepKeepsOrigins(s, a, g, x);
  }

  ghost predicate KeepsNameRun(acts: seq<Action>, g: string, x: string) {
    forall i :: 0 <= i < |acts| ==> KeepsName(acts[i], g, x)
  }

  lemma {:induction false} GroupInvHolds(s: Net, acts: seq<Action>, g: string, x: string)
    requires GroupInv(s, g, x) && Runs(s, acts) && HealthyRun(s, acts) && KeepsNameRun(acts, g, x)
    ensures GroupInv(After(s, acts), g, x) && After(s, acts).nodes.Keys == s.nodes.Keys
    decreases |acts|
  {
    if acts != [] {
      assert KeepsName(acts[0], g, x);
      GroupInvKept(s, acts[0], g, x);
      GroupInvHolds(Next(s, acts[0]), acts[1..], g, x);
    }
  }

  ghost predicate Quiet(s: Net) { s.tasks == map[] && s.wire == multiset{} }

  lemma QuietAgreement(s: Net, n: Addr, g: string, x: string)
    requires GroupInv(s, g, x) && Quiet(s) && n in s.nodes
    ensures Has(s, n, g, x) <==> Owed(s, n, g, x)
  {
    if Has(s, n, g, x) {
      assert Reaches(s, n, g, x);
    }
    if Owed(s, n, g, x) {
      var r :| (r, g, x) in s.origins && Linked(s.links, r, n);
      assert Has(s, r, g, x);
      if r != n {
        var p :| ChainFrom(s.links, p, r, n);
        ChainMeansPeers(s, p);
        assert Reaches(s, n, g, x);
      }
    }
  }

  /** Convergence of one member: in every healthy run in which no user removes it, however other
      members are added and removed, whenever nothing is in flight or being handled a node has
      the member exactly when the user of some node linked to it has added it. */
  lemma MemberConverges(s0: Net, acts: seq<Action>, n: Addr, g: string, x: string)
    requires Initial(s0) && Runs(s0, acts) && HealthyRun(s0, acts) && KeepsNameRun(acts, g, x)
    requires Quiet(After(s0, acts)) && n in s0.nodes
    ensures n in After(s0, acts).nodes
    ensures x in After(s0, acts).nodes[n].MembersOf(g) <==> Owed(After(s0, acts), n, g, x)
  {
    GroupInvHolds(s0, acts, g, x);
    QuietAgreement(After(s0, acts), n, g, x);
  }

  ghost predicate AddOnlyRun(acts: seq<Action>) {
    forall i :: 0 <= i < |acts| ==> acts[i].Group? ==> !acts[i].group.UserRemove?
  }

  lemma OwedSpreads(s: Net, n: Addr, m: Addr, g: string, x: string)
    requires Linked(s.links, n, m)
    ensures Owed(s, n, g, x) <==> Owed(s, m, g, x)
  {
    LinkedSym(s.links, n, m);
    if Owed(s, n, g, x) {
      var r :| (r, g, x) in s.origins && Linked(s.links, r, n);
      LinkedTrans(s.links, r, n, m);
    }
    if Owed(s, m, g, x) {
      var r :| (r, g, x) in s.origins && Linked(s.links, r, m);
      LinkedTrans(s.links, r, m, n);
    }
  }

  /** Group convergence: in every healthy run without removals, whenever nothing is in flight or
      being handled, a node holds exactly the members that the users of the nodes linked to it
      have added, so all nodes of a connected component hold the same members. */
  lemma GroupsConverge(s0: Net, acts: seq<Action>, n: Addr, m: Addr, g: string)
    requires Initial(s0) && Runs(s0, acts) && HealthyRun(s0, acts) && AddOnlyRun(acts)
    requires Quiet(After(s0, acts)) && n in s0.nodes && m in s0.nodes
    ensures n in After(s0, acts).nodes && m in After(s0, acts).nodes
    ensures forall x ::
      x in After(s0, acts).nodes[n].MembersOf(g) <==> Owed(After(s0, acts), n, g, x)
    ensures Linked(After(s0, acts).links, n, m) ==>
      After(s0, acts).nodes[n].MembersOf(g).Keys == After(s0, acts).nodes[m].MembersOf(g).Keys
  {
    var s := After(s0, acts);
    MeshInvHolds(s0, acts);
    forall x
      ensures x in s.nodes[n].MembersOf(g) <==> Owed(s, n, g, x)
      ensures x in s.nodes[m].MembersOf(g) <==> Owed(s, m, g, x)
    {
      assert KeepsNameRun(acts, g, x);
      MemberConverges(s0, acts, n, g, x);
      MemberConverges(s0, acts, m, g, x);
    }
    if Linked(s.links, n, m) {
      forall x ensures x in s.nodes[n].MembersOf(g) <==> x in s.nodes[m].MembersOf(g) {
        OwedSpreads(s, n, m, g, x);
      }
    }
  }
}
