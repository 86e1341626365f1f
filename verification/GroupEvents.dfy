/** What a group callback learns: whether the events it is told add up to the group. */
module GroupEvents {
  import opened Common
  import opened ServiceNode

  /** Anything that can happen to one node's groups; `local` tells the node's own user from a
      peer's call. */
  datatype Op =
    | Added(g: string, x: string, local: bool)
    | Removed(g: string, x: string, local: bool)
    | Listened(g: string, order: seq<string>)
    | Unlistened(g: string)

  ghost predicate Legal(s: State, op: Op) {
    op.Listened? ==> Enumerates(op.order, s.MembersOf(op.g).Keys)
  }

  function Step(s: State, op: Op): State {
    match op
    case Added(g, x, local) => if local then LocalAdd(s, g, x) else RemoteAdd(s, g, x)
    case Removed(g, x, local) => if local then LocalRemove(s, g, x) else RemoteRemove(s, g, x)
    case Listened(g, order) => AddListener(s, g, order)
    case Unlistened(g) => RemoveListeners(s, g)
  }

  ghost predicate LegalRun(s: State, ops: seq<Op>)
    decreases |ops|
  {
    ops == [] || (Legal(s, ops[0]) && LegalRun(Step(s, ops[0]), ops[1..]))
  }

  function After(s: State, ops: seq<Op>): State
    decreases |ops|
  {
    if ops == [] then s else After(Step(s, ops[0]), ops[1..])
  }

  /** The names present after a listener's events, taken at their word. */
  function Replay(l: Listener): set<string> {
    if l == [] then {} else
      var e := l[|l| - 1];
      var before := Replay(l[..|l| - 1]);
      if e.added then before + {e.name} else before - {e.name}
  }

  /** Only absent names are added and only present ones removed. */
  ghost predicate Alternates(l: Listener) {
    forall i :: 0 <= i < |l| ==> (l[i].added <==> l[i].name !in Replay(l[..i]))
  }

  /** A listener's events rebuild the group. */
  ghost predicate Tracks(l: Listener, names: set<string>) {
    Replay(l) == names && Alternates(l)
  }

  ghost predicate Counted(s: State, g: string) {
    forall x :: x in s.MembersOf(g) ==> s.MembersOf(g)[x] >= 1
  }

  ghost predicate Tracked(s: State, g: string) {
    forall i :: 0 <= i < |s.ListenersOf(g)| ==> Tracks(s.ListenersOf(g)[i], s.MembersOf(g).Keys)
  }

  /** Every count is positive and every listener's events rebuild its group. */
  ghost predicate Faithful(s: State) {
    forall g :: Counted(s, g) && Tracked(s, g)
  }

  lemma TracksAppend(l: Listener, names: set<string>, e: Event)
    requires Tracks(l, names) && (e.added <==> e.name !in names)
    ensures Tracks(l + [e], if e.added then names + {e.name} else names - {e.name})
  {
    var m := l + [e];
    assert m[..|m| - 1] == l;
    forall i | 0 <= i < |m| ensures m[i].added <==> m[i].name !in Replay(m[..i]) {
      assert i < |l| ==> m[..i] == l[..i] && m[i] == l[i];
      assert i == |l| ==> m[..i] == l;
    }
  }

  ghost function NamesIn(order: seq<string>): set<string> { set x | x in order }

  lemma SnapshotGrows(front: seq<string>, x: string)
    ensures Snapshot(front + [x]) == Snapshot(front) + [Event(x, true)]
    ensures NamesIn(front + [x]) == NamesIn(front) + {x}
  {
  }

  lemma {:induction false} SnapshotTracks(order: seq<string>)
    requires forall i, j :: 0 <= i < j < |order| ==> order[i] != order[j]
    ensures Tracks(Snapshot(order), NamesIn(order))
  {
    if order == [] {
      assert Snapshot(order) == [];
    } else {
      var front, x := order[..|order| - 1], order[|order| - 1];
      SnapshotTracks(front);
      assert order == front + [x];
      SnapshotGrows(front, x);
      assert x !in NamesIn(front);
      TracksAppend(Snapshot(front), NamesIn(front), Event(x, true));
    }
  }

  lemma {:induction false} UnmentionedKept(l: Listener, i: nat, j: nat, name: string)
    requires i <= j <= |l| && forall k :: i <= k < j ==> l[k].name != name
    ensures name in Replay(l[..j]) <==> name in Replay(l[..i])
    decreases j - i
  {
    if i < j {
      UnmentionedKept(l, i, j - 1, name);
      assert l[..j][..j - 1] == l[..j - 1];
    }
  }

  /** Successive events about one name differ in kind. */
  lemma EventsAlternate(l: Listener, i: nat, j: nat)
    requires Alternates(l) && i < j < |l| && l[i].name == l[j].name
    requires forall k :: i < k < j ==> l[k].name != l[i].name
    ensures l[i].added != l[j].added
  {
    UnmentionedKept(l, i + 1, j, l[i].name);
    assert l[..i + 1][..i] == l[..i];
  }

  lemma NotifyTracked(s: State, s': State, g: string, e: Event)
    requires Tracked(s, g) && (e.added <==> e.name !in s.MembersOf(g).Keys)
    requires s'.ListenersOf(g) == Notify(s.ListenersOf(g), e)
    requires s'.MembersOf(g).Keys ==
      if e.added then s.MembersOf(g).Keys + {e.name} else s.MembersOf(g).Keys - {e.name}
    ensures Tracked(s', g)
  {
    forall i | 0 <= i < |s'.ListenersOf(g)|
      ensures Tracks(s'.ListenersOf(g)[i], s'.MembersOf(g).Keys)
    {
      TracksAppend(s.ListenersOf(g)[i], s.MembersOf(g).Keys, e);
    }
  }

  /** The condition under which an operation keeps the events faithful. */
  ghost predicate NamesPresent(s: State, op: Op) {
    op.Removed? ==> op.x in s.MembersOf(op.g)
  }

  lemma OtherGroups(s: State, op: Op, g: string)
    requires op.g != g
    ensures Step(s, op).MembersOf(g) == s.MembersOf(g)
    ensures Step(s, op).ListenersOf(g) == s.ListenersOf(g)
  {
    match op
    case Added(_, _, _) =>
    case Removed(_, _, _) =>
    case Listened(_, _) =>
    case Unlistened(_) =>
  }

  lemma AddTracks(s: State, op: Op)
    requires op.Added? && Counted(s, op.g) && Tracked(s, op.g)
    ensures Counted(Step(s, op), op.g) && Tracked(Step(s, op), op.g)
  {
    var s', g := Step(s, op), op.g;
    if op.x in s.MembersOf(g) {
      assert s'.MembersOf(g).Keys == s.MembersOf(g).Keys;
      assert s'.ListenersOf(g) == s.ListenersOf(g);
    } else {
      NotifyTracked(s, s', g, Event(op.x, true));
    }
  }

  lemma RemoveTracks(s: State, op: Op)
    requires op.Removed? && NamesPresent(s, op) && Counted(s, op.g) && Tracked(s, op.g)
    ensures Counted(Step(s, op), op.g) && Tracked(Step(s, op), op.g)
  {
    var s', g := Step(s, op), op.g;
    if s.MembersOf(g)[op.x] == 1 {
      assert s'.MembersOf(g) == s.MembersOf(g) - {op.x};
      NotifyTracked(s, s', g, Event(op.x, false));
    } else {
      assert s'.MembersOf(g) == s.MembersOf(g);
      assert s'.ListenersOf(g) == s.ListenersOf(g);
    }
  }

  lemma ListenTracks(s: State, op: Op)
    requires op.Listened? && Legal(s, op) && Counted(s, op.g) && Tracked(s, op.g)
    ensures Counted(Step(s, op), op.g) && Tracked(Step(s, op), op.g)
  {
    SnapshotTracks(op.order);
    assert NamesIn(op.order) == s.MembersOf(op.g).Keys;
  }

  lemma GroupKept(s: State, op: Op, g: string)
    requires Faithful(s) && Legal(s, op) && NamesPresent(s, op)
    ensures Counted(Step(s, op), g) && Tracked(Step(s, op), g)
  {
    assert Counted(s, g) && Tracked(s, g);
    if op.g != g {
      OtherGroups(s, op, g);
    } else {
      match op
      case Added(_, _, _) => AddTracks(s, op);
      case Removed(_, _, _) => RemoveTracks(s, op);
      case Listened(_, _) => ListenTracks(s, op);
      case Unlistened(_) => assert Step(s, op).MembersOf(g) == s.MembersOf(g);
    }
  }

  /** One operation keeps the events faithful exactly when it is not a removal of an absent
      name. */
  lemma FaithfulStep(s: State, op: Op)
    requires Faithful(s) && Legal(s, op)
    ensures Faithful(Step(s, op)) <==> NamesPresent(s, op)
  {
    if NamesPresent(s, op) {
      forall g ensures Counted(Step(s, op), g) && Tracked(Step(s, op), g) {
        GroupKept(s, op, g);
      }
    } else {
      assert Step(s, op).MembersOf(op.g)[op.x] < 1;
      assert !Counted(Step(s, op), op.g);
    }
  }

  ghost predicate AlwaysFaithful(s: State, ops: seq<Op>)
    decreases |ops|
  {
    Faithful(s) && (ops != [] ==> AlwaysFaithful(Step(s, ops[0]), ops[1..]))
  }

  ghost predicate RemovalsPresent(s: State, ops: seq<Op>)
    decreases |ops|
  {
    ops != [] ==> NamesPresent(s, ops[0]) && RemovalsPresent(Step(s, ops[0]), ops[1..])
  }

  // ---------- no callback is lost ----------

  /** How many callbacks a group has after an operation, n before. */
  function Registered(n: nat, op: Op, g: string): nat {
    match op
    case Listened(h, _) => if h == g then n + 1 else n
    case Unlistened(h) => if h == g then 0 else n
    case _ => n
  }

  /** The registrations since the last time the group's callbacks were dropped. */
  function Registrations(n: nat, ops: seq<Op>, g: string): nat
    decreases |ops|
  {
    if ops == [] then n else Registrations(Registered(n, ops[0], g), ops[1..], g)
  }

  /** What callbacks have been told so far stays told, in order. */
  ghost predicate Extends(before: seq<Listener>, after: seq<Listener>) {
    |before| <= |after| && forall i :: 0 <= i < |before| ==> before[i] <= after[i]
  }

  /** An operation neither loses nor invents callbacks, and takes back nothing they were told. */
  lemma ListenersStep(s: State, op: Op, g: string)
    ensures |Step(s, op).ListenersOf(g)| == Registered(|s.ListenersOf(g)|, op, g)
    ensures op != Unlistened(g) ==> Extends(s.ListenersOf(g), Step(s, op).ListenersOf(g))
  {
    if op.g != g {
      OtherGroups(s, op, g);
    } else {
      match op
      case Added(_, _, _) =>
      case Removed(_, _, _) =>
      case Listened(_, _) =>
      case Unlistened(_) =>
    }
  }

  /** Along every run a group has exactly the callbacks registered since they were last dropped. */
  lemma {:induction false} ListenersCounted(s: State, ops: seq<Op>, g: string)
    ensures |After(s, ops).ListenersOf(g)| == Registrations(|s.ListenersOf(g)|, ops, g)
    decreases |ops|
  {
    if ops != [] {
      ListenersStep(s, ops[0], g);
      ListenersCounted(Step(s, ops[0]), ops[1..], g);
    }
  }

  /** Until the group's callbacks are dropped, each keeps its place and its events. */
  lemma {:induction false} ListenersKept(s: State, ops: seq<Op>, g: string)
    requires forall i :: 0 <= i < |ops| ==> ops[i] != Unlistened(g)
    ensures Extends(s.ListenersOf(g), After(s, ops).ListenersOf(g))
    decreases |ops|
  {
    if ops != [] {
      assert ops[0] != Unlistened(g);
      ListenersStep(s, ops[0], g);
      ListenersKept(Step(s, ops[0]), ops[1..], g);
    }
  }

  lemma {:induction false} FaithfulRun(s: State, ops: seq<Op>)
    requires Faithful(s) && LegalRun(s, ops)
    ensures AlwaysFaithful(s, ops) <==> RemovalsPresent(s, ops)
    decreases |ops|
  {
    if ops != [] {
      FaithfulStep(s, ops[0]);
      if NamesPresent(s, ops[0]) {
        FaithfulRun(Step(s, ops[0]), ops[1..]);
      }
    }
  }

  /** Event replay: along a run, every count is positive and every callback's events rebuild its
      group in every state, exactly when each removal names a member present at that moment; and
      in any case the callbacks are all those registered and not dropped since. */
  lemma EventReplay(s: State, ops: seq<Op>)
    requires Faithful(s) && LegalRun(s, ops)
    ensures AlwaysFaithful(s, ops) <==> RemovalsPresent(s, ops)
    ensures forall g :: |After(s, ops).ListenersOf(g)| == Registrations(|s.ListenersOf(g)|, ops, g)
  {
    FaithfulRun(s, ops);
    forall g ensures |After(s, ops).ListenersOf(g)| == Registrations(|s.ListenersOf(g)|, ops, g) {
      ListenersCounted(s, ops, g);
    }
  }

  // ---------- counts ----------

  /** How often a run adds a member. */
  function Adds(ops: seq<Op>, g: string, x: string): nat {
    if ops == [] then 0
    else (if ops[0].Added? && ops[0].g == g && ops[0].x == x then 1 else 0) + Adds(ops[1..], g, x)
  }

  ghost predicate NeverRemoved(ops: seq<Op>, g: string, x: string) {
    forall i :: 0 <= i < |ops| ==> ops[i].Removed? ==> ops[i].g != g || ops[i].x != x
  }

  /** The count of a name, nothing being zero. */
  function Tally(s: State, g: string, x: string): int {
    if x in s.MembersOf(g) then s.MembersOf(g)[x] else 0
  }

  lemma TallyStep(s: State, op: Op, g: string, x: string)
    requires op.Removed? ==> op.g != g || op.x != x
    ensures Tally(Step(s, op), g, x) == Tally(s, g, x) + Adds([op], g, x)
    ensures x in Step(s, op).MembersOf(g) <==> x in s.MembersOf(g) || Adds([op], g, x) > 0
  {
    if op.g != g {
      OtherGroups(s, op, g);
    } else {
      match op
      case Added(_, _, _) =>
      case Removed(_, _, _) =>
      case Listened(_, _) =>
      case Unlistened(_) =>
    }
  }

  /** Every add counts: while nobody removes a member, its count grows by the adds, local ones and
      those of peers. */
  lemma {:induction false} AddsCounted(s: State, ops: seq<Op>, g: string, x: string)
    requires NeverRemoved(ops, g, x)
    ensures Tally(After(s, ops), g, x) == Tally(s, g, x) + Adds(ops, g, x)
    ensures x in After(s, ops).MembersOf(g) <==> x in s.MembersOf(g) || Adds(ops, g, x) > 0
    decreases |ops|
  {
    if ops != [] {
      assert ops[0].Removed? ==> ops[0].g != g || ops[0].x != x;
      TallyStep(s, ops[0], g, x);
      assert [ops[0]][1..] == [];
      AddsCounted(Step(s, ops[0]), ops[1..], g, x);
    }
  }

  /** A removal takes a member out exactly when its count is one; any other count stays as it is,
      and an absent name is entered. Other names are not touched. */
  lemma RemovalTakesEffect(s: State, op: Op)
    requires op.Removed?
    ensures var m, n := s.MembersOf(op.g), Step(s, op).MembersOf(op.g);
      && (op.x !in n <==> op.x in m && m[op.x] == 1)
      && (op.x in m && m[op.x] != 1 ==> n == m)
      && (op.x !in m ==> op.x in n && n[op.x] == if op.local then 0 else -1)
      && n - {op.x} == m - {op.x}
  {
  }

  /** What comes of removing an absent name: until somebody removes it again its count is the
      number of adds since, after a local removal, or one less, after a peer's. */
  lemma AbsentRemovalCounts(s: State, op: Op, ops: seq<Op>)
    requires op.Removed? && op.x !in s.MembersOf(op.g) && NeverRemoved(ops, op.g, op.x)
    ensures var t := After(Step(s, op), ops);
      op.x in t.MembersOf(op.g) &&
      t.MembersOf(op.g)[op.x] == Adds(ops, op.g, op.x) - if op.local then 0 else 1
  {
    RemovalTakesEffect(s, op);
    AddsCounted(Step(s, op), ops, op.g, op.x);
  }

  ghost predicate CountedTwice(s: State, g: string, x: string) {
    x in s.MembersOf(g) && s.MembersOf(g)[x] >= 2
  }

  lemma CountedTwiceStep(s: State, op: Op, g: string, x: string)
    requires CountedTwice(s, g, x)
    ensures CountedTwice(Step(s, op), g, x)
    ensures Step(s, op).MembersOf(g)[x] == s.MembersOf(g)[x] + Adds([op], g, x)
  {
    if op.Removed? && op.g == g && op.x == x {
      RemovalTakesEffect(s, op);
    } else {
      TallyStep(s, op, g, x);
    }
  }

  /** The counts are not reference counts: a member counted twice stays for good, however often
      it is removed, and its count only ever grows, by one for every add. */
  lemma {:induction false} CountedTwiceStays(s: State, ops: seq<Op>, g: string, x: string)
    requires CountedTwice(s, g, x)
    ensures CountedTwice(After(s, ops), g, x)
    ensures After(s, ops).MembersOf(g)[x] == s.MembersOf(g)[x] + Adds(ops, g, x)
    decreases |ops|
  {
    if ops != [] {
      CountedTwiceStep(s, ops[0], g, x);
      assert [ops[0]][1..] == [];
      CountedTwiceStays(Step(s, ops[0]), ops[1..], g, x);
    }
  }
}
