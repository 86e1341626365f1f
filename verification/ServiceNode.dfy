/** One node of the full-mesh peer-to-peer service: its peers, its replicated groups and the
    listeners on those groups. The first half gives every operation as a function of the node's
    value; class Internal at the end performs the operations step by step and is proved to
    compute those functions. */
module ServiceNode {
  import opened Common

  datatype Addr = Addr(host: string, port: nat)

  /** A call that one node makes on another. */
  datatype Call =
    | AddPeer(peer: Addr)
    | AddToGroup(group: string, name: string)
    | RemoveFromGroup(group: string, name: string)

  datatype Envelope = Envelope(dst: Addr, call: Call)

  /** What a group callback is told: a member's name and whether it was added or removed. */
  datatype Event = Event(name: string, added: bool)

  /** A registered callback, represented by the events it has been told so far. */
  type Listener = seq<Event>

  /** A group's members with their reference counts. */
  type Members = map<string, int>

  datatype State = State(
    self: Addr,
    peers: set<Addr>,
    groups: map<string, Members>,
    listeners: map<string, seq<Listener>>)
  {
    function MembersOf(g: string): Members {
      if g in groups then groups[g] else map[]
    }

    function ListenersOf(g: string): seq<Listener> {
      if g in listeners then listeners[g] else []
    }
  }

  function Notify(ls: seq<Listener>, e: Event): (r: seq<Listener>)
    ensures |r| == |ls|
    ensures forall i :: 0 <= i < |ls| ==> r[i] == ls[i] + [e]
  {
    seq(|ls|, i requires 0 <= i < |ls| => ls[i] + [e])
  }

  /** Tells a group's listeners, if it has an entry in the table at all. */
  function Raise(s: State, g: string, e: Event): (r: State)
    ensures r.self == s.self && r.peers == s.peers
  {
    if g in s.listeners then s.(listeners := s.listeners[g := Notify(s.listeners[g], e)]) else s
  }

  function WithMembers(s: State, g: string, m: Members): (r: State)
    ensures r.self == s.self && r.peers == s.peers
  {
    s.(groups := s.groups[g := m])
  }

  /** A member added by this node's own user. Looking up the listeners creates their entry. */
  function LocalAdd(s: State, g: string, x: string): (r: State)
    ensures r.self == s.self && r.peers == s.peers
  {
    var m := s.MembersOf(g);
    if x in m then WithMembers(s, g, m[x := m[x] + 1])
    else WithMembers(s, g, m[x := 1]).(
      listeners := s.listeners[g := Notify(s.ListenersOf(g), Event(x, true))])
  }

  /** A member added by a peer's call. */
  function RemoteAdd(s: State, g: string, x: string): (r: State)
    ensures r.self == s.self && r.peers == s.peers
  {
    var m := s.MembersOf(g);
    if x in m then WithMembers(s, g, m[x := m[x] + 1])
    else Raise(WithMembers(s, g, m[x := 1]), g, Event(x, true))
  }

  /** A member removed. A count above one stays as it is; an absent name is entered with the
      count `missing`, which is 0 for a local removal and -1 for a peer's. */
  function Remove(s: State, g: string, x: string, missing: int): (r: State)
    ensures r.self == s.self && r.peers == s.peers
  {
    var m := s.MembersOf(g);
    if x !in m then WithMembers(s, g, m[x := missing])
    else if m[x] == 1 then Raise(WithMembers(s, g, m - {x}), g, Event(x, false))
    else WithMembers(s, g, m)
  }

  function LocalRemove(s: State, g: string, x: string): (r: State)
    ensures r.self == s.self && r.peers == s.peers
  {
    Remove(s, g, x, 0)
  }

  function RemoteRemove(s: State, g: string, x: string): (r: State)
    ensures r.self == s.self && r.peers == s.peers
  {
    Remove(s, g, x, -1)
  }

  function Snapshot(order: seq<string>): (l: Listener)
    ensures |l| == |order|
    ensures forall i :: 0 <= i < |order| ==> l[i] == Event(order[i], true)
  {
    seq(|order|, i requires 0 <= i < |order| => Event(order[i], true))
  }

  /** A new callback, first told of the present members in the order `order`. */
  function AddListener(s: State, g: string, order: seq<string>): (r: State)
    ensures r.self == s.self && r.peers == s.peers
  {
    WithMembers(s, g, s.MembersOf(g)).(
      listeners := s.listeners[g := s.ListenersOf(g) + [Snapshot(order)]])
  }

  function RemoveListeners(s: State, g: string): (r: State)
    ensures r.self == s.self && r.peers == s.peers
  {
    s.(listeners := s.listeners - {g})
  }

  function RemovePeer(s: State, a: Addr): State { s.(peers := s.peers - {a}) }

  /** The critical section of addPeer: the peer's table entry is written. */
  function CommitPeer(s: State, a: Addr): State { s.(peers := s.peers + {a}) }

  /** The addPeer calls made to `a` in that critical section: our own address and every other
      peer we have. */
  ghost function PeerCalls(s: State, a: Addr): multiset<Envelope> {
    multiset{Envelope(a, AddPeer(s.self))} + multiset(Introductions(s.peers - {a}, a))
  }

  function Introductions(ps: set<Addr>, a: Addr): set<Envelope> {
    set p | p in ps :: Envelope(a, AddPeer(p))
  }

  /** The addToGroup calls that replay our groups to `a`. */
  ghost function GroupCalls(s: State, a: Addr): multiset<Envelope> {
    multiset(Replays(s.groups, a))
  }

  function Replays(gs: map<string, Members>, a: Addr): set<Envelope> {
    set g, x | g in gs && x in gs[g] :: Envelope(a, AddToGroup(g, x))
  }

  function Broadcasts(ps: set<Addr>, c: Call): set<Envelope> {
    set p | p in ps :: Envelope(p, c)
  }

  /** The same call made to every peer. */
  ghost function Broadcast(s: State, c: Call): multiset<Envelope> {
    multiset(Broadcasts(s.peers, c))
  }

  lemma AddOne<T>(s: set<T>, t: set<T>, x: T)
    requires x !in s && t == s + {x}
    ensures multiset(t) == multiset(s) + multiset{x}
  {
  }

  /** What a node holds and does. `sent` records the calls it has made on its peers. */
  class Internal {
    const self: Addr
    var peers: set<Addr>
    var groups: map<string, Members>
    var listeners: map<string, seq<Listener>>
    var sent: multiset<Envelope>

    ghost function Value(): State
      reads this
    {
      State(self, peers, groups, listeners)
    }

    constructor (self: Addr)
      ensures Value() == State(self, {}, map[], map[]) && sent == multiset{}
    {
      this.self := self;
      peers, groups, listeners, sent := {}, map[], map[], multiset{};
    }

    method CallAllPeers(c: Call)
      modifies this`sent
      ensures sent == old(sent) + Broadcast(Value(), c)
    {
      var rest := peers;
      while rest != {}
        invariant rest <= peers
        invariant sent == old(sent) + multiset(Broadcasts(peers - rest, c))
        decreases |rest|
      {
        var p :| p in rest;
        AddOne(Broadcasts(peers - rest, c), Broadcasts(peers - (rest - {p}), c), Envelope(p, c));
        sent := sent + multiset{Envelope(p, c)};
        rest := rest - {p};
      }
      assert peers - rest == peers;
    }

    method Fire(g: string, e: Event)
      requires g in listeners
      modifies this`listeners
      ensures listeners == old(listeners)[g := Notify(old(listeners)[g], e)]
    {
      var i := 0;
      while i < |listeners[g]|
        invariant g in listeners && |listeners[g]| == |old(listeners)[g]|
        invariant 0 <= i <= |listeners[g]|
        invariant listeners == old(listeners)[g := listeners[g]]
        invariant forall j :: 0 <= j < i ==> listeners[g][j] == old(listeners)[g][j] + [e]
        invariant forall j :: i <= j < |listeners[g]| ==> listeners[g][j] == old(listeners)[g][j]
      {
        listeners := listeners[g := listeners[g][i := listeners[g][i] + [e]]];
        i := i + 1;
      }
      assert listeners[g] == Notify(old(listeners)[g], e);
    }

    method UserAddToGroup(g: string, x: string)
      modifies this
      ensures Value() == LocalAdd(old(Value()), g, x)
      ensures sent == old(sent) + Broadcast(old(Value()), AddToGroup(g, x))
    {
      CallAllPeers(AddToGroup(g, x));
      CountLocalAdd(g, x);
    }

    /** Reading a group that has no entry creates an empty one. */
    method CountLocalAdd(g: string, x: string)
      modifies this`groups, this`listeners
      ensures Value() == LocalAdd(old(Value()), g, x)
    {
      var m: Members := if g in groups then groups[g] else map[];
      if x in m {
        groups := groups[g := m[x := m[x] + 1]];
      } else {
        groups := groups[g := m[x := 1]];
        FireCreating(g, Event(x, true));
      }
    }

    /** As Fire, except that looking up the listeners creates their entry. */
    method FireCreating(g: string, e: Event)
      modifies this`listeners
      ensures listeners == old(listeners)[g := Notify(old(Value()).ListenersOf(g), e)]
    {
      if g !in listeners {
        listeners := listeners[g := []];
      }
      Fire(g, e);
    }

    method FireIfAny(g: string, e: Event)
      modifies this`listeners
      ensures Value() == Raise(old(Value()), g, e)
    {
      if g in listeners {
        Fire(g, e);
      }
    }

    method RpcAddToGroup(g: string, x: string)
      modifies this
      ensures Value() == RemoteAdd(old(Value()), g, x) && sent == old(sent)
    {
      var m: Members := if g in groups then groups[g] else map[];
      if x in m {
        groups := groups[g := m[x := m[x] + 1]];
      } else {
        groups := groups[g := m[x := 1]];
        FireIfAny(g, Event(x, true));
      }
    }

    method UserRemoveFromGroup(g: string, x: string)
      modifies this
      ensures Value() == LocalRemove(old(Value()), g, x)
      ensures sent == old(sent) + Broadcast(old(Value()), RemoveFromGroup(g, x))
    {
      CallAllPeers(RemoveFromGroup(g, x));
      CountLocalRemove(g, x);
    }

    method CountLocalRemove(g: string, x: string)
      modifies this`groups, this`listeners
      ensures Value() == LocalRemove(old(Value()), g, x)
    {
      var m: Members := if g in groups then groups[g] else map[];
      if x !in m {
        // Comparing the absent count with one creates it with value zero, so the branch that
        // would decrement it is never taken.
        groups := groups[g := m[x := 0]];
      } else if m[x] == 1 {
        groups := groups[g := m - {x}];
        FireIfAny(g, Event(x, false));
      } else {
        groups := groups[g := m];
      }
    }

    method RpcRemoveFromGroup(g: string, x: string)
      modifies this
      ensures Value() == RemoteRemove(old(Value()), g, x) && sent == old(sent)
    {
      var m: Members := if g in groups then groups[g] else map[];
      if x !in m {
        groups := groups[g := m[x := 0 - 1]];
      } else if m[x] == 1 {
        groups := groups[g := m - {x}];
        FireIfAny(g, Event(x, false));
      } else {
        groups := groups[g := m];
      }
    }

    /** Registers a callback; `order` is the order in which it was told of the members. */
    method AddGroupCallback(g: string) returns (order: seq<string>)
      modifies this
      ensures Enumerates(order, old(Value()).MembersOf(g).Keys)
      ensures Value() == AddListener(old(Value()), g, order) && sent == old(sent)
      ensures var before, after := old(Value()).ListenersOf(g), Value().ListenersOf(g);
        && |after| == |before| + 1 && after[..|before|] == before && |after[|before|]| == |order|
        && forall i :: 0 <= i < |order| ==> after[|before|][i] == Event(order[i], true)
    {
      var told: Listener := [];
      var m: Members := if g in groups then groups[g] else map[];
      groups := groups[g := m];
      var rest := m.Keys;
      order := [];
      while rest != {}
        invariant rest <= m.Keys
        invariant Enumerates(order, m.Keys - rest)
        invariant told == Snapshot(order)
        decreases |rest|
      {
        var x :| x in rest;
        order := order + [x];
        told := told + [Event(x, true)];
        rest := rest - {x};
      }
      var before := if g in listeners then listeners[g] else [];
      listeners := listeners[g := before + [told]];
    }

    method RemoveGroupCallback(g: string)
      modifies this
      ensures Value() == RemoveListeners(old(Value()), g) && sent == old(sent)
    {
      listeners := listeners - {g};
    }

    method ConnectionLost(a: Addr)
      modifies this
      ensures Value() == RemovePeer(old(Value()), a) && sent == old(sent)
    {
      peers := peers - {a};
    }

    /** The test that addPeer makes before it takes the lock. */
    method AlreadyConnected(a: Addr) returns (yes: bool)
      ensures yes <==> a in Value().peers
    {
      yes := a in peers;
    }

    method ReplayGroup(g: string, a: Addr)
      requires g in groups
      modifies this`sent
      ensures sent == old(sent) + multiset(GroupReplays(g, groups[g].Keys, a))
    {
      var names := groups[g].Keys;
      while names != {}
        invariant names <= groups[g].Keys
        invariant sent == old(sent) + multiset(GroupReplays(g, groups[g].Keys - names, a))
        decreases |names|
      {
        var x :| x in names;
        AddOne(GroupReplays(g, groups[g].Keys - names, a),
               GroupReplays(g, groups[g].Keys - (names - {x}), a), Envelope(a, AddToGroup(g, x)));
        sent := sent + multiset{Envelope(a, AddToGroup(g, x))};
        names := names - {x};
      }
      assert groups[g].Keys - names == groups[g].Keys;
    }

    method ReplayGroups(a: Addr)
      modifies this`sent
      ensures sent == old(sent) + GroupCalls(Value(), a)
    {
      var rest := groups.Keys;
      while rest != {}
        invariant rest <= groups.Keys
        invariant sent == old(sent) + multiset(Replays(groups - rest, a))
        decreases |rest|
      {
        var g :| g in rest;
        ReplayGroup(g, a);
        ReplaysGrow(groups, rest, g, a);
        rest := rest - {g};
      }
      assert groups - rest == groups;
    }

    /** Tells `a`, which is a peer by now, of every other peer. */
    method Introduce(a: Addr)
      modifies this`sent
      ensures sent == old(sent) + multiset(Introductions(peers - {a}, a))
    {
      ghost var others := peers - {a};
      var rest := peers;
      while rest != {}
        invariant rest <= peers
        invariant sent == old(sent) + multiset(Introductions(others - rest, a))
        decreases |rest|
      {
        var p :| p in rest;
        if p != a {
          assert others - (rest - {p}) == (others - rest) + {p};
          AddOne(Introductions(others - rest, a), Introductions(others - (rest - {p}), a),
                 Envelope(a, AddPeer(p)));
          sent := sent + multiset{Envelope(a, AddPeer(p))};
        } else {
          assert others - (rest - {p}) == others - rest;
        }
        rest := rest - {p};
      }
      assert others - rest == others;
    }

    /** The critical section of addPeer, entered once the connection is up. */
    method CommitAddPeer(a: Addr)
      modifies this
      ensures Value() == CommitPeer(old(Value()), a)
      ensures sent == old(sent) + PeerCalls(old(Value()), a) + GroupCalls(old(Value()), a)
    {
      peers := peers + {a};
      sent := sent + multiset{Envelope(a, AddPeer(self))};
      assert peers - {a} == old(peers) - {a};
      Introduce(a);
      ReplayGroups(a);
    }

    /** addPeer as one thread runs it when no other thread interferes. `reachable` is whether
        the connection attempt succeeds. */
    method RpcAddPeer(a: Addr, reachable: bool) returns (ok: bool)
      modifies this
      ensures ok <==> a in old(peers) || reachable
      ensures Value() == if ok then CommitPeer(old(Value()), a) else old(Value())
      ensures sent == if a in old(peers) || !reachable then old(sent)
                      else old(sent) + PeerCalls(old(Value()), a) + GroupCalls(old(Value()), a)
    {
      ok := AlreadyConnected(a);
      if ok {
        assert peers + {a} == peers;
      } else if reachable {
        CommitAddPeer(a);
        ok := true;
      }
    }
  }

  function GroupReplays(g: string, names: set<string>, a: Addr): set<Envelope> {
    set x | x in names :: Envelope(a, AddToGroup(g, x))
  }

  lemma ReplaysGrow(gs: map<string, Members>, rest: set<string>, g: string, a: Addr)
    requires g in rest && rest <= gs.Keys
    ensures multiset(Replays(gs - (rest - {g}), a))
         == multiset(Replays(gs - rest, a)) + multiset(GroupReplays(g, gs[g].Keys, a))
  {
    var before, more, after :=
      Replays(gs - rest, a), GroupReplays(g, gs[g].Keys, a), Replays(gs - (rest - {g}), a);
    forall e ensures e in after <==> e in before || e in more {
      if e in after {
        var h, x :| h in gs - (rest - {g}) && x in (gs - (rest - {g}))[h] && e == Envelope(a, AddToGroup(h, x));
      }
      if e in before {
        var h, x :| h in gs - rest && x in (gs - rest)[h] && e == Envelope(a, AddToGroup(h, x));
        assert h in gs - (rest - {g});
      }
      if e in more {
        var x :| x in gs[g].Keys && e == Envelope(a, AddToGroup(g, x));
        assert g in gs - (rest - {g});
      }
    }
    assert after == before + more && before !! more;
  }
}
