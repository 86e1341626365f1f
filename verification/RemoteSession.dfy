/** Block stores used over a connection: the RPC system with proxies on the client's side and the
    stores on the server's, where other connections and local callers use the stores too. */
module RemoteSession {
  import opened Common
  import opened Octets
  import opened Fnv
  import opened Framing
  import opened Rpc
  import opened RpcEndings
  import opened BlockStore
  import opened RemoteBlockStore

  /** A server: message formats, packing, and the stores registered as (store, number). */
  datatype Host = Host(setup: Setup, marshal: Marshal, regs: seq<(nat, nat)>)

  ghost predicate GoodHost(h: Host) {
    && GoodSetup(h.setup) && Lossless(h.marshal) && Numbers(h.regs)
    && h.setup.funcs == RegisterAll(h.regs).Keys
  }

  /** One operation carried out on a store; `caller` is the call it was carried out for, if that call
      came over this connection. */
  datatype Entry = Entry(store: nat, query: Query, env: Env, caller: Option<nat>)

  /** `asked` is what the proxies were asked, as (number, question); `log` is every operation in
      the order in which the operations took place. */
  datatype World = World(rpc: System, stores: map<nat, Store>, asked: seq<(nat, Query)>, log: seq<Entry>)

  datatype Event =
    | Ask(bsid: nat, query: Query)
    | Serve(request: Request, env: Env)
    | Elsewhere(store: nat, query: Query, env: Env)
    | Other(act: Action)

  function ProxyRequest(h: Host, id: nat, bsid: nat, q: Query): Request {
    Request(id, MakeString(NameOf(OperationOf(q)), bsid), h.marshal.args(q))
  }

  ghost predicate Usable(x: World, p: nat) { p in x.stores && Indexed(x.stores[p]) }

  /** The store and the question that the server finds in a request. */
  ghost function Found(h: Host, r: Request): Option<(nat, Query)> {
    var table := RegisterAll(h.regs);
    if r.name in table then Some((table[r.name].store, h.marshal.query(table[r.name].op, r.args))) else None
  }

  ghost predicate Can(h: Host, x: World, ev: Event) {
    match ev
    case Ask(bsid, q) =>
      && bsid < TWO64 && h.marshal.ok(q)
      && Enabled(h.setup, x.rpc, Call(MakeString(NameOf(OperationOf(q)), bsid), h.marshal.args(q)))
    case Serve(r, env) =>
      && r in x.rpc.server.work
      && var f := Found(h, r); f.Some? && Usable(x, f.value.0) && Sensible(f.value.1, env)
    case Elsewhere(p, q, env) => Usable(x, p) && Sensible(q, env)
    case Other(a) => !a.Call? && !a.Execute? && Enabled(h.setup, x.rpc, a)
  }

  ghost function Operate(x: World, e: Entry): World
    requires Usable(x, e.store) && Sensible(e.query, e.env)
  {
    x.(stores := x.stores[e.store := Local(x.stores[e.store], e.query, e.env).0], log := x.log + [e])
  }

  /** What an event does to the connection. */
  ghost function RpcAct(h: Host, x: World, ev: Event): Option<Action>
    requires Can(h, x, ev)
  {
    match ev
    case Ask(bsid, q) => Some(Call(MakeString(NameOf(OperationOf(q)), bsid), h.marshal.args(q)))
    case Serve(r, env) =>
      var (p, q) := Found(h, r).value;
      Some(Execute(r, h.marshal.result(ToWire(Local(x.stores[p], q, env).1))))
    case Elsewhere(_, _, _) => None
    case Other(a) => Some(a)
  }

  ghost function Do(h: Host, x: World, ev: Event): World
    requires GoodHost(h) && Can(h, x, ev)
  {
    var a := RpcAct(h, x, ev);
    var y := if a.Some? then x.(rpc := Next(h.setup, x.rpc, a.value)) else x;
    match ev
    case Ask(bsid, q) => y.(asked := x.asked + [(bsid, q)])
    case Serve(r, env) => var (p, q) := Found(h, r).value; Operate(y, Entry(p, q, env, Some(r.id)))
    case Elsewhere(p, q, env) => Operate(y, Entry(p, q, env, None))
    case Other(_) => y
  }

  ghost predicate Happens(h: Host, x: World, evs: seq<Event>)
    requires GoodHost(h)
    decreases |evs|
  {
    evs == [] || (Can(h, x, evs[0]) && Happens(h, Do(h, x, evs[0]), evs[1..]))
  }

  ghost function Then(h: Host, x: World, evs: seq<Event>): World
    requires GoodHost(h) && Happens(h, x, evs)
    decreases |evs|
  {
    if evs == [] then x else Then(h, Do(h, x, evs[0]), evs[1..])
  }

  /** At first every registered store is there, and nothing has happened. */
  ghost predicate Opening(h: Host, stores: map<nat, Store>, x: World) {
    && Initial(x.rpc) && x.stores == stores && x.asked == [] && x.log == []
    && (forall p :: p in stores ==> Indexed(stores[p]))
    && forall i :: 0 <= i < |h.regs| ==> h.regs[i].0 in stores
  }

  // ---------- each store by itself ----------

  ghost predicate SensibleLog(log: seq<Entry>) {
    forall e :: 0 <= e < |log| ==> Sensible(log[e].query, log[e].env)
  }

  /** Store p when only its own operations are carried out, locally: those among the first n. */
  ghost function Alone(s: Store, log: seq<Entry>, p: nat, n: nat): (t: Store)
    requires Indexed(s) && SensibleLog(log) && n <= |log|
    ensures Indexed(t)
    decreases n
  {
    if n == 0 then s
    else
      var before := Alone(s, log, p, n - 1);
      if log[n - 1].store == p then
        LocalKeepsIndex(before, log[n - 1].query, log[n - 1].env);
        Local(before, log[n - 1].query, log[n - 1].env).0
      else before
  }

  ghost predicate StoresOk(stores: map<nat, Store>, log: seq<Entry>) {
    && (forall p :: p in stores ==> Indexed(stores[p]))
    && SensibleLog(log) && forall e :: 0 <= e < |log| ==> log[e].store in stores
  }

  /** The answer to operation e when its store is used by itself. */
  ghost function AnswerAlone(stores: map<nat, Store>, log: seq<Entry>, e: nat): Answer
    requires StoresOk(stores, log) && e < |log|
  {
    Local(Alone(stores[log[e].store], log, log[e].store, e), log[e].query, log[e].env).1
  }

  lemma {:induction false} AloneKept(s: Store, log: seq<Entry>, more: seq<Entry>, p: nat, n: nat)
    requires Indexed(s) && SensibleLog(log) && SensibleLog(more) && n <= |log| && log <= more
    ensures Alone(s, more, p, n) == Alone(s, log, p, n)
    decreases n
  {
    if n > 0 {
      AloneKept(s, log, more, p, n - 1);
    }
  }

  // ---------- what every event keeps ----------

  /** Call i went out as proxy question i. */
  ghost predicate AsAsked(h: Host, calls: seq<Request>, asked: seq<(nat, Query)>) {
    && |calls| == |asked|
    && forall i :: 0 <= i < |asked| ==>
         asked[i].0 < TWO64 && h.marshal.ok(asked[i].1) && calls[i] == ProxyRequest(h, i, asked[i].0, asked[i].1)
  }

  ghost predicate Kept(stores: map<nat, Store>, x: World) {
    && StoresOk(stores, x.log) && x.stores.Keys == stores.Keys
    && forall p :: p in stores ==> x.stores[p] == Alone(stores[p], x.log, p, |x.log|)
  }

  /** Operation e was carried out for call i: on the store registered under the number that the
      proxy was given, and it is what the proxy was asked. */
  ghost predicate For(h: Host, asked: seq<(nat, Query)>, e: Entry, i: nat) {
    && e.caller == Some(i) && i < |asked| && e.query == asked[i].1 && Lookup(h.regs, asked[i].0) == Some(e.store)
  }

  ghost predicate Ran(execs: seq<Exec>, i: nat) {
    exists k :: 0 <= k < |execs| && execs[k].call.id == i
  }

  /** Every operation for a call of this connection is an execution, and no call has two. */
  ghost predicate LogSound(h: Host, asked: seq<(nat, Query)>, log: seq<Entry>, execs: seq<Exec>) {
    && (forall e :: 0 <= e < |log| && log[e].caller.Some? ==>
          For(h, asked, log[e], log[e].caller.value) && Ran(execs, log[e].caller.value))
    && forall e, f :: 0 <= e < f < |log| && log[e].caller.Some? ==> log[e].caller != log[f].caller
  }

  /** Execution k is in the log, and its result is the packed answer of the store by itself. */
  ghost predicate Logged(h: Host, stores: map<nat, Store>, log: seq<Entry>, x: Exec)
    requires StoresOk(stores, log)
  {
    exists e :: 0 <= e < |log| && log[e].caller == Some(x.call.id)
      && x.result == h.marshal.result(ToWire(AnswerAlone(stores, log, e)))
  }

  ghost predicate AllLogged(h: Host, stores: map<nat, Store>, log: seq<Entry>, execs: seq<Exec>)
    requires StoresOk(stores, log)
  {
    forall k :: 0 <= k < |execs| ==> Logged(h, stores, log, execs[k])
  }

  ghost predicate Recorded(h: Host, stores: map<nat, Store>, x: World) {
    && AsAsked(h, x.rpc.calls, x.asked) && Kept(stores, x)
    && LogSound(h, x.asked, x.log, x.rpc.execs) && AllLogged(h, stores, x.log, x.rpc.execs)
  }

  ghost predicate WorldInv(h: Host, stores: map<nat, Store>, x: World) {
    Inv(h.setup, x.rpc) && Recorded(h, stores, x)
  }

  lemma MoreStoresOk(stores: map<nat, Store>, log: seq<Entry>, e: Entry)
    requires StoresOk(stores, log) && e.store in stores && Sensible(e.query, e.env)
    ensures StoresOk(stores, log + [e])
  {
  }

  lemma OperateKeeps(stores: map<nat, Store>, x: World, e: Entry)
    requires Kept(stores, x) && Usable(x, e.store) && Sensible(e.query, e.env)
    ensures Kept(stores, Operate(x, e))
  {
    MoreStoresOk(stores, x.log, e);
    var log := x.log + [e];
    forall p | p in stores ensures Operate(x, e).stores[p] == Alone(stores[p], log, p, |log|) {
      AloneKept(stores[p], x.log, log, p, |x.log|);
    }
  }

  lemma AnswerKept(stores: map<nat, Store>, log: seq<Entry>, more: seq<Entry>, e: nat)
    requires StoresOk(stores, log) && StoresOk(stores, more) && log <= more && e < |log|
    ensures AnswerAlone(stores, more, e) == AnswerAlone(stores, log, e)
  {
    AloneKept(stores[log[e].store], log, more, log[e].store, e);
  }

  lemma LoggedKept(h: Host, stores: map<nat, Store>, log: seq<Entry>, more: seq<Entry>, x: Exec)
    requires StoresOk(stores, log) && StoresOk(stores, more) && log <= more && Logged(h, stores, log, x)
    ensures Logged(h, stores, more, x)
  {
    var e :| 0 <= e < |log| && log[e].caller == Some(x.call.id)
      && x.result == h.marshal.result(ToWire(AnswerAlone(stores, log, e)));
    AnswerKept(stores, log, more, e);
    assert more[e].caller == Some(x.call.id);
  }

  lemma AllLoggedKept(h: Host, stores: map<nat, Store>, log: seq<Entry>, e: Entry, execs: seq<Exec>)
    requires StoresOk(stores, log) && StoresOk(stores, log + [e]) && AllLogged(h, stores, log, execs)
    ensures AllLogged(h, stores, log + [e], execs)
  {
    forall k | 0 <= k < |execs| ensures Logged(h, stores, log + [e], execs[k]) {
      LoggedKept(h, stores, log, log + [e], execs[k]);
    }
  }

  /** The new execution is logged with the answer that the store gives by itself. */
  lemma NewLogged(h: Host, stores: map<nat, Store>, x: World, e: Entry, r: Request)
    requires Kept(stores, x) && Usable(x, e.store) && Sensible(e.query, e.env) && e.caller == Some(r.id)
    requires StoresOk(stores, x.log + [e])
    ensures Logged(h, stores, x.log + [e], Exec(r, h.marshal.result(ToWire(Local(x.stores[e.store], e.query, e.env).1))))
  {
    var log := x.log + [e];
    AloneKept(stores[e.store], x.log, log, e.store, |x.log|);
    assert log[|x.log|] == e;
    assert AnswerAlone(stores, log, |x.log|) == Local(x.stores[e.store], e.query, e.env).1;
  }

  /** A request that waits to be executed is the question that a proxy was asked. */
  lemma FindsWhatWasAsked(h: Host, x: World, r: Request)
    requires GoodHost(h) && Asking(h.setup, x.rpc) && AsAsked(h, x.rpc.calls, x.asked) && r in x.rpc.server.work
    ensures r.id < |x.asked| && !Ran(x.rpc.execs, r.id)
    ensures Found(h, r).Some? && Found(h, r).value.1 == x.asked[r.id].1
    ensures Lookup(h.regs, x.asked[r.id].0) == Some(Found(h, r).value.0)
  {
    assert IsCall(h.setup.funcs, x.rpc.calls, x.rpc.taken, r);
    var (b, q) := x.asked[r.id];
    assert r == ProxyRequest(h, r.id, b, q);
    TableIsRight(h.regs, OperationOf(q), b);
  }

  lemma RanMore(execs: seq<Exec>, e: Exec, i: nat)
    ensures Ran(execs + [e], i) <==> Ran(execs, i) || i == e.call.id
  {
    var more := execs + [e];
    assert more[|execs|] == e;
    if Ran(execs, i) {
      var k :| 0 <= k < |execs| && execs[k].call.id == i;
      assert more[k].call.id == i;
    }
  }

  lemma ServeLogSound(h: Host, asked: seq<(nat, Query)>, log: seq<Entry>, execs: seq<Exec>, e: Entry, x: Exec)
    requires LogSound(h, asked, log, execs) && For(h, asked, e, x.call.id) && !Ran(execs, x.call.id)
    ensures LogSound(h, asked, log + [e], execs + [x])
  {
    var more := log + [e];
    forall f | 0 <= f < |more| && more[f].caller.Some?
      ensures For(h, asked, more[f], more[f].caller.value) && Ran(execs + [x], more[f].caller.value)
      ensures f < |log| ==> more[f].caller != e.caller
    {
      RanMore(execs, x, more[f].caller.value);
    }
  }

  lemma MoreAsked(h: Host, asked: seq<(nat, Query)>, log: seq<Entry>, execs: seq<Exec>, a: (nat, Query))
    requires LogSound(h, asked, log, execs)
    ensures LogSound(h, asked + [a], log, execs)
  {
    forall e | 0 <= e < |log| && log[e].caller.Some? ensures For(h, asked + [a], log[e], log[e].caller.value) {
      assert For(h, asked, log[e], log[e].caller.value);
    }
  }

  lemma ElsewhereLogSound(h: Host, asked: seq<(nat, Query)>, log: seq<Entry>, execs: seq<Exec>, e: Entry)
    requires LogSound(h, asked, log, execs) && e.caller.None?
    ensures LogSound(h, asked, log + [e], execs)
  {
  }

  lemma AsAskedMore(h: Host, calls: seq<Request>, asked: seq<(nat, Query)>, b: nat, q: Query)
    requires AsAsked(h, calls, asked) && b < TWO64 && h.marshal.ok(q)
    ensures AsAsked(h, calls + [ProxyRequest(h, |calls|, b, q)], asked + [(b, q)])
  {
  }

  lemma AskRecorded(h: Host, stores: map<nat, Store>, x: World, b: nat, q: Query)
    requires GoodHost(h) && Recorded(h, stores, x) && Can(h, x, Ask(b, q)) && x.rpc.client.reqId == |x.rpc.calls|
    ensures Recorded(h, stores, Do(h, x, Ask(b, q)))
  {
    AsAskedMore(h, x.rpc.calls, x.asked, b, q);
    MoreAsked(h, x.asked, x.log, x.rpc.execs, (b, q));
  }

  lemma ServeRecorded(h: Host, stores: map<nat, Store>, x: World, r: Request, e: Entry, result: Bytes, y: World)
    requires Recorded(h, stores, x) && Usable(x, e.store) && Sensible(e.query, e.env)
    requires For(h, x.asked, e, r.id) && !Ran(x.rpc.execs, r.id)
    requires result == h.marshal.result(ToWire(Local(x.stores[e.store], e.query, e.env).1))
    requires y.rpc.calls == x.rpc.calls && y.asked == x.asked && y.rpc.execs == x.rpc.execs + [Exec(r, result)]
    requires y.log == x.log + [e] && y.stores == Operate(x, e).stores
    ensures Recorded(h, stores, y)
  {
    ServeLogSound(h, x.asked, x.log, x.rpc.execs, e, Exec(r, result));
    OperateKeeps(stores, x, e);
    AllLoggedKept(h, stores, x.log, e, x.rpc.execs);
    NewLogged(h, stores, x, e, r);
  }

  lemma ServeKeeps(h: Host, stores: map<nat, Store>, x: World, r: Request, env: Env)
    requires GoodHost(h) && Asking(h.setup, x.rpc) && Recorded(h, stores, x) && Can(h, x, Serve(r, env))
    ensures Recorded(h, stores, Do(h, x, Serve(r, env)))
  {
    var (p, q) := Found(h, r).value;
    var result := h.marshal.result(ToWire(Local(x.stores[p], q, env).1));
    FindsWhatWasAsked(h, x, r);
    ServeRecorded(h, stores, x, r, Entry(p, q, env, Some(r.id)), result, Do(h, x, Serve(r, env)));
  }

  lemma ElsewhereKeeps(h: Host, stores: map<nat, Store>, x: World, p: nat, q: Query, env: Env)
    requires GoodHost(h) && Recorded(h, stores, x) && Can(h, x, Elsewhere(p, q, env))
    ensures Recorded(h, stores, Do(h, x, Elsewhere(p, q, env)))
  {
    var e := Entry(p, q, env, None);
    OperateKeeps(stores, x, e);
    AllLoggedKept(h, stores, x.log, e, x.rpc.execs);
    ElsewhereLogSound(h, x.asked, x.log, x.rpc.execs, e);
  }

  lemma OtherKeeps(h: Host, stores: map<nat, Store>, x: World, a: Action)
    requires GoodHost(h) && Recorded(h, stores, x) && Can(h, x, Other(a))
    ensures Recorded(h, stores, Do(h, x, Other(a)))
  {
    var y := Do(h, x, Other(a));
    assert y.rpc.calls == x.rpc.calls && y.rpc.execs == x.rpc.execs;
    assert y.stores == x.stores && y.asked == x.asked && y.log == x.log;
  }

  lemma AskKeeps(h: Host, stores: map<nat, Store>, x: World, b: nat, q: Query)
    requires GoodHost(h) && Asking(h.setup, x.rpc) && Recorded(h, stores, x)
    requires Can(h, x, Ask(b, q)) && |x.asked| < ID_SPACE
    ensures Recorded(h, stores, Do(h, x, Ask(b, q)))
  {
    NextId(h.setup, x.rpc);
    AskRecorded(h, stores, x, b, q);
  }

  lemma RecordedKept(h: Host, stores: map<nat, Store>, x: World, ev: Event)
    requires GoodHost(h) && Asking(h.setup, x.rpc) && Recorded(h, stores, x)
    requires Can(h, x, ev) && (ev.Ask? ==> |x.asked| < ID_SPACE)
    ensures Recorded(h, stores, Do(h, x, ev))
  {
    match ev
    case Ask(b, q) => AskKeeps(h, stores, x, b, q);
    case Serve(r, env) => ServeKeeps(h, stores, x, r, env);
    case Elsewhere(p, q, env) => ElsewhereKeeps(h, stores, x, p, q, env);
    case Other(a) => OtherKeeps(h, stores, x, a);
  }

  lemma RpcKept(h: Host, x: World, ev: Event)
    requires GoodHost(h) && Inv(h.setup, x.rpc) && Can(h, x, ev) && |Do(h, x, ev).rpc.calls| <= ID_SPACE
    ensures Inv(h.setup, Do(h, x, ev).rpc)
  {
    var a := RpcAct(h, x, ev);
    if a.Some? {
      InvKept(h.setup, x.rpc, a.value);
    }
  }

  lemma WorldInvKept(h: Host, stores: map<nat, Store>, x: World, ev: Event)
    requires GoodHost(h) && WorldInv(h, stores, x) && Can(h, x, ev) && |Do(h, x, ev).asked| <= ID_SPACE
    ensures WorldInv(h, stores, Do(h, x, ev))
  {
    RecordedKept(h, stores, x, ev);
    RpcKept(h, x, ev);
  }

  /** Questions and operations are never forgotten. */
  lemma {:induction false} HistoryGrows(h: Host, x: World, evs: seq<Event>)
    requires GoodHost(h) && Happens(h, x, evs)
    ensures x.asked <= Then(h, x, evs).asked && x.log <= Then(h, x, evs).log
    decreases |evs|
  {
    if evs != [] {
      HistoryGrows(h, Do(h, x, evs[0]), evs[1..]);
    }
  }

  lemma {:induction false} WorldInvHolds(h: Host, stores: map<nat, Store>, x: World, evs: seq<Event>)
    requires GoodHost(h) && WorldInv(h, stores, x) && Happens(h, x, evs) && |Then(h, x, evs).asked| <= ID_SPACE
    ensures WorldInv(h, stores, Then(h, x, evs))
    decreases |evs|
  {
    if evs != [] {
      HistoryGrows(h, Do(h, x, evs[0]), evs[1..]);
      WorldInvKept(h, stores, x, evs[0]);
      WorldInvHolds(h, stores, Do(h, x, evs[0]), evs[1..]);
    }
  }

  lemma OpeningInv(h: Host, stores: map<nat, Store>, x: World)
    requires GoodHost(h) && Opening(h, stores, x)
    ensures WorldInv(h, stores, x)
  {
    InitialInv(h.setup, x.rpc);
    OpeningRecorded(h, stores, x);
  }

  lemma OpeningRecorded(h: Host, stores: map<nat, Store>, x: World)
    requires Opening(h, stores, x) && x.rpc.calls == [] && x.rpc.execs == []
    ensures Recorded(h, stores, x)
  {
    assert StoresOk(stores, x.log);
  }

  // ---------- theorems ----------

  /** Every store is at all times what its own operations, carried out locally and alone, make of
      it, whatever happens to the others and to the connection. */
  lemma StoresStandAlone(h: Host, stores: map<nat, Store>, x0: World, evs: seq<Event>, p: nat)
    requires GoodHost(h) && Opening(h, stores, x0) && Happens(h, x0, evs) && p in stores
    requires |Then(h, x0, evs).asked| <= ID_SPACE
    ensures var x := Then(h, x0, evs);
      StoresOk(stores, x.log) && p in x.stores && x.stores[p] == Alone(stores[p], x.log, p, |x.log|)
  {
    OpeningInv(h, stores, x0);
    WorldInvHolds(h, stores, x0, evs);
  }

  /** The operation carried out for call i, and for nobody else. */
  ghost predicate TheOperation(h: Host, x: World, i: nat, e: nat) {
    && e < |x.log| && For(h, x.asked, x.log[e], i)
    && forall f :: 0 <= f < |x.log| && x.log[f].caller == Some(i) ==> f == e
  }

  lemma RepliedLogged(h: Host, stores: map<nat, Store>, x: World, o: Outcome) returns (e: nat)
    requires GoodHost(h) && WorldInv(h, stores, x) && o in x.rpc.client.settled && o.reply.Some?
    ensures TheOperation(h, x, o.call, e)
    ensures o.reply.value == h.marshal.result(ToWire(AnswerAlone(stores, x.log, e)))
  {
    assert Executed(x.rpc.execs, o.call, o.reply.value);
    var k :| 0 <= k < |x.rpc.execs| && x.rpc.execs[k].call.id == o.call && x.rpc.execs[k].result == o.reply.value;
    assert Logged(h, stores, x.log, x.rpc.execs[k]);
    e :| 0 <= e < |x.log| && x.log[e].caller == Some(o.call)
      && o.reply.value == h.marshal.result(ToWire(AnswerAlone(stores, x.log, e)));
  }

  /** Remote simulates local: in every run, with other callers using the same stores, when a reply
      to call i arrives then exactly one operation was carried out for call i, on the store
      registered under the proxy's number and as the proxy was asked, and the proxy returns what
      that operation returns on the store used locally and by itself. */
  lemma RemoteSimulatesLocal(h: Host, stores: map<nat, Store>, x0: World, evs: seq<Event>, o: Outcome) returns (e: nat)
    requires GoodHost(h) && Opening(h, stores, x0) && Happens(h, x0, evs)
    requires |Then(h, x0, evs).asked| <= ID_SPACE
    requires o in Then(h, x0, evs).rpc.client.settled && o.reply.Some?
    ensures var x := Then(h, x0, evs);
      && TheOperation(h, x, o.call, e) && StoresOk(stores, x.log)
      && Returned(h.marshal, x.asked[o.call].1, o.reply) == AnswerAlone(stores, x.log, e)
  {
    var x := Then(h, x0, evs);
    OpeningInv(h, stores, x0);
    WorldInvHolds(h, stores, x0, evs);
    e := RepliedLogged(h, stores, x, o);
    WireRoundTrip(Alone(stores[x.log[e].store], x.log, x.log[e].store, e), x.log[e].query, x.log[e].env);
  }

  /** In a log that grew, an operation for an answered call precedes those for later calls. */
  lemma EarlierInLog(h: Host, asked: seq<(nat, Query)>, log: seq<Entry>, execs: seq<Exec>, more: seq<Entry>, i: nat, j: nat, d: nat, e: nat, f: nat)
    requires LogSound(h, asked, log, execs) && log <= more && |asked| <= j
    requires forall e, f :: 0 <= e < f < |more| && more[e].caller.Some? ==> more[e].caller != more[f].caller
    requires d < |log| && log[d].caller == Some(i)
    requires e < |more| && f < |more| && more[e].caller == Some(i) && more[f].caller == Some(j)
    ensures e < f
  {
    assert more[d] == log[d];
    assert d == e;
    assert forall k :: 0 <= k < |log| && log[k].caller.Some? ==> log[k].caller.value < |asked|;
  }

  /** Operations respect the order that callers see: if call i was answered before call j was
      made, the operation for i comes before the one for j. */
  lemma AnsweredFirst(h: Host, stores: map<nat, Store>, x0: World, evs: seq<Event>, more: seq<Event>, o: Outcome, j: nat, e: nat, f: nat)
    requires GoodHost(h) && Opening(h, stores, x0) && Happens(h, x0, evs) && Happens(h, Then(h, x0, evs), more)
    requires |Then(h, Then(h, x0, evs), more).asked| <= ID_SPACE
    requires o in Then(h, x0, evs).rpc.client.settled && o.reply.Some? && |Then(h, x0, evs).asked| <= j
    requires var y := Then(h, Then(h, x0, evs), more);
      e < |y.log| && f < |y.log| && y.log[e].caller == Some(o.call) && y.log[f].caller == Some(j)
    ensures e < f
  {
    var x := Then(h, x0, evs);
    HistoryGrows(h, x, more);
    OpeningInv(h, stores, x0);
    WorldInvHolds(h, stores, x0, evs);
    WorldInvHolds(h, stores, x, more);
    var d := RepliedLogged(h, stores, x, o);
    EarlierInLog(h, x.asked, x.log, x.rpc.execs, Then(h, x, more).log, o.call, j, d, e, f);
  }

  /** What the events of a session amount to on the connection. */
  ghost function RpcRun(h: Host, x: World, evs: seq<Event>): seq<Action>
    requires GoodHost(h) && Happens(h, x, evs)
    decreases |evs|
  {
    if evs == [] then []
    else
      var a, rest := RpcAct(h, x, evs[0]), RpcRun(h, Do(h, x, evs[0]), evs[1..]);
      if a.Some? then [a.value] + rest else rest
  }

  /** A session is a run of the RPC system, so all that holds of those holds here. */
  lemma {:induction false} SessionIsRpcRun(h: Host, x: World, evs: seq<Event>)
    requires GoodHost(h) && Happens(h, x, evs)
    ensures Runs(h.setup, x.rpc, RpcRun(h, x, evs))
    ensures Rpc.After(h.setup, x.rpc, RpcRun(h, x, evs)) == Then(h, x, evs).rpc
    decreases |evs|
  {
    if evs != [] {
      var a, rest := RpcAct(h, x, evs[0]), RpcRun(h, Do(h, x, evs[0]), evs[1..]);
      SessionIsRpcRun(h, Do(h, x, evs[0]), evs[1..]);
      if a.Some? {
        assert ([a.value] + rest)[0] == a.value && ([a.value] + rest)[1..] == rest;
      }
    }
  }

  ghost predicate StaysConnected(evs: seq<Event>) {
    forall k :: 0 <= k < |evs| ==> evs[k].Other? ==> !evs[k].act.UserDisconnect?
  }

  lemma {:induction false} StaysConnectedRun(h: Host, x: World, evs: seq<Event>)
    requires GoodHost(h) && Happens(h, x, evs) && StaysConnected(evs)
    ensures NoDisconnect(RpcRun(h, x, evs))
    decreases |evs|
  {
    if evs != [] {
      StaysConnectedRun(h, Do(h, x, evs[0]), evs[1..]);
      assert RpcAct(h, x, evs[0]).Some? ==> !RpcAct(h, x, evs[0]).value.UserDisconnect?;
    }
  }

  lemma UnregisteredUnknown(h: Host, x: World, i: nat)
    requires GoodHost(h) && AsAsked(h, x.rpc.calls, x.asked) && i < |x.asked| && Lookup(h.regs, x.asked[i].0).None?
    ensures x.rpc.calls[i].name !in h.setup.funcs
  {
    TableIsRight(h.regs, OperationOf(x.asked[i].1), x.asked[i].0);
  }

  /** A question put through a number that is not registered changes no store and gets no reply:
      the call is pending as long as the user does not disconnect, and can only be aborted. */
  lemma UnregisteredHangs(h: Host, stores: map<nat, Store>, x0: World, evs: seq<Event>, i: nat)
    requires GoodHost(h) && Opening(h, stores, x0) && Happens(h, x0, evs)
    requires |Then(h, x0, evs).asked| <= ID_SPACE
    requires i < |Then(h, x0, evs).asked| && Lookup(h.regs, Then(h, x0, evs).asked[i].0).None?
    ensures var x := Then(h, x0, evs);
      && (forall e :: 0 <= e < |x.log| ==> x.log[e].caller != Some(i))
      && (forall k :: 0 <= k < |x.rpc.client.settled| && x.rpc.client.settled[k].call == i ==>
            Returned(h.marshal, x.asked[i].1, x.rpc.client.settled[k].reply) ==
            if x.asked[i].1.AskPut? || x.asked[i].1.AskRemove? then Flag(false)
            else if x.asked[i].1.AskGet? then Block(None)
            else Number(0))
      && (StaysConnected(evs) ==> i in x.rpc.client.pending)
  {
    var x, acts := Then(h, x0, evs), RpcRun(h, x0, evs);
    OpeningInv(h, stores, x0);
    WorldInvHolds(h, stores, x0, evs);
    UnregisteredUnknown(h, x, i);
    SessionIsRpcRun(h, x0, evs);
    UnknownNameHangs(h.setup, x0.rpc, acts, i);
    if StaysConnected(evs) {
      StaysConnectedRun(h, x0, evs);
    }
  }

  /** Nothing in the model holds a call back: a request that waits at the server can be executed,
      whatever the system calls behind it answer. */
  lemma AlwaysServable(h: Host, stores: map<nat, Store>, x0: World, evs: seq<Event>, r: Request, env: Env)
    requires GoodHost(h) && Opening(h, stores, x0) && Happens(h, x0, evs)
    requires |Then(h, x0, evs).asked| <= ID_SPACE && r in Then(h, x0, evs).rpc.server.work
    ensures var x := Then(h, x0, evs);
      r.id < |x.asked| && (Sensible(x.asked[r.id].1, env) ==> Can(h, x, Serve(r, env)))
  {
    var x := Then(h, x0, evs);
    OpeningInv(h, stores, x0);
    WorldInvHolds(h, stores, x0, evs);
    FindsWhatWasAsked(h, x, r);
    LookupRegistered(h.regs, x.asked[r.id].0);
  }

  lemma {:induction false} LookupRegistered(regs: seq<(nat, nat)>, b: nat)
    ensures Lookup(regs, b).Some? ==> exists i :: 0 <= i < |regs| && regs[i].0 == Lookup(regs, b).value
    decreases |regs|
  {
    if regs != [] {
      var front := regs[..|regs| - 1];
      LookupRegistered(front, b);
      if Lookup(front, b).Some? {
        var i :| 0 <= i < |front| && front[i].0 == Lookup(front, b).value;
        assert regs[i] == front[i];
      }
    }
  }
}
