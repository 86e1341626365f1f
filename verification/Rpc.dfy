/** RPC over one connection: the client's table of pending callbacks, the server's queue of
    deferred calls, the two byte streams between them, and every way these can interleave. */
module Rpc {
  import opened Common
  import opened Octets
  import opened Framing

  const ID_SPACE: nat := 0x1_0000_0000_0000_0000

  datatype Request = Request(id: nat, name: string, args: Bytes)

  datatype Response = Response(id: nat, result: Bytes)

  /** A callback called: the number of the call it belongs to, and the reply or an abort. */
  datatype Outcome = Outcome(call: nat, reply: Option<Bytes>)

  // ---------- the client ----------

  /** `pending` maps a wire id to the number of the call that waits under it. `issued` and
      `settled` are history: how many calls were made and which callbacks have been called. */
  datatype Client = Client(
    reqId: nat,
    pending: map<nat, nat>,
    pac: Bytes,
    listening: bool,
    issued: nat,
    settled: seq<Outcome>)

  function StartCall(c: Client): Client {
    c.(pending := c.pending[c.reqId := c.issued],
       reqId := (c.reqId + 1) % ID_SPACE,
       issued := c.issued + 1)
  }

  /** A reply looks its callback up by id, queues it and forgets it; an unknown id is ignored. */
  function TakeReply(c: Client, r: Response): Client {
    if r.id in c.pending then
      c.(pending := c.pending - {r.id},
         settled := c.settled + [Outcome(c.pending[r.id], Some(r.result))])
    else c
  }

  /** The first n of some replies taken. */
  function TakeReplies(c: Client, rs: seq<Response>, n: nat): Client
    requires n <= |rs|
  {
    if n == 0 then c else TakeReply(TakeReplies(c, rs, n - 1), rs[n - 1])
  }

  ghost function ClientReceive(w: Codec<Response>, c: Client, chunk: Bytes): Client
    requires Good(w)
  {
    var (rs, rest) := Drain(w.dec, c.pac + chunk);
    TakeReplies(c, rs, |rs|).(pac := rest)
  }

  function Aborts(pending: map<nat, nat>, order: seq<nat>): (r: seq<Outcome>)
    requires forall i :: i in order ==> i in pending
    ensures |r| == |order|
    ensures forall k :: 0 <= k < |order| ==> r[k] == Outcome(pending[order[k]], None)
  {
    seq(|order|, k requires 0 <= k < |order| => Outcome(pending[order[k]], None))
  }

  /** The user's disconnect: no reply is taken any more and every pending callback is aborted. */
  function Disconnect(c: Client, order: seq<nat>): Client
    requires forall i :: i in order ==> i in c.pending
  {
    c.(listening := false, pending := map[], settled := c.settled + Aborts(c.pending, order))
  }

  // ---------- the server side of the connection ----------

  /** `work` holds the calls handed to worker threads; `closing` records an unknown name. */
  datatype Server = Server(pac: Bytes, work: multiset<Request>, open: bool, closing: bool)

  function TakeRequest(funcs: set<string>, s: Server, r: Request): Server {
    if r.name in funcs then s.(work := s.work + multiset{r}) else s.(closing := true)
  }

  /** The first n of some requests taken. */
  function TakeRequests(funcs: set<string>, s: Server, rs: seq<Request>, n: nat): Server
    requires n <= |rs|
  {
    if n == 0 then s else TakeRequest(funcs, TakeRequests(funcs, s, rs, n - 1), rs[n - 1])
  }

  ghost function ServerReceive(w: Codec<Request>, funcs: set<string>, s: Server, chunk: Bytes): Server
    requires Good(w)
  {
    var (rs, rest) := Drain(w.dec, s.pac + chunk);
    TakeRequests(funcs, s, rs, |rs|).(pac := rest)
  }

  // ---------- the two together ----------

  datatype Exec = Exec(call: Request, result: Bytes)

  /** `done` holds results whose response is not yet written. History: every call made, the
      requests and responses written but not yet taken off the stream, how many requests the
      server has taken, every execution, and every response ever written. */
  datatype System = System(
    client: Client,
    server: Server,
    up: bool,
    toServer: Bytes,
    toClient: Bytes,
    done: multiset<Response>,
    calls: seq<Request>,
    requests: seq<Request>,
    responses: seq<Response>,
    taken: nat,
    execs: seq<Exec>,
    written: seq<Response>)

  datatype Action =
    | Call(name: string, args: Bytes)
    | ToServer(n: nat)
    | Execute(request: Request, result: Bytes)
    | Respond(response: Response)
    | ToClient(n: nat)
    | UserDisconnect(order: seq<nat>)
    | ServerClose
    | ConnectionLost

  datatype Setup = Setup(req: Codec<Request>, resp: Codec<Response>, funcs: set<string>)

  ghost predicate GoodSetup(w: Setup) { Good(w.req) && Good(w.resp) }

  ghost predicate Enabled(w: Setup, s: System, a: Action) {
    match a
    case Call(name, args) => w.req.ok(Request(s.client.reqId, name, args))
    case ToServer(n) => s.server.open && n <= |s.toServer|
    case Execute(r, _) => r in s.server.work
    case Respond(r) => r in s.done && w.resp.ok(r)
    case ToClient(n) => n <= |s.toClient|
    case UserDisconnect(order) => Enumerates(order, s.client.pending.Keys)
    case ServerClose => true
    case ConnectionLost => true
  }

  /** A request is written only on a socket that is still connected at this end. */
  ghost function CallStep(w: Setup, s: System, name: string, args: Bytes): System {
    var r := Request(s.client.reqId, name, args);
    var s' := s.(client := StartCall(s.client), calls := s.calls + [r]);
    if s.up && s.client.listening then
      s'.(toServer := s.toServer + w.req.enc(r), requests := s.requests + [r])
    else s'
  }

  ghost function ToServerStep(w: Setup, s: System, n: nat): System
    requires GoodSetup(w) && n <= |s.toServer|
  {
    var k := |Drain(w.req.dec, s.server.pac + s.toServer[..n]).0|;
    ServerTook(s, n, k, ServerReceive(w.req, w.funcs, s.server, s.toServer[..n]))
  }

  /** n bytes and the first k requests are off the stream. */
  ghost function ServerTook(s: System, n: nat, k: nat, server: Server): System
    requires n <= |s.toServer|
  {
    s.(server := server,
       toServer := s.toServer[n..],
       requests := if k <= |s.requests| then s.requests[k..] else [],
       taken := s.taken + k)
  }

  ghost function ToClientStep(w: Setup, s: System, n: nat): System
    requires GoodSetup(w) && n <= |s.toClient|
  {
    var k := |Drain(w.resp.dec, s.client.pac + s.toClient[..n]).0|;
    s.(client := ClientReceive(w.resp, s.client, s.toClient[..n]),
       toClient := s.toClient[n..],
       responses := if k <= |s.responses| then s.responses[k..] else [])
  }

  ghost function Next(w: Setup, s: System, a: Action): System
    requires GoodSetup(w) && Enabled(w, s, a)
  {
    match a
    case Call(name, args) => CallStep(w, s, name, args)
    case ToServer(n) => ToServerStep(w, s, n)
    case Execute(r, result) =>
      s.(server := s.server.(work := s.server.work - multiset{r}),
         done := s.done + multiset{Response(r.id, result)},
         execs := s.execs + [Exec(r, result)])
    case Respond(r) =>
      var s' := s.(done := s.done - multiset{r});
      if s.up && s.server.open then
        s'.(toClient := s.toClient + w.resp.enc(r), responses := s.responses + [r], written := s.written + [r])
      else s'
    case ToClient(n) => ToClientStep(w, s, n)
    case UserDisconnect(order) => s.(client := Disconnect(s.client, order))
    case ServerClose => s.(server := s.server.(open := false))
    case ConnectionLost => s.(up := false)
  }

  ghost predicate Initial(s: System) {
    && s.client == Client(0, map[], [], true, 0, [])
    && s.server == Server([], multiset{}, true, false)
    && s.up && s.toServer == [] && s.toClient == [] && s.done == multiset{}
    && s.calls == [] && s.requests == [] && s.responses == [] && s.taken == 0 && s.execs == [] && s.written == []
  }

  ghost predicate Runs(w: Setup, s: System, acts: seq<Action>)
    requires GoodSetup(w)
    decreases |acts|
  {
    acts == [] || (Enabled(w, s, acts[0]) && Runs(w, Next(w, s, acts[0]), acts[1..]))
  }

  ghost function After(w: Setup, s: System, acts: seq<Action>): System
    requires GoodSetup(w) && Runs(w, s, acts)
    decreases |acts|
  {
    if acts == [] then s else After(w, Next(w, s, acts[0]), acts[1..])
  }

  // ---------- invariants ----------

  /** Bytes that spell out messages. */
  ghost predicate Carries<M(!new)>(c: Codec<M>, q: seq<M>, bytes: Bytes) {
    AllOk(c, q) && bytes == EncAll(c, q)
  }

  /** Call number i travels under id i, and the stream carries the calls in order; while the
      connection is usable nothing is missing from it. */
  ghost predicate Numbered(reqId: nat, issued: nat, calls: seq<Request>, requests: seq<Request>, taken: nat, usable: bool) {
    && |calls| <= ID_SPACE && issued == |calls| && reqId == |calls| % ID_SPACE
    && (forall i :: 0 <= i < |calls| ==> calls[i].id == i)
    && taken + |requests| <= |calls|
    && (usable ==> taken + |requests| == |calls|)
    && forall j :: 0 <= j < |requests| ==> requests[j] == calls[taken + j]
  }

  /** A request as it was made, already taken by the server and of a registered name. */
  ghost predicate IsCall(funcs: set<string>, calls: seq<Request>, taken: nat, r: Request) {
    r.id < taken && r.id < |calls| && r == calls[r.id] && r.name in funcs
  }

  /** Every request is executed at most once, and as it was made. */
  ghost predicate Served(funcs: set<string>, calls: seq<Request>, taken: nat, work: multiset<Request>, execs: seq<Exec>) {
    && (forall r :: r in work ==> IsCall(funcs, calls, taken, r) && work[r] == 1)
    && (forall r, k :: r in work && 0 <= k < |execs| ==> execs[k].call.id != r.id)
    && (forall k :: 0 <= k < |execs| ==> IsCall(funcs, calls, taken, execs[k].call))
    && forall k, l :: 0 <= k < l < |execs| ==> execs[k].call.id != execs[l].call.id
  }

  ghost predicate Executed(execs: seq<Exec>, id: nat, result: Bytes) {
    exists k :: 0 <= k < |execs| && execs[k].call.id == id && execs[k].result == result
  }

  /** Every result on its way back, or handed to a callback, is that of an execution. */
  ghost predicate Computed(execs: seq<Exec>, done: multiset<Response>) {
    forall r :: r in done ==> Executed(execs, r.id, r.result)
  }

  ghost predicate Written(execs: seq<Exec>, responses: seq<Response>) {
    forall j :: 0 <= j < |responses| ==> Executed(execs, responses[j].id, responses[j].result)
  }

  ghost predicate Replied(execs: seq<Exec>, settled: seq<Outcome>) {
    forall k :: 0 <= k < |settled| && settled[k].reply.Some? ==>
      Executed(execs, settled[k].call, settled[k].reply.value)
  }

  ghost predicate IsSettled(settled: seq<Outcome>, i: nat) {
    exists k :: 0 <= k < |settled| && settled[k].call == i
  }

  /** Every call made is either pending or settled, and none is settled twice. */
  ghost predicate OnceEach(pending: map<nat, nat>, settled: seq<Outcome>, issued: nat) {
    && (forall i :: i in pending ==> pending[i] == i && i < issued)
    && (forall k :: 0 <= k < |settled| ==> settled[k].call < issued)
    && (forall k, l :: 0 <= k < l < |settled| ==> settled[k].call != settled[l].call)
    && forall i :: 0 <= i < issued ==> (i in pending <==> !IsSettled(settled, i))
  }

  /** Once the user has disconnected, only calls that were never sent are pending. */
  ghost predicate Cut(listening: bool, pending: map<nat, nat>, sent: nat) {
    !listening ==> forall i :: i in pending ==> sent <= i
  }

  /** What is known of the requests. */
  ghost predicate Asking(w: Setup, s: System) {
    && Carries(w.req, s.requests, s.server.pac + s.toServer)
    && Numbered(s.client.reqId, s.client.issued, s.calls, s.requests, s.taken, s.up && s.client.listening)
    && Served(w.funcs, s.calls, s.taken, s.server.work, s.execs)
  }

  /** What is known of the answers. */
  ghost predicate Answering(w: Setup, s: System) {
    && Carries(w.resp, s.responses, s.client.pac + s.toClient)
    && Computed(s.execs, s.done) && Written(s.execs, s.responses) && Replied(s.execs, s.client.settled)
    && OnceEach(s.client.pending, s.client.settled, s.client.issued)
  }

  ghost predicate Inv(w: Setup, s: System) {
    && Asking(w, s) && Answering(w, s)
    && Cut(s.client.listening, s.client.pending, s.taken + |s.requests|)
  }

  // ---------- what every step keeps ----------

  lemma CarriesMore<M(!new)>(c: Codec<M>, q: seq<M>, buf: Bytes, wire: Bytes, m: M)
    requires Carries(c, q, buf + wire) && c.ok(m)
    ensures Carries(c, q + [m], buf + (wire + c.enc(m)))
  {
    EncAllAppend(c, q, m);
    assert buf + (wire + c.enc(m)) == buf + wire + c.enc(m);
  }

  lemma MoreCallsServed(funcs: set<string>, calls: seq<Request>, r: Request, taken: nat, work: multiset<Request>, execs: seq<Exec>)
    requires Served(funcs, calls, taken, work, execs)
    ensures Served(funcs, calls + [r], taken, work, execs)
  {
    assert forall q :: IsCall(funcs, calls, taken, q) ==> IsCall(funcs, calls + [r], taken, q);
  }

  lemma NewCallPending(pending: map<nat, nat>, settled: seq<Outcome>, issued: nat)
    requires OnceEach(pending, settled, issued)
    ensures OnceEach(pending[issued := issued], settled, issued + 1)
  {
    assert !IsSettled(settled, issued);
  }

  lemma NumberedMore(c: Client, calls: seq<Request>, requests: seq<Request>, taken: nat, usable: bool, r: Request)
    requires Numbered(c.reqId, c.issued, calls, requests, taken, usable) && |calls| < ID_SPACE && r.id == c.reqId
    ensures c.reqId == |calls|
    ensures var d := StartCall(c);
      Numbered(d.reqId, d.issued, calls + [r], if usable then requests + [r] else requests, taken, usable)
  {
  }

  lemma NextId(w: Setup, s: System)
    requires Asking(w, s) && |s.calls| < ID_SPACE
    ensures s.client.reqId == |s.calls|
  {
  }

  lemma CallKeeps(w: Setup, s: System, name: string, args: Bytes)
    requires GoodSetup(w) && Enabled(w, s, Call(name, args)) && Inv(w, s) && |s.calls| < ID_SPACE
    ensures Inv(w, CallStep(w, s, name, args))
  {
    var r := Request(s.client.reqId, name, args);
    NumberedMore(s.client, s.calls, s.requests, s.taken, s.up && s.client.listening, r);
    if s.up && s.client.listening {
      CarriesMore(w.req, s.requests, s.server.pac, s.toServer, r);
    }
    MoreCallsServed(w.funcs, s.calls, r, s.taken, s.server.work, s.execs);
    NewCallPending(s.client.pending, s.client.settled, s.client.issued);
  }

  /** Whether a request is one of the calls numbered from `taken` and of a registered name. */
  ghost predicate NewWork(funcs: set<string>, calls: seq<Request>, taken: nat, upto: nat, r: Request) {
    taken <= r.id < upto <= |calls| && r == calls[r.id] && r.name in funcs
  }

  lemma WorkAfterOne(funcs: set<string>, s: Server, q: Request, r: Request)
    ensures TakeRequest(funcs, s, q).work[r] == s.work[r] + if q == r && r.name in funcs then 1 else 0
  {
  }

  lemma {:induction false} WorkAfter(funcs: set<string>, calls: seq<Request>, taken: nat, s: Server, rs: seq<Request>, n: nat, r: Request)
    requires taken + |rs| <= |calls| && n <= |rs|
    requires forall i :: 0 <= i < |calls| ==> calls[i].id == i
    requires forall j :: 0 <= j < |rs| ==> rs[j] == calls[taken + j]
    ensures TakeRequests(funcs, s, rs, n).work[r] ==
      s.work[r] + if NewWork(funcs, calls, taken, taken + n, r) then 1 else 0
    decreases n
  {
    if n > 0 {
      WorkAfter(funcs, calls, taken, s, rs, n - 1, r);
      WorkAfterOne(funcs, TakeRequests(funcs, s, rs, n - 1), rs[n - 1], r);
      assert rs[n - 1] == calls[taken + (n - 1)] && calls[taken + (n - 1)].id == taken + (n - 1);
    }
  }

  lemma ServedMore(funcs: set<string>, calls: seq<Request>, taken: nat, work: multiset<Request>, execs: seq<Exec>, upto: nat, work': multiset<Request>)
    requires Served(funcs, calls, taken, work, execs) && taken <= upto <= |calls|
    requires forall r :: work'[r] == work[r] + if NewWork(funcs, calls, taken, upto, r) then 1 else 0
    ensures Served(funcs, calls, upto, work', execs)
  {
    assert forall q :: IsCall(funcs, calls, taken, q) ==> IsCall(funcs, calls, upto, q);
    forall r | r in work'
      ensures work'[r] == 1 && IsCall(funcs, calls, upto, r) && (r in work || taken <= r.id)
    {
      assert work'[r] == work[r] + if NewWork(funcs, calls, taken, upto, r) then 1 else 0;
    }
  }

  lemma TakeRequestsServed(funcs: set<string>, calls: seq<Request>, taken: nat, s: Server, execs: seq<Exec>, rs: seq<Request>)
    requires Served(funcs, calls, taken, s.work, execs) && taken + |rs| <= |calls|
    requires forall i :: 0 <= i < |calls| ==> calls[i].id == i
    requires forall j :: 0 <= j < |rs| ==> rs[j] == calls[taken + j]
    ensures Served(funcs, calls, taken + |rs|, TakeRequests(funcs, s, rs, |rs|).work, execs)
  {
    WorkAfterAll(funcs, calls, taken, s, rs);
    ServedMore(funcs, calls, taken, s.work, execs, taken + |rs|, TakeRequests(funcs, s, rs, |rs|).work);
  }

  lemma WorkAfterAll(funcs: set<string>, calls: seq<Request>, taken: nat, s: Server, rs: seq<Request>)
    requires taken + |rs| <= |calls|
    requires forall i :: 0 <= i < |calls| ==> calls[i].id == i
    requires forall j :: 0 <= j < |rs| ==> rs[j] == calls[taken + j]
    ensures forall r ::
      TakeRequests(funcs, s, rs, |rs|).work[r] ==
      s.work[r] + if NewWork(funcs, calls, taken, taken + |rs|, r) then 1 else 0
  {
    forall r
      ensures TakeRequests(funcs, s, rs, |rs|).work[r] ==
        s.work[r] + if NewWork(funcs, calls, taken, taken + |rs|, r) then 1 else 0
    {
      WorkAfter(funcs, calls, taken, s, rs, |rs|, r);
    }
  }

  /** A chunk moves from the wire to the buffer and complete messages leave the buffer. */
  lemma CarriesLess<M(!new)>(c: Codec<M>, q: seq<M>, buf: Bytes, wire: Bytes, n: nat)
    requires Good(c) && Carries(c, q, buf + wire) && n <= |wire|
    ensures var (ms, rest) := Drain(c.dec, buf + wire[..n]);
      |ms| <= |q| && ms == q[..|ms|] && Carries(c, q[|ms|..], rest + wire[n..])
  {
    assert buf + wire[..n] + wire[n..] == buf + wire;
    DrainWritten(c, q, buf + wire[..n], wire[n..]);
  }

  lemma NumberedLess(reqId: nat, issued: nat, calls: seq<Request>, requests: seq<Request>, taken: nat, usable: bool, k: nat)
    requires Numbered(reqId, issued, calls, requests, taken, usable) && k <= |requests|
    ensures Numbered(reqId, issued, calls, requests[k..], taken + k, usable)
  {
  }

  /** The next k requests on the stream are the next k calls. */
  lemma NextCalls(reqId: nat, issued: nat, calls: seq<Request>, requests: seq<Request>, taken: nat, usable: bool, k: nat)
    requires Numbered(reqId, issued, calls, requests, taken, usable) && k <= |requests|
    ensures taken + k <= |calls| && forall j :: 0 <= j < k ==> requests[..k][j] == calls[taken + j]
    ensures forall i :: 0 <= i < |calls| ==> calls[i].id == i
  {
  }

  /** Taking requests off the stream concerns the server alone. */
  ghost predicate SameElsewhere(s: System, t: System) {
    && t.client == s.client && t.up == s.up && t.calls == s.calls && t.execs == s.execs && t.done == s.done
    && t.toClient == s.toClient && t.responses == s.responses
  }

  lemma AnswersUntouched(w: Setup, s: System, t: System)
    requires Answering(w, s) && SameElsewhere(s, t)
    ensures Answering(w, t)
  {
  }

  lemma TakenServed(w: Setup, s: System, k: nat)
    requires Asking(w, s) && k <= |s.requests|
    ensures Served(w.funcs, s.calls, s.taken + k, TakeRequests(w.funcs, s.server, s.requests[..k], k).work, s.execs)
  {
    NextCalls(s.client.reqId, s.client.issued, s.calls, s.requests, s.taken, s.up && s.client.listening, k);
    TakeRequestsServed(w.funcs, s.calls, s.taken, s.server, s.execs, s.requests[..k]);
  }

  lemma ServerTookNumbered(s: System, n: nat, k: nat, server: Server)
    requires n <= |s.toServer| && k <= |s.requests|
    requires Numbered(s.client.reqId, s.client.issued, s.calls, s.requests, s.taken, s.up && s.client.listening)
    ensures var t := ServerTook(s, n, k, server);
      Numbered(t.client.reqId, t.client.issued, t.calls, t.requests, t.taken, t.up && t.client.listening)
  {
    NumberedLess(s.client.reqId, s.client.issued, s.calls, s.requests, s.taken, s.up && s.client.listening, k);
  }

  lemma ServerTookKeeps(w: Setup, s: System, n: nat, k: nat, server: Server, t: System)
    requires n <= |s.toServer| && k <= |s.requests| && t == ServerTook(s, n, k, server)
    requires Numbered(t.client.reqId, t.client.issued, t.calls, t.requests, t.taken, t.up && t.client.listening)
    requires Carries(w.req, s.requests[k..], server.pac + s.toServer[n..])
    requires Served(w.funcs, s.calls, s.taken + k, server.work, s.execs)
    ensures Asking(w, t)
  {
  }

  /** What the server has after a chunk: the messages it took were the first on the stream. */
  lemma ServerReceived(w: Setup, s: System, n: nat, k: nat, server: Server)
    requires GoodSetup(w) && n <= |s.toServer| && Asking(w, s)
    requires k == |Drain(w.req.dec, s.server.pac + s.toServer[..n]).0|
    requires server == ServerReceive(w.req, w.funcs, s.server, s.toServer[..n])
    ensures k <= |s.requests| && Carries(w.req, s.requests[k..], server.pac + s.toServer[n..])
    ensures Served(w.funcs, s.calls, s.taken + k, server.work, s.execs)
  {
    CarriesLess(w.req, s.requests, s.server.pac, s.toServer, n);
    TakenServed(w, s, k);
  }

  lemma ServerTookAsking(w: Setup, s: System, n: nat, k: nat, server: Server)
    requires n <= |s.toServer| && Asking(w, s) && k <= |s.requests|
    requires Carries(w.req, s.requests[k..], server.pac + s.toServer[n..])
    requires Served(w.funcs, s.calls, s.taken + k, server.work, s.execs)
    ensures Asking(w, ServerTook(s, n, k, server))
  {
    ServerTookNumbered(s, n, k, server);
    ServerTookKeeps(w, s, n, k, server, ServerTook(s, n, k, server));
  }

  lemma ToServerAsking(w: Setup, s: System, n: nat)
    requires GoodSetup(w) && n <= |s.toServer| && Asking(w, s)
    ensures Asking(w, ToServerStep(w, s, n))
    ensures var t := ToServerStep(w, s, n); t.taken + |t.requests| == s.taken + |s.requests|
  {
    var k := |Drain(w.req.dec, s.server.pac + s.toServer[..n]).0|;
    var server := ServerReceive(w.req, w.funcs, s.server, s.toServer[..n]);
    ServerReceived(w, s, n, k, server);
    ServerTookAsking(w, s, n, k, server);
  }

  lemma ToServerKeeps(w: Setup, s: System, n: nat)
    requires GoodSetup(w) && n <= |s.toServer| && Inv(w, s)
    ensures Inv(w, ToServerStep(w, s, n))
  {
    ToServerAsking(w, s, n);
    AnswersUntouched(w, s, ToServerStep(w, s, n));
  }

  lemma ExecuteServed(funcs: set<string>, calls: seq<Request>, taken: nat, work: multiset<Request>, execs: seq<Exec>, r: Request, result: Bytes)
    requires Served(funcs, calls, taken, work, execs) && r in work
    ensures Served(funcs, calls, taken, work - multiset{r}, execs + [Exec(r, result)])
  {
    var work' := work - multiset{r};
    forall q | q in work' ensures q in work && q.id != r.id && work'[q] == 1 {
      assert IsCall(funcs, calls, taken, q) && IsCall(funcs, calls, taken, r);
    }
  }

  lemma ExecutedMore(execs: seq<Exec>, e: Exec)
    ensures Executed(execs + [e], e.call.id, e.result)
    ensures forall id, x :: Executed(execs, id, x) ==> Executed(execs + [e], id, x)
  {
    var more := execs + [e];
    assert more[|execs|] == e;
    forall id, x | Executed(execs, id, x) ensures Executed(more, id, x) {
      var k :| 0 <= k < |execs| && execs[k].call.id == id && execs[k].result == x;
      assert more[k] == execs[k];
    }
  }

  lemma ExecuteAnswering(w: Setup, s: System, r: Request, result: Bytes, t: System)
    requires Answering(w, s) && t.client == s.client && t.responses == s.responses && t.toClient == s.toClient
    requires t.execs == s.execs + [Exec(r, result)] && t.done == s.done + multiset{Response(r.id, result)}
    ensures Answering(w, t)
  {
    ExecutedMore(s.execs, Exec(r, result));
  }

  lemma ExecuteKeeps(w: Setup, s: System, r: Request, result: Bytes)
    requires GoodSetup(w) && Enabled(w, s, Execute(r, result)) && Inv(w, s)
    ensures Inv(w, Next(w, s, Execute(r, result)))
  {
    ExecuteServed(w.funcs, s.calls, s.taken, s.server.work, s.execs, r, result);
    ExecuteAnswering(w, s, r, result, Next(w, s, Execute(r, result)));
  }

  lemma RespondKeeps(w: Setup, s: System, r: Response)
    requires GoodSetup(w) && Enabled(w, s, Respond(r)) && Inv(w, s)
    ensures Inv(w, Next(w, s, Respond(r)))
  {
    CarriesMore(w.resp, s.responses, s.client.pac, s.toClient, r);
    assert Executed(s.execs, r.id, r.result);
    assert forall q :: q in s.done - multiset{r} ==> q in s.done;
  }

  /** A reply settles its own call, which was not settled before. */
  lemma TakeReplyOnceEach(c: Client, r: Response)
    requires OnceEach(c.pending, c.settled, c.issued)
    ensures var d := TakeReply(c, r); OnceEach(d.pending, d.settled, d.issued)
  {
    var d := TakeReply(c, r);
    if r.id in c.pending {
      assert d.settled[|c.settled|].call == r.id;
      forall i ensures IsSettled(d.settled, i) <==> IsSettled(c.settled, i) || i == r.id {
        if IsSettled(c.settled, i) {
          var k :| 0 <= k < |c.settled| && c.settled[k].call == i;
          assert d.settled[k].call == i;
        }
      }
    }
  }

  /** No reply that was taken leaves its call waiting. */
  lemma {:induction false} TakenNotPending(c: Client, rs: seq<Response>, n: nat, j: nat)
    requires j < n <= |rs|
    ensures rs[j].id !in TakeReplies(c, rs, n).pending
    decreases n
  {
    if j < n - 1 {
      TakenNotPending(c, rs, n - 1, j);
    }
  }

  lemma {:induction false} TakeRepliesKeeps(execs: seq<Exec>, c: Client, rs: seq<Response>, n: nat)
    requires OnceEach(c.pending, c.settled, c.issued) && Replied(execs, c.settled) && Written(execs, rs)
    requires n <= |rs|
    ensures var d := TakeReplies(c, rs, n);
      && OnceEach(d.pending, d.settled, d.issued) && Replied(execs, d.settled)
      && d.issued == c.issued && d.reqId == c.reqId && d.listening == c.listening
      && d.pending.Keys <= c.pending.Keys
    decreases n
  {
    if n > 0 {
      TakeRepliesKeeps(execs, c, rs, n - 1);
      TakeReplyOnceEach(TakeReplies(c, rs, n - 1), rs[n - 1]);
    }
  }

  lemma ToClientKeeps(w: Setup, s: System, n: nat)
    requires GoodSetup(w) && n <= |s.toClient| && Inv(w, s)
    ensures Inv(w, ToClientStep(w, s, n))
  {
    var rs := Drain(w.resp.dec, s.client.pac + s.toClient[..n]).0;
    CarriesLess(w.resp, s.responses, s.client.pac, s.toClient, n);
    assert Written(s.execs, rs) && Written(s.execs, s.responses[|rs|..]);
    TakeRepliesKeeps(s.execs, s.client, rs, |rs|);
  }

  lemma DisconnectReachesAll(c: Client, order: seq<nat>, i: nat)
    requires OnceEach(c.pending, c.settled, c.issued) && Enumerates(order, c.pending.Keys) && i < c.issued
    ensures IsSettled(Disconnect(c, order).settled, i)
  {
    var d := Disconnect(c, order);
    if i in c.pending {
      var k :| 0 <= k < |order| && order[k] == i;
      assert d.settled[|c.settled| + k].call == i;
    } else {
      var k :| 0 <= k < |c.settled| && c.settled[k].call == i;
      assert d.settled[k].call == i;
    }
  }

  lemma DisconnectDistinct(c: Client, order: seq<nat>, k: nat, l: nat)
    requires OnceEach(c.pending, c.settled, c.issued) && Enumerates(order, c.pending.Keys)
    requires k < l < |Disconnect(c, order).settled|
    ensures var d := Disconnect(c, order); d.settled[k].call != d.settled[l].call && d.settled[l].call < c.issued
  {
    var n := |c.settled|;
    if n <= l {
      assert order[l - n] in c.pending;
      if k < n {
        assert IsSettled(c.settled, c.settled[k].call);
      }
    }
  }

  /** disconnect settles every pending call, once. */
  lemma DisconnectSettles(c: Client, order: seq<nat>)
    requires OnceEach(c.pending, c.settled, c.issued) && Enumerates(order, c.pending.Keys)
    ensures var d := Disconnect(c, order); OnceEach(d.pending, d.settled, d.issued)
    ensures forall i :: 0 <= i < c.issued ==> IsSettled(Disconnect(c, order).settled, i)
  {
    var d := Disconnect(c, order);
    forall i | 0 <= i < c.issued ensures IsSettled(d.settled, i) {
      DisconnectReachesAll(c, order, i);
    }
    forall k, l | 0 <= k < l < |d.settled| ensures d.settled[k].call != d.settled[l].call {
      DisconnectDistinct(c, order, k, l);
    }
    forall k | 0 <= k < |d.settled| ensures d.settled[k].call < d.issued {
      if |c.settled| <= k {
        assert order[k - |c.settled|] in c.pending;
      }
    }
  }

  lemma DisconnectKeeps(w: Setup, s: System, order: seq<nat>)
    requires GoodSetup(w) && Enabled(w, s, UserDisconnect(order)) && Inv(w, s)
    ensures Inv(w, Next(w, s, UserDisconnect(order)))
  {
    DisconnectSettles(s.client, order);
    assert Replied(s.execs, Disconnect(s.client, order).settled);
  }

  lemma InvKept(w: Setup, s: System, a: Action)
    requires GoodSetup(w) && Enabled(w, s, a) && Inv(w, s) && |Next(w, s, a).calls| <= ID_SPACE
    ensures Inv(w, Next(w, s, a))
  {
    match a
    case Call(name, args) => CallKeeps(w, s, name, args);
    case ToServer(n) => ToServerKeeps(w, s, n);
    case Execute(r, result) => ExecuteKeeps(w, s, r, result);
    case Respond(r) => RespondKeeps(w, s, r);
    case ToClient(n) => ToClientKeeps(w, s, n);
    case UserDisconnect(order) => DisconnectKeeps(w, s, order);
    case _ => ClosingKeeps(w, s, a);
  }

  lemma ClosingKeeps(w: Setup, s: System, a: Action)
    requires GoodSetup(w) && Inv(w, s) && (a.ServerClose? || a.ConnectionLost?)
    ensures Inv(w, Next(w, s, a))
  {
  }

  lemma InitialInv(w: Setup, s: System)
    requires Initial(s)
    ensures Inv(w, s)
  {
  }

  lemma {:induction false} CallsGrow(w: Setup, s: System, acts: seq<Action>)
    requires GoodSetup(w) && Runs(w, s, acts)
    ensures s.calls <= After(w, s, acts).calls
    decreases |acts|
  {
    if acts != [] {
      CallsGrow(w, Next(w, s, acts[0]), acts[1..]);
    }
  }

  lemma {:induction false} InvHolds(w: Setup, s: System, acts: seq<Action>)
    requires GoodSetup(w) && Runs(w, s, acts) && Inv(w, s) && |After(w, s, acts).calls| <= ID_SPACE
    ensures Inv(w, After(w, s, acts))
    decreases |acts|
  {
    if acts != [] {
      CallsGrow(w, Next(w, s, acts[0]), acts[1..]);
      InvKept(w, s, acts[0]);
      InvHolds(w, Next(w, s, acts[0]), acts[1..]);
    }
  }

  // ---------- theorems ----------

  /** End-to-end call matching: in every run of up to 2^64 calls, a reply that settles call i is
      the result of an execution, the only one, of the function that call i named on the
      arguments it gave, however calls, chunks, executions and replies interleave. */
  lemma CallMatching(w: Setup, s0: System, acts: seq<Action>, k: nat)
    requires GoodSetup(w) && Initial(s0) && Runs(w, s0, acts)
    requires |After(w, s0, acts).calls| <= 0x1_0000_0000_0000_0000
    requires k < |After(w, s0, acts).client.settled|
    requires After(w, s0, acts).client.settled[k].reply.Some?
    ensures var s := After(w, s0, acts); var o := s.client.settled[k];
      o.call < |s.calls| && s.calls[o.call].name in w.funcs &&
      exists e :: 0 <= e < |s.execs| && s.execs[e] == Exec(s.calls[o.call], o.reply.value) &&
        forall f :: 0 <= f < |s.execs| && s.execs[f].call.id == o.call ==> f == e
  {
    InvHolds(w, s0, acts);
    var s := After(w, s0, acts);
    var o := s.client.settled[k];
    assert Executed(s.execs, o.call, o.reply.value);
    var e :| 0 <= e < |s.execs| && s.execs[e].call.id == o.call && s.execs[e].result == o.reply.value;
    assert IsCall(w.funcs, s.calls, s.taken, s.execs[e].call);
    assert s.execs[e] == Exec(s.calls[o.call], o.reply.value);
  }

  /** Exactly-once settlement: every call made is pending or settled, not both, and its callback
      is called at most once. */
  lemma SettledOnce(w: Setup, s0: System, acts: seq<Action>)
    requires GoodSetup(w) && Initial(s0) && Runs(w, s0, acts)
    requires |After(w, s0, acts).calls| <= ID_SPACE
    ensures var c := After(w, s0, acts).client;
      && (forall i :: 0 <= i < c.issued ==> (i in c.pending <==> !IsSettled(c.settled, i)))
      && (forall k, l :: 0 <= k < l < |c.settled| ==> c.settled[k].call != c.settled[l].call)
  {
    InvHolds(w, s0, acts);
  }
}
