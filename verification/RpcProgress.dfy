/** That nothing is lost on a connection that stays up: every call to a registered name is still
    on its way, waiting to be executed, or answered, and every answer that arrives is used. */
module RpcProgress {
  import opened Common
  import opened Octets
  import opened Framing
  import opened Rpc
  import opened RpcEndings

  // ---------- where every call is ----------

  /** What is on the stream is the end of all that was written, and what came before it has been
      taken and has settled its call. */
  ghost predicate Delivered(written: seq<Response>, responses: seq<Response>, settled: seq<Outcome>) {
    && |responses| <= |written| && written[|written| - |responses|..] == responses
    && forall j :: 0 <= j < |written| - |responses| ==> IsSettled(settled, written[j].id)
  }

  ghost predicate InWork(work: multiset<Request>, i: nat) { exists r :: r in work && r.id == i }

  ghost predicate InDone(done: multiset<Response>, i: nat) { exists r :: r in done && r.id == i }

  ghost predicate InWritten(written: seq<Response>, i: nat) {
    exists j :: 0 <= j < |written| && written[j].id == i
  }

  ghost predicate Accounted(work: multiset<Request>, done: multiset<Response>, written: seq<Response>, i: nat) {
    InWork(work, i) || InDone(done, i) || InWritten(written, i)
  }

  /** Every call to a registered name that the server has taken waits, has been executed or has
      been answered. */
  ghost predicate AllAccounted(funcs: set<string>, calls: seq<Request>, taken: nat, work: multiset<Request>, done: multiset<Response>, written: seq<Response>) {
    forall i :: 0 <= i < taken && i < |calls| && calls[i].name in funcs ==> Accounted(work, done, written, i)
  }

  ghost predicate Alive(s: System) { s.up && s.server.open }

  ghost predicate Flow(w: Setup, s: System) {
    && Delivered(s.written, s.responses, s.client.settled) && Written(s.execs, s.written)
    && (Alive(s) ==> AllAccounted(w.funcs, s.calls, s.taken, s.server.work, s.done, s.written))
  }

  // ---------- what every step keeps ----------

  lemma SettledMore(settled: seq<Outcome>, more: seq<Outcome>, i: nat)
    requires settled <= more && IsSettled(settled, i)
    ensures IsSettled(more, i)
  {
    var k :| 0 <= k < |settled| && settled[k].call == i;
    assert more[k].call == i;
  }

  lemma DeliveredMore(written: seq<Response>, responses: seq<Response>, settled: seq<Outcome>, more: seq<Outcome>)
    requires Delivered(written, responses, settled) && settled <= more
    ensures Delivered(written, responses, more)
  {
    forall j | 0 <= j < |written| - |responses| ensures IsSettled(more, written[j].id) {
      SettledMore(settled, more, written[j].id);
    }
  }

  lemma {:induction false} RepliesAdd(c: Client, rs: seq<Response>, n: nat)
    requires n <= |rs|
    ensures c.settled <= TakeReplies(c, rs, n).settled
    decreases n
  {
    if n > 0 {
      RepliesAdd(c, rs, n - 1);
    }
  }

  /** A reply that is taken settles its call, if it was not settled before. */
  lemma TakenSettled(execs: seq<Exec>, c: Client, rs: seq<Response>, j: nat)
    requires OnceEach(c.pending, c.settled, c.issued) && Replied(execs, c.settled) && Written(execs, rs)
    requires j < |rs| && rs[j].id < c.issued
    ensures IsSettled(TakeReplies(c, rs, |rs|).settled, rs[j].id)
  {
    TakeRepliesKeeps(execs, c, rs, |rs|);
    TakenNotPending(c, rs, |rs|, j);
  }

  lemma DeliveredLess(written: seq<Response>, responses: seq<Response>, settled: seq<Outcome>, k: nat)
    requires Delivered(written, responses, settled) && k <= |responses|
    requires forall j :: 0 <= j < k ==> IsSettled(settled, responses[j].id)
    ensures Delivered(written, responses[k..], settled)
  {
    var n := |written| - |responses|;
    forall j | 0 <= j < n + k ensures IsSettled(settled, written[j].id) {
      if n <= j {
        assert written[n..][j - n] == responses[j - n];
      }
    }
  }

  lemma ToClientFlow(w: Setup, s: System, n: nat)
    requires GoodSetup(w) && Inv(w, s) && Flow(w, s) && n <= |s.toClient|
    ensures Flow(w, ToClientStep(w, s, n))
  {
    var rs := Drain(w.resp.dec, s.client.pac + s.toClient[..n]).0;
    var t := ToClientStep(w, s, n);
    CarriesLess(w.resp, s.responses, s.client.pac, s.toClient, n);
    RepliesAdd(s.client, rs, |rs|);
    DeliveredMore(s.written, s.responses, s.client.settled, t.client.settled);
    forall j | 0 <= j < |rs| ensures IsSettled(t.client.settled, s.responses[j].id) {
      assert rs[j] == s.responses[j];
      AnswersAreOfSent(w, s, j);
      TakenSettled(s.execs, s.client, rs, j);
    }
    DeliveredLess(s.written, s.responses, t.client.settled, |rs|);
  }

  lemma AccountedAfterTaking(funcs: set<string>, calls: seq<Request>, taken: nat, s: Server, rs: seq<Request>, done: multiset<Response>, written: seq<Response>)
    requires AllAccounted(funcs, calls, taken, s.work, done, written) && taken + |rs| <= |calls|
    requires forall i :: 0 <= i < |calls| ==> calls[i].id == i
    requires forall j :: 0 <= j < |rs| ==> rs[j] == calls[taken + j]
    ensures AllAccounted(funcs, calls, taken + |rs|, TakeRequests(funcs, s, rs, |rs|).work, done, written)
  {
    var work := TakeRequests(funcs, s, rs, |rs|).work;
    forall i | 0 <= i < taken + |rs| && calls[i].name in funcs ensures Accounted(work, done, written, i) {
      WorkAfter(funcs, calls, taken, s, rs, |rs|, calls[i]);
      if i < taken {
        if InWork(s.work, i) {
          var r :| r in s.work && r.id == i;
          WorkAfter(funcs, calls, taken, s, rs, |rs|, r);
          assert r in work;
        }
      } else {
        assert calls[i] in work;
      }
    }
  }

  lemma {:induction false} TakingKeepsOpen(funcs: set<string>, s: Server, rs: seq<Request>, n: nat)
    requires n <= |rs|
    ensures TakeRequests(funcs, s, rs, n).open == s.open
    decreases n
  {
    if n > 0 {
      TakingKeepsOpen(funcs, s, rs, n - 1);
    }
  }

  lemma ToServerFlow(w: Setup, s: System, n: nat)
    requires GoodSetup(w) && Asking(w, s) && Flow(w, s) && n <= |s.toServer|
    ensures Flow(w, ToServerStep(w, s, n))
  {
    var rs := Drain(w.req.dec, s.server.pac + s.toServer[..n]).0;
    TakesNextCalls(w, s, n);
    TakingKeepsOpen(w.funcs, s.server, rs, |rs|);
    if Alive(s) {
      AccountedAfterTaking(w.funcs, s.calls, s.taken, s.server, rs, s.done, s.written);
    }
  }

  lemma ExecuteAccounted(funcs: set<string>, calls: seq<Request>, taken: nat, work: multiset<Request>, done: multiset<Response>, written: seq<Response>, r: Request, a: Response)
    requires AllAccounted(funcs, calls, taken, work, done, written) && a.id == r.id
    ensures AllAccounted(funcs, calls, taken, work - multiset{r}, done + multiset{a}, written)
  {
    forall i | 0 <= i < taken && i < |calls| && calls[i].name in funcs
      ensures Accounted(work - multiset{r}, done + multiset{a}, written, i)
    {
      assert Accounted(work, done, written, i);
      if i == r.id {
        assert a in done + multiset{a};
      } else if InWork(work, i) {
        var q :| q in work && q.id == i;
        assert q in work - multiset{r};
      } else if InDone(done, i) {
        var b :| b in done && b.id == i;
        assert b in done + multiset{a};
      }
    }
  }

  lemma RespondAccounted(funcs: set<string>, calls: seq<Request>, taken: nat, work: multiset<Request>, done: multiset<Response>, written: seq<Response>, a: Response)
    requires AllAccounted(funcs, calls, taken, work, done, written)
    ensures AllAccounted(funcs, calls, taken, work, done - multiset{a}, written + [a])
  {
    var more := written + [a];
    assert more[|written|] == a;
    forall i | 0 <= i < taken && i < |calls| && calls[i].name in funcs
      ensures Accounted(work, done - multiset{a}, more, i)
    {
      assert Accounted(work, done, written, i);
      if InDone(done, i) {
        var b :| b in done && b.id == i;
        assert b == a || b in done - multiset{a};
      } else if InWritten(written, i) {
        var j :| 0 <= j < |written| && written[j].id == i;
        assert more[j].id == i;
      }
    }
  }

  lemma ExecuteFlow(w: Setup, s: System, r: Request, result: Bytes)
    requires GoodSetup(w) && Flow(w, s) && r in s.server.work
    ensures Flow(w, Next(w, s, Execute(r, result)))
  {
    ExecutedMore(s.execs, Exec(r, result));
    if Alive(s) {
      ExecuteAccounted(w.funcs, s.calls, s.taken, s.server.work, s.done, s.written, r, Response(r.id, result));
    }
  }

  lemma DeliveredWriting(written: seq<Response>, responses: seq<Response>, settled: seq<Outcome>, a: Response)
    requires Delivered(written, responses, settled)
    ensures Delivered(written + [a], responses + [a], settled)
  {
    var n := |written| - |responses|;
    assert (written + [a])[n..] == written[n..] + [a];
  }

  lemma RespondFlow(w: Setup, s: System, a: Response)
    requires GoodSetup(w) && Computed(s.execs, s.done) && Flow(w, s) && Enabled(w, s, Respond(a))
    ensures Flow(w, Next(w, s, Respond(a)))
  {
    assert Executed(s.execs, a.id, a.result);
    if Alive(s) {
      RespondAccounted(w.funcs, s.calls, s.taken, s.server.work, s.done, s.written, a);
      DeliveredWriting(s.written, s.responses, s.client.settled, a);
    }
  }

  lemma CallAccounted(funcs: set<string>, calls: seq<Request>, more: seq<Request>, taken: nat, work: multiset<Request>, done: multiset<Response>, written: seq<Response>)
    requires AllAccounted(funcs, calls, taken, work, done, written) && taken <= |calls| && calls <= more
    ensures AllAccounted(funcs, more, taken, work, done, written)
  {
    forall i | 0 <= i < taken && i < |more| && more[i].name in funcs ensures Accounted(work, done, written, i) {
      assert more[i] == calls[i];
    }
  }

  lemma CallFlow(w: Setup, s: System, name: string, args: Bytes)
    requires Asking(w, s) && Flow(w, s)
    ensures Flow(w, CallStep(w, s, name, args))
  {
    var t := CallStep(w, s, name, args);
    if Alive(s) {
      CallAccounted(w.funcs, s.calls, t.calls, s.taken, s.server.work, s.done, s.written);
    }
  }

  lemma FlowKept(w: Setup, s: System, a: Action)
    requires GoodSetup(w) && Enabled(w, s, a) && Inv(w, s) && Flow(w, s)
    ensures Flow(w, Next(w, s, a))
  {
    match a
    case Call(name, args) => CallFlow(w, s, name, args);
    case ToServer(n) => ToServerFlow(w, s, n);
    case Execute(r, result) => ExecuteFlow(w, s, r, result);
    case Respond(r) => RespondFlow(w, s, r);
    case ToClient(n) => ToClientFlow(w, s, n);
    case UserDisconnect(order) =>
      DeliveredMore(s.written, s.responses, s.client.settled, Disconnect(s.client, order).settled);
    case ServerClose =>
    case ConnectionLost =>
  }

  lemma {:induction false} FlowHolds(w: Setup, s: System, acts: seq<Action>)
    requires GoodSetup(w) && Runs(w, s, acts) && Inv(w, s) && Flow(w, s) && |After(w, s, acts).calls| <= ID_SPACE
    ensures Inv(w, After(w, s, acts)) && Flow(w, After(w, s, acts))
    decreases |acts|
  {
    if acts != [] {
      CallsGrow(w, Next(w, s, acts[0]), acts[1..]);
      InvKept(w, s, acts[0]);
      FlowKept(w, s, acts[0]);
      FlowHolds(w, Next(w, s, acts[0]), acts[1..]);
    }
  }

  /** What has been settled stays settled. */
  lemma {:induction false} SettledGrows(w: Setup, s: System, acts: seq<Action>)
    requires GoodSetup(w) && Runs(w, s, acts)
    ensures s.client.settled <= After(w, s, acts).client.settled
    decreases |acts|
  {
    if acts != [] {
      if acts[0].ToClient? {
        var rs := Drain(w.resp.dec, s.client.pac + s.toClient[..acts[0].n]).0;
        RepliesAdd(s.client, rs, |rs|);
      }
      SettledGrows(w, Next(w, s, acts[0]), acts[1..]);
    }
  }

  lemma InitialFlow(w: Setup, s: System)
    requires Initial(s)
    ensures Inv(w, s) && Flow(w, s)
  {
    InitialInv(w, s);
  }

  // ---------- theorems ----------

  lemma OneResult(w: Setup, s: System, id: nat, x: Bytes, y: Bytes)
    requires Asking(w, s) && Executed(s.execs, id, x) && Executed(s.execs, id, y)
    ensures x == y
  {
    var k :| 0 <= k < |s.execs| && s.execs[k].call.id == id && s.execs[k].result == x;
    var l :| 0 <= l < |s.execs| && s.execs[l].call.id == id && s.execs[l].result == y;
    assert k == l;
  }

  /** Every answer that arrives is used: in every run, whatever the order in which calls are
      answered, an answer written to the stream is still on it or its call is settled, and unless
      the user disconnected it is settled by that very answer. */
  lemma AnswersSettle(w: Setup, s0: System, acts: seq<Action>, j: nat)
    requires GoodSetup(w) && Initial(s0) && Runs(w, s0, acts) && |After(w, s0, acts).calls| <= ID_SPACE
    requires j < |After(w, s0, acts).written|
    ensures var s := After(w, s0, acts); var a := s.written[j];
      && (a in s.responses || IsSettled(s.client.settled, a.id))
      && (a !in s.responses && NoDisconnect(acts) ==> Outcome(a.id, Some(a.result)) in s.client.settled)
  {
    InitialFlow(w, s0);
    FlowHolds(w, s0, acts);
    var s := After(w, s0, acts);
    var a, n := s.written[j], |s.written| - |s.responses|;
    if n <= j {
      assert s.written[n..][j - n] == a;
    } else if NoDisconnect(acts) {
      OnlyDisconnectAborts(w, s0, acts);
      var k :| 0 <= k < |s.client.settled| && s.client.settled[k].call == a.id;
      OneResult(w, s, a.id, a.result, s.client.settled[k].reply.value);
    }
  }

  /** Nothing is under way in either direction and nothing is left to execute or to answer. */
  ghost predicate Idle(s: System) {
    s.requests == [] && s.server.work == multiset{} && s.done == multiset{} && s.responses == []
  }

  lemma IdleAnswered(w: Setup, s: System, i: nat)
    requires Inv(w, s) && Flow(w, s) && Alive(s) && s.client.listening && Idle(s)
    requires i < |s.calls| && s.calls[i].name in w.funcs
    ensures IsSettled(s.client.settled, i)
  {
    assert i < s.taken;
    assert Accounted(s.server.work, s.done, s.written, i);
    var j :| 0 <= j < |s.written| && s.written[j].id == i;
  }

  lemma {:induction false} StillListening(w: Setup, s: System, acts: seq<Action>)
    requires GoodSetup(w) && Runs(w, s, acts) && NoDisconnect(acts)
    ensures After(w, s, acts).client.listening == s.client.listening
    decreases |acts|
  {
    if acts != [] {
      assert !acts[0].UserDisconnect?;
      assert Next(w, s, acts[0]).client.listening == s.client.listening by {
        if acts[0].ToClient? {
          var rs := Drain(w.resp.dec, s.client.pac + s.toClient[..acts[0].n]).0;
          RepliesKeepListening(s.client, rs, |rs|);
        }
      }
      StillListening(w, Next(w, s, acts[0]), acts[1..]);
    }
  }

  lemma {:induction false} RepliesKeepListening(c: Client, rs: seq<Response>, n: nat)
    requires n <= |rs|
    ensures TakeReplies(c, rs, n).listening == c.listening
    decreases n
  {
    if n > 0 {
      RepliesKeepListening(c, rs, n - 1);
    }
  }

  /** Nothing is lost: on a connection that is still up, whenever nothing is under way or left to
      do, a call has been settled if and only if its name is registered. */
  lemma AllAnswered(w: Setup, s0: System, acts: seq<Action>, i: nat)
    requires GoodSetup(w) && Initial(s0) && Runs(w, s0, acts) && |After(w, s0, acts).calls| <= ID_SPACE
    requires NoDisconnect(acts) && Alive(After(w, s0, acts)) && Idle(After(w, s0, acts))
    requires i < |After(w, s0, acts).calls|
    ensures var s := After(w, s0, acts);
      IsSettled(s.client.settled, i) <==> s.calls[i].name in w.funcs
  {
    InitialFlow(w, s0);
    FlowHolds(w, s0, acts);
    var s := After(w, s0, acts);
    if s.calls[i].name in w.funcs {
      StillListening(w, s0, acts);
      IdleAnswered(w, s, i);
    } else {
      UnknownNameHangs(w, s0, acts, i);
    }
  }

  // ---------- every call can be answered ----------

  lemma WrittenCanBeRead<M(!new)>(c: Codec<M>, q: seq<M>)
    requires Good(c) && AllOk(c, q) && q != []
    ensures c.dec(EncAll(c, q)).Got?
  {
    assert c.dec(c.enc(q[0])).Got?;
    assert c.dec(c.enc(q[0]) + EncAll(c, q[1..])) == c.dec(c.enc(q[0]));
  }

  /** Delivering all bytes there are leaves no message on the stream. */
  lemma AllTaken<M(!new)>(c: Codec<M>, q: seq<M>, buf: Bytes, wire: Bytes)
    requires Good(c) && Carries(c, q, buf + wire)
    ensures |Drain(c.dec, buf + wire[..|wire|]).0| == |q|
  {
    assert wire[..|wire|] == wire && wire[|wire|..] == [];
    CarriesLess(c, q, buf, wire, |wire|);
    var (ms, rest) := Drain(c.dec, buf + wire);
    DrainedRest(c.dec, buf + wire);
    assert rest + [] == rest;
    if |ms| < |q| {
      WrittenCanBeRead(c, q[|ms|..]);
    }
  }

  lemma ToServerEmpties(w: Setup, s: System)
    requires GoodSetup(w) && Asking(w, s)
    ensures var t := ToServerStep(w, s, |s.toServer|); t.requests == [] && t.up == s.up && t.server.open == s.server.open
  {
    AllTaken(w.req, s.requests, s.server.pac, s.toServer);
    var rs := Drain(w.req.dec, s.server.pac + s.toServer[..|s.toServer|]).0;
    TakingKeepsOpen(w.funcs, s.server, rs, |rs|);
  }

  lemma ToClientEmpties(w: Setup, s: System)
    requires GoodSetup(w) && Answering(w, s)
    ensures ToClientStep(w, s, |s.toClient|).responses == []
  {
    AllTaken(w.resp, s.responses, s.client.pac, s.toClient);
  }

  /** What is known of every state reached. */
  ghost predicate Known(w: Setup, s: System) { Inv(w, s) && Flow(w, s) }

  lemma ReceivedSettles(w: Setup, s: System, i: nat)
    requires GoodSetup(w) && Known(w, s) && InWritten(s.written, i)
    ensures IsSettled(ToClientStep(w, s, |s.toClient|).client.settled, i)
  {
    ToClientFlow(w, s, |s.toClient|);
    ToClientEmpties(w, s);
    var j :| 0 <= j < |s.written| && s.written[j].id == i;
    assert ToClientStep(w, s, |s.toClient|).written[j].id == i;
  }

  /** The client receives all there is, and with it the answer to call i. */
  lemma Receive(w: Setup, s: System, i: nat) returns (acts: seq<Action>)
    requires GoodSetup(w) && Known(w, s) && InWritten(s.written, i)
    ensures Runs(w, s, acts) && NoDisconnect(acts) && IsSettled(After(w, s, acts).client.settled, i)
  {
    ReceivedSettles(w, s, i);
    GoOn(w, s, ToClient(|s.toClient|), []);
    acts := [ToClient(|s.toClient|)] + [];
  }

  lemma GoOn(w: Setup, s: System, a: Action, rest: seq<Action>)
    requires GoodSetup(w) && Enabled(w, s, a) && !a.UserDisconnect?
    requires Runs(w, Next(w, s, a), rest) && NoDisconnect(rest)
    ensures var acts := [a] + rest;
      Runs(w, s, acts) && NoDisconnect(acts) && After(w, s, acts) == After(w, Next(w, s, a), rest)
  {
    var acts := [a] + rest;
    assert acts[0] == a && acts[1..] == rest;
  }

  lemma Answer(w: Setup, s: System, i: nat) returns (acts: seq<Action>)
    requires GoodSetup(w) && Known(w, s) && |s.calls| <= ID_SPACE && Alive(s) && InDone(s.done, i)
    requires forall r :: r in s.done ==> w.resp.ok(r)
    ensures Runs(w, s, acts) && NoDisconnect(acts) && IsSettled(After(w, s, acts).client.settled, i)
  {
    var r :| r in s.done && r.id == i;
    var t := Next(w, s, Respond(r));
    InvKept(w, s, Respond(r));
    FlowKept(w, s, Respond(r));
    assert t.written[|s.written|].id == i;
    var rest := Receive(w, t, i);
    GoOn(w, s, Respond(r), rest);
    acts := [Respond(r)] + rest;
  }

  lemma Perform(w: Setup, s: System, i: nat, result: Bytes) returns (acts: seq<Action>)
    requires GoodSetup(w) && Known(w, s) && |s.calls| <= ID_SPACE && Alive(s) && InWork(s.server.work, i)
    requires w.resp.ok(Response(i, result)) && forall r :: r in s.done ==> w.resp.ok(r)
    ensures Runs(w, s, acts) && NoDisconnect(acts) && IsSettled(After(w, s, acts).client.settled, i)
  {
    var r :| r in s.server.work && r.id == i;
    var a := Execute(r, result);
    var t := Next(w, s, a);
    InvKept(w, s, a);
    FlowKept(w, s, a);
    assert Response(i, result) in t.done;
    var rest := Answer(w, t, i);
    GoOn(w, s, a, rest);
    acts := [a] + rest;
  }

  lemma CarryOn(w: Setup, s: System, i: nat, result: Bytes) returns (acts: seq<Action>)
    requires GoodSetup(w) && Known(w, s) && |s.calls| <= ID_SPACE && Alive(s)
    requires i < |s.calls| && i < s.taken && s.calls[i].name in w.funcs
    requires w.resp.ok(Response(i, result)) && forall r :: r in s.done ==> w.resp.ok(r)
    ensures Runs(w, s, acts) && NoDisconnect(acts) && IsSettled(After(w, s, acts).client.settled, i)
  {
    assert Accounted(s.server.work, s.done, s.written, i);
    if InWritten(s.written, i) {
      acts := Receive(w, s, i);
    } else if InDone(s.done, i) {
      acts := Answer(w, s, i);
    } else {
      acts := Perform(w, s, i, result);
    }
  }

  /** In every state that a run without disconnect reaches on a connection still up, every call to
      a registered name can be answered from there, however many others are pending and in
      whatever order they are answered. */
  lemma CanBeAnswered(w: Setup, s0: System, acts: seq<Action>, i: nat, result: Bytes) returns (more: seq<Action>)
    requires GoodSetup(w) && Initial(s0) && Runs(w, s0, acts) && |After(w, s0, acts).calls| <= ID_SPACE
    requires NoDisconnect(acts) && Alive(After(w, s0, acts))
    requires i < |After(w, s0, acts).calls| && After(w, s0, acts).calls[i].name in w.funcs
    requires w.resp.ok(Response(i, result)) && forall r :: r in After(w, s0, acts).done ==> w.resp.ok(r)
    ensures Runs(w, After(w, s0, acts), more) && NoDisconnect(more)
    ensures IsSettled(After(w, After(w, s0, acts), more).client.settled, i)
  {
    InitialFlow(w, s0);
    FlowHolds(w, s0, acts);
    StillListening(w, s0, acts);
    var s := After(w, s0, acts);
    var a := ToServer(|s.toServer|);
    var t := Next(w, s, a);
    InvKept(w, s, a);
    FlowKept(w, s, a);
    ToServerEmpties(w, s);
    var rest := CarryOn(w, t, i, result);
    GoOn(w, s, a, rest);
    more := [a] + rest;
  }
}
