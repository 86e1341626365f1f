/** How calls end when no answer comes: what the user's disconnect, a connection lost from the
    other side and a name that is not registered mean for the calls that are pending. */
module RpcEndings {
  import opened Common
  import opened Octets
  import opened Framing
  import opened Rpc

  // ---------- after the user's disconnect ----------

  /** Every answer under way belongs to a request that the server has taken. */
  lemma AnswersAreOfSent(w: Setup, s: System, j: nat)
    requires Inv(w, s) && j < |s.responses|
    ensures s.responses[j].id < s.taken
  {
    assert Executed(s.execs, s.responses[j].id, s.responses[j].result);
    var k :| 0 <= k < |s.execs| && s.execs[k].call.id == s.responses[j].id && s.execs[k].result == s.responses[j].result;
    assert IsCall(w.funcs, s.calls, s.taken, s.execs[k].call);
  }

  lemma {:induction false} UnknownRepliesIgnored(c: Client, rs: seq<Response>, n: nat)
    requires n <= |rs| && forall j :: 0 <= j < |rs| ==> rs[j].id !in c.pending
    ensures TakeReplies(c, rs, n) == c
    decreases n
  {
    if n > 0 {
      UnknownRepliesIgnored(c, rs, n - 1);
    }
  }

  /** Bytes that still arrive after the disconnect find no callback to call, because the table was
      cleared and later calls are not sent. */
  lemma LateBytesIgnored(w: Setup, s: System, n: nat)
    requires GoodSetup(w) && Inv(w, s) && !s.client.listening && n <= |s.toClient|
    ensures var c := ToClientStep(w, s, n).client;
      c.settled == s.client.settled && c.pending == s.client.pending && !c.listening
  {
    var rs := Drain(w.resp.dec, s.client.pac + s.toClient[..n]).0;
    CarriesLess(w.resp, s.responses, s.client.pac, s.toClient, n);
    forall j | 0 <= j < |rs| ensures rs[j].id !in s.client.pending {
      AnswersAreOfSent(w, s, j);
    }
    UnknownRepliesIgnored(s.client, rs, |rs|);
  }

  /** What one step adds to the settled calls once the user has disconnected. */
  lemma OnlyAbortsLeft(w: Setup, s: System, a: Action)
    requires GoodSetup(w) && Enabled(w, s, a) && Inv(w, s) && !s.client.listening
    ensures var t := Next(w, s, a);
      && !t.client.listening && s.client.settled <= t.client.settled
      && forall k :: |s.client.settled| <= k < |t.client.settled| ==> t.client.settled[k].reply.None?
  {
    if a.ToClient? {
      LateBytesIgnored(w, s, a.n);
    }
  }

  lemma {:induction false} OnlyAbortsAfterDisconnect(w: Setup, s: System, acts: seq<Action>)
    requires GoodSetup(w) && Runs(w, s, acts) && Inv(w, s) && !s.client.listening
    requires |After(w, s, acts).calls| <= ID_SPACE
    ensures var t := After(w, s, acts);
      && !t.client.listening && s.client.settled <= t.client.settled
      && forall k :: |s.client.settled| <= k < |t.client.settled| ==> t.client.settled[k].reply.None?
    decreases |acts|
  {
    if acts != [] {
      CallsGrow(w, Next(w, s, acts[0]), acts[1..]);
      InvKept(w, s, acts[0]);
      OnlyAbortsLeft(w, s, acts[0]);
      OnlyAbortsAfterDisconnect(w, Next(w, s, acts[0]), acts[1..]);
    }
  }

  /** Right after the user's disconnect every call made so far is settled. */
  lemma DisconnectSettlesAll(w: Setup, s0: System, acts: seq<Action>, order: seq<nat>)
    requires GoodSetup(w) && Initial(s0) && Runs(w, s0, acts)
    requires |After(w, s0, acts).calls| <= ID_SPACE && Enabled(w, After(w, s0, acts), UserDisconnect(order))
    ensures var s := Next(w, After(w, s0, acts), UserDisconnect(order));
      !s.client.listening && forall i :: 0 <= i < s.client.issued ==> IsSettled(s.client.settled, i)
  {
    InvHolds(w, s0, acts);
    DisconnectSettles(After(w, s0, acts).client, order);
  }

  /** In every run after a disconnect no reply settles anything any more, even if bytes still
      arrive: the only callbacks still called are aborts by another disconnect. */
  lemma NoReplyAfterDisconnect(w: Setup, s0: System, before: seq<Action>, order: seq<nat>, acts: seq<Action>)
    requires GoodSetup(w) && Initial(s0) && Runs(w, s0, before)
    requires Enabled(w, After(w, s0, before), UserDisconnect(order))
    requires Runs(w, Next(w, After(w, s0, before), UserDisconnect(order)), acts)
    requires |After(w, Next(w, After(w, s0, before), UserDisconnect(order)), acts).calls| <= ID_SPACE
    ensures var s := Next(w, After(w, s0, before), UserDisconnect(order)); var t := After(w, s, acts);
      && s.client.settled <= t.client.settled
      && forall k :: |s.client.settled| <= k < |t.client.settled| ==> t.client.settled[k].reply.None?
  {
    var s := Next(w, After(w, s0, before), UserDisconnect(order));
    CallsGrow(w, s, acts);
    InvHolds(w, s0, before);
    InvKept(w, After(w, s0, before), UserDisconnect(order));
    OnlyAbortsAfterDisconnect(w, s, acts);
  }

  // ---------- after the connection is lost ----------

  ghost predicate NoReplyFor(responses: seq<Response>, i: nat) {
    forall j :: 0 <= j < |responses| ==> responses[j].id != i
  }

  ghost predicate NoDisconnect(acts: seq<Action>) {
    forall k :: 0 <= k < |acts| ==> !acts[k].UserDisconnect?
  }

  lemma {:induction false} OthersRepliesKeep(c: Client, rs: seq<Response>, n: nat, i: nat)
    requires n <= |rs| && NoReplyFor(rs, i)
    ensures i in TakeReplies(c, rs, n).pending <==> i in c.pending
    decreases n
  {
    if n > 0 {
      OthersRepliesKeep(c, rs, n - 1, i);
    }
  }

  lemma ToClientLeaves(w: Setup, s: System, n: nat, i: nat)
    requires GoodSetup(w) && Inv(w, s) && NoReplyFor(s.responses, i) && n <= |s.toClient|
    ensures var t := ToClientStep(w, s, n);
      NoReplyFor(t.responses, i) && (i in t.client.pending <==> i in s.client.pending)
  {
    var rs := Drain(w.resp.dec, s.client.pac + s.toClient[..n]).0;
    CarriesLess(w.resp, s.responses, s.client.pac, s.toClient, n);
    assert forall j :: 0 <= j < |rs| ==> rs[j] == s.responses[j];
    OthersRepliesKeep(s.client, rs, |rs|, i);
  }

  lemma LostStep(w: Setup, s: System, a: Action, i: nat)
    requires GoodSetup(w) && Enabled(w, s, a) && Inv(w, s) && !a.UserDisconnect?
    requires !s.up && i in s.client.pending && NoReplyFor(s.responses, i)
    ensures var t := Next(w, s, a); !t.up && i in t.client.pending && NoReplyFor(t.responses, i)
  {
    if a.ToClient? {
      ToClientLeaves(w, s, a.n, i);
    }
  }

  lemma {:induction false} FewerPending(c: Client, rs: seq<Response>, n: nat)
    requires n <= |rs|
    ensures TakeReplies(c, rs, n).pending.Keys <= c.pending.Keys && TakeReplies(c, rs, n).issued == c.issued
    decreases n
  {
    if n > 0 {
      FewerPending(c, rs, n - 1);
    }
  }

  /** A call that is settled does not become pending again. */
  lemma {:induction false} SettledStays(w: Setup, s: System, acts: seq<Action>, i: nat)
    requires GoodSetup(w) && Runs(w, s, acts) && Inv(w, s) && |After(w, s, acts).calls| <= ID_SPACE
    requires i < s.client.issued && i !in s.client.pending
    ensures i !in After(w, s, acts).client.pending
    decreases |acts|
  {
    if acts != [] {
      var t := Next(w, s, acts[0]);
      CallsGrow(w, t, acts[1..]);
      InvKept(w, s, acts[0]);
      assert i < t.client.issued && i !in t.client.pending by {
        if acts[0].ToClient? {
          var rs := Drain(w.resp.dec, s.client.pac + s.toClient[..acts[0].n]).0;
          FewerPending(s.client, rs, |rs|);
        }
      }
      SettledStays(w, t, acts[1..], i);
    }
  }

  /** A connection lost from the other side settles nothing: a call that is pending then and whose
      reply is not yet on its way stays pending until, and only until, the user disconnects. */
  lemma {:induction false} LostConnectionLeavesPending(w: Setup, s: System, acts: seq<Action>, i: nat)
    requires GoodSetup(w) && Runs(w, s, acts) && Inv(w, s) && |After(w, s, acts).calls| <= ID_SPACE
    requires !s.up && i in s.client.pending && NoReplyFor(s.responses, i)
    ensures i in After(w, s, acts).client.pending <==> NoDisconnect(acts)
    decreases |acts|
  {
    if acts != [] {
      var t := Next(w, s, acts[0]);
      CallsGrow(w, t, acts[1..]);
      InvKept(w, s, acts[0]);
      if acts[0].UserDisconnect? {
        SettledStays(w, t, acts[1..], i);
      } else {
        LostStep(w, s, acts[0], i);
        LostConnectionLeavesPending(w, t, acts[1..], i);
        assert NoDisconnect(acts) <==> NoDisconnect(acts[1..]);
      }
    }
  }

  // ---------- calls to a name that is not registered ----------

  ghost predicate AllReplied(settled: seq<Outcome>) {
    forall k :: 0 <= k < |settled| ==> settled[k].reply.Some?
  }

  lemma {:induction false} RepliesReply(c: Client, rs: seq<Response>, n: nat)
    requires n <= |rs| && AllReplied(c.settled)
    ensures AllReplied(TakeReplies(c, rs, n).settled)
    decreases n
  {
    if n > 0 {
      RepliesReply(c, rs, n - 1);
    }
  }

  lemma {:induction false} OnlyDisconnectAborts(w: Setup, s: System, acts: seq<Action>)
    requires GoodSetup(w) && Runs(w, s, acts) && NoDisconnect(acts) && AllReplied(s.client.settled)
    ensures AllReplied(After(w, s, acts).client.settled)
    decreases |acts|
  {
    if acts != [] {
      assert !acts[0].UserDisconnect?;
      if acts[0].ToClient? {
        var rs := Drain(w.resp.dec, s.client.pac + s.toClient[..acts[0].n]).0;
        RepliesReply(s.client, rs, |rs|);
      }
      OnlyDisconnectAborts(w, Next(w, s, acts[0]), acts[1..]);
    }
  }

  /** A call to a name that is not registered is never answered: its callback is not called but
      by the user's disconnect, so without one it is pending for good. */
  lemma UnknownNameHangs(w: Setup, s0: System, acts: seq<Action>, i: nat)
    requires GoodSetup(w) && Initial(s0) && Runs(w, s0, acts)
    requires |After(w, s0, acts).calls| <= ID_SPACE
    requires i < |After(w, s0, acts).calls| && After(w, s0, acts).calls[i].name !in w.funcs
    ensures var c := After(w, s0, acts).client;
      && (forall k :: 0 <= k < |c.settled| && c.settled[k].call == i ==> c.settled[k].reply.None?)
      && (NoDisconnect(acts) ==> i in c.pending)
  {
    InvHolds(w, s0, acts);
    var s := After(w, s0, acts);
    forall k | 0 <= k < |s.client.settled| && s.client.settled[k].call == i
      ensures s.client.settled[k].reply.None?
    {
      if s.client.settled[k].reply.Some? {
        CallMatching(w, s0, acts, k);
      }
    }
    if NoDisconnect(acts) {
      OnlyDisconnectAborts(w, s0, acts);
    }
  }

  /** The server has taken a call to a name that is not registered. */
  ghost predicate TookUnknown(funcs: set<string>, calls: seq<Request>, taken: nat) {
    exists j :: 0 <= j < taken && j < |calls| && calls[j].name !in funcs
  }

  ghost predicate AnyUnknown(funcs: set<string>, rs: seq<Request>, n: nat)
    requires n <= |rs|
  {
    exists j :: 0 <= j < n && rs[j].name !in funcs
  }

  lemma {:induction false} ClosingAfter(funcs: set<string>, s: Server, rs: seq<Request>, n: nat)
    requires n <= |rs|
    ensures TakeRequests(funcs, s, rs, n).closing <==> s.closing || AnyUnknown(funcs, rs, n)
    decreases n
  {
    if n > 0 {
      ClosingAfter(funcs, s, rs, n - 1);
      assert AnyUnknown(funcs, rs, n) <==> AnyUnknown(funcs, rs, n - 1) || rs[n - 1].name !in funcs;
    }
  }

  lemma TookMore(funcs: set<string>, calls: seq<Request>, taken: nat, rs: seq<Request>)
    requires taken + |rs| <= |calls| && forall j :: 0 <= j < |rs| ==> rs[j] == calls[taken + j]
    ensures TookUnknown(funcs, calls, taken + |rs|) <==>
      TookUnknown(funcs, calls, taken) || AnyUnknown(funcs, rs, |rs|)
  {
    if TookUnknown(funcs, calls, taken + |rs|) && !TookUnknown(funcs, calls, taken) {
      var j :| 0 <= j < taken + |rs| && j < |calls| && calls[j].name !in funcs;
      assert rs[j - taken].name !in funcs;
    }
    if AnyUnknown(funcs, rs, |rs|) {
      var j :| 0 <= j < |rs| && rs[j].name !in funcs;
      assert calls[taken + j].name !in funcs;
    }
  }

  /** What the server takes off the stream are the next calls, in order. */
  lemma TakesNextCalls(w: Setup, s: System, n: nat)
    requires GoodSetup(w) && Asking(w, s) && n <= |s.toServer|
    ensures var rs := Drain(w.req.dec, s.server.pac + s.toServer[..n]).0;
      s.taken + |rs| <= |s.calls| && forall j :: 0 <= j < |rs| ==> rs[j] == s.calls[s.taken + j]
  {
    var rs := Drain(w.req.dec, s.server.pac + s.toServer[..n]).0;
    CarriesLess(w.req, s.requests, s.server.pac, s.toServer, n);
    NextCalls(s.client.reqId, s.client.issued, s.calls, s.requests, s.taken, s.up && s.client.listening, |rs|);
  }

  lemma ToServerCloses(w: Setup, s: System, n: nat)
    requires GoodSetup(w) && Asking(w, s) && n <= |s.toServer|
    requires s.server.closing <==> TookUnknown(w.funcs, s.calls, s.taken)
    ensures var t := ToServerStep(w, s, n); t.server.closing <==> TookUnknown(w.funcs, t.calls, t.taken)
  {
    var rs := Drain(w.req.dec, s.server.pac + s.toServer[..n]).0;
    TakesNextCalls(w, s, n);
    TookMore(w.funcs, s.calls, s.taken, rs);
    ClosingAfter(w.funcs, s.server, rs, |rs|);
  }

  lemma {:induction false} ClosingHolds(w: Setup, s: System, acts: seq<Action>)
    requires GoodSetup(w) && Runs(w, s, acts) && Inv(w, s) && |After(w, s, acts).calls| <= ID_SPACE
    requires s.server.closing <==> TookUnknown(w.funcs, s.calls, s.taken)
    ensures var t := After(w, s, acts); t.server.closing <==> TookUnknown(w.funcs, t.calls, t.taken)
    decreases |acts|
  {
    if acts != [] {
      var t := Next(w, s, acts[0]);
      CallsGrow(w, t, acts[1..]);
      InvKept(w, s, acts[0]);
      assert t.server.closing <==> TookUnknown(w.funcs, t.calls, t.taken) by {
        match acts[0]
        case ToServer(n) => ToServerCloses(w, s, n);
        case Call(_, _) => TookSame(w.funcs, s.calls, t.calls, s.taken);
        case _ =>
      }
      ClosingHolds(w, t, acts[1..]);
    }
  }

  lemma TookSame(funcs: set<string>, calls: seq<Request>, more: seq<Request>, taken: nat)
    requires taken <= |calls| && calls <= more
    ensures TookUnknown(funcs, calls, taken) <==> TookUnknown(funcs, more, taken)
  {
  }

  /** In every run the server has marked the connection for closing exactly when it has taken a
      call to a name that is not registered. */
  lemma ClosesOnUnknown(w: Setup, s0: System, acts: seq<Action>)
    requires GoodSetup(w) && Initial(s0) && Runs(w, s0, acts)
    requires |After(w, s0, acts).calls| <= ID_SPACE
    ensures var s := After(w, s0, acts); s.server.closing <==> TookUnknown(w.funcs, s.calls, s.taken)
  {
    ClosingHolds(w, s0, acts);
  }

  // ---------- such runs exist ----------

  ghost function Start(): System {
    System(Client(0, map[], [], true, 0, []), Server([], multiset{}, true, false),
           true, [], [], multiset{}, [], [], [], 0, [], [])
  }

  lemma OneMessage<M(!new)>(c: Codec<M>, m: M)
    requires Good(c) && c.ok(m)
    ensures Drain(c.dec, c.enc(m)) == ([m], [])
  {
    DrainFirst(c.dec, c.enc(m));
    assert c.enc(m)[|c.enc(m)|..] == [];
    EmptyDrains(c.dec);
    assert [m] + [] == [m];
  }

  lemma EmptyDrains<M(!new)>(dec: Bytes -> Decoded<M>)
    requires Stable(dec)
    ensures Drain(dec, []) == ([], [])
  {
    assert dec([] + []) == dec([]) || dec([]).NeedMore?;
  }

  /** The request is taken and refused, the server closes, the client sees the connection go. */
  ghost function Refused(w: Setup, name: string, args: Bytes): seq<Action> {
    [Call(name, args), ToServer(|w.req.enc(Request(0, name, args))|), ServerClose, ConnectionLost]
  }

  /** Every call to a name that is not registered can end like this: nothing is under way, the
      connection is gone, and the call is pending. */
  lemma RefusedCallPends(w: Setup, name: string, args: Bytes)
    requires GoodSetup(w) && name !in w.funcs && w.req.ok(Request(0, name, args))
    ensures Initial(Start()) && Runs(w, Start(), Refused(w, name, args))
    ensures var s := After(w, Start(), Refused(w, name, args));
      && !s.up && s.server.closing && !s.server.open && s.toServer == [] && s.toClient == []
      && 0 in s.client.pending && NoReplyFor(s.responses, 0)
  {
    RefusedTaken(w, name, args);
    var acts := Refused(w, name, args);
    var s1 := Next(w, Start(), acts[0]);
    var s2 := Next(w, s1, acts[1]);
    var s3 := Next(w, s2, acts[2]);
    assert acts[4..] == [];
    RunsFrom(w, s3, acts, 3);
    RunsFrom(w, s2, acts, 2);
    RunsFrom(w, s1, acts, 1);
    RunsFrom(w, Start(), acts, 0);
    assert acts[0..] == acts;
  }

  lemma RunsFrom(w: Setup, s: System, acts: seq<Action>, k: nat)
    requires GoodSetup(w) && k < |acts| && Enabled(w, s, acts[k]) && Runs(w, Next(w, s, acts[k]), acts[k + 1..])
    ensures Runs(w, s, acts[k..]) && After(w, s, acts[k..]) == After(w, Next(w, s, acts[k]), acts[k + 1..])
  {
    assert acts[k..][0] == acts[k] && acts[k..][1..] == acts[k + 1..];
  }

  lemma RefusedTaken(w: Setup, name: string, args: Bytes)
    requires GoodSetup(w) && name !in w.funcs && w.req.ok(Request(0, name, args))
    ensures var e := w.req.enc(Request(0, name, args));
      var s1 := CallStep(w, Start(), name, args);
      && |e| <= |s1.toServer|
      && var s2 := ToServerStep(w, s1, |e|);
      && s2.client == s1.client && s2.client.pending == map[0 := 0] && s2.responses == []
      && s2.server == Server([], multiset{}, true, true) && s2.toServer == [] && s2.toClient == []
  {
    var r := Request(0, name, args);
    var s1 := CallStep(w, Start(), name, args);
    OneMessage(w.req, r);
    assert s1.toServer == w.req.enc(r) && s1.toServer[..|w.req.enc(r)|] == w.req.enc(r);
    assert s1.server.pac + w.req.enc(r) == w.req.enc(r);
    assert TakeRequests(w.funcs, s1.server, [r], 0) == s1.server;
    assert TakeRequests(w.funcs, s1.server, [r], 1) == TakeRequest(w.funcs, s1.server, r);
  }

  /** The call made, taken, executed, answered, and the answer received. */
  ghost function Exchange(w: Setup, r: Request, result: Bytes): seq<Action> {
    var a := Response(r.id, result);
    [Call(r.name, r.args), ToServer(|w.req.enc(r)|), Execute(r, result), Respond(a), ToClient(|w.resp.enc(a)|)]
  }

  lemma ExchangeTaken(w: Setup, r: Request)
    requires GoodSetup(w) && r.id == 0 && r.name in w.funcs && w.req.ok(r)
    ensures var s1 := CallStep(w, Start(), r.name, r.args);
      && |w.req.enc(r)| <= |s1.toServer|
      && var s2 := ToServerStep(w, s1, |w.req.enc(r)|);
      && s2.client == StartCall(Start().client) && s2.responses == [] && s2.up
      && s2.server == Server([], multiset{r}, true, false) && s2.toClient == []
  {
    var s1 := CallStep(w, Start(), r.name, r.args);
    OneMessage(w.req, r);
    assert s1.toServer == w.req.enc(r) && s1.toServer[..|w.req.enc(r)|] == w.req.enc(r);
    assert s1.server.pac + w.req.enc(r) == w.req.enc(r);
    assert TakeRequests(w.funcs, s1.server, [r], 0) == s1.server;
    assert TakeRequests(w.funcs, s1.server, [r], 1) == TakeRequest(w.funcs, s1.server, r);
  }

  lemma ExchangeReceived(w: Setup, s: System, a: Response)
    requires GoodSetup(w) && a.id == 0 && w.resp.ok(a)
    requires s.client == StartCall(Start().client) && s.toClient == w.resp.enc(a)
    ensures ToClientStep(w, s, |w.resp.enc(a)|).client.settled == [Outcome(0, Some(a.result))]
  {
    OneMessage(w.resp, a);
    assert s.toClient[..|w.resp.enc(a)|] == w.resp.enc(a) && s.client.pac + w.resp.enc(a) == w.resp.enc(a);
    assert TakeReplies(s.client, [a], 0) == s.client;
    assert TakeReplies(s.client, [a], 1) == TakeReply(s.client, a);
  }

  /** Every call to a registered name can be answered with any result. */
  lemma AnsweredCallSettles(w: Setup, r: Request, result: Bytes)
    requires GoodSetup(w) && r.id == 0 && r.name in w.funcs && w.req.ok(r) && w.resp.ok(Response(0, result))
    ensures Initial(Start()) && Runs(w, Start(), Exchange(w, r, result))
    ensures After(w, Start(), Exchange(w, r, result)).client.settled == [Outcome(0, Some(result))]
  {
    var acts := Exchange(w, r, result);
    ExchangeTaken(w, r);
    var s1 := Next(w, Start(), acts[0]);
    var s2 := Next(w, s1, acts[1]);
    var s3 := Next(w, s2, acts[2]);
    var s4 := Next(w, s3, acts[3]);
    assert [] + w.resp.enc(Response(0, result)) == w.resp.enc(Response(0, result));
    ExchangeReceived(w, s4, Response(0, result));
    assert acts[5..] == [];
    RunsFrom(w, s4, acts, 4);
    RunsFrom(w, s3, acts, 3);
    RunsFrom(w, s2, acts, 2);
    RunsFrom(w, s1, acts, 1);
    RunsFrom(w, Start(), acts, 0);
    assert acts[0..] == acts;
  }
}
