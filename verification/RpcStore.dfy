/** The two ends of an RPC connection as they run: handlers append a chunk to the unpacking
    buffer and drain it in a loop, and disconnect walks the table of pending callbacks. */
module RpcStore {
  import opened Common
  import opened Octets
  import opened Framing
  import opened Rpc

  class RpcClient {
    const requests: Codec<Request>
    const responses: Codec<Response>
    var reqId: nat
    var respCallbacks: map<nat, nat>
    var pac: Bytes
    var listening: bool
    var issued: nat
    var settled: seq<Outcome>
    var written: Bytes

    ghost function Value(): Client
      reads this
    {
      Client(reqId, respCallbacks, pac, listening, issued, settled)
    }

    /** Every call made waits in the table or has had its callback called, and none twice. */
    ghost predicate Valid()
      reads this
    {
      OnceEach(respCallbacks, settled, issued) && reqId == issued % ID_SPACE
    }

    constructor (requests: Codec<Request>, responses: Codec<Response>)
      ensures this.requests == requests && this.responses == responses
      ensures Valid() && Value() == Client(0, map[], [], true, 0, []) && written == []
    {
      this.requests, this.responses := requests, responses;
      reqId, respCallbacks, pac, listening, issued, settled, written := 0, map[], [], true, 0, [], [];
    }

    /** The callback goes into the table before the request is written. As long as ids have not
        wrapped around, the new call is the only one to wait under its id. */
    method Call(name: string, args: Bytes)
      modifies this
      ensures Value() == StartCall(old(Value()))
      ensures written == if listening then old(written) + requests.enc(Request(old(reqId), name, args)) else old(written)
      ensures old(Valid()) && old(issued) < ID_SPACE ==>
        Valid() && old(reqId) !in old(respCallbacks) && !IsSettled(settled, old(issued))
    {
      if OnceEach(respCallbacks, settled, issued) {
        NewCallPending(respCallbacks, settled, issued);
      }
      respCallbacks := respCallbacks[reqId := issued];
      if listening {
        written := written + requests.enc(Request(reqId, name, args));
      }
      reqId := (reqId + 1) % ID_SPACE;
      issued := issued + 1;
    }

    method Handle(r: Response)
      modifies this`respCallbacks, this`settled
      ensures Value() == TakeReply(old(Value()), r)
    {
      if r.id in respCallbacks {
        settled := settled + [Outcome(respCallbacks[r.id], Some(r.result))];
        respCallbacks := respCallbacks - {r.id};
      }
    }

    method OnReceive(chunk: Bytes)
      requires Good(responses)
      modifies this
      ensures Value() == ClientReceive(responses, old(Value()), chunk)
      ensures forall r :: r in Drain(responses.dec, old(pac) + chunk).0 ==> r.id !in respCallbacks
      ensures old(Valid()) ==> Valid()
      ensures written == old(written)
    {
      ghost var c := Value();
      pac := pac + chunk;
      ghost var (all, left) := Drain(responses.dec, pac);
      ghost var n := 0;
      var next := responses.dec(pac);
      while next.Got?
        invariant 0 <= n <= |all| && next == responses.dec(pac)
        invariant Drain(responses.dec, pac) == (all[n..], left)
        invariant Value() == TakeReplies(c, all, n).(pac := pac)
        invariant written == old(written)
        decreases |pac|
      {
        DrainFirst(responses.dec, pac);
        assert all[n..][0] == next.msg && all[n..][1..] == all[n + 1..];
        Handle(next.msg);
        n := n + 1;
        pac := pac[next.used..];
        next := responses.dec(pac);
      }
      if OnceEach(c.pending, c.settled, c.issued) {
        RepliesOnceEach(c, all, n);
      }
      forall j | 0 <= j < |all| ensures all[j].id !in respCallbacks {
        TakenNotPending(c, all, n, j);
      }
    }

    /** Aborts the pending calls in the order in which the table is walked. */
    method Abort() returns (order: seq<nat>)
      modifies this
      ensures Enumerates(order, old(respCallbacks).Keys)
      ensures Value() == Disconnect(old(Value()), order) && written == old(written)
      ensures old(Valid()) ==> Valid() && forall i :: 0 <= i < issued ==> IsSettled(settled, i)
    {
      listening := false;
      order := [];
      var rest := respCallbacks.Keys;
      while rest != {}
        invariant rest <= respCallbacks.Keys
        invariant respCallbacks == old(respCallbacks)
        invariant Enumerates(order, respCallbacks.Keys - rest)
        invariant Value() == old(Value()).(listening := false, settled := old(settled) + Aborts(respCallbacks, order))
        invariant written == old(written)
        decreases |rest|
      {
        var i :| i in rest;
        assert Aborts(respCallbacks, order + [i]) == Aborts(respCallbacks, order) + [Outcome(respCallbacks[i], None)];
        settled := settled + [Outcome(respCallbacks[i], None)];
        order := order + [i];
        rest := rest - {i};
      }
      respCallbacks := map[];
      if OnceEach(old(respCallbacks), old(settled), old(issued)) {
        DisconnectSettles(old(Value()), order);
      }
    }
  }

  lemma {:induction false} RepliesOnceEach(c: Client, rs: seq<Response>, n: nat)
    requires n <= |rs| && OnceEach(c.pending, c.settled, c.issued)
    ensures var d := TakeReplies(c, rs, n);
      OnceEach(d.pending, d.settled, d.issued) && d.issued == c.issued && d.reqId == c.reqId
    decreases n
  {
    if n > 0 {
      RepliesOnceEach(c, rs, n - 1);
      TakeReplyOnceEach(TakeReplies(c, rs, n - 1), rs[n - 1]);
    }
  }

  lemma TakeRequestPac(funcs: set<string>, s: Server, r: Request, pac: Bytes)
    ensures TakeRequest(funcs, s.(pac := pac), r) == TakeRequest(funcs, s, r).(pac := pac)
  {
  }

  class ServerConnection {
    const requests: Codec<Request>
    const funcs: set<string>
    var pac: Bytes
    var queued: multiset<Request>
    var open: bool
    var closing: bool

    ghost function Value(): Server
      reads this
    {
      Server(pac, queued, open, closing)
    }

    constructor (requests: Codec<Request>, funcs: set<string>)
      ensures this.requests == requests && this.funcs == funcs
      ensures Value() == Server([], multiset{}, true, false)
    {
      this.requests, this.funcs := requests, funcs;
      pac, queued, open, closing := [], multiset{}, true, false;
    }

    method Dispatch(r: Request)
      modifies this`queued, this`closing
      ensures Value() == TakeRequest(funcs, old(Value()), r)
    {
      if r.name in funcs {
        queued := queued + multiset{r};
      } else {
        closing := true;
      }
    }

    method OnReceive(chunk: Bytes)
      requires Good(requests)
      modifies this
      ensures Value() == ServerReceive(requests, funcs, old(Value()), chunk)
    {
      ghost var s := Value();
      pac := pac + chunk;
      ghost var (all, left) := Drain(requests.dec, pac);
      ghost var n := 0;
      var next := requests.dec(pac);
      while next.Got?
        invariant 0 <= n <= |all| && next == requests.dec(pac)
        invariant Drain(requests.dec, pac) == (all[n..], left)
        invariant Value() == TakeRequests(funcs, s, all, n).(pac := pac)
        decreases |pac|
      {
        DrainFirst(requests.dec, pac);
        assert all[n..][0] == next.msg && all[n..][1..] == all[n + 1..];
        TakeRequestPac(funcs, TakeRequests(funcs, s, all, n), next.msg, pac);
        Dispatch(next.msg);
        n := n + 1;
        pac := pac[next.used..];
        next := requests.dec(pac);
      }
    }
  }
}
