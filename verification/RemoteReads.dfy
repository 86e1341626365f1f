/** What callers see of a block store through its proxy: reads return what was written, and numbers
    are those of the store. */
module RemoteReads {
  import opened Common
  import opened Octets
  import opened Fnv
  import opened Framing
  import opened Rpc
  import opened RpcEndings
  import opened RpcProgress
  import opened BlockStore
  import opened RemoteBlockStore
  import opened RemoteSession

  // ---------- one store by itself ----------

  /** The operation puts or removes the name on store p. */
  ghost predicate Touches(e: Entry, p: nat, key: string) {
    e.store == p && (e.query.AskPut? || e.query.AskRemove?) && e.query.key == key
  }

  /** What the store holds under a name, if anything. */
  ghost function Held(s: Store, key: string): Option<Bytes> {
    if key in s.files then Some(s.files[key]) else None
  }

  lemma OtherOperationsKeep(s: Store, q: Query, env: Env, key: string)
    requires Indexed(s) && Sensible(q, env) && !((q.AskPut? || q.AskRemove?) && q.key == key)
    ensures Held(Local(s, q, env).0, key) == Held(s, key)
  {
    LocalMeans(s, q, env);
  }

  lemma BlocksizeKept(s: Store, q: Query, env: Env)
    requires Indexed(s) && Sensible(q, env)
    ensures Local(s, q, env).0.blocksize == s.blocksize
  {
    LocalMeans(s, q, env);
  }

  lemma {:induction false} BlocksizeAlone(s: Store, log: seq<Entry>, p: nat, n: nat)
    requires Indexed(s) && SensibleLog(log) && n <= |log|
    ensures Alone(s, log, p, n).blocksize == s.blocksize
    decreases n
  {
    if n > 0 {
      BlocksizeAlone(s, log, p, n - 1);
      if log[n - 1].store == p {
        BlocksizeKept(Alone(s, log, p, n - 1), log[n - 1].query, log[n - 1].env);
      }
    }
  }

  /** What a name holds does not change while nobody puts or removes it. */
  lemma {:induction false} HeldMeanwhile(s: Store, log: seq<Entry>, p: nat, key: string, a: nat, b: nat)
    requires Indexed(s) && SensibleLog(log) && a <= b <= |log|
    requires forall c :: a <= c < b ==> !Touches(log[c], p, key)
    ensures Held(Alone(s, log, p, b), key) == Held(Alone(s, log, p, a), key)
    decreases b
  {
    if a < b {
      HeldMeanwhile(s, log, p, key, a, b - 1);
      assert !Touches(log[b - 1], p, key);
      if log[b - 1].store == p {
        OtherOperationsKeep(Alone(s, log, p, b - 1), log[b - 1].query, log[b - 1].env, key);
      }
    }
  }

  /** A put that reports success has stored a whole block, a removal that does has removed it. */
  lemma WriteTakesEffect(s: Store, q: Query, env: Env)
    requires Indexed(s) && Sensible(q, env) && (q.AskPut? || q.AskRemove?) && Local(s, q, env).1 == Flag(true)
    ensures Held(Local(s, q, env).0, q.key) == if q.AskPut? then Some(q.data) else None
    ensures q.AskPut? ==> |q.data| == s.blocksize
  {
    LocalMeans(s, q, env);
    if q.AskPut? {
      assert q.data[..env.written] == q.data;
    }
  }

  lemma ReadsWhatIsHeld(s: Store, key: string, env: Env)
    requires Indexed(s) && env.readable && s.blocksize > 0
    requires Held(s, key).Some? ==> |Held(s, key).value| == s.blocksize
    ensures Local(s, AskGet(key), env).1 == Block(Held(s, key))
  {
    LocalMeans(s, AskGet(key), env);
    if key in s.files {
      assert s.files[key][..s.blocksize] == s.files[key];
    }
  }

  // ---------- through the proxy ----------

  lemma AnsweredAlone(h: Host, stores: map<nat, Store>, x: World, o: Outcome, e: nat)
    requires GoodHost(h) && WorldInv(h, stores, x) && o in x.rpc.client.settled && o.reply.Some?
    requires TheOperation(h, x, o.call, e)
    ensures StoresOk(stores, x.log) && Returned(h.marshal, x.asked[o.call].1, o.reply) == AnswerAlone(stores, x.log, e)
  {
    var d := RepliedLogged(h, stores, x, o);
    assert d == e;
    WireRoundTrip(Alone(stores[x.log[e].store], x.log, x.log[e].store, e), x.log[e].query, x.log[e].env);
  }

  lemma AloneNext(s: Store, log: seq<Entry>, p: nat, n: nat)
    requires Indexed(s) && SensibleLog(log) && n < |log| && log[n].store == p
    ensures Alone(s, log, p, n + 1) == Local(Alone(s, log, p, n), log[n].query, log[n].env).0
  {
  }

  lemma HeldAfterWrite(s: Store, log: seq<Entry>, p: nat, e: nat, key: string)
    requires Indexed(s) && SensibleLog(log) && e < |log| && Touches(log[e], p, key)
    requires Local(Alone(s, log, p, e), log[e].query, log[e].env).1 == Flag(true)
    ensures Held(Alone(s, log, p, e + 1), key) == if log[e].query.AskPut? then Some(log[e].query.data) else None
    ensures log[e].query.AskPut? ==> |log[e].query.data| == s.blocksize
  {
    WriteTakesEffect(Alone(s, log, p, e), log[e].query, log[e].env);
    AloneNext(s, log, p, e);
    BlocksizeAlone(s, log, p, e);
  }

  /** What is held after operation a is read by operation f, on the store by itself. */
  lemma ReadsLater(s: Store, log: seq<Entry>, p: nat, a: nat, f: nat, key: string)
    requires Indexed(s) && SensibleLog(log) && a <= f < |log| && s.blocksize > 0
    requires log[f].query == AskGet(key) && log[f].env.readable
    requires var held := Held(Alone(s, log, p, a), key); held.Some? ==> |held.value| == s.blocksize
    requires forall c :: a <= c < f ==> !Touches(log[c], p, key)
    ensures Local(Alone(s, log, p, f), AskGet(key), log[f].env).1 == Block(Held(Alone(s, log, p, a), key))
  {
    HeldMeanwhile(s, log, p, key, a, f);
    BlocksizeAlone(s, log, p, f);
    ReadsWhatIsHeld(Alone(s, log, p, f), key, log[f].env);
  }

  lemma WriteThenRead(h: Host, stores: map<nat, Store>, y: World, o: Outcome, r: Outcome, e: nat, f: nat, key: string)
    requires GoodHost(h) && WorldInv(h, stores, y) && o in y.rpc.client.settled && r in y.rpc.client.settled
    requires o.reply.Some? && r.reply.Some? && o.call < |y.asked| && r.call < |y.asked|
    requires TheOperation(h, y, o.call, e) && TheOperation(h, y, r.call, f) && e < f
    requires y.asked[o.call].0 == y.asked[r.call].0 && y.asked[r.call].1 == AskGet(key)
    requires (y.asked[o.call].1.AskPut? || y.asked[o.call].1.AskRemove?) && y.asked[o.call].1.key == key
    requires Returned(h.marshal, y.asked[o.call].1, o.reply) == Flag(true)
    requires y.log[f].env.readable && forall c :: e < c < f ==> !Touches(y.log[c], y.log[e].store, key)
    requires y.log[e].store in stores && stores[y.log[e].store].blocksize > 0
    ensures var q := y.asked[o.call].1;
      Returned(h.marshal, AskGet(key), r.reply) == Block(if q.AskPut? then Some(q.data) else None)
  {
    AnsweredAlone(h, stores, y, o, e);
    AnsweredAlone(h, stores, y, r, f);
    HeldAfterWrite(stores[y.log[e].store], y.log, y.log[e].store, e, key);
    ReadsLater(stores[y.log[e].store], y.log, y.log[e].store, e + 1, f, key);
  }

  lemma StillSettled(h: Host, x: World, more: seq<Event>, o: Outcome)
    requires GoodHost(h) && Happens(h, x, more) && o in x.rpc.client.settled
    ensures o in Then(h, x, more).rpc.client.settled
  {
    SessionIsRpcRun(h, x, more);
    SettledGrows(h.setup, x.rpc, RpcRun(h, x, more));
  }

  /** Read your writes: in every session let a put or removal of a name be answered with success,
      and let a getBlock of that name through the same number, made after that answer, be answered
      too. If the file could be read and nobody else put or removed the name on that store in
      between, the get returns the bytes put, or nothing after a removal. */
  lemma ReadYourWrites(h: Host, stores: map<nat, Store>, x0: World, evs: seq<Event>, more: seq<Event>, o: Outcome, r: Outcome, key: string) returns (e: nat, f: nat)
    requires GoodHost(h) && Opening(h, stores, x0) && Happens(h, x0, evs) && Happens(h, Then(h, x0, evs), more)
    requires |Then(h, Then(h, x0, evs), more).asked| <= ID_SPACE
    requires forall p :: p in stores ==> stores[p].blocksize > 0
    requires o in Then(h, x0, evs).rpc.client.settled && o.reply.Some? && |Then(h, x0, evs).asked| <= r.call
    requires r in Then(h, Then(h, x0, evs), more).rpc.client.settled && r.reply.Some?
    requires var asked := Then(h, Then(h, x0, evs), more).asked;
      o.call < |asked| && r.call < |asked| && asked[o.call].0 == asked[r.call].0
      && asked[r.call].1 == AskGet(key)
      && (asked[o.call].1.AskPut? || asked[o.call].1.AskRemove?) && asked[o.call].1.key == key
      && Returned(h.marshal, asked[o.call].1, o.reply) == Flag(true)
    ensures var y := Then(h, Then(h, x0, evs), more);
      && TheOperation(h, y, o.call, e) && TheOperation(h, y, r.call, f) && e < f
      && (y.log[f].env.readable && (forall c :: e < c < f ==> !Touches(y.log[c], y.log[e].store, key)) ==>
            var q := y.asked[o.call].1;
            Returned(h.marshal, AskGet(key), r.reply) == Block(if q.AskPut? then Some(q.data) else None))
  {
    var x := Then(h, x0, evs);
    var y := Then(h, x, more);
    OpeningInv(h, stores, x0);
    HistoryGrows(h, x, more);
    WorldInvHolds(h, stores, x0, evs);
    WorldInvHolds(h, stores, x, more);
    StillSettled(h, x, more, o);
    e := RepliedLogged(h, stores, y, o);
    f := RepliedLogged(h, stores, y, r);
    AnsweredFirst(h, stores, x0, evs, more, o, r.call, e, f);
    if y.log[f].env.readable && forall c :: e < c < f ==> !Touches(y.log[c], y.log[e].store, key) {
      WriteThenRead(h, stores, y, o, r, e, f, key);
    }
  }

  /** What an answer says of a store `s`, which the operation leaves as `t`. */
  ghost predicate AnswerMeans(s: Store, t: Store, q: Query, env: Env, answer: Answer)
    requires Indexed(s) && Sensible(q, env)
  {
    match q
    case AskPut(key, data) => answer.Flag? && (t, answer.ok) == Put(s, key, data, env.canOpen, env.written)
    case AskRemove(key) => answer.Flag? && (t, answer.ok) == Remove(s, key, env.unlinked, env.disk)
    case AskGet(key) => t == s && answer == Block(Get(s, key, env.readable))
    case AskBlockSize => t == s && answer == Number(s.blocksize)
    case AskFree => t == s && answer == Number(s.free)
    case AskTotal => t == s && answer == Number((s.used + s.free) % 0x1_0000_0000)
  }

  lemma LocalAnswerMeans(s: Store, q: Query, env: Env)
    requires Indexed(s) && Sensible(q, env)
    ensures AnswerMeans(s, Local(s, q, env).0, q, env, Local(s, q, env).1)
  {
    LocalMeans(s, q, env);
  }

  lemma LoggedAnswerMeans(stores: map<nat, Store>, log: seq<Entry>, e: nat)
    requires StoresOk(stores, log) && e < |log|
    ensures var p := log[e].store; var s := Alone(stores[p], log, p, e);
      && AnswerMeans(s, Alone(stores[p], log, p, e + 1), log[e].query, log[e].env, AnswerAlone(stores, log, e))
      && s.blocksize == stores[p].blocksize
  {
    var p := log[e].store;
    LocalAnswerMeans(Alone(stores[p], log, p, e), log[e].query, log[e].env);
    AloneNext(stores[p], log, p, e);
    BlocksizeAlone(stores[p], log, p, e);
  }

  /** Answers by what the store holds: in every session the answer to a call is that of putBlock,
      removeBlock or getBlock on the store as it was when the operation took place, or its block
      size, which never changes, its free blocks, or its free and used blocks together. */
  lemma AnswersMean(h: Host, stores: map<nat, Store>, x0: World, evs: seq<Event>, o: Outcome) returns (e: nat)
    requires GoodHost(h) && Opening(h, stores, x0) && Happens(h, x0, evs)
    requires |Then(h, x0, evs).asked| <= ID_SPACE
    requires o in Then(h, x0, evs).rpc.client.settled && o.reply.Some?
    ensures var x := Then(h, x0, evs);
      && TheOperation(h, x, o.call, e) && StoresOk(stores, x.log)
      && var p, q := x.log[e].store, x.asked[o.call].1;
      && var s, t := Alone(stores[p], x.log, p, e), Alone(stores[p], x.log, p, e + 1);
      && Sensible(q, x.log[e].env) && s.blocksize == stores[p].blocksize
      && AnswerMeans(s, t, q, x.log[e].env, Returned(h.marshal, q, o.reply))
  {
    var x := Then(h, x0, evs);
    OpeningInv(h, stores, x0);
    WorldInvHolds(h, stores, x0, evs);
    e := RepliedLogged(h, stores, x, o);
    AnsweredAlone(h, stores, x, o, e);
    LoggedAnswerMeans(stores, x.log, e);
  }
}
