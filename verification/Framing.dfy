/** Messages in a byte stream: a receiver appends every chunk to a buffer and drains the complete
    messages from its front. The message format is a parameter; any format that recognises a
    complete message by itself will do. */
module Framing {
  import opened Octets

  datatype Decoded<M> = NeedMore | Got(msg: M, used: nat)

  /** A message format: which messages it can carry, how they are written and how the front of a
      buffer is read. */
  datatype Codec<!M> = Codec(ok: M -> bool, enc: M -> Bytes, dec: Bytes -> Decoded<M>)

  /** A message once read does not change when more bytes follow. */
  ghost predicate Stable<M(!new)>(dec: Bytes -> Decoded<M>) {
    forall s, t :: dec(s).Got? ==> 0 < dec(s).used <= |s| && dec(s + t) == dec(s)
  }

  ghost predicate Good<M(!new)>(c: Codec<M>) {
    Stable(c.dec) && forall m :: c.ok(m) ==> c.dec(c.enc(m)) == Got(m, |c.enc(m)|)
  }

  /** The complete messages at the front of a buffer, and what is left. */
  ghost function Drain<M(!new)>(dec: Bytes -> Decoded<M>, s: Bytes): (r: (seq<M>, Bytes))
    requires Stable(dec)
    decreases |s|
  {
    assert dec(s + []) == dec(s) || dec(s).NeedMore?;
    match dec(s)
    case NeedMore => ([], s)
    case Got(m, n) =>
      var (ms, rest) := Drain(dec, s[n..]);
      ([m] + ms, rest)
  }

  lemma DrainFirst<M(!new)>(dec: Bytes -> Decoded<M>, s: Bytes)
    requires Stable(dec) && dec(s).Got?
    ensures 0 < dec(s).used <= |s|
    ensures Drain(dec, s) == ([dec(s).msg] + Drain(dec, s[dec(s).used..]).0, Drain(dec, s[dec(s).used..]).1)
  {
    assert dec(s + []) == dec(s);
  }

  /** Draining early does no harm. */
  lemma {:induction false} DrainAppend<M(!new)>(dec: Bytes -> Decoded<M>, s: Bytes, t: Bytes)
    requires Stable(dec)
    ensures var (ms, rest) := Drain(dec, s);
      Drain(dec, s + t) == (ms + Drain(dec, rest + t).0, Drain(dec, rest + t).1)
    decreases |s|
  {
    if dec(s).Got? {
      var n := dec(s).used;
      assert dec(s + t) == dec(s);
      DrainAppend(dec, s[n..], t);
      assert (s + t)[n..] == s[n..] + t;
      var (ms, rest) := Drain(dec, s[n..]);
      var (more, left) := Drain(dec, rest + t);
      assert Drain(dec, s + t) == ([dec(s).msg] + (ms + more), left);
      assert [dec(s).msg] + (ms + more) == [dec(s).msg] + ms + more;
    } else {
      var (more, left) := Drain(dec, s + t);
      assert [] + more == more;
    }
  }

  ghost function Concat(chunks: seq<Bytes>): Bytes {
    if chunks == [] then [] else chunks[0] + Concat(chunks[1..])
  }

  /** What a receiver with buffer `pac` dispatches when it is given chunk after chunk. */
  ghost function Feed<M(!new)>(dec: Bytes -> Decoded<M>, pac: Bytes, chunks: seq<Bytes>): (seq<M>, Bytes)
    requires Stable(dec)
    decreases |chunks|
  {
    if chunks == [] then ([], pac)
    else
      var (ms, rest) := Drain(dec, pac + chunks[0]);
      var (more, left) := Feed(dec, rest, chunks[1..]);
      (ms + more, left)
  }

  lemma DrainedRest<M(!new)>(dec: Bytes -> Decoded<M>, s: Bytes)
    requires Stable(dec)
    ensures dec(Drain(dec, s).1).NeedMore?
    decreases |s|
  {
    if dec(s).Got? {
      assert dec(s + []) == dec(s);
      DrainedRest(dec, s[dec(s).used..]);
    }
  }

  /** Chunking does not matter: however a byte stream is split into chunks, the receiver
      dispatches the messages that decoding the whole stream at once gives. */
  lemma {:induction false} ChunkingDoesNotMatter<M(!new)>(dec: Bytes -> Decoded<M>, pac: Bytes, chunks: seq<Bytes>)
    requires Stable(dec) && dec(pac).NeedMore?
    ensures Feed(dec, pac, chunks) == Drain(dec, pac + Concat(chunks))
    decreases |chunks|
  {
    if chunks == [] {
      assert pac + Concat(chunks) == pac;
    } else {
      var s, t := pac + chunks[0], Concat(chunks[1..]);
      var (ms, rest) := Drain(dec, s);
      assert dec(rest).NeedMore? by { DrainedRest(dec, s); }
      ChunkingDoesNotMatter(dec, rest, chunks[1..]);
      var (more, left) := Drain(dec, rest + t);
      assert Drain(dec, s + t) == (ms + more, left) by { DrainAppend(dec, s, t); }
      assert pac + Concat(chunks) == s + t;
    }
  }

  // ---------- streams of written messages ----------

  ghost predicate AllOk<M(!new)>(c: Codec<M>, q: seq<M>) { forall i :: 0 <= i < |q| ==> c.ok(q[i]) }

  ghost function EncAll<M(!new)>(c: Codec<M>, q: seq<M>): Bytes {
    if q == [] then [] else c.enc(q[0]) + EncAll(c, q[1..])
  }

  lemma {:induction false} EncAllAppend<M(!new)>(c: Codec<M>, q: seq<M>, m: M)
    ensures EncAll(c, q + [m]) == EncAll(c, q) + c.enc(m)
  {
    if q == [] {
      assert q + [m] == [m] && [m][1..] == [];
      assert EncAll(c, [m]) == c.enc(m) + EncAll(c, []);
    } else {
      EncAllAppend(c, q[1..], m);
      assert (q + [m])[1..] == q[1..] + [m];
    }
  }

  /** Draining part of a written stream yields its first messages, in order and complete, and
      leaves the buffer a prefix of the rest. */
  lemma {:induction false} DrainWritten<M(!new)>(c: Codec<M>, q: seq<M>, buf: Bytes, wire: Bytes)
    requires Good(c) && AllOk(c, q) && buf + wire == EncAll(c, q)
    ensures var (ms, rest) := Drain(c.dec, buf);
      |ms| <= |q| && ms == q[..|ms|] && rest + wire == EncAll(c, q[|ms|..])
    decreases |q|
  {
    if c.dec(buf).Got? {
      var n := c.dec(buf).used;
      assert c.dec(buf + wire) == c.dec(buf);
      assert q != [];
      var tail := EncAll(c, q[1..]);
      assert c.dec(c.enc(q[0]) + tail) == c.dec(c.enc(q[0])) by {
        assert c.dec(c.enc(q[0])).Got?;
      }
      assert n == |c.enc(q[0])| && c.dec(buf).msg == q[0];
      assert (buf + wire)[n..] == buf[n..] + wire;
      assert (c.enc(q[0]) + tail)[n..] == tail;
      DrainWritten(c, q[1..], buf[n..], wire);
      var (ms, rest) := Drain(c.dec, buf[n..]);
      assert Drain(c.dec, buf) == ([q[0]] + ms, rest);
      assert q[..|ms| + 1] == [q[0]] + q[1..][..|ms|];
      assert q[|ms| + 1..] == q[1..][|ms|..];
    } else {
      assert q[0..] == q;
    }
  }
}
