/** The responding half of the AppleTalk Transaction Protocol engine (Inside AppleTalk, second edition, chapter 9):
exactly-once replies kept in a cache, deferred replies, releases and the 30-second sweep. */
module AtpResponder {
  import opened AtpPackets

  /** Everything that names a transaction: our socket, the requester's address, and its transaction number. */
  datatype Client = Client(local: int, net: int, node: int, sock: int, tid: int)

  predicate ValidClient(c: Client) {
    && 0 <= c.local < 0x100 && 0 <= c.net < 0x1_0000 && 0 <= c.node < 0x100 && 0 <= c.sock < 0x100
    && 0 <= c.tid < 0x1_0000
  }

  /** The 64-bit number the tables are indexed by. */
  datatype Key = Key(number: int)

  /** `txnKey`: the fields side by side in one number. */
  function TxnKey(c: Client): Key {
    Key(c.local * 0x1_0000_0000_0000 + c.net * 0x1_0000_0000 + c.node * 0x100_0000 + c.sock * 0x1_0000 + c.tid)
  }

  /** Distinct transactions never share a key. */
  lemma {:induction false} KeysAreDistinct(a: Client, b: Client)
    requires ValidClient(a) && ValidClient(b)
    ensures TxnKey(a) == TxnKey(b) <==> a == b
  {
    if TxnKey(a) == TxnKey(b) {
      var x, y := a.net * 0x1_0000 + a.node * 0x100 + a.sock, b.net * 0x1_0000 + b.node * 0x100 + b.sock;
      assert TxnKey(a).number == (a.local * 0x1_0000_0000 + x) * 0x1_0000 + a.tid;
      assert TxnKey(b).number == (b.local * 0x1_0000_0000 + y) * 0x1_0000 + b.tid;
    }
  }

  // ----- the engine

  datatype Txn = Txn(client: Client, bitmap: Bitmap, xo: bool, done: bool)

  datatype Cached = Cached(reply: seq<Body>, expires: int)

  datatype Waiting = Waiting(txn: nat, expires: int)

  /** `hold` is 30 seconds in cycles. `txns` lists every transaction object ever made, in order. */
  datatype Responder = Responder(now: int, hold: int, cache: map<Key, Cached>, pending: map<Key, Waiting>,
                                 txns: seq<Txn>)

  /** What a handler does with a request it is given: reply, keep the transaction for later, or drop it. */
  datatype Reaction = Replies(reply: seq<Body>) | Defers | Ignores

  datatype Action =
    | Request(client: Client, xo: bool, bitmap: Bitmap, reaction: Reaction)
    | Respond(txn: nat, reply: seq<Body>)
    | Release(client: Client)
    | Tick(now: int)

  datatype Event = Ran(client: Client) | Sent(client: Client, packets: seq<Packet>)

  predicate Fits(a: Action) {
    match a case Request(c, _, _, _) => ValidClient(c) case Release(c) => ValidClient(c) case _ => true
  }

  /** `AtpTxn::respond`. */
  function Responded(s: Responder, n: nat, reply: seq<Body>): Responder
    requires n < |s.txns|
  {
    var t := s.txns[n];
    var key := TxnKey(t.client);
    s.(txns := s.txns[n := t.(done := true)],
       cache := if t.xo then s.cache[key := Cached(reply, s.now + s.hold)] else s.cache,
       pending := s.pending - {key})
  }

  function Swept(s: Responder, now: int): Responder {
    s.(now := now,
       cache := map k | k in s.cache && s.cache[k].expires > now :: s.cache[k],
       pending := map k | k in s.pending && s.pending[k].expires > now :: s.pending[k])
  }

  /** A request nobody holds: make a transaction and run the handler. */
  function Fresh(s: Responder, c: Client, xo: bool, bitmap: Bitmap, reaction: Reaction): Responder {
    var n, key := |s.txns|, TxnKey(c);
    var t := Txn(c, bitmap, xo, false);
    var open := s.(txns := s.txns + [t], pending := s.pending[key := Waiting(n, s.now + s.hold)]);
    match reaction
    case Replies(reply) => Responded(open, n, reply)
    case Defers => open
    case Ignores => open.(txns := s.txns + [t.(done := true)], pending := open.pending - {key})
  }

  function Next(s: Responder, a: Action): Responder {
    match a
    case Request(c, xo, bitmap, reaction) =>
      if TxnKey(c) in s.cache || TxnKey(c) in s.pending then s else Fresh(s, c, xo, bitmap, reaction)
    case Respond(n, reply) => if n < |s.txns| && !s.txns[n].done then Responded(s, n, reply) else s
    case Release(c) => s.(cache := s.cache - {TxnKey(c)}, pending := s.pending - {TxnKey(c)})
    case Tick(now) => Swept(s, now)
  }

  function Out(s: Responder, a: Action): seq<Event> {
    match a
    case Request(c, xo, bitmap, reaction) =>
      if TxnKey(c) in s.cache then [Sent(c, Asked(s.cache[TxnKey(c)].reply, bitmap, 0))]
      else if TxnKey(c) in s.pending then []
      else [Ran(c)] + (if reaction.Replies? then [Sent(c, Asked(reaction.reply, bitmap, 0))] else [])
    case Respond(n, reply) =>
      if n < |s.txns| && !s.txns[n].done then [Sent(s.txns[n].client, Asked(reply, s.txns[n].bitmap, 0))] else []
    case Release(_) => []
    case Tick(_) => []
  }

  function Log(s: Responder, acts: seq<Action>): seq<Event>
    decreases |acts|
  {
    if acts == [] then [] else Out(s, acts[0]) + Log(Next(s, acts[0]), acts[1..])
  }

  // ----- the window of one transaction

  /** The transaction is not released, and the clock does not reach its release time. */
  predicate Stays(s: Responder, c: Client, a: Action) {
    var key := TxnKey(c);
    match a
    case Release(d) => d != c
    case Tick(now) =>
      (key in s.cache ==> now < s.cache[key].expires) && (key in s.pending ==> now < s.pending[key].expires)
    case _ => true
  }

  predicate Window(s: Responder, c: Client, acts: seq<Action>)
    decreases |acts|
  {
    acts == [] || (Fits(acts[0]) && Stays(s, c, acts[0]) && Window(Next(s, acts[0]), c, acts[1..]))
  }

  /** No transaction object of this client, other than number `n`, can still respond. */
  ghost predicate NoOther(s: Responder, c: Client, n: int) {
    forall i :: 0 <= i < |s.txns| && i != n && s.txns[i].client == c ==> s.txns[i].done
  }

  ghost predicate ValidTxns(s: Responder) {
    forall i :: 0 <= i < |s.txns| ==> ValidClient(s.txns[i].client)
  }

  /** Nothing is held for the client, and no older transaction of it is still unanswered. */
  ghost predicate Unheld(s: Responder, c: Client) {
    && ValidClient(c) && ValidTxns(s)
    && TxnKey(c) !in s.cache && TxnKey(c) !in s.pending && NoOther(s, c, -1)
  }

  /** Transaction `n` waits for its handler. */
  ghost predicate Deferred(s: Responder, c: Client, n: nat) {
    && ValidClient(c) && ValidTxns(s) && n < |s.txns| && NoOther(s, c, n)
    && TxnKey(c) !in s.cache && TxnKey(c) in s.pending
    && s.txns[n].client == c && s.txns[n].xo && !s.txns[n].done
  }

  /** The reply is in the cache. */
  ghost predicate Answered(s: Responder, c: Client, reply: seq<Body>) {
    && ValidClient(c) && ValidTxns(s) && NoOther(s, c, -1)
    && TxnKey(c) in s.cache && s.cache[TxnKey(c)].reply == reply
  }

  /** No handler run for the client, and nothing sent to it but packets of one reply. */
  ghost predicate Silent(log: seq<Event>, c: Client, reply: seq<Body>) {
    forall i :: 0 <= i < |log| && log[i].client == c ==>
      log[i].Sent? && forall k :: 0 <= k < |log[i].packets| ==> IsOf(log[i].packets[k], reply)
  }

  lemma {:induction false} AskedAreOf(reply: seq<Body>, bitmap: Bitmap)
    ensures forall k :: 0 <= k < |Asked(reply, bitmap, 0)| ==> IsOf(Asked(reply, bitmap, 0)[k], reply)
  {
    forall k | 0 <= k < |Asked(reply, bitmap, 0)|
      ensures IsOf(Asked(reply, bitmap, 0)[k], reply)
    {
      AskedIsExact(reply, bitmap, 0, Asked(reply, bitmap, 0)[k]);
    }
  }

  lemma {:induction false} AnsweredStays(s: Responder, c: Client, reply: seq<Body>, a: Action)
    requires Answered(s, c, reply) && Fits(a) && Stays(s, c, a)
    ensures Answered(Next(s, a), c, reply) && Silent(Out(s, a), c, reply)
  {
    match a {
      case Request(d, xo, bitmap, reaction) =>
        KeysAreDistinct(c, d);
        AskedAreOf(reply, bitmap);
      case Respond(n, r) =>
        if n < |s.txns| && !s.txns[n].done { KeysAreDistinct(c, s.txns[n].client); }
      case Release(d) => KeysAreDistinct(c, d);
      case Tick(_) =>
    }
  }

  lemma {:induction false} AnsweredWindow(s: Responder, c: Client, reply: seq<Body>, acts: seq<Action>)
    requires Answered(s, c, reply) && Window(s, c, acts)
    ensures Silent(Log(s, acts), c, reply)
    decreases |acts|
  {
    hide Answered, Next, Out, Stays;
    if acts != [] {
      AnsweredStays(s, c, reply, acts[0]);
      AnsweredWindow(Next(s, acts[0]), c, reply, acts[1..]);
    }
  }

  /** While the reply is deferred, an action either leaves it so in silence or is the one reply. */
  lemma {:induction false} DeferredStays(s: Responder, c: Client, n: nat, a: Action)
    requires Deferred(s, c, n) && Fits(a) && Stays(s, c, a)
    ensures if a.Respond? && a.txn == n then Answered(Next(s, a), c, a.reply) && Silent(Out(s, a), c, a.reply)
            else Deferred(Next(s, a), c, n) && forall reply :: Silent(Out(s, a), c, reply)
  {
    match a {
      case Request(d, xo, bitmap, reaction) => KeysAreDistinct(c, d);
      case Respond(m, r) =>
        if m < |s.txns| && !s.txns[m].done {
          KeysAreDistinct(c, s.txns[m].client);
          AskedAreOf(r, s.txns[m].bitmap);
        }
      case Release(d) => KeysAreDistinct(c, d);
      case Tick(_) =>
    }
  }

  lemma {:induction false} DeferredWindow(s: Responder, c: Client, n: nat, acts: seq<Action>)
    returns (reply: seq<Body>)
    requires Deferred(s, c, n) && Window(s, c, acts)
    ensures Silent(Log(s, acts), c, reply)
    decreases |acts|
  {
    hide Answered, Deferred, Next, Out, Stays;
    reply := [];
    if acts != [] {
      var a := acts[0];
      DeferredStays(s, c, n, a);
      if a.Respond? && a.txn == n {
        reply := a.reply;
        AnsweredWindow(Next(s, a), c, reply, acts[1..]);
      } else {
        reply := DeferredWindow(Next(s, a), c, n, acts[1..]);
        assert Silent(Out(s, a), c, reply);
      }
    }
  }

  /** The first request of the transaction runs the handler, and all it sends is from one reply. */
  lemma {:induction false} FirstRequest(s: Responder, a: Action)
    requires a.Request? && Unheld(s, a.client) && a.xo && !a.reaction.Ignores?
    ensures Out(s, a) != [] && Out(s, a)[0] == Ran(a.client)
    ensures if a.reaction.Replies?
            then Answered(Next(s, a), a.client, a.reaction.reply) && Silent(Out(s, a)[1..], a.client, a.reaction.reply)
            else Deferred(Next(s, a), a.client, |s.txns|) && Out(s, a) == [Ran(a.client)]
  {
    if a.reaction.Replies? { AskedAreOf(a.reaction.reply, a.bitmap); }
  }

  /** In the log the handler ran for the client once, at the start, and every packet sent to it is of one reply. */
  ghost predicate OnceOnly(log: seq<Event>, c: Client) {
    && log != [] && log[0] == Ran(c)
    && exists reply :: Silent(log[1..], c, reply)
  }

  /** Exactly once: however an exactly-once request is duplicated, delayed and interleaved with other traffic before
  its release or expiry, its handler runs once and duplicates get nothing but packets of the one reply. */
  lemma {:induction false} ExactlyOnce(s: Responder, a: Action, acts: seq<Action>)
    requires a.Request? && Unheld(s, a.client) && a.xo && !a.reaction.Ignores?
    requires Window(Next(s, a), a.client, acts)
    ensures OnceOnly(Out(s, a) + Log(Next(s, a), acts), a.client)
  {
    hide Unheld, Answered, Deferred, Next, Out;
    FirstRequest(s, a);
    var log := Out(s, a) + Log(Next(s, a), acts);
    assert log[1..] == Out(s, a)[1..] + Log(Next(s, a), acts);
    if a.reaction.Replies? {
      AnsweredWindow(Next(s, a), a.client, a.reaction.reply, acts);
      assert Silent(log[1..], a.client, a.reaction.reply);
    } else {
      var reply := DeferredWindow(Next(s, a), a.client, |s.txns|, acts);
      assert Silent(log[1..], a.client, reply);
    }
  }

  // ----- an older transaction still unanswered

  /** An older, released or expired transaction of the client whose handler has not let go of it. */
  ghost predicate Stale(s: Responder, c: Client) {
    exists m :: 0 <= m < |s.txns| && s.txns[m].client == c && !s.txns[m].done
  }

  /** Everything a transaction started now could go through stays within one reply. */
  ghost predicate Protected(s: Responder, c: Client) {
    forall a: Action, acts: seq<Action> ::
      a.Request? && a.client == c && a.xo && !a.reaction.Ignores? && Window(Next(s, a), c, acts) ==>
        OnceOnly(Out(s, a) + Log(Next(s, a), acts), c)
  }

  /** It comes to that: a request whose handler keeps the transaction, and the client's release of it. */
  lemma {:induction false} ReleaseLeavesStale(c: Client, now: int, hold: int)
    requires ValidClient(c)
    ensures var s := Next(Next(Responder(now, hold, map[], map[], []), Request(c, true, FIRST, Defers)), Release(c));
      && Stale(s, c) && ValidTxns(s) && TxnKey(c) !in s.cache && TxnKey(c) !in s.pending && !Protected(s, c)
  {
    var s := Next(Next(Responder(now, hold, map[], map[], []), Request(c, true, FIRST, Defers)), Release(c));
    assert s.txns == [Txn(c, FIRST, true, false)];
    assert s.txns[0].client == c;
    hide Protected;
    ProtectedUnlessStale(s, c);
  }

  const OURS: seq<Body> := [[1, 1, 1, 1]]
  const THEIRS: seq<Body> := [[2, 2, 2, 2]]

  lemma {:induction false} FirstPacket(reply: seq<Body>)
    requires |reply| == 1
    ensures Asked(reply, FIRST, 0) == [PacketOf(reply, 0)]
  {
    assert Asked(reply, FIRST, 1) == [];
  }

  lemma {:induction false} LogOfThree(s: Responder, acts: seq<Action>)
    requires |acts| == 3
    ensures var s1 := Next(s, acts[0]); var s2 := Next(s1, acts[1]);
      Log(s, acts) == Out(s, acts[0]) + (Out(s1, acts[1]) + Out(s2, acts[2]))
  {
    hide Next, Out;
    var s1 := Next(s, acts[0]);
    var s2 := Next(s1, acts[1]);
    assert acts[1..][1..] == acts[2..] && acts[2..][1..] == [];
    assert Log(s1, acts[1..]) == Out(s1, acts[1]) + Log(s2, acts[2..]);
    assert Log(s2, acts[2..]) == Out(s2, acts[2]) + Log(Next(s2, acts[2]), []);
  }

  lemma {:induction false} WindowOfThree(s: Responder, c: Client, acts: seq<Action>)
    requires |acts| == 3 && forall i :: 0 <= i < 3 ==> Fits(acts[i]) && (acts[i].Request? || acts[i].Respond?)
    ensures Window(s, c, acts)
  {
    hide Next;
    var s1 := Next(s, acts[0]);
    var s2 := Next(s1, acts[1]);
    assert acts[1..][1..] == acts[2..] && acts[2..][1..] == [];
    assert Window(s2, c, acts[2..]);
    assert Window(s1, c, acts[1..]);
  }

  /** What the stale transaction does: after its reply a duplicate runs the handler again, or is sent that reply's
  packet 0 while the new transaction sends its own. */
  lemma {:induction false} StaleMixes(s: Responder, c: Client, m: nat, a: Action, acts: seq<Action>)
    requires ValidClient(c) && TxnKey(c) !in s.cache && TxnKey(c) !in s.pending
    requires m < |s.txns| && s.txns[m].client == c && !s.txns[m].done
    requires a == Request(c, true, FIRST, Defers)
    requires acts == [Respond(m, THEIRS), Request(c, true, FIRST, Ignores), Respond(|s.txns|, OURS)]
    ensures Window(Next(s, a), c, acts)
    ensures var log := Log(Next(s, a), acts);
      Ran(c) in log || (Sent(c, [PacketOf(THEIRS, 0)]) in log && Sent(c, [PacketOf(OURS, 0)]) in log)
  {
    hide Asked, PacketOf;
    WindowOfThree(Next(s, a), c, acts);
    LogOfThree(Next(s, a), acts);
    FirstPacket(OURS);
    FirstPacket(THEIRS);
    var s0 := Next(s, a);
    var s1 := Next(s0, acts[0]);
    var s2 := Next(s1, acts[1]);
    if !s.txns[m].xo {
      assert Out(s1, acts[1])[0] == Ran(c);
    } else {
      assert Out(s1, acts[1])[0] == Sent(c, [PacketOf(THEIRS, 0)]);
      assert Out(s2, acts[2])[0] == Sent(c, [PacketOf(OURS, 0)]);
    }
  }

  /** What a silent log sends belongs to its one reply. */
  lemma {:induction false} SentIsOfReply(log: seq<Event>, c: Client, reply: seq<Body>, p: Packet)
    requires Silent(log, c, reply) && Sent(c, [p]) in log
    ensures IsOf(p, reply)
  {
    var i :| 0 <= i < |log| && log[i] == Sent(c, [p]);
    assert log[i].packets[0] == p;
  }

  lemma {:induction false} MixedIsNotOnce(log: seq<Event>, c: Client, first: Event)
    requires Ran(c) in log || (Sent(c, [PacketOf(THEIRS, 0)]) in log && Sent(c, [PacketOf(OURS, 0)]) in log)
    ensures !OnceOnly([first] + log, c)
  {
    assert ([first] + log)[1..] == log;
    forall reply
      ensures !Silent(log, c, reply)
    {
      if Silent(log, c, reply) {
        if Ran(c) !in log {
          SentIsOfReply(log, c, reply, PacketOf(THEIRS, 0));
          SentIsOfReply(log, c, reply, PacketOf(OURS, 0));
        }
        assert false;
      }
    }
  }

  /** With nothing held for the client, exactly-once service is guaranteed if and only if no older transaction of the
  same client and number is still unanswered. */
  lemma {:induction false} ProtectedUnlessStale(s: Responder, c: Client)
    requires ValidClient(c) && ValidTxns(s) && TxnKey(c) !in s.cache && TxnKey(c) !in s.pending
    ensures Protected(s, c) <==> !Stale(s, c)
  {
    hide Window, Next, Out, OnceOnly;
    if Stale(s, c) {
      var m :| 0 <= m < |s.txns| && s.txns[m].client == c && !s.txns[m].done;
      var a := Request(c, true, FIRST, Defers);
      var acts := [Respond(m, THEIRS), Request(c, true, FIRST, Ignores), Respond(|s.txns|, OURS)];
      StaleMixes(s, c, m, a, acts);
      MixedIsNotOnce(Log(Next(s, a), acts), c, Ran(c));
      DeferredOut(s, a);
      assert !OnceOnly(Out(s, a) + Log(Next(s, a), acts), c);
    } else {
      forall a: Action, acts: seq<Action> | a.Request? && a.client == c && a.xo && !a.reaction.Ignores?
        && Window(Next(s, a), c, acts)
        ensures OnceOnly(Out(s, a) + Log(Next(s, a), acts), c)
      {
        ExactlyOnce(s, a, acts);
      }
    }
  }

  lemma {:induction false} DeferredOut(s: Responder, a: Action)
    requires a.Request? && a.reaction.Defers? && TxnKey(a.client) !in s.cache && TxnKey(a.client) !in s.pending
    ensures Out(s, a) == [Ran(a.client)]
  {
  }

  // ----- the object

  /** The tables of the engine, updated in place. */
  class Engine {
    var now: int
    var hold: int
    var cache: map<Key, Cached>
    var pending: map<Key, Waiting>
    var txns: seq<Txn>

    ghost function Model(): Responder
      reads this
    {
      Responder(now, hold, cache, pending, txns)
    }

    /** The TReq case of `handleAtp`. */
    method HandleRequest(c: Client, xo: bool, bitmap: Bitmap, reaction: Reaction) returns (events: seq<Event>)
      modifies this`cache, this`pending, this`txns
      ensures Model() == Next(old(Model()), Request(c, xo, bitmap, reaction))
      ensures events == Out(old(Model()), Request(c, xo, bitmap, reaction))
    {
      hide Asked;
      events := [];
      var key := TxnKey(c);
      if key in cache {
        var sent := SendResponses(cache[key].reply, bitmap);
        return [Sent(c, sent)];
      }
      if key in pending { return; }
      var n := |txns|;
      txns := txns + [Txn(c, bitmap, xo, false)];
      pending := pending[key := Waiting(n, now + hold)];
      events := [Ran(c)];
      match reaction {
        case Replies(reply) =>
          var more := RespondTo(n, reply);
          events := events + more;
        case Defers =>
        case Ignores =>
          txns := txns[n := txns[n].(done := true)];
          pending := pending - {key};
          assert txns == old(txns) + [Txn(c, bitmap, xo, true)];
      }
    }

    /** `AtpTxn::respond`. */
    method RespondTo(n: nat, reply: seq<Body>) returns (events: seq<Event>)
      modifies this`cache, this`pending, this`txns
      ensures Model() == Next(old(Model()), Respond(n, reply))
      ensures events == Out(old(Model()), Respond(n, reply))
    {
      hide Asked;
      if n >= |txns| || txns[n].done { return []; }
      var t := txns[n];
      txns := txns[n := t.(done := true)];
      var sent := SendResponses(reply, t.bitmap);
      var key := TxnKey(t.client);
      if t.xo { cache := cache[key := Cached(reply, now + hold)]; }
      pending := pending - {key};
      events := [Sent(t.client, sent)];
    }

    /** The TRel case of `handleAtp`. */
    method HandleRelease(c: Client)
      modifies this`cache, this`pending
      ensures Model() == Next(old(Model()), Release(c))
    {
      cache := cache - {TxnKey(c)};
      pending := pending - {TxnKey(c)};
    }

    /** The sweeps of `tick`. */
    method Sweep(time: int)
      modifies this`now, this`cache, this`pending
      ensures Model() == Next(old(Model()), Tick(time))
    {
      now := time;
      cache := SweepExpired(cache, (e: Cached) => e.expires, time);
      pending := SweepExpired(pending, (e: Waiting) => e.expires, time);
    }
  }

  /** The loop that drops what has expired, from the cached replies and from the transactions that wait. */
  method SweepExpired<V(==)>(table: map<Key, V>, expires: V -> int, time: int) returns (left: map<Key, V>)
    ensures left == map k | k in table && expires(table[k]) > time :: table[k]
  {
    left := table;
    var todo := table.Items;
    while todo != {}
      invariant todo <= table.Items
      invariant forall k :: k in left <==> k in table && ((k, table[k]) in todo || expires(table[k]) > time)
      invariant forall k :: k in left ==> left[k] == table[k]
      decreases |todo|
    {
      var entry :| entry in todo;
      todo := todo - {entry};
      if expires(entry.1) <= time { left := left - {entry.0}; }
    }
  }
}
