/** The requesting half of the AppleTalk Transaction Protocol engine: a bitmap of missing packets, responses in any
order and any number of copies, and bounded retries.

A handle stands for the completion callback of one transaction. */
module AtpRequester {
  import opened AtpPackets

  datatype Address = Address(net: int, node: int, sock: int)

  datatype Pending = Pending(handle: nat, tid: int, dst: Address, need: Bitmap, xo: bool, tries: int, nextRetry: int,
                             resp: seq<Body>, count: int)

  /** `second` is one second in cycles. */
  datatype Requester = Requester(now: int, second: int, requests: seq<Pending>, nextTid: int, handles: nat)

  datatype Action =
    | Ask(dst: Address, max: int, xo: bool)
    | Hear(src: Address, tid: int, packet: Packet)
    | Clock(now: int)

  /** What happens, in order: a transaction starts, a request is transmitted, a response is taken, a release is sent,
  the completion callback is called. */
  datatype Event =
    | Asked(handle: nat, max: int)
    | Transmit(handle: nat, need: Bitmap)
    | Heard(handle: nat, packet: Packet)
    | Freed(handle: nat)
    | Done(handle: nat, ok: bool, resp: seq<Body>)

  const TRIES := 5

  function Wanted(max: int): Bitmap {
    seq(8, i => i < max)
  }

  // ----- one transaction

  function Blank(n: nat): (b: seq<Body>)
    ensures |b| == n
  {
    seq(n, i => [])
  }

  /** Packet `n` in its place, earlier places left blank until their packets come. */
  function Placed(resp: seq<Body>, n: nat, body: Body): (r: seq<Body>)
    ensures |r| == if n < |resp| then |resp| else n + 1
    ensures r[n] == body && forall i :: 0 <= i < |resp| && i != n ==> r[i] == resp[i]
  {
    if n < |resp| then resp[n := body] else resp + Blank(n - |resp|) + [body]
  }

  function Cleared(need: Bitmap, p: Packet): Bitmap
    requires 0 <= p.number < 8
  {
    seq(8, i requires 0 <= i < 8 => need[i] && i != p.number && !(p.eom && i > p.number))
  }

  /** Take one response packet. */
  function Accept(r: Pending, p: Packet): Pending
    requires 0 <= p.number < 8
  {
    r.(resp := Placed(r.resp, p.number, p.body), need := Cleared(r.need, p),
       count := if p.eom then p.number + 1 else r.count)
  }

  function Resized(resp: seq<Body>, n: nat): (r: seq<Body>)
    ensures |r| == n
  {
    if n <= |resp| then resp[..n] else resp + Blank(n - |resp|)
  }

  /** What the callback is given. */
  function Delivered(r: Pending): seq<Body> {
    if r.count >= 0 then Resized(r.resp, r.count) else r.resp
  }

  // ----- the engine

  function Without(rs: seq<Pending>, i: nat): seq<Pending>
    requires i < |rs|
  {
    rs[..i] + rs[i + 1..]
  }

  function NextTid(tid: int): int {
    if (tid + 1) % 0x1_0000 == 0 then 1 else (tid + 1) % 0x1_0000
  }

  /** The first transaction a response belongs to: same number, and from the node the request went to. */
  function Find(rs: seq<Pending>, src: Address, tid: int, i: nat): (k: nat)
    requires i <= |rs|
    ensures i <= k <= |rs| && (k < |rs| ==> rs[k].tid == tid && rs[k].dst == src)
    ensures forall n :: i <= n < k ==> rs[n].tid != tid || rs[n].dst != src
    decreases |rs| - i
  {
    if i == |rs| || (rs[i].tid == tid && rs[i].dst == src) then i else Find(rs, src, tid, i + 1)
  }

  function AskNext(s: Requester, dst: Address, max: int, xo: bool): Requester {
    var r := Pending(s.handles, s.nextTid, dst, Wanted(max), xo, 1, s.now + s.second, [], -1);
    s.(requests := if max <= 0 then s.requests else s.requests + [r], nextTid := NextTid(s.nextTid),
       handles := s.handles + 1)
  }

  function AskOut(s: Requester, max: int): seq<Event> {
    [Asked(s.handles, max), Transmit(s.handles, Wanted(max))] + (if max <= 0 then [Done(s.handles, true, [])] else [])
  }

  function HearNext(s: Requester, k: nat, p: Packet): Requester
    requires k < |s.requests| && 0 <= p.number < 8
  {
    var r := Accept(s.requests[k], p);
    s.(requests := if r.need == NONE then Without(s.requests, k) else s.requests[k := r])
  }

  function HearOut(s: Requester, k: nat, p: Packet): seq<Event>
    requires k < |s.requests| && 0 <= p.number < 8
  {
    var r := Accept(s.requests[k], p);
    [Heard(r.handle, p)] +
    (if r.need != NONE then []
     else (if r.xo then [Freed(r.handle)] else []) + [Done(r.handle, true, Delivered(r))])
  }

  /** The retry loop of `tick`, from request `i` on. */
  function RetryNext(s: Requester, i: nat): Requester
    requires i <= |s.requests|
    decreases |s.requests| - i
  {
    if i == |s.requests| then s else
    var r := s.requests[i];
    if s.now < r.nextRetry then RetryNext(s, i + 1)
    else if r.tries + 1 > TRIES then RetryNext(s.(requests := Without(s.requests, i)), i)
    else RetryNext(s.(requests := s.requests[i := Again(s, r)]), i + 1)
  }

  function Again(s: Requester, r: Pending): Pending {
    r.(tries := r.tries + 1, nextRetry := s.now + s.second)
  }

  function RetryOut(s: Requester, i: nat): seq<Event>
    requires i <= |s.requests|
    decreases |s.requests| - i
  {
    if i == |s.requests| then [] else
    var r := s.requests[i];
    if s.now < r.nextRetry then RetryOut(s, i + 1)
    else if r.tries + 1 > TRIES then [Done(r.handle, false, [])] + RetryOut(s.(requests := Without(s.requests, i)), i)
    else [Transmit(r.handle, r.need)] + RetryOut(s.(requests := s.requests[i := Again(s, r)]), i + 1)
  }

  predicate Fits(a: Action) {
    a.Hear? ==> 0 <= a.packet.number < 8
  }

  function Next(s: Requester, a: Action): Requester
    requires Fits(a)
  {
    match a
    case Ask(dst, max, xo) => AskNext(s, dst, max, xo)
    case Hear(src, tid, p) =>
      var k := Find(s.requests, src, tid, 0);
      if k < |s.requests| then HearNext(s, k, p) else s
    case Clock(now) => RetryNext(s.(now := now), 0)
  }

  function Out(s: Requester, a: Action): seq<Event>
    requires Fits(a)
  {
    match a
    case Ask(dst, max, xo) => AskOut(s, max)
    case Hear(src, tid, p) =>
      var k := Find(s.requests, src, tid, 0);
      if k < |s.requests| then HearOut(s, k, p) else []
    case Clock(now) => RetryOut(s.(now := now), 0)
  }

  predicate AllFit(acts: seq<Action>) {
    forall i :: 0 <= i < |acts| ==> Fits(acts[i])
  }

  function Run(s: Requester, acts: seq<Action>): Requester
    requires AllFit(acts)
    decreases |acts|
  {
    if acts == [] then s else Run(Next(s, acts[0]), acts[1..])
  }

  function Log(s: Requester, acts: seq<Action>): seq<Event>
    requires AllFit(acts)
    decreases |acts|
  {
    if acts == [] then [] else Out(s, acts[0]) + Log(Next(s, acts[0]), acts[1..])
  }

  // ----- what a log says of a transaction

  function Transmits(log: seq<Event>, h: nat): nat {
    if log == [] then 0
    else Transmits(log[..|log| - 1], h) + (if log[|log| - 1].Transmit? && log[|log| - 1].handle == h then 1 else 0)
  }

  function Completions(log: seq<Event>, h: nat): nat {
    if log == [] then 0
    else Completions(log[..|log| - 1], h) + (if log[|log| - 1].Done? && log[|log| - 1].handle == h then 1 else 0)
  }

  /** Packet `i` was asked for when the transaction started. */
  ghost predicate WasAsked(log: seq<Event>, h: nat, i: int) {
    exists k :: 0 <= k < |log| && log[k].Asked? && log[k].handle == h && i < log[k].max
  }

  /** Packet `i` has come, or an earlier packet ended the message. */
  ghost predicate HasCome(log: seq<Event>, h: nat, i: int) {
    exists k :: 0 <= k < |log| && log[k].Heard? && log[k].handle == h &&
      (log[k].packet.number == i || (log[k].packet.eom && log[k].packet.number < i))
  }

  ghost predicate Missing(log: seq<Event>, h: nat, i: int) {
    WasAsked(log, h, i) && !HasCome(log, h, i)
  }

  /** A request on the wire asks for exactly the packets missing at that point. */
  ghost predicate AsksForMissing(log: seq<Event>) {
    forall k, i :: 0 <= k < |log| && log[k].Transmit? && 0 <= i < 8 ==>
      (log[k].need[i] <==> Missing(log[..k], log[k].handle, i))
  }

  // ----- the books

  ghost predicate Known(log: seq<Event>, n: nat) {
    forall k :: 0 <= k < |log| ==> log[k].handle < n
  }

  /** A transaction in flight: transmitted as often as its counter says, not completed, and its bitmap exact. */
  ghost predicate InFlight(r: Pending, log: seq<Event>) {
    && 1 <= r.tries <= TRIES && Transmits(log, r.handle) == r.tries && Completions(log, r.handle) == 0
    && (forall i :: 0 <= i < 8 ==> (r.need[i] <==> Missing(log, r.handle, i)))
  }

  ghost predicate Bounded(log: seq<Event>) {
    forall h: nat :: Transmits(log, h) <= TRIES && Completions(log, h) <= 1
  }

  ghost predicate Distinct(rs: seq<Pending>, n: nat) {
    && (forall i :: 0 <= i < |rs| ==> rs[i].handle < n)
    && (forall i, k :: 0 <= i < k < |rs| ==> rs[i].handle != rs[k].handle)
  }

  ghost predicate Books(s: Requester, log: seq<Event>) {
    && Known(log, s.handles) && Bounded(log) && AsksForMissing(log) && Distinct(s.requests, s.handles)
    && (forall i :: 0 <= i < |s.requests| ==> InFlight(s.requests[i], log))
  }

  lemma {:induction false} CountsSnoc(log: seq<Event>, e: Event, h: nat)
    ensures Transmits(log + [e], h) == Transmits(log, h) + (if e.Transmit? && e.handle == h then 1 else 0)
    ensures Completions(log + [e], h) == Completions(log, h) + (if e.Done? && e.handle == h then 1 else 0)
  {
    assert (log + [e])[..|log|] == log;
  }

  lemma {:induction false} UnknownCounts(log: seq<Event>, h: nat)
    requires Known(log, h)
    ensures Transmits(log, h) == 0 && Completions(log, h) == 0
    decreases |log|
  {
    if log != [] {
      var front := log[..|log| - 1];
      assert forall k :: 0 <= k < |front| ==> front[k] == log[k];
      UnknownCounts(front, h);
    }
  }

  lemma {:induction false} WasAskedSnoc(log: seq<Event>, e: Event, h: nat, i: int)
    ensures WasAsked(log + [e], h, i) <==> WasAsked(log, h, i) || (e.Asked? && e.handle == h && i < e.max)
  {
    var more := log + [e];
    assert forall k :: 0 <= k < |log| ==> more[k] == log[k];
    assert more[|log|] == e;
    if WasAsked(log, h, i) {
      var k :| 0 <= k < |log| && log[k].Asked? && log[k].handle == h && i < log[k].max;
      assert more[k] == log[k];
    }
  }

  lemma {:induction false} HasComeSnoc(log: seq<Event>, e: Event, h: nat, i: int)
    ensures HasCome(log + [e], h, i) <==>
      || HasCome(log, h, i)
      || (e.Heard? && e.handle == h && (e.packet.number == i || (e.packet.eom && e.packet.number < i)))
  {
    var more := log + [e];
    assert forall k :: 0 <= k < |log| ==> more[k] == log[k];
    assert more[|log|] == e;
    if HasCome(log, h, i) {
      var k :| 0 <= k < |log| && log[k].Heard? && log[k].handle == h &&
        (log[k].packet.number == i || (log[k].packet.eom && log[k].packet.number < i));
      assert more[k] == log[k];
    }
  }

  lemma {:induction false} MissingSnoc(log: seq<Event>, e: Event, h: nat, i: int)
    ensures Missing(log + [e], h, i) <==>
      && (WasAsked(log, h, i) || (e.Asked? && e.handle == h && i < e.max))
      && !HasCome(log, h, i)
      && !(e.Heard? && e.handle == h && (e.packet.number == i || (e.packet.eom && e.packet.number < i)))
  {
    WasAskedSnoc(log, e, h, i);
    HasComeSnoc(log, e, h, i);
  }

  lemma {:induction false} AsksSnoc(log: seq<Event>, e: Event)
    requires AsksForMissing(log)
    requires e.Transmit? ==> forall i :: 0 <= i < 8 ==> (e.need[i] <==> Missing(log, e.handle, i))
    ensures AsksForMissing(log + [e])
  {
    hide Missing;
    var more := log + [e];
    forall k, i | 0 <= k < |more| && more[k].Transmit? && 0 <= i < 8
      ensures more[k].need[i] <==> Missing(more[..k], more[k].handle, i)
    {
      if k < |log| {
        assert more[..k] == log[..k] && more[k] == log[k];
      } else {
        assert more[..k] == log;
      }
    }
  }

  /** An event of another transaction leaves this one as it was. */
  lemma {:induction false} OtherFlight(r: Pending, log: seq<Event>, e: Event)
    requires InFlight(r, log) && e.handle != r.handle
    ensures InFlight(r, log + [e])
  {
    CountsSnoc(log, e, r.handle);
    forall i | 0 <= i < 8
      ensures r.need[i] <==> Missing(log + [e], r.handle, i)
    {
      MissingSnoc(log, e, r.handle, i);
    }
  }

  /** An event of a known transaction keeps the books if it keeps that transaction's own. */
  ghost predicate EventFits(log: seq<Event>, e: Event, n: nat) {
    && e.handle < n
    && Transmits(log + [e], e.handle) <= TRIES && Completions(log + [e], e.handle) <= 1
    && (e.Transmit? ==> forall i :: 0 <= i < 8 ==> (e.need[i] <==> Missing(log, e.handle, i)))
  }

  lemma {:induction false} LogKept(log: seq<Event>, e: Event, n: nat)
    requires Known(log, n) && Bounded(log) && AsksForMissing(log) && EventFits(log, e, n)
    ensures Known(log + [e], n) && Bounded(log + [e]) && AsksForMissing(log + [e])
  {
    AsksSnoc(log, e);
    hide AsksForMissing, Missing;
    forall h: nat
      ensures Transmits(log + [e], h) <= TRIES && Completions(log + [e], h) <= 1
    {
      CountsSnoc(log, e, h);
    }
  }

  lemma {:induction false} BooksUpdate(s: Requester, log: seq<Event>, e: Event, k: nat, r: Pending)
    requires Books(s, log) && k < |s.requests| && r.handle == s.requests[k].handle == e.handle
    requires EventFits(log, e, s.handles) && InFlight(r, log + [e])
    ensures Books(s.(requests := s.requests[k := r]), log + [e])
  {
    LogKept(log, e, s.handles);
    hide Bounded, AsksForMissing, InFlight;
    var rs := s.requests[k := r];
    forall i | 0 <= i < |rs|
      ensures InFlight(rs[i], log + [e])
    {
      if i != k { OtherFlight(s.requests[i], log, e); }
    }
  }

  lemma {:induction false} WithoutAt(rs: seq<Pending>, k: nat, i: nat)
    requires k < |rs| && i < |rs| - 1
    ensures Without(rs, k)[i] == rs[if i < k then i else i + 1]
  {
  }

  lemma {:induction false} DistinctWithout(rs: seq<Pending>, n: nat, k: nat)
    requires Distinct(rs, n) && k < |rs|
    ensures Distinct(Without(rs, k), n)
    ensures forall i :: 0 <= i < |rs| - 1 ==> Without(rs, k)[i].handle != rs[k].handle
  {
  }

  lemma {:induction false} BooksRemove(s: Requester, log: seq<Event>, e: Event, k: nat)
    requires Books(s, log) && k < |s.requests| && s.requests[k].handle == e.handle
    requires EventFits(log, e, s.handles)
    ensures Books(s.(requests := Without(s.requests, k)), log + [e])
  {
    LogKept(log, e, s.handles);
    DistinctWithout(s.requests, s.handles, k);
    hide Bounded, AsksForMissing, InFlight, Distinct;
    var rs := Without(s.requests, k);
    forall i | 0 <= i < |rs|
      ensures InFlight(rs[i], log + [e])
    {
      WithoutAt(s.requests, k, i);
      OtherFlight(rs[i], log, e);
    }
  }

  // ----- every event keeps the books

  lemma {:induction false} RetryKeeps(s: Requester, log: seq<Event>, k: nat)
    requires Books(s, log) && k < |s.requests| && s.requests[k].tries < TRIES
    ensures var r := s.requests[k];
      Books(s.(requests := s.requests[k := Again(s, r)]), log + [Transmit(r.handle, r.need)])
  {
    var r := s.requests[k];
    var e := Transmit(r.handle, r.need);
    assert InFlight(r, log);
    CountsSnoc(log, e, r.handle);
    forall i | 0 <= i < 8
      ensures r.need[i] <==> Missing(log + [e], r.handle, i)
    {
      MissingSnoc(log, e, r.handle, i);
    }
    BooksUpdate(s, log, e, k, Again(s, r));
  }

  lemma {:induction false} GiveUpKeeps(s: Requester, log: seq<Event>, k: nat, e: Event)
    requires Books(s, log) && k < |s.requests| && e.Done? && e.handle == s.requests[k].handle
    ensures Books(s.(requests := Without(s.requests, k)), log + [e])
  {
    assert InFlight(s.requests[k], log);
    CountsSnoc(log, e, e.handle);
    BooksRemove(s, log, e, k);
  }

  lemma {:induction false} HeardKeeps(s: Requester, log: seq<Event>, k: nat, p: Packet)
    requires Books(s, log) && k < |s.requests| && 0 <= p.number < 8
    ensures var r := s.requests[k];
      Books(s.(requests := s.requests[k := Accept(r, p)]), log + [Heard(r.handle, p)])
  {
    var r := s.requests[k];
    var e := Heard(r.handle, p);
    assert InFlight(r, log);
    CountsSnoc(log, e, r.handle);
    var t := Accept(r, p);
    forall i | 0 <= i < 8
      ensures t.need[i] <==> Missing(log + [e], r.handle, i)
    {
      MissingSnoc(log, e, r.handle, i);
    }
    BooksUpdate(s, log, e, k, t);
  }

  lemma {:induction false} FreedKeeps(s: Requester, log: seq<Event>, k: nat)
    requires Books(s, log) && k < |s.requests|
    ensures Books(s, log + [Freed(s.requests[k].handle)])
  {
    var r := s.requests[k];
    var e := Freed(r.handle);
    assert InFlight(r, log);
    CountsSnoc(log, e, r.handle);
    forall i | 0 <= i < 8
      ensures r.need[i] <==> Missing(log + [e], r.handle, i)
    {
      MissingSnoc(log, e, r.handle, i);
    }
    BooksUpdate(s, log, e, k, r);
    assert s.requests[k := r] == s.requests;
  }

  lemma {:induction false} UnknownMissing(log: seq<Event>, h: nat, i: int)
    requires Known(log, h)
    ensures !WasAsked(log, h, i) && !HasCome(log, h, i)
  {
  }

  /** An event of a transaction not in flight. */
  lemma {:induction false} BooksNote(s: Requester, log: seq<Event>, e: Event)
    requires Books(s, log) && EventFits(log, e, s.handles)
    requires forall i :: 0 <= i < |s.requests| ==> s.requests[i].handle != e.handle
    ensures Books(s, log + [e])
  {
    LogKept(log, e, s.handles);
    hide Bounded, AsksForMissing, InFlight;
    forall i | 0 <= i < |s.requests|
      ensures InFlight(s.requests[i], log + [e])
    {
      OtherFlight(s.requests[i], log, e);
    }
  }

  /** A new transaction: announced, and transmitted once with everything it asks for. */
  lemma {:induction false} AskedKeeps(s: Requester, log: seq<Event>, t: Requester, max: int, a: Event, e: Event)
    requires Books(s, log) && t == s.(handles := s.handles + 1)
    requires a == Asked(s.handles, max) && e == Transmit(s.handles, Wanted(max))
    ensures Books(t, log + [a] + [e])
    ensures Transmits(log + [a] + [e], s.handles) == 1 && Completions(log + [a] + [e], s.handles) == 0
    ensures forall i :: 0 <= i < 8 ==> (Wanted(max)[i] <==> Missing(log + [a] + [e], s.handles, i))
  {
    var h, log1 := s.handles, log + [a];
    UnknownCounts(log, h);
    CountsSnoc(log, a, h);
    assert Books(t, log);
    BooksNote(t, log, a);
    CountsSnoc(log1, e, h);
    forall i | 0 <= i < 8
      ensures Wanted(max)[i] <==> Missing(log1, h, i)
      ensures Wanted(max)[i] <==> Missing(log1 + [e], h, i)
    {
      UnknownMissing(log, h, i);
      WasAskedSnoc(log, a, h, i);
      HasComeSnoc(log, a, h, i);
      MissingSnoc(log1, e, h, i);
    }
    BooksNote(t, log1, e);
  }

  /** A transaction joins those in flight. */
  lemma {:induction false} BooksAdd(s: Requester, log: seq<Event>, r: Pending, t: Requester)
    requires Books(s, log) && InFlight(r, log) && r.handle < s.handles
    requires forall i :: 0 <= i < |s.requests| ==> s.requests[i].handle != r.handle
    requires t.requests == s.requests + [r] && t.handles == s.handles
    ensures Books(t, log)
  {
    hide InFlight, Bounded, AsksForMissing, Known;
  }

  lemma {:induction false} OldHandles(s: Requester, log: seq<Event>)
    requires Books(s, log)
    ensures forall i :: 0 <= i < |s.requests| ==> s.requests[i].handle != s.handles
  {
    hide InFlight, Bounded, AsksForMissing, Known;
  }

  lemma {:induction false} AskKeeps(s: Requester, log: seq<Event>, dst: Address, max: int, xo: bool)
    requires Books(s, log)
    ensures Books(AskNext(s, dst, max, xo), log + AskOut(s, max))
  {
    hide Books, Wanted;
    var h, t := s.handles, s.(handles := s.handles + 1);
    var a, e := Asked(h, max), Transmit(h, Wanted(max));
    OldHandles(s, log);
    AskedKeeps(s, log, t, max, a, e);
    var log2 := log + [a] + [e];
    if max <= 0 {
      var d := Done(h, true, []);
      CountsSnoc(log2, d, h);
      BooksNote(t, log2, d);
      SameBooks(t, AskNext(s, dst, max, xo), log2 + [d]);
      assert log + AskOut(s, max) == log2 + [d];
    } else {
      var r := Pending(h, s.nextTid, dst, Wanted(max), xo, 1, s.now + s.second, [], -1);
      FirstFlight(r, log2);
      BooksAdd(t, log2, r, AskNext(s, dst, max, xo));
      assert log + AskOut(s, max) == log2;
    }
  }

  lemma {:induction false} SameBooks(s: Requester, t: Requester, log: seq<Event>)
    requires Books(s, log) && t.requests == s.requests && t.handles == s.handles
    ensures Books(t, log)
  {
    hide InFlight, Bounded, AsksForMissing, Known;
  }

  lemma {:induction false} FirstFlight(r: Pending, log: seq<Event>)
    requires r.tries == 1 && Transmits(log, r.handle) == 1 && Completions(log, r.handle) == 0
    requires forall i :: 0 <= i < 8 ==> (r.need[i] <==> Missing(log, r.handle, i))
    ensures InFlight(r, log)
  {
  }

  lemma {:induction false} HearKeeps(s: Requester, log: seq<Event>, k: nat, p: Packet)
    requires Books(s, log) && k < |s.requests| && 0 <= p.number < 8
    ensures Books(HearNext(s, k, p), log + HearOut(s, k, p))
  {
    hide Books, Accept, Delivered;
    var r := Accept(s.requests[k], p);
    SameHandle(s.requests[k], p);
    var t := s.(requests := s.requests[k := r]);
    var log1 := log + [Heard(r.handle, p)];
    HeardKeeps(s, log, k, p);
    if r.need == NONE {
      var d := Done(r.handle, true, Delivered(r));
      assert Without(t.requests, k) == Without(s.requests, k);
      if r.xo {
        FreedKeeps(t, log1, k);
        GiveUpKeeps(t, log1 + [Freed(r.handle)], k, d);
        assert log + HearOut(s, k, p) == log1 + [Freed(r.handle)] + [d];
      } else {
        GiveUpKeeps(t, log1, k, d);
        assert log + HearOut(s, k, p) == log1 + [d];
      }
    } else {
      assert log + HearOut(s, k, p) == log1;
    }
  }

  lemma {:induction false} SameHandle(r: Pending, p: Packet)
    requires 0 <= p.number < 8
    ensures Accept(r, p).handle == r.handle && Accept(r, p).xo == r.xo
  {
  }

  lemma {:induction false} TriesOf(s: Requester, log: seq<Event>, i: nat)
    requires Books(s, log) && i < |s.requests|
    ensures 1 <= s.requests[i].tries <= TRIES
  {
    assert InFlight(s.requests[i], log);
  }

  lemma {:induction false} RetriesKeep(s: Requester, log: seq<Event>, i: nat)
    requires Books(s, log) && i <= |s.requests|
    ensures Books(RetryNext(s, i), log + RetryOut(s, i))
    decreases |s.requests| - i
  {
    hide Books;
    if i == |s.requests| {
      assert log + RetryOut(s, i) == log;
    } else {
      var r := s.requests[i];
      TriesOf(s, log, i);
      if s.now < r.nextRetry {
        RetriesKeep(s, log, i + 1);
      } else if r.tries + 1 > TRIES {
        var e, t := Done(r.handle, false, []), s.(requests := Without(s.requests, i));
        GiveUpKeeps(s, log, i, e);
        RetriesKeep(t, log + [e], i);
        assert log + RetryOut(s, i) == log + [e] + RetryOut(t, i);
      } else {
        var e, t := Transmit(r.handle, r.need), s.(requests := s.requests[i := Again(s, r)]);
        RetryKeeps(s, log, i);
        RetriesKeep(t, log + [e], i + 1);
        assert log + RetryOut(s, i) == log + [e] + RetryOut(t, i + 1);
      }
    }
  }

  lemma {:induction false} NextKeeps(s: Requester, log: seq<Event>, a: Action)
    requires Books(s, log) && Fits(a)
    ensures Books(Next(s, a), log + Out(s, a))
  {
    match a {
      case Ask(dst, max, xo) => AskKeeps(s, log, dst, max, xo);
      case Hear(src, tid, p) =>
        var k := Find(s.requests, src, tid, 0);
        if k < |s.requests| { HearKeeps(s, log, k, p); } else { assert log + [] == log; }
      case Clock(now) =>
        RetriesKeep(s.(now := now), log, 0);
    }
  }

  lemma {:induction false} RunKeeps(s: Requester, log: seq<Event>, acts: seq<Action>)
    requires Books(s, log) && AllFit(acts)
    ensures Books(Run(s, acts), log + Log(s, acts))
    decreases |acts|
  {
    hide Books, Next, Out;
    if acts == [] {
      assert log + Log(s, acts) == log;
    } else {
      NextKeeps(s, log, acts[0]);
      var t := Next(s, acts[0]);
      RunKeeps(t, log + Out(s, acts[0]), acts[1..]);
      assert log + Log(s, acts) == log + Out(s, acts[0]) + Log(t, acts[1..]);
    }
  }

  /** In every run, whatever is lost, duplicated or delayed, each transaction is transmitted at most five times and
  completed at most once, and every transmission asks for exactly the packets that had not come by then. */
  lemma {:induction false} RequestsAreBounded(now: int, second: int, tid: int, acts: seq<Action>)
    requires AllFit(acts)
    ensures var log := Log(Requester(now, second, [], tid, 0), acts); Bounded(log) && AsksForMissing(log)
  {
    var s := Requester(now, second, [], tid, 0);
    assert Books(s, []);
    RunKeeps(s, [], acts);
    assert [] + Log(s, acts) == Log(s, acts);
  }

  // ----- delivery

  /** How much of the reply a transaction asked for. */
  function Share(reply: seq<Body>, max: int): (n: nat)
    ensures n <= |reply| && n <= 8
  {
    if max <= 0 then 0 else if max < 8 then (if max < |reply| then max else |reply|)
    else if 8 < |reply| then 8 else |reply|
  }

  /** The packets of the reply in order, as far as the transaction asked for them. */
  function Whole(reply: seq<Body>, max: int): seq<Body> {
    seq(Share(reply, max), i requires 0 <= i < Share(reply, max) => Padded(reply[i]))
  }

  /** Transaction `h` asked for `max` packets, and every response it took is a packet of this one reply. */
  ghost predicate OnlyFrom(log: seq<Event>, h: nat, reply: seq<Body>, max: int) {
    forall k :: 0 <= k < |log| && log[k].handle == h ==>
      && (log[k].Asked? ==> log[k].max == max)
      && (log[k].Heard? ==> IsOf(log[k].packet, reply))
  }

  /** The numbers of the packets it took. */
  ghost function Took(log: seq<Event>, h: nat): set<int> {
    set k | 0 <= k < |log| && log[k].Heard? && log[k].handle == h :: log[k].packet.number
  }

  /** No packet it did not ask for was taken. */
  ghost predicate Within(taken: set<int>, max: int) {
    forall n :: n in taken ==> n < max
  }

  /** What is delivered are packets of the reply, each in its place. */
  predicate Gapless(resp: seq<Body>, reply: seq<Body>) {
    |resp| <= |reply| && forall i :: 0 <= i < |resp| ==> resp[i] == Padded(reply[i])
  }

  /** Every packet from number `from` on, up to `n`, was taken. */
  ghost predicate AllOf(taken: set<int>, from: int, n: nat) {
    forall i :: from <= i < n && 0 <= i ==> i in taken
  }

  /** What a successful completion with these packets is: just what was asked for exactly when nothing else was taken,
  and without a gap exactly when each packet up to the last was taken, those beyond the number asked for included. */
  ghost predicate Exact(resp: seq<Body>, taken: set<int>, reply: seq<Body>, max: int) {
    && (resp == Whole(reply, max) <==> Within(taken, max))
    && (Gapless(resp, reply) <==> AllOf(taken, 0, |resp|))
    && (Gapless(resp, reply) <==> AllOf(taken, max, |resp|))
  }

  ghost predicate Delivers(log: seq<Event>, h: nat, reply: seq<Body>, max: int) {
    forall k :: 0 <= k < |log| && log[k].Done? && log[k].handle == h && log[k].ok ==>
      Exact(log[k].resp, Took(log[..k], h), reply, max)
  }

  /** What has come is in place, what has not is still asked for, and the end is known only from the last packet. */
  ghost predicate Fitting(r: Pending, reply: seq<Body>, max: int) {
    var n := Share(reply, max);
    && |r.resp| <= n
    && (forall i :: 0 <= i < |r.resp| ==> r.need[i] || r.resp[i] == Padded(reply[i]))
    && (forall i :: |r.resp| <= i < n ==> r.need[i])
    && (r.count == -1 ==> forall i :: n <= i < 8 && i < max ==> r.need[i])
    && (r.count != -1 ==> r.count == n == |reply|)
  }

  /** More has come than was asked for, and whatever is delivered will be longer than that. */
  predicate Wide(r: Pending, reply: seq<Body>, max: int) {
    0 < max < |r.resp| && max < |reply| && (r.count == -1 || r.count == |reply|)
  }

  /** The packets taken stand in their places, the other places are blank, and of those asked for the missing ones still
  are. */
  ghost predicate Placing(r: Pending, taken: set<int>, reply: seq<Body>, max: int) {
    && |r.resp| <= |reply| && |r.resp| <= 8 && (r.count == -1 || r.count == |r.resp| == |reply|)
    && (forall n :: n in taken ==> 0 <= n < |r.resp|)
    && (forall i :: 0 <= i < |r.resp| ==> r.resp[i] == if i in taken then Padded(reply[i]) else [])
    && (forall i :: 0 <= i < 8 && i < max && i < |reply| && i !in taken ==> r.need[i])
  }

  ghost predicate Shaped(r: Pending, taken: set<int>, reply: seq<Body>, max: int) {
    && max > 0 && Placing(r, taken, reply, max)
    && if Within(taken, max) then Fitting(r, reply, max) else Wide(r, reply, max)
  }

  lemma {:induction false} AcceptFits(r: Pending, p: Packet, reply: seq<Body>, max: int)
    requires Fitting(r, reply, max) && IsOf(p, reply) && p.number < max
    ensures Fitting(Accept(r, p), reply, max)
  {
    var t, n := Accept(r, p), Share(reply, max);
    forall i | 0 <= i < |t.resp|
      ensures t.need[i] || t.resp[i] == Padded(reply[i])
    {
      if i < |r.resp| && i != p.number { assert r.need[i] || r.resp[i] == Padded(reply[i]); }
    }
  }

  lemma {:induction false} AcceptPlaces(r: Pending, p: Packet, taken: set<int>, reply: seq<Body>, max: int)
    requires Placing(r, taken, reply, max) && IsOf(p, reply)
    ensures Placing(Accept(r, p), taken + {p.number}, reply, max)
  {
    var t := Accept(r, p);
    PlacedAt(r.resp, p.number, p.body);
    hide Placed, Padded;
    forall i | 0 <= i < |t.resp|
      ensures t.resp[i] == if i in taken + {p.number} then Padded(reply[i]) else []
    {
      if i < |r.resp| { assert r.resp[i] == if i in taken then Padded(reply[i]) else []; }
    }
  }

  lemma {:induction false} PlacedAt(resp: seq<Body>, n: nat, body: Body)
    ensures forall i :: |resp| <= i < n ==> Placed(resp, n, body)[i] == []
  {
  }

  lemma {:induction false} AcceptShapes(r: Pending, p: Packet, taken: set<int>, reply: seq<Body>, max: int)
    requires Shaped(r, taken, reply, max) && IsOf(p, reply)
    ensures Shaped(Accept(r, p), taken + {p.number}, reply, max)
  {
    AcceptPlaces(r, p, taken, reply, max);
    hide Placing;
    assert Within(taken + {p.number}, max) <==> Within(taken, max) && p.number < max;
    if Within(taken, max) && p.number < max {
      AcceptFits(r, p, reply, max);
    }
  }

  lemma {:induction false} CompleteIsWhole(r: Pending, reply: seq<Body>, max: int)
    requires Fitting(r, reply, max) && r.need == NONE && max > 0
    ensures Delivered(r) == Whole(reply, max)
  {
    var n := Share(reply, max);
    assert forall i :: 0 <= i < 8 ==> !r.need[i];
    var gap, beyond := |r.resp| < 8 && r.need[|r.resp|], n < 8 && r.need[n];
    assert !gap && !beyond;
  }

  /** Nothing of the reply is missing where the transaction asked for it. */
  lemma {:induction false} CompleteIsPlaced(r: Pending, taken: set<int>, reply: seq<Body>, max: int)
    requires Placing(r, taken, reply, max) && r.need == NONE
    ensures var resp := Delivered(r);
      && |resp| == |r.resp| && (Gapless(resp, reply) <==> AllOf(taken, 0, |resp|))
      && (AllOf(taken, 0, |resp|) <==> AllOf(taken, max, |resp|))
  {
    var resp := Delivered(r);
    assert resp == r.resp;
    assert forall i :: 0 <= i < 8 ==> !r.need[i];
    if Gapless(resp, reply) {
      forall i | 0 <= i < |resp|
        ensures i in taken
      {
        assert resp[i] == Padded(reply[i]);
      }
    }
  }

  lemma {:induction false} CompleteIsExact(r: Pending, taken: set<int>, reply: seq<Body>, max: int)
    requires Shaped(r, taken, reply, max) && r.need == NONE
    ensures Exact(Delivered(r), taken, reply, max)
  {
    CompleteIsPlaced(r, taken, reply, max);
    if Within(taken, max) {
      CompleteIsWhole(r, reply, max);
    } else {
      assert |Delivered(r)| > max >= |Whole(reply, max)|;
    }
  }

  /** Under the assumption on the log, the transaction's record is shaped by what it took, as are its completions. */
  ghost predicate Faithful(s: Requester, log: seq<Event>, h: nat, reply: seq<Body>, max: int) {
    OnlyFrom(log, h, reply, max) ==> Delivers(log, h, reply, max) && AllShaped(s, log, h, reply, max)
  }

  ghost predicate AllShaped(s: Requester, log: seq<Event>, h: nat, reply: seq<Body>, max: int) {
    forall i :: 0 <= i < |s.requests| && s.requests[i].handle == h ==>
      Shaped(s.requests[i], Took(log, h), reply, max)
  }

  lemma {:induction false} OnlyFromSnoc(log: seq<Event>, e: Event, h: nat, reply: seq<Body>, max: int)
    ensures OnlyFrom(log + [e], h, reply, max) <==> OnlyFrom(log, h, reply, max) && OnlyFrom([e], h, reply, max)
    ensures Took(log + [e], h) == Took(log, h) + (if e.Heard? && e.handle == h then {e.packet.number} else {})
  {
    var more := log + [e];
    assert forall k :: 0 <= k < |log| ==> more[k] == log[k];
    assert more[|log|] == e && [e][0] == e;
  }

  /** An event, and records shaped by it. */
  lemma {:induction false} FaithfulStep(s: Requester, log: seq<Event>, e: Event, t: Requester,
                                        h: nat, reply: seq<Body>, max: int)
    requires Faithful(s, log, h, reply, max)
    requires OnlyFrom(log + [e], h, reply, max) && OnlyFrom(log, h, reply, max) && AllShaped(s, log, h, reply, max) ==>
      && (e.Done? && e.handle == h && e.ok ==> Exact(e.resp, Took(log, h), reply, max))
      && AllShaped(t, log + [e], h, reply, max)
    ensures Faithful(t, log + [e], h, reply, max)
  {
    hide Shaped, Exact, Took, OnlyFrom, AllShaped;
    OnlyFromSnoc(log, e, h, reply, max);
    var more := log + [e];
    if OnlyFrom(more, h, reply, max) {
      forall k | 0 <= k < |more| && more[k].Done? && more[k].handle == h && more[k].ok
        ensures Exact(more[k].resp, Took(more[..k], h), reply, max)
      {
        if k < |log| {
          assert more[..k] == log[..k] && more[k] == log[k];
        } else {
          assert more[..k] == log;
        }
      }
    }
  }

  /** An event that takes nothing and completes nothing, with the same records or fewer. */
  lemma {:induction false} FaithfulNote(s: Requester, log: seq<Event>, e: Event, t: Requester,
                                        h: nat, reply: seq<Body>, max: int)
    requires Faithful(s, log, h, reply, max) && !e.Heard? && !(e.Done? && e.ok)
    requires Inherits(t, s)
    ensures Faithful(t, log + [e], h, reply, max)
  {
    OnlyFromSnoc(log, e, h, reply, max);
    assert Took(log + [e], h) == Took(log, h);
    hide Exact, OnlyFrom, Took;
    if OnlyFrom(log, h, reply, max) && AllShaped(s, log, h, reply, max) {
      InheritsShape(t, s, Took(log, h), h, reply, max);
    }
    hide Inherits, Shaped;
    FaithfulStep(s, log, e, t, h, reply, max);
  }

  /** What a retry leaves alone. */
  predicate SameState(r: Pending, t: Pending) {
    r.handle == t.handle && r.need == t.need && r.resp == t.resp && r.count == t.count
  }

  ghost predicate Comes(r: Pending, s: Requester) {
    exists k :: 0 <= k < |s.requests| && SameState(s.requests[k], r)
  }

  /** Every record was there before, but for the retries. */
  ghost predicate Inherits(t: Requester, s: Requester) {
    forall i :: 0 <= i < |t.requests| ==> Comes(t.requests[i], s)
  }

  lemma {:induction false} InheritsShape(t: Requester, s: Requester, taken: set<int>, h: nat, reply: seq<Body>,
                                         max: int)
    requires Inherits(t, s)
    requires forall i :: 0 <= i < |s.requests| && s.requests[i].handle == h ==>
      Shaped(s.requests[i], taken, reply, max)
    ensures forall i :: 0 <= i < |t.requests| && t.requests[i].handle == h ==> Shaped(t.requests[i], taken, reply, max)
  {
    forall i | 0 <= i < |t.requests| && t.requests[i].handle == h
      ensures Shaped(t.requests[i], taken, reply, max)
    {
      assert Comes(t.requests[i], s);
      var k :| 0 <= k < |s.requests| && SameState(s.requests[k], t.requests[i]);
      assert Shaped(s.requests[k], taken, reply, max);
    }
  }

  /** A new transaction asks for all it wants, and has taken nothing. */
  lemma {:induction false} NewIsShaped(log: seq<Event>, r: Pending, reply: seq<Body>, max: int)
    requires Known(log, r.handle) && r.need == Wanted(max) && r.resp == [] && r.count == -1 && max > 0
    ensures Took(log + [Asked(r.handle, max)], r.handle) == {} && Shaped(r, {}, reply, max)
  {
    OnlyFromSnoc(log, Asked(r.handle, max), r.handle, reply, max);
    FirstFits(r, reply, max);
  }

  lemma {:induction false} FirstFits(r: Pending, reply: seq<Body>, max: int)
    requires r.need == Wanted(max) && r.resp == [] && r.count == -1
    ensures Fitting(r, reply, max)
  {
  }

  /** The announcement of a transaction that waits for packets. */
  lemma {:induction false} AskedFaithful(s: Requester, log: seq<Event>, t: Requester, m: int, r: Pending,
                                         h: nat, reply: seq<Body>, max: int)
    requires Faithful(s, log, h, reply, max) && Known(log, s.handles) && m > 0
    requires Fresh(r, s.handles, m) && t.requests == s.requests + [r]
    ensures Faithful(t, log + [Asked(s.handles, m)], h, reply, max)
  {
    var a := Asked(s.handles, m);
    NewIsShaped(log, r, reply, m);
    OnlyFromSnoc(log, a, h, reply, max);
    if OnlyFrom(log + [a], h, reply, max) && AllShaped(s, log, h, reply, max) {
      assert [a][0] == a;
      hide Shaped, Took, OnlyFrom;
      forall i | 0 <= i < |t.requests| && t.requests[i].handle == h
        ensures Shaped(t.requests[i], Took(log + [a], h), reply, max)
      {
        if i < |s.requests| { assert Shaped(s.requests[i], Took(log, h), reply, max); }
      }
    }
    hide AllShaped, OnlyFrom;
    FaithfulStep(s, log, a, t, h, reply, max);
  }

  predicate Fresh(r: Pending, h: nat, max: int) {
    r.handle == h && r.need == Wanted(max) && r.resp == [] && r.count == -1
  }

  lemma {:induction false} AskFaithful(s: Requester, log: seq<Event>, dst: Address, m: int, xo: bool,
                                       h: nat, reply: seq<Body>, max: int)
    requires Faithful(s, log, h, reply, max) && Known(log, s.handles)
    ensures Faithful(AskNext(s, dst, m, xo), log + AskOut(s, m), h, reply, max)
  {
    var t := AskNext(s, dst, m, xo);
    assert m > 0 ==>
      Fresh(t.requests[|s.requests|], s.handles, m) && t.requests == s.requests + [t.requests[|s.requests|]];
    hide Faithful, Inherits, Wanted, Known;
    var a, e, d := Asked(s.handles, m), Transmit(s.handles, Wanted(m)), Done(s.handles, true, []);
    InheritsSelf(t, t);
    if m <= 0 {
      InheritsSelf(t, s);
      FaithfulNote(s, log, a, t, h, reply, max);
      FaithfulNote(t, log + [a], e, t, h, reply, max);
      AskedNothing(t, log, a, e, d, h, reply, max);
      assert log + AskOut(s, m) == log + [a] + [e] + [d];
    } else {
      AskedFaithful(s, log, t, m, t.requests[|s.requests|], h, reply, max);
      FaithfulNote(t, log + [a], e, t, h, reply, max);
      assert log + AskOut(s, m) == log + [a] + [e];
    }
  }

  lemma {:induction false} InheritsSelf(t: Requester, s: Requester)
    requires t.requests == s.requests
    ensures Inherits(t, s)
  {
    forall i | 0 <= i < |t.requests|
      ensures Comes(t.requests[i], s)
    {
      assert SameState(s.requests[i], t.requests[i]);
    }
  }

  /** A transaction that asks for nothing is completed with nothing. */
  lemma {:induction false} AskedNothing(s: Requester, log: seq<Event>, a: Event, e: Event, d: Event,
                                        h: nat, reply: seq<Body>, max: int)
    requires Faithful(s, log + [a] + [e], h, reply, max) && Known(log, a.handle)
    requires a.Asked? && a.max <= 0 && e.Transmit? && d == Done(a.handle, true, [])
    ensures Faithful(s, log + [a] + [e] + [d], h, reply, max)
  {
    var before := log + [a] + [e];
    OnlyFromSnoc(log, a, h, reply, max);
    OnlyFromSnoc(log + [a], e, h, reply, max);
    OnlyFromSnoc(before, d, h, reply, max);
    if OnlyFrom(before, h, reply, max) && a.handle == h {
      assert before[|log|] == a;
      assert Whole(reply, max) == [] && Took(before, h) == {};
    }
    assert Took(before + [d], h) == Took(before, h);
    hide Whole, Took, OnlyFrom, Shaped;
    assert AllShaped(s, before, h, reply, max) ==> AllShaped(s, before + [d], h, reply, max);
    hide AllShaped;
    FaithfulStep(s, before, d, s, h, reply, max);
  }

  lemma {:induction false} HearFaithful(s: Requester, log: seq<Event>, k: nat, p: Packet,
                                        h: nat, reply: seq<Body>, max: int)
    requires Faithful(s, log, h, reply, max) && k < |s.requests| && 0 <= p.number < 8
    requires Distinct(s.requests, s.handles)
    ensures Faithful(HearNext(s, k, p), log + HearOut(s, k, p), h, reply, max)
  {
    hide Accept, Faithful, Delivered, Inherits, Distinct;
    var r := Accept(s.requests[k], p);
    SameHandle(s.requests[k], p);
    var e := Heard(r.handle, p);
    var t := s.(requests := s.requests[k := r]);
    TakenFaithful(s, log, k, p, h, reply, max);
    var log1 := log + [e];
    if r.need == NONE {
      var u, d := s.(requests := Without(s.requests, k)), Done(r.handle, true, Delivered(r));
      assert Without(t.requests, k) == u.requests;
      if r.xo {
        InheritsSelf(t, t);
        FaithfulNote(t, log1, Freed(r.handle), t, h, reply, max);
        CompletedFaithful(t, log1 + [Freed(r.handle)], k, u, h, reply, max);
        assert log + HearOut(s, k, p) == log1 + [Freed(r.handle)] + [d];
      } else {
        CompletedFaithful(t, log1, k, u, h, reply, max);
        assert log + HearOut(s, k, p) == log1 + [d];
      }
    } else {
      assert log + HearOut(s, k, p) == log1;
    }
  }

  /** A packet is taken. */
  lemma {:induction false} TakenFaithful(s: Requester, log: seq<Event>, k: nat, p: Packet,
                                         h: nat, reply: seq<Body>, max: int)
    requires Faithful(s, log, h, reply, max) && k < |s.requests| && 0 <= p.number < 8
    requires Distinct(s.requests, s.handles)
    ensures var r := Accept(s.requests[k], p);
      Faithful(s.(requests := s.requests[k := r]), log + [Heard(s.requests[k].handle, p)], h, reply, max)
  {
    hide Accept;
    var r := Accept(s.requests[k], p);
    SameHandle(s.requests[k], p);
    var e, t := Heard(s.requests[k].handle, p), s.(requests := s.requests[k := r]);
    OnlyFromSnoc(log, e, h, reply, max);
    assert [e][0] == e;
    var taken, after := Took(log, h), Took(log + [e], h);
    if OnlyFrom(log + [e], h, reply, max) && OnlyFrom(log, h, reply, max) && AllShaped(s, log, h, reply, max) {
      hide Took, OnlyFrom, Fitting, Wide, Shaped;
      forall i | 0 <= i < |t.requests| && t.requests[i].handle == h
        ensures Shaped(t.requests[i], after, reply, max)
      {
        assert Shaped(s.requests[i], taken, reply, max);
        if i == k {
          AcceptShapes(s.requests[k], p, taken, reply, max);
        }
      }
    }
    hide Took, OnlyFrom, AllShaped;
    FaithfulStep(s, log, e, t, h, reply, max);
  }

  /** A transaction with nothing missing completes. */
  lemma {:induction false} CompletedFaithful(s: Requester, log: seq<Event>, k: nat, t: Requester,
                                             h: nat, reply: seq<Body>, max: int)
    requires Faithful(s, log, h, reply, max) && k < |s.requests| && s.requests[k].need == NONE
    requires t == s.(requests := Without(s.requests, k))
    ensures Faithful(t, log + [Done(s.requests[k].handle, true, Delivered(s.requests[k]))], h, reply, max)
  {
    var r := s.requests[k];
    var d := Done(r.handle, true, Delivered(r));
    OnlyFromSnoc(log, d, h, reply, max);
    var taken := Took(log, h);
    assert Took(log + [d], h) == taken;
    if OnlyFrom(log, h, reply, max) && AllShaped(s, log, h, reply, max) {
      hide Took, OnlyFrom, Delivered, Exact;
      if r.handle == h { CompleteIsExact(r, taken, reply, max); }
      hide Shaped;
      forall i | 0 <= i < |t.requests| && t.requests[i].handle == h
        ensures Shaped(t.requests[i], taken, reply, max)
      {
        WithoutAt(s.requests, k, i);
      }
    }
    hide Took, OnlyFrom, AllShaped, Delivered, Exact;
    FaithfulStep(s, log, d, t, h, reply, max);
  }

  lemma {:induction false} RetryFaithful(s: Requester, log: seq<Event>, i: nat, h: nat, reply: seq<Body>, max: int)
    requires Faithful(s, log, h, reply, max) && i <= |s.requests|
    ensures Faithful(RetryNext(s, i), log + RetryOut(s, i), h, reply, max)
    decreases |s.requests| - i
  {
    hide Faithful, Inherits;
    if i == |s.requests| {
      assert log + RetryOut(s, i) == log;
    } else {
      var r := s.requests[i];
      if s.now < r.nextRetry {
        RetryFaithful(s, log, i + 1, h, reply, max);
      } else if r.tries + 1 > TRIES {
        var e, t := Done(r.handle, false, []), s.(requests := Without(s.requests, i));
        InheritsOthers(t, s, i);
        FaithfulNote(s, log, e, t, h, reply, max);
        RetryFaithful(t, log + [e], i, h, reply, max);
        assert log + RetryOut(s, i) == log + [e] + RetryOut(t, i);
      } else {
        var e, t := Transmit(r.handle, r.need), s.(requests := s.requests[i := Again(s, r)]);
        InheritsAgain(t, s, i);
        FaithfulNote(s, log, e, t, h, reply, max);
        RetryFaithful(t, log + [e], i + 1, h, reply, max);
        assert log + RetryOut(s, i) == log + [e] + RetryOut(t, i + 1);
      }
    }
  }

  lemma {:induction false} InheritsOthers(t: Requester, s: Requester, k: nat)
    requires k < |s.requests| && t.requests == Without(s.requests, k)
    ensures Inherits(t, s)
  {
    forall i | 0 <= i < |t.requests|
      ensures Comes(t.requests[i], s)
    {
      WithoutAt(s.requests, k, i);
      assert SameState(s.requests[if i < k then i else i + 1], t.requests[i]);
    }
  }

  lemma {:induction false} InheritsAgain(t: Requester, s: Requester, k: nat)
    requires k < |s.requests| && t.requests == s.requests[k := Again(s, s.requests[k])]
    ensures Inherits(t, s)
  {
    forall i | 0 <= i < |t.requests|
      ensures Comes(t.requests[i], s)
    {
      assert SameState(s.requests[i], t.requests[i]);
    }
  }

  lemma {:induction false} NextFaithful(s: Requester, log: seq<Event>, a: Action, h: nat, reply: seq<Body>, max: int)
    requires Faithful(s, log, h, reply, max) && Books(s, log) && Fits(a)
    ensures Faithful(Next(s, a), log + Out(s, a), h, reply, max)
  {
    hide Faithful, Bounded, AsksForMissing, InFlight, AskNext, AskOut, HearNext, HearOut, RetryNext, RetryOut;
    match a {
      case Ask(dst, m, xo) => AskFaithful(s, log, dst, m, xo, h, reply, max);
      case Hear(src, tid, p) =>
        var k := Find(s.requests, src, tid, 0);
        if k < |s.requests| { HearFaithful(s, log, k, p, h, reply, max); } else { assert log + [] == log; }
      case Clock(now) =>
        LaterFaithful(s, now, log, h, reply, max);
        RetryFaithful(s.(now := now), log, 0, h, reply, max);
    }
  }

  lemma {:induction false} LaterFaithful(s: Requester, now: int, log: seq<Event>, h: nat, reply: seq<Body>, max: int)
    requires Faithful(s, log, h, reply, max)
    ensures Faithful(s.(now := now), log, h, reply, max)
  {
    hide Shaped, Took, OnlyFrom, Delivers;
  }

  lemma {:induction false} RunFaithful(s: Requester, log: seq<Event>, acts: seq<Action>,
                                       h: nat, reply: seq<Body>, max: int)
    requires Faithful(s, log, h, reply, max) && Books(s, log) && AllFit(acts)
    ensures Faithful(Run(s, acts), log + Log(s, acts), h, reply, max)
    decreases |acts|
  {
    hide Faithful, Books, Next, Out;
    if acts == [] {
      assert log + Log(s, acts) == log;
    } else {
      NextFaithful(s, log, acts[0], h, reply, max);
      NextKeeps(s, log, acts[0]);
      var t := Next(s, acts[0]);
      RunFaithful(t, log + Out(s, acts[0]), acts[1..], h, reply, max);
      assert log + Log(s, acts) == log + Out(s, acts[0]) + Log(t, acts[1..]);
    }
  }

  /** In every run, if the responses a transaction took are packets of one reply, in whatever order and multiplicity
  they came, then a successful completion delivers exactly the packets asked for, in order, if and only if no other had
  been taken; and it delivers a gap if and only if some packet beyond the number asked for, but before the last one
  delivered, had not been taken. */
  lemma {:induction false} DeliveryIsWhole(now: int, second: int, tid: int, acts: seq<Action>,
                                           h: nat, reply: seq<Body>, max: int)
    requires AllFit(acts)
    requires OnlyFrom(Log(Requester(now, second, [], tid, 0), acts), h, reply, max)
    ensures Delivers(Log(Requester(now, second, [], tid, 0), acts), h, reply, max)
  {
    var s := Requester(now, second, [], tid, 0);
    assert Books(s, []);
    assert Faithful(s, [], h, reply, max);
    RunFaithful(s, [], acts, h, reply, max);
    assert [] + Log(s, acts) == Log(s, acts);
  }

  const FOUR: seq<Body> := [[1, 1, 1, 1], [2, 2, 2, 2], [3, 3, 3, 3], [4, 4, 4, 4]]

  /** A peer that sends more than it was asked for: two packets are asked for, packets 3, 0 and 1 of a reply of four
  come, and the transaction reports success with a gap where packet 2 should be. */
  lemma {:induction false} GapIsDelivered(r: Pending)
    requires r.need == Wanted(2) && r.resp == [] && r.count == -1
    ensures var p0, p1, p3 := PacketOf(FOUR, 0), PacketOf(FOUR, 1), PacketOf(FOUR, 3);
      var t := Accept(Accept(Accept(r, p3), p0), p1);
      t.need == NONE && Delivered(t) == [FOUR[0], FOUR[1], [], FOUR[3]] && Whole(FOUR, 2) == FOUR[..2]
  {
    var p0, p1, p3 := PacketOf(FOUR, 0), PacketOf(FOUR, 1), PacketOf(FOUR, 3);
    var a := Accept(r, p3);
    assert a.resp == [[], [], [], FOUR[3]] && a.count == 4;
    var b := Accept(a, p0);
    var t := Accept(b, p1);
    assert t.resp == [FOUR[0], FOUR[1], [], FOUR[3]];
    assert forall i :: 0 <= i < 8 ==> !t.need[i];
  }

  // ----- the object

  /** A list of bodies grown with empty ones, or cut. */
  method Resize(resp: seq<Body>, n: nat) returns (r: seq<Body>)
    ensures r == Resized(resp, n)
  {
    if n <= |resp| { return resp[..n]; }
    r := resp;
    while |r| < n
      invariant |resp| <= |r| <= n && r == resp + Blank(|r| - |resp|)
    {
      r := r + [[]];
    }
  }

  /** A response packet goes to its place; its bit, and after an end the later ones, are cleared. */
  method TakePacket(r: Pending, p: Packet) returns (t: Pending)
    requires 0 <= p.number < 8
    ensures t == Accept(r, p)
  {
    var n := p.number;
    var resp := r.resp;
    if |resp| <= n { resp := Resize(resp, n + 1); }
    PlacedIsResized(r.resp, n, p.body);
    resp := resp[n := p.body];
    var need: Bitmap := r.need[n := false];
    var count := r.count;
    if p.eom {
      count := n + 1;
      for b := n + 1 to 8
        invariant |need| == 8
        invariant forall i :: 0 <= i < 8 ==> (need[i] <==> r.need[i] && i != n && !(n < i < b))
      {
        need := need[b := false];
      }
    }
    assert need == Cleared(r.need, p);
    t := r.(resp := resp, need := need, count := count);
  }

  lemma {:induction false} PlacedIsResized(resp: seq<Body>, n: nat, body: Body)
    ensures Placed(resp, n, body) == (if n < |resp| then resp else Resized(resp, n + 1))[n := body]
  {
    if n >= |resp| {
      var a, b := Placed(resp, n, body), Resized(resp, n + 1)[n := body];
      assert |a| == |b| && forall i :: 0 <= i < |a| ==> a[i] == b[i];
    }
  }

  /** The queue of requests in flight, updated in place. */
  class Engine {
    var now: int
    var second: int
    var requests: seq<Pending>
    var nextTid: int
    var handles: nat

    ghost function Model(): Requester
      reads this
    {
      Requester(now, second, requests, nextTid, handles)
    }

    /** `atpRequest`. */
    method Start(dst: Address, max: int, xo: bool) returns (events: seq<Event>)
      modifies this`requests, this`nextTid, this`handles
      ensures Model() == Next(old(Model()), Ask(dst, max, xo)) && events == Out(old(Model()), Ask(dst, max, xo))
    {
      var tid, h := nextTid, handles;
      nextTid := (nextTid + 1) % 0x1_0000;
      if nextTid == 0 { nextTid := 1; }
      handles := handles + 1;
      var bitmap: Bitmap := seq(8, i => i < max);
      events := [Asked(h, max), Transmit(h, bitmap)];
      if max <= 0 {
        events := events + [Done(h, true, [])];
        return;
      }
      requests := requests + [Pending(h, tid, dst, bitmap, xo, 1, now + second, [], -1)];
    }

    /** The TResp case of `handleAtp`. */
    method HandleResponse(src: Address, tid: int, p: Packet) returns (events: seq<Event>)
      requires Fits(Hear(src, tid, p))
      modifies this`requests
      ensures Model() == Next(old(Model()), Hear(src, tid, p)) && events == Out(old(Model()), Hear(src, tid, p))
    {
      hide Accept, Resized;
      var k := 0;
      while k < |requests|
        invariant 0 <= k <= |requests| && requests == old(requests)
        invariant Find(requests, src, tid, 0) == Find(requests, src, tid, k)
      {
        if requests[k].tid != tid || requests[k].dst != src {
          k := k + 1;
          continue;
        }
        var r := TakePacket(requests[k], p);
        events := [Heard(r.handle, p)];
        if r.need == NONE {
          var resp := r.resp;
          if r.count >= 0 { resp := Resize(resp, r.count); }
          if r.xo { events := events + [Freed(r.handle)]; }
          events := events + [Done(r.handle, true, resp)];
          requests := requests[..k] + requests[k + 1..];
        } else {
          requests := requests[k := r];
        }
        return;
      }
      events := [];
    }

    /** The retry loop of `tick`. */
    method Retry(time: int) returns (events: seq<Event>)
      modifies this`now, this`requests
      ensures Model() == Next(old(Model()), Clock(time)) && events == Out(old(Model()), Clock(time))
    {
      now := time;
      ghost var s := Model();
      events := [];
      var i := 0;
      while i < |requests|
        invariant 0 <= i <= |requests| && now == time
        invariant Model() == s.(requests := requests)
        invariant RetryNext(Model(), i) == RetryNext(s, 0)
        invariant events + RetryOut(Model(), i) == RetryOut(s, 0)
        decreases |requests| - i
      {
        var r := requests[i];
        RetryOnce(Model(), i, events);
        if now < r.nextRetry {
          i := i + 1;
        } else if r.tries + 1 > TRIES {
          requests := requests[..i] + requests[i + 1..];
          events := events + [Done(r.handle, false, [])];
        } else {
          requests := requests[i := r.(tries := r.tries + 1, nextRetry := now + second)];
          events := events + [Transmit(r.handle, r.need)];
          i := i + 1;
        }
      }
    }
  }

  /** One turn of the retry loop. */
  lemma {:induction false} RetryOnce(s: Requester, i: nat, events: seq<Event>)
    requires i < |s.requests|
    ensures var r := s.requests[i];
      if s.now < r.nextRetry then
        RetryNext(s, i) == RetryNext(s, i + 1) && RetryOut(s, i) == RetryOut(s, i + 1)
      else if r.tries + 1 > TRIES then
        var t := s.(requests := Without(s.requests, i));
        && RetryNext(s, i) == RetryNext(t, i)
        && events + RetryOut(s, i) == events + [Done(r.handle, false, [])] + RetryOut(t, i)
      else
        var t := s.(requests := s.requests[i := Again(s, r)]);
        && RetryNext(s, i) == RetryNext(t, i + 1)
        && events + RetryOut(s, i) == events + [Transmit(r.handle, r.need)] + RetryOut(t, i + 1)
  {
  }
}
