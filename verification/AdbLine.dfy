/** The bit-serial ADB wire, seen from the devices: a receiver that decodes the host's pulses by their length, and a
sender driven by a timer that is ticked in arbitrary slices of time.

What the addressed device answers is a parameter. `wave` records the levels the sender has driven, each with the time
it armed for it. */
module AdbLine {
  import opened Sequences

  const SHORT := 544
  const LONG := 1020
  const SRQ := 2250
  const T1T := 1020
  const STOP := 1125
  const T_BIT := 782
  const T_SYNC := 450
  const T_ATTEN := 6000
  const T_RESET := 30000
  const T_T1T := 1800
  /** The timer loop does not look further back than this. */
  const LIMIT := 0x4000_0000

  datatype Line =
    | Idle | Attention | Bit(i: nat) | TStop | WaitT1t | RcvStartBit | SrqNoData
    | TStopStart | TStopStartA | StartBit | SendBit(i: nat) | SendBitA(i: nat) | SendStop | SendStopA

  datatype Pulse = Pulse(high: bool, armed: int)

  /** `timer` below zero is disabled. */
  datatype Wire = Wire(device: bool, state: Line, timer: int, command: bv8, waiting: bool, listening: bool,
                       buffer: seq<bv8>, size: nat, ptr: nat, wave: seq<Pulse>)

  predicate ValidLine(l: Line) {
    (l.Bit? || l.SendBit? || l.SendBitA?) ==> l.i < 8
  }

  predicate Sending(l: Line) {
    l.SendBit? || l.SendBitA?
  }

  predicate Valid(w: Wire) {
    |w.buffer| == 8 && ValidLine(w.state) && w.size <= 8 && (Sending(w.state) ==> w.ptr < w.size)
  }

  // ----- sending

  function Drive(w: Wire, high: bool, armed: int, next: Line): Wire {
    w.(device := high, timer := armed, state := next, wave := w.wave + [Pulse(high, armed)])
  }

  predicate Top(b: bv8) {
    b & 0x80 != 0
  }

  function Up(b: bv8): bv8 {
    b << 1
  }

  function WithLow(b: bv8): bv8 {
    b | 1
  }

  function Pushed(acc: bv8, one: bool): bv8 {
    if one then WithLow(Up(acc)) else Up(acc)
  }

  /** `timerTick`: the next level of the reply, and how long it is to last. */
  function TimerStep(w: Wire): Wire
    requires Valid(w)
  {
    match w.state
    case SrqNoData => Drive(w, true, -1, Idle)
    case TStopStart => Drive(w, true, SHORT, TStopStartA)
    case TStopStartA => Drive(w, false, SHORT, StartBit)
    case StartBit => Drive(w, true, LONG, SendBit(0))
    case SendBit(i) => Drive(w, false, if Top(w.buffer[w.ptr]) then SHORT else LONG, SendBitA(i))
    case SendBitA(i) =>
      var armed := if Top(w.buffer[w.ptr]) then LONG else SHORT;
      if i < 7 then Drive(w.(buffer := w.buffer[w.ptr := Up(w.buffer[w.ptr])]), true, armed, SendBit(i + 1))
      else Drive(w.(ptr := w.ptr + 1), true, armed, if w.ptr + 1 == w.size then SendStop else SendBit(0))
    case SendStop => Drive(w, false, STOP, SendStopA)
    case SendStopA => Drive(w, true, -1, Idle)
    case Idle => w.(timer := -1)
    case Attention => w.(timer := -1)
    case Bit(_) => w.(timer := -1)
    case TStop => w.(timer := -1)
    case WaitT1t => w.(timer := -1)
    case RcvStartBit => w.(timer := -1)
  }

  /** A reply has a byte to send once the start bit is over. */
  predicate Ready(w: Wire) {
    Valid(w) && (w.state.StartBit? || w.state.TStopStart? || w.state.TStopStartA? ==> w.ptr < w.size)
  }

  lemma {:induction false} StepIsReady(w: Wire)
    requires Ready(w)
    ensures Ready(TimerStep(w)) && (TimerStep(w).timer == -1 || TimerStep(w).timer > 0)
  {
    hide Top, Up;
  }

  /** The loop of `tick`: run every step that is due, each armed from when the one before it was due. */
  function Catch(w: Wire): (r: Wire)
    requires Ready(w)
    ensures Ready(r)
    decreases if w.timer <= 0 then -w.timer else 0, if w.timer <= 0 then 1 else 0
  {
    if w.timer > 0 || w.timer < -LIMIT then w else
    StepIsReady(w);
    var next := TimerStep(w);
    if next.timer < 0 then next else Catch(next.(timer := next.timer + w.timer))
  }

  function Ticked(w: Wire, cycles: nat): (r: Wire)
    requires Ready(w)
    ensures Ready(r)
  {
    if w.timer < 0 then w else Catch(w.(timer := w.timer - cycles))
  }

  /** The same without a limit on how late a step may be. */
  function Ideal(w: Wire): (r: Wire)
    requires Ready(w)
    ensures Ready(r)
    decreases if w.timer <= 0 then -w.timer else 0, if w.timer <= 0 then 1 else 0
  {
    if w.timer > 0 then w else
    StepIsReady(w);
    var next := TimerStep(w);
    if next.timer < 0 then next else Ideal(next.(timer := next.timer + w.timer))
  }

  function IdealTick(w: Wire, cycles: nat): (r: Wire)
    requires Ready(w)
    ensures Ready(r)
  {
    if w.timer < 0 then w else Ideal(w.(timer := w.timer - cycles))
  }

  lemma {:induction false} StepIgnoresTimer(w: Wire, t: int)
    requires Ready(w)
    ensures TimerStep(w.(timer := t)) == TimerStep(w)
  {
    hide Top, Up, WithLow, Pushed;
    if w.state.SendBitA? { BitIgnoresTimer(w, t); }
  }

  lemma {:induction false} BitIgnoresTimer(w: Wire, t: int)
    requires Ready(w) && w.state.SendBitA?
    ensures TimerStep(w.(timer := t)) == TimerStep(w)
  {
    assert Valid(w.(timer := t)) && w.ptr < |w.buffer|;
    hide Top, Up, WithLow, Pushed, Valid, Ready;
  }

  lemma {:induction false} CatchIsIdeal(w: Wire)
    requires Ready(w) && -LIMIT <= w.timer
    ensures Catch(w) == Ideal(w)
    decreases if w.timer <= 0 then -w.timer else 0, if w.timer <= 0 then 1 else 0
  {
    hide TimerStep;
    if w.timer <= 0 {
      StepIsReady(w);
      var next := TimerStep(w);
      if next.timer >= 0 { CatchIsIdeal(next.(timer := next.timer + w.timer)); }
    }
  }

  /** A tick does what it should if and only if it is not too long; a longer one never fires a timer again. */
  lemma {:induction false} TickIsIdeal(w: Wire, cycles: nat)
    requires Ready(w) && 0 <= w.timer
    ensures Ticked(w, cycles) == IdealTick(w, cycles) <==> cycles <= w.timer + LIMIT
    ensures cycles > w.timer + LIMIT ==> forall more: nat :: Ticked(Ticked(w, cycles), more) == Ticked(w, cycles)
  {
    var v := w.(timer := w.timer - cycles);
    if cycles <= w.timer + LIMIT {
      CatchIsIdeal(v);
    } else {
      IdealEnds(v);
    }
  }

  lemma {:induction false} IdealEnds(w: Wire)
    requires Ready(w)
    ensures Ideal(w).timer == -1 || Ideal(w).timer > 0
    decreases if w.timer <= 0 then -w.timer else 0, if w.timer <= 0 then 1 else 0
  {
    hide TimerStep;
    if w.timer <= 0 {
      StepIsReady(w);
      var next := TimerStep(w);
      if next.timer >= 0 { IdealEnds(next.(timer := next.timer + w.timer)); }
    }
  }

  /** Ticking on after catching up is catching up later. */
  lemma {:induction false} IdealShift(w: Wire, cycles: nat)
    requires Ready(w)
    ensures IdealTick(Ideal(w), cycles) == Ideal(w.(timer := w.timer - cycles))
    decreases if w.timer <= 0 then -w.timer else 0, if w.timer <= 0 then 1 else 0
  {
    hide TimerStep;
    if w.timer <= 0 {
      StepIsReady(w);
      StepIgnoresTimer(w, w.timer - cycles);
      var next := TimerStep(w);
      if next.timer >= 0 {
        IdealShift(next.(timer := next.timer + w.timer), cycles);
        var late := w.(timer := w.timer - cycles);
        assert Ideal(late) == Ideal(next.(timer := next.timer + late.timer));
      }
    }
  }

  function Ticks(w: Wire, slices: seq<nat>): (r: Wire)
    requires Ready(w)
    decreases |slices|
  {
    if slices == [] then w else Ticks(Ticked(w, slices[0]), slices[1..])
  }

  lemma {:induction false} IdealTwice(w: Wire, a: nat, b: nat)
    requires Ready(w) && (w.timer == -1 || w.timer > 0)
    ensures IdealTick(IdealTick(w, a), b) == IdealTick(w, a + b)
  {
    if w.timer > 0 { IdealShift(w.(timer := w.timer - a), b); }
  }

  /** However a stretch of time is sliced into ticks, the sender ends up in the same state, having driven the same
  levels for the same times. */
  lemma {:induction false} SlicesAgree(w: Wire, slices: seq<nat>)
    requires Ready(w) && (w.timer == -1 || w.timer > 0)
    requires forall i :: 0 <= i < |slices| ==> slices[i] <= LIMIT
    ensures Ticks(w, slices) == IdealTick(w, Sum(slices))
    decreases |slices|
  {
    hide TimerStep, Ideal, Catch;
    if slices == [] {
      IdealRests(w);
    } else {
      var a := slices[0];
      OneSlice(w, a);
      SlicesAgree(IdealTick(w, a), slices[1..]);
      IdealTwice(w, a, Sum(slices[1..]));
    }
  }

  lemma {:induction false} OneSlice(w: Wire, a: nat)
    requires Ready(w) && (w.timer == -1 || w.timer > 0) && a <= LIMIT
    ensures Ticked(w, a) == IdealTick(w, a) && (IdealTick(w, a).timer == -1 || IdealTick(w, a).timer > 0)
  {
    if w.timer > 0 {
      TickIsIdeal(w, a);
      IdealEnds(w.(timer := w.timer - a));
    }
  }

  lemma {:induction false} IdealRests(w: Wire)
    requires Ready(w) && (w.timer == -1 || w.timer > 0)
    ensures IdealTick(w, 0) == w
  {
  }

  // ----- the waveform of a reply

  function BitWave(one: bool): seq<Pulse> {
    if one then [Pulse(false, SHORT), Pulse(true, LONG)] else [Pulse(false, LONG), Pulse(true, SHORT)]
  }

  /** The cells of the upper `n` bits. */
  function ByteWave(b: bv8, n: nat): seq<Pulse>
    decreases n
  {
    if n == 0 then [] else BitWave(Top(b)) + ByteWave(Up(b), n - 1)
  }

  function BytesWave(bytes: seq<bv8>): seq<Pulse> {
    if bytes == [] then [] else ByteWave(bytes[0], 8) + BytesWave(bytes[1..])
  }

  /** A whole reply: start bit, data, stop bit. */
  function Reply(bytes: seq<bv8>): seq<Pulse> {
    [Pulse(true, SHORT), Pulse(false, SHORT), Pulse(true, LONG)] + BytesWave(bytes) +
    [Pulse(false, STOP), Pulse(true, -1)]
  }

  /** `n` steps of the sender, and how long they take from the first one on. */
  function Steps(w: Wire, n: nat): (r: Wire)
    requires Ready(w)
    ensures Ready(r)
    decreases n
  {
    if n == 0 then w else
    StepIsReady(w);
    Steps(TimerStep(w), n - 1)
  }

  lemma {:induction false} StepsAdd(w: Wire, m: nat, n: nat)
    requires Ready(w)
    ensures Steps(w, m + n) == Steps(Steps(w, m), n)
    decreases m
  {
    hide TimerStep;
    if m > 0 {
      StepIsReady(w);
      StepsAdd(TimerStep(w), m - 1, n);
    }
  }

  /** A bit is sent as one cell, and the byte moves up. */
  lemma {:induction false} SendsBit(w: Wire)
    requires Ready(w) && w.state.SendBit?
    ensures var b, r := w.buffer[w.ptr], Steps(w, 2);
      && r.wave == w.wave + BitWave(Top(b)) && r.timer > 0 && r.size == w.size
      && (w.state.i < 7 ==> r.state == SendBit(w.state.i + 1) && r.ptr == w.ptr && r.buffer == w.buffer[w.ptr := Up(b)])
      && (w.state.i == 7 ==>
           r.state == (if w.ptr + 1 == w.size then SendStop else SendBit(0)) && r.ptr == w.ptr + 1
             && r.buffer == w.buffer)
  {
    var v := TimerStep(w);
    LowHalf(w);
    HighHalf(v);
    TwoSteps(w);
    hide TimerStep, Top;
    var b, r := w.buffer[w.ptr], Steps(w, 2);
    assert r.wave ==
      w.wave + [Pulse(false, if Top(b) then SHORT else LONG)] + [Pulse(true, if Top(b) then LONG else SHORT)];
  }

  lemma {:induction false} TwoSteps(w: Wire)
    requires Ready(w)
    ensures Ready(TimerStep(w)) && Steps(w, 2) == TimerStep(TimerStep(w))
  {
    hide TimerStep;
    StepIsReady(w);
    var v := TimerStep(w);
    assert Steps(v, 1) == Steps(TimerStep(v), 0);
  }

  lemma {:induction false} LowHalf(w: Wire)
    requires Ready(w) && w.state.SendBit?
    ensures TimerStep(w) == Drive(w, false, if Top(w.buffer[w.ptr]) then SHORT else LONG, SendBitA(w.state.i))
    ensures Ready(TimerStep(w))
  {
  }

  lemma {:induction false} HighHalf(w: Wire)
    requires Ready(w) && w.state.SendBitA?
    ensures var b, r := w.buffer[w.ptr], TimerStep(w);
      && r.wave == w.wave + [Pulse(true, if Top(b) then LONG else SHORT)] && r.timer > 0 && r.size == w.size
      && (w.state.i < 7 ==> r.state == SendBit(w.state.i + 1) && r.ptr == w.ptr && r.buffer == w.buffer[w.ptr := Up(b)])
      && (w.state.i == 7 ==>
           r.state == (if w.ptr + 1 == w.size then SendStop else SendBit(0)) && r.ptr == w.ptr + 1
             && r.buffer == w.buffer)
  {
    hide Top, Up, WithLow;
    if w.state.i < 7 { assert w.state.i + 1 < 8; }
  }

  /** From bit `i` on, the rest of the byte is sent, and the sender stands at the next byte or at the stop bit. */
  lemma {:induction false} SendsRest(w: Wire, n: nat)
    requires Ready(w) && w.state.SendBit? && n == 8 - w.state.i
    ensures var r := Steps(w, 2 * n);
      && r.wave == w.wave + ByteWave(w.buffer[w.ptr], n) && r.ptr == w.ptr + 1 && r.size == w.size && r.timer > 0
      && r.state == (if w.ptr + 1 == w.size then SendStop else SendBit(0))
      && r.buffer[w.ptr + 1..] == w.buffer[w.ptr + 1..]
    decreases n
  {
    hide TimerStep;
    SendsBit(w);
    var v, b := Steps(w, 2), w.buffer[w.ptr];
    StepsAdd(w, 2, 2 * (n - 1));
    if n > 1 {
      SendsRest(v, n - 1);
      Regroup(w.wave, BitWave(Top(b)), ByteWave(Up(b), n - 1));
    } else {
      assert ByteWave(Up(b), 0) == [];
      assert ByteWave(b, 1) == BitWave(Top(b));
    }
  }

  lemma {:induction false} SendsBytes(w: Wire, bytes: seq<bv8>)
    requires Ready(w) && w.state == SendBit(0) && bytes != [] && w.buffer[w.ptr..w.size] == bytes
    ensures var r := Steps(w, 16 * |bytes|);
      && r.wave == w.wave + BytesWave(bytes) && r.state == SendStop && r.timer > 0
    decreases |bytes|
  {
    hide TimerStep, ByteWave, Steps;
    assert w.buffer[w.ptr] == bytes[0];
    SendsRest(w, 8);
    var v := Steps(w, 16);
    StepsAdd(w, 16, 16 * (|bytes| - 1));
    if |bytes| > 1 {
      assert v.buffer[v.ptr..v.size] == v.buffer[w.ptr + 1..][..w.size - w.ptr - 1];
      assert w.buffer[w.ptr + 1..][..w.size - w.ptr - 1] == w.buffer[w.ptr..w.size][1..] == bytes[1..];
      SendsBytes(v, bytes[1..]);
      Regroup(w.wave, ByteWave(bytes[0], 8), BytesWave(bytes[1..]));
    } else {
      StepsNone(v);
      assert bytes[1..] == [];
      assert BytesWave(bytes) == ByteWave(bytes[0], 8);
    }
  }

  lemma {:induction false} StepsNone(w: Wire)
    requires Ready(w)
    ensures Steps(w, 0) == w
  {
  }

  /** A reply about to be sent. */
  predicate Replying(w: Wire, bytes: seq<bv8>) {
    && Ready(w) && w.state == TStopStart && w.timer > 0 && w.ptr == 0 && 0 < w.size
    && w.buffer[..w.size] == bytes
  }

  /** Whatever the bytes, the steps of the sender drive exactly their waveform. */
  lemma {:induction false} SendsReply(w: Wire, bytes: seq<bv8>)
    requires Replying(w, bytes)
    ensures var r := Steps(w, 5 + 16 * |bytes|);
      r.wave == w.wave + Reply(bytes) && r.state == Idle && r.timer == -1 && r.device
  {
    hide TimerStep, Steps, BytesWave;
    var v := Steps(w, 3);
    StartsReply(w);
    assert v.buffer[v.ptr..v.size] == w.buffer[..w.size];
    SendsBytes(v, bytes);
    StepsAdd(w, 3, 16 * |bytes|);
    var u := Steps(v, 16 * |bytes|);
    StepsAdd(w, 3 + 16 * |bytes|, 2);
    EndsReply(u);
    var start := [Pulse(true, SHORT), Pulse(false, SHORT), Pulse(true, LONG)];
    var end := [Pulse(false, STOP), Pulse(true, -1)];
    Regroup(w.wave, start, BytesWave(bytes));
    Regroup(w.wave, start + BytesWave(bytes), end);
  }

  lemma {:induction false} StartsReply(w: Wire)
    requires Ready(w) && w.state == TStopStart && w.ptr == 0
    ensures var v := Steps(w, 3);
      && v == w.(device := true, timer := LONG, state := SendBit(0), wave := v.wave)
      && v.wave == w.wave + [Pulse(true, SHORT), Pulse(false, SHORT), Pulse(true, LONG)]
  {
    var a := TimerStep(w);
    var b := TimerStep(a);
    assert Steps(w, 3) == Steps(a, 2) == Steps(b, 1) == TimerStep(b);
  }

  lemma {:induction false} EndsReply(u: Wire)
    requires Ready(u) && u.state == SendStop
    ensures var r := Steps(u, 2);
      r.wave == u.wave + [Pulse(false, STOP), Pulse(true, -1)] && r.state == Idle && r.timer == -1 && r.device
  {
    var a := TimerStep(u);
    assert Steps(u, 2) == Steps(a, 1) == TimerStep(a);
  }

  // ----- the reply in time

  predicate Driving(l: Line) {
    l.TStopStart? || l.TStopStartA? || l.StartBit? || l.SendBit? || l.SendBitA? || l.SendStop? || l.SendStopA?
  }

  lemma {:induction false} DrivingGoesOn(w: Wire)
    requires Ready(w) && Driving(w.state)
    ensures var r := TimerStep(w); Ready(r) && if w.state.SendStopA? then r.state == Idle && r.timer == -1
      else Driving(r.state) && r.timer > 0
  {
  }

  /** Time until the sender has done its next `n` steps. */
  function Span(w: Wire, n: nat): (t: nat)
    requires Ready(w)
    decreases n
  {
    if n == 0 || w.timer < 0 then 0 else
    StepIsReady(w);
    w.timer + Span(TimerStep(w), n - 1)
  }

  lemma {:induction false} IdleStays(w: Wire, n: nat)
    requires Ready(w) && w.state == Idle && w.timer == -1
    ensures Steps(w, n) == w
    decreases n
  {
    if n > 0 { IdleStays(TimerStep(w), n - 1); }
  }

  lemma {:induction false} IdealFinishes(w: Wire, n: nat, time: nat)
    requires Ready(w) && Driving(w.state) && w.timer > 0
    requires Steps(w, n).state == Idle && Span(w, n) <= time
    ensures IdealTick(w, time) == Steps(w, n)
    decreases n
  {
    hide TimerStep;
    var late := w.(timer := w.timer - time);
    StepIgnoresTimer(w, late.timer);
    DrivingGoesOn(w);
    var next := TimerStep(w);
    if n == 0 {
      assert false;
    } else if w.state.SendStopA? {
      IdleStays(next, n - 1);
    } else {
      IdealFinishes(next, n - 1, time - w.timer);
      assert Ideal(late) == Ideal(next.(timer := next.timer + late.timer));
    }
  }

  /** Every reply, however time is sliced, puts exactly its waveform on the wire and releases it. */
  lemma {:induction false} ReplyIsDriven(w: Wire, bytes: seq<bv8>, slices: seq<nat>)
    requires Replying(w, bytes) && Span(w, 5 + 16 * |bytes|) <= Sum(slices)
    requires forall i :: 0 <= i < |slices| ==> slices[i] <= LIMIT
    ensures var r := Ticks(w, slices); r.wave == w.wave + Reply(bytes) && r.state == Idle && r.timer == -1 && r.device
  {
    hide TimerStep, Steps, Ideal, Catch, Span, Reply;
    SendsReply(w, bytes);
    SlicesAgree(w, slices);
    IdealFinishes(w, 5 + 16 * |bytes|, Sum(slices));
  }

  // ----- what a listener makes of it

  /** Pulse lengths read two at a time: a short low is a one. */
  function Decode(wave: seq<Pulse>, acc: bv8): bv8
    decreases |wave|
  {
    if |wave| < 2 then acc else Decode(wave[2..], Pushed(acc, wave[0].armed < T_BIT))
  }

  function DecodeBytes(wave: seq<Pulse>): seq<bv8>
    decreases |wave|
  {
    if |wave| < 16 then [] else [Decode(wave[..16], 0)] + DecodeBytes(wave[16..])
  }

  lemma {:induction false} DecodeOne(b: bv8, n: nat, acc: bv8)
    requires 0 < n
    ensures Decode(ByteWave(b, n), acc) == Decode(ByteWave(Up(b), n - 1), Shifted(acc, b))
  {
    hide Top, Up, WithLow;
    var wave := ByteWave(b, n);
    assert wave[2..] == ByteWave(Up(b), n - 1);
  }

  function Shifted(acc: bv8, b: bv8): bv8 {
    Pushed(acc, Top(b))
  }

  lemma {:induction false} EightShifts(b: bv8)
    ensures var b1 := Up(b); var b2 := Up(b1); var b3 := Up(b2); var b4 := Up(b3); var b5 := Up(b4);
      var b6 := Up(b5); var b7 := Up(b6);
      Shifted(Shifted(Shifted(Shifted(Shifted(Shifted(Shifted(Shifted(0, b), b1), b2), b3), b4), b5), b6), b7) == b
  {
  }

  lemma {:induction false} DecodesByte(b: bv8)
    ensures Decode(ByteWave(b, 8), 0) == b
  {
    EightShifts(b);
    hide Decode, Shifted, ByteWave;
    var b1 := Up(b); var b2 := Up(b1); var b3 := Up(b2); var b4 := Up(b3);
    var b5 := Up(b4); var b6 := Up(b5); var b7 := Up(b6); var b8 := Up(b7);
    var a1 := Shifted(0, b); var a2 := Shifted(a1, b1); var a3 := Shifted(a2, b2); var a4 := Shifted(a3, b3);
    var a5 := Shifted(a4, b4); var a6 := Shifted(a5, b5); var a7 := Shifted(a6, b6);
    DecodeOne(b, 8, 0);
    DecodeOne(b1, 7, a1);
    DecodeOne(b2, 6, a2);
    DecodeOne(b3, 5, a3);
    DecodeOne(b4, 4, a4);
    DecodeOne(b5, 3, a5);
    DecodeOne(b6, 2, a6);
    DecodeOne(b7, 1, a7);
    NoBits(b8, Shifted(a7, b7));
  }

  lemma {:induction false} NoBits(b: bv8, acc: bv8)
    ensures Decode(ByteWave(b, 0), acc) == acc
  {
  }

  lemma {:induction false} ByteWaveLength(b: bv8, n: nat)
    ensures |ByteWave(b, n)| == 2 * n
    decreases n
  {
    if n > 0 { ByteWaveLength(Up(b), n - 1); }
  }

  lemma {:induction false} DecodesFirst(first: seq<Pulse>, rest: seq<Pulse>)
    requires |first| == 16
    ensures DecodeBytes(first + rest) == [Decode(first, 0)] + DecodeBytes(rest)
  {
    hide Decode;
    var wave := first + rest;
    assert wave[..16] == first && wave[16..] == rest;
  }

  lemma {:induction false} DecodesNothing()
    ensures DecodeBytes(BytesWave([])) == []
  {
  }

  /** Thresholding the low times of a reply at the bit midpoint gives its bytes back. */
  lemma {:induction false} DecodesReply(bytes: seq<bv8>)
    ensures DecodeBytes(BytesWave(bytes)) == bytes
    decreases |bytes|
  {
    hide Decode, ByteWave, DecodeBytes;
    if bytes == [] {
      DecodesNothing();
    } else {
      ByteWaveLength(bytes[0], 8);
      DecodesFirst(ByteWave(bytes[0], 8), BytesWave(bytes[1..]));
      DecodesByte(bytes[0]);
      DecodesReply(bytes[1..]);
    }
  }

  /** A listener that skips the start bit and the stop bit reads the bytes of the reply. */
  lemma {:induction false} ReadsReply(before: seq<Pulse>, bytes: seq<bv8>)
    ensures var r := before + Reply(bytes);
      |r| >= |before| + 5 && DecodeBytes(r[|before| + 3..|r| - 2]) == bytes
  {
    hide BytesWave, DecodeBytes;
    var r := before + Reply(bytes);
    assert r[|before| + 3..|r| - 2] == BytesWave(bytes);
    DecodesReply(bytes);
  }

  /** Every bit cell of a byte is a low then a high, and lasts 1564 cycles. */
  lemma {:induction false} CellsLast(b: bv8, n: nat, k: nat)
    requires k < n
    ensures |ByteWave(b, n)| == 2 * n
    ensures var lo, hi := ByteWave(b, n)[2 * k], ByteWave(b, n)[2 * k + 1];
      !lo.high && hi.high && lo.armed + hi.armed == 1564
    decreases n
  {
    hide Top, Up, WithLow;
    ByteWaveLength(b, n);
    ByteWaveLength(Up(b), n - 1);
    if k > 0 { CellsLast(Up(b), n - 1, k - 1); }
  }

  // ----- receiving

  /** What the devices make of a command or of listened data: a service request, a reply, or more data wanted. */
  datatype Answer = Answer(srq: bool, listen: bool, data: seq<bv8>)

  /** `receiveEdge`: the host has changed the line to `level` after `dtime` cycles. */
  function Edge(w: Wire, level: bool, dtime: int, answer: Answer): (r: Wire)
    requires Valid(w) && |answer.data| <= 8
    ensures Valid(r)
  {
    var v := if w.listening && w.state.TStop? && (w.ptr % 2 == 1 || dtime < T_BIT) then w.(state := Bit(0)) else w;
    match v.state
    case Idle =>
      if level && T_ATTEN <= dtime < T_RESET then v.(waiting := true, listening := false, state := Attention) else v
    case Attention => if !level && dtime >= T_SYNC then v.(command := 0, state := Bit(0)) else v
    case Bit(i) => if level then v else BitFell(v, dtime >= T_BIT)
    case TStop => if level then Answered(v, answer) else v
    case WaitT1t => if !level && dtime >= T_T1T then v.(state := RcvStartBit) else v
    case RcvStartBit => if !level && dtime >= T_SYNC then v.(state := Bit(0), command := 0) else v
    case _ => v
  }

  /** The end of a bit: it is a one if the high before it was long. */
  function BitFell(w: Wire, one: bool): (r: Wire)
    requires Valid(w) && w.state.Bit?
    ensures Valid(r)
  {
    var c := if one then WithLow(w.command) else w.command;
    if w.state.i < 7 then w.(command := Up(c), state := Bit(w.state.i + 1))
    else if !w.listening then w.(command := c, state := TStop)
    else if w.ptr < 8 then w.(buffer := w.buffer[w.ptr := c], ptr := w.ptr + 1, command := 0, state := TStop)
    else w.(command := 0, state := TStop)
  }

  /** The stop bit: act on what was received, and start a reply if there is one. */
  function Answered(w: Wire, answer: Answer): (r: Wire)
    requires Valid(w) && w.state.TStop? && |answer.data| <= 8
    ensures Valid(r)
  {
    var n := |answer.data|;
    var v := w.(waiting := false, listening := answer.listen, size := n,
                command := if answer.listen then 0 else if w.listening then w.buffer[0] else w.command,
                ptr := if answer.listen then 0 else w.ptr,
                buffer := if answer.listen then BLANK else answer.data + w.buffer[n..]);
    if answer.srq then v.(device := false, state := SrqNoData, timer := SRQ)
    else if n > 0 then v.(device := true, state := TStopStart, timer := T1T, ptr := 0)
    else v.(device := true, state := if answer.listen then WaitT1t else Idle)
  }

  const BLANK: seq<bv8> := [0, 0, 0, 0, 0, 0, 0, 0]

  /** One bit of the host: low, then high, then the fall that ends it. */
  datatype Cell = Cell(low: int, high: int)

  const NOTHING := Answer(false, false, [])

  function HearCell(w: Wire, c: Cell): (r: Wire)
    requires Valid(w)
    ensures Valid(r)
  {
    Edge(Edge(w, true, c.low, NOTHING), false, c.high, NOTHING)
  }

  /** The cells spell the upper bits of `b`. */
  predicate Spells(cells: seq<Cell>, b: bv8)
    decreases |cells|
  {
    cells == [] || ((cells[0].high >= T_BIT <==> Top(b)) && Spells(cells[1..], Up(b)))
  }

  function HearCells(w: Wire, cells: seq<Cell>): (r: Wire)
    requires Valid(w)
    ensures Valid(r)
    decreases |cells|
  {
    if cells == [] then w else HearCells(HearCell(w, cells[0]), cells[1..])
  }

  /** Where bits can start: at the first bit, or at a stop bit that turns out to be the next byte's. */
  predicate Continues(w: Wire, low: int) {
    w.state == Bit(0) || (w.listening && w.state.TStop? && (w.ptr % 2 == 1 || low < T_BIT))
  }

  lemma {:induction false} HearsFirstBit(w: Wire, c: Cell)
    requires Valid(w) && Continues(w, c.low)
    ensures HearCell(w, c) == BitFell(w.(state := Bit(0)), c.high >= T_BIT)
  {
    hide BitFell, Answered;
  }

  lemma {:induction false} HearsBit(w: Wire, c: Cell)
    requires Valid(w) && w.state.Bit?
    ensures HearCell(w, c) == BitFell(w, c.high >= T_BIT)
  {
    hide BitFell, Answered;
  }

  /** The command register with one more bit in it. */
  function Taken(c: bv8, b: bv8): bv8 {
    if Top(b) then WithLow(c) else c
  }

  /** The command register after the last `n` bits of a byte. */
  function Gathered(c: bv8, b: bv8, n: nat): bv8
    requires 0 < n
    decreases n
  {
    if n == 1 then Taken(c, b) else Gathered(Up(Taken(c, b)), Up(b), n - 1)
  }

  lemma {:induction false} EightTaken(b: bv8)
    ensures var b1 := Up(b); var b2 := Up(b1); var b3 := Up(b2); var b4 := Up(b3); var b5 := Up(b4);
      var b6 := Up(b5); var b7 := Up(b6);
      var t := Taken(Up(Taken(Up(Taken(Up(Taken(Up(Taken(0, b)), b1)), b2)), b3)), b4);
      Taken(Up(Taken(Up(Taken(Up(t), b5)), b6)), b7) == b
  {
  }

  lemma {:induction false} GathersByte(b: bv8)
    ensures Gathered(0, b, 8) == b
  {
    EightTaken(b);
    hide Taken;
    var b1 := Up(b); var b2 := Up(b1); var b3 := Up(b2); var b4 := Up(b3);
    var b5 := Up(b4); var b6 := Up(b5); var b7 := Up(b6);
    var c1 := Up(Taken(0, b)); var c2 := Up(Taken(c1, b1)); var c3 := Up(Taken(c2, b2));
    var c4 := Up(Taken(c3, b3)); var c5 := Up(Taken(c4, b4)); var c6 := Up(Taken(c5, b5)); var c7 := Up(Taken(c6, b6));
    hide Gathered;
    GatherOne(0, b, 8);
    GatherOne(c1, b1, 7);
    GatherOne(c2, b2, 6);
    GatherOne(c3, b3, 5);
    GatherOne(c4, b4, 4);
    GatherOne(c5, b5, 3);
    GatherOne(c6, b6, 2);
    GatherLast(c7, b7);
  }

  lemma {:induction false} GatherOne(c: bv8, b: bv8, n: nat)
    requires 1 < n
    ensures Gathered(c, b, n) == Gathered(Up(Taken(c, b)), Up(b), n - 1)
  {
    hide Taken;
  }

  lemma {:induction false} GatherLast(c: bv8, b: bv8)
    ensures Gathered(c, b, 1) == Taken(c, b)
  {
  }

  /** A byte has been received: it is the command, or the next byte of a listen. */
  function Received(w: Wire, b: bv8): Wire
    requires |w.buffer| == 8
  {
    if !w.listening then w.(command := b, state := TStop)
    else if w.ptr < 8 then w.(buffer := w.buffer[w.ptr := b], ptr := w.ptr + 1, command := 0, state := TStop)
    else w.(command := 0, state := TStop)
  }

  lemma {:induction false} HearsBits(w: Wire, cells: seq<Cell>, b: bv8)
    requires Valid(w) && w.state.Bit? && cells != [] && |cells| == 8 - w.state.i && Spells(cells, b)
    ensures HearCells(w, cells) == Received(w, Gathered(w.command, b, |cells|))
    decreases |cells|
  {
    hide HearCell, Taken, Gathered, Received, Top, Up, WithLow;
    var n, v := |cells|, HearCell(w, cells[0]);
    if n == 1 {
      LastBit(w, cells[0], b);
      GatherLast(w.command, b);
      assert HearCells(v, cells[1..]) == v;
    } else {
      OneMoreBit(w, cells[0], b);
      HearsBits(v, cells[1..], Up(b));
      GatherOne(w.command, b, n);
      ReceivedIgnores(w, v, Gathered(v.command, Up(b), n - 1));
    }
  }

  lemma {:induction false} OneMoreBit(w: Wire, c: Cell, b: bv8)
    requires Valid(w) && w.state.Bit? && w.state.i < 7 && (c.high >= T_BIT <==> Top(b))
    ensures HearCell(w, c) == w.(command := Up(Taken(w.command, b)), state := Bit(w.state.i + 1))
  {
    HearsBit(w, c);
    hide Edge, Top, Up, WithLow;
  }

  lemma {:induction false} LastBit(w: Wire, c: Cell, b: bv8)
    requires Valid(w) && w.state == Bit(7) && (c.high >= T_BIT <==> Top(b))
    ensures HearCell(w, c) == Received(w, Taken(w.command, b))
  {
    HearsBit(w, c);
    hide Edge, Top, Up, WithLow;
  }

  lemma {:induction false} ReceivedIgnores(w: Wire, v: Wire, x: bv8)
    requires |w.buffer| == 8 && v == w.(command := v.command, state := v.state)
    ensures Received(w, x) == Received(v, x)
  {
  }

  /** Any eight bits the host sends, whatever the exact pulse lengths, are received as the byte they spell. */
  lemma {:induction false} HearsByte(w: Wire, cells: seq<Cell>, b: bv8)
    requires Valid(w) && |cells| == 8 && Spells(cells, b) && w.command == 0 && Continues(w, cells[0].low)
    ensures HearCells(w, cells) == Received(w, b)
  {
    hide Edge, HearCell, HearCells, Top, Up, WithLow;
    var v := w.(state := Bit(0));
    HearsFirstBit(w, cells[0]);
    HearsBit(v, cells[0]);
    HearsBits(v, cells, b);
    SameAfterFirst(w, v, cells);
    GathersByte(b);
  }

  lemma {:induction false} SameAfterFirst(w: Wire, v: Wire, cells: seq<Cell>)
    requires Valid(w) && Valid(v) && cells != [] && HearCell(w, cells[0]) == HearCell(v, cells[0])
    ensures HearCells(w, cells) == HearCells(v, cells)
  {
    hide HearCell;
  }

  /** A command after an attention and a sync pulse of any length within their thresholds is decoded exactly. */
  lemma {:induction false} HearsCommand(w: Wire, attention: int, sync: int, cells: seq<Cell>, b: bv8)
    requires Valid(w) && w.state == Idle && T_ATTEN <= attention < T_RESET && T_SYNC <= sync
    requires |cells| == 8 && Spells(cells, b)
    ensures var v := Edge(Edge(w, true, attention, NOTHING), false, sync, NOTHING);
      var r := HearCells(v, cells); r.state == TStop && r.command == b && r.waiting && !r.listening
  {
    var v := Edge(Edge(w, true, attention, NOTHING), false, sync, NOTHING);
    HearsByte(v, cells, b);
  }

  lemma {:induction false} DeafCell(w: Wire, c: Cell)
    requires Valid(w) && !w.listening
    ensures HearCell(w, c).ptr == w.ptr && !HearCell(w, c).listening
  {
    hide Pushed;
  }

  lemma {:induction false} DeafKeepsPtr(w: Wire, cells: seq<Cell>)
    requires Valid(w) && !w.listening
    ensures HearCells(w, cells).ptr == w.ptr && !HearCells(w, cells).listening
    decreases |cells|
  {
    hide HearCell;
    if cells != [] {
      DeafCell(w, cells[0]);
      DeafKeepsPtr(HearCell(w, cells[0]), cells[1..]);
    }
  }

  /** In a listen, the next byte is taken if and only if an odd number of bytes has come, or its first low is short:
  after an even number a long low is the stop bit, and what follows it is not heard as data. */
  lemma {:induction false} NextByteIsTaken(w: Wire, cells: seq<Cell>, b: bv8)
    requires Valid(w) && w.listening && w.state == TStop && w.command == 0 && w.ptr < 8
    requires |cells| == 8 && Spells(cells, b)
    ensures HearCells(w, cells).ptr == w.ptr + 1 <==> w.ptr % 2 == 1 || cells[0].low < T_BIT
    ensures w.ptr % 2 == 1 || cells[0].low < T_BIT ==> HearCells(w, cells).buffer == w.buffer[w.ptr := b]
  {
    if w.ptr % 2 == 1 || cells[0].low < T_BIT {
      HearsByte(w, cells, b);
    } else {
      var v := HearCell(w, cells[0]);
      assert !v.listening && v.ptr == w.ptr;
      DeafKeepsPtr(v, cells[1..]);
    }
  }

  /** The cells spell the bytes one after the other, and no byte after an even number of them starts with a long low. */
  predicate SpellsAll(cells: seq<Cell>, bytes: seq<bv8>, from: nat)
    decreases |bytes|
  {
    if bytes == [] then cells == []
    else
      && |cells| >= 8 && Spells(cells[..8], bytes[0])
      && (from % 2 == 1 || from == 0 || cells[0].low < T_BIT)
      && SpellsAll(cells[8..], bytes[1..], from + 1)
  }

  /** A listen: every byte sent under these conditions, up to the eight the device can hold, arrives in order. */
  lemma {:induction false} HearsListen(w: Wire, cells: seq<Cell>, bytes: seq<bv8>)
    requires Valid(w) && w.listening && w.command == 0 && w.ptr + |bytes| <= 8
    requires w.state == (if w.ptr == 0 then Bit(0) else TStop) && SpellsAll(cells, bytes, w.ptr)
    ensures var r := HearCells(w, cells);
      r.ptr == w.ptr + |bytes| && r.buffer[..r.ptr] == w.buffer[..w.ptr] + bytes && r.listening
    decreases |bytes|
  {
    hide HearCell, Top, Up, WithLow;
    if bytes != [] {
      var head, tail := cells[..8], cells[8..];
      assert head[0] == cells[0];
      HearsByte(w, head, bytes[0]);
      var v := HearCells(w, head);
      HearsAppend(w, head, tail);
      assert head + tail == cells;
      HearsListen(v, tail, bytes[1..]);
      assert v.buffer[..v.ptr] == w.buffer[..w.ptr] + [bytes[0]];
    }
  }

  lemma {:induction false} HearsAppend(w: Wire, a: seq<Cell>, b: seq<Cell>)
    requires Valid(w)
    ensures HearCells(w, a + b) == HearCells(HearCells(w, a), b)
    decreases |a|
  {
    hide HearCell;
    if a == [] {
      assert a + b == b;
    } else {
      assert (a + b)[1..] == a[1..] + b;
      HearsAppend(HearCell(w, a[0]), a[1..], b);
    }
  }

  // ----- a command and its reply

  /** No edge of the host takes the sender out of a state it can be ticked in, or drives the line for it. */
  lemma {:induction false} EdgeKeepsReady(w: Wire, level: bool, dtime: int, answer: Answer)
    requires Ready(w) && |answer.data| <= 8
    ensures Ready(Edge(w, level, dtime, answer)) && Edge(w, level, dtime, answer).wave == w.wave
  {
    hide Up, WithLow;
  }

  lemma {:induction false} HearingKeepsReady(w: Wire, cells: seq<Cell>)
    requires Ready(w)
    ensures Ready(HearCells(w, cells)) && HearCells(w, cells).wave == w.wave
    decreases |cells|
  {
    hide Edge;
    if cells != [] {
      var v := Edge(w, true, cells[0].low, NOTHING);
      EdgeKeepsReady(w, true, cells[0].low, NOTHING);
      EdgeKeepsReady(v, false, cells[0].high, NOTHING);
      HearingKeepsReady(HearCell(w, cells[0]), cells[1..]);
    }
  }

  /** Attention, sync and eight bits. */
  function Commanded(w: Wire, attention: int, sync: int, cells: seq<Cell>): Wire
    requires Valid(w)
  {
    HearCells(Edge(Edge(w, true, attention, NOTHING), false, sync, NOTHING), cells)
  }

  /** The levels of a wave, added up as they were armed. */
  function Armed(wave: seq<Pulse>): int {
    if wave == [] then 0 else wave[0].armed + Armed(wave[1..])
  }

  lemma {:induction false} ArmedAppend(a: seq<Pulse>, b: seq<Pulse>)
    ensures Armed(a + b) == Armed(a) + Armed(b)
    decreases |a|
  {
    if a == [] {
      assert a + b == b;
    } else {
      assert (a + b)[1..] == a[1..] + b;
      ArmedAppend(a[1..], b);
    }
  }

  /** A byte takes eight cells of 1564 cycles, whichever bits it has. */
  lemma {:induction false} ByteTime(b: bv8, n: nat)
    ensures Armed(ByteWave(b, n)) == 1564 * n
    decreases n
  {
    hide Top, Up;
    if n > 0 {
      var cell := BitWave(Top(b));
      assert cell[1..][1..] == [] && Armed(cell) == cell[0].armed + Armed(cell[1..]);
      ArmedAppend(cell, ByteWave(Up(b), n - 1));
      ByteTime(Up(b), n - 1);
    }
  }

  lemma {:induction false} BytesTime(bytes: seq<bv8>)
    ensures Armed(BytesWave(bytes)) == 12512 * |bytes|
    decreases |bytes|
  {
    if bytes != [] {
      hide ByteWave;
      ByteTime(bytes[0], 8);
      ArmedAppend(ByteWave(bytes[0], 8), BytesWave(bytes[1..]));
      BytesTime(bytes[1..]);
    }
  }

  lemma {:induction false} ReplyTime(bytes: seq<bv8>)
    ensures Armed(Reply(bytes)) == 2 * SHORT + LONG + 12512 * |bytes| + STOP - 1
  {
    hide BytesWave;
    var start := [Pulse(true, SHORT), Pulse(false, SHORT), Pulse(true, LONG)];
    var end := [Pulse(false, STOP), Pulse(true, -1)];
    assert start[1..] == [Pulse(false, SHORT), Pulse(true, LONG)] && start[1..][1..] == [Pulse(true, LONG)];
    assert start[1..][1..][1..] == [] && end[1..] == [Pulse(true, -1)] && end[1..][1..] == [];
    assert Armed(start[1..][1..][1..]) == 0 && Armed(start[1..][1..]) == LONG && Armed(start[1..]) == SHORT + LONG;
    assert Armed(end[1..][1..]) == 0 && Armed(end[1..]) == -1;
    ArmedAppend(start, BytesWave(bytes));
    ArmedAppend(start + BytesWave(bytes), end);
    BytesTime(bytes);
  }

  lemma {:induction false} DrivingAdds(w: Wire)
    requires Ready(w) && Driving(w.state)
    ensures var r := TimerStep(w); r.wave == w.wave + [Pulse(r.device, r.timer)]
  {
    hide Top, Up;
  }

  /** The time of `n` steps is that of the levels they drive, with the wait before the first for that of the last. */
  lemma {:induction false} SpanIsWave(w: Wire, n: nat)
    requires Ready(w) && if Driving(w.state) then w.timer > 0 else w.state == Idle && w.timer == -1
    ensures w.wave <= Steps(w, n).wave
    ensures Span(w, n) + Steps(w, n).timer == w.timer + Armed(Steps(w, n).wave[|w.wave|..])
    decreases n
  {
    if !Driving(w.state) {
      IdleStays(w, n);
    } else if n > 0 {
      DrivingGoesOn(w);
      DrivingAdds(w);
      hide TimerStep;
      var v := TimerStep(w);
      var last := [Pulse(v.device, v.timer)];
      SpanIsWave(v, n - 1);
      var end := Steps(v, n - 1).wave;
      assert end[|w.wave|..] == last + end[|v.wave|..];
      assert last[1..] == [];
      ArmedAppend(last, end[|v.wave|..]);
    }
  }

  /** How long an answer takes: the wait, the start bit, the bytes and the stop bit. */
  lemma {:induction false} ReplyTakes(w: Wire, bytes: seq<bv8>)
    requires Replying(w, bytes)
    ensures Span(w, 5 + 16 * |bytes|) == w.timer + 2 * SHORT + LONG + 12512 * |bytes| + STOP
  {
    hide TimerStep, Steps, Span, Reply;
    SendsReply(w, bytes);
    SpanIsWave(w, 5 + 16 * |bytes|);
    assert (w.wave + Reply(bytes))[|w.wave|..] == Reply(bytes);
    ReplyTime(bytes);
  }

  lemma {:induction false} CommandIsReady(w: Wire, attention: int, sync: int, cells: seq<Cell>)
    requires Ready(w)
    ensures Ready(Commanded(w, attention, sync, cells)) && Commanded(w, attention, sync, cells).wave == w.wave
  {
    hide Edge;
    EdgeKeepsReady(w, true, attention, NOTHING);
    EdgeKeepsReady(Edge(w, true, attention, NOTHING), false, sync, NOTHING);
    HearingKeepsReady(Edge(Edge(w, true, attention, NOTHING), false, sync, NOTHING), cells);
  }

  lemma {:induction false} AnswerIsSet(w: Wire, stop: int, answer: Answer)
    requires Ready(w) && w.state == TStop && w.waiting && !w.listening
    requires 0 < |answer.data| <= 8 && !answer.srq && !answer.listen
    ensures var v := Edge(w, true, stop, answer); Ready(v) && v.timer == T1T && Replying(v, answer.data)
  {
    assert (answer.data + w.buffer[|answer.data|..])[..|answer.data|] == answer.data;
  }

  /**
   * From a command on the line to its answer: the eight cells are heard as their byte, and once the stop bit has ended
   * and the time of the answer has gone by, in whatever slices, the line has carried the answer's waveform and is idle.
   */
  lemma {:induction false} CommandIsAnswered(w: Wire, attention: int, sync: int, cells: seq<Cell>, b: bv8, stop: int,
                                             answer: Answer, slices: seq<nat>)
    requires Ready(w) && w.state == Idle && T_ATTEN <= attention < T_RESET && T_SYNC <= sync
    requires |cells| == 8 && Spells(cells, b)
    requires 0 < |answer.data| <= 8 && !answer.srq && !answer.listen
    requires forall i :: 0 <= i < |slices| ==> slices[i] <= LIMIT
    requires T1T + 2 * SHORT + LONG + 12512 * |answer.data| + STOP <= Sum(slices)
    ensures var heard := Commanded(w, attention, sync, cells);
      && heard.command == b && Ready(Edge(heard, true, stop, answer))
      && var r := Ticks(Edge(heard, true, stop, answer), slices);
      && r.wave == w.wave + Reply(answer.data) && r.state == Idle && r.timer == -1 && r.device
      && DecodeBytes(r.wave[|w.wave| + 3..|r.wave| - 2]) == answer.data
  {
    hide HearCells, Ticks, Sum, Reply, Spells, DecodeBytes, Span, Edge;
    ReadsReply(w.wave, answer.data);
    var heard := Commanded(w, attention, sync, cells);
    HearsCommand(w, attention, sync, cells, b);
    CommandIsReady(w, attention, sync, cells);
    EdgeKeepsReady(heard, true, stop, answer);
    var v := Edge(heard, true, stop, answer);
    AnswerIsSet(heard, stop, answer);
    ReplyTakes(v, answer.data);
    ReplyIsDriven(v, answer.data, slices);
  }

  // ----- the object

  class AdbDevice {
    var host: bool
    var device: bool
    var state: Line
    var now: int
    var lastEdge: int
    var timer: int
    var command: bv8
    var waiting: bool
    var listening: bool
    var buffer: seq<bv8>
    var size: nat
    var ptr: nat
    ghost var wave: seq<Pulse>

    constructor ()
      ensures Ready(Model()) && state == Idle && timer == -1 && host && device && wave == []
      ensures now == lastEdge && !waiting && !listening
    {
      host, device, state, now, lastEdge, timer := true, true, Idle, 0, 0, -1;
      command, waiting, listening, buffer, size, ptr := 0, false, false, BLANK, 0, 0;
      wave := [];
    }

    ghost function Model(): Wire
      reads this
    {
      Wire(device, state, timer, command, waiting, listening, buffer, size, ptr, wave)
    }

    /** `writeData`. */
    method WriteData(level: bool)
      modifies this`device, this`lastEdge
      ensures device == level && lastEdge == if old(device) == level then old(lastEdge) else now
    {
      if device == level { return; }
      device := level;
      lastEdge := now;
    }

    /** Drive a level, arm the timer for it and go on. */
    method Send(level: bool, armed: int, next: Line)
      modifies this`device, this`lastEdge, this`timer, this`state, this`wave
      ensures Model() == Drive(old(Model()), level, armed, next)
    {
      WriteData(level);
      timer := armed;
      state := next;
      wave := wave + [Pulse(level, armed)];
    }

    /** The second half of a bit cell; the byte moves up, and after its last bit the next one is due. */
    method SendHigh(i: nat)
      requires Ready(Model()) && state == SendBitA(i)
      modifies this`device, this`lastEdge, this`timer, this`state, this`wave, this`buffer, this`ptr
      ensures Model() == TimerStep(old(Model()))
    {
      hide Top, Up, WithLow;
      var armed := if Top(buffer[ptr]) then LONG else SHORT;
      if i < 7 {
        buffer := buffer[ptr := Up(buffer[ptr])];
        Send(true, armed, SendBit(i + 1));
      } else {
        ptr := ptr + 1;
        Send(true, armed, if ptr == size then SendStop else SendBit(0));
      }
    }

    /** `timerTick`. */
    method TimerTick()
      requires Ready(Model())
      modifies this`device, this`lastEdge, this`timer, this`state, this`wave, this`buffer, this`ptr
      ensures Model() == TimerStep(old(Model()))
    {
      hide Top, Up, WithLow;
      timer := -1;
      match state {
        case SrqNoData => Send(true, -1, Idle);
        case TStopStart => Send(true, SHORT, TStopStartA);
        case TStopStartA => Send(false, SHORT, StartBit);
        case StartBit => Send(true, LONG, SendBit(0));
        case SendBit(i) => Send(false, if Top(buffer[ptr]) then SHORT else LONG, SendBitA(i));
        case SendBitA(i) => SendHigh(i);
        case SendStop => Send(false, STOP, SendStopA);
        case SendStopA => Send(true, -1, Idle);
        case _ =>
      }
    }

    /** `tick`: its loop runs every step that has come due. */
    method Tick(cycles: nat)
      requires Ready(Model())
      modifies this`now, this`device, this`lastEdge, this`timer, this`state, this`wave, this`buffer, this`ptr
      ensures Model() == Ticked(old(Model()), cycles) && now == old(now) + cycles
    {
      hide TimerStep;
      now := now + cycles;
      if timer < 0 { return; }
      timer := timer - cycles;
      ghost var goal := Catch(Model());
      while timer <= 0 && timer >= -LIMIT
        invariant Ready(Model()) && Catch(Model()) == goal && now == old(now) + cycles
        decreases if timer <= 0 then -timer else 0, if timer <= 0 then 1 else 0
      {
        var carry := timer;
        StepIsReady(Model());
        TimerTick();
        if timer < 0 { break; }
        timer := timer + carry;
      }
    }

    /** `setHostDrive`: the host's level reaches the devices only as a change of the wired-AND line. */
    method SetHostDrive(high: bool, answer: Answer)
      requires Valid(Model()) && |answer.data| <= 8
      modifies this
      ensures host == high && now == old(now) && wave == old(wave)
      ensures old(Ready(Model())) ==> Ready(Model())
      ensures
        if (old(host) && old(device)) == (high && old(device)) then Model() == old(Model()) && lastEdge == old(lastEdge)
        else Model() == Edge(old(Model()), high && old(device), old(now - lastEdge), answer) && lastEdge == now
    {
      var before := host && device;
      host := high;
      var level := host && device;
      if level == before { return; }
      var dtime := now - lastEdge;
      lastEdge := now;
      ghost var was := Model();
      Receive(level, dtime, answer);
      if Ready(was) { EdgeKeepsReady(was, level, dtime, answer); }
    }

    /** `receiveEdge`. */
    method Receive(level: bool, dtime: int, answer: Answer)
      requires Valid(Model()) && |answer.data| <= 8
      modifies this`device, this`state, this`timer, this`command, this`waiting, this`listening
      modifies this`buffer, this`size, this`ptr
      ensures Model() == Edge(old(Model()), level, dtime, answer)
    {
      hide BitFell, Answered;
      if listening && state == TStop && (ptr % 2 == 1 || dtime < T_BIT) { state := Bit(0); }
      match state {
        case Idle =>
          if level && dtime >= T_RESET {
            return;
          } else if level && dtime >= T_ATTEN {
            waiting, listening, state := true, false, Attention;
          }
        case Attention => if !level && dtime >= T_SYNC { command, state := 0, Bit(0); }
        case Bit(i) =>
          if !level { TakeBit(i, dtime); }
        case TStop => if level { Act(answer); }
        case WaitT1t => if !level && dtime >= T_T1T { state := RcvStartBit; }
        case RcvStartBit => if !level && dtime >= T_SYNC { state, command := Bit(0), 0; }
        case _ =>
      }
    }

    /** The end of a bit in `receiveEdge`. */
    method TakeBit(i: nat, dtime: int)
      requires Valid(Model()) && state == Bit(i)
      modifies this`state, this`command, this`buffer, this`ptr
      ensures Model() == BitFell(old(Model()), dtime >= T_BIT)
    {
      if dtime >= T_BIT { command := WithLow(command); }
      if i != 7 {
        command, state := Up(command), Bit(i + 1);
      } else {
        if listening {
          if ptr < 8 { buffer, ptr := buffer[ptr := command], ptr + 1; }
          command := 0;
        }
        state := TStop;
      }
    }

    /** The stop bit of `receiveEdge`. */
    method Act(answer: Answer)
      requires Valid(Model()) && state == TStop && |answer.data| <= 8
      modifies this`device, this`state, this`timer, this`command, this`waiting, this`listening
      modifies this`buffer, this`size, this`ptr
      ensures Model() == Answered(old(Model()), answer)
    {
      if listening { command := buffer[0]; }
      waiting, listening, size := false, answer.listen, |answer.data|;
      if answer.listen {
        command, ptr, buffer := 0, 0, BLANK;
      } else {
        buffer := answer.data + buffer[size..];
      }
      if answer.srq {
        device, state, timer := false, SrqNoData, SRQ;
      } else {
        device := true;
        if size > 0 {
          state, timer, ptr := TStopStart, T1T, 0;
        } else {
          state := if listening then WaitT1t else Idle;
        }
      }
    }
  }
}
