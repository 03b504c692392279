/** The frame clock of the DAFB video cell: a memoised tick, proved equal to one that derives the frame geometry and
divides on every call, and the bound on the time to the next interrupt. */
module Dafb {
  import opened Arithmetic
  import opened Sequences

  /** The registers the frame geometry is a function of. */
  datatype Geometry = Geometry(htotal: nat, vtotal: nat, hres: nat, vres: nat, pixelClock: nat)

  /** What can be observed of the frame clock: registers, position, completed frames, current line, interrupt bits. */
  datatype Frame = Frame(geometry: Geometry, vblOn: bool, cursorOn: bool, cursorLine: nat,
                         pos: nat, count: nat, line: nat, vbl: bool, cursor: bool)

  /** What the registers can hold, short of the value that marks the geometry as not derived yet. */
  predicate ValidGeometry(g: Geometry) {
    g.htotal < 0xffff_ffff
  }

  // ----- geometry

  /** Frame length in CPU cycles if the registers describe a frame, else 0. */
  function Programmed(g: Geometry, hz: nat): nat {
    if g.htotal != 0 && g.vtotal != 0 && g.hres != 0 && g.vres != 0 && g.pixelClock >= 1_000_000
    then g.htotal * g.vtotal * hz / g.pixelClock else 0
  }

  function FrameLen(g: Geometry, hz: nat): (n: nat)
    requires 60 <= hz
    ensures 0 < n
  {
    if Programmed(g, hz) > 0 then Programmed(g, hz) else hz / 60
  }

  function TotalLines(g: Geometry, hz: nat): (n: nat)
    requires 60 <= hz
    ensures 0 < n
  {
    if Programmed(g, hz) > 0 then g.vtotal else 525
  }

  /** The line the beam is on at a position of the frame. */
  function Line(pos: nat, len: nat, lines: nat): nat
    requires 0 < len
  {
    pos * lines / len
  }

  /** The first position of a line. */
  function At(line: nat, len: nat, lines: nat): (at: nat)
    requires 0 < lines
  {
    (line * len + lines - 1) / lines
  }

  /** A line is reached exactly from its first position on. */
  lemma {:induction false} LineReached(line: nat, pos: nat, len: nat, lines: nat)
    requires 0 < len && 0 < lines
    ensures line <= Line(pos, len, lines) <==> At(line, len, lines) <= pos
  {
    DivAtLeast(pos * lines, line, len);
    DivBounds(line * len + lines - 1, lines);
    var at := At(line, len, lines);
    if at <= pos {
      MulMonotone(at, pos, lines);
    } else {
      MulMonotone(pos + 1, at, lines);
    }
  }

  // ----- the plain clock

  /** Moving from line `from` to line `to` passes `target`; a move to a lower line has wrapped around. */
  predicate Crossed(from: nat, to: nat, target: nat) {
    if to < from then target > from || target <= to else target > from && target <= to
  }

  /** One tick with the geometry and the line computed from scratch. */
  function PlainTick(f: Frame, hz: nat, cycles: nat): Frame
    requires 60 <= hz
  {
    var len, lines := FrameLen(f.geometry, hz), TotalLines(f.geometry, hz);
    var moved := f.pos + cycles;
    var pos := if moved >= len then moved - len else moved;
    var line := Line(pos, len, lines);
    f.(pos := pos, count := if moved >= len then f.count + 1 else f.count, line := line,
       vbl := f.vbl || (f.vblOn && line != f.line && Crossed(f.line, line, 480 % lines)),
       cursor := f.cursor || (f.cursorOn && line != f.line && Crossed(f.line, line, f.cursorLine % lines)))
  }

  datatype Action =
    | Tick(cycles: nat)
    | SetGeometry(geometry: Geometry)
    | SetEnables(vblOn: bool, cursorOn: bool)
    | SetCursorLine(line: nat)
    | ClearVbl
    | ClearCursor
    | Reset

  function Plain(f: Frame, hz: nat, a: Action): Frame
    requires 60 <= hz
  {
    match a
    case Tick(cycles) => PlainTick(f, hz, cycles)
    case SetGeometry(g) => f.(geometry := g)
    case SetEnables(v, c) => f.(vblOn := v, cursorOn := c, vbl := f.vbl && v, cursor := f.cursor && c)
    case SetCursorLine(line) => f.(cursorLine := line % 0x1000)
    case ClearVbl => f.(vbl := false)
    case ClearCursor => f.(cursor := false)
    case Reset => Frame(Geometry(0, 0, 0, 0, 31334400), false, false, 0, 0, f.count, 0, false, false)
  }

  function PlainRun(f: Frame, hz: nat, acts: seq<Action>): Frame
    requires 60 <= hz
    decreases |acts|
  {
    if acts == [] then f else PlainRun(Plain(f, hz, acts[0]), hz, acts[1..])
  }

  // ----- the clock as built

  const NO_KEY := Geometry(0xffff_ffff, 0, 0, 0, 0)

  /** The published geometry belongs to its key, and the line shown is the line of the position under it. */
  ghost predicate GeometryFits(hz: nat, key: Geometry, len: int, lines: int, pos: nat, line: nat) {
    60 <= hz && (key == NO_KEY ||
      (len == FrameLen(key, hz) && lines == TotalLines(key, hz) && line == Line(pos, len, lines)))
  }

  /** A cached position is the one its key stands for. */
  ghost predicate NextLineFits(key: int, len: int, lines: int, at: int) {
    key >= 0 && len > 0 && lines > 0 ==> at == At(key + 1, len, lines)
  }

  ghost predicate EventsFit(len: int, lines: int, cursor: int, at480: int, atCursor: int) {
    len > 0 && lines > 0 && cursor >= 0 ==>
      at480 == At(480 % lines, len, lines) && atCursor == At(cursor % lines, len, lines)
  }

  class Cell {
    const hz: nat
    var geometry: Geometry
    var vblOn: bool
    var cursorOn: bool
    var cursorLine: nat
    var pos: nat
    var count: nat
    var line: nat
    var vbl: bool
    var cursor: bool

    var frameLen: int
    var totalLines: int
    var geomKey: Geometry
    var lineKey: int
    var lineKeyLen: int
    var lineKeyTot: int
    var nextLineAt: int
    var atKeyLen: int
    var atKeyTot: int
    var atKeyCursor: int
    var at480: int
    var atCursor: int

    ghost function Model(): Frame
      reads this
    {
      Frame(geometry, vblOn, cursorOn, cursorLine, pos, count, line, vbl, cursor)
    }

    ghost predicate CachesFit()
      reads this`lineKey, this`lineKeyLen, this`lineKeyTot, this`nextLineAt
      reads this`atKeyLen, this`atKeyTot, this`atKeyCursor, this`at480, this`atCursor
    {
      NextLineFits(lineKey, lineKeyLen, lineKeyTot, nextLineAt)
        && EventsFit(atKeyLen, atKeyTot, atKeyCursor, at480, atCursor)
    }

    ghost predicate Valid()
      reads this
    {
      ValidGeometry(geometry) && GeometryFits(hz, geomKey, frameLen, totalLines, pos, line) && CachesFit()
    }

    constructor (cpuHz: nat)
      requires 60 <= cpuHz
      ensures Valid() && hz == cpuHz
      ensures Model() == Frame(Geometry(0, 0, 0, 0, 31334400), false, false, 0, 0, 0, 0, false, false)
    {
      hz := cpuHz;
      geometry := Geometry(0, 0, 0, 0, 31334400);
      vblOn, cursorOn, cursorLine, pos, count, line, vbl, cursor := false, false, 0, 0, 0, 0, false, false;
      frameLen, totalLines, geomKey := 0, 0, NO_KEY;
      lineKey, lineKeyLen, lineKeyTot, nextLineAt := -1, -1, -1, 0;
      atKeyLen, atKeyTot, atKeyCursor, at480, atCursor := -1, -1, -1, 0, 0;
    }

    /** `tick`: with its geometry key and its next-line shortcut, it moves exactly as the plain clock. */
    method Tick(cycles: nat)
      requires Valid()
      modifies this
      ensures Valid() && Model() == PlainTick(old(Model()), hz, cycles)
    {
      hide FrameLen, TotalLines, Line, At, Crossed, CachesFit, PlainTick;
      ghost var f := Model();
      var wrapped, geomMoved := Advance(cycles);
      DeriveNextLine();
      if !wrapped && !geomMoved && pos < nextLineAt {
        SameLine(f.pos, pos, f.line, frameLen, totalLines);
      } else {
        Settle();
      }
      TickIs(f, hz, cycles, Model());
    }

    /** The first half of `tick`: move on, re-derive the geometry if it moved, and wrap around once. */
    method Advance(cycles: nat) returns (wrapped: bool, geomMoved: bool)
      requires Valid()
      modifies this`pos, this`count, this`geomKey, this`frameLen, this`totalLines
      ensures geomKey == geometry && geomMoved == (old(geomKey) != geometry)
      ensures frameLen == FrameLen(geometry, hz) && totalLines == TotalLines(geometry, hz)
      ensures !geomMoved ==> frameLen == old(frameLen) && totalLines == old(totalLines)
      ensures wrapped == (old(pos) + cycles >= frameLen)
      ensures pos == old(pos) + cycles - (if wrapped then frameLen else 0)
      ensures count == old(count) + (if wrapped then 1 else 0)
    {
      hide FrameLen, TotalLines, Line, At;
      pos := pos + cycles;
      geomMoved := geomKey != geometry;
      if geomMoved { DeriveGeometry(); }
      wrapped := pos >= frameLen;
      if wrapped {
        pos := pos - frameLen;
        count := count + 1;
      }
    }

    /** The second half: divide, and raise what the move has crossed. */
    method Settle()
      requires 0 < frameLen && 0 < totalLines
      modifies this`line, this`vbl, this`cursor
      ensures line == Line(pos, frameLen, totalLines)
      ensures vbl == (old(vbl) || (vblOn && line != old(line) && Crossed(old(line), line, 480 % totalLines)))
      ensures cursor ==
        (old(cursor) || (cursorOn && line != old(line) && Crossed(old(line), line, cursorLine % totalLines)))
    {
      hide Crossed;
      var now := pos * totalLines / frameLen;
      if now != line {
        var crossed480 := Crosses(now, 480 % totalLines);
        var crossedCursor := Crosses(now, cursorLine % totalLines);
        if vblOn && crossed480 { vbl := true; }
        if cursorOn && crossedCursor { cursor := true; }
        line := now;
      }
    }

    /** The move from the line shown to another has come to the target line, or past it. */
    method Crosses(now: nat, target: nat) returns (crossed: bool)
      ensures crossed == Crossed(line, now, target)
    {
      var wrap := now < line;
      if wrap {
        crossed := target > line || target <= now;
      } else {
        crossed := target > line && target <= now;
      }
    }

    /** Re-derive the geometry after one of its registers moved. */
    method DeriveGeometry()
      requires 60 <= hz && ValidGeometry(geometry)
      modifies this`geomKey, this`frameLen, this`totalLines
      ensures geomKey == geometry
      ensures frameLen == FrameLen(geometry, hz) && totalLines == TotalLines(geometry, hz)
    {
      geomKey := geometry;
      frameLen, totalLines := hz / 60, 525;
      var g := geometry;
      if g.htotal != 0 && g.vtotal != 0 && g.hres != 0 && g.vres != 0 && g.pixelClock >= 1_000_000 {
        var programmed := g.htotal * g.vtotal * hz / g.pixelClock;
        if programmed > 0 {
          frameLen, totalLines := programmed, g.vtotal;
        }
      }
    }

    /** Re-derive the position the current line ends at, if its key is stale. */
    method DeriveNextLine()
      requires CachesFit() && 0 < frameLen && 0 < totalLines
      modifies this`lineKey, this`lineKeyLen, this`lineKeyTot, this`nextLineAt
      ensures CachesFit() && nextLineAt == At(line + 1, frameLen, totalLines)
    {
      if lineKey != line || lineKeyLen != frameLen || lineKeyTot != totalLines {
        lineKey, lineKeyLen, lineKeyTot := line, frameLen, totalLines;
        nextLineAt := ((line + 1) * frameLen + totalLines - 1) / totalLines;
      }
    }

    /** `reset`, as far as it concerns the frame clock. */
    method Restart()
      requires Valid()
      modifies this`geometry, this`vblOn, this`cursorOn, this`cursorLine, this`pos, this`line, this`vbl, this`cursor
      ensures Valid() && Model() == Plain(old(Model()), hz, Reset)
    {
      hide FrameLen, TotalLines, Line, At, NextLineFits, EventsFit, Plain, GeometryFits;
      ResetFits(hz, geomKey, frameLen, totalLines, pos, line);
      ResetIs(Model(), hz);
      geometry := Geometry(0, 0, 0, 0, 31334400);
      vblOn, cursorOn, cursorLine, pos, line, vbl, cursor := false, false, 0, 0, 0, false, false;
    }

    /** Register writes and interrupt acknowledgements. */
    method Write(a: Action)
      requires Valid() && !a.Tick? && (a.SetGeometry? ==> ValidGeometry(a.geometry))
      modifies this`geometry, this`vblOn, this`cursorOn, this`cursorLine, this`pos, this`line, this`vbl, this`cursor
      ensures Valid() && Model() == Plain(old(Model()), hz, a)
    {
      hide FrameLen, TotalLines, Line, At, NextLineFits, EventsFit, PlainTick;
      match a {
        case SetGeometry(g) => geometry := g;
        case SetEnables(v, c) =>
          vblOn, cursorOn := v, c;
          if !v { vbl := false; }
          if !c { cursor := false; }
        case SetCursorLine(n) => cursorLine := n % 0x1000;
        case ClearVbl => vbl := false;
        case ClearCursor => cursor := false;
        case Reset => Restart();
      }
    }

    /** Every sequence of ticks and register writes leaves the memoised clock where the plain one is. */
    method Replay(acts: seq<Action>)
      requires Valid() && forall i :: 0 <= i < |acts| && acts[i].SetGeometry? ==> ValidGeometry(acts[i].geometry)
      modifies this
      ensures Valid() && Model() == PlainRun(old(Model()), hz, acts)
    {
      hide NextLineFits, EventsFit, PlainTick, FrameLen, TotalLines, Line;
      ghost var goal := PlainRun(Model(), hz, acts);
      assert acts[0..] == acts;
      for i := 0 to |acts|
        invariant Valid() && PlainRun(Model(), hz, acts[i..]) == goal
      {
        PlainOnce(Model(), hz, acts, i);
        if acts[i].Tick? { Tick(acts[i].cycles); } else { Write(acts[i]); }
      }
    }

    /** `cyclesToNextEvent`: refreshes its two cached positions and takes the nearer one. */
    method CyclesToNextEvent() returns (n: int)
      requires Valid()
      modifies this`atKeyLen, this`atKeyTot, this`atKeyCursor, this`at480, this`atCursor
      ensures Valid() && Model() == old(Model())
      ensures n == if frameLen <= 0 || totalLines <= 0 then FAR else NextEvent(Model(), frameLen, totalLines)
    {
      hide FrameLen, TotalLines, At, Line;
      if frameLen <= 0 || totalLines <= 0 || !(vblOn || cursorOn) { return FAR; }
      RefreshPositions();
      var best := FAR;
      if vblOn { best := Consider(best, at480); }
      if cursorOn { best := Consider(best, atCursor); }
      return if best > 0 then best else 1;
    }

    /** Re-derive the two positions if their key is stale. */
    method RefreshPositions()
      requires CachesFit() && 0 < frameLen && 0 < totalLines
      modifies this`atKeyLen, this`atKeyTot, this`atKeyCursor, this`at480, this`atCursor
      ensures CachesFit()
      ensures at480 == At(480 % totalLines, frameLen, totalLines)
      ensures atCursor == At(cursorLine % totalLines, frameLen, totalLines)
    {
      hide At;
      if atKeyLen != frameLen || atKeyTot != totalLines || atKeyCursor != cursorLine {
        atKeyLen, atKeyTot, atKeyCursor := frameLen, totalLines, cursorLine;
        at480 := PositionOf(480);
        atCursor := PositionOf(cursorLine);
      }
    }

    /** The first position of a line, taken modulo the lines of the frame. */
    method PositionOf(target: nat) returns (at: nat)
      requires 0 < frameLen && 0 < totalLines
      ensures at == At(target % totalLines, frameLen, totalLines)
    {
      var n := target % totalLines;
      at := (n * frameLen + totalLines - 1) / totalLines;
    }

    /** Take a position into account that the beam will come to. */
    method Consider(best: int, at: int) returns (n: int)
      requires 0 <= at && 0 <= frameLen
      ensures n == Nearer(best, true, Distance(at, pos, frameLen))
    {
      var d := at - pos;
      if d <= 0 { d := d + frameLen; }
      n := if d < best then d else best;
    }
  }

  /** Between the position it was read at and the start of the next line, the line does not change. */
  lemma {:induction false} SameLine(was: nat, now: nat, line: nat, len: nat, lines: nat)
    requires 0 < len && 0 < lines && was <= now && line == Line(was, len, lines) && now < At(line + 1, len, lines)
    ensures Line(now, len, lines) == line
  {
    LineReached(line + 1, now, len, lines);
    MulMonotone(was, now, lines);
    DivMonotone(was * lines, now * lines, len);
  }

  lemma {:induction false} PlainOnce(f: Frame, hz: nat, acts: seq<Action>, i: nat)
    requires 60 <= hz && i < |acts|
    ensures PlainRun(f, hz, acts[i..]) == PlainRun(Plain(f, hz, acts[i]), hz, acts[i + 1..])
  {
    hide Plain;
    assert acts[i..][1..] == acts[i + 1..];
  }

  lemma {:induction false} ResetIs(f: Frame, hz: nat)
    requires 60 <= hz
    ensures Plain(f, hz, Reset) == Frame(Geometry(0, 0, 0, 0, 31334400), false, false, 0, 0, f.count, 0, false, false)
  {
  }

  /** A tick by its parts. */
  lemma {:induction false} TickIs(f: Frame, hz: nat, cycles: nat, g: Frame)
    requires 60 <= hz && g == f.(pos := g.pos, count := g.count, line := g.line, vbl := g.vbl, cursor := g.cursor)
    requires var len, lines := FrameLen(f.geometry, hz), TotalLines(f.geometry, hz);
      && g.pos == Wrapped(f.pos + cycles, len) && g.line == Line(g.pos, len, lines)
      && g.count == f.count + (if f.pos + cycles >= len then 1 else 0)
      && g.vbl == (f.vbl || (f.vblOn && g.line != f.line && Crossed(f.line, g.line, 480 % lines)))
      && g.cursor == (f.cursor || (f.cursorOn && g.line != f.line && Crossed(f.line, g.line, f.cursorLine % lines)))
    ensures g == PlainTick(f, hz, cycles)
  {
    hide FrameLen, TotalLines, Line, Crossed;
  }

  lemma {:induction false} ResetFits(hz: nat, key: Geometry, len: int, lines: int, pos: nat, line: nat)
    requires GeometryFits(hz, key, len, lines, pos, line)
    ensures GeometryFits(hz, key, len, lines, 0, 0) && 60 <= hz
  {
    if key != NO_KEY { DivUnique(0, 0, len); }
  }

  // ----- the time to the next interrupt

  /** No event in sight. */
  const FAR := 0x7fff_ffff

  /** Cycles until the beam next comes to position `at`. */
  function Distance(at: nat, pos: nat, len: nat): int {
    if at - pos <= 0 then at - pos + len else at - pos
  }

  function Nearer(best: int, on: bool, d: int): int {
    if on && d < best then d else best
  }

  function NextEvent(f: Frame, len: nat, lines: nat): int
    requires 0 < len && 0 < lines
  {
    var best := Nearer(Nearer(FAR, f.vblOn, Distance(At(480 % lines, len, lines), f.pos, len)),
                       f.cursorOn, Distance(At(f.cursorLine % lines, len, lines), f.pos, len));
    if best > 0 then best else 1
  }

  /** The geometry is published, the position lies in the frame, and the line is the line of the position. */
  predicate Settled(f: Frame, len: nat, lines: nat) {
    0 < len && 0 < lines && f.pos < len && f.line == Line(f.pos, len, lines)
  }

  lemma {:induction false} AtInFrame(line: nat, len: nat, lines: nat)
    requires line < lines && 0 < len
    ensures At(line, len, lines) <= len
  {
    MulMonotone(line, lines - 1, len);
    DivBounds(line * len + lines - 1, lines);
    var at := At(line, len, lines);
    if len + 1 <= at {
      MulMonotone(len + 1, at, lines);
    }
  }

  function Wrapped(pos: nat, len: nat): nat {
    if pos >= len then pos - len else pos
  }

  /** Short of a target, a move crosses it neither forwards nor by wrapping around, and is that much nearer. */
  lemma {:induction false} ShortMove(pos: nat, cycles: nat, target: nat, len: nat, lines: nat)
    requires 0 < len && target < lines && pos < len
    requires cycles < Distance(At(target, len, lines), pos, len)
    ensures var to := Wrapped(pos + cycles, len);
      && to < len && Distance(At(target, len, lines), to, len) == Distance(At(target, len, lines), pos, len) - cycles
      && (Line(to, len, lines) == Line(pos, len, lines)
        || !Crossed(Line(pos, len, lines), Line(to, len, lines), target))
  {
    AtInFrame(target, len, lines);
    var to := Wrapped(pos + cycles, len);
    LineReached(target, pos, len, lines);
    LineReached(target, to, len, lines);
    if pos <= to {
      MulMonotone(pos, to, lines);
      DivMonotone(pos * lines, to * lines, len);
    }
  }

  /** A move of exactly the distance crosses the target if and only if it ends on another line than it began. */
  lemma {:induction false} ExactMove(pos: nat, target: nat, len: nat, lines: nat)
    requires 0 < len && target < lines && pos < len
    ensures var at := At(target, len, lines); var to := Wrapped(pos + Distance(at, pos, len), len);
      && to == (if at == len then 0 else at)
      && (Line(to, len, lines) != Line(pos, len, lines) ==>
            Crossed(Line(pos, len, lines), Line(to, len, lines), target))
  {
    AtInFrame(target, len, lines);
    var at := At(target, len, lines);
    var to := if at == len then 0 else at;
    LineReached(target, pos, len, lines);
    LineReached(target, to, len, lines);
    if to <= pos {
      MulMonotone(to, pos, lines);
      DivMonotone(to * lines, pos * lines, len);
    }
  }

  function Ticks(f: Frame, hz: nat, ticks: seq<nat>): Frame
    requires 60 <= hz
    decreases |ticks|
  {
    if ticks == [] then f else Ticks(PlainTick(f, hz, ticks[0]), hz, ticks[1..])
  }

  lemma {:induction false} QuietTick(f: Frame, hz: nat, cycles: nat)
    requires 60 <= hz && Settled(f, FrameLen(f.geometry, hz), TotalLines(f.geometry, hz)) && (f.vblOn || f.cursorOn)
    requires cycles < NextEvent(f, FrameLen(f.geometry, hz), TotalLines(f.geometry, hz))
    ensures var g, len, lines := PlainTick(f, hz, cycles), FrameLen(f.geometry, hz), TotalLines(f.geometry, hz);
      && g.geometry == f.geometry && g.vbl == f.vbl && g.cursor == f.cursor && Settled(g, len, lines)
      && NextEvent(f, len, lines) - cycles <= NextEvent(g, len, lines)
  {
    hide FrameLen, TotalLines, Line, At, Crossed;
    var len, lines := FrameLen(f.geometry, hz), TotalLines(f.geometry, hz);
    if f.vblOn { ShortMove(f.pos, cycles, 480 % lines, len, lines); }
    if f.cursorOn { ShortMove(f.pos, cycles, f.cursorLine % lines, len, lines); }
  }

  /** With the geometry settled, no sequence of ticks that falls short of the announced time raises an interrupt. */
  lemma {:induction false} EarlyTicksAreQuiet(f: Frame, hz: nat, ticks: seq<nat>)
    requires 60 <= hz && Settled(f, FrameLen(f.geometry, hz), TotalLines(f.geometry, hz))
    requires Sum(ticks) < NextEvent(f, FrameLen(f.geometry, hz), TotalLines(f.geometry, hz))
    ensures Ticks(f, hz, ticks).vbl == f.vbl && Ticks(f, hz, ticks).cursor == f.cursor
    decreases |ticks|
  {
    hide FrameLen, TotalLines, Line, At, Crossed, PlainTick, NextEvent;
    if !f.vblOn && !f.cursorOn {
      DisabledTicksAreQuiet(f, hz, ticks);
    } else if ticks != [] {
      QuietTick(f, hz, ticks[0]);
      SameEnables(f, hz, ticks[0]);
      EarlyTicksAreQuiet(PlainTick(f, hz, ticks[0]), hz, ticks[1..]);
    }
  }

  lemma {:induction false} SameEnables(f: Frame, hz: nat, cycles: nat)
    requires 60 <= hz
    ensures var g := PlainTick(f, hz, cycles);
      g.vblOn == f.vblOn && g.cursorOn == f.cursorOn && g.geometry == f.geometry
  {
    hide FrameLen, TotalLines, Line, Crossed;
  }

  lemma {:induction false} DisabledTicksAreQuiet(f: Frame, hz: nat, ticks: seq<nat>)
    requires 60 <= hz && !f.vblOn && !f.cursorOn
    ensures Ticks(f, hz, ticks).vbl == f.vbl && Ticks(f, hz, ticks).cursor == f.cursor
    decreases |ticks|
  {
    hide FrameLen, TotalLines, Line, Crossed;
    if ticks != [] { DisabledTicksAreQuiet(PlainTick(f, hz, ticks[0]), hz, ticks[1..]); }
  }

  /** One tick of just the announced time raises the VBL interrupt, with only that one enabled, if and only if the
  beam is not already on the line the tick ends on: a tick from within line 480 to its start is a frame long and
  goes unnoticed. */
  lemma {:induction false} ExactTickRaisesVbl(f: Frame, hz: nat, len: nat, lines: nat)
    requires 60 <= hz && len == FrameLen(f.geometry, hz) && lines == TotalLines(f.geometry, hz)
    requires Settled(f, len, lines) && f.vblOn && !f.cursorOn && !f.vbl && NextEvent(f, len, lines) < FAR
    ensures var at := At(480 % lines, len, lines);
      PlainTick(f, hz, NextEvent(f, len, lines)).vbl <==> f.line != Line(if at == len then 0 else at, len, lines)
  {
    hide FrameLen, TotalLines, Line, At, Crossed;
    ExactMove(f.pos, 480 % lines, len, lines);
    DistanceIsPositive(480 % lines, f.pos, len, lines);
  }

  /** So it goes after every interrupt that was met exactly: with the beam at the start of line 480 and the interrupt
  acknowledged, a frame is announced, and one tick of that length raises nothing. */
  lemma {:induction false} NextFrameIsMissed(f: Frame, hz: nat, len: nat, lines: nat)
    requires 60 <= hz && len == FrameLen(f.geometry, hz) < FAR && lines == TotalLines(f.geometry, hz)
    requires Settled(f, len, lines) && f.pos == At(480 % lines, len, lines)
    requires f.vblOn && !f.cursorOn && !f.vbl
    ensures NextEvent(f, len, lines) == len && !PlainTick(f, hz, len).vbl
  {
    hide FrameLen, TotalLines, Line, At, Crossed;
  }

  /** Such a state is reached from a reset: enable the interrupt, tick up to it, and acknowledge it. */
  lemma {:induction false} FrameGoesUnnoticed(f: Frame)
    ensures var hz, acts := 25_000_000, [Reset, SetEnables(true, false), Tick(380_952), ClearVbl];
      var g := PlainRun(f, hz, acts);
      && NextEvent(PlainRun(f, hz, acts[..2]), 416_666, 525) == 380_952 && PlainRun(f, hz, acts[..3]).vbl
      && Settled(g, 416_666, 525) && NextEvent(g, 416_666, 525) == 416_666 && !PlainTick(g, hz, 416_666).vbl
  {
    var hz, acts := 25_000_000, [Reset, SetEnables(true, false), Tick(380_952), ClearVbl];
    var none := Geometry(0, 0, 0, 0, 31_334_400);
    assert FrameLen(none, hz) == 416_666 && TotalLines(none, hz) == 525;
    assert At(480, 416_666, 525) == 380_952 && Line(380_952, 416_666, 525) == 480 && Line(0, 416_666, 525) == 0;
    var f1 := Plain(f, hz, acts[0]);
    var f2 := Plain(f1, hz, acts[1]);
    var f3 := Plain(f2, hz, acts[2]);
    RunOfFour(f, hz, acts);
    NextFrameIsMissed(Plain(f3, hz, acts[3]), hz, 416_666, 525);
  }

  lemma {:induction false} RunOfFour(f: Frame, hz: nat, acts: seq<Action>)
    requires 60 <= hz && |acts| == 4
    ensures var f2 := Plain(Plain(f, hz, acts[0]), hz, acts[1]); var f3 := Plain(f2, hz, acts[2]);
      && PlainRun(f, hz, acts[..2]) == f2 && PlainRun(f, hz, acts[..3]) == f3
      && PlainRun(f, hz, acts) == Plain(f3, hz, acts[3])
  {
    hide Plain;
    var f1 := Plain(f, hz, acts[0]);
    assert acts[..2][1..] == [acts[1]] && [acts[1]][1..] == [];
    assert PlainRun(f1, hz, [acts[1]]) == PlainRun(Plain(f1, hz, acts[1]), hz, []);
    var a, f2 := acts[1..], Plain(f1, hz, acts[1]);
    assert acts[..3][1..] == a[..2] && a[..2][1..] == [acts[2]] && [acts[2]][1..] == [];
    assert PlainRun(f2, hz, [acts[2]]) == PlainRun(Plain(f2, hz, acts[2]), hz, []);
    var f3 := Plain(f2, hz, acts[2]);
    assert a[1..] == acts[2..] && acts[2..][1..] == [acts[3]] && [acts[3]][1..] == [];
    assert PlainRun(f2, hz, acts[2..]) == PlainRun(f3, hz, [acts[3]]);
    assert PlainRun(f3, hz, [acts[3]]) == PlainRun(Plain(f3, hz, acts[3]), hz, []);
  }

  lemma {:induction false} DistanceIsPositive(target: nat, pos: nat, len: nat, lines: nat)
    requires 0 < len && target < lines && pos < len
    ensures 0 < Distance(At(target, len, lines), pos, len)
  {
    hide At;
  }
}
