/** The ATA drive: a task file, a one-sector buffer behind a 16-bit data register, and an image of 512-byte sectors.

What IDENTIFY reports is a parameter. The write-back file and the save-state history follow the image and are left
out. */
module AtaDisk {
  import opened Sequences

  type Word = w: int | 0 <= w < 0x1_0000

  const SIZE := 512
  const WORDS := 256
  const ABRT: Byte := 0x04
  const IDNF: Byte := 0x10

  type Sector = s: seq<Byte> | |s| == SIZE witness seq(SIZE, i => 0)

  /** What the buffer holds before data is written to it. */
  function Blank(): (s: Sector)
    ensures forall i :: 0 <= i < SIZE ==> s[i] == 0
  {
    seq(SIZE, i => 0)
  }

  /** The status bits a drive that is never busy shows. */
  datatype Status = Status(drdy: bool, dsc: bool, drq: bool, err: bool)

  const READY := Status(true, true, false, false)
  const REQUEST := Status(true, true, true, false)

  /** Heads, and sectors per track. */
  datatype Geometry = Geometry(heads: nat, track: nat)

  datatype TaskFile = TaskFile(count: Byte, low: Byte, mid: Byte, high: Byte, device: Byte)

  /** What the host sees of the drive: status, error and interrupt, and the bits of Device Control. */
  datatype Lines = Lines(status: Status, error: Byte, irq: bool, nIen: bool, srst: bool)

  /** The sector buffer, the position in it, and the sectors still to go. */
  datatype Transfer = Transfer(buffer: seq<Byte>, at: nat, pending: nat, writing: bool, current: nat)

  datatype Drive = Drive(image: seq<Sector>, geometry: Geometry, task: TaskFile, lines: Lines, transfer: Transfer) {
    const heads := geometry.heads
    const track := geometry.track
    const count := task.count
    const device := task.device
    const status := lines.status
    const buffer := transfer.buffer
    const at := transfer.at
    const pending := transfer.pending
    const writing := transfer.writing
    const current := transfer.current

    function Show(s: Status): Drive {
      this.(lines := lines.(status := s))
    }
  }

  // ----- addresses

  predicate Lba(device: Byte) {
    device / 64 % 2 == 1
  }

  /** `address`: by LBA, or by cylinder, head and a sector that counts from one. */
  function Address(d: Drive): nat {
    var t := d.task;
    if Lba(t.device) then ((t.device % 16 * 256 + t.high) * 256 + t.mid) * 256 + t.low
    else ((t.high * 256 + t.mid) * d.heads + t.device % 16) * d.track + (if t.low == 0 then 0 else t.low - 1)
  }

  function Shown(t: TaskFile, lba: nat): TaskFile {
    DeviceDigits(t.device, lba / 0x100_0000 % 16);
    t.(low := lba % 256, mid := lba / 0x100 % 256, high := lba / 0x1_0000 % 256,
       device := t.device / 16 * 16 + lba / 0x100_0000 % 16)
  }

  /** `setAddress`: show an LBA in the task file, in LBA mode only. */
  function WithAddress(d: Drive, lba: nat): Drive {
    if !Lba(d.device) then d
    else d.(task := Shown(d.task, lba))
  }

  /** The task file shows the LBA it was set to. */
  lemma {:induction false} AddressShown(d: Drive, lba: nat)
    requires Lba(d.device) && lba < 0x1000_0000
    ensures Address(WithAddress(d, lba)) == lba
  {
    LbaDigits(lba);
    DeviceDigits(d.device, lba / 0x100_0000 % 16);
  }

  lemma {:induction false} LbaDigits(lba: nat)
    requires lba < 0x1000_0000
    ensures ((lba / 0x100_0000 % 16 * 256 + lba / 0x1_0000 % 256) * 256 + lba / 0x100 % 256) * 256 + lba % 256 == lba
  {
    var a, b, c := lba / 0x100, lba / 0x1_0000, lba / 0x100_0000;
    assert b == a / 256 && c == b / 256 && c < 16;
    assert lba == a * 256 + lba % 256 && a == b * 256 + a % 256 && b == c * 256 + b % 256;
  }

  lemma {:induction false} DeviceDigits(device: Byte, c: int)
    requires 0 <= c < 16
    ensures var e := device / 16 * 16 + c; 0 <= e < 256 && e % 16 == c && e / 64 == device / 64
  {
  }

  // ----- transfers

  function Raised(d: Drive): Drive {
    d.(lines := d.lines.(irq := d.lines.irq || !d.lines.nIen))
  }

  function Failed(d: Drive, code: Byte): Drive {
    Raised(d.(lines := d.lines.(status := d.status.(drq := false, err := true, drdy := true), error := code),
              transfer := Transfer([], 0, 0, false, d.current)))
  }

  function Sectors(count: Byte): nat {
    if count == 0 then 256 else count
  }

  function LoadSector(d: Drive): Drive
    requires d.current < |d.image|
  {
    Raised(d.(transfer := d.transfer.(buffer := d.image[d.current], at := 0)).Show(REQUEST))
  }

  function StartRead(d: Drive): Drive {
    var lba, n := Address(d), Sectors(d.count);
    var e := d.(transfer := d.transfer.(current := lba, pending := n));
    if lba + n > |d.image| then Failed(e, IDNF) else LoadSector(e.(transfer := e.transfer.(writing := false)))
  }

  function StartWrite(d: Drive): Drive {
    var lba, n := Address(d), Sectors(d.count);
    var e := d.(transfer := d.transfer.(current := lba, pending := n));
    if lba + n > |d.image| then Failed(e, IDNF)
    else d.(transfer := Transfer(Blank(), 0, n, true, lba)).Show(REQUEST)
  }

  /** The buffer has been read to its end. */
  function NextReadSector(d: Drive): Drive
    requires d.pending > 1 ==> d.current + 1 < |d.image|
  {
    if d.writing then d
    else if d.pending <= 1 then WithAddress(d.(transfer := Transfer([], 0, 0, false, d.current)).Show(READY), d.current)
    else
      var e := d.(transfer := d.transfer.(pending := d.pending - 1, current := d.current + 1));
      LoadSector(WithAddress(e, d.current + 1))
  }

  /** The buffer has been written to its end. */
  function CommitSector(d: Drive): Drive
    requires |d.buffer| == SIZE && (d.pending > 0 ==> d.current < |d.image|)
  {
    if d.pending == 0 then Raised(d.(transfer := d.transfer.(at := 0, writing := false)).Show(READY))
    else
      var e := d.(image := d.image[d.current := d.buffer]);
      if d.pending == 1 then
        Raised(WithAddress(e.(transfer := Transfer([], 0, 0, false, d.current)).Show(READY), d.current))
      else
        Raised(WithAddress(e.(transfer := Transfer(Blank(), 0, d.pending - 1, d.writing, d.current + 1)).Show(REQUEST),
                           d.current + 1))
  }

  /** What no action can break: the buffer is empty or a sector, and the sectors still to go lie on the medium. */
  predicate Safe(d: Drive) {
    && (|d.buffer| == 0 || |d.buffer| == SIZE)
    && 0 < d.heads <= 16 && 0 < d.track && d.pending <= 256
    && (d.pending > 0 ==> d.current + d.pending <= |d.image|)
  }

  /** The loader's own checks on a saved state. */
  predicate Loadable(d: Drive) {
    Safe(d) && d.at <= |d.buffer| && d.at % 2 == 0
  }

  /** The low byte comes first. */
  function Pair(low: int, high: int): int {
    low + 256 * high
  }

  function WordAt(d: Drive): Word {
    if d.at + 1 < |d.buffer| then Pair(d.buffer[d.at], d.buffer[d.at + 1]) else 0
  }

  /** `readData`: the state after one word has been read. */
  function AfterRead(d: Drive): Drive
    requires Safe(d)
  {
    if d.buffer == [] then d else
    var e := d.(transfer := d.transfer.(at := d.at + 2));
    if e.at >= |e.buffer| then NextReadSector(e) else e
  }

  function Put(buffer: seq<Byte>, at: nat, w: Word): (r: seq<Byte>)
    requires at + 1 < |buffer|
    ensures |r| == |buffer|
  {
    buffer[at := w % 256][at + 1 := w / 256]
  }

  /** `writeData`: the state after one word has been written. */
  function AfterWrite(d: Drive, w: Word): Drive
    requires Safe(d)
  {
    if !d.writing || d.buffer == [] then d else
    var b := if d.at + 1 < |d.buffer| then Put(d.buffer, d.at, w) else d.buffer;
    var e := d.(transfer := d.transfer.(buffer := b, at := d.at + 2));
    if e.at >= |e.buffer| then CommitSector(e) else e
  }

  // ----- commands and registers

  /** Commands that fill or hand out the drive's own buffer, without the medium. */
  function BufferCommand(d: Drive, op: Byte, identity: Sector): Drive {
    if op == 0xEC then Raised(d.(transfer := Transfer(identity, 0, 0, false, d.current)).Show(REQUEST))
    else if op == 0xE4 then
      var b := if |d.buffer| == SIZE then d.buffer else Blank();
      Raised(d.(transfer := Transfer(b, 0, 0, false, d.current)).Show(REQUEST))
    else d.(transfer := Transfer(Blank(), 0, 0, true, d.current)).Show(REQUEST)
  }

  /** Commands that move no data. */
  function QuietCommand(d: Drive, op: Byte): Drive {
    if op == 0x91 then
      Raised(d.(geometry := Geometry(d.device % 16 + 1, if d.count == 0 then 1 else d.count)).Show(READY))
    else if op == 0x90 then Raised(d.(lines := d.lines.(error := 1, status := READY)))
    else Raised(d.Show(READY))
  }

  function Cleared(l: Lines): Lines {
    l.(error := 0, status := l.status.(err := false))
  }

  /** `command`. An operation the drive does not know is aborted, as is any on an absent drive. */
  function AfterCommand(d: Drive, op: Byte, identity: Sector): Drive {
    var e := d.(lines := Cleared(d.lines));
    if |d.image| == 0 then Failed(e, ABRT)
    else if op == 0x20 || op == 0x21 then StartRead(e)
    else if op == 0x30 || op == 0x31 then StartWrite(e)
    else if op == 0xEC || op == 0xE4 || op == 0xE8 then BufferCommand(e, op, identity)
    else if op in {0x40, 0x41, 0x90, 0x91, 0xE7, 0xEA, 0xEF} then QuietCommand(e, op)
    else Failed(e, ABRT)
  }

  /** `reset`: the signature of an ATA drive, or of an empty bus. */
  function AfterReset(d: Drive): Drive {
    var here := |d.image| > 0;
    var one := if here then 1 else 0;
    d.(lines := d.lines.(status := Status(here, here, false, false), error := one, irq := false),
       task := TaskFile(one, one, 0, 0, 0), transfer := Transfer([], 0, 0, false, d.current))
  }

  function AfterControl(d: Drive, v: Byte): Drive {
    var hold := v / 4 % 2 == 1;
    var e := if !hold && d.lines.srst then AfterReset(d) else d;
    e.(lines := e.lines.(srst := hold, nIen := v / 2 % 2 == 1))
  }

  datatype Action =
    | SetCount(v: Byte) | SetLow(v: Byte) | SetMid(v: Byte) | SetHigh(v: Byte) | SetDevice(v: Byte)
    | Command(op: Byte, identity: Sector) | Control(v: Byte) | ReadStatus | ReadWord | WriteWord(w: Word)

  function Next(d: Drive, a: Action): Drive
    requires Safe(d)
  {
    match a
    case SetCount(v) => d.(task := d.task.(count := v))
    case SetLow(v) => d.(task := d.task.(low := v))
    case SetMid(v) => d.(task := d.task.(mid := v))
    case SetHigh(v) => d.(task := d.task.(high := v))
    case SetDevice(v) => d.(task := d.task.(device := v))
    case Command(op, identity) => AfterCommand(d, op, identity)
    case Control(v) => AfterControl(d, v)
    case ReadStatus => d.(lines := d.lines.(irq := false))
    case ReadWord => AfterRead(d)
    case WriteWord(w) => AfterWrite(d, w)
  }

  // ----- every state can be saved and loaded

  /** A drive in use also stands within its sector. */
  predicate Sound(d: Drive) {
    Loadable(d) && (d.writing ==> |d.buffer| == SIZE && d.at < SIZE)
  }

  lemma {:induction false} StartsAreSound(d: Drive)
    requires Sound(d)
    ensures Sound(StartRead(d)) && Sound(StartWrite(d))
  {
    hide Address;
  }

  lemma {:induction false} OthersAreSound(d: Drive, op: Byte, identity: Sector)
    requires Sound(d)
    ensures Sound(BufferCommand(d, op, identity)) && Sound(QuietCommand(d, op)) && Sound(Failed(d, ABRT))
  {
  }

  lemma {:induction false} CommandIsSound(d: Drive, op: Byte, identity: Sector)
    requires Sound(d)
    ensures Sound(AfterCommand(d, op, identity))
  {
    var e := d.(lines := Cleared(d.lines));
    assert Sound(e);
    StartsAreSound(e);
    OthersAreSound(e, op, identity);
    hide Sound, StartRead, StartWrite, BufferCommand, QuietCommand, Failed;
  }

  /** A word read outside a write command keeps the drive sound. */
  lemma {:induction false} ReadIsSound(d: Drive)
    requires Sound(d) && !d.writing
    ensures Sound(AfterRead(d))
  {
    hide Lba;
  }

  /** So does any word written. */
  lemma {:induction false} WriteIsSound(d: Drive, w: Word)
    requires Sound(d)
    ensures Sound(AfterWrite(d, w))
  {
    hide Lba;
  }

  lemma {:induction false} CommandIsSafe(d: Drive, op: Byte, identity: Sector)
    requires Safe(d)
    ensures var e := AfterCommand(d, op, identity); Safe(e) && (Loadable(d) ==> Loadable(e))
  {
    hide Address;
  }

  lemma {:induction false} ReadIsSafe(d: Drive)
    requires Safe(d)
    ensures Safe(AfterRead(d))
  {
    hide Lba;
  }

  lemma {:induction false} WriteIsSafe(d: Drive, w: Word)
    requires Safe(d)
    ensures var e := AfterWrite(d, w); Safe(e) && (Loadable(d) ==> Loadable(e))
  {
    hide Lba;
  }

  /** No action can make the drive reach outside its buffer or its image. */
  lemma {:induction false} NextIsSafe(d: Drive, a: Action)
    requires Safe(d)
    ensures Safe(Next(d, a))
  {
    hide AfterCommand, AfterRead, AfterWrite;
    match a {
      case Command(op, identity) => CommandIsSafe(d, op, identity);
      case ReadWord => ReadIsSafe(d);
      case WriteWord(w) => WriteIsSafe(d, w);
      case _ =>
    }
  }

  /** Any run, whatever is written to the registers and whatever commands are given. */
  function Run(d: Drive, acts: seq<Action>): (r: Drive)
    requires Safe(d)
    ensures Safe(r)
    decreases |acts|
  {
    if acts == [] then d else
    NextIsSafe(d, acts[0]);
    Run(Next(d, acts[0]), acts[1..])
  }

  /** A word is read in a write command whose buffer position is at the end of the sector. */
  predicate Overreads(d: Drive, a: Action) {
    a.ReadWord? && d.writing && d.at == SIZE
  }

  /** An action in a loadable state leaves one that is not exactly when it overreads. */
  lemma {:induction false} NextIsLoadable(d: Drive, a: Action)
    requires Loadable(d)
    ensures Loadable(Next(d, a)) <==> !Overreads(d, a)
  {
    hide AfterCommand, AfterRead, AfterWrite;
    match a {
      case Command(op, identity) => CommandIsSafe(d, op, identity);
      case ReadWord => ReadIsLoadable(d);
      case WriteWord(w) => WriteIsSafe(d, w);
      case _ =>
    }
  }

  lemma {:induction false} ReadIsLoadable(d: Drive)
    requires Loadable(d)
    ensures Loadable(AfterRead(d)) <==> !(d.writing && d.at == SIZE)
  {
    hide Lba;
  }

  /** A run is its first action and the run of the others. */
  lemma {:induction false} RunFromSecond(d: Drive, acts: seq<Action>, i: nat)
    requires Safe(d) && 0 < i <= |acts|
    ensures Safe(Next(d, acts[0])) && Run(d, acts[..i]) == Run(Next(d, acts[0]), acts[1..][..i - 1])
  {
    hide Next;
    NextIsSafe(d, acts[0]);
    assert acts[..i][1..] == acts[1..][..i - 1];
  }

  lemma {:induction false} LoadsFromSecond(d: Drive, acts: seq<Action>)
    requires Safe(d) && Loadable(d) && acts != [] && Safe(Next(d, acts[0]))
    ensures (forall i :: 0 <= i <= |acts| ==> Loadable(Run(d, acts[..i]))) <==>
            (forall i :: 0 <= i <= |acts[1..]| ==> Loadable(Run(Next(d, acts[0]), acts[1..][..i])))
  {
    hide Next, Loadable;
    var e, rest := Next(d, acts[0]), acts[1..];
    assert Run(d, acts[..0]) == d;
    if forall i :: 0 <= i <= |acts| ==> Loadable(Run(d, acts[..i])) {
      forall i | 0 <= i <= |rest|
        ensures Loadable(Run(e, rest[..i]))
      { RunFromSecond(d, acts, i + 1); }
    }
    if forall i :: 0 <= i <= |rest| ==> Loadable(Run(e, rest[..i])) {
      forall i | 0 < i <= |acts|
        ensures Loadable(Run(d, acts[..i]))
      { RunFromSecond(d, acts, i); }
    }
  }

  lemma {:induction false} OverreadsFromSecond(d: Drive, acts: seq<Action>)
    requires Safe(d) && acts != [] && !Overreads(d, acts[0]) && Safe(Next(d, acts[0]))
    ensures (forall i :: 0 <= i < |acts| ==> !Overreads(Run(d, acts[..i]), acts[i])) <==>
            (forall i :: 0 <= i < |acts[1..]| ==> !Overreads(Run(Next(d, acts[0]), acts[1..][..i]), acts[1..][i]))
  {
    hide Next, Overreads;
    var e, rest := Next(d, acts[0]), acts[1..];
    assert Run(d, acts[..0]) == d;
    if forall i :: 0 <= i < |acts| ==> !Overreads(Run(d, acts[..i]), acts[i]) {
      forall i | 0 <= i < |rest|
        ensures !Overreads(Run(e, rest[..i]), rest[i])
      { RunFromSecond(d, acts, i + 1); assert rest[i] == acts[i + 1]; }
    }
    if forall i :: 0 <= i < |rest| ==> !Overreads(Run(e, rest[..i]), rest[i]) {
      forall i | 0 < i < |acts|
        ensures !Overreads(Run(d, acts[..i]), acts[i])
      { RunFromSecond(d, acts, i); assert rest[i - 1] == acts[i]; }
    }
  }

  /** Every state of a run passes the loader's checks if and only if no action of it overreads. */
  lemma {:induction false} RunIsLoadable(d: Drive, acts: seq<Action>)
    requires Loadable(d)
    ensures (forall i :: 0 <= i <= |acts| ==> Loadable(Run(d, acts[..i]))) <==>
            (forall i :: 0 <= i < |acts| ==> !Overreads(Run(d, acts[..i]), acts[i]))
    decreases |acts|
  {
    assert Safe(d);
    hide Next, Loadable, Overreads;
    assert Run(d, acts[..0]) == d;
    if acts != [] {
      var e, rest := Next(d, acts[0]), acts[1..];
      NextIsSafe(d, acts[0]);
      NextIsLoadable(d, acts[0]);
      RunFromSecond(d, acts, 1);
      assert Run(e, rest[..0]) == e;
      if Loadable(e) {
        RunIsLoadable(e, rest);
        LoadsFromSecond(d, acts);
        OverreadsFromSecond(d, acts);
      }
    }
  }

  /** Data is only read outside write commands. */
  ghost predicate Polite(d: Drive, acts: seq<Action>)
    requires Safe(d)
  {
    forall i :: 0 <= i < |acts| && acts[i].ReadWord? ==> !Run(d, acts[..i]).writing
  }

  /** A driver that reads data only outside write commands never overreads. */
  lemma {:induction false} PoliteRunIsLoadable(d: Drive, acts: seq<Action>)
    requires Loadable(d) && Polite(d, acts)
    ensures forall i :: 0 <= i <= |acts| ==> Loadable(Run(d, acts[..i]))
  {
    hide Next, Loadable;
    RunIsLoadable(d, acts);
  }

  function Reads(d: Drive, n: nat): (r: Drive)
    requires Safe(d)
    ensures Safe(r)
    decreases n
  {
    if n == 0 then d else
    ReadIsSafe(d);
    Reads(AfterRead(d), n - 1)
  }

  /** Reading data during a write command gets there: one word past the sector, and from then on no number of reads
  makes the state loadable again. */
  lemma {:induction false} ReadsInWriteBreak(d: Drive, n: nat)
    requires Safe(d) && d.writing && |d.buffer| == SIZE && d.at + 2 * n > SIZE
    ensures !Loadable(Reads(d, n))
    decreases n
  {
    if n > 0 {
      assert AfterRead(d) == d.(transfer := d.transfer.(at := d.at + 2));
      ReadsInWriteBreak(AfterRead(d), n - 1);
    }
  }

  // ----- writing sectors

  /** Sector `k` of a stream of words. */
  function SectorOf(ws: seq<Word>, k: nat): (s: Sector)
    requires WORDS * (k + 1) <= |ws|
  {
    seq(SIZE, b requires 0 <= b < SIZE =>
      if b % 2 == 0 then ws[WORDS * k + b / 2] % 256 else ws[WORDS * k + b / 2] / 256)
  }

  /** The image with the first `k` sectors of the stream stored from `lba` on. */
  ghost predicate Stored(image: seq<Sector>, was: seq<Sector>, lba: nat, ws: seq<Word>, k: nat)
    requires WORDS * k <= |ws|
  {
    && |image| == |was|
    && (forall s :: 0 <= s < |image| && !(lba <= s < lba + k) ==> image[s] == was[s])
    && (forall i :: 0 <= i < k && lba + i < |image| ==> image[lba + i] == SectorOf(ws, i))
  }

  ghost predicate Half(buffer: seq<Byte>, ws: seq<Word>, k: nat, i: nat)
    requires WORDS * k + i <= |ws|
  {
    |buffer| == SIZE && forall m :: 0 <= m < i && m < WORDS ==>
      buffer[2 * m] == ws[WORDS * k + m] % 256 && buffer[2 * m + 1] == ws[WORDS * k + m] / 256
  }

  /** A write of `n` sectors from `lba`: `k` are stored, and `i` words of the next one are in the buffer. */
  ghost predicate Writing(d: Drive, was: seq<Sector>, lba: nat, n: nat, ws: seq<Word>, k: nat, i: nat)
    requires WORDS * n <= |ws|
  {
    && k < n && i < WORDS && lba + n <= |was| && n <= 256
    && d.writing && d.status == REQUEST && d.at == 2 * i && d.pending == n - k && d.current == lba + k
    && Loadable(d) && Stored(d.image, was, lba, ws, k) && Half(d.buffer, ws, k, i)
  }

  /** The write is over. */
  ghost predicate WriteDone(d: Drive, was: seq<Sector>, lba: nat, n: nat, ws: seq<Word>)
    requires WORDS * n <= |ws|
  {
    && !d.writing && d.status == READY && d.pending == 0 && d.buffer == [] && Loadable(d)
    && Stored(d.image, was, lba, ws, n)
  }

  lemma {:induction false} HalfMore(buffer: seq<Byte>, ws: seq<Word>, k: nat, i: nat)
    requires WORDS * k + i < |ws| && i < WORDS && Half(buffer, ws, k, i)
    ensures Half(Put(buffer, 2 * i, ws[WORDS * k + i]), ws, k, i + 1)
  {
  }

  lemma {:induction false} HalfIsWhole(buffer: seq<Byte>, ws: seq<Word>, k: nat)
    requires WORDS * (k + 1) <= |ws| && Half(buffer, ws, k, WORDS)
    ensures buffer == SectorOf(ws, k)
  {
    forall b | 0 <= b < SIZE
      ensures buffer[b] == SectorOf(ws, k)[b]
    {
      assert b == 2 * (b / 2) + b % 2;
      assert buffer[2 * (b / 2)] == ws[WORDS * k + b / 2] % 256;
    }
  }

  lemma {:induction false} StoredMore(image: seq<Sector>, was: seq<Sector>, lba: nat, ws: seq<Word>, k: nat)
    requires WORDS * (k + 1) <= |ws| && lba + k < |image| && Stored(image, was, lba, ws, k)
    ensures Stored(image[lba + k := SectorOf(ws, k)], was, lba, ws, k + 1)
  {
  }

  /** A word within a sector. */
  lemma {:induction false} WritesWord(d: Drive, was: seq<Sector>, lba: nat, n: nat, ws: seq<Word>, k: nat, i: nat)
    requires WORDS * n <= |ws| && i + 1 < WORDS && Writing(d, was, lba, n, ws, k, i)
    ensures Writing(AfterWrite(d, ws[WORDS * k + i]), was, lba, n, ws, k, i + 1)
  {
    hide Half, Stored;
    HalfMore(d.buffer, ws, k, i);
    HalfSize(d.buffer, ws, k, i);
  }

  lemma {:induction false} HalfSize(buffer: seq<Byte>, ws: seq<Word>, k: nat, i: nat)
    requires WORDS * k + i <= |ws| && Half(buffer, ws, k, i)
    ensures |buffer| == SIZE
  {
  }

  /** The last word of a sector stores it, and ends the command if it is the last sector. */
  lemma {:induction false} WritesSector(d: Drive, was: seq<Sector>, lba: nat, n: nat, ws: seq<Word>, k: nat)
    requires WORDS * n <= |ws| && Writing(d, was, lba, n, ws, k, WORDS - 1)
    ensures var e := AfterWrite(d, ws[WORDS * k + WORDS - 1]);
      if k + 1 < n then Writing(e, was, lba, n, ws, k + 1, 0) else WriteDone(e, was, lba, n, ws)
  {
    var w := ws[WORDS * k + WORDS - 1];
    var full := Put(d.buffer, d.at, w);
    HalfMore(d.buffer, ws, k, WORDS - 1);
    HalfIsWhole(full, ws, k);
    assert |d.image| == |was|;
    StoredMore(d.image, was, lba, ws, k);
    assert k + 1 < n ==> Half(Blank(), ws, k + 1, 0);
    LastWord(d, w);
    hide Half, Stored, SectorOf, Put, AfterWrite;
  }

  lemma {:induction false} LastWord(d: Drive, w: Word)
    requires Loadable(d) && d.writing && |d.buffer| == SIZE && d.at == SIZE - 2 && d.pending > 0
    ensures var e, more := AfterWrite(d, w), d.pending > 1;
      && e.image == d.image[d.current := Put(d.buffer, d.at, w)] && e.pending == d.pending - 1 && e.at == 0
      && e.writing == more && e.status == (if more then REQUEST else READY)
      && e.buffer == (if more then Blank() else [])
      && e.current == (if more then d.current + 1 else d.current) && e.geometry == d.geometry
  {
    hide Lba, Put;
  }

  ghost function Writes(d: Drive, ws: seq<Word>): (r: Drive)
    requires Sound(d)
    ensures Sound(r)
    decreases |ws|
  {
    if ws == [] then d else
    WriteIsSound(d, ws[0]);
    Writes(AfterWrite(d, ws[0]), ws[1..])
  }

  /** After the first `k` sectors and `i` words. */
  lemma {:induction false} WritesOn(d: Drive, was: seq<Sector>, lba: nat, n: nat, ws: seq<Word>, k: nat, i: nat, m: nat)
    requires WORDS * n == |ws| && Sound(d) && Writing(d, was, lba, n, ws, k, i) && WORDS * k + i <= m <= |ws|
    ensures var e := Writes(d, ws[WORDS * k + i..m]);
      if m < |ws| then Writing(e, was, lba, n, ws, m / WORDS, m % WORDS) else WriteDone(e, was, lba, n, ws)
    decreases |ws| - WORDS * k - i
  {
    hide Sound, AfterWrite, Stored, Half;
    var j := WORDS * k + i;
    if j == m {
      assert ws[j..m] == [] && m / WORDS == k && m % WORDS == i;
    } else {
      var e := AfterWrite(d, ws[j]);
      WriteIsSound(d, ws[j]);
      assert ws[j..m][1..] == ws[j + 1..m] && ws[j..m][0] == ws[j];
      if i + 1 < WORDS {
        WritesWord(d, was, lba, n, ws, k, i);
        WritesOn(e, was, lba, n, ws, k, i + 1, m);
      } else {
        WritesSector(d, was, lba, n, ws, k);
        if k + 1 < n {
          WritesOn(e, was, lba, n, ws, k + 1, 0, m);
        } else {
          assert m == |ws| && ws[j + 1..m] == [];
        }
      }
    }
  }

  // ----- reading sectors

  function WordOf(s: Sector, i: nat): Word
    requires i < WORDS
  {
    Pair(s[2 * i], s[2 * i + 1])
  }

  /** A read of `n` sectors from `lba`: `k` are read, and `i` words of the next one. */
  predicate Reading(d: Drive, image: seq<Sector>, lba: nat, n: nat, k: nat, i: nat) {
    && k < n && i < WORDS && lba + n <= |image| && n <= 256 && d.image == image
    && !d.writing && d.status == REQUEST && d.at == 2 * i && d.pending == n - k && d.current == lba + k
    && Sound(d) && d.buffer == image[lba + k]
  }

  /** The read is over. */
  predicate ReadDone(d: Drive, image: seq<Sector>) {
    Sound(d) && d.image == image && !d.writing && d.status == READY && d.pending == 0 && d.buffer == []
  }

  lemma {:induction false} ReadsWord(d: Drive, image: seq<Sector>, lba: nat, n: nat, k: nat, i: nat)
    requires Reading(d, image, lba, n, k, i)
    ensures WordAt(d) == WordOf(image[lba + k], i)
    ensures i + 1 < WORDS ==> Reading(AfterRead(d), image, lba, n, k, i + 1)
    ensures i + 1 == WORDS && k + 1 < n ==> Reading(AfterRead(d), image, lba, n, k + 1, 0)
    ensures i + 1 == WORDS && k + 1 == n ==> ReadDone(AfterRead(d), image)
  {
    hide Lba;
    ReadIsSound(d);
  }

  /** The words read one after another, and the drive after them. */
  ghost function ReadOut(d: Drive, m: nat): (r: (seq<Word>, Drive))
    requires Sound(d) && !d.writing
    ensures |r.0| == m && Sound(r.1) && !r.1.writing
    decreases m
  {
    if m == 0 then ([], d) else
    ReadIsSound(d);
    ReadStaysRead(d);
    var rest := ReadOut(AfterRead(d), m - 1);
    ([WordAt(d)] + rest.0, rest.1)
  }

  lemma {:induction false} ReadStaysRead(d: Drive)
    requires Sound(d) && !d.writing
    ensures !AfterRead(d).writing
  {
    hide Lba;
  }

  predicate InImage(image: seq<Sector>, lba: nat, j: nat) {
    lba + j / WORDS < |image|
  }

  /** Word `j` of a read from `lba`. */
  function ImageWord(image: seq<Sector>, lba: nat, j: nat): Word
    requires InImage(image, lba, j)
  {
    WordOf(image[lba + j / WORDS], j % WORDS)
  }

  /** Word `j` of the read comes next, or the read is over. */
  predicate ReadingAt(d: Drive, image: seq<Sector>, lba: nat, n: nat, j: nat) {
    if j < WORDS * n then Reading(d, image, lba, n, j / WORDS, j % WORDS) else ReadDone(d, image)
  }

  lemma {:induction false} ReadingIsSound(d: Drive, image: seq<Sector>, lba: nat, n: nat, j: nat)
    requires ReadingAt(d, image, lba, n, j)
    ensures Safe(d) && Sound(d) && !d.writing && (j < WORDS * n ==> InImage(image, lba, j))
  {
  }

  lemma {:induction false} ReadsNext(d: Drive, image: seq<Sector>, lba: nat, n: nat, j: nat)
    requires j < WORDS * n && ReadingAt(d, image, lba, n, j)
    ensures Sound(d) && !d.writing && InImage(image, lba, j) && WordAt(d) == ImageWord(image, lba, j)
    ensures ReadingAt(AfterRead(d), image, lba, n, j + 1)
  {
    ReadingIsSound(d, image, lba, n, j);
    ReadsWord(d, image, lba, n, j / WORDS, j % WORDS);
    hide Sound, WordAt, WordOf, AfterRead, Reading, ReadDone;
    var k, i := j / WORDS, j % WORDS;
    assert j == WORDS * k + i;
    if i + 1 < WORDS {
      assert (j + 1) / WORDS == k && (j + 1) % WORDS == i + 1;
    } else {
      assert j + 1 == WORDS * (k + 1);
    }
  }

  lemma {:induction false} ReadOutNone(d: Drive)
    requires Sound(d) && !d.writing
    ensures ReadOut(d, 0).1 == d
  {
  }

  lemma {:induction false} ReadOutStep(d: Drive, m: nat)
    requires Sound(d) && !d.writing && m > 0
    ensures Safe(d) && Sound(AfterRead(d)) && !AfterRead(d).writing
    ensures var rest := ReadOut(AfterRead(d), m - 1);
      ReadOut(d, m).0 == [WordAt(d)] + rest.0 && ReadOut(d, m).1 == rest.1
  {
    ReadIsSound(d);
    ReadStaysRead(d);
    hide AfterRead, WordAt;
  }

  /** From any word of a read on, the words of the image come out in order. */
  lemma {:induction false} ReadsOn(d: Drive, image: seq<Sector>, lba: nat, n: nat, j: nat, m: nat)
    requires ReadingAt(d, image, lba, n, j) && j + m <= WORDS * n
    ensures Sound(d) && !d.writing
    ensures forall x :: j <= x < j + m ==> InImage(image, lba, x) && ReadOut(d, m).0[x - j] == ImageWord(image, lba, x)
    ensures ReadingAt(ReadOut(d, m).1, image, lba, n, j + m)
    decreases m
  {
    hide Safe, Sound, ReadingAt, AfterRead, WordAt, ImageWord, InImage, ReadOut;
    ReadingIsSound(d, image, lba, n, j);
    if m == 0 {
      ReadOutNone(d);
    } else {
      ReadOutStep(d, m);
      ReadsNext(d, image, lba, n, j);
      ReadsOn(AfterRead(d), image, lba, n, j + 1, m - 1);
    }
  }

  // ----- there and back

  /** A transfer the drive will accept. */
  predicate Accepts(d: Drive, lba: nat, n: nat) {
    Sound(d) && Address(d) == lba && Sectors(d.count) == n && lba + n <= |d.image|
  }

  lemma {:induction false} SameAddress(d: Drive, e: Drive)
    requires e == d.(lines := e.lines)
    ensures Address(e) == Address(d)
  {
  }

  lemma {:induction false} WriteStarts(d: Drive, lba: nat, n: nat, ws: seq<Word>, identity: Sector)
    requires Accepts(d, lba, n) && WORDS * n <= |ws|
    ensures Writing(AfterCommand(d, 0x30, identity), d.image, lba, n, ws, 0, 0)
  {
    SameAddress(d, d.(lines := Cleared(d.lines)));
    hide Address;
  }

  lemma {:induction false} ReadStarts(d: Drive, lba: nat, n: nat, identity: Sector)
    requires Accepts(d, lba, n)
    ensures Reading(AfterCommand(d, 0x20, identity), d.image, lba, n, 0, 0)
  {
    SameAddress(d, d.(lines := Cleared(d.lines)));
    hide Address;
  }

  /** Writing `n` sectors word by word stores them and nothing else, and the drive asks for data until exactly the last
  word. */
  lemma {:induction false} WritesSectors(d: Drive, lba: nat, n: nat, ws: seq<Word>, identity: Sector, m: nat)
    requires Accepts(d, lba, n) && |ws| == WORDS * n && m <= |ws|
    ensures Sound(AfterCommand(d, 0x30, identity))
    ensures var e := Writes(AfterCommand(d, 0x30, identity), ws[..m]);
      && (e.status.drq <==> m < |ws|) && (m == |ws| ==> Stored(e.image, d.image, lba, ws, n) && e.status == READY)
  {
    hide AfterCommand, Sound, Loadable, Stored, Half;
    AcceptsIsSound(d, lba, n);
    CommandIsSound(d, 0x30, identity);
    WriteStarts(d, lba, n, ws, identity);
    WritesOn(AfterCommand(d, 0x30, identity), d.image, lba, n, ws, 0, 0, m);
    assert ws[WORDS * 0 + 0..m] == ws[..m];
  }

  lemma {:induction false} AcceptsIsSound(d: Drive, lba: nat, n: nat)
    requires Accepts(d, lba, n)
    ensures Sound(d)
  {
  }

  /** Reading them gives the words of the image, and the drive offers data until exactly the last word. */
  lemma {:induction false} ReadsSectors(d: Drive, lba: nat, n: nat, identity: Sector, m: nat)
    requires Accepts(d, lba, n) && m <= WORDS * n
    ensures var e := AfterCommand(d, 0x20, identity); Sound(e) && !e.writing
    ensures var r := ReadOut(AfterCommand(d, 0x20, identity), m);
      && (forall x :: 0 <= x < m ==> r.0[x] == ImageWord(d.image, lba, x))
      && (r.1.status.drq <==> m < WORDS * n) && r.1.image == d.image
  {
    hide AfterCommand, Sound, WordOf;
    ReadStarts(d, lba, n, identity);
    ReadsOn(AfterCommand(d, 0x20, identity), d.image, lba, n, 0, m);
  }

  lemma {:induction false} WordsComeBack(image: seq<Sector>, was: seq<Sector>, lba: nat, n: nat, ws: seq<Word>, x: nat)
    requires |ws| == WORDS * n && lba + n <= |image| && Stored(image, was, lba, ws, n) && x < |ws|
    ensures ImageWord(image, lba, x) == ws[x]
  {
    var k, i := x / WORDS, x % WORDS;
    assert x == WORDS * k + i && k < n;
    assert image[lba + k] == SectorOf(ws, k);
    assert 2 * i / 2 == i && (2 * i + 1) / 2 == i;
  }

  /** Whatever was written to `n` sectors, word by word, is read back from them, word by word, as long as nothing else
  has changed the image. */
  lemma {:induction false} WriteThenRead(d: Drive, lba: nat, n: nat, ws: seq<Word>, identity: Sector, later: Drive)
    requires Accepts(d, lba, n) && |ws| == WORDS * n && Accepts(later, lba, n)
    requires Sound(AfterCommand(d, 0x30, identity))
    requires later.image == Writes(AfterCommand(d, 0x30, identity), ws).image
    ensures var e := AfterCommand(later, 0x20, identity); Sound(e) && !e.writing && ReadOut(e, |ws|).0 == ws
  {
    hide AfterCommand, Stored, Address, WordOf;
    assert ws[..|ws|] == ws;
    WritesSectors(d, lba, n, ws, identity, |ws|);
    ReadsSectors(later, lba, n, identity, |ws|);
    forall x | 0 <= x < |ws|
      ensures ImageWord(later.image, lba, x) == ws[x]
    {
      WordsComeBack(later.image, d.image, lba, n, ws, x);
    }
  }

  // ----- the object

  class Disk {
    var image: seq<Sector>
    var geometry: Geometry
    var task: TaskFile
    var lines: Lines
    var transfer: Transfer

    ghost function Model(): Drive
      reads this
    {
      Drive(image, geometry, task, lines, transfer)
    }

    /** `raiseIrq`. */
    method RaiseIrq()
      modifies this`lines
      ensures Model() == Raised(old(Model()))
    {
      if !lines.nIen { lines := lines.(irq := true); }
    }

    /** `fail`. */
    method Fail(code: Byte)
      modifies this`lines, this`transfer
      ensures Model() == Failed(old(Model()), code)
    {
      lines := lines.(status := lines.status.(drq := false, err := true, drdy := true), error := code);
      transfer := transfer.(buffer := [], at := 0, pending := 0, writing := false);
      RaiseIrq();
    }

    /** `setAddress`. */
    method SetAddress(lba: nat)
      modifies this`task
      ensures Model() == WithAddress(old(Model()), lba)
    {
      hide Lba;
      if Lba(task.device) {
        DeviceDigits(task.device, lba / 0x100_0000 % 16);
        task := task.(low := lba % 256, mid := lba / 0x100 % 256, high := lba / 0x1_0000 % 256,
                      device := task.device / 16 * 16 + lba / 0x100_0000 % 16);
      }
    }

    /** `loadSector`. */
    method Load()
      requires transfer.current < |image|
      modifies this`lines, this`transfer
      ensures Model() == LoadSector(old(Model()))
    {
      transfer := transfer.(buffer := image[transfer.current], at := 0);
      lines := lines.(status := REQUEST);
      RaiseIrq();
    }

    /** `nextReadSector`. */
    method NextRead()
      requires transfer.pending > 1 ==> transfer.current + 1 < |image|
      modifies this`task, this`lines, this`transfer
      ensures Model() == NextReadSector(old(Model()))
    {
      hide Lba, Shown;
      if transfer.writing { return; }
      if transfer.pending > 0 { transfer := transfer.(pending := transfer.pending - 1); }
      if transfer.pending == 0 {
        transfer := transfer.(buffer := [], at := 0);
        lines := lines.(status := READY);
        SetAddress(transfer.current);
        return;
      }
      transfer := transfer.(current := transfer.current + 1);
      SetAddress(transfer.current);
      Load();
    }

    /** `commitWrittenSector` and `storeSector`. */
    method Commit()
      requires |transfer.buffer| == SIZE && (transfer.pending > 0 ==> transfer.current < |image|)
      modifies this`image, this`task, this`lines, this`transfer
      ensures Model() == CommitSector(old(Model()))
    {
      hide Lba, Shown;
      if transfer.pending == 0 {
        transfer := transfer.(at := 0, writing := false);
        lines := lines.(status := READY);
        RaiseIrq();
        return;
      }
      image := image[transfer.current := transfer.buffer];
      transfer := transfer.(pending := transfer.pending - 1);
      if transfer.pending == 0 {
        transfer := transfer.(buffer := [], at := 0, writing := false);
        lines := lines.(status := READY);
        SetAddress(transfer.current);
        RaiseIrq();
        return;
      }
      transfer := transfer.(current := transfer.current + 1);
      SetAddress(transfer.current);
      transfer := transfer.(buffer := Blank(), at := 0);
      lines := lines.(status := REQUEST);
      RaiseIrq();
    }

    /** `readData`. */
    method ReadData() returns (w: Word)
      requires Safe(Model())
      modifies this`task, this`lines, this`transfer
      ensures w == WordAt(old(Model())) && Model() == AfterRead(old(Model()))
    {
      hide NextReadSector;
      var t := transfer;
      if t.at + 1 >= |t.buffer| {
        if t.buffer == [] { return 0; }
      }
      w := 0;
      if t.at + 1 < |t.buffer| { w := Pair(t.buffer[t.at], t.buffer[t.at + 1]); }
      transfer := t.(at := t.at + 2);
      if transfer.at >= |transfer.buffer| { NextRead(); }
    }

    /** `writeData`. */
    method WriteData(w: Word)
      requires Safe(Model())
      modifies this`image, this`task, this`lines, this`transfer
      ensures Model() == AfterWrite(old(Model()), w)
    {
      hide CommitSector;
      var t := transfer;
      if !t.writing || t.buffer == [] { return; }
      if t.at + 1 < |t.buffer| { t := t.(buffer := Put(t.buffer, t.at, w)); }
      transfer := t.(at := t.at + 2);
      if transfer.at >= |transfer.buffer| { Commit(); }
    }

    /** `startRead`. */
    method BeginRead()
      modifies this`lines, this`transfer
      ensures Model() == StartRead(old(Model()))
    {
      hide Address;
      var lba := ReadAddress();
      transfer := transfer.(current := lba, pending := Sectors(task.count));
      if lba + transfer.pending > |image| {
        Fail(IDNF);
        return;
      }
      transfer := transfer.(writing := false);
      Load();
    }

    /** `startWrite`: its first request for data comes without an interrupt. */
    method BeginWrite()
      modifies this`lines, this`transfer
      ensures Model() == StartWrite(old(Model()))
    {
      hide Address;
      var lba := ReadAddress();
      transfer := transfer.(current := lba, pending := Sectors(task.count));
      if lba + transfer.pending > |image| {
        Fail(IDNF);
        return;
      }
      transfer := transfer.(writing := true, buffer := Blank(), at := 0);
      lines := lines.(status := REQUEST);
    }

    /** `address`. */
    method ReadAddress() returns (lba: nat)
      ensures lba == Address(Model())
    {
      var t, heads, track := task, geometry.heads, geometry.track;
      if Lba(t.device) {
        lba := ((t.device % 16 * 256 + t.high) * 256 + t.mid) * 256 + t.low;
      } else {
        lba := ((t.high * 256 + t.mid) * heads + t.device % 16) * track + (if t.low == 0 then 0 else t.low - 1);
      }
    }

    /** `command`. */
    method Execute(op: Byte, identity: Sector)
      modifies this`geometry, this`lines, this`transfer
      ensures Model() == AfterCommand(old(Model()), op, identity)
    {
      hide StartRead, StartWrite, Failed, BufferCommand, QuietCommand;
      lines := lines.(error := 0, status := lines.status.(err := false));
      if |image| == 0 {
        Fail(ABRT);
      } else if op == 0x20 || op == 0x21 {
        BeginRead();
      } else if op == 0x30 || op == 0x31 {
        BeginWrite();
      } else if op == 0xEC || op == 0xE4 || op == 0xE8 {
        UseBuffer(op, identity);
      } else if op in {0x40, 0x41, 0x90, 0x91, 0xE7, 0xEA, 0xEF} {
        Acknowledge(op);
      } else {
        Fail(ABRT);
      }
    }

    /** IDENTIFY, READ BUFFER and WRITE BUFFER. */
    method UseBuffer(op: Byte, identity: Sector)
      requires op == 0xEC || op == 0xE4 || op == 0xE8
      modifies this`lines, this`transfer
      ensures Model() == BufferCommand(old(Model()), op, identity)
    {
      var b := transfer.buffer;
      if op == 0xEC {
        b := identity;
      } else if op == 0xE8 || |b| != SIZE {
        b := Blank();
      }
      transfer := transfer.(buffer := b, at := 0, pending := 0, writing := op == 0xE8);
      lines := lines.(status := REQUEST);
      if op != 0xE8 { RaiseIrq(); }
    }

    /** The commands that only change parameters, or nothing. */
    method Acknowledge(op: Byte)
      modifies this`geometry, this`lines
      ensures Model() == QuietCommand(old(Model()), op)
    {
      if op == 0x91 {
        geometry := Geometry(task.device % 16 + 1, if task.count == 0 then 1 else task.count);
      } else if op == 0x90 {
        lines := lines.(error := 1);
      }
      lines := lines.(status := READY);
      RaiseIrq();
    }
  }
}
