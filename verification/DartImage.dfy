/** The DART disk archive: a header with one length per chunk, and chunks that are stored, run-length coded or
compressed. A chunk is 20480 bytes of data and 480 bytes of tags. */
module DartImage {
  import opened Sequences
  import opened HuffmanTree
  import opened LzhStream
  import opened LzhTokens
  import Lzh = DartLzh

  const DATA := 20480
  const TAGS := 480

  /** `be16`. */
  function Be16(b: seq<Byte>, at: nat): (w: nat)
    requires at + 1 < |b|
    ensures w < 0x1_0000
  {
    var hi: int, lo: int := b[at], b[at + 1];
    hi * 256 + lo
  }

  function WordBytes(w: nat): (b: seq<Byte>)
    requires w < 0x1_0000
    ensures |b| == 2 && Be16(b, 0) == w
  {
    [w / 256, w % 256]
  }

  // ----- run-length coding

  /** A count as the chunk stores it: two's complement in sixteen bits. */
  function Signed(w: nat): int {
    if w < 0x8000 then w else w - 0x1_0000
  }

  /** The pair, `n` times over. */
  function Repeat(hi: Byte, lo: Byte, n: nat): (r: seq<Byte>)
    ensures |r| == 2 * n
  {
    if n == 0 then [] else Repeat(hi, lo, n - 1) + [hi, lo]
  }

  datatype Filled = Broken | Filled(block: seq<Byte>)

  /** Expand the runs in `b` behind what is already there. Every byte of `b` must be used, and a whole block filled. */
  function Expand(b: seq<Byte>, out: seq<Byte>): (r: Filled)
    ensures r.Filled? ==> |r.block| == CHUNK
    decreases |b|
  {
    if b == [] then if |out| == CHUNK then Filled(out) else Broken
    else if |b| < 2 then Broken
    else
      var count := Signed(Be16(b, 0));
      var amount := 2 * (if count < 0 then -count else count);
      if count == 0 || amount > CHUNK - |out| then Broken
      else if count > 0 then if amount > |b| - 2 then Broken else Expand(b[2 + amount..], out + b[2..2 + amount])
      else if |b| < 4 then Broken
      else Expand(b[4..], out + Repeat(b[2], b[3], amount / 2))
  }

  /** What a chunk is made of: words as they are, or one word many times over. */
  datatype Piece = Plain(bytes: seq<Byte>) | Fill(n: nat, hi: Byte, lo: Byte)

  predicate ValidPiece(p: Piece) {
    match p
    case Plain(bytes) => |bytes| % 2 == 0 && 1 <= |bytes| / 2 < 0x8000
    case Fill(n, _, _) => 1 <= n <= 0x8000
  }

  function PieceCode(p: Piece): (b: seq<Byte>)
    requires ValidPiece(p)
    ensures |b| >= 4
  {
    match p
    case Plain(bytes) => WordBytes(|bytes| / 2) + bytes
    case Fill(n, hi, lo) => WordBytes(0x1_0000 - n) + [hi, lo]
  }

  function PieceBytes(p: Piece): (b: seq<Byte>)
    requires ValidPiece(p)
    ensures |b| > 0
  {
    match p case Plain(bytes) => bytes case Fill(n, hi, lo) => Repeat(hi, lo, n)
  }

  predicate ValidPieces(ps: seq<Piece>) {
    forall i :: 0 <= i < |ps| ==> ValidPiece(ps[i])
  }

  function Codes(ps: seq<Piece>): seq<Byte>
    requires ValidPieces(ps)
  {
    if ps == [] then [] else PieceCode(ps[0]) + Codes(ps[1..])
  }

  function Meaning(ps: seq<Piece>): seq<Byte>
    requires ValidPieces(ps)
  {
    if ps == [] then [] else PieceBytes(ps[0]) + Meaning(ps[1..])
  }

  lemma {:induction false} ExpandPiece(p: Piece, rest: seq<Byte>, out: seq<Byte>, b: seq<Byte>)
    requires ValidPiece(p) && b == PieceCode(p) + rest
    ensures Expand(b, out) ==
      if |out| + |PieceBytes(p)| > CHUNK then Broken else Expand(rest, out + PieceBytes(p))
  {
    match p {
      case Plain(bytes) =>
        var n := |bytes|;
        assert b[0] == WordBytes(n / 2)[0] && b[1] == WordBytes(n / 2)[1];
        assert 2 * (n / 2) == n && b[2..2 + n] == bytes && b[2 + n..] == rest;
      case Fill(n, hi, lo) =>
        var w := 0x1_0000 - n;
        assert b[0] == WordBytes(w)[0] && b[1] == WordBytes(w)[1];
        assert b[2] == hi && b[3] == lo && b[4..] == rest;
        assert Signed(Be16(b, 0)) + n == 0;
    }
  }

  /** A chunk coded from pieces that mean a whole block expands to what they mean, and no other coding is accepted. */
  lemma {:induction false} ExpandCodes(ps: seq<Piece>, out: seq<Byte>)
    requires ValidPieces(ps)
    ensures Expand(Codes(ps), out) == if |out| + |Meaning(ps)| == CHUNK then Filled(out + Meaning(ps)) else Broken
    decreases |ps|
  {
    if ps == [] {
      ExpandStep([], out);
      assert out + Meaning(ps) == out;
    } else {
      hide PieceCode, PieceBytes, Expand;
      ExpandPiece(ps[0], Codes(ps[1..]), out, Codes(ps));
      if |out| + |PieceBytes(ps[0])| <= CHUNK {
        ExpandCodes(ps[1..], out + PieceBytes(ps[0]));
        Regroup(out, PieceBytes(ps[0]), Meaning(ps[1..]));
      }
    }
  }

  /** The piece at the front of a chunk that expands. */
  lemma {:induction false} FirstPiece(b: seq<Byte>, out: seq<Byte>) returns (p: Piece, rest: seq<Byte>)
    requires b != [] && Expand(b, out).Filled?
    ensures ValidPiece(p) && b == PieceCode(p) + rest
  {
    var w := Be16(b, 0);
    var count := Signed(w);
    if count > 0 {
      p, rest := Plain(b[2..2 + 2 * count]), b[2 + 2 * count..];
    } else {
      p, rest := Fill(-count, b[2], b[3]), b[4..];
    }
    assert b[..2] == WordBytes(w);
    assert b == PieceCode(p) + rest;
  }

  lemma {:induction false} ExpandedIsCodes(b: seq<Byte>, out: seq<Byte>) returns (ps: seq<Piece>)
    requires Expand(b, out).Filled?
    ensures ValidPieces(ps) && b == Codes(ps) && Expand(b, out).block == out + Meaning(ps)
    decreases |b|
  {
    if b == [] {
      ps := [];
      ExpandStep(b, out);
      assert out + Meaning(ps) == out;
    } else {
      hide PieceCode, PieceBytes, Expand, ValidPiece;
      var p, rest := FirstPiece(b, out);
      ExpandPiece(p, rest, out, b);
      var more := ExpandedIsCodes(rest, out + PieceBytes(p));
      ps := [p] + more;
      assert ps[1..] == more;
      Regroup(out, PieceBytes(p), Meaning(more));
    }
  }

  /** The run-length loop of `unpack`, into a block of its own. */
  method ExpandRuns(b: seq<Byte>, block: array<Byte>) returns (ok: bool)
    requires block.Length == CHUNK
    modifies block
    ensures ok == Expand(b, []).Filled?
    ensures ok ==> block[..] == Expand(b, []).block
  {
    hide Expand, Repeat;
    var read, written := 0, 0;
    ghost var goal := Expand(b, []);
    assert b[0..] == b && block[..0] == [];
    while read < |b|
      invariant 0 <= read <= |b| && 0 <= written <= CHUNK
      invariant Expand(b[read..], block[..written]) == goal
      decreases |b| - read
    {
      ghost var rest, out := b[read..], block[..written];
      ExpandStep(rest, out);
      if |b| - read < 2 { return false; }
      var word := Be16(b, read);
      assert Be16(rest, 0) == word;
      read := read + 2;
      var count: int := Signed(word);
      var amount := 2 * (if count < 0 then -count else count);
      if count == 0 || amount > CHUNK - written { return false; }
      if count > 0 {
        if amount > |b| - read { return false; }
        forall k | 0 <= k < amount { block[written + k] := b[read + k]; }
        assert block[..written + amount] == out + rest[2..2 + amount];
        read := read + amount;
      } else {
        if |b| - read < 2 { return false; }
        FillPairs(block, written, b[read], b[read + 1], amount / 2);
        read := read + 2;
      }
      written := written + amount;
      assert count > 0 ==> b[read..] == rest[2 + amount..];
      assert count < 0 ==> b[read..] == rest[4..];
    }
    assert b[read..] == [] && block[..CHUNK] == block[..];
    ExpandStep([], block[..written]);
    return written == CHUNK;
  }

  /** One turn of the expansion. */
  lemma {:induction false} ExpandStep(b: seq<Byte>, out: seq<Byte>)
    ensures b == [] ==> Expand(b, out) == if |out| == CHUNK then Filled(out) else Broken
    ensures |b| == 1 ==> Expand(b, out) == Broken
    ensures |b| >= 2 ==>
      var count := Signed(Be16(b, 0));
      var amount := 2 * (if count < 0 then -count else count);
      && (count == 0 || amount > CHUNK - |out| || (count > 0 && amount > |b| - 2) || (count < 0 && |b| < 4) ==>
           Expand(b, out) == Broken)
      && (0 < count && amount <= CHUNK - |out| && amount <= |b| - 2 ==>
           Expand(b, out) == Expand(b[2 + amount..], out + b[2..2 + amount]))
      && (count < 0 && amount <= CHUNK - |out| && |b| >= 4 ==>
           Expand(b, out) == Expand(b[4..], out + Repeat(b[2], b[3], amount / 2)))
  {
  }

  /** The inner loop: one word, `n` times. */
  method FillPairs(block: array<Byte>, written: nat, hi: Byte, lo: Byte, n: nat)
    requires written + 2 * n <= block.Length
    modifies block
    ensures block[..written + 2 * n] == old(block[..written]) + Repeat(hi, lo, n)
  {
    var j := 0;
    assert block[..written] == old(block[..written]) + Repeat(hi, lo, 0);
    while j < 2 * n
      invariant 0 <= j <= 2 * n && j % 2 == 0
      invariant block[..written + j] == old(block[..written]) + Repeat(hi, lo, j / 2)
    {
      ghost var before := block[..written + j];
      block[written + j] := hi;
      block[written + j + 1] := lo;
      j := j + 2;
      assert block[..written + j] == before + [hi, lo];
    }
  }

  // ----- the container

  predicate Size(kib: nat) {
    kib == 400 || kib == 800 || kib == 1440
  }

  /** How many chunks a disk has, and how many lengths its header holds. */
  function ChunkCount(kib: nat): nat {
    kib / 20
  }

  function Entries(kib: nat): nat {
    if kib == 1440 then 72 else 40
  }

  function Prefix(kib: nat): nat {
    4 + 2 * Entries(kib)
  }

  /** `candidate`. */
  predicate Candidate(raw: seq<Byte>) {
    |raw| >= 4 && raw[0] <= 2 && Size(Be16(raw, 2))
  }

  /** The checks `unpack` makes before it looks at a chunk. */
  predicate Header(raw: seq<Byte>) {
    && Candidate(raw)
    && (if Be16(raw, 2) == 1440 then raw[1] == 16 else raw[1] == 1)
    && Prefix(Be16(raw, 2)) <= |raw|
  }

  lemma {:induction false} StartRoom()
    ensures Room(Start(), CHUNK) && RoomFor(Start(), [])
  {
    StartGood();
  }

  datatype Taken = Bad | Taken(block: seq<Byte>, bytes: nat)

  /** One chunk at the front of `rest`. */
  function Block(kind: nat, length: nat, rest: seq<Byte>): (t: Taken)
    ensures t.Taken? ==> |t.block| == CHUNK && t.bytes <= |rest|
  {
    var stored := length == 0xffff || (kind == 2 && length == CHUNK);
    var bytes := if stored then CHUNK else if kind == 0 then 2 * length else length;
    if kind == 2 && !stored then Bad
    else if bytes > |rest| then Bad
    else if stored then Taken(rest[..CHUNK], CHUNK)
    else if kind == 1 then
      StartRoom();
      match Inflate(Start(), Bits(rest[..bytes]), [])
      case Refused => Bad
      case Chunk(b) => Taken(b, bytes)
    else
      match Expand(rest[..bytes], [])
      case Broken => Bad
      case Filled(b) => Taken(b, bytes)
  }

  predicate Zeros(b: seq<Byte>) {
    forall i :: 0 <= i < |b| ==> b[i] == 0
  }

  datatype Unpacked = Rejected | Unpacked(data: seq<Byte>, tags: seq<Byte>)

  /** The disk from chunk `i` on, which starts at `offset`. */
  function Chunks(raw: seq<Byte>, i: nat, offset: nat, data: seq<Byte>, tags: seq<Byte>): Unpacked
    requires Header(raw) && i <= Entries(Be16(raw, 2)) && offset <= |raw|
    decreases Entries(Be16(raw, 2)) - i
  {
    var kib := Be16(raw, 2);
    if i == Entries(kib) then
      if offset == |raw| then Unpacked(data, if kib == 1440 then [] else tags) else Rejected
    else
      var length := Be16(raw, 4 + 2 * i);
      if i >= ChunkCount(kib) then if length != 0 then Rejected else Chunks(raw, i + 1, offset, data, tags)
      else if length == 0 then Rejected
      else match Block(raw[0], length, raw[offset..])
        case Bad => Rejected
        case Taken(b, bytes) =>
          if kib == 1440 && !Zeros(b[DATA..]) then Rejected
          else Chunks(raw, i + 1, offset + bytes, data + b[..DATA], tags + b[DATA..])
  }

  /** What an archive holds. */
  function Unpack(raw: seq<Byte>): Unpacked {
    if Header(raw) then Chunks(raw, 0, Prefix(Be16(raw, 2)), [], []) else Rejected
  }

  /** A raw image and its tags, as `unpack` is given them. */
  class Image {
    var raw: seq<Byte>
    var tags: seq<Byte>

    /** `unpack`: the archive is replaced by what it holds, or nothing is touched. */
    method UnpackArchive() returns (ok: bool)
      modifies this
      ensures match Unpack(old(raw))
        case Rejected => !ok && raw == old(raw) && tags == old(tags)
        case Unpacked(d, t) => ok && raw == d && tags == t
    {
      hide Block, Zeros, Header;
      var valid := CheckHeader();
      if !valid { return false; }
      var kib := Be16(raw, 2);
      var data, decoded, offset := [], [], Prefix(kib);
      ghost var goal := Unpack(raw);
      for i := 0 to Entries(kib)
        invariant Header(raw) && 4 <= |raw| && kib == Be16(raw, 2) && Prefix(kib) <= |raw| && 0 <= offset <= |raw|
        invariant raw == old(raw) && tags == old(tags)
        invariant Chunks(raw, i, offset, data, decoded) == goal
      {
        var length := Be16(raw, 4 + i * 2);
        if i >= kib / 20 {
          if length != 0 { return false; }
          continue;
        }
        if length == 0 { return false; }
        var got, block, bytes := ReadChunk(raw[0], length, raw[offset..]);
        if !got { return false; }
        var quiet := AllZero(block[DATA..]);
        if kib == 1440 && !quiet { return false; }
        data := data + block[..DATA];
        decoded := decoded + block[DATA..];
        offset := offset + bytes;
      }
      if offset != |raw| { return false; }
      raw := data;
      tags := if kib != 1440 then decoded else [];
      ok := true;
    }

    method CheckHeader() returns (ok: bool)
      ensures ok == Header(raw)
      ensures ok ==> |raw| >= 4 && Prefix(Be16(raw, 2)) <= |raw| && Size(Be16(raw, 2))
    {
      if |raw| < 4 || raw[0] > 2 { return false; }
      var kib := Be16(raw, 2);
      if kib != 400 && kib != 800 && kib != 1440 { return false; }
      if !((raw[1] == 1 && (kib == 400 || kib == 800)) || (raw[1] == 16 && kib == 1440)) { return false; }
      return |raw| >= Prefix(kib);
    }
  }

  method AllZero(b: seq<Byte>) returns (yes: bool)
    ensures yes == Zeros(b)
  {
    for i := 0 to |b|
      invariant forall k :: 0 <= k < i ==> b[k] == 0
    {
      if b[i] != 0 { return false; }
    }
    return true;
  }

  /** The body of the loop of `unpack` that turns a chunk into a block. */
  method ReadChunk(kind: nat, length: nat, rest: seq<Byte>) returns (ok: bool, result: seq<Byte>, bytes: nat)
    ensures match Block(kind, length, rest)
      case Bad => !ok
      case Taken(b, n) => ok && result == b && bytes == n && |b| == CHUNK
    ensures ok ==> |result| == CHUNK
  {
    hide Expand, Inflate;
    var stored := length == 0xffff || (kind == 2 && length == CHUNK);
    if kind == 2 && !stored { return false, [], 0; }
    bytes := if stored then CHUNK else if kind == 0 then 2 * length else length;
    if bytes > |rest| { return false, [], bytes; }
    if stored {
      return true, rest[..CHUNK], bytes;
    }
    var block := new Byte[CHUNK](i => 0);
    if kind == 1 {
      ok := InflateChunk(rest[..bytes], block);
    } else {
      ok := ExpandRuns(rest[..bytes], block);
    }
    result := block[..];
  }

  /** A compressed chunk goes through a decoder of its own. */
  method InflateChunk(bytes: seq<Byte>, block: array<Byte>) returns (ok: bool)
    requires block.Length == CHUNK
    modifies block
    ensures RoomFor(Start(), [])
    ensures match Inflate(Start(), Bits(bytes), [])
      case Refused => !ok
      case Chunk(b) => ok && block[..] == b
  {
    StartRoom();
    hide Inflate, Good, Room;
    var decoder := new Lzh.Decoder(bytes);
    assert Bits(bytes)[0..] == Bits(bytes);
    ok := decoder.Expand(block);
  }

  // ----- writing an archive

  /** Disks `write` accepts: a whole size, with all its tags, or a 1440 KiB one without any. */
  predicate Writable(data: seq<Byte>, tags: seq<Byte>) {
    var kib := |data| / 1024;
    Size(kib) && |data| == kib * 1024 && |tags| == if kib == 1440 then 0 else |data| / 512 * 12
  }

  function HeaderByte(kib: nat, k: nat): Byte
    requires Size(kib)
  {
    if k == 1 then (if kib == 1440 then 16 else 1)
    else if k == 2 then kib / 256 else if k == 3 then kib % 256
    else if 4 <= k < 4 + 2 * ChunkCount(kib) then 0xff else 0
  }

  function HeaderOf(kib: nat): (h: seq<Byte>)
    requires Size(kib)
    ensures |h| == Prefix(kib)
  {
    seq(Prefix(kib), k requires 0 <= k < Prefix(kib) => HeaderByte(kib, k))
  }

  function NoTags(): (b: seq<Byte>)
    ensures |b| == TAGS && Zeros(b)
  {
    seq(TAGS, i => 0)
  }

  /** Chunk `i` as it is stored. */
  function ChunkOf(data: seq<Byte>, tags: seq<Byte>, i: nat): (b: seq<Byte>)
    requires Writable(data, tags) && i < ChunkCount(|data| / 1024)
    ensures |b| == CHUNK
  {
    data[i * DATA..(i + 1) * DATA] + (if tags == [] then NoTags() else tags[i * TAGS..(i + 1) * TAGS])
  }

  function Body(data: seq<Byte>, tags: seq<Byte>, n: nat): (b: seq<Byte>)
    requires Writable(data, tags) && n <= ChunkCount(|data| / 1024)
    ensures |b| == n * CHUNK
  {
    if n == 0 then [] else Body(data, tags, n - 1) + ChunkOf(data, tags, n - 1)
  }

  /** What `write` emits. */
  function Archive(data: seq<Byte>, tags: seq<Byte>): seq<Byte>
    requires Writable(data, tags)
  {
    HeaderOf(|data| / 1024) + Body(data, tags, ChunkCount(|data| / 1024))
  }

  /** `write`. */
  method WriteArchive(data: seq<Byte>, tags: seq<Byte>) returns (ok: bool, out: seq<Byte>)
    ensures ok == Writable(data, tags)
    ensures ok ==> out == Archive(data, tags)
    ensures !ok ==> out == []
  {
    hide HeaderByte;
    out := [];
    var kib := |data| / 1024;
    if (kib != 400 && kib != 800 && kib != 1440) || |data| != kib * 1024 ||
       (kib != 1440 && |tags| != |data| / 512 * 12) || (kib == 1440 && tags != []) {
      return false, out;
    }
    var chunks := kib / 20;
    out := HeaderOf(kib);
    for i := 0 to chunks
      invariant out == HeaderOf(kib) + Body(data, tags, i)
    {
      out := out + data[i * DATA..(i + 1) * DATA] +
             (if kib == 1440 then NoTags() else tags[i * TAGS..(i + 1) * TAGS]);
    }
    ok := true;
  }

  lemma {:induction false} BodyAt(data: seq<Byte>, tags: seq<Byte>, n: nat, i: nat)
    requires Writable(data, tags) && i < n <= ChunkCount(|data| / 1024)
    ensures Body(data, tags, n)[i * CHUNK..(i + 1) * CHUNK] == ChunkOf(data, tags, i)
    decreases n
  {
    hide ChunkOf;
    if i < n - 1 { BodyAt(data, tags, n - 1, i); }
  }

  lemma {:induction false} ArchiveHeader(data: seq<Byte>, tags: seq<Byte>, raw: seq<Byte>)
    requires Writable(data, tags) && raw == Archive(data, tags)
    ensures Header(raw) && raw[0] == 0 && Be16(raw, 2) == |data| / 1024
    ensures forall i :: 0 <= i < Entries(|data| / 1024) ==>
      Be16(raw, 4 + 2 * i) == if i < ChunkCount(|data| / 1024) then 0xffff else 0
  {
    hide Body;
    var kib := |data| / 1024;
    var h := HeaderOf(kib);
    assert forall k :: 0 <= k < |h| ==> raw[k] == HeaderByte(kib, k);
    forall i | 0 <= i < Entries(kib)
      ensures Be16(raw, 4 + 2 * i) == if i < ChunkCount(kib) then 0xffff else 0
    {
      assert raw[4 + 2 * i] == HeaderByte(kib, 4 + 2 * i) && raw[4 + 2 * i + 1] == HeaderByte(kib, 4 + 2 * i + 1);
    }
  }

  lemma {:induction false} ArchiveChunk(data: seq<Byte>, tags: seq<Byte>, raw: seq<Byte>, i: nat)
    requires Writable(data, tags) && raw == Archive(data, tags) && i < ChunkCount(|data| / 1024)
    ensures var offset := Prefix(|data| / 1024) + i * CHUNK;
      offset + CHUNK <= |raw| && Block(0, 0xffff, raw[offset..]) == Taken(ChunkOf(data, tags, i), CHUNK)
  {
    hide ChunkOf, HeaderOf;
    var kib := |data| / 1024;
    var n, p := ChunkCount(kib), Prefix(kib);
    BodyAt(data, tags, n, i);
    assert raw[p..] == Body(data, tags, n);
    assert raw[p + i * CHUNK..][..CHUNK] == raw[p..][i * CHUNK..(i + 1) * CHUNK];
  }

  lemma {:induction false} ChunkParts(data: seq<Byte>, tags: seq<Byte>, i: nat)
    requires Writable(data, tags) && i < ChunkCount(|data| / 1024)
    ensures var b, big := ChunkOf(data, tags, i), |data| / 1024 == 1440;
      && data[..i * DATA] + b[..DATA] == data[..(i + 1) * DATA]
      && (big ==> Zeros(b[DATA..])) && (!big ==> tags[..i * TAGS] + b[DATA..] == tags[..(i + 1) * TAGS])
  {
  }

  /** The tags gathered by the first `i` chunks. */
  predicate TagsUpTo(data: seq<Byte>, tags: seq<Byte>, got: seq<Byte>, i: nat)
    requires Writable(data, tags) && i <= ChunkCount(|data| / 1024)
  {
    |data| / 1024 == 1440 || got == tags[..i * TAGS]
  }

  lemma {:induction false} ChunksOfArchive(data: seq<Byte>, tags: seq<Byte>, raw: seq<Byte>, i: nat, got: seq<Byte>)
    requires Writable(data, tags) && raw == Archive(data, tags) && i <= ChunkCount(|data| / 1024)
    requires Header(raw) && Be16(raw, 2) == |data| / 1024 && TagsUpTo(data, tags, got, i)
    ensures Prefix(|data| / 1024) + i * CHUNK <= |raw|
    ensures Chunks(raw, i, Prefix(|data| / 1024) + i * CHUNK, data[..i * DATA], got) == Unpacked(data, tags)
    decreases ChunkCount(|data| / 1024) - i
  {
    hide Block, ChunkOf, Header, HeaderOf, Body;
    var kib := |data| / 1024;
    ArchiveHeader(data, tags, raw);
    if i < ChunkCount(kib) {
      ArchiveChunk(data, tags, raw, i);
      ChunkParts(data, tags, i);
      var b := ChunkOf(data, tags, i);
      ChunksOfArchive(data, tags, raw, i + 1, got + b[DATA..]);
      assert Be16(raw, 4 + 2 * i) == 0xffff;
    } else {
      assert data[..i * DATA] == data && (kib != 1440 ==> got == tags);
      RestIsEmpty(data, tags, raw, i, got);
    }
  }

  /** The header's spare lengths are zero, and the archive ends with its last chunk. */
  lemma {:induction false} RestIsEmpty(data: seq<Byte>, tags: seq<Byte>, raw: seq<Byte>, i: nat, got: seq<Byte>)
    requires Writable(data, tags) && raw == Archive(data, tags)
    requires ChunkCount(|data| / 1024) <= i <= Entries(|data| / 1024)
    requires Header(raw) && Be16(raw, 2) == |data| / 1024 && (|data| / 1024 != 1440 ==> got == tags)
    ensures Chunks(raw, i, |raw|, data, got) == Unpacked(data, tags)
    decreases Entries(|data| / 1024) - i
  {
    hide Block, ChunkOf, Header, HeaderOf, Body;
    ArchiveHeader(data, tags, raw);
    if i < Entries(|data| / 1024) {
      assert Be16(raw, 4 + 2 * i) == 0;
      RestIsEmpty(data, tags, raw, i + 1, got);
    }
  }

  /** Unpacking what was written gives the same data and tags, for every disk that can be written. */
  lemma {:induction false} WriteThenUnpack(data: seq<Byte>, tags: seq<Byte>)
    requires Writable(data, tags)
    ensures Unpack(Archive(data, tags)) == Unpacked(data, tags)
  {
    hide Header, HeaderOf, Body, Block;
    var raw := Archive(data, tags);
    ArchiveHeader(data, tags, raw);
    assert data[..0] == [] && tags[..0] == [];
    ChunksOfArchive(data, tags, raw, 0, []);
  }

  lemma {:induction false} ChunksFillDisk(raw: seq<Byte>, i: nat, offset: nat, data: seq<Byte>, tags: seq<Byte>)
    requires Header(raw) && i <= Entries(Be16(raw, 2)) && offset <= |raw|
    requires var n := if i < ChunkCount(Be16(raw, 2)) then i else ChunkCount(Be16(raw, 2));
      |data| == n * DATA && |tags| == n * TAGS
    ensures match Chunks(raw, i, offset, data, tags)
      case Rejected => true
      case Unpacked(d, t) => Writable(d, t)
    decreases Entries(Be16(raw, 2)) - i
  {
    hide Block, Zeros;
    var kib := Be16(raw, 2);
    if i < Entries(kib) {
      if i >= ChunkCount(kib) {
        ChunksFillDisk(raw, i + 1, offset, data, tags);
      } else {
        var t := Block(raw[0], Be16(raw, 4 + 2 * i), raw[offset..]);
        if t.Taken? {
          ChunksFillDisk(raw, i + 1, offset + t.bytes, data + t.block[..DATA], tags + t.block[DATA..]);
        }
      }
    }
  }

  /** Every archive that unpacks, however its chunks are coded, is a disk that can be written back: archiving it again
  and unpacking that changes nothing. */
  lemma {:induction false} UnpackedIsWritable(raw: seq<Byte>)
    requires Unpack(raw).Unpacked?
    ensures var d := Unpack(raw); Writable(d.data, d.tags) && Unpack(Archive(d.data, d.tags)) == d
  {
    hide Block, Chunks, Writable, Archive;
    ChunksFillDisk(raw, 0, Prefix(Be16(raw, 2)), [], []);
    WriteThenUnpack(Unpack(raw).data, Unpack(raw).tags);
  }
}
