/** What archives are: every archive that unpacks is a header and a run of coded chunks, each stored, run-length coded
or compressed as its kind allows, and every such archive unpacks to what its chunks mean. */
module DartArchive {
  import opened Sequences
  import opened HuffmanTree
  import opened LzhStream
  import opened LzhTokens
  import opened DartImage

  /** How a chunk is coded: as it is, with either mark; as runs; or as the start of a stretch of bytes, compressed. */
  datatype Coding =
    | Kept(block: seq<Byte>, sized: bool)
    | Runs(pieces: seq<Piece>)
    | Packed(tokens: seq<Token>, bytes: seq<Byte>)

  /** The codings an archive of this kind may hold. A length of 0xffff marks a chunk that is kept. */
  ghost predicate ValidCoding(kind: nat, c: Coding) {
    match c
    case Kept(block, sized) => |block| == CHUNK && (sized ==> kind == 2)
    case Runs(ps) => kind == 0 && ValidPieces(ps) && |Meaning(ps)| == CHUNK && |Codes(ps)| < 2 * 0xffff
    case Packed(ks, bytes) => kind == 1 && 0 < |bytes| < 0xffff && Compressed(ks, bytes)
  }

  /** The bytes start with the encoding of tokens that fill a chunk. */
  ghost predicate Compressed(ks: seq<Token>, bytes: seq<Byte>) {
    ValidTokens(ks) && Fills([], ks) && Room(Start(), |ks|) && EncodeTokens(Start(), ks) <= Bits(bytes)
  }

  ghost function CodingBytes(kind: nat, c: Coding): seq<Byte>
    requires ValidCoding(kind, c)
  {
    match c case Kept(block, _) => block case Runs(ps) => Codes(ps) case Packed(_, bytes) => bytes
  }

  ghost function CodingLength(kind: nat, c: Coding): int
    requires ValidCoding(kind, c)
  {
    match c
    case Kept(_, sized) => if sized then CHUNK else 0xffff
    case Runs(ps) => |Codes(ps)| / 2
    case Packed(_, bytes) => |bytes|
  }

  /** The block a chunk stands for. */
  ghost function CodingBlock(kind: nat, c: Coding): seq<Byte>
    requires ValidCoding(kind, c)
  {
    match c
    case Kept(block, _) => block
    case Runs(ps) => Meaning(ps)
    case Packed(ks, _) => FillsIsShort([], ks); Produce([], ks)[..CHUNK]
  }

  // ----- one chunk

  lemma {:induction false} CodesAreWords(ps: seq<Piece>)
    requires ValidPieces(ps)
    ensures |Codes(ps)| % 2 == 0 && (ps != [] ==> 0 < |Codes(ps)|)
  {
    if ps != [] {
      assert ValidPiece(ps[0]);
      CodesAreWords(ps[1..]);
    }
  }

  lemma {:induction false} LengthFits(kind: nat, c: Coding)
    requires ValidCoding(kind, c)
    ensures 0 < CodingLength(kind, c) < 0x1_0000 && |CodingBlock(kind, c)| == CHUNK
  {
    hide Codes, Meaning, Produce, Fills, EncodeTokens, Start, Bits;
    if c.Runs? {
      CodesAreWords(c.pieces);
      SomePieces(c.pieces);
    } else if c.Packed? {
      FillsIsShort([], c.tokens);
    }
  }

  lemma {:induction false} SomePieces(ps: seq<Piece>)
    requires ValidPieces(ps) && |Meaning(ps)| == CHUNK
    ensures ps != []
  {
  }

  // What the chunk reader does with each kind of chunk.

  predicate Stored(kind: nat, length: nat) {
    length == 0xffff || (kind == 2 && length == CHUNK)
  }

  lemma {:induction false} ReadsStored(kind: nat, length: nat, rest: seq<Byte>)
    requires Stored(kind, length)
    ensures Block(kind, length, rest) == if CHUNK <= |rest| then Taken(rest[..CHUNK], CHUNK) else Bad
  {
    hide Inflate, Expand;
  }

  lemma {:induction false} ReadsRuns(length: nat, rest: seq<Byte>)
    requires !Stored(0, length)
    ensures 2 * length > |rest| ==> Block(0, length, rest) == Bad
    ensures 2 * length <= |rest| ==>
      Block(0, length, rest) == match Expand(rest[..2 * length], [])
        case Broken => Bad
        case Filled(b) => Taken(b, 2 * length)
  {
    hide Inflate, Expand;
  }

  lemma {:induction false} ReadsPacked(length: nat, rest: seq<Byte>)
    requires !Stored(1, length)
    ensures RoomFor(Start(), []) && (length > |rest| ==> Block(1, length, rest) == Bad)
    ensures length <= |rest| ==>
      Block(1, length, rest) == match Inflate(Start(), Bits(rest[..length]), [])
        case Refused => Bad
        case Chunk(b) => Taken(b, length)
  {
    StartRoom();
    hide Inflate, Expand;
  }

  lemma {:induction false} PackedInflates(ks: seq<Token>, bytes: seq<Byte>)
    requires Compressed(ks, bytes)
    ensures RoomFor(Start(), []) && CHUNK <= |Produce([], ks)|
    ensures Inflate(Start(), Bits(bytes), []) == Chunk(Produce([], ks)[..CHUNK])
  {
    hide Inflate, Produce, Fills, Bits, Start, Good, EncodeTokens;
    StartRoom();
    FillsIsShort([], ks);
    var code := EncodeTokens(Start(), ks);
    var tail := Bits(bytes)[|code|..];
    assert Bits(bytes) == code + tail;
    InflateEncoded(Start(), ks, [], tail);
  }

  lemma {:induction false} InflatedIsPacked(bytes: seq<Byte>) returns (ks: seq<Token>)
    requires RoomFor(Start(), []) && Inflate(Start(), Bits(bytes), []).Chunk?
    ensures Compressed(ks, bytes) && CHUNK <= |Produce([], ks)|
    ensures Inflate(Start(), Bits(bytes), []).bytes == Produce([], ks)[..CHUNK]
  {
    hide Inflate, Produce, Fills, Bits, Start, Good, EncodeTokens;
    var tail;
    ks, tail := InflatedIsEncoded(Start(), Bits(bytes), []);
  }

  lemma {:induction false} FrontIs(a: seq<Byte>, rest: seq<Byte>)
    ensures (a + rest)[..|a|] == a
  {
  }

  /** The chunk reader takes a coded chunk for the block it stands for, whatever follows. */
  lemma {:induction false} CodingReads(kind: nat, c: Coding, rest: seq<Byte>)
    requires ValidCoding(kind, c)
    ensures 0 <= CodingLength(kind, c)
    ensures Block(kind, CodingLength(kind, c), CodingBytes(kind, c) + rest) ==
            Taken(CodingBlock(kind, c), |CodingBytes(kind, c)|)
  {
    hide Block, Inflate, Expand, Codes, Meaning, Compressed, Produce, Bits, ValidPieces;
    LengthFits(kind, c);
    FrontIs(CodingBytes(kind, c), rest);
    match c {
      case Kept(_, _) => ReadsStored(kind, CodingLength(kind, c), c.block + rest);
      case Runs(ps) =>
        CodesAreWords(ps);
        ReadsRuns(|Codes(ps)| / 2, Codes(ps) + rest);
        ExpandCodes(ps, []);
        assert [] + Meaning(ps) == Meaning(ps);
      case Packed(ks, bytes) =>
        ReadsPacked(|bytes|, bytes + rest);
        PackedInflates(ks, bytes);
    }
  }

  /** Whatever the chunk reader takes is a coded chunk. */
  lemma {:induction false} TakenIsCoding(kind: nat, length: nat, rest: seq<Byte>) returns (c: Coding)
    requires kind <= 2 && 0 < length < 0x1_0000 && Block(kind, length, rest).Taken?
    ensures ValidCoding(kind, c) && CodingLength(kind, c) == length
    ensures var t := Block(kind, length, rest);
      CodingBlock(kind, c) == t.block && CodingBytes(kind, c) == rest[..t.bytes]
  {
    hide Inflate, Expand, Codes, Meaning, Compressed, Produce, Bits, ValidPieces;
    if Stored(kind, length) {
      ReadsStored(kind, length, rest);
      hide Block;
      c := Kept(rest[..CHUNK], length != 0xffff);
    } else if kind == 1 {
      ReadsPacked(length, rest);
      hide Block;
      var ks := InflatedIsPacked(rest[..length]);
      c := Packed(ks, rest[..length]);
    } else {
      assert kind == 0;
      ReadsRuns(length, rest);
      hide Block;
      var ps := ExpandedIsCodes(rest[..2 * length], []);
      assert [] + Meaning(ps) == Meaning(ps);
      c := Runs(ps);
    }
  }

  // ----- whole archives

  ghost predicate ValidCodings(kind: nat, cs: seq<Coding>) {
    forall i :: 0 <= i < |cs| ==> ValidCoding(kind, cs[i])
  }

  ghost function Bodies(kind: nat, cs: seq<Coding>): seq<Byte>
    requires ValidCodings(kind, cs)
  {
    if cs == [] then [] else CodingBytes(kind, cs[0]) + Bodies(kind, cs[1..])
  }

  /** The data of the chunks, and their tags. */
  ghost function DataOf(kind: nat, cs: seq<Coding>): seq<Byte>
    requires ValidCodings(kind, cs)
  {
    if cs == [] then [] else
    LengthFits(kind, cs[0]);
    CodingBlock(kind, cs[0])[..DATA] + DataOf(kind, cs[1..])
  }

  ghost function TagsOf(kind: nat, cs: seq<Coding>): seq<Byte>
    requires ValidCodings(kind, cs)
  {
    if cs == [] then [] else
    LengthFits(kind, cs[0]);
    CodingBlock(kind, cs[0])[DATA..] + TagsOf(kind, cs[1..])
  }

  /** A high-density disk has no tags: its chunks hold zeros there. */
  ghost predicate Untagged(kind: nat, c: Coding)
    requires ValidCoding(kind, c)
  {
    LengthFits(kind, c);
    Zeros(CodingBlock(kind, c)[DATA..])
  }

  /** An archive: its kind and size, one length per chunk, zeros for the spare ones, and the chunks. */
  ghost predicate IsArchive(raw: seq<Byte>, kind: nat, kib: nat, cs: seq<Coding>) {
    && kind <= 2 && Size(kib) && |cs| == ChunkCount(kib) && ValidCodings(kind, cs) && Prefix(kib) <= |raw|
    && raw[0] == kind && raw[1] == (if kib == 1440 then 16 else 1) && Be16(raw, 2) == kib
    && (forall i :: 0 <= i < Entries(kib) ==> HasLength(raw, kind, cs, i))
    && raw[Prefix(kib)..] == Bodies(kind, cs)
    && (kib == 1440 ==> forall i :: 0 <= i < |cs| ==> Untagged(kind, cs[i]))
  }

  ghost predicate HasLength(raw: seq<Byte>, kind: nat, cs: seq<Coding>, i: nat)
    requires ValidCodings(kind, cs) && 4 + 2 * i + 1 < |raw|
  {
    Be16(raw, 4 + 2 * i) == if i < |cs| then CodingLength(kind, cs[i]) else 0
  }

  /** What an archive holds. */
  ghost function Contents(kind: nat, kib: nat, cs: seq<Coding>): Unpacked
    requires ValidCodings(kind, cs)
  {
    Unpacked(DataOf(kind, cs), if kib == 1440 then [] else TagsOf(kind, cs))
  }

  /** One chunk of an archive. */
  lemma {:induction false} ChunkOfArchive(raw: seq<Byte>, kind: nat, kib: nat, cs: seq<Coding>, i: nat, offset: nat)
    requires IsArchive(raw, kind, kib, cs) && i < |cs| && offset <= |raw|
    requires ValidCodings(kind, cs[i..]) && raw[offset..] == Bodies(kind, cs[i..])
    ensures ValidCoding(kind, cs[i]) && |CodingBlock(kind, cs[i])| == CHUNK && ValidCodings(kind, cs[i + 1..])
    ensures 4 + 2 * i + 1 < |raw| && 0 < Be16(raw, 4 + 2 * i)
    ensures Block(kind, Be16(raw, 4 + 2 * i), raw[offset..]) ==
            Taken(CodingBlock(kind, cs[i]), |CodingBytes(kind, cs[i])|)
    ensures var next := offset + |CodingBytes(kind, cs[i])|;
      next <= |raw| && raw[next..] == Bodies(kind, cs[i + 1..])
    ensures kib == 1440 ==> Zeros(CodingBlock(kind, cs[i])[DATA..])
  {
    hide ValidCoding, CodingBytes, CodingLength, CodingBlock, Block, Zeros;
    var c, rest := cs[i], cs[i..][1..];
    assert rest == cs[i + 1..] && cs[i..][0] == c;
    LengthFits(kind, c);
    CodingReads(kind, c, Bodies(kind, rest));
    var n := |CodingBytes(kind, c)|;
    assert raw[offset + n..] == raw[offset..][n..];
    assert HasLength(raw, kind, cs, i);
    assert kib == 1440 ==> Untagged(kind, c);
  }

  /** From chunk `i` on, where the rest of the archive starts at `offset`. */
  lemma {:induction false} ChunksOf(raw: seq<Byte>, kind: nat, kib: nat, cs: seq<Coding>, i: nat, offset: nat,
                                    data: seq<Byte>, tags: seq<Byte>)
    requires IsArchive(raw, kind, kib, cs) && Header(raw) && i <= |cs| && offset <= |raw|
    requires ValidCodings(kind, cs[i..]) && raw[offset..] == Bodies(kind, cs[i..])
    ensures Chunks(raw, i, offset, data, tags) ==
      Unpacked(data + DataOf(kind, cs[i..]), if kib == 1440 then [] else tags + TagsOf(kind, cs[i..]))
    decreases |cs| - i
  {
    hide ValidCoding, CodingBytes, CodingBlock, Header, Block, Zeros, HasLength, Untagged, Bodies;
    if i == |cs| {
      assert cs[i..] == [];
      assert data + [] == data && tags + [] == tags;
      NoBodies(kind);
      SpareChunks(raw, kind, kib, cs, i, offset, data, tags);
    } else {
      var c, rest := cs[i], cs[i..][1..];
      assert rest == cs[i + 1..] && cs[i..][0] == c;
      ChunkOfArchive(raw, kind, kib, cs, i, offset);
      var n, b := |CodingBytes(kind, c)|, CodingBlock(kind, c);
      ChunksOf(raw, kind, kib, cs, i + 1, offset + n, data + b[..DATA], tags + b[DATA..]);
      Regroup(data, b[..DATA], DataOf(kind, rest));
      Regroup(tags, b[DATA..], TagsOf(kind, rest));
    }
  }

  lemma {:induction false} NoBodies(kind: nat)
    ensures Bodies(kind, []) == []
  {
  }

  lemma {:induction false} SpareChunks(raw: seq<Byte>, kind: nat, kib: nat, cs: seq<Coding>, i: nat, offset: nat,
                                       data: seq<Byte>, tags: seq<Byte>)
    requires IsArchive(raw, kind, kib, cs) && Header(raw) && |cs| <= i <= Entries(kib) && offset == |raw|
    ensures Chunks(raw, i, offset, data, tags) == Unpacked(data, if kib == 1440 then [] else tags)
    decreases Entries(kib) - i
  {
    hide ValidCoding, Header, Block;
    if i < Entries(kib) {
      assert HasLength(raw, kind, cs, i);
      SpareChunks(raw, kind, kib, cs, i + 1, offset, data, tags);
    }
  }

  /** Every archive unpacks to what its chunks mean, whichever way each of them is coded. */
  lemma {:induction false} ArchiveUnpacks(raw: seq<Byte>, kind: nat, kib: nat, cs: seq<Coding>)
    requires IsArchive(raw, kind, kib, cs)
    ensures Unpack(raw) == Contents(kind, kib, cs)
  {
    hide ValidCoding, Chunks;
    assert Header(raw);
    assert cs[0..] == cs;
    ChunksOf(raw, kind, kib, cs, 0, Prefix(kib), [], []);
    assert [] + DataOf(kind, cs) == DataOf(kind, cs) && [] + TagsOf(kind, cs) == TagsOf(kind, cs);
  }

  /** The chunks from number `i` on are coded chunks, with the lengths the header gives. */
  ghost predicate Holds(raw: seq<Byte>, kind: nat, kib: nat, i: nat, offset: nat, cs: seq<Coding>)
    requires Header(raw) && kib == Be16(raw, 2) && i <= Entries(kib) && offset <= |raw|
  {
    && ValidCodings(kind, cs) && raw[offset..] == Bodies(kind, cs)
    && |cs| == (if i < ChunkCount(kib) then ChunkCount(kib) - i else 0)
    && (forall k :: i <= k < Entries(kib) ==> LengthIs(raw, kind, cs, i, k))
    && (kib == 1440 ==> forall k :: 0 <= k < |cs| ==> Untagged(kind, cs[k]))
  }

  ghost predicate LengthIs(raw: seq<Byte>, kind: nat, cs: seq<Coding>, i: nat, k: nat)
    requires ValidCodings(kind, cs) && 4 + 2 * k + 1 < |raw| && i <= k
  {
    Be16(raw, 4 + 2 * k) == if k - i < |cs| then CodingLength(kind, cs[k - i]) else 0
  }

  lemma {:induction false} HoldsMore(raw: seq<Byte>, kind: nat, kib: nat, i: nat, offset: nat, n: nat,
                                     c: Coding, more: seq<Coding>)
    requires Header(raw) && kib == Be16(raw, 2) && i < ChunkCount(kib) && offset + n <= |raw|
    requires Holds(raw, kind, kib, i + 1, offset + n, more)
    requires ValidCoding(kind, c) && CodingLength(kind, c) == Be16(raw, 4 + 2 * i)
    requires CodingBytes(kind, c) == raw[offset..][..n]
    requires kib == 1440 ==> Untagged(kind, c)
    ensures Holds(raw, kind, kib, i, offset, [c] + more)
  {
    hide ValidCoding, CodingLength, CodingBytes, Untagged;
    var cs := [c] + more;
    assert cs[1..] == more;
    assert raw[offset..] == raw[offset..][..n] + raw[offset + n..];
    forall k | i <= k < Entries(kib)
      ensures LengthIs(raw, kind, cs, i, k)
    {
      if k > i { assert LengthIs(raw, kind, more, i + 1, k); }
    }
  }

  lemma {:induction false} ChunksAreCoded(raw: seq<Byte>, i: nat, offset: nat, data: seq<Byte>, tags: seq<Byte>)
    returns (cs: seq<Coding>)
    requires Header(raw) && i <= Entries(Be16(raw, 2)) && offset <= |raw|
    requires Chunks(raw, i, offset, data, tags).Unpacked?
    ensures Holds(raw, raw[0], Be16(raw, 2), i, offset, cs)
    decreases Entries(Be16(raw, 2)) - i
  {
    hide ValidCoding, CodingBytes, CodingLength, CodingBlock, Block, Zeros;
    var kind, kib := raw[0], Be16(raw, 2);
    if i == Entries(kib) {
      cs := [];
    } else if i >= ChunkCount(kib) {
      cs := ChunksAreCoded(raw, i + 1, offset, data, tags);
      forall k | i <= k < Entries(kib)
        ensures LengthIs(raw, kind, cs, i, k)
      {
        if k > i { assert LengthIs(raw, kind, cs, i + 1, k); }
      }
    } else {
      var t := Block(kind, Be16(raw, 4 + 2 * i), raw[offset..]);
      var more := ChunksAreCoded(raw, i + 1, offset + t.bytes, data + t.block[..DATA], tags + t.block[DATA..]);
      var c := TakenIsCoding(kind, Be16(raw, 4 + 2 * i), raw[offset..]);
      HoldsMore(raw, kind, kib, i, offset, t.bytes, c, more);
      cs := [c] + more;
    }
  }

  /** And nothing else unpacks: what does is an archive of coded chunks. */
  lemma {:induction false} UnpackedIsArchive(raw: seq<Byte>) returns (kind: nat, kib: nat, cs: seq<Coding>)
    requires Unpack(raw).Unpacked?
    ensures IsArchive(raw, kind, kib, cs) && Unpack(raw) == Contents(kind, kib, cs)
  {
    hide ValidCoding, Chunks;
    kind, kib := raw[0], Be16(raw, 2);
    cs := ChunksAreCoded(raw, 0, Prefix(kib), [], []);
    forall i | 0 <= i < Entries(kib)
      ensures HasLength(raw, kind, cs, i)
    {
      assert LengthIs(raw, kind, cs, 0, i);
    }
    ArchiveUnpacks(raw, kind, kib, cs);
  }
}
