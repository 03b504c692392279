/** What a DART chunk means: a stream of literals and matches over an unbounded history, and its encoding. */
module LzhTokens {
  import opened Sequences
  import opened HuffmanTree
  import opened LzhStream

  datatype Token = Literal(byte: Byte) | Match(length: nat, offset: nat)

  predicate ValidToken(k: Token) {
    k.Match? ==> 3 <= k.length <= 60 && k.offset < 4096
  }

  predicate ValidTokens(ks: seq<Token>) {
    forall i :: 0 <= i < |ks| ==> ValidToken(ks[i])
  }

  // ----- meaning

  /** The byte `offset + 1` positions back, in a history preceded by zeros. */
  function Back(out: seq<Byte>, offset: nat): Byte {
    if offset < |out| then out[|out| - 1 - offset] else 0
  }

  /** A match of `n` bytes. Each byte is copied before the next is looked up, so it may overlap itself. */
  function Copy(out: seq<Byte>, offset: nat, n: nat): (r: seq<Byte>)
    ensures |r| == |out| + n && out <= r
    decreases n
  {
    if n == 0 then out else Copy(out + [Back(out, offset)], offset, n - 1)
  }

  function Emit(out: seq<Byte>, k: Token): (r: seq<Byte>)
    requires ValidToken(k)
    ensures |out| < |r| && out <= r
  {
    match k
    case Literal(b) => out + [b]
    case Match(n, offset) => Copy(out, offset, n)
  }

  function Produce(out: seq<Byte>, ks: seq<Token>): (r: seq<Byte>)
    requires ValidTokens(ks)
    ensures out <= r
    decreases |ks|
  {
    if ks == [] then out else Produce(Emit(out, ks[0]), ks[1..])
  }

  /** Every byte of a match is the one `offset + 1` positions before it, or a zero from before the start. */
  lemma {:induction false} CopyReachesBack(out: seq<Byte>, offset: nat, n: nat, i: nat)
    requires |out| <= i < |out| + n
    ensures Copy(out, offset, n)[i] == if i < offset + 1 then 0 else Copy(out, offset, n)[i - offset - 1]
    decreases n
  {
    var out' := out + [Back(out, offset)];
    var r := Copy(out', offset, n - 1);
    if i == |out| {
      assert r[i] == out'[i];
      if offset < |out| { assert r[i - offset - 1] == out'[i - offset - 1]; }
    } else {
      CopyReachesBack(out', offset, n - 1, i);
    }
  }

  /** The first bytes of a longer copy are the shorter copy. */
  lemma {:induction false} CopyPrefix(out: seq<Byte>, offset: nat, n: nat, m: nat)
    requires n <= m
    ensures Copy(out, offset, n) <= Copy(out, offset, m)
    decreases n
  {
    if n > 0 {
      CopyPrefix(out + [Back(out, offset)], offset, n - 1, m - 1);
    }
  }

  /** One more byte can as well be copied last. */
  lemma {:induction false} CopySnoc(out: seq<Byte>, offset: nat, n: nat)
    ensures Copy(out, offset, n + 1) == Copy(out, offset, n) + [Back(Copy(out, offset, n), offset)]
    decreases n
  {
    if n > 0 {
      CopySnoc(out + [Back(out, offset)], offset, n - 1);
    }
  }

  // ----- encoding

  function SymbolOf(k: Token): (s: nat)
    requires ValidToken(k)
    ensures s < SYMBOLS
  {
    match k case Literal(b) => b case Match(n, _) => n + 253
  }

  function TokenCode(t: Tree, k: Token): seq<bool>
    requires Linked(t) && ValidToken(k)
  {
    Code(t, SymbolOf(k)) + (if k.Match? then DistanceCode(k.offset) else [])
  }

  function EncodeTokens(t: Tree, ks: seq<Token>): seq<bool>
    requires ValidTokens(ks) && Room(t, |ks|)
    decreases |ks|
  {
    if ks == [] then [] else TokenCode(t, ks[0]) + EncodeTokens(Update(t, SymbolOf(ks[0])), ks[1..])
  }

  // ----- decoding

  datatype Parsed = Stop | Next(token: Token, rest: seq<bool>)

  function ParseToken(t: Tree, bits: seq<bool>): (p: Parsed)
    requires Linked(t)
    ensures p.Next? ==> ValidToken(p.token)
  {
    match Walk(t, Top(t), bits)
    case Exhausted => Stop
    case Symbol(s, rest) =>
      if s < 256 then Next(Literal(s), rest)
      else match ReadDistance(rest)
        case Missing => Stop
        case Got(offset, rest') =>
          DistanceIsCode(rest);
          Next(Match(s - 253, offset), rest')
  }

  /** The token reader reads token `k` exactly off the encoding of `k`. */
  lemma {:induction false} ParseIsCode(t: Tree, bits: seq<bool>, k: Token, rest: seq<bool>)
    requires Linked(t) && ValidToken(k)
    ensures ParseToken(t, bits) == Next(k, rest) <==> bits == TokenCode(t, k) + rest
  {
    var s := SymbolOf(k);
    if ParseToken(t, bits) == Next(k, rest) {
      var after := Walk(t, Top(t), bits).rest;
      CodeIsUnique(t, bits, s, after);
      if k.Match? {
        DistanceIsCode(after);
        Regroup(Code(t, s), DistanceCode(k.offset), rest);
      } else {
        assert Code(t, s) + [] == Code(t, s);
      }
    }
    if bits == TokenCode(t, k) + rest {
      if k.Match? {
        Regroup(Code(t, s), DistanceCode(k.offset), rest);
        CodeIsUnique(t, bits, s, DistanceCode(k.offset) + rest);
        DistanceRoundTrip(k.offset, rest);
      } else {
        assert Code(t, s) + [] == Code(t, s);
        CodeIsUnique(t, bits, s, rest);
      }
    }
  }

  datatype Inflated = Refused | Chunk(bytes: seq<Byte>)

  ghost predicate RoomFor(t: Tree, out: seq<Byte>) {
    Room(t, if |out| < CHUNK then CHUNK - |out| else 0)
  }

  /** Decode tokens until the history holds a whole chunk; a last match may run past the end and is clipped. */
  function Inflate(t: Tree, bits: seq<bool>, out: seq<Byte>): (r: Inflated)
    requires RoomFor(t, out)
    ensures r.Chunk? ==> |r.bytes| == CHUNK
    decreases CHUNK - |out|
  {
    if CHUNK <= |out| then Chunk(out[..CHUNK])
    else match ParseToken(t, bits)
      case Stop => Refused
      case Next(k, rest) => Inflate(Update(t, SymbolOf(k)), rest, Emit(out, k))
  }

  /** The tokens fill a chunk, and none of them starts after it is full. */
  ghost predicate Fills(out: seq<Byte>, ks: seq<Token>)
    requires ValidTokens(ks)
    decreases |ks|
  {
    if ks == [] then CHUNK <= |out| else |out| < CHUNK && Fills(Emit(out, ks[0]), ks[1..])
  }

  lemma {:induction false} FillsIsShort(out: seq<Byte>, ks: seq<Token>)
    requires ValidTokens(ks) && Fills(out, ks)
    ensures |out| < CHUNK ==> |ks| <= CHUNK - |out|
    ensures CHUNK <= |out| ==> ks == []
    ensures CHUNK <= |Produce(out, ks)|
    decreases |ks|
  {
    if ks != [] { FillsIsShort(Emit(out, ks[0]), ks[1..]); }
  }

  /** Decoding an encoded token stream yields what the tokens mean. */
  lemma {:induction false} InflateEncoded(t: Tree, ks: seq<Token>, out: seq<Byte>, tail: seq<bool>)
    requires ValidTokens(ks) && Fills(out, ks) && RoomFor(t, out) && Room(t, |ks|)
    ensures CHUNK <= |Produce(out, ks)|
    ensures Inflate(t, EncodeTokens(t, ks) + tail, out) == Chunk(Produce(out, ks)[..CHUNK])
    decreases |ks|
  {
    if ks != [] {
      var t' := Update(t, SymbolOf(ks[0]));
      var more := EncodeTokens(t', ks[1..]) + tail;
      Regroup(TokenCode(t, ks[0]), EncodeTokens(t', ks[1..]), tail);
      ParseIsCode(t, EncodeTokens(t, ks) + tail, ks[0], more);
      InflateEncoded(t', ks[1..], Emit(out, ks[0]), tail);
    }
  }

  /** And nothing else is accepted: bits that decode are the encoding of some token stream that fills the chunk. */
  lemma {:induction false} InflatedIsEncoded(t: Tree, bits: seq<bool>, out: seq<Byte>)
    returns (ks: seq<Token>, tail: seq<bool>)
    requires RoomFor(t, out) && Inflate(t, bits, out).Chunk?
    ensures ValidTokens(ks) && Fills(out, ks) && Room(t, |ks|)
    ensures bits == EncodeTokens(t, ks) + tail
    ensures CHUNK <= |Produce(out, ks)|
    ensures Inflate(t, bits, out).bytes == Produce(out, ks)[..CHUNK]
    decreases CHUNK - |out|
  {
    if CHUNK <= |out| {
      ks, tail := [], bits;
      assert bits == EncodeTokens(t, ks) + tail;
    } else {
      var p := ParseToken(t, bits);
      var t' := Update(t, SymbolOf(p.token));
      var ks', tail' := InflatedIsEncoded(t', p.rest, Emit(out, p.token));
      ks, tail := [p.token] + ks', tail';
      Prepend(t, out, p.token, ks', p.rest, bits, tail);
    }
  }

  lemma {:induction false} Prepend(t: Tree, out: seq<Byte>, k: Token, ks: seq<Token>, rest: seq<bool>,
                                   bits: seq<bool>, tail: seq<bool>)
    requires |out| < CHUNK && RoomFor(t, out) && ParseToken(t, bits) == Next(k, rest)
    requires ValidTokens(ks) && Fills(Emit(out, k), ks) && Room(Update(t, SymbolOf(k)), |ks|)
    requires rest == EncodeTokens(Update(t, SymbolOf(k)), ks) + tail
    ensures ValidTokens([k] + ks) && Fills(out, [k] + ks) && Room(t, |[k] + ks|)
    ensures bits == EncodeTokens(t, [k] + ks) + tail
    ensures Produce(out, [k] + ks) == Produce(Emit(out, k), ks)
    ensures CHUNK <= |Produce(out, [k] + ks)|
  {
    var all := [k] + ks;
    assert all[1..] == ks;
    assert Fills(out, all);
    FillsIsShort(out, all);
    ParseIsCode(t, bits, k, rest);
    Regroup(TokenCode(t, k), EncodeTokens(Update(t, SymbolOf(k)), ks), tail);
  }

  /** A token stream that fills a chunk, encoded from the starting tree and packed into bytes, decodes to what its
  tokens mean, whatever bytes follow it. */
  lemma {:induction false} PackedChunkRoundTrip(ks: seq<Token>, more: seq<Byte>)
    requires ValidTokens(ks) && Fills([], ks)
    ensures |ks| <= CHUNK && Room(Start(), CHUNK) && CHUNK <= |Produce([], ks)|
    ensures Inflate(Start(), Bits(Pack(EncodeTokens(Start(), ks)) + more), []) == Chunk(Produce([], ks)[..CHUNK])
  {
    hide Inflate, Produce, Fills, Pack, Bits, Start, Good, EncodeTokens;
    StartGood();
    FillsIsShort([], ks);
    var bits := EncodeTokens(Start(), ks);
    PackedBits(bits);
    BitsAppend(Pack(bits), more);
    var all := Bits(Pack(bits) + more);
    assert all == bits + all[|bits|..];
    InflateEncoded(Start(), ks, [], all[|bits|..]);
  }
}
