/** The bit stream of one DART chunk: bytes as bits, the distance code, tokens, and what a token stream means.

Nothing here knows the 4096-byte window. A match reads from an unbounded history that starts with zeros. */
module LzhStream {
  import opened Sequences
  import opened HuffmanTree

  // ----- fixed-width numbers

  datatype Field = Missing | Got(value: nat, rest: seq<bool>)

  /** `v` without its `k` lowest bits. */
  function Shifted(v: nat, k: nat): nat {
    if k == 0 then v else Shifted(v, k - 1) / 2
  }

  /** The `n` lowest bits of `v`, most significant first. */
  function Digits(v: nat, n: nat): (b: seq<bool>)
    ensures |b| == n
  {
    if n == 0 then [] else Digits(v / 2, n - 1) + [v % 2 == 1]
  }

  lemma {:induction false} ShiftedTwice(v: nat, k: nat)
    ensures Shifted(v / 2, k) == Shifted(v, k) / 2
  {
    if k > 0 { ShiftedTwice(v, k - 1); }
  }

  lemma {:induction false} DigitAt(v: nat, n: nat, i: nat)
    requires i < n
    ensures Bit(Digits(v, n)[i]) == Shifted(v, n - 1 - i) % 2
  {
    if i < n - 1 {
      DigitAt(v / 2, n - 1, i);
      ShiftedTwice(v, n - 2 - i);
    }
  }

  /** The digits of `v` from the one of weight 2^(k-1) on, and what follows them, one digit at a time. */
  lemma {:induction false} PeelDigit(v: nat, n: nat, k: nat, rest: seq<bool>)
    requires 1 <= k <= n
    ensures var bits := Digits(v, n)[n - k..] + rest;
      bits != [] && Bit(bits[0]) == Shifted(v, k - 1) % 2 && bits[1..] == Digits(v, n)[n - k + 1..] + rest
  {
    DigitAt(v, n, n - k);
  }

  /** Shift `n` more bits into `acc`. */
  function ReadNumber(bits: seq<bool>, n: nat, acc: nat): Field
    decreases |bits|
  {
    if n == 0 then Got(acc, bits)
    else if bits == [] then Missing
    else ReadNumber(bits[1..], n - 1, 2 * acc + Bit(bits[0]))
  }

  lemma {:induction false} ReadDigits(v: nat, n: nat, k: nat, rest: seq<bool>)
    requires k <= n
    ensures ReadNumber(Digits(v, n)[n - k..] + rest, k, Shifted(v, k)) == Got(v, rest)
    decreases k
  {
    if k == 0 {
      assert Digits(v, n)[n..] + rest == rest;
    } else {
      PeelDigit(v, n, k, rest);
      ReadDigits(v, n, k - 1, rest);
    }
  }

  lemma {:induction false} DigitsRead(bits: seq<bool>, n: nat, k: nat, acc: nat)
    requires k <= n && ReadNumber(bits, k, acc).Got?
    ensures var f := ReadNumber(bits, k, acc);
      acc == Shifted(f.value, k) && bits == Digits(f.value, n)[n - k..] + f.rest
    decreases k
  {
    if k > 0 {
      DigitsRead(bits[1..], n, k - 1, 2 * acc + Bit(bits[0]));
      var f := ReadNumber(bits, k, acc);
      DigitAt(f.value, n, n - k);
      assert bits == [bits[0]] + bits[1..];
    }
  }

  lemma {:induction false} Enough(bits: seq<bool>, n: nat, acc: nat)
    requires n <= |bits|
    ensures var f := ReadNumber(bits, n, acc); f.Got? && f.rest == bits[n..]
    decreases n
  {
    if n > 0 { Enough(bits[1..], n - 1, 2 * acc + Bit(bits[0])); }
  }

  function Pow2(n: nat): nat {
    if n == 0 then 1 else 2 * Pow2(n - 1)
  }

  lemma {:induction false} ShiftedOut(v: nat, n: nat)
    ensures Shifted(v, n) == 0 <==> v < Pow2(n)
  {
    if n > 0 {
      ShiftedOut(v / 2, n - 1);
      ShiftedTwice(v, n - 1);
    }
  }

  // ----- bytes and bits

  /** The bits of the input, each byte most significant bit first. */
  function Bits(input: seq<Byte>): (bits: seq<bool>)
    ensures |bits| == 8 * |input|
  {
    if input == [] then [] else Digits(input[0], 8) + Bits(input[1..])
  }

  lemma {:induction false} BitsAt(input: seq<Byte>, k: nat)
    requires k < 8 * |input|
    ensures Bit(Bits(input)[k]) == Shifted(input[k / 8], 7 - k % 8) % 2
  {
    if k < 8 {
      DigitAt(input[0], 8, k);
    } else {
      BitsAt(input[1..], k - 8);
    }
  }

  lemma {:induction false} BitsAppend(a: seq<Byte>, b: seq<Byte>)
    ensures Bits(a + b) == Bits(a) + Bits(b)
    decreases |a|
  {
    if a == [] {
      assert a + b == b;
    } else {
      assert (a + b)[1..] == a[1..] + b;
      BitsAppend(a[1..], b);
    }
  }

  /** The byte with the given bits. */
  function Octet(bits: seq<bool>): (v: Byte)
    requires |bits| == 8
    ensures Digits(v, 8) == bits
  {
    Enough(bits, 8, 0);
    DigitsRead(bits, 8, 8, 0);
    var f := ReadNumber(bits, 8, 0);
    ShiftedOut(f.value, 8);
    assert f.rest == [];
    f.value
  }

  /** Bits as bytes, the last byte filled up with zeros. */
  function Pack(bits: seq<bool>): seq<Byte>
    decreases |bits|
  {
    if bits == [] then []
    else if |bits| < 8 then [Octet(bits + seq(8 - |bits|, i => false))]
    else [Octet(bits[..8])] + Pack(bits[8..])
  }

  /** Reading packed bits back gives the bits, followed by less than a byte of padding. */
  lemma {:induction false} PackedBits(bits: seq<bool>)
    ensures bits <= Bits(Pack(bits)) && |Bits(Pack(bits))| < |bits| + 8
    decreases |bits|
  {
    if bits == [] {
    } else if |bits| < 8 {
      var b := bits + seq(8 - |bits|, i => false);
      assert Bits([Octet(b)]) == Digits(Octet(b), 8) + Bits([]);
    } else {
      PackedBits(bits[8..]);
      var packed := Pack(bits);
      assert packed[1..] == Pack(bits[8..]);
      assert bits == bits[..8] + bits[8..];
    }
  }

  // ----- distances

  /** How many code words have `length` bits. */
  function Count(length: nat): nat {
    match length case 3 => 1 case 4 => 3 case 5 => 8 case 6 => 12 case 7 => 24 case 8 => 16 case _ => 0
  }

  /** Bits in the code of the upper six distance bits `u`. */
  function Width(u: nat): (w: nat)
    requires u < 64
    ensures 3 <= w <= 8
  {
    if u < 1 then 3 else if u < 4 then 4 else if u < 12 then 5 else if u < 24 then 6 else if u < 48 then 7 else 8
  }

  /** That code as a number. Codes of one width are consecutive. */
  function Word(u: nat): nat
    requires u < 64
  {
    if u < 1 then 0 else if u < 4 then u + 1 else if u < 12 then u + 6
    else if u < 24 then u + 24 else if u < 48 then u + 72 else u + 192
  }

  /** A distance as the stream stores it. */
  function DistanceCode(offset: nat): seq<bool>
    requires offset < 4096
  {
    Digits(Word(offset / 64), Width(offset / 64)) + Digits(offset % 64, 6)
  }

  /** The first code word of width `length`, and how many words are shorter. */
  function First(length: nat): nat
    requires 1 <= length <= 9
  {
    if length == 1 then 0 else (First(length - 1) + Count(length - 1)) * 2
  }

  function Base(length: nat): nat
    requires 1 <= length <= 9
  {
    if length == 1 then 0 else Base(length - 1) + Count(length - 1)
  }

  predicate Hit(length: nat, code: nat)
    requires 1 <= length <= 8
  {
    First(length) <= code < First(length) + Count(length)
  }

  /** Search the canonical code one width at a time, from width `length` on. */
  function Search(bits: seq<bool>, length: nat, code: nat): (r: Field)
    requires 1 <= length <= 9
    decreases |bits|
  {
    if length == 9 || bits == [] then Missing
    else
      var code' := 2 * code + Bit(bits[0]);
      if Hit(length, code') then Got(Base(length) + code' - First(length), bits[1..])
      else Search(bits[1..], length + 1, code')
  }

  function ReadDistance(bits: seq<bool>): Field {
    match Search(bits, 1, 0)
    case Missing => Missing
    case Got(u, rest) =>
      match ReadNumber(rest, 6, 0)
      case Missing => Missing
      case Got(low, rest') => Got(u * 64 + low, rest')
  }

  lemma {:induction false} SearchTable()
    ensures First(1) == First(2) == First(3) == 0 && First(4) == 2 && First(5) == 10
    ensures First(6) == 36 && First(7) == 96 && First(8) == 240
    ensures Base(1) == Base(2) == Base(3) == 0 && Base(4) == 1 && Base(5) == 4
    ensures Base(6) == 12 && Base(7) == 24 && Base(8) == 48
  {
    assert First(2) == 0 && Base(2) == 0;
    assert First(3) == 0 && Base(3) == 0;
    assert First(4) == 2 && Base(4) == 1;
    assert First(5) == 10 && Base(5) == 4;
    assert First(6) == 36 && Base(6) == 12;
    assert First(7) == 96 && Base(7) == 24;
  }

  /** Within one width the search and the code table agree. */
  lemma {:induction false} SearchHits(length: nat, code: nat)
    requires 1 <= length <= 8 && Hit(length, code)
    ensures var u := Base(length) + code - First(length); u < 64 && Width(u) == length && Word(u) == code
  {
    SearchTable();
    var k := length;
    assert k == 1 || k == 2 || k == 3 || k == 4 || k == 5 || k == 6 || k == 7 || k == 8;
  }

  lemma {:induction false} TableHits(u: nat)
    requires u < 64
    ensures Hit(Width(u), Word(u)) && u == Base(Width(u)) + Word(u) - First(Width(u))
  {
    SearchTable();
  }

  /** Read to fewer bits than its width, a code word lies above every word of that length. */
  lemma {:induction false} TableMisses(u: nat, length: nat)
    requires u < 64 && 1 <= length < Width(u)
    ensures !Hit(length, Shifted(Word(u), Width(u) - length))
  {
    SearchTable();
    Shifts(Word(u));
    var k := length;
    assert k == 1 || k == 2 || k == 3 || k == 4 || k == 5 || k == 6 || k == 7;
  }

  lemma {:induction false} Shifts(v: nat)
    requires v < 256
    ensures Shifted(v, 1) == v / 2 && Shifted(v, 2) == v / 4 && Shifted(v, 3) == v / 8 && Shifted(v, 4) == v / 16
    ensures Shifted(v, 5) == v / 32 && Shifted(v, 6) == v / 64 && Shifted(v, 7) == v / 128 && Shifted(v, 8) == 0
  {
    assert Shifted(v, 1) == v / 2;
    assert Shifted(v, 2) == v / 4;
    assert Shifted(v, 3) == v / 8;
    assert Shifted(v, 4) == v / 16;
    assert Shifted(v, 5) == v / 32;
    assert Shifted(v, 6) == v / 64;
    assert Shifted(v, 7) == v / 128;
  }

  /** Word `word` of width `w` stands for `u`, and no shorter reading of it is a hit. */
  ghost predicate Entry(u: nat, word: nat, w: nat) {
    && 1 <= w <= 8
    && Hit(w, word) && u == Base(w) + word - First(w)
    && forall length :: 1 <= length < w ==> Short(word, w, length)
  }

  ghost predicate Short(word: nat, w: nat, length: nat)
    requires 1 <= length < w <= 8
  {
    !Hit(length, Shifted(word, w - length))
  }

  lemma {:induction false} SearchReads(u: nat, word: nat, w: nat, length: nat, rest: seq<bool>,
                                       bits: seq<bool>, code: nat)
    requires Entry(u, word, w) && 1 <= length <= w
    requires bits == Digits(word, w)[length - 1..] + rest && code == Shifted(word, w - length + 1)
    ensures Search(bits, length, code) == Got(u, rest)
    decreases 9 - length
  {
    PeelDigit(word, w, w - length + 1, rest);
    hide Digits;
    var code' := Shifted(word, w - length);
    assert code' == 2 * code + Bit(bits[0]);
    if length == w {
      assert bits[1..] == rest;
    } else {
      assert !Hit(length, code') by { assert Short(word, w, length); }
      SearchReads(u, word, w, length + 1, rest, bits[1..], code');
    }
  }

  /** A search that succeeds has read some number `word` of width `w` that is a hit. */
  lemma {:induction false} SearchRead(bits: seq<bool>, length: nat, code: nat, f: Field) returns (word: nat, w: nat)
    requires 1 <= length <= 9
    requires f == Search(bits, length, code) && f.Got?
    ensures length <= w <= 8 && Hit(w, word) && f.value == Base(w) + word - First(w)
    ensures ReadNumber(bits, w - length + 1, code) == Got(word, f.rest)
    decreases 9 - length
  {
    var code' := 2 * code + Bit(bits[0]);
    if Hit(length, code') {
      word, w := code', length;
      assert ReadNumber(bits[1..], 0, code') == Got(word, f.rest);
    } else {
      word, w := SearchRead(bits[1..], length + 1, code', f);
    }
  }

  lemma {:induction false} TableEntry(u: nat)
    requires u < 64
    ensures Entry(u, Word(u), Width(u))
  {
    TableHits(u);
    forall length | 1 <= length < Width(u)
      ensures Short(Word(u), Width(u), length)
    {
      TableMisses(u, length);
    }
  }

  lemma {:induction false} UpperIsCode(bits: seq<bool>, f: Field)
    requires f == Search(bits, 1, 0) && f.Got?
    ensures f.value < 64 && bits == Digits(Word(f.value), Width(f.value)) + f.rest
  {
    var word, w := SearchRead(bits, 1, 0, f);
    DigitsRead(bits, w, w, 0);
    SearchHits(w, word);
  }

  lemma {:induction false} LowerIsDigits(bits: seq<bool>, f: Field)
    requires f == ReadNumber(bits, 6, 0) && f.Got?
    ensures f.value < 64 && bits == Digits(f.value, 6) + f.rest
  {
    DigitsRead(bits, 6, 6, 0);
    ShiftedOut(f.value, 6);
  }

  /** The distance reader accepts only distance codes, so only offsets 0..4095 come out of it. */
  lemma {:induction false} DistanceIsCode(bits: seq<bool>)
    requires ReadDistance(bits).Got?
    ensures var f := ReadDistance(bits); f.value < 4096 && bits == DistanceCode(f.value) + f.rest
  {
    hide Search, ReadNumber, Digits, Word, Width;
    var f := Search(bits, 1, 0);
    UpperIsCode(bits, f);
    var g := ReadNumber(f.rest, 6, 0);
    LowerIsDigits(f.rest, g);
    DistanceParts(f.value, g.value);
    Regroup(Digits(Word(f.value), Width(f.value)), Digits(g.value, 6), g.rest);
  }

  lemma {:induction false} DistanceParts(u: nat, low: nat)
    requires u < 64 && low < 64
    ensures DistanceCode(u * 64 + low) == Digits(Word(u), Width(u)) + Digits(low, 6)
  {
    assert (u * 64 + low) / 64 == u && (u * 64 + low) % 64 == low;
  }

  lemma {:induction false} TopShift(u: nat)
    requires u < 64
    ensures Shifted(Word(u), Width(u)) == 0
  {
    Shifts(Word(u));
  }

  lemma {:induction false} DistanceRoundTrip(offset: nat, rest: seq<bool>)
    requires offset < 4096
    ensures ReadDistance(DistanceCode(offset) + rest) == Got(offset, rest)
  {
    var u, low := offset / 64, offset % 64;
    var tail := Digits(low, 6) + rest;
    var bits := DistanceCode(offset) + rest;
    assert bits == Digits(Word(u), Width(u))[0..] + tail;
    TableEntry(u);
    TopShift(u);
    SearchReads(u, Word(u), Width(u), 1, tail, bits, 0);
    ShiftedOut(low, 6);
    ReadDigits(low, 6, 6, rest);
    assert tail == Digits(low, 6)[0..] + rest;
  }
}
