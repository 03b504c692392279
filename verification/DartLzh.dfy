/** The DART chunk decoder itself: the tree in flat arrays, updated in place, feeding a 4096-byte ring window.
Every method is proved against the value-level tree, the token meaning and the unbounded history. */
module DartLzh {
  import opened Sequences
  import opened HuffmanTree
  import opened LzhStream
  import opened LzhTokens

  const WINDOW := 4096
  const FIRST_HEAD := 4036

  /** Slot holding the byte `offset + 1` positions behind `head`. */
  function Slot(head: nat, offset: nat): (s: nat)
    requires head < WINDOW && offset < WINDOW
    ensures s < WINDOW
  {
    (head + WINDOW - 1 - offset) % WINDOW
  }

  /** The ring agrees with the unbounded, zero-prefixed history on everything a match can reach. */
  ghost predicate Mirrors(window: seq<Byte>, head: nat, out: seq<Byte>) {
    && |window| == WINDOW && head < WINDOW
    && forall offset :: 0 <= offset < WINDOW ==> window[Slot(head, offset)] == Back(out, offset)
  }

  lemma {:induction false} MirrorsStart(window: seq<Byte>)
    requires |window| == WINDOW && forall i :: 0 <= i < WINDOW ==> window[i] == 0
    ensures Mirrors(window, FIRST_HEAD, [])
  {
  }

  /** Writing at the head and advancing it appends to the history. */
  lemma {:induction false} MirrorsPush(window: seq<Byte>, head: nat, out: seq<Byte>, b: Byte)
    requires Mirrors(window, head, out)
    ensures Mirrors(window[head := b], (head + 1) % WINDOW, out + [b])
  {
    var head' := (head + 1) % WINDOW;
    forall offset | 0 <= offset < WINDOW
      ensures window[head := b][Slot(head', offset)] == Back(out + [b], offset)
    {
      if offset == 0 {
        assert Slot(head', 0) == head;
      } else {
        assert Slot(head', offset) == Slot(head, offset - 1) != head;
        assert window[Slot(head, offset - 1)] == Back(out, offset - 1);
      }
    }
  }

  lemma {:induction false} SlotAdvances(head: nat, offset: nat)
    requires head < WINDOW && offset < WINDOW
    ensures (Slot(head, offset) + 1) % WINDOW == Slot((head + 1) % WINDOW, offset)
  {
  }

  /** Stopping a match where the chunk is full changes nothing. */
  lemma {:induction false} InflateClipped(t: Tree, bits: seq<bool>, out: seq<Byte>, offset: nat, n: nat, length: nat)
    requires n <= length && (n == length || |out| + n == CHUNK)
    requires RoomFor(t, Copy(out, offset, length))
    ensures RoomFor(t, Copy(out, offset, n))
    ensures Inflate(t, bits, Copy(out, offset, n)) == Inflate(t, bits, Copy(out, offset, length))
  {
    CopyPrefix(out, offset, n, length);
  }

  /** What one token does to a decoding under way. */
  lemma {:induction false} InflateStep(t: Tree, bits: seq<bool>, out: seq<Byte>)
    requires RoomFor(t, out) && |out| < CHUNK
    ensures var p := ParseToken(t, bits);
      if p.Stop? then Inflate(t, bits, out) == Refused
      else
        && RoomFor(Update(t, SymbolOf(p.token)), Emit(out, p.token))
        && Inflate(t, bits, out) == Inflate(Update(t, SymbolOf(p.token)), p.rest, Emit(out, p.token))
  {
  }

  lemma {:induction false} InflateDone(t: Tree, bits: seq<bool>, out: seq<Byte>)
    requires RoomFor(t, out) && |out| == CHUNK
    ensures Inflate(t, bits, out) == Chunk(out)
  {
  }

  ghost predicate LeafAt(t: Tree, k: int)
    requires Shape(t) && 0 <= k < SYMBOLS
  {
    t.freq[k] == 1 && t.child[k] == k + NODES && t.parent[k + NODES] == k
  }

  ghost predicate PairAt(t: Tree, j: int)
    requires Shape(t) && SYMBOLS <= j < NODES
  {
    var i := 2 * (j - SYMBOLS);
    t.freq[j] == t.freq[i] + t.freq[i + 1] && t.child[j] == i && t.parent[i] == t.parent[i + 1] == j
  }

  lemma {:induction false} StartPairsOff()
    ensures forall k :: 0 <= k < SYMBOLS ==> LeafAt(Start(), k)
    ensures forall j :: SYMBOLS <= j < NODES ==> PairAt(Start(), j)
    ensures Start().parent[ROOT] == 0 && Start().freq[NODES] == SENTINEL
  {
  }

  class Decoder {
    const input: seq<Byte>
    const frequency: array<int>
    const parent: array<int>
    const child: array<int>
    var bit: nat

    ghost function Arrays(): set<object> {
      {frequency, parent, child}
    }

    ghost function Model(): Tree
      reads frequency, parent, child
    {
      Tree(frequency[..], parent[..], child[..])
    }

    ghost predicate Valid()
      reads this, frequency, parent, child
    {
      && frequency != parent && frequency != child && parent != child
      && Good(Model())
      && bit <= 8 * |input|
    }

    /** The bits not read yet. */
    ghost function Pending(): seq<bool>
      requires bit <= 8 * |input|
      reads this
    {
      Bits(input)[bit..]
    }

    constructor (bytes: seq<Byte>)
      ensures Valid() && input == bytes && bit == 0
      ensures Model() == Start()
      ensures fresh(Arrays())
    {
      input := bytes;
      bit := 0;
      frequency := new int[NODES + 1](i => 0);
      parent := new int[NODES + SYMBOLS](i => 0);
      child := new int[NODES](i => 0);
      new;
      StartPairsOff();
      PlantLeaves(Start());
      PairOff(Start());
      frequency[NODES] := SENTINEL;
      assert Model().freq == Start().freq;
      assert Model().parent == Start().parent;
      assert Model().child == Start().child;
      StartGood();
    }

    /** The constructor's first loop: every symbol's leaf, with weight one. */
    method PlantLeaves(ghost t: Tree)
      requires frequency != parent && frequency != child && parent != child
      requires Shape(Model()) && Shape(t) && forall k :: 0 <= k < SYMBOLS ==> LeafAt(t, k)
      modifies frequency, parent, child
      ensures forall k :: 0 <= k < SYMBOLS ==> frequency[k] == t.freq[k] && child[k] == t.child[k]
      ensures forall c :: 0 <= c < NODES ==> parent[c] == old(parent[c])
      ensures forall c :: NODES <= c < NODES + SYMBOLS ==> parent[c] == t.parent[c]
    {
      for i := 0 to SYMBOLS
        invariant forall k :: 0 <= k < i ==> frequency[k] == t.freq[k] && child[k] == t.child[k]
        invariant forall c :: 0 <= c < NODES ==> parent[c] == old(parent[c])
        invariant forall c :: NODES <= c < NODES + i ==> parent[c] == t.parent[c]
      {
        assert LeafAt(t, i);
        frequency[i] := 1;
        child[i] := i + NODES;
        parent[i + NODES] := i;
      }
    }

    /** Its second loop: inner nodes over adjacent pairs, up to the root. */
    method PairOff(ghost t: Tree)
      requires frequency != parent && frequency != child && parent != child
      requires Shape(Model()) && Shape(t) && forall j :: SYMBOLS <= j < NODES ==> PairAt(t, j)
      requires forall k :: 0 <= k < SYMBOLS ==> frequency[k] == t.freq[k] && child[k] == t.child[k]
      modifies frequency, parent, child
      ensures forall k :: 0 <= k < NODES ==> frequency[k] == t.freq[k] && child[k] == t.child[k]
      ensures forall c :: 0 <= c < ROOT ==> parent[c] == t.parent[c]
      ensures forall c :: ROOT <= c < NODES + SYMBOLS ==> parent[c] == old(parent[c])
    {
      var i, j := 0, SYMBOLS;
      while j <= ROOT
        invariant SYMBOLS <= j <= NODES && i == 2 * (j - SYMBOLS)
        invariant forall k :: 0 <= k < j ==> frequency[k] == t.freq[k] && child[k] == t.child[k]
        invariant forall c :: 0 <= c < i ==> parent[c] == t.parent[c]
        invariant forall c :: ROOT <= c < NODES + SYMBOLS ==> parent[c] == old(parent[c])
        decreases NODES - j
      {
        assert PairAt(t, j);
        frequency[j] := frequency[i] + frequency[i + 1];
        child[j] := i;
        parent[i] := j;
        parent[i + 1] := j;
        i, j := i + 2, j + 1;
      }
    }

    method NextBit() returns (v: int)
      requires bit <= 8 * |input|
      modifies this`bit
      ensures bit <= 8 * |input|
      ensures old(Pending()) == [] ==> v == -1 && bit == old(bit)
      ensures old(Pending()) != [] ==> v == Bit(old(Pending())[0]) && Pending() == old(Pending())[1..]
    {
      if bit / 8 >= |input| {
        return -1;
      }
      v := Shifted(input[bit / 8], 7 - bit % 8) % 2;
      BitsAt(input, bit);
      assert Bits(input)[bit..] == [Bits(input)[bit]] + Bits(input)[bit + 1..];
      bit := bit + 1;
    }

    /** One level of an update: count `node`, moving it to the end of its run of equal weights. */
    method Lift(node: nat) returns (at: nat)
      requires frequency != parent && frequency != child && parent != child
      requires Linked(Model()) && node < NODES && Weighted(Model(), node)
      requires frequency[ROOT] < SENTINEL
      modifies frequency, parent, child
      ensures old(Leader(Model(), node) < NODES)
      ensures at == old(Leader(Model(), node))
      ensures Model() == old(Bump(Model(), node))
    {
      ghost var t := Model();
      LeaderFacts(t, node);
      assert DownLink(t, node) && DownLink(t, Leader(t, node));
      assert Ordered(t.freq, node, ROOT);
      assert t.freq[node] + 1 <= t.freq[node + 1] ==> Leader(t, node) == node;
      hide RunEnd, Reparent;
      frequency[node] := frequency[node] + 1;
      var weight := frequency[node];
      var other := node + 1;
      at := node;
      assert frequency[..] == t.freq[node := weight];
      if weight > frequency[other] {
        at := RunTop(weight, other, t.freq);
        Exchange(node, at, weight);
        assert frequency[..] == t.freq[node := t.freq[at]][at := weight];
      }
    }

    /** The scan of `update` for the end of the run. */
    method RunTop(weight: int, from: nat, ghost f: seq<int>) returns (at: nat)
      requires 0 < from < frequency.Length == |f| && f[from] < weight <= f[|f| - 1]
      requires forall k :: from <= k < |f| ==> frequency[k] == f[k]
      ensures from <= at && at + 1 < |f| && at == RunEnd(f, weight, from) == RunEnd(f, weight, from - 1)
    {
      var other := from + 1;
      while weight > frequency[other]
        invariant from < other < |f|
        invariant RunEnd(f, weight, from) == RunEnd(f, weight, other - 1)
        decreases |f| - other
      {
        other := other + 1;
      }
      at := other - 1;
    }

    /** The exchange of `update`: node `other` takes the new weight and the subtree of `node`. */
    method Exchange(node: nat, other: nat, weight: int)
      requires frequency != parent && frequency != child && parent != child
      requires Shape(Model()) && node < other < NODES
      requires Reference(child[node], NODES) && Reference(child[other], NODES)
      modifies frequency, parent, child
      ensures frequency[..] == old(frequency[..])[node := old(frequency[other])][other := weight]
      ensures child[..] == old(child[..])[other := old(child[node])][node := old(child[other])]
      ensures parent[..] == Reparent(Reparent(old(parent[..]), old(child[node]), other), old(child[other]), node)
    {
      frequency[node] := frequency[other];
      frequency[other] := weight;
      var a, b := child[node], child[other];
      parent[a] := other;
      if a < NODES { parent[a + 1] := other; }
      assert parent[..] == Reparent(old(parent[..]), a, other);
      parent[b] := node;
      if b < NODES { parent[b + 1] := node; }
      child[other] := a;
      child[node] := b;
    }

    /** `update`: adapt the tree to one occurrence of `symbol`. */
    method Adapt(symbol: nat)
      requires Valid() && symbol < SYMBOLS
      requires frequency[ROOT] < SENTINEL
      modifies frequency, parent, child
      ensures Valid()
      ensures Model() == old(Update(Model(), symbol))
    {
      ghost var goal := Update(Model(), symbol);
      assert LeafLink(Model(), symbol);
      var node := parent[symbol + NODES];
      UpdateIsClimb(Model(), symbol);
      while true
        invariant Linked(Model()) && 0 <= node < NODES && Weighted(Model(), node)
        invariant frequency[ROOT] < SENTINEL
        invariant Climb(Model(), node) == goal
        decreases NODES - node
      {
        ghost var t := Model();
        ClimbOnce(t, node);
        node := Lift(node);
        node := parent[node];
        if node == 0 { break; }
      }
    }

    /** `symbol`: read one symbol off the stream and adapt to it, or return -1 at the end of the input. */
    method Symbol() returns (v: int)
      requires Valid()
      requires frequency[ROOT] < SENTINEL
      modifies this`bit, frequency, parent, child
      ensures Valid()
      ensures match old(Walk(Model(), Top(Model()), Pending()))
        case Exhausted => v == -1 && Model() == old(Model())
        case Symbol(s, rest) => v == s && Pending() == rest && Model() == Update(old(Model()), s)
    {
      ghost var t, goal := Model(), Walk(Model(), Top(Model()), Pending());
      assert DownLink(t, ROOT);
      var node := child[ROOT];
      while node < NODES
        invariant Valid() && Model() == t && Reference(node, NODES)
        invariant Walk(t, node, Pending()) == goal
        decreases if node < NODES then node + 1 else 0
      {
        var value := NextBit();
        if value < 0 { return -1; }
        assert DownLink(t, node + value);
        node := child[node + value];
      }
      node := node - NODES;
      Adapt(node);
      v := node;
    }

    /** `distance`: the upper six bits by canonical code, then six plain bits; -1 at the end of the input. */
    method Distance() returns (v: int)
      requires bit <= 8 * |input|
      modifies this`bit
      ensures bit <= 8 * |input|
      ensures match old(ReadDistance(Pending()))
        case Missing => v == -1
        case Got(offset, rest) => v == offset && Pending() == rest
    {
      ghost var f := Search(Pending(), 1, 0);
      var upper := Upper();
      if upper < 0 { return -1; }
      assert f.Got? && Pending() == f.rest;
      ghost var g := ReadNumber(f.rest, 6, 0);
      var low := Lower();
      if low < 0 { return -1; }
      assert g.Got? && low == g.value;
      v := upper * 64 + low;
    }

    /** The outer loop of `distance`: widen the code until it is one of its width. */
    method Upper() returns (u: int)
      requires bit <= 8 * |input|
      modifies this`bit
      ensures bit <= 8 * |input|
      ensures match old(Search(Pending(), 1, 0))
        case Missing => u == -1
        case Got(n, rest) => u == n && Pending() == rest
    {
      ghost var goal := Search(Pending(), 1, 0);
      var code, first, base, length := 0, 0, 0, 1;
      while length <= 8
        invariant bit <= 8 * |input| && 1 <= length <= 9 && 0 <= code
        invariant first == First(length) && base == Base(length)
        invariant Search(Pending(), length, code) == goal
      {
        var value := NextBit();
        if value < 0 { return -1; }
        code := code * 2 + value;
        if code >= first && code < first + Count(length) {
          assert Hit(length, code);
          return base + code - first;
        }
        assert !Hit(length, code);
        first := (first + Count(length)) * 2;
        base := base + Count(length);
        length := length + 1;
      }
      return -1;
    }

    /** The inner loop of `distance`: six plain bits. */
    method Lower() returns (low: int)
      requires bit <= 8 * |input|
      modifies this`bit
      ensures bit <= 8 * |input|
      ensures match old(ReadNumber(Pending(), 6, 0))
        case Missing => low == -1
        case Got(n, rest) => low == n && Pending() == rest
    {
      ghost var goal := ReadNumber(Pending(), 6, 0);
      low := 0;
      for i := 0 to 6
        invariant bit <= 8 * |input| && 0 <= low
        invariant ReadNumber(Pending(), 6 - i, low) == goal
      {
        var next := NextBit();
        if next < 0 { return -1; }
        low := low * 2 + next;
      }
    }

    /** `expand`: decode one chunk into `output`, through the ring window. */
    method Expand(output: array<Byte>) returns (ok: bool)
      requires Valid() && Room(Model(), CHUNK)
      requires {output as object} !! Arrays()
      modifies this`bit, frequency, parent, child, output
      ensures output.Length != CHUNK ==> !ok
      ensures output.Length == CHUNK ==>
        match old(Inflate(Model(), Pending(), []))
        case Refused => !ok
        case Chunk(bytes) => ok && output[..] == bytes
    {
      hide Good, Room, Mirrors, Inflate, Bits;
      if output.Length != CHUNK { return false; }
      ghost var goal := Inflate(Model(), Pending(), []);
      var window := new Byte[WINDOW](i => 0);
      var produced, head := 0, FIRST_HEAD;
      MirrorsStart(window[..]);
      assert output[..0] == [];
      while produced < output.Length
        invariant Valid() && 0 <= produced <= CHUNK && 0 <= head < WINDOW
        invariant fresh(window) && RoomFor(Model(), output[..produced])
        invariant Mirrors(window[..], head, output[..produced])
        invariant Inflate(Model(), Pending(), output[..produced]) == goal
      {
        ok, produced, head := DecodeToken(output, window, produced, head);
        if !ok { return; }
      }
      assert output[..produced] == output[..];
      InflateDone(Model(), Pending(), output[..]);
      ok := true;
    }

    /** One turn of the loop of `expand`: a literal or a match. */
    method DecodeToken(output: array<Byte>, window: array<Byte>, produced: nat, head: nat)
      returns (ok: bool, produced': nat, head': nat)
      requires Valid() && produced < output.Length == CHUNK && window.Length == WINDOW
      requires RoomFor(Model(), output[..produced])
      requires {output as object, window} !! Arrays() && output != window
      requires Mirrors(window[..], head, output[..produced])
      modifies this`bit, frequency, parent, child, output, window
      ensures Valid() && (ok ==> produced < produced' <= CHUNK && head' < WINDOW)
      ensures ok ==> RoomFor(Model(), output[..produced']) && Mirrors(window[..], head', output[..produced'])
      ensures var goal := old(Inflate(Model(), Pending(), output[..produced]));
        if ok then goal == Inflate(Model(), Pending(), output[..produced']) else goal.Refused?
    {
      hide Inflate, ParseToken, Update, Copy;
      ghost var t, bits, out := Model(), Pending(), output[..produced];
      InflateStep(t, bits, out);
      produced', head' := produced, head;
      var value, offset := ReadToken();
      ok := value >= 0;
      if 0 <= value < 256 {
        produced', head' := Put(output, window, produced, head, value);
      } else if ok {
        produced', head' := CopyMatch(output, window, produced, head, offset, value - 253);
        InflateClipped(Model(), Pending(), out, offset, produced' - |out|, value - 253);
      }
    }

    /** The reads in the loop of `expand`: a symbol, and a distance after a match symbol. */
    method ReadToken() returns (value: int, offset: int)
      requires Valid() && frequency[ROOT] < SENTINEL
      modifies this`bit, frequency, parent, child
      ensures Valid()
      ensures var p := old(ParseToken(Model(), Pending()));
        if p.Stop? then value == -1
        else
          && value == SymbolOf(p.token) && (p.token.Match? ==> offset == p.token.offset)
          && Pending() == p.rest && Model() == Update(old(Model()), value)
    {
      offset := 0;
      value := Symbol();
      if value >= 256 {
        offset := Distance();
        if offset < 0 { value := -1; }
      }
    }

    /** The copy loop of `expand`: a match, clipped where the chunk is full. */
    method CopyMatch(output: array<Byte>, window: array<Byte>, produced: nat, head: nat, offset: nat, length: nat)
      returns (produced': nat, head': nat)
      requires output != window && produced <= output.Length && window.Length == WINDOW && offset < WINDOW
      requires Mirrors(window[..], head, output[..produced])
      modifies output, window
      ensures produced' == if produced + length <= output.Length then produced + length else output.Length
      ensures output[..produced'] == Copy(old(output[..produced]), offset, produced' - produced)
      ensures Mirrors(window[..], head', output[..produced'])
    {
      ghost var out := output[..produced];
      var i, source := 0, Slot(head, offset);
      produced', head' := produced, head;
      while i < length && produced' < output.Length
        invariant 0 <= i <= length && produced' == produced + i <= output.Length
        invariant Mirrors(window[..], head', output[..produced'])
        invariant source == Slot(head', offset)
        invariant output[..produced'] == Copy(out, offset, i)
      {
        var byte := window[source];
        SlotAdvances(head', offset);
        source := (source + 1) % WINDOW;
        CopySnoc(out, offset, i);
        produced', head' := Put(output, window, produced', head', byte);
        i := i + 1;
      }
    }

    /** Store one byte in the output and at the head of the ring. */
    method Put(output: array<Byte>, window: array<Byte>, produced: nat, head: nat, b: Byte)
      returns (produced': nat, head': nat)
      requires output != window && produced < output.Length && window.Length == WINDOW
      requires Mirrors(window[..], head, output[..produced])
      modifies output, window
      ensures produced' == produced + 1 && head' == (head + 1) % WINDOW
      ensures output[..produced'] == old(output[..produced]) + [b]
      ensures Mirrors(window[..], head', output[..produced'])
    {
      MirrorsPush(window[..], head, output[..produced], b);
      window[head] := b;
      output[produced] := b;
      produced', head' := produced + 1, (head + 1) % WINDOW;
      assert window[..] == old(window[..])[head := b];
      assert output[..produced'] == old(output[..produced]) + [b];
    }
  }

  lemma {:induction false} UpdateIsClimb(t: Tree, s: nat)
    requires Good(t) && s < SYMBOLS && t.freq[ROOT] < SENTINEL
    ensures LeafLink(t, s) && Weighted(t, t.parent[NODES + s])
    ensures Update(t, s) == Climb(t, t.parent[NODES + s])
  {
    var n := t.parent[NODES + s];
    assert LeafLink(t, s);
    forall j | 0 <= j < NODES
      ensures DownLink(t, j) && Summed(t, j, n)
    {
      assert DownLink(t, j) && Summed(t, j, -1);
    }
  }

  /** One turn of the climb, and what it leaves for the next. */
  lemma {:induction false} ClimbOnce(t: Tree, n: nat)
    requires Linked(t) && n < NODES && Weighted(t, n) && t.freq[ROOT] < SENTINEL
    ensures Leader(t, n) < NODES && Linked(Bump(t, n))
    ensures var next := Bump(t, n).parent[Leader(t, n)];
      if next == 0 then Good(Bump(t, n)) && Climb(t, n) == Bump(t, n)
      else
        && n < next < NODES && Weighted(Bump(t, n), next) && Bump(t, n).freq[ROOT] < SENTINEL
        && Climb(t, n) == Climb(Bump(t, n), next)
  {
    LeaderFacts(t, n);
    BumpLinks(t, n);
    BumpWeights(t, n);
    var m := Leader(t, n);
    assert m < ROOT ==> UpLink(t, m);
  }
}
