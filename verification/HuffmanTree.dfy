/** The adaptive Huffman tree of `DartLzh`, as a value.

The tree lives in three flat tables. Nodes 0..626 are ordered by weight; an inner node's two children are
adjacent, so one index names the pair. A reference below `NODES` is an inner pair, a reference from `NODES` on
is the leaf of a symbol. `parent` is indexed by either kind of reference. */
module HuffmanTree {

  const SYMBOLS := 314
  const NODES := 627
  const ROOT := 626
  const SENTINEL := 0xffff

  datatype Tree = Tree(freq: seq<int>, parent: seq<int>, child: seq<int>)

  ghost predicate Shape(t: Tree) {
    |t.freq| == NODES + 1 && |t.parent| == NODES + SYMBOLS && |t.child| == NODES
  }

  /** What node `j` may refer to: a symbol's leaf, or a pair of lower-numbered nodes. */
  predicate Reference(c: int, j: int) {
    NODES <= c < NODES + SYMBOLS || (0 <= c && c + 1 < j)
  }

  /** Node `j` refers downwards, and what it refers to points back at it. */
  ghost predicate DownLink(t: Tree, j: int)
    requires Shape(t) && 0 <= j < NODES
  {
    var c := t.child[j];
    Reference(c, j) && t.parent[c] == j && (c < NODES ==> t.parent[c + 1] == j)
  }

  /** A node below the root has a parent above it that refers to its pair. */
  ghost predicate UpLink(t: Tree, n: int)
    requires Shape(t) && 0 <= n < ROOT
  {
    var p := t.parent[n];
    n < p <= ROOT && (t.child[p] == n || t.child[p] + 1 == n)
  }

  /** Every symbol hangs off exactly one node. */
  ghost predicate LeafLink(t: Tree, s: int)
    requires Shape(t) && 0 <= s < SYMBOLS
  {
    var p := t.parent[NODES + s];
    0 <= p < NODES && t.child[p] == NODES + s
  }

  /** Child and parent links are mutual inverses, and every parent lies above its children. */
  ghost predicate Linked(t: Tree) {
    && Shape(t)
    && (forall j :: 0 <= j < NODES ==> DownLink(t, j))
    && (forall n :: 0 <= n < ROOT ==> UpLink(t, n))
    && (forall s :: 0 <= s < SYMBOLS ==> LeafLink(t, s))
    && t.parent[ROOT] == 0
  }

  ghost predicate Ordered(f: seq<int>, i: int, j: int)
    requires 0 <= i < |f| && 0 <= j < |f|
  {
    i <= j ==> f[i] <= f[j]
  }

  /** Inner node `j` weighs what its pair weighs; while an update climbs, node `due` is one short. */
  ghost predicate Summed(t: Tree, j: int, due: int)
    requires Shape(t) && 0 <= j < NODES && Reference(t.child[j], j)
  {
    t.child[j] < NODES ==> t.freq[t.child[j]] + t.freq[t.child[j] + 1] == t.freq[j] + (if j == due then 1 else 0)
  }

  /** Weights rise with the node index, end at the sentinel, and every inner node is the sum of its pair.
  `due == -1` says that no update is under way. */
  ghost predicate Weighted(t: Tree, due: int)
    requires Linked(t)
  {
    && (forall i, j :: 0 <= i <= NODES && 0 <= j <= NODES ==> Ordered(t.freq, i, j))
    && 1 <= t.freq[0]
    && t.freq[NODES] == SENTINEL
    && (forall j :: 0 <= j < NODES ==> DownLink(t, j) && Summed(t, j, due))
  }

  ghost predicate Good(t: Tree) {
    Linked(t) && Weighted(t, -1)
  }

  /** The weight a symbol's leaf carries. */
  ghost function LeafWeight(t: Tree, s: int): int
    requires Linked(t) && 0 <= s < SYMBOLS
  {
    assert LeafLink(t, s);
    t.freq[t.parent[NODES + s]]
  }

  // ----- one level of an update

  /** The last node of the run above `m` whose weights stay below `w`. */
  function RunEnd(f: seq<int>, w: int, m: nat): (r: nat)
    requires m < |f|
    ensures m <= r < |f|
    ensures forall k :: m < k <= r ==> f[k] < w
    ensures r + 1 < |f| ==> w <= f[r + 1]
    decreases |f| - m
  {
    if m + 1 < |f| && f[m + 1] < w then RunEnd(f, w, m + 1) else m
  }

  function Leader(t: Tree, n: nat): (m: nat)
    requires Shape(t) && n < NODES
    ensures n <= m <= NODES
  {
    RunEnd(t.freq, t.freq[n] + 1, n)
  }

  function Reparent(parent: seq<int>, c: int, at: int): (p: seq<int>)
    requires |parent| == NODES + SYMBOLS
    requires 0 <= c < NODES + SYMBOLS
    ensures |p| == |parent|
  {
    if c < NODES then parent[c := at][c + 1 := at] else parent[c := at]
  }

  /** Count one more occurrence at node `n`, first exchanging it with the last node of equal weight. */
  function Bump(t: Tree, n: nat): (r: Tree)
    requires Linked(t) && n < NODES && Leader(t, n) < NODES
    ensures Shape(r)
  {
    var w, m := t.freq[n] + 1, Leader(t, n);
    assert DownLink(t, n) && DownLink(t, m);
    if m == n then
      t.(freq := t.freq[n := w])
    else
      var a, b := t.child[n], t.child[m];
      Tree(t.freq[n := t.freq[m]][m := w],
           Reparent(Reparent(t.parent, a, m), b, n),
           t.child[m := a][n := b])
  }

  /** The exchange partner has the same weight, is not an ancestor, and roots a pair below `n`. */
  lemma {:induction false} LeaderFacts(t: Tree, n: nat)
    requires Linked(t) && n < NODES && Weighted(t, n)
    requires t.freq[ROOT] < SENTINEL
    ensures Leader(t, n) < NODES
    ensures n == ROOT ==> Leader(t, n) == ROOT
    ensures n < ROOT ==> Leader(t, n) < t.parent[n] <= ROOT
    ensures forall k :: n <= k <= Leader(t, n) ==> t.freq[k] == t.freq[n]
    ensures n < Leader(t, n) && t.child[Leader(t, n)] < NODES ==> t.child[Leader(t, n)] + 1 < n
  {
    var m := Leader(t, n);
    assert Ordered(t.freq, n, ROOT);
    if n < ROOT {
      assert UpLink(t, n);
      var p := t.parent[n];
      var c := t.child[p];
      assert DownLink(t, p) && Summed(t, p, n);
      assert Ordered(t.freq, 0, c) && Ordered(t.freq, 0, c + 1);
      assert m < p;
    }
    forall k | n <= k <= m
      ensures t.freq[k] == t.freq[n]
    {
      assert Ordered(t.freq, n, k);
    }
    if n < m && t.child[m] < NODES {
      var b := t.child[m];
      assert DownLink(t, m) && Summed(t, m, n);
      assert Ordered(t.freq, 0, b) && Ordered(t.freq, n, b + 1);
    }
  }

  lemma {:induction false} BumpDown(t: Tree, n: nat, j: nat)
    requires Linked(t) && n < NODES && Weighted(t, n)
    requires t.freq[ROOT] < SENTINEL
    requires Leader(t, n) < NODES
    requires j < NODES
    ensures DownLink(Bump(t, n), j)
  {
    LeaderFacts(t, n);
    assert DownLink(t, n) && DownLink(t, Leader(t, n)) && DownLink(t, j);
  }

  lemma {:induction false} BumpUp(t: Tree, n: nat, k: nat)
    requires Linked(t) && n < NODES && Weighted(t, n)
    requires t.freq[ROOT] < SENTINEL
    requires Leader(t, n) < NODES
    requires k < ROOT
    ensures UpLink(Bump(t, n), k)
  {
    LeaderFacts(t, n);
    assert DownLink(t, n) && DownLink(t, Leader(t, n)) && UpLink(t, k);
  }

  lemma {:induction false} BumpLinks(t: Tree, n: nat)
    requires Linked(t) && n < NODES && Weighted(t, n)
    requires t.freq[ROOT] < SENTINEL
    requires Leader(t, n) < NODES
    ensures Linked(Bump(t, n))
    ensures Bump(t, n).parent[Leader(t, n)] == t.parent[Leader(t, n)]
  {
    LeaderFacts(t, n);
    var r, m := Bump(t, n), Leader(t, n);
    assert DownLink(t, n) && DownLink(t, m);
    forall j | 0 <= j < NODES
      ensures DownLink(r, j)
    {
      BumpDown(t, n, j);
    }
    forall k | 0 <= k < ROOT
      ensures UpLink(r, k)
    {
      BumpUp(t, n, k);
    }
    forall s | 0 <= s < SYMBOLS
      ensures LeafLink(r, s)
    {
      assert LeafLink(t, s);
    }
  }

  lemma {:induction false} BumpOrder(t: Tree, n: nat, i: nat, j: nat)
    requires Linked(t) && n < NODES && Weighted(t, n)
    requires t.freq[ROOT] < SENTINEL
    requires Leader(t, n) < NODES
    requires i <= NODES && j <= NODES
    ensures Ordered(Bump(t, n).freq, i, j)
  {
    LeaderFacts(t, n);
    var m := Leader(t, n);
    assert Ordered(t.freq, i, j) && Ordered(t.freq, m + 1, j) && Ordered(t.freq, i, m);
  }

  /** The pair sums survive, and the shortfall moves from `n` to the parent of the node counted. */
  lemma {:induction false} BumpSums(t: Tree, n: nat, j: nat, due: int)
    requires Linked(t) && n < NODES && Weighted(t, n)
    requires t.freq[ROOT] < SENTINEL
    requires Leader(t, n) < NODES
    requires Linked(Bump(t, n)) && j < NODES && DownLink(Bump(t, n), j)
    requires due == if n == ROOT then -1 else t.parent[Leader(t, n)]
    ensures Summed(Bump(t, n), j, due)
  {
    LeaderFacts(t, n);
    var m := Leader(t, n);
    var source := if j == n then m else if j == m then n else j;
    assert DownLink(t, source) && Summed(t, source, n);
    assert n < ROOT ==> UpLink(t, m);
    assert n < ROOT ==> DownLink(t, t.parent[m]);
    hide Linked, Weighted, Leader;
  }

  lemma {:induction false} BumpWeights(t: Tree, n: nat)
    requires Linked(t) && n < NODES && Weighted(t, n)
    requires t.freq[ROOT] < SENTINEL
    requires Leader(t, n) < NODES
    requires Linked(Bump(t, n))
    ensures Weighted(Bump(t, n), if n == ROOT then -1 else t.parent[Leader(t, n)])
    ensures Bump(t, n).freq[ROOT] == t.freq[ROOT] + (if n == ROOT then 1 else 0)
  {
    LeaderFacts(t, n);
    var r, m := Bump(t, n), Leader(t, n);
    var due := if n == ROOT then -1 else t.parent[m];
    forall i, j | 0 <= i <= NODES && 0 <= j <= NODES
      ensures Ordered(r.freq, i, j)
    {
      BumpOrder(t, n, i, j);
    }
    forall j | 0 <= j < NODES
      ensures DownLink(r, j) && Summed(r, j, due)
    {
      assert DownLink(r, j);
      BumpSums(t, n, j, due);
    }
    assert n < ROOT ==> UpLink(t, n);
  }

  lemma {:induction false} BumpLeaves(t: Tree, n: nat)
    requires Linked(t) && n < NODES && Weighted(t, n)
    requires t.freq[ROOT] < SENTINEL
    requires Leader(t, n) < NODES
    requires Linked(Bump(t, n))
    ensures forall s :: 0 <= s < SYMBOLS ==>
      LeafWeight(Bump(t, n), s) == LeafWeight(t, s) + (if t.child[n] == NODES + s then 1 else 0)
  {
    LeaderFacts(t, n);
    var r, m := Bump(t, n), Leader(t, n);
    forall s | 0 <= s < SYMBOLS
      ensures LeafWeight(r, s) == LeafWeight(t, s) + (if t.child[n] == NODES + s then 1 else 0)
    {
      assert LeafLink(t, s) && LeafLink(r, s);
      assert DownLink(t, n) && DownLink(t, m);
    }
  }

  // ----- a whole update

  /** Climb from node `n`, which is one occurrence behind, to the root. */
  function Climb(t: Tree, n: nat): (r: Tree)
    requires Linked(t) && n < NODES && Weighted(t, n)
    requires t.freq[ROOT] < SENTINEL
    ensures Good(r)
    ensures r.freq[ROOT] == t.freq[ROOT] + 1
    ensures forall s :: 0 <= s < SYMBOLS ==>
      LeafWeight(r, s) == LeafWeight(t, s) + (if t.child[n] == NODES + s then 1 else 0)
    decreases NODES - n
  {
    LeaderFacts(t, n);
    BumpLinks(t, n);
    BumpWeights(t, n);
    BumpLeaves(t, n);
    var up := Bump(t, n);
    var m := Leader(t, n);
    assert m < ROOT ==> UpLink(t, m) && t.child[t.parent[m]] < NODES;
    var next := up.parent[m];
    if next == 0 then up else Climb(up, next)
  }

  /** What coding symbol `s` does to the tree. */
  function Update(t: Tree, s: nat): (r: Tree)
    requires Good(t) && s < SYMBOLS
    requires t.freq[ROOT] < SENTINEL
    ensures Good(r)
    ensures r.freq[ROOT] == t.freq[ROOT] + 1
    ensures forall x :: 0 <= x < SYMBOLS ==> LeafWeight(r, x) == LeafWeight(t, x) + (if x == s then 1 else 0)
  {
    assert LeafLink(t, s);
    var n := t.parent[NODES + s];
    assert Weighted(t, n) by {
      forall j | 0 <= j < NODES
        ensures DownLink(t, j) && Summed(t, j, n)
      {
        assert DownLink(t, j) && Summed(t, j, -1);
      }
    }
    Climb(t, n)
  }

  // ----- the tree a chunk starts with

  /** Every symbol once, paired off in order. */
  function StartWeight(j: nat): (w: int)
    requires j < NODES
    ensures 1 <= w
  {
    if j < SYMBOLS then 1 else StartWeight(2 * (j - SYMBOLS)) + StartWeight(2 * (j - SYMBOLS) + 1)
  }

  function Start(): (t: Tree)
    ensures Shape(t)
  {
    Tree(seq(NODES + 1, i requires 0 <= i <= NODES => if i == NODES then SENTINEL else StartWeight(i)),
         seq(NODES + SYMBOLS, c requires 0 <= c < NODES + SYMBOLS =>
           if c < ROOT then SYMBOLS + c / 2 else if c == ROOT then 0 else c - NODES),
         seq(NODES, j requires 0 <= j < NODES => if j < SYMBOLS then NODES + j else 2 * (j - SYMBOLS)))
  }

  lemma {:induction false} StartWeightRises(i: nat, j: nat)
    requires i <= j < NODES
    ensures StartWeight(i) <= StartWeight(j)
  {
    if SYMBOLS <= i {
      StartWeightRises(2 * (i - SYMBOLS), 2 * (j - SYMBOLS));
      StartWeightRises(2 * (i - SYMBOLS) + 1, 2 * (j - SYMBOLS) + 1);
    }
  }

  /** Total starting weight of nodes `lo..hi`. */
  ghost function StartTotal(lo: nat, hi: nat): int
    requires lo <= hi <= NODES
    decreases hi - lo
  {
    if lo == hi then 0 else StartWeight(lo) + StartTotal(lo + 1, hi)
  }

  lemma {:induction false} StartTotalSnoc(lo: nat, hi: nat)
    requires lo <= hi < NODES
    ensures StartTotal(lo, hi + 1) == StartTotal(lo, hi) + StartWeight(hi)
    decreases hi - lo
  {
    if lo < hi { StartTotalSnoc(lo + 1, hi); }
  }

  lemma {:induction false} StartLeaves(lo: nat)
    requires lo <= SYMBOLS
    ensures StartTotal(lo, SYMBOLS) == SYMBOLS - lo
    decreases SYMBOLS - lo
  {
    if lo < SYMBOLS { StartLeaves(lo + 1); }
  }

  /** Pairing off moves weight up without losing any. */
  lemma {:induction false} StartPairs(i: nat)
    requires i <= SYMBOLS - 1
    ensures StartTotal(2 * i, SYMBOLS + i) == SYMBOLS
  {
    if i == 0 {
      StartLeaves(0);
    } else {
      var lo, hi := 2 * (i - 1), SYMBOLS + (i - 1);
      StartPairs(i - 1);
      StartTotalSnoc(lo, hi);
      assert StartWeight(hi) == StartWeight(lo) + StartWeight(lo + 1);
      assert StartTotal(lo, hi + 1) == StartWeight(lo) + StartTotal(lo + 1, hi + 1);
      assert StartTotal(lo + 1, hi + 1) == StartWeight(lo + 1) + StartTotal(lo + 2, hi + 1);
    }
  }

  lemma {:induction false} StartLinked()
    ensures Linked(Start())
  {
    var t := Start();
    forall j | 0 <= j < NODES
      ensures DownLink(t, j)
    {
    }
    forall n | 0 <= n < ROOT
      ensures UpLink(t, n)
    {
      assert t.child[t.parent[n]] == 2 * (n / 2);
    }
    forall s | 0 <= s < SYMBOLS
      ensures LeafLink(t, s)
    {
    }
  }

  /** The starting tree satisfies the sibling property with one occurrence of every symbol. */
  lemma {:induction false} StartGood()
    ensures Good(Start())
    ensures Start().freq[ROOT] == SYMBOLS
    ensures forall s :: 0 <= s < SYMBOLS ==> LeafWeight(Start(), s) == 1
  {
    StartLinked();
    var t := Start();
    StartPairs(SYMBOLS - 1);
    assert StartTotal(ROOT, NODES) == StartWeight(ROOT) + StartTotal(NODES, NODES);
    forall i, j | 0 <= i <= NODES && 0 <= j <= NODES
      ensures Ordered(t.freq, i, j)
    {
      if i <= j < NODES {
        StartWeightRises(i, j);
      } else if i < NODES {
        StartWeightRises(i, ROOT);
      }
    }
    forall j | 0 <= j < NODES
      ensures DownLink(t, j) && Summed(t, j, -1)
    {
      assert DownLink(t, j);
    }
  }

  // ----- codes

  /** A bit as the number the source adds to a node index. */
  function Bit(b: bool): (v: int)
    ensures 0 <= v <= 1
  {
    if b then 1 else 0
  }

  datatype Decoded = Exhausted | Symbol(symbol: nat, rest: seq<bool>)

  /** The turns taken from the root down to node `n`, read off the parent links. */
  function Path(t: Tree, n: nat): seq<bool>
    requires Linked(t) && n < NODES
    decreases NODES - n
  {
    if n == ROOT then []
    else
      assert UpLink(t, n);
      Path(t, t.parent[n]) + [n != t.child[t.parent[n]]]
  }

  function Code(t: Tree, s: nat): seq<bool>
    requires Linked(t) && s < SYMBOLS
  {
    assert LeafLink(t, s);
    Path(t, t.parent[NODES + s])
  }

  /** Follow bits from reference `c` down to a leaf. */
  function Walk(t: Tree, c: nat, bits: seq<bool>): (r: Decoded)
    requires Linked(t) && Reference(c, NODES)
    ensures r.Symbol? ==> r.symbol < SYMBOLS && |r.rest| <= |bits|
    decreases if c < NODES then c + 1 else 0
  {
    if NODES <= c then Symbol(c - NODES, bits)
    else if bits == [] then Exhausted
    else
      assert DownLink(t, c + Bit(bits[0]));
      Walk(t, t.child[c + Bit(bits[0])], bits[1..])
  }

  function Top(t: Tree): (c: nat)
    requires Linked(t)
    ensures Reference(c, NODES)
  {
    assert DownLink(t, ROOT);
    t.child[ROOT]
  }

  lemma {:induction false} WalkDown(t: Tree, n: nat, rest: seq<bool>)
    requires Linked(t) && n < NODES && DownLink(t, n)
    ensures Walk(t, Top(t), Path(t, n) + rest) == Walk(t, t.child[n], rest)
    decreases NODES - n
  {
    if n == ROOT {
      assert Path(t, n) + rest == rest;
    } else {
      assert UpLink(t, n);
      var p := t.parent[n];
      assert DownLink(t, p);
      var turn := n != t.child[p];
      assert Path(t, n) + rest == Path(t, p) + ([turn] + rest);
      WalkDown(t, p, [turn] + rest);
      assert ([turn] + rest)[1..] == rest;
    }
  }

  lemma {:induction false} WalkUp(t: Tree, n: nat, bits: seq<bool>)
    requires Linked(t) && n < NODES && DownLink(t, n)
    requires Walk(t, t.child[n], bits).Symbol?
    ensures var d := Walk(t, t.child[n], bits); Path(t, n) + bits == Code(t, d.symbol) + d.rest
    decreases n
  {
    var c := t.child[n];
    if c < NODES {
      var k := c + Bit(bits[0]);
      assert DownLink(t, k) && UpLink(t, k);
      WalkUp(t, k, bits[1..]);
      assert Path(t, n) + bits == Path(t, k) + bits[1..];
    } else {
      assert LeafLink(t, c - NODES);
    }
  }

  /** Each symbol has exactly one root-to-leaf path: the decoder reads symbol `s` off a bit string if and only if
  the string starts with the code of `s`, and it consumes just that code. */
  lemma {:induction false} CodeIsUnique(t: Tree, bits: seq<bool>, s: nat, rest: seq<bool>)
    requires Linked(t) && s < SYMBOLS
    ensures Walk(t, Top(t), bits) == Symbol(s, rest) <==> bits == Code(t, s) + rest
  {
    assert DownLink(t, ROOT) && LeafLink(t, s);
    var n := t.parent[NODES + s];
    assert DownLink(t, n);
    WalkDown(t, n, rest);
    if Walk(t, Top(t), bits) == Symbol(s, rest) {
      WalkUp(t, ROOT, bits);
      assert Path(t, ROOT) + bits == bits;
    }
  }

  // ----- runs of symbols

  predicate AreSymbols(ss: seq<int>) {
    forall i :: 0 <= i < |ss| ==> 0 <= ss[i] < SYMBOLS
  }

  ghost predicate Room(t: Tree, n: nat) {
    Good(t) && t.freq[ROOT] + n <= SENTINEL
  }

  function Updates(t: Tree, ss: seq<int>): (r: Tree)
    requires AreSymbols(ss)
    requires Room(t, |ss|)
    ensures Good(r)
    ensures r.freq[ROOT] == t.freq[ROOT] + |ss|
    decreases |ss|
  {
    if ss == [] then t else Updates(Update(t, ss[0]), ss[1..])
  }

  ghost function Occurrences(ss: seq<int>, s: nat): nat {
    if ss == [] then 0 else (if ss[0] == s then 1 else 0) + Occurrences(ss[1..], s)
  }

  /** After any run of symbols each leaf carries its starting weight plus its occurrences in the run. */
  lemma {:induction false} LeavesCountOccurrences(t: Tree, ss: seq<int>, s: nat)
    requires AreSymbols(ss)
    requires Room(t, |ss|) && s < SYMBOLS
    ensures LeafWeight(Updates(t, ss), s) == LeafWeight(t, s) + Occurrences(ss, s)
    decreases |ss|
  {
    if ss != [] {
      LeavesCountOccurrences(Update(t, ss[0]), ss[1..], s);
    }
  }

  /** The bits an encoder emits, reading each code off the tree as the symbols before it left it. */
  function Encode(t: Tree, ss: seq<int>): seq<bool>
    requires AreSymbols(ss)
    requires Room(t, |ss|)
    decreases |ss|
  {
    if ss == [] then [] else Code(t, ss[0]) + Encode(Update(t, ss[0]), ss[1..])
  }

  /** Up to `n` symbols decoded one after another, adapting after each. */
  function Decode(t: Tree, n: nat, bits: seq<bool>): (ss: seq<int>)
    requires Room(t, n)
    ensures AreSymbols(ss)
    decreases n
  {
    if n == 0 then [] else
    match Walk(t, Top(t), bits)
    case Exhausted => []
    case Symbol(s, rest) => [s] + Decode(Update(t, s), n - 1, rest)
  }

  lemma {:induction false} DecodeOne(t: Tree, ss: seq<int>, bits: seq<bool>, tail: seq<bool>)
    requires AreSymbols(ss) && ss != [] && Room(t, |ss|)
    requires bits == Encode(t, ss) + tail
    ensures Decode(t, |ss|, bits) ==
            [ss[0]] + Decode(Update(t, ss[0]), |ss| - 1, Encode(Update(t, ss[0]), ss[1..]) + tail)
  {
    var more := Encode(Update(t, ss[0]), ss[1..]) + tail;
    assert bits == Code(t, ss[0]) + more;
    CodeIsUnique(t, bits, ss[0], more);
  }

  /** Coding a run of symbols and decoding it again is the identity, whatever bits follow. */
  lemma {:induction false} DecodeEncode(t: Tree, ss: seq<int>, bits: seq<bool>, tail: seq<bool>, decoded: seq<int>)
    requires AreSymbols(ss) && Room(t, |ss|)
    requires bits == Encode(t, ss) + tail && decoded == Decode(t, |ss|, bits)
    ensures decoded == ss
    decreases |ss|
  {
    hide Update, Walk, Code, Good, Linked;
    if ss != [] {
      DecodeOne(t, ss, bits, tail);
      var t' := Update(t, ss[0]);
      var more := Encode(t', ss[1..]) + tail;
      var decoded := Decode(t', |ss| - 1, more);
      DecodeEncode(t', ss[1..], more, tail, decoded);
      assert ss == [ss[0]] + decoded;
    }
  }

  /** The most symbols one chunk can hold: every symbol yields at least one of its 20960 bytes. */
  const CHUNK := 20960

  /** Every tree reachable within a chunk keeps the sibling property and stays clear of the sentinel. */
  lemma {:induction false} ChunkTreesAreGood(ss: seq<int>)
    requires AreSymbols(ss)
    requires |ss| <= CHUNK
    ensures Room(Start(), |ss|)
    ensures Good(Updates(Start(), ss))
    ensures Updates(Start(), ss).freq[ROOT] == SYMBOLS + |ss| < 0x8000
    ensures forall s :: 0 <= s < SYMBOLS ==> LeafWeight(Updates(Start(), ss), s) == 1 + Occurrences(ss, s)
  {
    StartGood();
    forall s | 0 <= s < SYMBOLS
      ensures LeafWeight(Updates(Start(), ss), s) == 1 + Occurrences(ss, s)
    {
      LeavesCountOccurrences(Start(), ss, s);
    }
  }

  /** Every sequence of at most a chunk's worth of symbols survives coding and decoding. */
  lemma {:induction false} ChunkRoundTrip(ss: seq<int>, tail: seq<bool>)
    requires AreSymbols(ss)
    requires |ss| <= CHUNK
    ensures Room(Start(), |ss|)
    ensures Decode(Start(), |ss|, Encode(Start(), ss) + tail) == ss
  {
    StartGood();
    var bits := Encode(Start(), ss) + tail;
    DecodeEncode(Start(), ss, bits, tail, Decode(Start(), |ss|, bits));
  }
}
