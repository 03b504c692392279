/** Facts about products and quotients that the solver does not find unaided. */
module Arithmetic {

  lemma {:induction false} MulMonotone(x: int, y: int, w: int)
    requires x <= y && 0 <= w
    ensures x * w <= y * w
  {
    assert 0 <= (y - x) * w;
  }

  lemma {:induction false} DivBounds(v: int, w: int)
    requires 0 < w
    ensures (v / w) * w <= v < (v / w + 1) * w
  {
  }

  lemma {:induction false} DivUnique(v: int, q: int, w: int)
    requires 0 < w && q * w <= v < (q + 1) * w
    ensures v / w == q
  {
    var d := v / w;
    DivBounds(v, w);
    if d < q {
      MulMonotone(d + 1, q, w);
    } else if q < d {
      MulMonotone(q + 1, d, w);
    }
  }

  lemma {:induction false} DivMonotone(v: int, v': int, w: int)
    requires v <= v' && 0 < w
    ensures v / w <= v' / w
  {
    DivBounds(v, w);
    DivBounds(v', w);
    if v' / w < v / w {
      MulMonotone(v' / w + 1, v / w, w);
    }
  }

  /** `v / w` reaches `q` exactly when `v` reaches `q * w`. */
  lemma {:induction false} DivAtLeast(v: int, q: int, w: int)
    requires 0 < w
    ensures q <= v / w <==> q * w <= v
  {
    DivBounds(v, w);
    if q <= v / w {
      MulMonotone(q, v / w, w);
    } else {
      MulMonotone(v / w + 1, q, w);
    }
  }
}
