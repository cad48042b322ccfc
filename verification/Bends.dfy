/** How a path bends that goes on in one direction: three points of it, four points, and the points of a triangle. */
module Bends {
  import opened Polygon

  // ---- Four points in a row ----

  function Along(d: Vec2, p: Vec2): real {
    d.x * p.x + d.y * p.y
  }

  function Minus(p: Vec2, q: Vec2): Vec2 {
    Vec2(p.x - q.x, p.y - q.y)
  }

  lemma AlongMinus(d: Vec2, p: Vec2, q: Vec2)
    ensures Along(d, Minus(p, q)) == Along(d, p) - Along(d, q)
  {}

  lemma ThreeVectors(d: Vec2, u: Vec2, v: Vec2, w: Vec2)
    ensures Along(d, v) * Cross(u, w) == Along(d, u) * Cross(v, w) + Along(d, w) * Cross(u, v)
  {}

  lemma CrossAdds(u: Vec2, v: Vec2, w: Vec2, a: Vec2, b: Vec2, c: Vec2, e: Vec2)
    requires u == Minus(b, a) && v == Minus(c, b) && w == Minus(e, c)
    ensures Turn(a, b, c) == Cross(u, v) && Turn(b, c, e) == Cross(v, w)
    ensures Turn(a, b, e) == Cross(u, v) + Cross(u, w) && Turn(a, c, e) == Cross(u, w) + Cross(v, w)
  {}

  lemma PositiveSum(a: real, x: real, b: real, y: real, c: real, z: real)
    requires a * x == b * y + c * z && a > 0.0 && b > 0.0 && c > 0.0 && y > 0.0 && z >= 0.0
    ensures x > 0.0
  {
    assert b * y > 0.0 && c * z >= 0.0;
    assert a * x > 0.0;
  }

  /** Two bends the same way make every bend over the four points go that way. */
  lemma BendsOn(d: Vec2, a: Vec2, b: Vec2, c: Vec2, e: Vec2)
    requires Along(d, a) < Along(d, b) < Along(d, c) < Along(d, e)
    requires Turn(a, b, c) > 0.0 && Turn(b, c, e) > 0.0
    ensures Turn(a, b, e) > 0.0 && Turn(a, c, e) > 0.0
  {
    var u, v, w := Minus(b, a), Minus(c, b), Minus(e, c);
    AlongMinus(d, b, a);
    AlongMinus(d, c, b);
    AlongMinus(d, e, c);
    ThreeVectors(d, u, v, w);
    CrossAdds(u, v, w, a, b, c, e);
    hide Along, Cross, Turn;
    PositiveSum(Along(d, v), Cross(u, w), Along(d, u), Cross(v, w), Along(d, w), Cross(u, v));
  }

  /** Over the whole stretch it bends one way and over the second half the other way, so over the first half the one
      way. */
  lemma BendsBefore(d: Vec2, a: Vec2, b: Vec2, c: Vec2, e: Vec2)
    requires Along(d, a) < Along(d, b) < Along(d, c) < Along(d, e)
    requires Turn(a, c, e) > 0.0 && Turn(b, c, e) <= 0.0
    ensures Turn(a, b, c) > 0.0
  {
    var u, v, w := Minus(b, a), Minus(c, b), Minus(e, c);
    AlongMinus(d, b, a);
    AlongMinus(d, c, b);
    AlongMinus(d, e, c);
    ThreeVectors(d, u, v, w);
    CrossAdds(u, v, w, a, b, c, e);
    hide Along, Cross, Turn;
    PositiveSum(Along(d, w), Cross(u, v), Along(d, v), Cross(u, w), Along(d, u), -Cross(v, w));
  }

  lemma BendsAfter(d: Vec2, a: Vec2, b: Vec2, c: Vec2, e: Vec2)
    requires Along(d, a) < Along(d, b) < Along(d, c) < Along(d, e)
    requires Turn(a, b, e) > 0.0 && Turn(a, b, c) <= 0.0
    ensures Turn(b, c, e) > 0.0
  {
    var u, v, w := Minus(b, a), Minus(c, b), Minus(e, c);
    AlongMinus(d, b, a);
    AlongMinus(d, c, b);
    AlongMinus(d, e, c);
    ThreeVectors(d, u, v, w);
    CrossAdds(u, v, w, a, b, c, e);
    hide Along, Cross, Turn;
    PositiveSum(Along(d, u), Cross(v, w), Along(d, v), Cross(u, w), Along(d, w), -Cross(u, v));
  }

  /** Height over the line from p to q, scaled. */
  function Height(p: Vec2, q: Vec2, r: Vec2): real {
    Turn(p, r, q)
  }

  lemma HeightAdds(p: Vec2, q: Vec2, a: Vec2, b: Vec2)
    ensures Cross(Minus(b, a), Minus(q, p)) == Height(p, q, b) - Height(p, q, a)
  {}

  /** The bend at b, from the heights of its neighbours. */
  lemma BendByHeights(d: Vec2, p: Vec2, q: Vec2, a: Vec2, b: Vec2, c: Vec2)
    requires Along(d, p) < Along(d, q) && Along(d, a) < Along(d, b) < Along(d, c)
    ensures Height(p, q, a) < Height(p, q, b) && Height(p, q, c) <= Height(p, q, b) ==> Turn(a, b, c) > 0.0
    ensures Height(p, q, b) <= Height(p, q, a) && Height(p, q, b) <= Height(p, q, c) ==> Turn(a, b, c) <= 0.0
  {
    var u, v, w := Minus(b, a), Minus(c, b), Minus(q, p);
    AlongMinus(d, b, a);
    AlongMinus(d, c, b);
    AlongMinus(d, q, p);
    HeightAdds(p, q, a, b);
    HeightAdds(p, q, b, c);
    ThreeVectors(d, u, w, v);
    CrossFlips(v, w);
    assert Turn(a, b, c) == Cross(u, v);
    hide Along, Cross, Turn, Height;
    var lu, lv, lw := Along(d, u), Along(d, v), Along(d, w);
    assert lw * Cross(u, v) == lu * Cross(w, v) + lv * Cross(u, w);
    if Height(p, q, a) < Height(p, q, b) && Height(p, q, c) <= Height(p, q, b) {
      PositiveSum(lw, Cross(u, v), lv, Cross(u, w), lu, Cross(w, v));
    }
    if Height(p, q, b) <= Height(p, q, a) && Height(p, q, b) <= Height(p, q, c) {
      NonPositiveSum(lw, Cross(u, v), lu, Cross(w, v), lv, Cross(u, w));
    }
  }

  lemma NonPositiveSum(a: real, x: real, b: real, y: real, c: real, z: real)
    requires a * x == b * y + c * z && a > 0.0 && b > 0.0 && c > 0.0 && y <= 0.0 && z <= 0.0
    ensures x <= 0.0
  {
    assert b * y <= 0.0 && c * z <= 0.0;
    assert a * x <= 0.0;
  }

  // ---- What a clockwise triangle contains ----

  lemma TurnParts(a: Vec2, b: Vec2, c: Vec2, p: Vec2)
    ensures Turn(a, b, p) + Turn(b, c, p) + Turn(c, a, p) == Turn(a, b, c)
  {}

  lemma ContainsIs(a: Vec2, b: Vec2, c: Vec2, p: Vec2)
    requires Turn(a, b, c) > 0.0
    ensures ContainsPoint(a, b, c, p) <==> Turn(a, b, p) >= 0.0 && Turn(b, c, p) >= 0.0 && Turn(c, a, p) >= 0.0
  {
    TurnParts(a, b, c, p);
    assert ContainsPoint(a, b, c, p) <==> (Turn(a, b, p) < 0.0) == (Turn(b, c, p) < 0.0) == (Turn(c, a, p) < 0.0);
  }

  /** A point in a clockwise triangle lies no further along than its corners. */
  lemma ContainedAlong(d: Vec2, a: Vec2, b: Vec2, c: Vec2, p: Vec2)
    requires Turn(a, b, c) > 0.0 && Along(d, a) < Along(d, b) < Along(d, c) && ContainsPoint(a, b, c, p)
    ensures Along(d, a) <= Along(d, p) <= Along(d, c)
  {
    ContainsIs(a, b, c, p);
    TurnParts(a, b, c, p);
    PointIsMixed(d, a, b, c, p);
    var la, lb, lc, lp := Along(d, a), Along(d, b), Along(d, c), Along(d, p);
    var wa, wb, wc := Turn(b, c, p), Turn(c, a, p), Turn(a, b, p);
    hide Along, Turn, ContainsPoint;
    MixBounds(la, lb, lc, lp, wa, wb, wc);
  }

  lemma PointIsMixed(d: Vec2, a: Vec2, b: Vec2, c: Vec2, p: Vec2)
    ensures
      Turn(a, b, c) * Along(d, p)
      == Turn(b, c, p) * Along(d, a) + Turn(c, a, p) * Along(d, b) + Turn(a, b, p) * Along(d, c)
  {}

  lemma MixBounds(la: real, lb: real, lc: real, lp: real, wa: real, wb: real, wc: real)
    requires wa >= 0.0 && wb >= 0.0 && wc >= 0.0 && wa + wb + wc > 0.0 && la < lb < lc
    requires (wa + wb + wc) * lp == wa * la + wb * lb + wc * lc
    ensures la <= lp <= lc
  {
    assert (wa + wb + wc) * (lp - la) == wb * (lb - la) + wc * (lc - la);
    assert (wa + wb + wc) * (lc - lp) == wa * (lc - la) + wb * (lc - lb);
    ProductAtLeast(wb, lb - la);
    ProductAtLeast(wc, lc - la);
    ProductAtLeast(wa, lc - la);
    ProductAtLeast(wb, lc - lb);
    NotNegative(wa + wb + wc, lp - la);
    NotNegative(wa + wb + wc, lc - lp);
  }

  lemma ProductAtLeast(a: real, x: real)
    requires a >= 0.0 && x >= 0.0
    ensures a * x >= 0.0
  {}

  lemma NotNegative(a: real, x: real)
    requires a > 0.0 && a * x >= 0.0
    ensures x >= 0.0
  {}
}
