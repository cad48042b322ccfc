/** Signed areas of polygons given as rings of points, and what clipping a corner or turning the ring does to them. */
module Polygon {

  datatype Vec2 = Vec2(x: real, y: real)

  function Cross(p: Vec2, q: Vec2): real {
    p.x * q.y - q.x * p.y
  }

  /** Twice the signed area of a triangle, in the form the orientation test uses. */
  function Turn(a: Vec2, b: Vec2, c: Vec2): real {
    (b.x - a.x) * (c.y - b.y) - (c.x - b.x) * (b.y - a.y)
  }

  predicate IsClockwise(a: Vec2, b: Vec2, c: Vec2) {
    Turn(a, b, c) > 0.0
  }

  predicate ContainsPoint(a: Vec2, b: Vec2, c: Vec2, p: Vec2) {
    var b1 := (p.x - b.x) * (a.y - b.y) - (p.y - b.y) * (a.x - b.x) < 0.0;
    var b2 := (p.x - c.x) * (b.y - c.y) - (p.y - c.y) * (b.x - c.x) < 0.0;
    var b3 := (p.x - a.x) * (c.y - a.y) - (p.y - a.y) * (c.x - a.x) < 0.0;
    b1 == b2 && b2 == b3
  }

  lemma TurnIsCrosses(a: Vec2, b: Vec2, c: Vec2)
    ensures Turn(a, b, c) == Cross(a, b) + Cross(b, c) + Cross(c, a)
  {
    assert Turn(a, b, c) == b.x * c.y - b.x * b.y - a.x * c.y + a.x * b.y
                            - (c.x * b.y - c.x * a.y - b.x * b.y + b.x * a.y);
  }

  lemma CrossFlips(p: Vec2, q: Vec2)
    ensures Cross(q, p) == -Cross(p, q)
  {}

  /** The open shoelace sum along a path. */
  function PathSum(ps: seq<Vec2>): real {
    if |ps| < 2 then 0.0 else Cross(ps[0], ps[1]) + PathSum(ps[1..])
  }

  /** Twice the signed area of a closed ring. */
  function RingSum(ps: seq<Vec2>): real {
    if ps == [] then 0.0 else PathSum(ps) + Cross(ps[|ps| - 1], ps[0])
  }

  function Reverse<T>(s: seq<T>): (r: seq<T>)
    ensures |r| == |s| && forall i :: 0 <= i < |s| ==> r[i] == s[|s| - 1 - i]
  {
    if s == [] then [] else Reverse(s[1..]) + [s[0]]
  }

  function Without<T>(s: seq<T>, k: int): (r: seq<T>)
    requires 0 <= k < |s|
    ensures |r| == |s| - 1
    ensures forall i :: 0 <= i < k ==> r[i] == s[i]
    ensures forall i :: k <= i < |r| ==> r[i] == s[i + 1]
  {
    s[..k] + s[k + 1..]
  }

  /** Cyclic neighbours of position k in a ring of n. */
  function After(k: int, n: int): (r: int)
    requires 0 <= k < n
    ensures 0 <= r < n
  {
    if k + 1 == n then 0 else k + 1
  }

  function Before(k: int, n: int): (r: int)
    requires 0 <= k < n
    ensures 0 <= r < n && After(r, n) == k
  {
    if k == 0 then n - 1 else k - 1
  }

  lemma {:induction false} PathSplit(a: seq<Vec2>, b: seq<Vec2>)
    requires a != [] && b != []
    ensures PathSum(a + b) == PathSum(a) + Cross(a[|a| - 1], b[0]) + PathSum(b)
    decreases |a|
  {
    if |a| == 1 {
      assert (a + b)[1..] == b;
    } else {
      assert (a + b)[1..] == a[1..] + b;
      PathSplit(a[1..], b);
    }
  }

  /** Clipping corner k takes exactly that corner's triangle off the ring. */
  lemma ClipCorner(ps: seq<Vec2>, k: int)
    requires 0 <= k < |ps| && |ps| >= 2
    ensures RingSum(ps) == RingSum(Without(ps, k)) + Turn(ps[Before(k, |ps|)], ps[k], ps[After(k, |ps|)])
  {
    var n := |ps|;
    var p, e, q := ps[Before(k, n)], ps[k], ps[After(k, n)];
    TurnIsCrosses(p, e, q);
    CrossFlips(q, p);
    var rest := Without(ps, k);
    if k == 0 {
      assert rest == ps[1..];
    } else if k == n - 1 {
      assert rest == ps[..n - 1] && ps == rest + [e];
      PathSplit(rest, [e]);
    } else {
      var a, b := ps[..k], ps[k + 1..];
      assert rest == a + b && ps == a + ([e] + b);
      PathSplit(a, b);
      PathSplit(a, [e] + b);
      PathSplit([e], b);
    }
  }

  lemma {:induction false} PathReverse(ps: seq<Vec2>)
    ensures PathSum(Reverse(ps)) == -PathSum(ps)
    decreases |ps|
  {
    if |ps| >= 2 {
      PathReverse(ps[1..]);
      var r := Reverse(ps[1..]);
      assert r[|r| - 1] == ps[1];
      PathSplit(r, [ps[0]]);
      CrossFlips(ps[0], ps[1]);
    } else if |ps| == 1 {
      assert Reverse(ps) == ps;
    }
  }

  /** Turning the ring around changes the sign of its area. */
  lemma RingReverse(ps: seq<Vec2>)
    ensures RingSum(Reverse(ps)) == -RingSum(ps)
  {
    PathReverse(ps);
    if ps != [] {
      CrossFlips(ps[0], ps[|ps| - 1]);
    }
  }

  /** A ring of two points has no area. */
  lemma TwoPointRing(ps: seq<Vec2>)
    requires |ps| == 2
    ensures RingSum(ps) == 0.0
  {
    CrossFlips(ps[0], ps[1]);
    assert PathSum(ps[1..]) == 0.0;
  }

  // ---- Rings of indices ----

  ghost predicate DistinctBelow(s: seq<int>, n: int) {
    && (forall i :: 0 <= i < |s| ==> 0 <= s[i] < n)
    && (forall i, j :: 0 <= i < j < |s| ==> s[i] != s[j])
  }

  lemma {:induction false} DistinctLength(s: seq<int>, n: nat)
    requires DistinctBelow(s, n)
    ensures |s| <= n
    decreases n
  {
    if s != [] {
      assert 0 <= s[0] < n;
      if k :| 0 <= k < |s| && s[k] == n - 1 {
        DistinctLength(Without(s, k), n - 1);
      } else {
        DistinctLength(s, n - 1);
      }
    }
  }

  /** A list without duplicates that misses an index has room for it. */
  lemma RoomForOne(s: seq<int>, n: nat, x: int)
    requires DistinctBelow(s, n) && 0 <= x < n && x !in s
    ensures |s| < n && DistinctBelow(s + [x], n)
  {
    DistinctLength(s + [x], n);
  }

  function At(points: seq<Vec2>, order: seq<int>): (r: seq<Vec2>)
    requires forall i :: 0 <= i < |order| ==> 0 <= order[i] < |points|
    ensures |r| == |order| && forall i :: 0 <= i < |r| ==> r[i] == points[order[i]]
  {
    seq(|order|, i requires 0 <= i < |order| => points[order[i]])
  }
}
