/**
 * The glyph range builder: a set of 16-bit code points in packed 32-bit words, written out as a
 * zero-terminated list of closed intervals, and read back from such lists.
 */
module GlyphRanges {
  import opened CodePoints

  const WORDS := (CODEPOINT_MAX + 1) / 32

  // ---------------------------------------------------------------------------------------------
  // Bits in words
  // ---------------------------------------------------------------------------------------------

  /** One, shifted left k times. */
  function Mask(k: nat): bv32 {
    if k == 0 then 1 else Mask(k - 1) << 1
  }

  lemma {:induction false} MaskIsShift(k: nat)
    requires k < 32
    ensures Mask(k) == (1 as bv32) << k
  {
    if k > 0 {
      MaskIsShift(k - 1);
    }
  }

  lemma ShiftedAnd(a: bv32, b: bv32)
    ensures (a << 1) & (b << 1) == (a & b) << 1
    ensures (1 as bv32) & (a << 1) == 0
  {
  }

  lemma {:induction false} MasksDiffer(j: nat, k: nat)
    requires j < k
    ensures Mask(j) & Mask(k) == 0 && Mask(k) & Mask(j) == 0
  {
    if j == 0 {
      ShiftedAnd(Mask(k - 1), 0);
    } else {
      MasksDiffer(j - 1, k - 1);
      ShiftedAnd(Mask(j - 1), Mask(k - 1));
    }
  }

  lemma TopMask()
    ensures Mask(31) == 0x8000_0000
  {
    assert Mask(4) == 0x10 && Mask(8) == 0x100 && Mask(12) == 0x1000 && Mask(16) == 0x1_0000;
    assert Mask(20) == 0x10_0000 && Mask(24) == 0x100_0000 && Mask(28) == 0x1000_0000;
  }

  lemma ShiftKeeps(a: bv32)
    requires a != 0 && a & 0x8000_0000 == 0
    ensures a << 1 != 0
  {
  }

  lemma {:induction false} MaskIsBit(k: nat)
    requires k < 32
    ensures Mask(k) != 0
  {
    if k > 0 {
      MaskIsBit(k - 1);
      TopMask();
      MasksDiffer(k - 1, 31);
      ShiftKeeps(Mask(k - 1));
    }
  }

  predicate Meets(w: bv32, m: bv32) {
    w & m != 0
  }

  function Join(w: bv32, m: bv32): bv32 {
    w | m
  }

  /** The k-th bit of a word is set. */
  predicate Has(w: bv32, k: nat) {
    Meets(w, Mask(k))
  }

  function With(w: bv32, k: nat): bv32 {
    Join(w, Mask(k))
  }

  lemma JoinMeets(w: bv32, m: bv32)
    requires m != 0
    ensures Meets(Join(w, m), m)
  {
  }

  lemma JoinOther(w: bv32, m: bv32, n: bv32)
    requires m & n == 0
    ensures Meets(Join(w, m), n) <==> Meets(w, n)
  {
  }

  lemma WithSame(w: bv32, k: nat)
    requires k < 32
    ensures Has(With(w, k), k)
  {
    hide Mask, Meets, Join;
    MaskIsBit(k);
    JoinMeets(w, Mask(k));
  }

  lemma WithOther(w: bv32, k: nat, j: nat)
    requires j != k && Mask(k) & Mask(j) == 0
    ensures Has(With(w, k), j) <==> Has(w, j)
  {
    hide Mask, Meets, Join;
    JoinOther(w, Mask(k), Mask(j));
  }

  /** Setting one bit of a word sets that bit and no other. */
  lemma WithSets(w: bv32, k: nat, j: nat)
    requires k < 32 && j < 32
    ensures Has(With(w, k), j) <==> j == k || Has(w, j)
  {
    hide Mask, Has, With;
    if j == k {
      WithSame(w, k);
    } else if j < k {
      MasksDiffer(j, k);
      WithOther(w, k, j);
    } else {
      MasksDiffer(k, j);
      WithOther(w, k, j);
    }
  }

  lemma NoBits(k: nat)
    ensures !Has(0, k)
  {
  }

  // ---------------------------------------------------------------------------------------------
  // Ranges
  // ---------------------------------------------------------------------------------------------

  datatype Range = Range(lo: nat, hi: nat)

  predicate In(ranges: seq<Range>, n: nat) {
    exists k | 0 <= k < |ranges| :: ranges[k].lo <= n <= ranges[k].hi
  }

  /** Ascending intervals with at least one number missing between neighbours. */
  predicate Separate(ranges: seq<Range>) {
    && (forall k | 0 <= k < |ranges| :: ranges[k].lo <= ranges[k].hi <= CODEPOINT_MAX)
    && forall j, k | 0 <= j < k < |ranges| :: ranges[j].hi + 1 < ranges[k].lo
  }

  /** The intervals' bounds, one after the other. */
  function Flat(ranges: seq<Range>): seq<nat> {
    if |ranges| == 0 then [] else [ranges[0].lo, ranges[0].hi] + Flat(ranges[1..])
  }

  /** The intervals whose bounds a list of even length holds. */
  function Pairs(list: seq<nat>): seq<Range> {
    if |list| < 2 then [] else [Range(list[0], list[1])] + Pairs(list[2..])
  }

  lemma {:induction false} PairsOfFlat(ranges: seq<Range>)
    ensures |Flat(ranges)| == 2 * |ranges| && Pairs(Flat(ranges)) == ranges
  {
    if |ranges| > 0 {
      PairsOfFlat(ranges[1..]);
      assert Flat(ranges)[2..] == Flat(ranges[1..]);
    }
  }

  lemma {:induction false} FlatPush(ranges: seq<Range>, r: Range)
    ensures Flat(ranges + [r]) == Flat(ranges) + [r.lo, r.hi]
  {
    if |ranges| == 0 {
      assert ranges + [r] == [r] && [r][1..] == [];
    } else {
      FlatPush(ranges[1..], r);
      assert (ranges + [r])[1..] == ranges[1..] + [r];
    }
  }

  /** The bounds at positions p and p + 1 of a list that is written from position `from` on have n between them. */
  predicate Between(list: seq<nat>, from: nat, p: nat, n: nat) {
    from <= p && (p - from) % 2 == 0 && p + 2 < |list| && list[p] <= n <= list[p + 1]
  }

  /** The bounds from position `from` on, up to the zero at the end: ascending, and a number is missing in front of each
      lower one. */
  predicate Ascends(list: seq<nat>, from: nat) {
    && from < |list| && (|list| - from) % 2 == 1 && list[|list| - 1] == 0
    && forall p, q | from <= p < q < |list| - 1 ::
         list[p] <= list[q] && ((q - from) % 2 == 0 ==> list[p] + 1 < list[q])
  }

  lemma {:induction false} FlatAt(ranges: seq<Range>, k: nat)
    requires k < |ranges| && |Flat(ranges)| == 2 * |ranges|
    ensures Flat(ranges)[2 * k] == ranges[k].lo && Flat(ranges)[2 * k + 1] == ranges[k].hi
  {
    var rest := Flat(ranges[1..]);
    assert Flat(ranges) == [ranges[0].lo, ranges[0].hi] + rest;
    if k > 0 {
      FlatAt(ranges[1..], k - 1);
      assert Flat(ranges)[2 * k] == rest[2 * (k - 1)] && Flat(ranges)[2 * k + 1] == rest[2 * (k - 1) + 1];
    }
  }

  lemma ListAt(out: seq<nat>, ranges: seq<Range>, k: nat)
    requires k < |ranges|
    ensures
      var list := out + Flat(ranges) + [0];
      && |list| == |out| + 2 * |ranges| + 1
      && list[|out| + 2 * k] == ranges[k].lo && list[|out| + 2 * k + 1] == ranges[k].hi
  {
    hide Flat, Pairs;
    PairsOfFlat(ranges);
    FlatAt(ranges, k);
  }

  /** What a list says, by its own numbers, when the intervals were written to it one after another. */
  lemma ListSays(out: seq<nat>, ranges: seq<Range>, n: nat)
    ensures In(ranges, n) <==> exists p :: Between(out + Flat(ranges) + [0], |out|, p, n)
  {
    hide Flat, Pairs;
    var list := out + Flat(ranges) + [0];
    PairsOfFlat(ranges);
    if k :| 0 <= k < |ranges| && ranges[k].lo <= n <= ranges[k].hi {
      ListAt(out, ranges, k);
      assert Between(list, |out|, |out| + 2 * k, n);
    }
    if exists p :: Between(list, |out|, p, n) {
      var p: nat :| Between(list, |out|, p, n);
      var k := (p - |out|) / 2;
      assert p == |out| + 2 * k;
      ListAt(out, ranges, k);
    }
  }

  lemma ListAscends(out: seq<nat>, ranges: seq<Range>)
    requires Separate(ranges)
    ensures Ascends(out + Flat(ranges) + [0], |out|)
  {
    hide Flat, Pairs, Separate;
    var list := out + Flat(ranges) + [0];
    PairsOfFlat(ranges);
    forall p, q | |out| <= p < q < |list| - 1
      ensures list[p] <= list[q] && ((q - |out|) % 2 == 0 ==> list[p] + 1 < list[q])
    {
      var j, k := (p - |out|) / 2, (q - |out|) / 2;
      var x, y := (p - |out|) % 2, (q - |out|) % 2;
      assert p == |out| + 2 * j + x && q == |out| + 2 * k + y;
      ListAt(out, ranges, j);
      ListAt(out, ranges, k);
      SeparateAt(ranges, j, k);
    }
  }

  lemma SeparateAt(ranges: seq<Range>, j: nat, k: nat)
    requires Separate(ranges) && j <= k < |ranges|
    ensures ranges[j].lo <= ranges[j].hi && ranges[k].lo <= ranges[k].hi
    ensures j < k ==> ranges[j].hi + 1 < ranges[k].lo
  {
  }

  /** The list has a zero where the reader looks for one, from position i on. */
  predicate Terminated(list: seq<nat>, i: nat)
    decreases |list| - i
  {
    i < |list| && (list[i] == 0 || (i + 1 < |list| && Terminated(list, i + 2)))
  }

  /** The intervals that a reader takes from a list: pairs, up to the first one that starts with zero. */
  function Read(list: seq<nat>, i: nat): seq<Range>
    requires Terminated(list, i)
    decreases |list| - i
  {
    if list[i] == 0 then [] else [Range(list[i], list[i + 1])] + Read(list, i + 2)
  }

  /** The pair of bounds at position p, neither it nor a pair before it starting with zero, has n between them. */
  predicate Bounds(list: seq<nat>, p: nat, n: nat) {
    && p % 2 == 0 && p + 1 < |list|
    && (forall j | 0 <= j <= p && j % 2 == 0 :: list[j] != 0)
    && list[p] <= n <= list[p + 1]
  }

  /** What a reader takes from a list, by the list's own numbers. */
  lemma {:induction false} ReadAt(list: seq<nat>, i: nat, n: nat)
    requires i % 2 == 0 && i < |list| && Terminated(list, i)
    requires forall j | 0 <= j < i && j % 2 == 0 :: list[j] != 0
    ensures In(Read(list, i), n) <==> exists p :: i <= p && Bounds(list, p, n)
    decreases |list| - i
  {
    if list[i] != 0 {
      ReadAt(list, i + 2, n);
      var first, rest := Range(list[i], list[i + 1]), Read(list, i + 2);
      InFirst(first, rest, n);
      assert first.lo <= n <= first.hi <==> Bounds(list, i, n);
      assert !Bounds(list, i + 1, n);
    }
  }

  lemma InFirst(first: Range, rest: seq<Range>, n: nat)
    ensures In([first] + rest, n) <==> first.lo <= n <= first.hi || In(rest, n)
  {
    var all := [first] + rest;
    if first.lo <= n <= first.hi {
      assert all[0] == first;
    }
    if k :| 0 <= k < |rest| && rest[k].lo <= n <= rest[k].hi {
      assert all[k + 1] == rest[k];
    }
    if k :| 0 <= k < |all| && all[k].lo <= n <= all[k].hi && k > 0 {
      assert rest[k - 1] == all[k];
    }
  }

  /** A written list reads back in full unless its first interval starts at zero; then it reads as empty. */
  lemma {:induction false} ReadsBack(front: seq<nat>, ranges: seq<Range>)
    requires forall k | 0 < k < |ranges| :: ranges[k].lo != 0
    ensures Terminated(front + Flat(ranges) + [0], |front|)
    ensures Read(front + Flat(ranges) + [0], |front|) ==
      if |ranges| > 0 && ranges[0].lo == 0 then [] else ranges
    decreases |ranges|
  {
    var list := front + Flat(ranges) + [0];
    if |ranges| > 0 {
      var front' := front + [ranges[0].lo, ranges[0].hi];
      assert list == front' + Flat(ranges[1..]) + [0];
      ReadsBack(front', ranges[1..]);
    }
  }

  // ---------------------------------------------------------------------------------------------
  // The builder
  // ---------------------------------------------------------------------------------------------

  predicate Bit(words: seq<bv32>, n: nat)
    requires |words| == WORDS && n <= CODEPOINT_MAX
  {
    Has(words[n / 32], n % 32)
  }

  /** The ranges so far are those of the set's members below n, and a member at n would not join them. */
  ghost predicate Covers(words: seq<bv32>, ranges: seq<Range>, n: nat)
    requires |words| == WORDS && n <= CODEPOINT_MAX + 1
  {
    && Separate(ranges)
    && (forall k | 0 <= k < |ranges| :: ranges[k].hi < n)
    && (|ranges| > 0 && ranges[|ranges| - 1].hi == n - 1 && n <= CODEPOINT_MAX ==> !Bit(words, n))
    && forall m | 0 <= m < n :: In(ranges, m) <==> Bit(words, m)
  }

  class GlyphRangesBuilder {
    var usedChars: seq<bv32>

    ghost predicate Valid()
      reads this
    {
      |usedChars| == WORDS
    }

    constructor ()
      ensures Valid() && |usedChars| == 2048 && forall n | 0 <= n <= 0xFFFF :: !Bit(usedChars, n)
    {
      usedChars := seq(WORDS, _ => 0);
      new;
      NoneSet(usedChars);
    }

    method Clear()
      modifies this
      ensures Valid() && |usedChars| == 2048 && forall n | 0 <= n <= 0xFFFF :: !Bit(usedChars, n)
    {
      usedChars := seq(WORDS, _ => 0);
      NoneSet(usedChars);
    }

    method GetBit(n: nat) returns (b: bool)
      requires Valid() && n <= CODEPOINT_MAX
      ensures b == Bit(usedChars, n)
      ensures b <==> usedChars[n / 32] & ((1 as bv32) << (n % 32)) != 0
    {
      hide Mask;
      var off := n / 32;
      MaskIsShift(n % 32);
      b := Has(usedChars[off], n % 32);
    }

    method SetBit(n: nat)
      requires Valid() && n <= CODEPOINT_MAX
      modifies this
      ensures Valid() && forall m | 0 <= m <= CODEPOINT_MAX :: Bit(usedChars, m) <==> m == n || old(Bit(usedChars, m))
    {
      hide Has, With;
      var off := n / 32;
      ghost var was := usedChars;
      usedChars := usedChars[off := With(usedChars[off], n % 32)];
      forall m | 0 <= m <= CODEPOINT_MAX ensures Bit(usedChars, m) <==> m == n || Bit(was, m) {
        BitAfterOr(was, n, m);
      }
    }

    /** Adds every interval of a zero-terminated list. */
    method AddRanges(list: seq<nat>)
      requires Valid() && Terminated(list, 0)
      modifies this
      ensures Valid()
      ensures forall m | 0 <= m <= CODEPOINT_MAX ::
        Bit(usedChars, m) <==> old(Bit(usedChars, m)) || In(Read(list, 0), m)
      ensures forall m | 0 <= m <= 0xFFFF ::
        Bit(usedChars, m) <==> old(Bit(usedChars, m)) || exists p :: Bounds(list, p, m)
    {
      hide Bounds;
      ghost var was := usedChars;
      ghost var done: seq<Range> := [];
      var i := 0;
      while list[i] != 0
        invariant Valid() && Terminated(list, i) && done + Read(list, i) == Read(list, 0)
        invariant forall m | 0 <= m <= CODEPOINT_MAX :: Bit(usedChars, m) <==> Bit(was, m) || In(done, m)
        decreases |list| - i
      {
        AddRange(list[i], list[i + 1]);
        InPush(done, Range(list[i], list[i + 1]));
        done := done + [Range(list[i], list[i + 1])];
        i := i + 2;
      }
      assert done == Read(list, 0);
      forall m: nat ensures In(Read(list, 0), m) <==> exists p :: Bounds(list, p, m) {
        ReadAt(list, 0, m);
      }
    }

    method AddRange(lo: nat, hi: nat)
      requires Valid()
      modifies this
      ensures Valid()
      ensures forall m | 0 <= m <= CODEPOINT_MAX :: Bit(usedChars, m) <==> old(Bit(usedChars, m)) || lo <= m <= hi
    {
      ghost var was := usedChars;
      var c := lo;
      while c <= hi && c <= CODEPOINT_MAX
        invariant Valid() && lo <= c
        invariant forall m | 0 <= m <= CODEPOINT_MAX :: Bit(usedChars, m) <==> Bit(was, m) || (lo <= m <= hi && m < c)
        decreases CODEPOINT_MAX + 1 - c
      {
        SetBit(c);
        c := c + 1;
      }
    }

    /** Appends the set as a list of separate intervals, in order, with a zero at the end. */
    method BuildRanges(out: seq<nat>) returns (r: seq<nat>)
      requires Valid()
      ensures |r| > |out| && r == out + Flat(Pairs(r[|out|..|r| - 1])) + [0]
      ensures Separate(Pairs(r[|out|..|r| - 1]))
      ensures forall n | 0 <= n <= CODEPOINT_MAX :: In(Pairs(r[|out|..|r| - 1]), n) <==> Bit(usedChars, n)
      ensures out <= r && Ascends(r, |out|)
      ensures forall n | 0 <= n <= 0xFFFF :: Bit(usedChars, n) <==> exists p :: Between(r, |out|, p, n)
    {
      hide Bit, Between, Ascends;
      ghost var ranges: seq<Range> := [];
      r := out;
      var n := 0;
      while n <= CODEPOINT_MAX
        invariant 0 <= n <= CODEPOINT_MAX + 1
        invariant r == out + Flat(ranges) && Covers(usedChars, ranges, n)
      {
        var used := GetBit(n);
        if used {
          var first := n;
          n := RunEnd(n);
          r := r + [first] + [n];
          FlatPush(ranges, Range(first, n));
          CoversRun(usedChars, ranges, first, n);
          ranges := ranges + [Range(first, n)];
        } else {
          CoversGap(usedChars, ranges, n);
        }
        n := n + 1;
      }
      r := r + [0];
      PairsOfFlat(ranges);
      assert r[|out|..|r| - 1] == Flat(ranges);
      ListAscends(out, ranges);
      forall n: nat ensures In(ranges, n) <==> exists p :: Between(r, |out|, p, n) {
        ListSays(out, ranges, n);
      }
    }

    /** The last of a run of members. */
    method RunEnd(first: nat) returns (n: nat)
      requires Valid() && first <= CODEPOINT_MAX && Bit(usedChars, first)
      ensures first <= n <= CODEPOINT_MAX && forall m | first <= m <= n :: Bit(usedChars, m)
      ensures n < CODEPOINT_MAX ==> !Bit(usedChars, n + 1)
    {
      hide Bit;
      n := first;
      while n < CODEPOINT_MAX
        invariant first <= n <= CODEPOINT_MAX && forall m | first <= m <= n :: Bit(usedChars, m)
      {
        var more := GetBit(n + 1);
        if !more {
          return;
        }
        n := n + 1;
      }
    }
  }

  lemma NoneSet(words: seq<bv32>)
    requires |words| == WORDS && forall k | 0 <= k < WORDS :: words[k] == 0
    ensures forall n | 0 <= n <= CODEPOINT_MAX :: !Bit(words, n)
  {
    hide Has;
    forall n | 0 <= n <= CODEPOINT_MAX ensures !Bit(words, n) {
      NoBits(n % 32);
    }
  }

  lemma BitAfterOr(words: seq<bv32>, n: nat, m: nat)
    requires |words| == WORDS && n <= CODEPOINT_MAX && m <= CODEPOINT_MAX
    ensures Bit(words[n / 32 := With(words[n / 32], n % 32)], m) <==> m == n || Bit(words, m)
  {
    hide Has, With;
    if m / 32 == n / 32 {
      WithSets(words[n / 32], n % 32, m % 32);
      assert m == 32 * (m / 32) + m % 32 && n == 32 * (n / 32) + n % 32;
    } else {
      assert m != n;
    }
  }

  lemma InPush(ranges: seq<Range>, r: Range)
    ensures forall m: nat :: In(ranges + [r], m) <==> In(ranges, m) || r.lo <= m <= r.hi
  {
    forall m: nat ensures In(ranges + [r], m) <==> In(ranges, m) || r.lo <= m <= r.hi {
      var all := ranges + [r];
      if In(ranges, m) {
        var k :| 0 <= k < |ranges| && ranges[k].lo <= m <= ranges[k].hi;
        assert all[k] == ranges[k];
      }
      if r.lo <= m <= r.hi {
        assert all[|ranges|] == r;
      }
    }
  }

  lemma CoversRun(words: seq<bv32>, ranges: seq<Range>, first: nat, last: nat)
    requires |words| == WORDS && first <= last <= CODEPOINT_MAX && Covers(words, ranges, first)
    requires forall m | first <= m <= last :: Bit(words, m)
    requires last < CODEPOINT_MAX ==> !Bit(words, last + 1)
    ensures Covers(words, ranges + [Range(first, last)], last + 1)
  {
    hide Bit;
    var all := ranges + [Range(first, last)];
    InPush(ranges, Range(first, last));
    assert Bit(words, first);
    if |ranges| > 0 {
      assert ranges[|ranges| - 1].hi + 1 < first;
    }
    forall j | 0 <= j < |ranges| ensures ranges[j].hi + 1 < first {
      if j < |ranges| - 1 {
        assert ranges[j].hi + 1 < ranges[|ranges| - 1].lo;
      }
    }
  }

  lemma CoversGap(words: seq<bv32>, ranges: seq<Range>, n: nat)
    requires |words| == WORDS && n <= CODEPOINT_MAX && Covers(words, ranges, n) && !Bit(words, n)
    ensures Covers(words, ranges, n + 1)
  {
    hide Bit;
    assert !In(ranges, n);
  }

  /** The set that reading a written list gives, in terms of the set that was written. */
  lemma WrittenThenRead(words: seq<bv32>, ranges: seq<Range>)
    requires |words| == WORDS && Separate(ranges)
    requires forall n | 0 <= n <= CODEPOINT_MAX :: In(ranges, n) <==> Bit(words, n)
    ensures Terminated(Flat(ranges) + [0], 0)
    ensures !Bit(words, 0) ==> Read(Flat(ranges) + [0], 0) == ranges
    ensures Bit(words, 0) ==> Read(Flat(ranges) + [0], 0) == []
  {
    hide Bit;
    assert [] + Flat(ranges) + [0] == Flat(ranges) + [0];
    forall k | 0 < k < |ranges| ensures ranges[k].lo != 0 {
      assert ranges[0].hi + 1 < ranges[k].lo;
    }
    ReadsBack([], ranges);
    if Bit(words, 0) {
      assert In(ranges, 0);
    } else {
      assert !In(ranges, 0);
    }
  }

  /**
   * Writing a set and reading it into a cleared builder gives the set back exactly when it does not
   * contain code point 0: an interval that starts with 0 ends the list.
   */
  method RoundTrip(from: GlyphRangesBuilder, to: GlyphRangesBuilder)
    requires from.Valid() && from != to
    modifies to
    ensures to.Valid()
    ensures (forall n | 0 <= n <= CODEPOINT_MAX :: Bit(to.usedChars, n) <==> Bit(from.usedChars, n))
       <==> !Bit(from.usedChars, 0)
  {
    hide Bit, In, Separate;
    to.Clear();
    var list := from.BuildRanges([]);
    ghost var ranges := Pairs(list[0..|list| - 1]);
    WrittenThenRead(from.usedChars, ranges);
    assert list == Flat(ranges) + [0];
    to.AddRanges(list);
    NothingIn();
  }

  lemma NothingIn()
    ensures forall n: nat :: !In([], n)
  {
  }
}
