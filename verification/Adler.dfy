/**
 * The Adler-32 checksum of section 2.2 of RFC 1950, and the program's way of computing it: blocks of
 * 5552 bytes, eight bytes to a turn of the loop, in 32-bit sums that are reduced once per block.
 */
module Adler {

  type Byte = x: int | 0 <= x < 256 witness 0

  newtype Word = x: int | 0 <= x < 0x1_0000_0000

  const ADLER_MOD := 65521
  const BLOCK := 5552

  /** The two running sums. */
  datatype Sums = Sums(s1: int, s2: int)
  {
    predicate Reduced() {
      0 <= s1 < ADLER_MOD && 0 <= s2 < ADLER_MOD
    }

    /** Sums that a 32-bit checksum can hold in its two halves. */
    predicate Halves() {
      0 <= s1 < 0x1_0000 && 0 <= s2 < 0x1_0000
    }

    function Packed(): int {
      s2 * 0x1_0000 + s1
    }
  }

  function Reduce(s: Sums): (r: Sums)
    ensures r.Reduced()
  {
    Sums(s.s1 % ADLER_MOD, s.s2 % ADLER_MOD)
  }

  function Split(checksum: Word): (r: Sums)
    ensures r.Halves() && r.Packed() == checksum as int
  {
    Sums((checksum % 0x1_0000) as int, (checksum / 0x1_0000) as int)
  }

  /** The checksum as the standard defines it: both sums modulo 65521, byte by byte. */
  function Checksum(start: Sums, bytes: seq<Byte>): Sums {
    if |bytes| == 0 then Reduce(start)
    else
      var s := Checksum(start, bytes[..|bytes| - 1]);
      var s1 := (s.s1 + bytes[|bytes| - 1]) % ADLER_MOD;
      Sums(s1, (s.s2 + s1) % ADLER_MOD)
  }

  /** The same sums without any reduction. */
  function Raw(start: Sums, bytes: seq<Byte>): Sums {
    if |bytes| == 0 then start
    else
      var s := Raw(start, bytes[..|bytes| - 1]);
      var s1 := s.s1 + bytes[|bytes| - 1];
      Sums(s1, s.s2 + s1)
  }

  lemma AddMod(a: int, b: int)
    ensures (a % ADLER_MOD + b) % ADLER_MOD == (a + b) % ADLER_MOD
  {
    var q := a / ADLER_MOD;
    assert a == q * ADLER_MOD + a % ADLER_MOD;
    MultipleMod(a % ADLER_MOD + b, q);
  }

  lemma {:induction false} MultipleMod(a: int, q: int)
    ensures (a + q * ADLER_MOD) % ADLER_MOD == a % ADLER_MOD
    decreases if q < 0 then -q else q
  {
    if q > 0 {
      MultipleMod(a, q - 1);
      assert a + q * ADLER_MOD == a + (q - 1) * ADLER_MOD + ADLER_MOD;
    } else if q < 0 {
      MultipleMod(a, q + 1);
      assert a + q * ADLER_MOD == a + (q + 1) * ADLER_MOD - ADLER_MOD;
    }
  }

  lemma AddModBoth(a: int, b: int)
    ensures (a % ADLER_MOD + b % ADLER_MOD) % ADLER_MOD == (a + b) % ADLER_MOD
  {
    AddMod(a, b % ADLER_MOD);
    AddMod(b, a);
  }

  /** Reducing once at the end is reducing at every byte. */
  lemma {:induction false} RawReduces(start: Sums, bytes: seq<Byte>)
    ensures Reduce(Raw(start, bytes)) == Checksum(start, bytes)
  {
    if |bytes| > 0 {
      var front, b := bytes[..|bytes| - 1], bytes[|bytes| - 1];
      RawReduces(start, front);
      var r := Raw(start, front);
      AddMod(r.s1, b);
      AddModBoth(r.s2, r.s1 + b);
    }
  }

  /** The sum of the bytes. */
  function Sum(bytes: seq<Byte>): nat {
    if |bytes| == 0 then 0 else bytes[0] + Sum(bytes[1..])
  }

  /** Each byte as often as there are bytes from it to the end. */
  function Weighted(bytes: seq<Byte>): nat {
    if |bytes| == 0 then 0 else |bytes| * bytes[0] + Weighted(bytes[1..])
  }

  lemma {:induction false} WeightedPush(bytes: seq<Byte>, b: Byte)
    ensures Sum(bytes + [b]) == Sum(bytes) + b
    ensures Weighted(bytes + [b]) == Weighted(bytes) + Sum(bytes) + b
  {
    var all := bytes + [b];
    if |bytes| == 0 {
      assert all == [b] && all[1..] == [];
      assert Weighted([]) == 0;
    } else {
      WeightedPush(bytes[1..], b);
      assert all[1..] == bytes[1..] + [b];
      assert |all| * all[0] == |bytes| * bytes[0] + bytes[0];
    }
  }

  /** The first sum counts every byte once; the second counts each byte once for every byte from it to the end. */
  lemma {:induction false} RawIs(start: Sums, bytes: seq<Byte>)
    ensures Raw(start, bytes).s1 == start.s1 + Sum(bytes)
    ensures Raw(start, bytes).s2 == start.s2 + |bytes| * start.s1 + Weighted(bytes)
  {
    if |bytes| == 0 {
      assert |bytes| * start.s1 == 0;
    } else {
      var front, b := bytes[..|bytes| - 1], bytes[|bytes| - 1];
      RawIs(start, front);
      WeightedPush(front, b);
      assert bytes == front + [b];
      assert |bytes| * start.s1 == |front| * start.s1 + start.s1;
    }
  }

  /** So the standard's checksum is these two sums modulo 65521. */
  lemma ChecksumIs(start: Sums, bytes: seq<Byte>)
    ensures Checksum(start, bytes).s1 == (start.s1 + Sum(bytes)) % 65521
    ensures Checksum(start, bytes).s2 == (start.s2 + |bytes| * start.s1 + Weighted(bytes)) % 65521
  {
    hide Raw, Checksum, Sum, Weighted;
    RawIs(start, bytes);
    RawReduces(start, bytes);
  }

  /** A checksum can be continued from where an earlier one stopped. */
  lemma {:induction false} ChecksumConcat(start: Sums, a: seq<Byte>, b: seq<Byte>)
    ensures Checksum(start, a + b) == Checksum(Checksum(start, a), b)
  {
    if |b| == 0 {
      assert a + b == a;
      ChecksumReduced(start, a);
    } else {
      assert (a + b)[..|a + b| - 1] == a + b[..|b| - 1];
      ChecksumConcat(start, a, b[..|b| - 1]);
    }
  }

  lemma ChecksumReduced(start: Sums, bytes: seq<Byte>)
    ensures Checksum(start, bytes).Reduced()
    ensures Reduce(Checksum(start, bytes)) == Checksum(start, bytes)
  {
  }

  // ---------------------------------------------------------------------------------------------
  // No 32-bit sum overflows within a block
  // ---------------------------------------------------------------------------------------------

  /** 1 + 2 + ... + n. */
  function Triangular(n: nat): nat {
    if n == 0 then 0 else Triangular(n - 1) + n
  }

  lemma {:induction false} TriangularIs(n: nat)
    ensures 2 * Triangular(n) == n * (n + 1)
  {
    if n > 0 {
      TriangularIs(n - 1);
    }
  }

  lemma {:induction false} TriangularGrows(m: nat, n: nat)
    requires m <= n
    ensures Triangular(m) <= Triangular(n)
  {
    if m < n {
      TriangularGrows(m, n - 1);
    }
  }

  /** How large the sums of n bytes can get from two 16-bit halves. */
  lemma {:induction false} RawBounds(start: Sums, bytes: seq<Byte>)
    requires start.Halves()
    ensures 0 <= Raw(start, bytes).s1 <= 65535 + 255 * |bytes|
    ensures 0 <= Raw(start, bytes).s2 <= 65535 * (|bytes| + 1) + 255 * Triangular(|bytes|)
  {
    if |bytes| > 0 {
      RawBounds(start, bytes[..|bytes| - 1]);
    }
  }

  /** A block of 5552 bytes keeps both sums within 32 bits, whatever the bytes. */
  lemma BlockFits(start: Sums, bytes: seq<Byte>)
    requires start.Halves() && |bytes| <= BLOCK
    ensures 0 <= Raw(start, bytes).s1 < 0x1_0000_0000 && 0 <= Raw(start, bytes).s2 < 0x1_0000_0000
  {
    RawBounds(start, bytes);
    TriangularGrows(|bytes|, BLOCK);
    TriangularIs(BLOCK);
  }

  /** The block length cannot grow: one byte more, and there are bytes that overflow the second sum. */
  lemma BlockIsTight(bytes: seq<Byte>)
    requires |bytes| == 5553 && forall i | 0 <= i < |bytes| :: bytes[i] == 255
    ensures Raw(Sums(ADLER_MOD - 1, ADLER_MOD - 1), bytes).s2 >= 0x1_0000_0000
  {
    RawOfTops(bytes);
    TriangularIs(BLOCK + 1);
  }

  lemma {:induction false} RawOfTops(bytes: seq<Byte>)
    requires forall i | 0 <= i < |bytes| :: bytes[i] == 255
    ensures
      var r := Raw(Sums(ADLER_MOD - 1, ADLER_MOD - 1), bytes);
      && r.s1 == ADLER_MOD - 1 + 255 * |bytes|
      && r.s2 == (ADLER_MOD - 1) * (|bytes| + 1) + 255 * Triangular(|bytes|)
  {
    if |bytes| > 0 {
      RawOfTops(bytes[..|bytes| - 1]);
    }
  }

  // ---------------------------------------------------------------------------------------------
  // The program
  // ---------------------------------------------------------------------------------------------

  /** The sums after the bytes from `from` up to `at`. */
  ghost predicate At(s1: Word, s2: Word, start: Sums, buffer: seq<Byte>, from: nat, at: nat) {
    && from <= at <= |buffer|
    && start.Halves()
    && Sums(s1 as int, s2 as int) == Raw(start, buffer[from..at])
  }

  lemma OneByteMore(buffer: seq<Byte>, from: nat, at: nat)
    requires from <= at < |buffer|
    ensures buffer[from..at + 1] == buffer[from..at] + [buffer[at]]
    ensures buffer[from..at + 1][..at - from] == buffer[from..at]
  {
  }

  /** One byte goes into both sums. */
  method Add(s1: Word, s2: Word, buffer: seq<Byte>, at: nat, ghost start: Sums, ghost from: nat)
    returns (t1: Word, t2: Word)
    requires At(s1, s2, start, buffer, from, at) && at < |buffer| && at + 1 - from <= BLOCK
    ensures At(t1, t2, start, buffer, from, at + 1)
  {
    OneByteMore(buffer, from, at);
    BlockFits(start, buffer[from..at + 1]);
    t1 := s1 + buffer[at] as Word;
    t2 := s2 + t1;
  }

  /** A block: eight bytes to a turn, then the rest one by one. */
  method Block(s1: Word, s2: Word, buffer: seq<Byte>, from: nat, blocklen: nat) returns (t1: Word, t2: Word)
    requires Sums(s1 as int, s2 as int).Halves() && from + blocklen <= |buffer| && blocklen <= BLOCK
    ensures Sums(t1 as int, t2 as int) == Raw(Sums(s1 as int, s2 as int), buffer[from..from + blocklen])
  {
    ghost var start := Sums(s1 as int, s2 as int);
    t1, t2 := s1, s2;
    var at := from;
    var i := 0;
    assert buffer[from..from] == [];
    while i + 7 < blocklen
      invariant at == from + i && i <= blocklen && At(t1, t2, start, buffer, from, at)
    {
      t1, t2 := Add(t1, t2, buffer, at, start, from);
      t1, t2 := Add(t1, t2, buffer, at + 1, start, from);
      t1, t2 := Add(t1, t2, buffer, at + 2, start, from);
      t1, t2 := Add(t1, t2, buffer, at + 3, start, from);
      t1, t2 := Add(t1, t2, buffer, at + 4, start, from);
      t1, t2 := Add(t1, t2, buffer, at + 5, start, from);
      t1, t2 := Add(t1, t2, buffer, at + 6, start, from);
      t1, t2 := Add(t1, t2, buffer, at + 7, start, from);
      at := at + 8;
      i := i + 8;
    }
    while i < blocklen
      invariant at == from + i && i <= blocklen && At(t1, t2, start, buffer, from, at)
    {
      t1, t2 := Add(t1, t2, buffer, at, start, from);
      at := at + 1;
      i := i + 1;
    }
  }

  /** The sums after the first n bytes, reduced or, when none was read, as they came in. */
  ghost predicate Summed(s1: Word, s2: Word, start: Sums, buffer: seq<Byte>, n: nat, untouched: bool) {
    && n <= |buffer|
    && var s := Sums(s1 as int, s2 as int);
       if untouched then n == 0 && s == start else s == Checksum(start, buffer[..n])
  }

  lemma BlockSummed(start: Sums, buffer: seq<Byte>, s: Sums, n: nat, untouched: bool, blocklen: nat)
    requires n + blocklen <= |buffer| && start.Halves()
    requires if untouched then n == 0 && s == start else s == Checksum(start, buffer[..n])
    ensures s.Halves()
    ensures Reduce(Raw(s, buffer[n..n + blocklen])) == Checksum(start, buffer[..n + blocklen])
  {
    RawReduces(s, buffer[n..n + blocklen]);
    if untouched {
      assert buffer[n..n + blocklen] == buffer[..n + blocklen];
    } else {
      ChecksumReduced(start, buffer[..n]);
      assert buffer[..n] + buffer[n..n + blocklen] == buffer[..n + blocklen];
      ChecksumConcat(start, buffer[..n], buffer[n..n + blocklen]);
    }
  }

  /** One block more, and the reduction after it. */
  method SumBlock(s1: Word, s2: Word, buffer: seq<Byte>, n: nat, blocklen: nat, ghost start: Sums,
                  ghost untouched: bool)
    returns (t1: Word, t2: Word)
    requires start.Halves() && n + blocklen <= |buffer| && blocklen <= BLOCK
    requires Summed(s1, s2, start, buffer, n, untouched)
    ensures Summed(t1, t2, start, buffer, n + blocklen, false)
  {
    hide Checksum, Raw;
    BlockSummed(start, buffer, Sums(s1 as int, s2 as int), n, untouched, blocklen);
    t1, t2 := Block(s1, s2, buffer, n, blocklen);
    t1, t2 := t1 % (ADLER_MOD as Word), t2 % (ADLER_MOD as Word);
  }

  lemma SplitIs(adler32: Word)
    ensures Split(adler32).Halves()
    ensures Sums((adler32 % 0x1_0000) as int, (adler32 / 0x1_0000) as int) == Split(adler32)
  {
  }

  lemma PackedIs(s1: Word, s2: Word)
    requires s1 < 0x1_0000 && s2 < 0x1_0000
    ensures s2 as int * 0x1_0000 + s1 as int < 0x1_0000_0000
    ensures Sums(s1 as int, s2 as int).Packed() == s2 as int * 0x1_0000 + s1 as int
  {
  }

  /** What the sums are in the end. */
  lemma SummedAll(s1: Word, s2: Word, adler32: Word, buffer: seq<Byte>, untouched: bool)
    requires Summed(s1, s2, Split(adler32), buffer, |buffer|, untouched) && (untouched <==> |buffer| == 0)
    ensures s1 < 0x1_0000 && s2 < 0x1_0000
    ensures |buffer| == 0 ==> Sums(s1 as int, s2 as int).Packed() == adler32 as int
    ensures |buffer| > 0 ==> Sums(s1 as int, s2 as int) == Checksum(Split(adler32), buffer)
  {
    hide Checksum;
    SplitIs(adler32);
    assert buffer[..|buffer|] == buffer;
    SumsFit(s1, s2, Split(adler32), buffer, |buffer|, untouched);
  }

  /**
   * The program's checksum is the standard's, for every length and every starting value. With no
   * byte to read it returns the starting value as it is; see SplitReduced.
   */
  method Adler32(adler32: Word, buffer: seq<Byte>) returns (r: Word)
    ensures |buffer| == 0 ==> r == adler32
    ensures |buffer| > 0 ==> r as int == Checksum(Split(adler32), buffer).Packed()
    ensures |buffer| > 0 ==>
      var low, high := adler32 as int % 0x1_0000, adler32 as int / 0x1_0000;
      && r as int % 0x1_0000 == (low + Sum(buffer)) % 65521
      && r as int / 0x1_0000 == (high + |buffer| * low + Weighted(buffer)) % 65521
  {
    hide Checksum, Summed, Split, Sums.Packed, Sum, Weighted;
    var s1, s2 := adler32 % 0x1_0000, adler32 / 0x1_0000;
    ghost var start, untouched := Split(adler32), true;
    var buflen := |buffer|;
    var blocklen := buflen % BLOCK;
    NothingSummed(adler32, buffer);
    while buflen > 0
      invariant 0 <= buflen <= |buffer| && (buflen > 0 ==> blocklen <= buflen) && blocklen <= BLOCK
      invariant untouched ==> buflen == |buffer| && blocklen == buflen % BLOCK
      invariant !untouched ==> |buffer| > 0 && buflen % BLOCK == 0 && blocklen == BLOCK
      invariant Summed(s1, s2, start, buffer, |buffer| - buflen, untouched)
      decreases buflen, untouched
    {
      s1, s2 := SumBlock(s1, s2, buffer, |buffer| - buflen, blocklen, start, untouched);
      BlocksLeft(buflen, blocklen);
      buflen := buflen - blocklen;
      blocklen := BLOCK;
      untouched := false;
    }
    SummedAll(s1, s2, adler32, buffer, untouched);
    PackedIs(s1, s2);
    r := s2 * 0x1_0000 + s1;
    SumsAre(adler32, s1, s2, r);
    ChecksumIs(Split(adler32), buffer);
  }

  lemma SumsAre(adler32: Word, s1: Word, s2: Word, r: Word)
    requires s1 < 0x1_0000 && s2 < 0x1_0000 && r as int == s2 as int * 0x1_0000 + s1 as int
    ensures r as int % 0x1_0000 == s1 as int && r as int / 0x1_0000 == s2 as int
    ensures Split(adler32) == Sums(adler32 as int % 0x1_0000, adler32 as int / 0x1_0000)
  {
  }

  lemma NothingSummed(adler32: Word, buffer: seq<Byte>)
    ensures Split(adler32).Halves()
    ensures Summed(adler32 % 0x1_0000, adler32 / 0x1_0000, Split(adler32), buffer, 0, true)
  {
    SplitIs(adler32);
  }

  /** After the odd block or a whole one, whole blocks are left. */
  lemma BlocksLeft(buflen: nat, blocklen: nat)
    requires blocklen <= buflen && (blocklen == buflen % BLOCK || (blocklen == BLOCK && buflen % BLOCK == 0))
    ensures (buflen - blocklen) % BLOCK == 0 && (buflen - blocklen > 0 ==> BLOCK <= buflen - blocklen)
  {
  }

  lemma SumsFit(s1: Word, s2: Word, start: Sums, buffer: seq<Byte>, n: nat, untouched: bool)
    requires Summed(s1, s2, start, buffer, n, untouched) && start.Halves()
    ensures s1 < 0x1_0000 && s2 < 0x1_0000
  {
    if !untouched {
      ChecksumReduced(start, buffer[..n]);
    }
  }

  lemma ReducesTo(x: int)
    requires 0 <= x
    ensures 0 <= x % ADLER_MOD <= x && (x % ADLER_MOD == x <==> x < ADLER_MOD)
  {
  }

  /** The standard's checksum of no bytes is the starting value exactly when both its halves are reduced. */
  lemma SplitReduced(checksum: Word)
    ensures Checksum(Split(checksum), []).Packed() == checksum as int <==> Split(checksum).Reduced()
  {
    var s := Split(checksum);
    hide Split;
    ReducesTo(s.s1);
    ReducesTo(s.s2);
  }
}
