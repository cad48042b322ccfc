/**
 * The decompressor. Its state is a write position in the output and the barriers around the output
 * and the input; a token that would cross a barrier moves the write position past the end, and the
 * loop then gives up.
 */
module Decompressor {
  import opened Adler
  import opened TokenFormat

  // ---------------------------------------------------------------------------------------------
  // Meaning
  // ---------------------------------------------------------------------------------------------

  /** Copying byte by byte from a distance back: the copy may read what it has just written. */
  function CopyBack(out: seq<Byte>, distance: nat, length: nat): (r: seq<Byte>)
    requires 1 <= distance <= |out|
    ensures |r| == |out| + length && r[..|out|] == out
  {
    if length == 0 then out
    else
      var o := CopyBack(out, distance, length - 1);
      o + [o[|o| - distance]]
  }

  /** The k-th copied byte is the one `distance` in front of it, in the old bytes or the new ones. */
  lemma {:induction false} CopyBackIsPeriodic(out: seq<Byte>, distance: nat, length: nat, k: nat)
    requires 1 <= distance <= |out| && k < length
    ensures CopyBack(out, distance, length)[|out| + k] == CopyBack(out, distance, length)[|out| + k - distance]
  {
    if k < length - 1 {
      CopyBackIsPeriodic(out, distance, length - 1, k);
    }
  }

  lemma NothingCopied(out: seq<Byte>, distance: nat, before: seq<Byte>)
    requires 1 <= distance <= |out| <= |before| && before[..|out|] == out
    ensures CopyBack(out, distance, 0) + before[|out|..] == before
  {
  }

  /** Writing one byte more over the rest of the old contents. */
  lemma CopyOneMore(out: seq<Byte>, distance: nat, k: nat, before: seq<Byte>)
    requires 1 <= distance <= |out| && |out| + k < |before|
    ensures
      var p := |out| + k;
      var now := CopyBack(out, distance, k) + before[p..];
      now[p := now[p - distance]] == CopyBack(out, distance, k + 1) + before[p + 1..]
  {
  }

  /** What a token adds to the output, if it stays within it and looks back no further than its start. */
  function Effect(out: seq<Byte>, t: Token, limit: nat): Option<seq<Byte>>
  {
    if |out| + t.Length() > limit then None
    else
      match t
      case Literal(_, data) => Some(out + data)
      case Copy(_, distance, length) =>
        if distance == 0 || distance > |out| then None else Some(CopyBack(out, distance, length))
  }

  /** The output of a token list. */
  function Expand(out: seq<Byte>, tokens: seq<Token>, limit: nat): Option<seq<Byte>>
    decreases |tokens|
  {
    if |tokens| == 0 then Some(out)
    else
      match Effect(out, tokens[0], limit)
      case None => None
      case Some(o) => Expand(o, tokens[1..], limit)
  }

  /** How long the output of the tokens is. */
  function Total(tokens: seq<Token>): nat {
    if |tokens| == 0 then 0 else tokens[0].Length() + Total(tokens[1..])
  }

  /** From s on, the result is what the token says: a literal's bytes in order, or bytes that each repeat the one a
      distance in front of it. */
  predicate Stands(t: Token, s: nat, result: seq<Byte>) {
    && s + t.Length() <= |result|
    && match t
       case Literal(_, data) => forall j | 0 <= j < |data| :: result[s + j] == data[j]
       case Copy(_, distance, length) =>
         1 <= distance <= s && forall j | s <= j < s + length :: result[j] == result[j - distance]
  }

  /** The result is made of the tokens, each behind those before it. */
  predicate MadeOf(tokens: seq<Token>, start: nat, result: seq<Byte>) {
    && start + Total(tokens) == |result|
    && forall k | 0 <= k < |tokens| :: Stands(tokens[k], start + Total(tokens[..k]), result)
  }

  lemma {:induction false} CopyBackIs(out: seq<Byte>, distance: nat, length: nat, result: seq<Byte>)
    requires 1 <= distance <= |out| && |out| + length <= |result| && result[..|out|] == out
    ensures
      result[..|out| + length] == CopyBack(out, distance, length) <==>
      forall j | |out| <= j < |out| + length :: result[j] == result[j - distance]
  {
    var n := |out| + length;
    if length > 0 {
      CopyBackIs(out, distance, length - 1, result);
      var o := CopyBack(out, distance, length - 1);
      assert result[..n] == result[..n - 1] + [result[n - 1]];
      if result[..n] == CopyBack(out, distance, length) {
        assert result[..n - 1] == CopyBack(out, distance, length)[..n - 1] == o;
      }
    }
  }

  /** A token's effect on the beginning of the result is the next stretch of it exactly where it stands there. */
  lemma EffectIs(out: seq<Byte>, t: Token, result: seq<Byte>)
    requires t.Valid() && |out| <= |result| && result[..|out|] == out
    ensures
      Stands(t, |out|, result) <==>
      |out| + t.Length() <= |result| && Effect(out, t, |result|) == Some(result[..|out| + t.Length()])
  {
    hide CopyBack;
    var n := |out| + t.Length();
    if n <= |result| {
      match t
      case Literal(_, data) =>
        var next := result[|out|..n];
        assert result[..n] == out + next;
        assert next == (out + next)[|out|..] && data == (out + data)[|out|..];
        assert forall j | 0 <= j < |data| :: result[|out| + j] == next[j];
        assert next == data <==> forall j | 0 <= j < |data| :: next[j] == data[j];
      case Copy(_, distance, length) =>
        if 1 <= distance <= |out| {
          CopyBackIs(out, distance, length, result);
        }
    }
  }

  lemma {:induction false} ExpandGrows(out: seq<Byte>, tokens: seq<Token>, limit: nat)
    requires Expand(out, tokens, limit).Some?
    ensures |out| <= |Expand(out, tokens, limit).value| && Expand(out, tokens, limit).value[..|out|] == out
    decreases |tokens|
  {
    if |tokens| > 0 {
      ExpandGrows(Effect(out, tokens[0], limit).value, tokens[1..], limit);
    }
  }

  /** A token list makes a result exactly when it is made of the tokens, position by position. */
  lemma {:induction false} ExpandIs(out: seq<Byte>, tokens: seq<Token>, result: seq<Byte>)
    requires AllValid(tokens) && |out| <= |result| && result[..|out|] == out
    ensures Expand(out, tokens, |result|) == Some(result) <==> MadeOf(tokens, |out|, result)
    decreases |tokens|
  {
    hide Effect, Stands;
    if |tokens| == 0 {
      assert result[..|result|] == result;
    } else {
      var t, rest := tokens[0], tokens[1..];
      var s := |out| + t.Length();
      EffectIs(out, t, result);
      MadeOfFirst(tokens, |out|, result);
      if Expand(out, tokens, |result|) == Some(result) {
        ExpandGrows(Effect(out, t, |result|).value, rest, |result|);
        EffectLength(out, t, |result|);
      }
      if s <= |result| {
        ExpandIs(result[..s], rest, result);
      }
    }
  }

  lemma EffectLength(out: seq<Byte>, t: Token, limit: nat)
    requires Effect(out, t, limit).Some?
    ensures |Effect(out, t, limit).value| == |out| + t.Length() <= limit
  {
  }

  lemma MadeOfFirst(tokens: seq<Token>, start: nat, result: seq<Byte>)
    requires |tokens| > 0
    ensures
      MadeOf(tokens, start, result) <==>
      Stands(tokens[0], start, result) && MadeOf(tokens[1..], start + tokens[0].Length(), result)
  {
    hide Stands;
    var rest := tokens[1..];
    assert tokens[..0] == [];
    forall k | 0 <= k < |rest| ensures Total(tokens[..k + 1]) == tokens[0].Length() + Total(rest[..k]) {
      assert tokens[..k + 1][1..] == rest[..k];
    }
    if MadeOf(tokens, start, result) {
      assert Stands(tokens[0], start + Total(tokens[..0]), result);
      forall k | 0 <= k < |rest|
        ensures Stands(rest[k], start + tokens[0].Length() + Total(rest[..k]), result)
      {
        assert Stands(tokens[k + 1], start + Total(tokens[..k + 1]), result);
      }
    }
    if Stands(tokens[0], start, result) && MadeOf(rest, start + tokens[0].Length(), result) {
      forall k | 0 <= k < |tokens| ensures Stands(tokens[k], start + Total(tokens[..k]), result) {
        if k > 0 {
          assert Stands(rest[k - 1], start + tokens[0].Length() + Total(rest[..k - 1]), result);
        }
      }
    }
  }

  lemma {:induction false} EffectGrows(out: seq<Byte>, t: Token, limit: nat)
    requires t.Valid() && Effect(out, t, limit).Some?
    ensures |out| < |Effect(out, t, limit).value| <= limit
  {
  }

  /** The checksum that closes a stream. */
  function ChecksumOf(out: seq<Byte>): int {
    Checksum(Sums(1, 0), out).Packed()
  }

  ghost predicate EndsAt(mem: Memory, i: nat, out: seq<Byte>, length: nat) {
    && mem(i) == 0x05 && mem(i + 1) == 0xfa
    && |out| == length
    && In4(mem, i + 2) == ChecksumOf(out)
  }

  /** Reading tokens from i until one of them does not advance. */
  ghost function Unpack(mem: Memory, i: nat, out: seq<Byte>, length: nat): Option<seq<Byte>>
    requires |out| <= length
    decreases length - |out|
  {
    match TokenAt(mem, i)
    case None => if EndsAt(mem, i, out, length) then Some(out) else None
    case Some(t) =>
      match Effect(out, t, length)
      case None => None
      case Some(o) =>
        EffectGrows(out, t, length);
        Unpack(mem, i + |Encode(t)|, o, length)
  }

  ghost predicate HasHeader(mem: Memory) {
    In4(mem, 0) == 0x57bc_0000 && In4(mem, 4) == 0
  }

  /** What a stream decompresses to, if it is one. */
  ghost function Decompressed(mem: Memory): Option<seq<Byte>> {
    if HasHeader(mem) then Unpack(mem, 16, [], In4(mem, 8)) else None
  }

  // ---------------------------------------------------------------------------------------------
  // Round trip
  // ---------------------------------------------------------------------------------------------

  /** The end marker and the checksum, most significant byte first. */
  function Ending(out: seq<Byte>): seq<Byte> {
    ChecksumFits(out);
    [0x05, 0xfa] + Bytes4(ChecksumOf(out))
  }

  lemma ChecksumFits(out: seq<Byte>)
    ensures 0 <= ChecksumOf(out) < 0x1_0000_0000
  {
    ChecksumReduced(Sums(1, 0), out);
  }

  /** The memory holds a token list's encoding and its end from i on, and the list makes `result`. */
  ghost predicate Packs(mem: Memory, i: nat, out: seq<Byte>, tokens: seq<Token>, result: seq<Byte>) {
    && AllValid(tokens)
    && Expand(out, tokens, |result|) == Some(result)
    && Holds(mem, i, EncodeAll(tokens))
    && Holds(mem, i + |EncodeAll(tokens)|, Ending(result))
  }

  lemma EndingHolds(mem: Memory, i: nat, out: seq<Byte>)
    ensures Holds(mem, i, Ending(out)) <==> EndsAt(mem, i, out, |out|)
  {
    hide Holds, In4, Bytes4;
    ChecksumFits(out);
    var n := ChecksumOf(out);
    HoldsConcat(mem, i, [0x05, 0xfa], Bytes4(n));
    assert [0x05, 0xfa] == [0x05] + [0xfa];
    HoldsConcat(mem, i, [0x05], [0xfa]);
    HoldsOne(mem, i, 0x05);
    HoldsOne(mem, i + 1, 0xfa);
    Bytes4Hold(mem, i + 2, n);
  }

  /** Decompression inverts the encoding of every token list, overlapping copies included. */
  lemma {:induction false} UnpackInverts(mem: Memory, i: nat, out: seq<Byte>, tokens: seq<Token>, result: seq<Byte>)
    requires Packs(mem, i, out, tokens, result)
    ensures |out| <= |result| && Unpack(mem, i, out, |result|) == Some(result)
    decreases |tokens|
  {
    hide Holds, Encode, TokenAt, Ending, EndsAt;
    if |tokens| == 0 {
      EndingHolds(mem, i, out);
      EndIsNoToken(mem, i, out, |result|);
    } else {
      var t, rest := tokens[0], tokens[1..];
      HoldsConcat(mem, i, Encode(t), EncodeAll(rest));
      ReadsBack(mem, i, t);
      EffectGrows(out, t, |result|);
      UnpackInverts(mem, i + |Encode(t)|, Effect(out, t, |result|).value, rest, result);
    }
  }

  lemma EndIsNoToken(mem: Memory, i: nat, out: seq<Byte>, length: nat)
    requires EndsAt(mem, i, out, length)
    ensures TokenAt(mem, i) == None
  {
  }

  /** Conversely, whatever decompresses is the encoding of some token list. */
  lemma {:induction false} UnpackIsSound(mem: Memory, i: nat, out: seq<Byte>, length: nat) returns (tokens: seq<Token>)
    requires |out| <= length && Unpack(mem, i, out, length).Some?
    ensures |Unpack(mem, i, out, length).value| == length
    ensures Packs(mem, i, out, tokens, Unpack(mem, i, out, length).value)
    decreases length - |out|
  {
    hide Holds, Encode, TokenAt, Ending, EndsAt;
    match TokenAt(mem, i)
    case None =>
      tokens := [];
      EndsHere(mem, i, out, length);
    case Some(t) =>
      EffectGrows(out, t, length);
      var o := Effect(out, t, length).value;
      var rest := UnpackIsSound(mem, i + |Encode(t)|, o, length);
      tokens := [t] + rest;
      ReadsBack(mem, i, t);
      HoldsConcat(mem, i, Encode(t), EncodeAll(rest));
      assert tokens[1..] == rest;
  }

  lemma EndsHere(mem: Memory, i: nat, out: seq<Byte>, length: nat)
    requires EndsAt(mem, i, out, length)
    ensures |out| == length && Packs(mem, i, out, [], out)
  {
    EndingHolds(mem, i, out);
  }

  /** A stream decompresses to `result` exactly when it is a header and a packing of `result`. */
  lemma StreamsAreEncodings(mem: Memory, result: seq<Byte>)
    ensures Decompressed(mem) == Some(result) <==>
      HasHeader(mem) && In4(mem, 8) == |result| && (exists tokens :: Packs(mem, 16, [], tokens, result))
  {
    hide Packs, Unpack, In4;
    if Decompressed(mem) == Some(result) {
      var tokens := UnpackIsSound(mem, 16, [], In4(mem, 8));
    }
    if HasHeader(mem) && In4(mem, 8) == |result| && exists tokens :: Packs(mem, 16, [], tokens, result) {
      var tokens :| Packs(mem, 16, [], tokens, result);
      UnpackInverts(mem, 16, [], tokens, result);
    }
  }

  /** A whole stream, byte by byte: the mark 57 BC and a length of 64 bits whose upper half is 0, at 16 the tokens, of
      which the result is made, then 05 FA and the two sums of the result modulo 65521. */
  ghost predicate Stream(mem: Memory, tokens: seq<Token>, result: seq<Byte>) {
    && mem(0) == 0x57 && mem(1) == 0xbc && mem(2) == 0 && mem(3) == 0
    && mem(4) == 0 && mem(5) == 0 && mem(6) == 0 && mem(7) == 0
    && mem(8) * 0x100_0000 + mem(9) * 0x1_0000 + mem(10) * 0x100 + mem(11) == |result|
    && AllValid(tokens) && Holds(mem, 16, EncodeAll(tokens)) && MadeOf(tokens, 0, result)
    && var end := 16 + |EncodeAll(tokens)|;
       && mem(end) == 0x05 && mem(end + 1) == 0xfa
       && mem(end + 2) * 0x100 + mem(end + 3) == (|result| + Weighted(result)) % 65521
       && mem(end + 4) * 0x100 + mem(end + 5) == (1 + Sum(result)) % 65521
  }

  lemma HeaderIs(mem: Memory)
    ensures HasHeader(mem) <==>
      && mem(0) == 0x57 && mem(1) == 0xbc && mem(2) == 0 && mem(3) == 0
      && mem(4) == 0 && mem(5) == 0 && mem(6) == 0 && mem(7) == 0
    ensures In4(mem, 8) == mem(8) * 0x100_0000 + mem(9) * 0x1_0000 + mem(10) * 0x100 + mem(11)
  {
  }

  lemma EndIs(mem: Memory, i: nat, out: seq<Byte>)
    ensures EndsAt(mem, i, out, |out|) <==>
      && mem(i) == 0x05 && mem(i + 1) == 0xfa
      && mem(i + 2) * 0x100 + mem(i + 3) == (|out| + Weighted(out)) % 65521
      && mem(i + 4) * 0x100 + mem(i + 5) == (1 + Sum(out)) % 65521
  {
    hide Checksum, Weighted, Sum;
    ChecksumIs(Sums(1, 0), out);
  }

  lemma StreamIs(mem: Memory, tokens: seq<Token>, result: seq<Byte>)
    ensures Stream(mem, tokens, result) <==>
      HasHeader(mem) && In4(mem, 8) == |result| && Packs(mem, 16, [], tokens, result)
  {
    hide Holds, HasHeader, EndsAt, EncodeAll, Expand, MadeOf, Ending, Sum, Weighted, In4;
    HeaderIs(mem);
    if AllValid(tokens) {
      var end := 16 + |EncodeAll(tokens)|;
      EndIs(mem, end, result);
      EndingHolds(mem, end, result);
      ExpandIs([], tokens, result);
    }
  }

  /** A stream decompresses to `result` exactly when it is, byte by byte, a stream of tokens that make `result`. */
  lemma StreamsDecompress(mem: Memory, result: seq<Byte>)
    ensures Decompressed(mem) == Some(result) <==> exists tokens :: Stream(mem, tokens, result)
  {
    hide Stream, Packs, Decompressed, HasHeader, In4;
    StreamsAreEncodings(mem, result);
    forall tokens
      ensures Stream(mem, tokens, result) <==>
        HasHeader(mem) && In4(mem, 8) == |result| && Packs(mem, 16, [], tokens, result)
    {
      StreamIs(mem, tokens, result);
    }
  }

  lemma AllStreams(mem: Memory)
    ensures forall tokens, result :: Stream(mem, tokens, result) ==> Decompressed(mem) == Some(result)
    ensures Decompressed(mem).Some? ==> exists tokens :: Stream(mem, tokens, Decompressed(mem).value)
  {
    hide Stream, Decompressed;
    forall tokens, result | Stream(mem, tokens, result) ensures Decompressed(mem) == Some(result) {
      StreamsDecompress(mem, result);
    }
    if Decompressed(mem).Some? {
      StreamsDecompress(mem, Decompressed(mem).value);
    }
  }

  /** Two literal bytes, and a copy of three from a distance of two. */
  lemma StreamExample(mem: Memory)
    requires mem(0) == 0x57 && mem(1) == 0xbc && forall i | 2 <= i < 11 :: mem(i) == 0
    requires mem(11) == 5
    requires mem(16) == 0x21 && mem(17) == 0x41 && mem(18) == 0x42 && mem(19) == 0x82 && mem(20) == 0x01
    requires mem(21) == 0x05 && mem(22) == 0xfa
    requires mem(23) == 0x03 && mem(24) == 0xda && mem(25) == 0x01 && mem(26) == 0x48
    ensures Decompressed(mem) == Some([0x41, 0x42, 0x41, 0x42, 0x41])
  {
    hide TokenAt, Encode, Effect, EndsAt, In4, HasHeader, Sum, Weighted;
    var out: seq<Byte> := [0x41, 0x42, 0x41, 0x42, 0x41];
    ExampleLiteral(mem);
    ExampleCopy(mem);
    ExampleSums(out);
    EndIs(mem, 21, out);
    EndIsNoToken(mem, 21, out, 5);
    HeaderIs(mem);
    assert Unpack(mem, 21, out, 5) == Some(out);
    assert Unpack(mem, 19, [0x41, 0x42], 5) == Some(out);
  }

  lemma ExampleLiteral(mem: Memory)
    requires mem(16) == 0x21 && mem(17) == 0x41 && mem(18) == 0x42
    ensures
      var t := Literal(Short, [0x41, 0x42]);
      TokenAt(mem, 16) == Some(t) && |Encode(t)| == 3 && Effect([], t, 5) == Some([0x41, 0x42])
  {
    assert Slice(mem, 17, 2) == [0x41, 0x42];
    var data: seq<Byte> := [0x41, 0x42];
    assert [] + data == data;
  }

  lemma ExampleCopy(mem: Memory)
    requires mem(19) == 0x82 && mem(20) == 0x01
    ensures
      var t := Copy(Near, 2, 3);
      && TokenAt(mem, 19) == Some(t) && |Encode(t)| == 2
      && Effect([0x41, 0x42], t, 5) == Some([0x41, 0x42, 0x41, 0x42, 0x41])
  {
    var out: seq<Byte> := [0x41, 0x42];
    assert CopyBack(out, 2, 0) == out;
    assert CopyBack(out, 2, 1) == [0x41, 0x42, 0x41];
    assert CopyBack(out, 2, 2) == [0x41, 0x42, 0x41, 0x42];
    assert CopyBack(out, 2, 3) == [0x41, 0x42, 0x41, 0x42, 0x41];
  }

  lemma ExampleSums(out: seq<Byte>)
    requires out == [0x41, 0x42, 0x41, 0x42, 0x41]
    ensures Sum(out) == 0x147 && |out| + Weighted(out) == 0x3da
  {
    var a, b, c, d := out[1..], out[2..], out[3..], out[4..];
    assert a[1..] == b && b[1..] == c && c[1..] == d && d[1..] == [];
    assert Sum(d) == 0x41 && Weighted(d) == 0x41;
    assert Sum(c) == 0x42 + Sum(d) && Weighted(c) == 2 * 0x42 + Weighted(d);
    assert Sum(b) == 0x41 + Sum(c) && Weighted(b) == 3 * 0x41 + Weighted(c);
    assert Sum(a) == 0x42 + Sum(b) && Weighted(a) == 4 * 0x42 + Weighted(b);
  }

  // ---------------------------------------------------------------------------------------------
  // The program
  // ---------------------------------------------------------------------------------------------

  /** How far reading advances. */
  function Advance(t: Option<Token>): nat
    requires t.Some? ==> t.value.Valid()
  {
    match t
    case None => 0
    case Some(token) => |Encode(token)|
  }

  lemma LargeAdvance(mem: Memory, i: nat)
    requires mem(i) < 0x20
    ensures
      var b := mem(i);
      Advance(TokenAt(mem, i)) ==
        if b >= 0x18 then 4
        else if b >= 0x10 then 5
        else if b >= 0x08 then 2 + (In2(mem, i) - 0x800 + 1)
        else if b == 0x07 then 3 + (In2(mem, i + 1) + 1)
        else if b == 0x06 then 5
        else if b == 0x04 then 6
        else 0
  {
    hide In2, In3, Bytes2, Bytes3;
  }

  /** The output after reading: as it was when there was no token. */
  function Result(out: seq<Byte>, t: Option<Token>, limit: nat): Option<seq<Byte>> {
    match t
    case None => Some(out)
    case Some(token) => Effect(out, token, limit)
  }

  lemma UnpackStep(mem: Memory, i: nat, out: seq<Byte>, length: nat)
    requires |out| <= length
    requires TokenAt(mem, i).Some?
    ensures
      var after := Result(out, TokenAt(mem, i), length);
      if after.None? then Unpack(mem, i, out, length) == None
      else
        && |out| < |after.value| <= length
        && Unpack(mem, i, out, length) == Unpack(mem, i + Advance(TokenAt(mem, i)), after.value, length)
  {
    if Effect(out, TokenAt(mem, i).value, length).Some? {
      EffectGrows(out, TokenAt(mem, i).value, length);
    }
  }

  lemma ChecksumFromOne(out: seq<Byte>)
    ensures Split(1) == Sums(1, 0)
    ensures |out| == 0 ==> ChecksumOf(out) == 1
  {
    hide Checksum;
    if |out| == 0 {
      ChecksumOfNothing(out);
    }
  }

  lemma ChecksumOfNothing(out: seq<Byte>)
    requires |out| == 0
    ensures Checksum(Sums(1, 0), out) == Sums(1, 0)
  {
  }

  /** The program's static variables; positions in the output count from its start. */
  class Decoder {
    const output: array<Byte>
    var barrierOutE: nat
    var barrierOutB: int
    var barrierInB: nat
    var dout: int

    ghost predicate Valid()
      reads this
    {
      barrierOutB == 0 && 0 <= dout && barrierOutE <= output.Length
    }

    /** The bytes written so far. */
    ghost function Written(): seq<Byte>
      requires Valid() && dout <= barrierOutE
      reads this, output
    {
      output[..dout]
    }

    /** What a step leaves: the new output and nothing else touched, or a write position past the end. */
    ghost predicate Holds(written: Option<seq<Byte>>, before: seq<Byte>)
      reads this, output
    {
      && Valid()
      && |before| == output.Length
      && match written
         case None => dout > barrierOutE && output[..] == before
         case Some(o) => dout == |o| <= barrierOutE && output[..] == o + before[|o|..]
    }

    constructor (output: array<Byte>)
      ensures this.output == output && dout == 0 && barrierOutE == 0 && Valid()
    {
      this.output := output;
      barrierOutE, barrierOutB, barrierInB, dout := 0, 0, 0, 0;
    }

    /** Copies from earlier output, one byte after the other. */
    method Match(data: int, length: nat)
      requires Valid() && dout <= barrierOutE && data < dout && 1 <= length
      modifies this`dout, output
      ensures Holds(
        if old(dout) + length > barrierOutE || data < 0 then None
        else Some(CopyBack(old(Written()), old(dout) - data, length)), old(output[..]))
      ensures old(dout) + length <= barrierOutE && data >= 0 ==>
        dout == old(dout) + length && forall j | old(dout) <= j < dout :: output[j] == output[j - (old(dout) - data)]
    {
      hide CopyBack;
      if dout + length > barrierOutE {
        dout := dout + length;
        return;
      }
      if data < barrierOutB {
        dout := barrierOutE + 1;
        return;
      }
      CopyRun(data, length);
      assert output[..dout] == CopyBack(old(Written()), old(dout) - data, length);
      CopyBackIs(old(Written()), old(dout) - data, length, output[..dout]);
    }

    method CopyRun(data: nat, length: nat)
      requires Valid() && data < dout && dout + length <= barrierOutE && 1 <= length
      modifies this`dout, output
      ensures Holds(Some(CopyBack(old(Written()), old(dout) - data, length)), old(output[..]))
    {
      hide CopyBack, Decoder.Copying;
      ghost var out, before, distance := Written(), output[..], dout - data;
      StartCopying(distance);
      var from := data;
      var left := length;
      while left > 0
        invariant left <= length && from == data + (length - left)
        invariant Copying(out, before, distance, length - left)
      {
        CopyingAt(out, before, distance, length - left);
        CopyByte(from, out, before, distance, length - left);
        from := from + 1;
        left := left - 1;
      }
      DoneCopying(out, before, distance, length);
    }

    /** After k bytes of a copy. */
    ghost predicate Copying(out: seq<Byte>, before: seq<Byte>, distance: nat, k: nat)
      reads this, output
    {
      && Valid() && |before| == output.Length && 1 <= distance <= |out|
      && dout == |out| + k <= barrierOutE
      && output[..] == CopyBack(out, distance, k) + before[dout..]
    }

    lemma StartCopying(distance: nat)
      requires Valid() && dout <= barrierOutE && 1 <= distance <= dout
      ensures Copying(Written(), output[..], distance, 0)
    {
      NothingCopied(Written(), distance, output[..]);
    }

    lemma CopyingAt(out: seq<Byte>, before: seq<Byte>, distance: nat, k: nat)
      requires Copying(out, before, distance, k)
      ensures dout == |out| + k
    {
    }

    lemma DoneCopying(out: seq<Byte>, before: seq<Byte>, distance: nat, k: nat)
      requires Copying(out, before, distance, k)
      ensures Valid() && Holds(Some(CopyBack(out, distance, k)), before)
    {
    }

    /** Writes the byte from the given position, and moves on. */
    method CopyByte(from: int, ghost out: seq<Byte>, ghost before: seq<Byte>, ghost distance: nat, ghost k: nat)
      requires Copying(out, before, distance, k) && from == dout - distance && dout < barrierOutE
      modifies this`dout, output
      ensures Copying(out, before, distance, k + 1)
    {
      hide CopyBack;
      ghost var now := output[..];
      CopyOneMore(out, distance, k, before);
      output[dout] := output[from];
      assert output[..] == now[dout := now[from]];
      dout := dout + 1;
    }

    /** Copies literal bytes from the input. */
    method Lit(mem: Memory, data: nat, length: nat)
      requires Valid() && dout <= barrierOutE && 1 <= length
      modifies this`dout, output
      ensures Holds(
        if data < barrierInB then None
        else Effect(old(Written()), Literal(Long, Slice(mem, data, length)), barrierOutE), old(output[..]))
      ensures old(dout) + length <= barrierOutE && data >= barrierInB ==>
        dout == old(dout) + length && forall j | old(dout) <= j < dout :: output[j] == mem(data + (j - old(dout)))
    {
      if dout + length > barrierOutE {
        dout := dout + length;
        return;
      }
      if data < barrierInB {
        dout := barrierOutE + 1;
        return;
      }
      ghost var out, before := Written(), output[..];
      forall k | 0 <= k < length {
        output[dout + k] := mem(data + k);
      }
      assert output[..] == out + Slice(mem, data, length) + before[dout + length..];
      dout := dout + length;
    }

    /** Reads one token; the input position stays where it is when there is none. */
    method Token(mem: Memory, i: nat) returns (next: nat)
      requires Valid() && dout <= barrierOutE && barrierInB <= i
      modifies this`dout, output
      ensures next == i + Advance(TokenAt(mem, i))
      ensures Holds(Result(old(Written()), TokenAt(mem, i), barrierOutE), old(output[..]))
    {
      next := i;
      if mem(i) >= 0x20 {
        next := SmallToken(mem, i);
      } else {
        next := LargeToken(mem, i);
      }
    }

    /** The forms that expand to little. */
    method SmallToken(mem: Memory, i: nat) returns (next: nat)
      requires Valid() && dout <= barrierOutE && barrierInB <= i && mem(i) >= 0x20
      modifies this`dout, output
      ensures next == i + Advance(TokenAt(mem, i))
      ensures Holds(Result(old(Written()), TokenAt(mem, i), barrierOutE), old(output[..]))
    {
      hide Decoder.Holds, CopyBack, Slice, In2, In3;
      var b := mem(i);
      First2(mem, i);
      if b >= 0x80 {
        Match(dout - mem(i + 1) - 1, b - 0x80 + 1);
        next := i + 2;
      } else if b >= 0x40 {
        Match(dout - (In2(mem, i) - 0x4000 + 1), mem(i + 2) + 1);
        next := i + 3;
      } else {
        Lit(mem, i + 1, b - 0x20 + 1);
        next := i + 1 + (b - 0x20 + 1);
      }
    }

    /** The forms that expand to much. */
    method LargeToken(mem: Memory, i: nat) returns (next: nat)
      requires Valid() && dout <= barrierOutE && barrierInB <= i && mem(i) < 0x20
      modifies this`dout, output
      ensures next == i + Advance(TokenAt(mem, i))
      ensures Holds(Result(old(Written()), TokenAt(mem, i), barrierOutE), old(output[..]))
    {
      hide Decoder.Holds, CopyBack, Slice, In2, In3, Encode, Advance;
      LargeAdvance(mem, i);
      next := i;
      var b := mem(i);
      First2(mem, i);
      First3(mem, i);
      if b >= 0x18 {
        Match(dout - (In3(mem, i) - 0x18_0000 + 1), mem(i + 3) + 1);
        next := i + 4;
      } else if b >= 0x10 {
        Match(dout - (In3(mem, i) - 0x10_0000 + 1), In2(mem, i + 3) + 1);
        next := i + 5;
      } else if b >= 0x08 {
        Lit(mem, i + 2, In2(mem, i) - 0x800 + 1);
        next := i + 2 + (In2(mem, i) - 0x800 + 1);
      } else if b == 0x07 {
        Lit(mem, i + 3, In2(mem, i + 1) + 1);
        next := i + 3 + (In2(mem, i + 1) + 1);
      } else if b == 0x06 {
        Match(dout - (In3(mem, i + 1) + 1), mem(i + 4) + 1);
        next := i + 5;
      } else if b == 0x04 {
        Match(dout - (In3(mem, i + 1) + 1), In2(mem, i + 4) + 1);
        next := i + 6;
      } else {
        Untouched();
      }
    }

    /** The state between two tokens: the rest of the stream decides. */
    ghost predicate Unpacking(mem: Memory, i: nat, length: nat, result: Option<seq<Byte>>, before: seq<Byte>)
      reads this, output
    {
      && Valid() && barrierInB <= i && barrierOutE == length && 0 <= dout <= length
      && |before| == output.Length && output[length..] == before[length..]
      && Unpack(mem, i, Written(), length) == result
    }

    /** One token: the state stays, or the write position is past the end and there is no result. */
    method Step(mem: Memory, i: nat, ghost result: Option<seq<Byte>>, ghost before: seq<Byte>) returns (next: nat)
      requires Unpacking(mem, i, barrierOutE, result, before)
      modifies this`dout, output
      ensures Valid() && barrierInB <= next && i <= next
      ensures next == i <==> TokenAt(mem, i) == None
      ensures |before| == output.Length && output[barrierOutE..] == before[barrierOutE..]
      ensures dout > barrierOutE ==> result == None && next > i
      ensures dout <= barrierOutE ==> Unpacking(mem, next, barrierOutE, result, before)
      ensures next == i ==> dout == old(dout) && output[..] == old(output[..])
      ensures next > i ==> dout > old(dout)
    {
      hide Encode, TokenAt, Effect;
      ghost var out, was := Written(), output[..];
      next := Token(mem, i);
      if TokenAt(mem, i).Some? {
        UnpackStep(mem, i, out, barrierOutE);
      }
      ghost var after := Result(out, TokenAt(mem, i), barrierOutE);
      if after.Some? {
        assert output[..] == after.value + was[|after.value|..];
        assert Written() == after.value;
        assert output[barrierOutE..] == was[barrierOutE..];
      } else {
        assert output[..] == was;
      }
    }

    /** Decompresses a stream into the output, or returns 0. */
    method Decompress(mem: Memory) returns (r: nat)
      requires HasHeader(mem) ==> In4(mem, 8) <= output.Length
      modifies this, output
      ensures Decompressed(mem).Some? ==> r == In4(mem, 8) == |Decompressed(mem).value|
      ensures Decompressed(mem).Some? ==> output[..r] == Decompressed(mem).value
      ensures Decompressed(mem).None? ==> r == 0
      ensures r <= output.Length
      ensures forall tokens, result :: Stream(mem, tokens, result) ==> r == |result| && output[..r] == result
      ensures r > 0 ==> exists tokens :: Stream(mem, tokens, output[..r])
      ensures HasHeader(mem) ==> output[In4(mem, 8)..] == old(output[In4(mem, 8)..])
      ensures !HasHeader(mem) ==> output[..] == old(output[..])
    {
      hide Unpack, Decoder.Valid, In4, Stream;
      AllStreams(mem);
      if In4(mem, 0) != 0x57bc_0000 {
        return 0;
      }
      if In4(mem, 4) != 0 {
        return 0;
      }
      var olen := In4(mem, 8);
      barrierInB := 0;
      barrierOutE := olen;
      barrierOutB := 0;
      var i := 16;
      dout := 0;
      ghost var result, before := Unpack(mem, 16, [], olen), output[..];
      StartUnpacking(mem, olen, result, before);
      r := Loop(mem, i, olen, result, before);
    }

    lemma StartUnpacking(mem: Memory, olen: nat, result: Option<seq<Byte>>, before: seq<Byte>)
      requires barrierInB == 0 && barrierOutE == olen <= output.Length && barrierOutB == 0 && dout == 0
      requires before == output[..] && result == Unpack(mem, 16, [], olen)
      ensures Unpacking(mem, 16, olen, result, before)
    {
      assert output[..0] == [];
    }

    method Loop(mem: Memory, start: nat, olen: nat, ghost result: Option<seq<Byte>>, ghost before: seq<Byte>)
      returns (r: nat)
      requires Unpacking(mem, start, olen, result, before) && barrierOutE == olen
      modifies this`dout, output
      ensures result.Some? ==> r == olen == |result.value| <= output.Length && output[..olen] == result.value
      ensures result.None? ==> r == 0
      ensures |before| == output.Length && olen <= output.Length && output[olen..] == before[olen..]
    {
      hide Unpack, Decoder.Unpacking, TokenAt;
      var i := start;
      UnpackingAt(mem, i, olen, result, before);
      while true
        invariant Unpacking(mem, i, olen, result, before) && dout <= olen == barrierOutE <= output.Length
        decreases olen - dout
      {
        var oldI := i;
        i := Step(mem, i, result, before);
        if i == oldI {
          r := Finish(mem, i, olen, result, before);
          return;
        }
        if dout > olen {
          return 0;
        }
      }
    }

    lemma UnpackingAt(mem: Memory, i: nat, olen: nat, result: Option<seq<Byte>>, before: seq<Byte>)
      requires Unpacking(mem, i, olen, result, before)
      ensures Valid() && dout <= olen == barrierOutE <= output.Length
    {
    }

    /** No token here: the stream ends as it should, or is given up. */
    method Finish(mem: Memory, i: nat, olen: nat, ghost result: Option<seq<Byte>>, ghost before: seq<Byte>)
      returns (r: nat)
      requires Unpacking(mem, i, olen, result, before) && TokenAt(mem, i) == None
      ensures result.Some? ==> r == olen == |result.value| <= output.Length && output[..olen] == result.value
      ensures result.None? ==> r == 0
      ensures |before| == output.Length && olen <= output.Length && output[olen..] == before[olen..]
    {
      hide In4, TokenAt;
      if mem(i) == 0x05 && mem(i + 1) == 0xfa {
        if dout != olen {
          return 0;
        }
        ChecksumFromOne(output[..olen]);
        var sum := Adler32(1, output[..olen]);
        if sum as int != In4(mem, i + 2) {
          return 0;
        }
        return olen;
      }
      return 0;
    }

    lemma Untouched()
      requires Valid() && dout <= barrierOutE
      ensures Holds(Some(Written()), output[..])
    {
      assert output[..] == output[..dout] + output[..][dout..];
    }
  }
}
